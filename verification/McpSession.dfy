/** An MCP client over stdio: request ids, the `initialize` handshake, replies matched by
    id under timeouts, and servers that exit and are started again. */
module McpSession {
  import opened Results
  import opened Bytes
  import opened StdioFraming

  const INITIALIZE := "initialize"

  /** What happens to one request or notification: whether the server must be started
      (again) and can be, whether the write succeeds, and which reads complete before the
      timeout. */
  datatype Attempt = Attempt(respawn: bool, spawnOk: bool, writeOk: bool, arrivals: seq<Bytes>)

  datatype Session = Session(process: nat, buf: Bytes)

  /** What was written to a server process and which reply was handed to which request. */
  datatype Entry =
    | Sent(id: Option<nat>, method_: string, process: nat)
    | Delivered(reply: Response, forId: nat, process: nat)

  datatype Client = Client(
    initialized: bool,
    nextId: nat,
    session: Option<Session>,
    spawned: nat,
    log: seq<Entry>)

  const NEW_CLIENT := Client(false, 1, None, 0, [])

  datatype RequestError = SpawnFailed | WriteFailed | Session_(failure: Failure) | TimedOut | Rpc(message: string)

  // ---- one request ----

  /** `ensure_session` */
  function EnsureSessionSpec(c: Client, a: Attempt): (d: Client)
    ensures d.session.None? ==> c.session.None?
  {
    if c.session.Some? && !a.respawn then c
    else if a.spawnOk then c.(session := Some(Session(c.spawned, [])), spawned := c.spawned + 1)
    else c
  }

  predicate SessionReady(c: Client, a: Attempt) { (c.session.Some? && !a.respawn) || a.spawnOk }

  function RequestSpec(codec: Codec, max: nat, c: Client, name: string,
                       a: Attempt): (r: (Client, Result<Response, RequestError>))
  {
    var id := c.nextId;
    var d := EnsureSessionSpec(c.(nextId := id + 1), a);
    if !SessionReady(c, a) then (d, Err(SpawnFailed))
    else
      var s := d.session.value;
      var e := d.(log := d.log + [Sent(Some(id), name, s.process)]);
      if !a.writeOk then (e, Err(WriteFailed)) else AnswerSpec(codec, max, e, id, a.arrivals)
  }

  /** The second half of a request: its reply is awaited. */
  function AnswerSpec(codec: Codec, max: nat, c: Client, id: nat,
                      arrivals: seq<Bytes>): (r: (Client, Result<Response, RequestError>))
    requires c.session.Some?
  {
    var s := c.session.value;
    var r := AwaitReply(codec, max, s.buf, arrivals, id);
    var d := c.(session := Some(s.(buf := r.buf)));
    match r.outcome
    case Failed(failure) => (d, Err(Session_(failure)))
    case Waiting => (d, Err(TimedOut))
    case Got(reply) =>
      (d.(log := d.log + [Delivered(reply, id, s.process)]),
       if reply.error.Some? then Err(Rpc(reply.error.value)) else Ok(reply))
  }

  function NotifySpec(c: Client, name: string, a: Attempt): Client {
    var d := EnsureSessionSpec(c, a);
    if !SessionReady(c, a) then d
    else d.(log := d.log + [Sent(None, name, d.session.value.process)])
  }

  function EnsureInitializedSpec(codec: Codec, max: nat, c: Client, first: Attempt, second: Attempt)
      : (Client, Result<(), RequestError>)
  {
    if c.initialized then (c, Ok(()))
    else
      var (d, r) := RequestSpec(codec, max, c, INITIALIZE, first);
      match r
      case Err(e) => (d, Err(e))
      case Ok(_) => (NotifySpec(d, "notifications/initialized", second).(initialized := true), Ok(()))
  }

  /** What a call hands back: the replies of all its pages, the error that broke it off, or
      nothing when its environment ends before its last page. */
  datatype Pages = Complete(replies: seq<Response>) | Broken(error: RequestError) | Unfinished

  function Behind(first: seq<Response>, rest: Pages): Pages {
    if rest.Complete? then Complete(first + rest.replies) else rest
  }

  /** The page loop of `list_tools` and `list_resources`; a call without pages is one round. */
  function PagesSpec(codec: Codec, max: nat, more: Response -> bool, c: Client, name: string,
                     attempts: seq<Attempt>): (Client, Pages)
    decreases |attempts|
  {
    if attempts == [] then (c, Unfinished)
    else
      var (d, r) := RequestSpec(codec, max, c, name, attempts[0]);
      match r
      case Err(e) => (d, Broken(e))
      case Ok(reply) =>
        if !more(reply) then (d, Complete([reply]))
        else
          var (f, rest) := PagesSpec(codec, max, more, d, name, attempts[1..]);
          (f, Behind([reply], rest))
  }

  /** `list_tools`, `list_resources`, `call_tool` or `read_resource` with its environment. */
  datatype Call = Call(name: string, more: Response -> bool, first: Attempt, second: Attempt, attempts: seq<Attempt>)

  lemma NothingBehind(pages: Pages)
    ensures Behind([], pages) == pages
  {
    if pages.Complete? {
      assert [] + pages.replies == pages.replies;
    }
  }

  function PerformSpec(codec: Codec, max: nat, c: Client, call: Call): (Client, Pages) {
    var (d, r) := EnsureInitializedSpec(codec, max, c, call.first, call.second);
    match r
    case Err(e) => (d, Broken(e))
    case Ok(_) => PagesSpec(codec, max, call.more, d, call.name, call.attempts)
  }

  function Run(codec: Codec, max: nat, calls: seq<Call>): Client {
    if calls == [] then NEW_CLIENT
    else PerformSpec(codec, max, Run(codec, max, calls[..|calls| - 1]), calls[|calls| - 1]).0
  }

  /** Replies to requests with the ids from `first` on, the last of which ends a listing. */
  ghost predicate Answers(replies: seq<Response>, more: Response -> bool, first: nat) {
    && replies != []
    && forall i :: 0 <= i < |replies| ==>
         && replies[i].id == Some(Number(first + i)) && replies[i].error.None?
         && (more(replies[i]) <==> i < |replies| - 1)
  }

  lemma AnswersCons(reply: Response, rest: seq<Response>, more: Response -> bool, first: nat)
    requires reply.id == Some(Number(first)) && reply.error.None? && more(reply) && Answers(rest, more, first + 1)
    ensures Answers([reply] + rest, more, first)
  {
    var all := [reply] + rest;
    assert forall i :: 1 <= i < |all| ==> all[i] == rest[i - 1];
  }

  /** A complete call hands back the replies to its own requests, which carry consecutive ids,
      in order; only the last of them ends the listing. */
  lemma {:induction false} CompleteCallsAnswerTheirRequests(codec: Codec, max: nat, more: Response -> bool, c: Client,
                                                            name: string, attempts: seq<Attempt>)
    ensures var (d, pages) := PagesSpec(codec, max, more, c, name, attempts);
            pages.Complete? ==>
              && Answers(pages.replies, more, c.nextId) && |pages.replies| <= |attempts|
              && d.nextId == c.nextId + |pages.replies|
    decreases |attempts|
  {
    if attempts != [] {
      RequestAnswer(codec, max, c, name, attempts[0]);
      var (d, r) := RequestSpec(codec, max, c, name, attempts[0]);
      if r.Ok? && more(r.value) {
        CompleteCallsAnswerTheirRequests(codec, max, more, d, name, attempts[1..]);
        var pages := PagesSpec(codec, max, more, d, name, attempts[1..]).1;
        if pages.Complete? {
          AnswersCons(r.value, pages.replies, more, c.nextId);
        }
      }
    }
  }

  /** What comes of the pages from the `page`-th on, with `replies` so far. */
  function Collected(codec: Codec, max: nat, call: Call, c: Client, page: nat, replies: seq<Response>): (Client, Pages)
    requires page <= |call.attempts|
  {
    var (d, rest) := PagesSpec(codec, max, call.more, c, call.name, call.attempts[page..]);
    (d, Behind(replies, rest))
  }

  lemma CollectedStep(codec: Codec, max: nat, call: Call, c: Client, page: nat, replies: seq<Response>)
    requires page < |call.attempts|
    ensures var (d, r) := RequestSpec(codec, max, c, call.name, call.attempts[page]);
            Collected(codec, max, call, c, page, replies)
            == if r.Err? then (d, Broken(r.error))
               else if !call.more(r.value) then (d, Complete(replies + [r.value]))
               else Collected(codec, max, call, d, page + 1, replies + [r.value])
  {
    var attempts := call.attempts[page..];
    assert attempts[0] == call.attempts[page] && attempts[1..] == call.attempts[page + 1..];
    var (d, r) := RequestSpec(codec, max, c, call.name, attempts[0]);
    if r.Ok? && call.more(r.value) {
      var rest := PagesSpec(codec, max, call.more, d, call.name, attempts[1..]).1;
      if rest.Complete? {
        assert replies + ([r.value] + rest.replies) == (replies + [r.value]) + rest.replies;
      }
    }
  }

  lemma RequestAnswer(codec: Codec, max: nat, c: Client, name: string, a: Attempt)
    ensures var (d, r) := RequestSpec(codec, max, c, name, a);
            && d.nextId == c.nextId + 1
            && (r.Ok? ==> r.value.id == Some(Number(c.nextId)) && r.value.error.None?)
  {
  }

  // ---- what every log satisfies ----

  /** Request ids strictly increase. */
  ghost predicate IdsIncrease(log: seq<Entry>, nextId: nat) {
    && (forall i :: 0 <= i < |log| && log[i].Sent? && log[i].id.Some? ==> log[i].id.value < nextId)
    && (forall i, j :: 0 <= i < j < |log| && log[i].Sent? && log[j].Sent? && log[i].id.Some? && log[j].id.Some? ==>
          log[i].id.value < log[j].id.value)
  }

  /** A reply is only ever handed to the request just sent, and carries its id. */
  ghost predicate RepliesMatch(log: seq<Entry>) {
    forall j :: 0 <= j < |log| && log[j].Delivered? ==>
      && log[j].reply.id == Some(Number(log[j].forId))
      && j > 0 && log[j - 1].Sent? && log[j - 1].id == Some(log[j].forId) && log[j - 1].process == log[j].process
  }

  /** Entry `i` is an `initialize` request whose reply, entry `i + 1`, was a success. */
  ghost predicate InitializedAt(log: seq<Entry>, i: nat) {
    && i + 1 < |log|
    && log[i].Sent? && log[i].method_ == INITIALIZE
    && log[i + 1].Delivered? && log[i + 1].reply.error.None?
  }

  /** Every other request comes after a successful `initialize`. */
  ghost predicate InitializeFirst(log: seq<Entry>) {
    forall j :: 0 <= j < |log| && log[j].Sent? && log[j].method_ != INITIALIZE ==>
      exists i :: 0 <= i && i + 1 < j && InitializedAt(log, i)
  }

  ghost predicate LogInv(log: seq<Entry>, nextId: nat, initialized: bool, spawned: nat) {
    && IdsIncrease(log, nextId)
    && RepliesMatch(log)
    && InitializeFirst(log)
    && (initialized ==> exists i: nat :: InitializedAt(log, i))
    && (!initialized ==> forall i: nat :: !InitializedAt(log, i))
    && (forall j :: 0 <= j < |log| ==> log[j].process < spawned)
  }

  ghost predicate Inv(c: Client) {
    && LogInv(c.log, c.nextId, c.initialized, c.spawned)
    && (c.session.Some? ==> c.session.value.process < c.spawned)
  }

  lemma AppendKeepsInitialized(log: seq<Entry>, e: Entry)
    ensures forall i: nat :: InitializedAt(log, i) ==> InitializedAt(log + [e], i)
    ensures forall i: nat :: i + 1 < |log| && InitializedAt(log + [e], i) ==> InitializedAt(log, i)
  {
    var more := log + [e];
    assert forall i :: 0 <= i < |log| ==> more[i] == log[i];
  }

  /** Writing a request or notification. */
  lemma SendKeepsInv(log: seq<Entry>, n: nat, initialized: bool, spawned: nat, m: nat, more: nat, e: Entry)
    requires LogInv(log, n, initialized, spawned) && n <= m && spawned <= more
    requires e.Sent? && e.process < more && (e.id.Some? ==> n <= e.id.value < m)
    requires e.method_ == INITIALIZE || initialized
    ensures LogInv(log + [e], m, initialized, more)
  {
    AppendKeepsInitialized(log, e);
    var after := log + [e];
    assert forall i: nat :: InitializedAt(after, i) ==> after[i + 1] != e;
    forall j | 0 <= j < |after| && after[j].Sent? && after[j].method_ != INITIALIZE
      ensures exists i :: 0 <= i && i + 1 < j && InitializedAt(after, i)
    {
      if j < |log| {
        var i :| 0 <= i && i + 1 < j && InitializedAt(log, i);
        assert InitializedAt(after, i);
      } else {
        var i: nat :| InitializedAt(log, i);
        assert InitializedAt(after, i);
      }
    }
    if initialized {
      var i: nat :| InitializedAt(log, i);
      assert InitializedAt(after, i);
    }
  }

  /** Handing over a reply to the request just written; a success of `initialize` counts as
      initialized from then on. */
  lemma DeliverKeepsInv(log: seq<Entry>, n: nat, initialized: bool, spawned: nat, e: Entry)
    requires LogInv(log, n, initialized, spawned) && log != [] && e.Delivered? && e.process < spawned
    requires var s := log[|log| - 1];
             && s.Sent? && s.id == Some(e.forId) && s.process == e.process
             && (s.method_ == INITIALIZE <==> !initialized)
    requires e.reply.id == Some(Number(e.forId))
    ensures LogInv(log + [e], n, initialized || e.reply.error.None?, spawned)
  {
    AppendKeepsInitialized(log, e);
    DeliverKeepsOrder(log, n, e);
    DeliverKeepsFirst(log, e);
    var after := log + [e];
    var last := |log| - 1;
    assert InitializedAt(after, last) <==> log[last].method_ == INITIALIZE && e.reply.error.None?;
    assert forall i: nat :: InitializedAt(after, i) ==> i == last || InitializedAt(log, i);
    if initialized {
      var i: nat :| InitializedAt(log, i);
      assert InitializedAt(after, i);
    }
  }

  lemma DeliverKeepsOrder(log: seq<Entry>, n: nat, e: Entry)
    requires IdsIncrease(log, n) && RepliesMatch(log) && log != [] && e.Delivered?
    requires var s := log[|log| - 1]; s.Sent? && s.id == Some(e.forId) && s.process == e.process
    requires e.reply.id == Some(Number(e.forId))
    ensures IdsIncrease(log + [e], n) && RepliesMatch(log + [e])
  {
    var after := log + [e];
    assert forall j :: 0 <= j < |log| ==> after[j] == log[j];
  }

  lemma DeliverKeepsFirst(log: seq<Entry>, e: Entry)
    requires InitializeFirst(log) && e.Delivered?
    ensures InitializeFirst(log + [e])
  {
    AppendKeepsInitialized(log, e);
    var after := log + [e];
    forall j | 0 <= j < |after| && after[j].Sent? && after[j].method_ != INITIALIZE
      ensures exists i :: 0 <= i && i + 1 < j && InitializedAt(after, i)
    {
      var i :| 0 <= i && i + 1 < j && InitializedAt(log, i);
      assert InitializedAt(after, i);
    }
  }

  /** What a request adds to the log, and when it succeeds. */
  lemma RequestLog(codec: Codec, max: nat, c: Client, name: string, a: Attempt)
    ensures var (d, r) := RequestSpec(codec, max, c, name, a);
            var sent := Sent(Some(c.nextId), name, if d.session.Some? then d.session.value.process else 0);
            && d.initialized == c.initialized && d.nextId == c.nextId + 1 && c.spawned <= d.spawned
            && (if !SessionReady(c, a) then d.log == c.log && d.spawned == c.spawned && d.session == c.session && r.Err?
                else
                  && d.session.Some?
                  && (if c.session.Some? && !a.respawn then
                        d.spawned == c.spawned && d.session.value.process == c.session.value.process
                      else d.spawned == c.spawned + 1 && d.session.value.process == c.spawned)
                  && (|| (d.log == c.log + [sent] && r.Err?)
                      || exists reply: Response ::
                           && reply.id == Some(Number(c.nextId))
                           && d.log == c.log + [sent] + [Delivered(reply, c.nextId, sent.process)]
                           && r.Ok? == reply.error.None?))
  {
  }

  /** A request keeps the invariant; after a successful `initialize` it holds with the flag set. */
  lemma RequestKeepsInv(codec: Codec, max: nat, c: Client, name: string, a: Attempt)
    requires Inv(c) && (c.initialized <==> name != INITIALIZE)
    ensures var (d, r) := RequestSpec(codec, max, c, name, a);
            && d.initialized == c.initialized
            && Inv(if r.Ok? then d.(initialized := true) else d)
  {
    RequestLog(codec, max, c, name, a);
    var (d, r) := RequestSpec(codec, max, c, name, a);
    if SessionReady(c, a) {
      var sent := Sent(Some(c.nextId), name, d.session.value.process);
      SendKeepsInv(c.log, c.nextId, c.initialized, c.spawned, d.nextId, d.spawned, sent);
      if d.log != c.log + [sent] {
        var reply: Response :| reply.id == Some(Number(c.nextId))
          && d.log == c.log + [sent] + [Delivered(reply, c.nextId, sent.process)] && r.Ok? == reply.error.None?;
        DeliverKeepsInv(c.log + [sent], d.nextId, c.initialized, d.spawned, Delivered(reply, c.nextId, sent.process));
      }
    } else {
      assert IdsIncrease(c.log, d.nextId);
    }
  }

  lemma {:induction false} PagesKeepInv(codec: Codec, max: nat, more: Response -> bool, c: Client, name: string,
                                        attempts: seq<Attempt>)
    requires Inv(c) && c.initialized && name != INITIALIZE
    ensures Inv(PagesSpec(codec, max, more, c, name, attempts).0)
    decreases |attempts|
  {
    if attempts != [] {
      RequestKeepsInv(codec, max, c, name, attempts[0]);
      var (d, r) := RequestSpec(codec, max, c, name, attempts[0]);
      if r.Ok? && more(r.value) {
        PagesKeepInv(codec, max, more, d, name, attempts[1..]);
      }
    }
  }

  lemma PerformKeepsInv(codec: Codec, max: nat, c: Client, call: Call)
    requires Inv(c) && call.name != INITIALIZE
    ensures Inv(PerformSpec(codec, max, c, call).0)
  {
    if !c.initialized {
      RequestKeepsInv(codec, max, c, INITIALIZE, call.first);
      var (d, r) := RequestSpec(codec, max, c, INITIALIZE, call.first);
      if r.Ok? {
        var e := d.(initialized := true);
        var f := EnsureSessionSpec(e, call.second);
        if SessionReady(e, call.second) {
          var sent := Sent(None, "notifications/initialized", f.session.value.process);
          SendKeepsInv(e.log, e.nextId, true, e.spawned, e.nextId, f.spawned, sent);
        }
        assert NotifySpec(d, "notifications/initialized", call.second).(initialized := true)
            == NotifySpec(e, "notifications/initialized", call.second);
      }
    }
    var (d, r) := EnsureInitializedSpec(codec, max, c, call.first, call.second);
    if r.Ok? {
      PagesKeepInv(codec, max, call.more, d, call.name, call.attempts);
    }
  }

  lemma {:induction false} RunKeepsInv(codec: Codec, max: nat, calls: seq<Call>)
    requires forall i :: 0 <= i < |calls| ==> calls[i].name != INITIALIZE
    ensures Inv(Run(codec, max, calls))
  {
    if calls == [] {
    } else {
      RunKeepsInv(codec, max, calls[..|calls| - 1]);
      PerformKeepsInv(codec, max, Run(codec, max, calls[..|calls| - 1]), calls[|calls| - 1]);
    }
  }

  /** Correlation over whole runs, for arbitrary server output, timeouts and restarts: ids
      strictly increase; a reply handed to a request carries that request's id and no other
      request was sent with this id, so a late reply to an abandoned request is never handed
      to a later one; and nothing but `initialize` is sent before an `initialize` succeeded. */
  lemma CorrelationOverRuns(codec: Codec, max: nat, calls: seq<Call>)
    requires forall i :: 0 <= i < |calls| ==> calls[i].name != INITIALIZE
    ensures var log := Run(codec, max, calls).log;
            && IdsIncrease(log, Run(codec, max, calls).nextId)
            && RepliesMatch(log)
            && InitializeFirst(log)
            && (forall i, j :: 0 <= i < |log| && 0 <= j < |log| && log[j].Delivered?
                  && log[i].Sent? && log[i].id.Some? && log[j].reply.id == Some(Number(log[i].id.value))
                  ==> i == j - 1)
  {
    RunKeepsInv(codec, max, calls);
    var log := Run(codec, max, calls).log;
    forall i, j | 0 <= i < |log| && 0 <= j < |log| && log[j].Delivered?
                  && log[i].Sent? && log[i].id.Some? && log[j].reply.id == Some(Number(log[i].id.value))
      ensures i == j - 1
    {
      assert log[j - 1].id == log[i].id;
    }
  }

  // ---- the client object ----

  class McpClient {
    const codec: Codec
    const max: nat
    var initialized: bool
    var nextId: nat
    var session: StdioSession?
    ghost var process: nat
    ghost var spawned: nat
    ghost var log: seq<Entry>

    ghost predicate Valid()
      reads this
    {
      session != null ==> session.codec == codec && session.max == max
    }

    ghost function State(): Client
      reads this, session
    {
      Client(initialized, nextId, if session == null then None else Some(Session(process, session.buf)), spawned, log)
    }

    constructor (codec: Codec, max: nat)
      ensures Valid() && this.codec == codec && this.max == max
      ensures State() == NEW_CLIENT && session == null
    {
      this.codec, this.max := codec, max;
      initialized, nextId, session, process, spawned, log := false, 1, null, 0, 0, [];
    }

    method EnsureSession(a: Attempt) returns (ok: bool)
      requires Valid()
      modifies this
      ensures Valid() && State() == EnsureSessionSpec(old(State()), a)
      ensures ok == SessionReady(old(State()), a)
      ensures session == old(session) || fresh(session)
    {
      if session != null && !a.respawn {
        return true;
      }
      if !a.spawnOk {
        return false;
      }
      session := new StdioSession(codec, max, []);
      process, spawned := spawned, spawned + 1;
      return true;
    }

    method Request(name: string, a: Attempt) returns (r: Result<Response, RequestError>)
      requires Valid()
      modifies this, session
      ensures Valid() && (State(), r) == RequestSpec(codec, max, old(State()), name, a)
      ensures session == old(session) || fresh(session)
    {
      var id := nextId;
      nextId := nextId + 1;
      var ready := EnsureSession(a);
      if !ready {
        return Err(SpawnFailed);
      }
      log := log + [Sent(Some(id), name, process)];
      if !a.writeOk {
        return Err(WriteFailed);
      }
      r := Answer(id, a.arrivals);
    }

    method Answer(id: nat, arrivals: seq<Bytes>) returns (r: Result<Response, RequestError>)
      requires Valid() && session != null
      modifies this, session
      ensures Valid() && (State(), r) == AnswerSpec(codec, max, old(State()), id, arrivals)
      ensures session == old(session)
    {
      session.incoming := arrivals;
      var outcome := session.AwaitReplyTo(id);
      match outcome {
        case Failed(failure) => r := Err(Session_(failure));
        case Waiting => r := Err(TimedOut);
        case Got(reply) =>
          log := log + [Delivered(reply, id, process)];
          r := if reply.error.Some? then Err(Rpc(reply.error.value)) else Ok(reply);
      }
    }

    method Notify(name: string, a: Attempt)
      requires Valid()
      modifies this
      ensures Valid() && State() == NotifySpec(old(State()), name, a)
      ensures session == old(session) || fresh(session)
    {
      var ready := EnsureSession(a);
      if ready {
        log := log + [Sent(None, name, process)];
      }
    }

    method EnsureInitialized(first: Attempt, second: Attempt) returns (r: Result<(), RequestError>)
      requires Valid()
      modifies this, session
      ensures Valid() && (State(), r) == EnsureInitializedSpec(codec, max, old(State()), first, second)
      ensures session == old(session) || fresh(session)
    {
      if initialized {
        return Ok(());
      }
      var reply := Request(INITIALIZE, first);
      if reply.Err? {
        return Err(reply.error);
      }
      Notify("notifications/initialized", second);
      initialized := true;
      return Ok(());
    }

    /** `list_tools`, `list_resources`, `call_tool` and `read_resource`. */
    method Perform(call: Call) returns (result: Pages)
      requires Valid()
      modifies this, session
      ensures Valid() && (State(), result) == PerformSpec(codec, max, old(State()), call)
    {
      var ready := EnsureInitialized(call.first, call.second);
      if ready.Err? {
        return Broken(ready.error);
      }
      ghost var whole := Collected(codec, max, call, State(), 0, []);
      assert call.attempts[0..] == call.attempts;
      assert whole == PagesSpec(codec, max, call.more, State(), call.name, call.attempts) by {
        NothingBehind(PagesSpec(codec, max, call.more, State(), call.name, call.attempts).1);
      }
      var replies := [];
      var page := 0;
      while page < |call.attempts|
        invariant Valid() && page <= |call.attempts|
        invariant session == old(session) || fresh(session)
        invariant Collected(codec, max, call, State(), page, replies) == whole
      {
        CollectedStep(codec, max, call, State(), page, replies);
        var reply := Request(call.name, call.attempts[page]);
        if reply.Err? {
          return Broken(reply.error);
        }
        replies := replies + [reply.value];
        if !call.more(reply.value) {
          return Complete(replies);
        }
        page := page + 1;
      }
      return Unfinished;
    }
  }

  // ---- the handshake and restarted servers ----

  /** Entry `j` goes to a process that has answered `initialize` before. */
  ghost predicate IsServed(log: seq<Entry>, j: nat)
    requires j < |log|
  {
    exists i: nat :: i + 1 < j && InitializedAt(log, i) && log[i].process == log[j].process
  }

  predicate NeedsHandshake(e: Entry) { e.Sent? && e.method_ != INITIALIZE }

  /** Everything but `initialize` is sent to initialised processes. */
  ghost predicate AllServed(log: seq<Entry>) {
    forall j :: 0 <= j < |log| && NeedsHandshake(log[j]) ==> IsServed(log, j)
  }

  /** The guard of `ensure_session`: the server has exited, and can be started again. */
  predicate Restarts(a: Attempt) { a.respawn && a.spawnOk }

  /** Some request of the pages that are asked for finds the server exited. */
  predicate PagesRestart(codec: Codec, max: nat, more: Response -> bool, c: Client, name: string,
                         attempts: seq<Attempt>)
    decreases |attempts|
  {
    attempts != [] &&
    (|| Restarts(attempts[0])
     || (var (d, r) := RequestSpec(codec, max, c, name, attempts[0]);
         r.Ok? && more(r.value) && PagesRestart(codec, max, more, d, name, attempts[1..])))
  }

  /** So does some request or notification of the call behind the successful `initialize`. */
  predicate CallRestarts(codec: Codec, max: nat, c: Client, call: Call) {
    var (d, r) := EnsureInitializedSpec(codec, max, c, call.first, call.second);
    r.Ok? &&
    ((!c.initialized && Restarts(call.second)) || PagesRestart(codec, max, call.more, d, call.name, call.attempts))
  }

  predicate RunRestarts(codec: Codec, max: nat, calls: seq<Call>) {
    calls != [] &&
    (|| RunRestarts(codec, max, calls[..|calls| - 1])
     || CallRestarts(codec, max, Run(codec, max, calls[..|calls| - 1]), calls[|calls| - 1]))
  }

  /** The process `p` is the one that has answered `initialize`. */
  ghost predicate Handshaken(log: seq<Entry>, p: nat) {
    && (exists i: nat :: InitializedAt(log, i))
    && forall i: nat :: InitializedAt(log, i) ==> log[i].process == p
  }

  ghost predicate AllOn(log: seq<Entry>, p: nat) {
    forall j :: 0 <= j < |log| && NeedsHandshake(log[j]) ==> log[j].process == p
  }

  /** The process that has answered is the current one, and all was sent to it. */
  ghost predicate Settled(c: Client, p: nat) {
    && Inv(c) && c.initialized && Handshaken(c.log, p) && p < c.spawned
    && c.session.Some? && c.session.value.process == p && AllOn(c.log, p)
  }

  /** Something was sent to another process. */
  ghost predicate Strayed(c: Client, p: nat) {
    && Inv(c) && c.initialized && Handshaken(c.log, p) && p < c.spawned
    && c.session.Some? && !AllOn(c.log, p)
  }

  lemma ServedIff(log: seq<Entry>, p: nat)
    requires InitializeFirst(log) && Handshaken(log, p)
    ensures AllServed(log) <==> AllOn(log, p)
  {
    forall j | 0 <= j < |log| && NeedsHandshake(log[j])
      ensures IsServed(log, j) <==> log[j].process == p
    {
      var i :| 0 <= i && i + 1 < j && InitializedAt(log, i);
    }
  }

  lemma SentKeepsHandshake(log: seq<Entry>, e: Entry, p: nat)
    requires Handshaken(log, p) && e.Sent?
    ensures Handshaken(log + [e], p)
    ensures AllOn(log + [e], p) <==> AllOn(log, p) && (NeedsHandshake(e) ==> e.process == p)
  {
    AppendKeepsInitialized(log, e);
    var after := log + [e];
    var i: nat :| InitializedAt(log, i);
    assert InitializedAt(after, i);
    forall k: nat | InitializedAt(after, k)
      ensures after[k].process == p
    {
      assert after[k + 1] != e;
      assert InitializedAt(log, k);
    }
    assert after[|log|] == e && forall j :: 0 <= j < |log| ==> after[j] == log[j];
  }

  lemma DeliveredKeepsHandshake(log: seq<Entry>, e: Entry, p: nat)
    requires Handshaken(log, p) && e.Delivered? && log != [] && NeedsHandshake(log[|log| - 1])
    ensures Handshaken(log + [e], p)
    ensures AllOn(log + [e], p) <==> AllOn(log, p)
  {
    AppendKeepsInitialized(log, e);
    var after := log + [e];
    var i: nat :| InitializedAt(log, i);
    assert InitializedAt(after, i);
    forall k: nat | InitializedAt(after, k)
      ensures after[k].process == p
    {
      assert after[|log| - 1] == log[|log| - 1];
      assert k + 1 < |log| && InitializedAt(log, k);
    }
    assert after[|log|] == e && forall j :: 0 <= j < |log| ==> after[j] == log[j];
  }

  /** A request, with its reply or without. */
  lemma ExchangeKeepsHandshake(log: seq<Entry>, sent: Entry, after: seq<Entry>, id: nat, p: nat)
    requires Handshaken(log, p) && NeedsHandshake(sent)
    requires after == log + [sent]
          || exists reply: Response :: after == log + [sent] + [Delivered(reply, id, sent.process)]
    ensures Handshaken(after, p) && (AllOn(after, p) <==> AllOn(log, p) && sent.process == p)
  {
    SentKeepsHandshake(log, sent, p);
    if after != log + [sent] {
      var reply: Response :| after == log + [sent] + [Delivered(reply, id, sent.process)];
      DeliveredKeepsHandshake(log + [sent], Delivered(reply, id, sent.process), p);
    }
  }

  /** One request behind the handshake. */
  lemma RequestServed(codec: Codec, max: nat, c: Client, name: string, a: Attempt, p: nat)
    requires (Settled(c, p) || Strayed(c, p)) && name != INITIALIZE
    ensures var d := RequestSpec(codec, max, c, name, a).0;
            if Settled(c, p) && !Restarts(a) then Settled(d, p) else Strayed(d, p)
  {
    RequestLog(codec, max, c, name, a);
    RequestKeepsInv(codec, max, c, name, a);
    var (d, r) := RequestSpec(codec, max, c, name, a);
    assert Inv(d);
    if SessionReady(c, a) {
      var sent := Sent(Some(c.nextId), name, d.session.value.process);
      ExchangeKeepsHandshake(c.log, sent, d.log, c.nextId, p);
    }
  }

  lemma {:induction false} PagesServed(codec: Codec, max: nat, more: Response -> bool, c: Client, name: string,
                                       attempts: seq<Attempt>, p: nat)
    requires (Settled(c, p) || Strayed(c, p)) && name != INITIALIZE
    ensures var d := PagesSpec(codec, max, more, c, name, attempts).0;
            if Settled(c, p) && !PagesRestart(codec, max, more, c, name, attempts) then Settled(d, p) else Strayed(d, p)
    decreases |attempts|
  {
    if attempts != [] {
      RequestServed(codec, max, c, name, attempts[0], p);
      var (d, r) := RequestSpec(codec, max, c, name, attempts[0]);
      if r.Ok? && more(r.value) {
        PagesServed(codec, max, more, d, name, attempts[1..], p);
      }
    }
  }

  /** The successful `initialize` itself: nothing else was sent before. */
  lemma InitializeServed(codec: Codec, max: nat, c: Client, first: Attempt)
    requires Inv(c) && !c.initialized && RequestSpec(codec, max, c, INITIALIZE, first).1.Ok?
    ensures var d := RequestSpec(codec, max, c, INITIALIZE, first).0;
            d.session.Some? && Settled(d.(initialized := true), d.session.value.process)
  {
    RequestLog(codec, max, c, INITIALIZE, first);
    RequestKeepsInv(codec, max, c, INITIALIZE, first);
    var d := RequestSpec(codec, max, c, INITIALIZE, first).0;
    var p := d.session.value.process;
    var sent := Sent(Some(c.nextId), INITIALIZE, p);
    var reply: Response :| d.log == c.log + [sent] + [Delivered(reply, c.nextId, p)] && reply.error.None?;
    var n := |c.log|;
    assert d.log[n] == sent && d.log[n + 1] == Delivered(reply, c.nextId, p) && |d.log| == n + 2;
    assert InitializedAt(d.log, n);
    NothingSentBefore(c);
    assert forall j :: 0 <= j < n ==> d.log[j] == c.log[j];
    assert forall i: nat :: i + 1 < n ==> (InitializedAt(d.log, i) <==> InitializedAt(c.log, i));
    forall i: nat | InitializedAt(d.log, i)
      ensures d.log[i].process == p
    {
      if i + 1 < n {
        assert false;
      }
    }
    forall j | 0 <= j < |d.log| && NeedsHandshake(d.log[j])
      ensures d.log[j].process == p
    {
      if j < n {
        assert false;
      }
    }
  }

  lemma NothingSentBefore(c: Client)
    requires Inv(c) && !c.initialized
    ensures forall j :: 0 <= j < |c.log| ==> !NeedsHandshake(c.log[j])
  {
    forall j | 0 <= j < |c.log|
      ensures !NeedsHandshake(c.log[j])
    {
      if NeedsHandshake(c.log[j]) {
        assert false;
      }
    }
  }

  lemma NotifyServed(c: Client, name: string, a: Attempt, p: nat)
    requires Settled(c, p) && name != INITIALIZE
    ensures var d := NotifySpec(c, name, a); if Restarts(a) then Strayed(d, p) else Settled(d, p)
  {
    var e := EnsureSessionSpec(c, a);
    if SessionReady(c, a) {
      var sent := Sent(None, name, e.session.value.process);
      SendKeepsInv(c.log, c.nextId, true, c.spawned, c.nextId, e.spawned, sent);
      SentKeepsHandshake(c.log, sent, p);
    }
  }

  lemma HandshakeServed(codec: Codec, max: nat, c: Client, first: Attempt, second: Attempt) returns (p: nat)
    requires Inv(c) && !c.initialized && RequestSpec(codec, max, c, INITIALIZE, first).1.Ok?
    ensures var d := EnsureInitializedSpec(codec, max, c, first, second).0;
            if Restarts(second) then Strayed(d, p) else Settled(d, p)
  {
    InitializeServed(codec, max, c, first);
    var d := RequestSpec(codec, max, c, INITIALIZE, first).0;
    p := d.session.value.process;
    var e := d.(initialized := true);
    NotifyServed(e, "notifications/initialized", second, p);
    assert NotifySpec(d, "notifications/initialized", second).(initialized := true)
        == NotifySpec(e, "notifications/initialized", second);
  }

  lemma PerformServed(codec: Codec, max: nat, c: Client, call: Call) returns (p: nat)
    requires Inv(c) && !c.initialized && call.name != INITIALIZE
    ensures var d := PerformSpec(codec, max, c, call).0;
            && (d.initialized ==> if CallRestarts(codec, max, c, call) then Strayed(d, p) else Settled(d, p))
            && (!d.initialized ==> !CallRestarts(codec, max, c, call))
  {
    var (d, r) := EnsureInitializedSpec(codec, max, c, call.first, call.second);
    p := 0;
    if r.Ok? {
      p := HandshakeServed(codec, max, c, call.first, call.second);
      PagesServed(codec, max, call.more, d, call.name, call.attempts, p);
    } else {
      RequestLog(codec, max, c, INITIALIZE, call.first);
    }
  }

  lemma {:induction false} RunServed(codec: Codec, max: nat, calls: seq<Call>) returns (p: nat)
    requires forall i :: 0 <= i < |calls| ==> calls[i].name != INITIALIZE
    ensures var c := Run(codec, max, calls);
            && Inv(c)
            && (c.initialized ==> if RunRestarts(codec, max, calls) then Strayed(c, p) else Settled(c, p))
            && (!c.initialized ==> !RunRestarts(codec, max, calls))
  {
    RunKeepsInv(codec, max, calls);
    p := 0;
    if calls != [] {
      var shorter, call := calls[..|calls| - 1], calls[|calls| - 1];
      p := RunServed(codec, max, shorter);
      var c := Run(codec, max, shorter);
      if c.initialized {
        PagesServed(codec, max, call.more, c, call.name, call.attempts, p);
      } else {
        p := PerformServed(codec, max, c, call);
      }
    }
  }

  /** The handshake over whole runs, exactly: everything but `initialize` goes to a process that
      has answered `initialize` if and only if no request or notification behind the successful
      `initialize` finds the server exited and starts it again. */
  lemma AllServedIff(codec: Codec, max: nat, calls: seq<Call>)
    requires forall i :: 0 <= i < |calls| ==> calls[i].name != INITIALIZE
    ensures AllServed(Run(codec, max, calls).log) <==> !RunRestarts(codec, max, calls)
  {
    var p := RunServed(codec, max, calls);
    var c := Run(codec, max, calls);
    if c.initialized {
      ServedIff(c.log, p);
    } else {
      NothingSentBefore(c);
    }
  }

  lemma LineReply(codec: Codec, max: nat, line: Bytes, reply: Response)
    requires NoLf(line) && 0 < |line| && |line| + 1 <= 2 * max && |line| <= max
    requires NoHeaderEnd(line + [LF]) && codec.json(line) == Some(reply) && reply.id == Some(Number(1))
    ensures AwaitReply(codec, max, [], [line + [LF]], 1) == Received(Got(reply), [], [])
  {
    var whole := line + [LF];
    FirstLine(whole, whole, line);
    assert [] + whole == whole;
    assert FindHeaderEnd(whole).None?;
    assert TryParse(codec, whole, max) == Ok(Some((reply, |line| + 1)));
    var arrivals := [whole];
    assert whole[|line| + 1..] == [] && arrivals[1..] == [];
    assert Receive(codec, max, whole, []) == Received(Got(reply), [], []);
    assert Receive(codec, max, [], [whole]) == Receive(codec, max, whole, []);
  }

  /** The server answers `initialize`, exits, is started again for the next call, and is
      sent that call without having been initialised. */
  lemma RestartedServerIsNotInitialized(codec: Codec, max: nat, line: Bytes, more: Response -> bool)
    requires NoLf(line) && 0 < |line| <= max && |line| + 1 <= 2 * max
    requires NoHeaderEnd(line + [LF]) && codec.json(line) == Some(Response(Some(Number(1)), Some("{}"), None))
    ensures var live := Attempt(false, true, true, [line + [LF]]);
            var restart := Attempt(true, true, true, []);
            var log := PerformSpec(codec, max, NEW_CLIENT, Call("tools/call", more, live, live, [restart])).0.log;
            && |log| == 4 && log[3] == Sent(Some(2), "tools/call", 1) && !IsServed(log, 3)
  {
    var live := Attempt(false, true, true, [line + [LF]]);
    var restart := Attempt(true, true, true, []);
    var reply := Response(Some(Number(1)), Some("{}"), None);
    LineReply(codec, max, line, reply);
    var c := Client(false, 2, Some(Session(0, [])), 1, [Sent(Some(1), INITIALIZE, 0), Delivered(reply, 1, 0)]);
    var answered := RequestSpec(codec, max, NEW_CLIENT, INITIALIZE, live);
    assert answered.0 == c && answered.1.Ok?;
    var (d, _) := EnsureInitializedSpec(codec, max, NEW_CLIENT, live, live);
    assert d.log == c.log + [Sent(None, "notifications/initialized", 0)];
    assert Receive(codec, max, [], []).outcome == Waiting;
    var e := RequestSpec(codec, max, d, "tools/call", restart).0;
    assert e.log == d.log + [Sent(Some(2), "tools/call", 1)];
  }

  // ---- messages that cannot be accepted ----

  /** The failure is one of the text in the buffer, not of the stream. */
  predicate IsOfText(failure: Failure) { failure != Closed && failure != BufferLimit }

  /** A message the framer cannot accept, for whatever reason, stays in the buffer: every later
      request to the same process fails the same way, whatever the server still sends. */
  lemma BadMessageStays(codec: Codec, max: nat, buf: Bytes, incoming: seq<Bytes>, later: seq<Bytes>, id: nat,
                        laterId: nat)
    requires var r := AwaitReply(codec, max, buf, incoming, id); r.outcome.Failed? && IsOfText(r.outcome.failure)
    ensures var r := AwaitReply(codec, max, buf, incoming, id);
            AwaitReply(codec, max, r.buf, later, laterId) == Received(r.outcome, r.buf, later)
  {
    AwaitFailureIsInBuffer(codec, max, buf, incoming, id);
  }

  lemma {:induction false} ReceiveShrinks(codec: Codec, max: nat, buf: Bytes, id: nat)
    ensures var r := AwaitReply(codec, max, buf, [], id);
            && |r.buf| <= |buf| && (r.buf == buf ==> !r.outcome.Got?)
            && (r.buf == buf && r.outcome.Failed? ==> TryParse(codec, buf, max) == Err(r.outcome.failure))
            && (r.outcome.Failed? ==> IsOfText(r.outcome.failure))
    decreases |buf|
  {
    var r := Receive(codec, max, buf, []);
    if r.outcome.Got? && r.outcome.response.id != Some(Number(id)) {
      ReceiveShrinks(codec, max, r.buf, id);
    }
  }

  /** Which buffers are stuck, exactly: all requests fail and leave the buffer as it is, with any
      id and whatever the server still sends, if and only if the text at its start cannot be
      accepted. */
  lemma StuckIff(codec: Codec, max: nat, buf: Bytes, failure: Failure)
    ensures (forall later: seq<Bytes>, id: nat ::
               AwaitReply(codec, max, buf, later, id) == Received(Failed(failure), buf, later))
       <==> TryParse(codec, buf, max) == Err(failure)
  {
    if TryParse(codec, buf, max) != Err(failure) {
      ReceiveShrinks(codec, max, buf, 0);
      assert AwaitReply(codec, max, buf, [], 0) != Received(Failed(failure), buf, []);
    }
  }

  /** For one request: it fails for all the server may still send if and only if it fails on what
      is in the buffer already. */
  lemma FailsForGoodIff(codec: Codec, max: nat, buf: Bytes, id: nat, failure: Failure)
    ensures (forall later: seq<Bytes> :: AwaitReply(codec, max, buf, later, id).outcome == Failed(failure))
       <==> AwaitReply(codec, max, buf, [], id).outcome == Failed(failure)
  {
    if AwaitReply(codec, max, buf, [], id).outcome == Failed(failure) {
      forall later: seq<Bytes>
        ensures AwaitReply(codec, max, buf, later, id).outcome == Failed(failure)
      {
        FailsAlready(codec, max, buf, id, later);
      }
    }
  }

  lemma {:induction false} FailsAlready(codec: Codec, max: nat, buf: Bytes, id: nat, later: seq<Bytes>)
    requires AwaitReply(codec, max, buf, [], id).outcome.Failed?
    ensures AwaitReply(codec, max, buf, later, id).outcome == AwaitReply(codec, max, buf, [], id).outcome
    decreases |buf|
  {
    var r := Receive(codec, max, buf, []);
    if r.outcome.Got? {
      assert Receive(codec, max, buf, later) == Received(r.outcome, r.buf, later);
      FailsAlready(codec, max, r.buf, id, later);
    }
  }

  /** So every request of the client to that process ends with the same error. */
  lemma StuckProcessFailsAll(codec: Codec, max: nat, c: Client, name: string, a: Attempt, failure: Failure)
    requires c.session.Some? && TryParse(codec, c.session.value.buf, max) == Err(failure) && !a.respawn && a.writeOk
    ensures var (d, r) := RequestSpec(codec, max, c, name, a);
            r == Err(Session_(failure)) && d.session == c.session
  {
    assert Receive(codec, max, c.session.value.buf, a.arrivals)
        == Received(Failed(failure), c.session.value.buf, a.arrivals);
  }

  lemma {:induction false} ReceiveFailureIsInBuffer(codec: Codec, max: nat, buf: Bytes, incoming: seq<Bytes>)
    requires var r := Receive(codec, max, buf, incoming);
             r.outcome.Failed? && r.outcome.failure != Closed && r.outcome.failure != BufferLimit
    ensures var r := Receive(codec, max, buf, incoming);
            TryParse(codec, r.buf, max) == Err(r.outcome.failure)
    decreases |incoming|
  {
    if TryParse(codec, buf, max) == Ok(None) {
      ReceiveFailureIsInBuffer(codec, max, buf + incoming[0], incoming[1..]);
    }
  }

  lemma {:induction false} AwaitFailureIsInBuffer(codec: Codec, max: nat, buf: Bytes, incoming: seq<Bytes>, id: nat)
    requires var r := AwaitReply(codec, max, buf, incoming, id);
             r.outcome.Failed? && r.outcome.failure != Closed && r.outcome.failure != BufferLimit
    ensures var r := AwaitReply(codec, max, buf, incoming, id);
            TryParse(codec, r.buf, max) == Err(r.outcome.failure)
    decreases |buf| + |Flatten(incoming)|
  {
    var r := Receive(codec, max, buf, incoming);
    if r.outcome.Got? {
      ReceiveConsumes(codec, max, buf, incoming);
      AwaitFailureIsInBuffer(codec, max, r.buf, r.incoming, id);
    } else {
      ReceiveFailureIsInBuffer(codec, max, buf, incoming);
    }
  }
}
