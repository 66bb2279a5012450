/** Any number of services initialising one shared configuration directory at once. Each
    process runs `initialize_startup_password_if_needed` or
    `initialize_bootstrap_password_if_needed`; the steps of all of them interleave freely.
    A file that was created exclusively is visible while it is still being written, a read
    may return any prefix of what is written so far, and any process may die at any step. */
module KeyInitRace {
  import opened Results
  import opened Sequences
  import opened Bytes
  import opened MasterKey

  /** `written` units of `source` are on disk, put there by the process `owner`. */
  datatype File<T> = Absent | Present(source: T, owner: nat, written: nat)

  datatype Dir = Dir(keyfile: File<Bytes>, meta: File<Prepared>)

  datatype Role = Startup(password: string) | Bootstrap

  datatype Purpose = ForFlag | ForUnlock

  /** Where a process is. `Done(Some(k))` has returned the key `k`. */
  datatype Pc =
    | CheckSet
    | KeyExists
    | KeyCreate(bytes: Bytes)
    | KeyWrite(bytes: Bytes)
    | KeyLoad(attempt: nat)
    | KeyRead
    | Prepare(password: string)
    | MetaCreate(prepared: Prepared)
    | MetaWrite(prepared: Prepared)
    | FlagCheck(password: string)
    | LoadStart(password: string, purpose: Purpose)
    | Load(password: string, purpose: Purpose, attempt: nat)
    | Done(result: Option<Bytes>)
    | Stopped

  datatype Process = Process(role: Role, pc: Pc)

  datatype State = State(dir: Dir, processes: seq<Process>)

  /** What the environment decides in a step: a crash or I/O error, random bytes, fresh
      salts, or how much of a file is read or written. */
  datatype Choice = Crash | Random(bytes: Bytes) | Salts(encSalt: Bytes, verSalt: Bytes) | Amount(n: nat)

  datatype Event = Event(who: nat, choice: Choice)

  function Retry(attempt: nat, again: Pc): Pc { if attempt < READ_ATTEMPTS - 1 then again else Stopped }

  // ---- one step of one process ----

  function Step(lib: Library, role: Role, who: nat, pc: Pc, dir: Dir, choice: Choice): (Pc, Dir) {
    if choice.Crash? && !pc.Done? then (Stopped, dir)
    else
      match pc
      case Done(_) | Stopped => (pc, dir)
      case CheckSet | KeyExists | Prepare(_) => (StepLocal(role, pc, dir, choice), dir)
      case KeyCreate(_) | KeyWrite(_) => StepKeyfile(who, pc, dir, choice)
      case MetaCreate(_) | MetaWrite(_) => StepMeta(lib, role, who, pc, dir, choice)
      case KeyLoad(_) | KeyRead => (StepReadKeyfile(lib, pc, dir, choice), dir)
      case FlagCheck(_) | LoadStart(_, _) | Load(_, _, _) => (StepReadMeta(lib, pc, dir, choice), dir)
  }

  function StepLocal(role: Role, pc: Pc, dir: Dir, choice: Choice): Pc
    requires pc.CheckSet? || pc.KeyExists? || pc.Prepare?
  {
    match pc
    case CheckSet =>
      (match role
       case Startup(password) =>
         if dir.meta.Present? then LoadStart(password, ForUnlock) else Prepare(password)
       case Bootstrap =>
         if dir.meta.Present? then Done(None) else KeyExists)
    case KeyExists =>
      if dir.keyfile.Present? then KeyLoad(0)
      else if choice.Random? && |choice.bytes| == KEY_LEN then KeyCreate(choice.bytes)
      else pc
    case Prepare(password) =>
      if choice.Salts? then
        MetaCreate(Prepared(password, choice.encSalt, choice.verSalt, role.Bootstrap?, role.Startup?))
      else pc
  }

  function StepKeyfile(who: nat, pc: Pc, dir: Dir, choice: Choice): (Pc, Dir)
    requires pc.KeyCreate? || pc.KeyWrite?
  {
    match pc
    case KeyCreate(bytes) =>
      if dir.keyfile.Present? then (KeyLoad(0), dir)
      else (KeyWrite(bytes), dir.(keyfile := Present(bytes, who, 0)))
    case KeyWrite(bytes) =>
      if choice.Amount? && dir.keyfile.Present? then
        var written := Min(dir.keyfile.written + choice.n, |bytes|);
        (if written == |bytes| then KeyRead else pc, dir.(keyfile := dir.keyfile.(written := written)))
      else (pc, dir)
  }

  function StepMeta(lib: Library, role: Role, who: nat, pc: Pc, dir: Dir, choice: Choice): (Pc, Dir)
    requires pc.MetaCreate? || pc.MetaWrite?
  {
    match pc
    case MetaCreate(c) =>
      if dir.meta.Present? then
        (if role.Startup? then LoadStart(c.password, ForUnlock) else FlagCheck(c.password), dir)
      else (MetaWrite(c), dir.(meta := Present(c, who, 0)))
    case MetaWrite(c) =>
      if choice.Amount? && dir.meta.Present? then
        var size := |PreparedText(lib, c)|;
        var written := Min(dir.meta.written + choice.n, size);
        (if written == size then Done(Some(PreparedKey(lib, c))) else pc,
         dir.(meta := dir.meta.(written := written)))
      else (pc, dir)
  }

  /** What a read of the keyfile returns: at most `n` bytes of what is written. */
  function KeyfileContent(keyfile: File<Bytes>, n: nat): Bytes
    requires keyfile.Present? && keyfile.written <= |keyfile.source|
  {
    keyfile.source[..Min(n, keyfile.written)]
  }

  function StepReadKeyfile(lib: Library, pc: Pc, dir: Dir, choice: Choice): Pc
    requires pc.KeyLoad? || pc.KeyRead?
  {
    if !choice.Amount? then pc
    else if dir.keyfile.Absent? || dir.keyfile.written > |dir.keyfile.source| then
      if pc.KeyLoad? then Retry(pc.attempt, KeyLoad(pc.attempt + 1)) else Stopped
    else
      var data := KeyfileContent(dir.keyfile, choice.n);
      match pc
      case KeyLoad(attempt) =>
        if |data| == KEY_LEN then KeyRead
        else if |data| < KEY_LEN then Retry(attempt, KeyLoad(attempt + 1))
        else Stopped
      case KeyRead =>
        if |data| == KEY_LEN then Prepare(lib.bootstrapText(data)) else Stopped
  }

  function MetaRead(lib: Library, meta: File<Prepared>, n: nat): Read {
    if meta.Absent? || meta.written > |PreparedText(lib, meta.source)| then Missing
    else Content(PreparedText(lib, meta.source)[..Min(n, meta.written)])
  }

  function StepReadMeta(lib: Library, pc: Pc, dir: Dir, choice: Choice): Pc
    requires pc.FlagCheck? || pc.LoadStart? || pc.Load?
  {
    match pc
    case FlagCheck(password) => if dir.meta.Present? then LoadStart(password, ForFlag) else Done(None)
    case LoadStart(password, purpose) => if dir.meta.Present? then Load(password, purpose, 0) else Stopped
    case Load(password, purpose, attempt) =>
      if !choice.Amount? then pc
      else
        match ReadMeta(lib, MetaRead(lib, dir.meta, choice.n))
        case Err(_) => Retry(attempt, Load(password, purpose, attempt + 1))
        case Ok(m) => AfterLoad(lib, m, password, purpose)
  }

  function AfterLoad(lib: Library, m: Meta, password: string, purpose: Purpose): Pc {
    match purpose
    case ForFlag => if m.bootstrap then LoadStart(password, ForUnlock) else Done(None)
    case ForUnlock =>
      match UnlockMeta(lib, m, password)
      case Ok(key) => Done(Some(key))
      case Err(_) => Stopped
  }

  // ---- runs ----

  predicate Initial(s: State) {
    && s.dir == Dir(Absent, Absent)
    && forall i :: 0 <= i < |s.processes| ==> s.processes[i].pc == CheckSet
  }

  function Next(lib: Library, s: State, e: Event): (t: State)
    ensures |t.processes| == |s.processes|
  {
    if e.who < |s.processes| then
      var p := s.processes[e.who];
      var (pc, dir) := Step(lib, p.role, e.who, p.pc, s.dir, e.choice);
      State(dir, s.processes[e.who := p.(pc := pc)])
    else s
  }

  function Run(lib: Library, s: State, events: seq<Event>): (t: State)
    ensures |t.processes| == |s.processes|
    decreases |events|
  {
    if events == [] then s else Next(lib, Run(lib, s, events[..|events| - 1]), events[|events| - 1])
  }

  // ---- the invariant ----

  /** The keyfile is complete and `password` was made from it. */
  ghost predicate FromKeyfile(lib: Library, dir: Dir, password: string) {
    && dir.keyfile.Present?
    && dir.keyfile.written == |dir.keyfile.source| == KEY_LEN
    && password == lib.bootstrapText(dir.keyfile.source)
  }

  ghost predicate OwnPassword(lib: Library, dir: Dir, role: Role, password: string) {
    match role
    case Startup(p) => password == p
    case Bootstrap => FromKeyfile(lib, dir, password)
  }

  ghost predicate MetaComplete(lib: Library, dir: Dir) {
    dir.meta.Present? && dir.meta.written == |PreparedText(lib, dir.meta.source)|
  }

  ghost predicate DirInv(lib: Library, dir: Dir) {
    && (dir.keyfile.Present? ==> dir.keyfile.written <= |dir.keyfile.source| == KEY_LEN)
    && (dir.meta.Present? ==> dir.meta.written <= |PreparedText(lib, dir.meta.source)|)
    && (dir.meta.Present? && dir.meta.source.bootstrap ==> FromKeyfile(lib, dir, dir.meta.source.password))
  }

  ghost predicate PcInv(lib: Library, dir: Dir, role: Role, who: nat, pc: Pc) {
    match pc
    case KeyExists => role.Bootstrap?
    case KeyLoad(_) | KeyRead => role.Bootstrap? && dir.keyfile.Present?
    case KeyCreate(bytes) => role.Bootstrap? && |bytes| == KEY_LEN
    case KeyWrite(bytes) => role.Bootstrap? && dir.keyfile.Present? && dir.keyfile.source == bytes
                         && dir.keyfile.owner == who
    case Prepare(password) => OwnPassword(lib, dir, role, password)
    case MetaCreate(c) => OwnPassword(lib, dir, role, c.password) && c.bootstrap == role.Bootstrap?
    case MetaWrite(c) =>
      dir.meta.Present? && dir.meta.source == c && dir.meta.owner == who && OwnPassword(lib, dir, role, c.password)
    case FlagCheck(password) => OwnPassword(lib, dir, role, password) && dir.meta.Present? && role.Bootstrap?
    case LoadStart(password, purpose) =>
      OwnPassword(lib, dir, role, password) && dir.meta.Present? && (purpose.ForFlag? ==> role.Bootstrap?)
    case Load(password, purpose, attempt) =>
      OwnPassword(lib, dir, role, password) && dir.meta.Present? && (purpose.ForFlag? ==> role.Bootstrap?)
    case Done(Some(key)) => MetaComplete(lib, dir) && key == PreparedKey(lib, dir.meta.source)
    case _ => true
  }

  ghost predicate Inv(lib: Library, s: State) {
    && DirInv(lib, s.dir)
    && forall i :: 0 <= i < |s.processes| ==> PcInv(lib, s.dir, s.processes[i].role, i, s.processes[i].pc)
  }

  /** Files are never replaced, shortened or removed by an initialiser. */
  ghost predicate FileGrows<T>(f: File<T>, g: File<T>) {
    f.Present? ==> g.Present? && g.source == f.source && g.owner == f.owner && f.written <= g.written
  }

  ghost predicate DirGrows(d: Dir, e: Dir) {
    FileGrows(d.keyfile, e.keyfile) && FileGrows(d.meta, e.meta)
  }

  lemma KeyfileStepKeepsInv(lib: Library, role: Role, who: nat, pc: Pc, dir: Dir, choice: Choice)
    requires DirInv(lib, dir) && PcInv(lib, dir, role, who, pc) && (pc.KeyCreate? || pc.KeyWrite?)
    ensures var (pc', dir') := StepKeyfile(who, pc, dir, choice);
            DirGrows(dir, dir') && DirInv(lib, dir') && PcInv(lib, dir', role, who, pc')
  {
  }

  lemma MetaStepKeepsInv(lib: Library, role: Role, who: nat, pc: Pc, dir: Dir, choice: Choice)
    requires DirInv(lib, dir) && PcInv(lib, dir, role, who, pc) && (pc.MetaCreate? || pc.MetaWrite?)
    ensures var (pc', dir') := StepMeta(lib, role, who, pc, dir, choice);
            DirGrows(dir, dir') && DirInv(lib, dir') && PcInv(lib, dir', role, who, pc')
  {
  }

  lemma ReadStepKeepsInv(lib: Library, role: Role, who: nat, pc: Pc, dir: Dir, choice: Choice)
    requires Sound(lib) && DirInv(lib, dir) && PcInv(lib, dir, role, who, pc)
    requires pc.KeyLoad? || pc.KeyRead? || pc.FlagCheck? || pc.LoadStart? || pc.Load?
    ensures PcInv(lib, dir, role, who, Step(lib, role, who, pc, dir, choice).0)
  {
    match pc {
      case Load(password, purpose, attempt) =>
        if choice.Amount? && dir.meta.Present? {
          LoadAccepts(lib, password, purpose, attempt, dir, choice.n);
        }
      case KeyRead =>
        if choice.Amount? && dir.keyfile.Present? {
          assert dir.keyfile.source[..KEY_LEN] == dir.keyfile.source;
        }
      case _ =>
    }
  }

  lemma StepKeepsInv(lib: Library, role: Role, who: nat, pc: Pc, dir: Dir, choice: Choice)
    requires Sound(lib) && DirInv(lib, dir) && PcInv(lib, dir, role, who, pc)
    ensures var (pc', dir') := Step(lib, role, who, pc, dir, choice);
            DirGrows(dir, dir') && DirInv(lib, dir') && PcInv(lib, dir', role, who, pc')
  {
    if pc.KeyCreate? || pc.KeyWrite? {
      KeyfileStepKeepsInv(lib, role, who, pc, dir, choice);
    } else if pc.MetaCreate? || pc.MetaWrite? {
      MetaStepKeepsInv(lib, role, who, pc, dir, choice);
    } else if !pc.Done? && !pc.Stopped? && !pc.CheckSet? && !pc.KeyExists? && !pc.Prepare? {
      ReadStepKeepsInv(lib, role, who, pc, dir, choice);
    }
  }

  lemma OthersKeepInv(lib: Library, role: Role, who: nat, pc: Pc, d: Dir, e: Dir)
    requires DirInv(lib, d) && DirInv(lib, e) && DirGrows(d, e) && PcInv(lib, d, role, who, pc)
    ensures PcInv(lib, e, role, who, pc)
  {
  }

  lemma NextKeepsInv(lib: Library, s: State, e: Event)
    requires Sound(lib) && Inv(lib, s)
    ensures Inv(lib, Next(lib, s, e)) && DirGrows(s.dir, Next(lib, s, e).dir)
  {
    if e.who < |s.processes| {
      var p := s.processes[e.who];
      var t := Next(lib, s, e);
      StepKeepsInv(lib, p.role, e.who, p.pc, s.dir, e.choice);
      forall i | 0 <= i < |t.processes|
        ensures PcInv(lib, t.dir, t.processes[i].role, i, t.processes[i].pc)
      {
        if i != e.who {
          OthersKeepInv(lib, s.processes[i].role, i, s.processes[i].pc, s.dir, t.dir);
        }
      }
    }
  }

  lemma {:induction false} RunKeepsInv(lib: Library, s: State, events: seq<Event>)
    requires Sound(lib) && Initial(s)
    ensures Inv(lib, Run(lib, s, events))
    decreases |events|
  {
    if events == [] {
    } else {
      RunKeepsInv(lib, s, events[..|events| - 1]);
      NextKeepsInv(lib, Run(lib, s, events[..|events| - 1]), events[|events| - 1]);
    }
  }

  // ---- what a read accepts ----

  lemma ReadDecision(lib: Library, meta: File<Prepared>, n: nat)
    requires Sound(lib) && meta.Present? && meta.written <= |PreparedText(lib, meta.source)|
    ensures Min(n, meta.written) == |PreparedText(lib, meta.source)|
            ==> ReadMeta(lib, MetaRead(lib, meta, n)) == Ok(PreparedMeta(lib, meta.source))
    ensures Min(n, meta.written) < |PreparedText(lib, meta.source)|
            ==> ReadMeta(lib, MetaRead(lib, meta, n)).Err?
  {
    var text := PreparedText(lib, meta.source)[..Min(n, meta.written)];
    ReadOfPrefix(lib, meta.source, text);
    assert MetaRead(lib, meta, n) == Content(text);
  }

  /** A read of `master.json` is accepted exactly when it returned the whole committed text,
      and then it is taken for exactly what was committed; a torn one is retried or ends the
      call with an error. */
  lemma LoadAccepts(lib: Library, password: string, purpose: Purpose, attempt: nat, dir: Dir, n: nat)
    requires Sound(lib) && DirInv(lib, dir) && dir.meta.Present?
    ensures StepReadMeta(lib, Load(password, purpose, attempt), dir, Amount(n))
         == if Min(n, dir.meta.written) == |PreparedText(lib, dir.meta.source)| then
              (if purpose.ForFlag? then
                 (if dir.meta.source.bootstrap then LoadStart(password, ForUnlock) else Done(None))
               else if password == dir.meta.source.password then Done(Some(PreparedKey(lib, dir.meta.source)))
               else Stopped)
            else Retry(attempt, Load(password, purpose, attempt + 1))
  {
    ReadDecision(lib, dir.meta, n);
    UnlockPrepared(lib, dir.meta.source, password);
  }

  // ---- the main results ----

  ghost predicate Returned(s: State, who: nat, key: Bytes) {
    who < |s.processes| && s.processes[who].pc == Done(Some(key))
  }

  /** Whatever a process has returned it has returned for good. */
  lemma {:induction false} ReturnedForGood(lib: Library, s: State, events: seq<Event>, m: nat, who: nat, key: Bytes)
    requires m <= |events| && Returned(Run(lib, s, events[..m]), who, key)
    ensures Returned(Run(lib, s, events), who, key)
    decreases |events|
  {
    if m == |events| {
      assert events[..m] == events;
    } else {
      var shorter := events[..|events| - 1];
      assert shorter[..m] == events[..m];
      ReturnedForGood(lib, s, shorter, m, who, key);
    }
  }

  /** Key agreement. In every run from the empty directory, for any number of processes with
      any mixture of roles and passwords, keys returned by any two processes at any two
      moments are the same key: the one derived from the single committed preparation,
      which by then is complete on disk and which its own password unlocks to that key. */
  lemma KeyAgreement(lib: Library, s: State, events: seq<Event>, m: nat, n: nat, p: nat, q: nat, k: Bytes, l: Bytes)
    requires Sound(lib) && Initial(s) && m <= |events| && n <= |events|
    requires Returned(Run(lib, s, events[..m]), p, k) && Returned(Run(lib, s, events[..n]), q, l)
    ensures k == l
    ensures var dir := Run(lib, s, events).dir;
            && MetaComplete(lib, dir)
            && k == PreparedKey(lib, dir.meta.source)
            && UnlockFile(lib, Some(PreparedText(lib, dir.meta.source)), dir.meta.source.password) == Ok(k)
  {
    RunKeepsInv(lib, s, events);
    ReturnedForGood(lib, s, events, m, p, k);
    ReturnedForGood(lib, s, events, n, q, l);
    var c := Run(lib, s, events).dir.meta.source;
    UnlockAfterHistory(lib, [SetPassword(c)], c.password);
    assert FileAfter(lib, [SetPassword(c)]) == Some(PreparedText(lib, c));
  }

  ghost predicate OneSecret(s: State, role: Role) {
    forall i :: 0 <= i < |s.processes| ==> s.processes[i].role == role
  }

  ghost predicate CommittedBy(lib: Library, dir: Dir, role: Role) {
    dir.meta.Present? ==>
      && dir.meta.source.bootstrap == role.Bootstrap?
      && OwnPassword(lib, dir, role, dir.meta.source.password)
  }

  lemma NextKeepsRoles(lib: Library, s: State, e: Event, role: Role)
    requires Sound(lib) && Inv(lib, s) && OneSecret(s, role) && CommittedBy(lib, s.dir, role)
    ensures OneSecret(Next(lib, s, e), role) && CommittedBy(lib, Next(lib, s, e).dir, role)
  {
    NextKeepsInv(lib, s, e);
    if e.who < |s.processes| {
      var p := s.processes[e.who];
      assert p.role == role && PcInv(lib, s.dir, p.role, e.who, p.pc);
    }
  }

  lemma {:induction false} RunKeepsRoles(lib: Library, s: State, events: seq<Event>, role: Role)
    requires Sound(lib) && Initial(s) && OneSecret(s, role)
    ensures OneSecret(Run(lib, s, events), role) && CommittedBy(lib, Run(lib, s, events).dir, role)
    decreases |events|
  {
    if events == [] {
    } else {
      var shorter := events[..|events| - 1];
      RunKeepsInv(lib, s, shorter);
      RunKeepsRoles(lib, s, shorter, role);
      NextKeepsRoles(lib, Run(lib, s, shorter), events[|events| - 1], role);
    }
  }

  /** When all services share one role and secret, a loser never ends up without the key: a
      read that returns the whole committed file takes a process that is checking the flag
      on to unlocking, and a process that is unlocking to the winner's key. */
  lemma LoserGetsWinnersKey(lib: Library, s: State, events: seq<Event>, role: Role, who: nat, n: nat)
    requires Sound(lib) && Initial(s) && OneSecret(s, role)
    requires who < |s.processes|
    requires var t := Run(lib, s, events);
             && t.processes[who].pc.Load?
             && (t.processes[who].pc.purpose.ForFlag? ==> role.Bootstrap?)
             && t.dir.meta.Present?
             && Min(n, t.dir.meta.written) == |PreparedText(lib, t.dir.meta.source)|
    ensures var t := Run(lib, s, events);
            var pc := t.processes[who].pc;
            Step(lib, role, who, pc, t.dir, Amount(n)).0
            == if pc.purpose.ForFlag? then LoadStart(pc.password, ForUnlock)
               else Done(Some(PreparedKey(lib, t.dir.meta.source)))
  {
    var t := Run(lib, s, events);
    var pc := t.processes[who].pc;
    RunKeepsInv(lib, s, events);
    RunKeepsRoles(lib, s, events, role);
    assert PcInv(lib, t.dir, t.processes[who].role, who, pc);
    LoadAccepts(lib, pc.password, pc.purpose, pc.attempt, t.dir, n);
  }

  // ---- one password ----

  /** The password a process goes on with. */
  function PcPassword(pc: Pc): Option<string> {
    match pc
    case Prepare(password) => Some(password)
    case MetaCreate(c) => Some(c.password)
    case MetaWrite(c) => Some(c.password)
    case FlagCheck(password) => Some(password)
    case LoadStart(password, _) => Some(password)
    case Load(password, _, _) => Some(password)
    case _ => None
  }

  ghost predicate Holds(s: State, who: nat, password: string) {
    && who < |s.processes| && s.processes[who].role.Bootstrap?
    && PcPassword(s.processes[who].pc) == Some(password)
  }

  lemma {:induction false} RunGrows(lib: Library, s: State, events: seq<Event>, m: nat)
    requires Sound(lib) && Initial(s) && m <= |events|
    ensures DirGrows(Run(lib, s, events[..m]).dir, Run(lib, s, events).dir)
    decreases |events|
  {
    if m == |events| {
      assert events[..m] == events;
    } else {
      var shorter := events[..|events| - 1];
      assert shorter[..m] == events[..m];
      RunGrows(lib, s, shorter, m);
      RunKeepsInv(lib, s, shorter);
      NextKeepsInv(lib, Run(lib, s, shorter), events[|events| - 1]);
    }
  }

  /** No torn keyfile ever leads to a password: whenever a process of a run holds a bootstrap
      password, wherever it is in its call, the keyfile is complete on disk by then, stays as it
      is for the rest of the run, and the password was made from it. */
  lemma PasswordIsFromKeyfile(lib: Library, s: State, events: seq<Event>, m: nat, who: nat, password: string)
    requires Sound(lib) && Initial(s) && m <= |events| && Holds(Run(lib, s, events[..m]), who, password)
    ensures FromKeyfile(lib, Run(lib, s, events[..m]).dir, password)
    ensures FromKeyfile(lib, Run(lib, s, events).dir, password)
  {
    var t := Run(lib, s, events[..m]);
    RunKeepsInv(lib, s, events[..m]);
    assert PcInv(lib, t.dir, t.processes[who].role, who, t.processes[who].pc);
    RunKeepsInv(lib, s, events);
    RunGrows(lib, s, events, m);
  }

  /** All bootstrap passwords of a run are one: those of any two processes at any two moments. */
  lemma OneBootstrapPassword(lib: Library, s: State, events: seq<Event>, m: nat, n: nat, i: nat, j: nat, p: string,
                             q: string)
    requires Sound(lib) && Initial(s) && m <= |events| && n <= |events|
    requires Holds(Run(lib, s, events[..m]), i, p) && Holds(Run(lib, s, events[..n]), j, q)
    ensures p == q
  {
    PasswordIsFromKeyfile(lib, s, events, m, i, p);
    PasswordIsFromKeyfile(lib, s, events, n, j, q);
  }

  // ---- how calls end ----

  /** The read returned all of `master.json`. */
  ghost predicate ReadsWhole(lib: Library, dir: Dir, choice: Choice) {
    dir.meta.Present? && choice.Amount? && Min(choice.n, dir.meta.written) == |PreparedText(lib, dir.meta.source)|
  }

  ghost predicate ReadsTornKeyfile(dir: Dir, choice: Choice) {
    dir.keyfile.Present? && choice.Amount? && Min(choice.n, dir.keyfile.written) < KEY_LEN
  }

  /** A bootstrap call ends here without a key: its first check finds `master.json`, or the file
      it lost against turns out to hold no bootstrap password. */
  ghost predicate EndsWithoutKey(lib: Library, pc: Pc, dir: Dir, choice: Choice) {
    || (pc.CheckSet? && dir.meta.Present? && !choice.Crash?)
    || (pc.Load? && pc.purpose.ForFlag? && ReadsWhole(lib, dir, choice) && !dir.meta.source.bootstrap)
  }

  /** A call fails here: it crashes, its last attempt reads a torn file, the keyfile is read torn
      behind the loader, or `master.json` was made for another password. */
  ghost predicate Fails(lib: Library, pc: Pc, dir: Dir, choice: Choice) {
    || (choice.Crash? && !pc.Done?)
    || (pc.KeyLoad? && pc.attempt >= READ_ATTEMPTS - 1 && ReadsTornKeyfile(dir, choice))
    || (pc.KeyRead? && ReadsTornKeyfile(dir, choice))
    || (pc.Load? && pc.attempt >= READ_ATTEMPTS - 1 && choice.Amount? && !ReadsWhole(lib, dir, choice))
    || (pc.Load? && pc.purpose.ForUnlock? && ReadsWhole(lib, dir, choice) && pc.password != dir.meta.source.password)
  }

  /** The step ends the call exactly as said above. */
  ghost predicate EndsAsSaid(lib: Library, role: Role, pc: Pc, dir: Dir, choice: Choice, next: Pc) {
    && (role.Bootstrap? ==> (next == Done(None) <==> pc == Done(None) || EndsWithoutKey(lib, pc, dir, choice)))
    && (next == Stopped <==> pc == Stopped || Fails(lib, pc, dir, choice))
  }

  lemma StepEnds(lib: Library, role: Role, who: nat, pc: Pc, dir: Dir, choice: Choice)
    requires Sound(lib) && DirInv(lib, dir) && PcInv(lib, dir, role, who, pc)
    ensures EndsAsSaid(lib, role, pc, dir, choice, Step(lib, role, who, pc, dir, choice).0)
  {
    if choice.Crash? {
    } else if pc.Load? {
      LoadEnds(lib, role, pc, dir, choice);
    } else if pc.KeyLoad? || pc.KeyRead? {
      KeyfileReadEnds(lib, role, who, pc, dir, choice);
    } else {
      OtherEnds(lib, role, who, pc, dir, choice);
    }
  }

  lemma LoadEnds(lib: Library, role: Role, pc: Pc, dir: Dir, choice: Choice)
    requires Sound(lib) && DirInv(lib, dir) && dir.meta.Present? && pc.Load? && !choice.Crash?
    ensures EndsAsSaid(lib, role, pc, dir, choice, StepReadMeta(lib, pc, dir, choice))
  {
    if choice.Amount? {
      LoadAccepts(lib, pc.password, pc.purpose, pc.attempt, dir, choice.n);
    }
  }

  lemma KeyfileReadEnds(lib: Library, role: Role, who: nat, pc: Pc, dir: Dir, choice: Choice)
    requires DirInv(lib, dir) && PcInv(lib, dir, role, who, pc) && !choice.Crash? && (pc.KeyLoad? || pc.KeyRead?)
    ensures EndsAsSaid(lib, role, pc, dir, choice, StepReadKeyfile(lib, pc, dir, choice))
  {
  }

  lemma OtherEnds(lib: Library, role: Role, who: nat, pc: Pc, dir: Dir, choice: Choice)
    requires DirInv(lib, dir) && PcInv(lib, dir, role, who, pc) && !choice.Crash?
    requires !pc.Load? && !pc.KeyLoad? && !pc.KeyRead?
    ensures EndsAsSaid(lib, role, pc, dir, choice, Step(lib, role, who, pc, dir, choice).0)
  {
  }

  /** Some step of the process up to now was such. */
  ghost predicate Happened(lib: Library, s: State, events: seq<Event>, who: nat, cause: (Pc, Dir, Choice) -> bool)
    requires who < |s.processes|
  {
    exists k :: 0 <= k < |events| && events[k].who == who
      && var t := Run(lib, s, events[..k]); cause(t.processes[who].pc, t.dir, events[k].choice)
  }

  lemma HappenedStep(lib: Library, s: State, events: seq<Event>, who: nat, cause: (Pc, Dir, Choice) -> bool)
    requires who < |s.processes| && events != []
    ensures var shorter, e := events[..|events| - 1], events[|events| - 1];
            var t := Run(lib, s, shorter);
            Happened(lib, s, events, who, cause)
            <==> Happened(lib, s, shorter, who, cause)
                 || (e.who == who && cause(t.processes[who].pc, t.dir, e.choice))
  {
    var n := |events| - 1;
    var shorter := events[..n];
    assert forall k :: 0 <= k < n ==> shorter[..k] == events[..k] && shorter[k] == events[k];
  }

  ghost function WithoutKey(lib: Library): (Pc, Dir, Choice) -> bool {
    (pc, dir, choice) => EndsWithoutKey(lib, pc, dir, choice)
  }

  ghost function Failing(lib: Library): (Pc, Dir, Choice) -> bool { (pc, dir, choice) => Fails(lib, pc, dir, choice) }

  /** How calls end, in every run with any mixture of roles: a bootstrap call returns no key
      exactly when one of its steps ended it so, and a call fails exactly when one of its steps
      failed. */
  lemma {:induction false} CallEndsIff(lib: Library, s: State, events: seq<Event>, who: nat)
    requires Sound(lib) && Initial(s) && who < |s.processes|
    ensures var p := Run(lib, s, events).processes[who];
            && p.role == s.processes[who].role
            && (p.role.Bootstrap? ==> (p.pc == Done(None) <==> Happened(lib, s, events, who, WithoutKey(lib))))
            && (p.pc == Stopped <==> Happened(lib, s, events, who, Failing(lib)))
    decreases |events|
  {
    if events != [] {
      var shorter, e := events[..|events| - 1], events[|events| - 1];
      var t := Run(lib, s, shorter);
      CallEndsIff(lib, s, shorter, who);
      RunKeepsInv(lib, s, shorter);
      HappenedStep(lib, s, events, who, WithoutKey(lib));
      HappenedStep(lib, s, events, who, Failing(lib));
      if e.who == who {
        assert PcInv(lib, t.dir, t.processes[who].role, who, t.processes[who].pc);
        StepEnds(lib, t.processes[who].role, who, t.processes[who].pc, t.dir, e.choice);
      }
    }
  }

  /** The first step of the process found `master.json`. */
  ghost predicate FoundFileFirst(lib: Library, s: State, events: seq<Event>, who: nat)
    requires who < |s.processes|
  {
    exists k :: 0 <= k < |events| && events[k].who == who && !events[k].choice.Crash?
      && (forall j :: 0 <= j < k ==> events[j].who != who)
      && Run(lib, s, events[..k]).dir.meta.Present?
  }

  lemma CheckIsLeft(lib: Library, role: Role, who: nat, pc: Pc, dir: Dir, choice: Choice)
    ensures Step(lib, role, who, pc, dir, choice).0 != CheckSet
  {
  }

  /** Only a process that has not moved is at its first check. */
  lemma NextChecksFirst(lib: Library, s: State, e: Event, who: nat)
    requires who < |s.processes|
    ensures Next(lib, s, e).processes[who].pc == CheckSet <==> s.processes[who].pc == CheckSet && e.who != who
  {
    if e.who == who {
      var p := s.processes[who];
      CheckIsLeft(lib, p.role, who, p.pc, s.dir, e.choice);
    }
  }

  lemma {:induction false} ChecksFirst(lib: Library, s: State, events: seq<Event>, who: nat)
    requires Initial(s) && who < |s.processes|
    ensures Run(lib, s, events).processes[who].pc == CheckSet
       <==> forall j :: 0 <= j < |events| ==> events[j].who != who
    decreases |events|
  {
    if events != [] {
      var shorter := events[..|events| - 1];
      ChecksFirst(lib, s, shorter, who);
      NextChecksFirst(lib, Run(lib, s, shorter), events[|events| - 1], who);
      assert forall j :: 0 <= j < |shorter| ==> shorter[j] == events[j];
    }
  }

  /** When all calls are bootstrap calls, one returns no key if and only if its first step found
      `master.json`, complete or not; all others that return return the one key. */
  lemma NoKeyIff(lib: Library, s: State, events: seq<Event>, who: nat)
    requires Sound(lib) && Initial(s) && who < |s.processes| && OneSecret(s, Bootstrap)
    ensures Run(lib, s, events).processes[who].pc == Done(None) <==> FoundFileFirst(lib, s, events, who)
  {
    CallEndsIff(lib, s, events, who);
    forall k | 0 <= k < |events| && events[k].who == who
      ensures var t := Run(lib, s, events[..k]);
              EndsWithoutKey(lib, t.processes[who].pc, t.dir, events[k].choice)
              <==> t.dir.meta.Present? && !events[k].choice.Crash? && forall j :: 0 <= j < k ==> events[j].who != who
    {
      var before := events[..k];
      RunKeepsRoles(lib, s, before, Bootstrap);
      ChecksFirst(lib, s, before, who);
      assert forall j :: 0 <= j < k ==> before[j] == events[j];
    }
  }
}
