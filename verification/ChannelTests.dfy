/** The cooldown of channel tests. A test takes the lock twice, around the network call, and
    writes back its own start time at the end; everything else may happen in between. */
module ChannelTests {
  import opened Results
  import opened Text
  import opened ChannelNames
  import opened ChannelAuth
  import opened ChannelStore
  import opened ChannelIsolation

  // ---- one cooldown ----

  /** A test is refused exactly within 30 seconds of the last start. */
  lemma CooldownIff(last: int, now: int)
    ensures CooldownRemaining(Some(last), now).None? <==> now - last >= COOLDOWN * SECOND
  {
  }

  /** A refusal names the seconds to wait: at that time the test is accepted, and not a second
      before, provided the clock does not stand before the last start. */
  lemma CooldownWait(last: int, now: int)
    requires CooldownRemaining(Some(last), now).Some? && last <= now
    ensures var wait := CooldownRemaining(Some(last), now).value;
            && 1 <= wait <= COOLDOWN
            && CooldownRemaining(Some(last), now + wait * SECOND).None?
            && CooldownRemaining(Some(last), now + (wait - 1) * SECOND).Some?
  {
    var elapsed := (now - last) / SECOND;
    assert CooldownRemaining(Some(last), now).value == COOLDOWN - elapsed;
    assert now - last < (elapsed + 1) * SECOND;
  }

  // ---- runs ----

  function Time(e: Event): Option<int> {
    match e
    case UpsertChannel(_, _, _, now) => Some(now)
    case BeginTest(_, _, now) => Some(now)
    case FinishTest(_, _, _, _, now) => Some(now)
    case AbandonTest(_, _, now) => Some(now)
    case _ => None
  }

  /** A test of the channel is accepted. */
  predicate Starts(s: State, e: Event, id: string) {
    e.BeginTest? && EventId(e) == id && BeginRefusal(s, e.rawId, e.ready, e.now).None?
  }

  /** A test of the channel ends, with a record or without. */
  predicate Ends(e: Event, id: string) { (e.FinishTest? || e.AbandonTest?) && EventId(e) == id }

  predicate Finishes(e: Event, id: string) { e.FinishTest? && EventId(e) == id }

  /** A moment of a run: the store, the start times of the tests of one channel accepted so far,
      those of its tests in flight, and the clock. */
  datatype Moment = Moment(s: State, starts: seq<int>, flying: multiset<int>, clock: int)

  function Go(names: Names, id: string, m: Moment, e: Event): Moment {
    Moment(Apply(names, m.s, e),
           if Starts(m.s, e, id) then m.starts + [e.now] else m.starts,
           if Starts(m.s, e, id) then m.flying + multiset{e.now}
           else if Ends(e, id) then m.flying - multiset{e.startedAt}
           else m.flying,
           if Time(e).Some? then Time(e).value else m.clock)
  }

  function GoAll(names: Names, id: string, m: Moment, events: seq<Event>): Moment
    decreases |events|
  {
    if events == [] then m else GoAll(names, id, Go(names, id, m, events[0]), events[1..])
  }

  /** The event is possible: the clock does not run backwards, the channel is not deleted, and a
      test that ends is in flight. */
  predicate IsPossible(id: string, m: Moment, e: Event) {
    && (Time(e).Some? ==> m.clock <= Time(e).value)
    && (e.DeleteChannel? ==> EventId(e) != id)
    && (Ends(e, id) ==> e.startedAt in m.flying)
  }

  predicate IsRun(names: Names, id: string, m: Moment, events: seq<Event>)
    decreases |events|
  {
    events == [] || (IsPossible(id, m, events[0]) && IsRun(names, id, Go(names, id, m, events[0]), events[1..]))
  }

  predicate Spaced(starts: seq<int>) {
    forall i, j :: 0 <= i < j < |starts| ==> starts[j] - starts[i] >= COOLDOWN * SECOND
  }

  predicate NoFinish(id: string, events: seq<Event>) {
    forall i :: 0 <= i < |events| ==> !Finishes(events[i], id)
  }

  /** However the run goes on, tests are accepted 30 seconds apart, as long as none finishes. */
  ghost predicate IsSafe(names: Names, id: string, m: Moment) {
    forall events :: IsRun(names, id, m, events) && NoFinish(id, events) ==> Spaced(GoAll(names, id, m, events).starts)
  }

  /** This is so at every moment of the run. */
  ghost predicate AlwaysSafe(names: Names, id: string, m: Moment, events: seq<Event>)
    decreases |events|
  {
    IsSafe(names, id, m) && (events != [] ==> AlwaysSafe(names, id, Go(names, id, m, events[0]), events[1..]))
  }

  // ---- what holds at every moment ----

  function Remembered(s: State, id: string): Option<int> {
    if Lookup(s.configs, id).Some? then Lookup(s.configs, id).value.test.startedAt else None
  }

  /** The channel remembers the start of one of its tests, and none is in the future. */
  ghost predicate Base(id: string, m: Moment) {
    && IsSlug(id)
    && (forall i :: 0 <= i < |m.starts| ==> m.starts[i] <= m.clock)
    && (forall t :: t in m.flying ==> t in m.starts)
    && (m.starts != [] ==>
          Lookup(m.s.configs, id).Some? && Remembered(m.s, id).Some? && Remembered(m.s, id).value in m.starts)
  }

  /** The newest start is remembered, or 30 seconds ago. */
  predicate IsGuarded(id: string, m: Moment) {
    && Spaced(m.starts)
    && (m.starts != [] ==>
          var newest := m.starts[|m.starts| - 1];
          Remembered(m.s, id) == Some(newest) || m.clock >= newest + COOLDOWN * SECOND)
  }

  lemma SetTestIsFound(s: State, id: string, test: TestRecord, now: int)
    ensures Lookup(s.configs, id).Some? ==>
              && Lookup(SetTest(s, id, test, now).configs, id).Some?
              && Lookup(SetTest(s, id, test, now).configs, id).value.test == test
  {
    var i := Find(s.configs, id);
    if i < |s.configs| {
      PutIsFound(s.configs, s.configs[i].(test := test, updatedAt := now));
    }
  }

  /** Changing a channel keeps the record of its last test. */
  lemma UpsertKeepsTest(names: Names, s: State, request: Request, pathId: Option<string>, profiles: set<string>,
                        now: int)
    ensures var id := TargetId(request, pathId);
            var after := Lookup(Upserted(names, s, request, pathId, profiles, now).configs, id);
            Lookup(s.configs, id).Some? ==> after.Some? && after.value.test == Lookup(s.configs, id).value.test
  {
    if Refusal(names, s, request, pathId, profiles).None? {
      var id := TargetId(request, pathId);
      PutIsFound(s.configs, NewConfig(names, id, request, Lookup(s.configs, id), now));
    }
  }

  /** No event but the start and the finish of a test of the channel changes what it remembers. */
  lemma RememberedStays(names: Names, id: string, m: Moment, e: Event)
    requires IsPossible(id, m, e) && !Starts(m.s, e, id) && !Finishes(e, id) && Lookup(m.s.configs, id).Some?
    ensures var after := Apply(names, m.s, e);
            Lookup(after.configs, id).Some? && Remembered(after, id) == Remembered(m.s, id)
  {
    if EventId(e) != id {
      ApplyKeepsOthers(names, m.s, e, id);
    } else if e.UpsertChannel? {
      UpsertKeepsTest(names, m.s, e.request, e.pathId, e.profiles, e.now);
    }
  }

  lemma StartIsRemembered(names: Names, id: string, m: Moment, e: Event)
    requires Starts(m.s, e, id)
    ensures var after := Apply(names, m.s, e); Lookup(after.configs, id).Some? && Remembered(after, id) == Some(e.now)
    ensures Remembered(m.s, id).Some? ==> e.now - Remembered(m.s, id).value >= COOLDOWN * SECOND
  {
    SetTestIsFound(m.s, id, TestRecord(Some(e.now), Some("running"), Some("Test started.")), e.now);
    if Remembered(m.s, id).Some? {
      CooldownIff(Remembered(m.s, id).value, e.now);
    }
  }

  lemma FinishIsRemembered(names: Names, id: string, m: Moment, e: Event)
    requires Finishes(e, id) && Lookup(m.s.configs, id).Some?
    ensures var after := Apply(names, m.s, e);
            Lookup(after.configs, id).Some? && Remembered(after, id) == Some(e.startedAt)
  {
    SetTestIsFound(m.s, id, TestRecord(Some(e.startedAt), Some(if e.ok then "ok" else "error"), Some(e.detail)), e.now);
  }

  lemma GoKeepsBase(names: Names, id: string, m: Moment, e: Event)
    requires Base(id, m) && IsPossible(id, m, e)
    ensures Base(id, Go(names, id, m, e))
  {
    StartsGrow(names, id, m, e);
    StartsStayPast(names, id, m, e);
    if Starts(m.s, e, id) {
      StartIsRemembered(names, id, m, e);
    } else if m.starts != [] {
      if Finishes(e, id) {
        FinishIsRemembered(names, id, m, e);
      } else {
        RememberedStays(names, id, m, e);
      }
    }
  }

  lemma StartsStayPast(names: Names, id: string, m: Moment, e: Event)
    requires IsPossible(id, m, e) && forall i :: 0 <= i < |m.starts| ==> m.starts[i] <= m.clock
    ensures var next := Go(names, id, m, e); forall i :: 0 <= i < |next.starts| ==> next.starts[i] <= next.clock
  {
  }

  lemma StartsGrow(names: Names, id: string, m: Moment, e: Event)
    requires forall t :: t in m.flying ==> t in m.starts
    ensures var next := Go(names, id, m, e);
            && (forall t :: t in m.starts ==> t in next.starts)
            && (forall t :: t in next.flying ==> t in next.starts)
            && (Starts(m.s, e, id) ==> e.now in next.starts)
  {
  }

  /** A finish that does not put the cooldown back: it is that of the newest start, or comes 30
      seconds behind that. */
  predicate FinishIsHarmless(id: string, m: Moment, e: Event) {
    Finishes(e, id) && m.starts != [] ==>
      var newest := m.starts[|m.starts| - 1];
      e.startedAt == newest || e.now >= newest + COOLDOWN * SECOND
  }

  lemma SpacedAppend(starts: seq<int>, t: int)
    requires Spaced(starts) && (starts != [] ==> t - starts[|starts| - 1] >= COOLDOWN * SECOND)
    ensures Spaced(starts + [t])
  {
    var all := starts + [t];
    forall i, j | 0 <= i < j < |all|
      ensures all[j] - all[i] >= COOLDOWN * SECOND
    {
      if j == |starts| && i < |starts| - 1 {
        assert starts[|starts| - 1] - starts[i] >= COOLDOWN * SECOND;
      }
    }
  }

  lemma StartKeepsGuarded(names: Names, id: string, m: Moment, e: Event)
    requires Base(id, m) && IsPossible(id, m, e) && IsGuarded(id, m) && Starts(m.s, e, id)
    ensures IsGuarded(id, Go(names, id, m, e))
  {
    StartIsRemembered(names, id, m, e);
    SpacedAppend(m.starts, e.now);
  }

  lemma FinishKeepsGuarded(names: Names, id: string, m: Moment, e: Event)
    requires Base(id, m) && IsPossible(id, m, e) && IsGuarded(id, m) && Finishes(e, id) && FinishIsHarmless(id, m, e)
    ensures IsGuarded(id, Go(names, id, m, e))
  {
    if m.starts != [] {
      FinishIsRemembered(names, id, m, e);
      GuardedByFinish(id, m, e, Go(names, id, m, e));
    }
  }

  lemma GuardedByFinish(id: string, m: Moment, e: Event, next: Moment)
    requires m.starts != [] && IsGuarded(id, m) && Finishes(e, id) && FinishIsHarmless(id, m, e)
    requires next.starts == m.starts && next.clock == e.now && Remembered(next.s, id) == Some(e.startedAt)
    ensures IsGuarded(id, next)
  {
  }

  lemma OtherKeepsGuarded(names: Names, id: string, m: Moment, e: Event)
    requires Base(id, m) && IsPossible(id, m, e) && IsGuarded(id, m) && !Starts(m.s, e, id) && !Finishes(e, id)
    ensures IsGuarded(id, Go(names, id, m, e))
  {
    if m.starts != [] {
      RememberedStays(names, id, m, e);
    }
  }

  lemma GoKeepsGuarded(names: Names, id: string, m: Moment, e: Event)
    requires Base(id, m) && IsPossible(id, m, e) && IsGuarded(id, m) && FinishIsHarmless(id, m, e)
    ensures IsGuarded(id, Go(names, id, m, e))
  {
    if Starts(m.s, e, id) {
      StartKeepsGuarded(names, id, m, e);
    } else if Finishes(e, id) {
      FinishKeepsGuarded(names, id, m, e);
    } else {
      OtherKeepsGuarded(names, id, m, e);
    }
  }

  lemma {:induction false} GuardedStaysSpaced(names: Names, id: string, m: Moment, events: seq<Event>)
    requires Base(id, m) && IsGuarded(id, m) && IsRun(names, id, m, events) && NoFinish(id, events)
    ensures Spaced(GoAll(names, id, m, events).starts)
    decreases |events|
  {
    if events != [] {
      GoKeepsBase(names, id, m, events[0]);
      GoKeepsGuarded(names, id, m, events[0]);
      GuardedStaysSpaced(names, id, Go(names, id, m, events[0]), events[1..]);
    }
  }

  // ---- an early start ----

  /** A change that enables the channel and leaves it without fields to fill. */
  function EnablingRequest(): Request {
    Request(None, "c", "", Some(true), None, "", [], true, true, None, [], None, false)
  }

  function ReadyFor(config: Config): set<string> {
    if config.profile.Some? then {config.profile.value} else {}
  }

  function Enable(config: Config, now: int): Event {
    UpsertChannel(EnablingRequest(), Some(config.id), ReadyFor(config), now)
  }

  lemma EnablingIsAccepted(names: Names, s: State, config: Config, now: int)
    requires IsSlug(config.id) && config.id != "" && Lookup(s.configs, config.id) == Some(config)
    ensures var e := Enable(config, now);
            EventId(e) == config.id && Refusal(names, s, e.request, e.pathId, e.profiles).None?
    ensures DeclaredManifest(names, config.id, EnablingRequest()).None?
  {
    SlugIsFixed(ChannelId, config.id);
    assert Trim("c") == "c";
    assert DraftKeys([]) + [] == [];
  }

  /** Whatever state a channel is in, a change can make it ready for a test. */
  lemma EnableIsAccepted(names: Names, s: State, id: string, now: int)
    requires IsSlug(id) && id != "" && Lookup(s.configs, id).Some?
    ensures var e := Enable(Lookup(s.configs, id).value, now);
            var config := Lookup(s.configs, id).value;
            var after := Lookup(Apply(names, s, e).configs, id);
            && EventId(e) == id && config.id == id
            && after.Some? && after.value.test == config.test
            && Configured(after.value, Apply(names, s, e).secrets, ReadyFor(config))
  {
    var config := Lookup(s.configs, id).value;
    var e := Enable(config, now);
    EnablingIsAccepted(names, s, config, now);
    PutIsFound(s.configs, NewConfig(names, id, e.request, Some(config), now));
  }

  /** An older start is remembered and the newest is not 30 seconds old: the channel is changed,
      and a test is accepted a nanosecond before the newest test is 30 seconds old. */
  lemma EarlyStart(names: Names, id: string, m: Moment) returns (events: seq<Event>)
    requires Base(id, m) && id != "" && Spaced(m.starts) && !IsGuarded(id, m)
    ensures IsRun(names, id, m, events) && NoFinish(id, events) && !Spaced(GoAll(names, id, m, events).starts)
  {
    var config := Lookup(m.s.configs, id).value;
    var enable, one := EnableGoes(names, id, m);
    var begin := BeginAt(id, ReadyFor(config), m.starts[|m.starts| - 1] + COOLDOWN * SECOND - 1);
    EarlyBegin(names, id, one, begin, Remembered(m.s, id).value);
    events := [enable] + ([begin] + []);
    TwoSteps(names, id, m, one, Go(names, id, one, begin), enable, begin, []);
  }

  lemma BeginAt(id: string, ready: set<string>, now: int) returns (e: Event)
    requires IsSlug(id)
    ensures e.BeginTest? && EventId(e) == id && e.ready == ready && e.now == now
  {
    e := BeginTest(id, ready, now);
    SlugIsFixed(ChannelId, id);
  }

  lemma EarlyBegin(names: Names, id: string, m: Moment, e: Event, older: int)
    requires e.BeginTest? && EventId(e) == id && CanBeTested(m.s, id, e.ready) && Remembered(m.s, id) == Some(older)
    requires Spaced(m.starts) && older in m.starts && older != m.starts[|m.starts| - 1]
    requires e.now == m.starts[|m.starts| - 1] + COOLDOWN * SECOND - 1
    ensures !Spaced(Go(names, id, m, e).starts)
  {
    OlderStart(m.starts, older);
    CooldownIff(older, e.now);
    BeginGoes(names, id, m, e);
    NotSpaced(m.starts, e.now);
  }

  lemma EnableGoes(names: Names, id: string, m: Moment) returns (e: Event, next: Moment)
    requires IsSlug(id) && id != "" && Lookup(m.s.configs, id).Some?
    ensures next == Go(names, id, m, e) && IsPossible(id, m, e) && !Finishes(e, id)
    ensures next.starts == m.starts && next.clock == m.clock
    ensures CanBeTested(next.s, id, ReadyFor(Lookup(m.s.configs, id).value))
         && Remembered(next.s, id) == Remembered(m.s, id)
  {
    e := Enable(Lookup(m.s.configs, id).value, m.clock);
    next := Go(names, id, m, e);
    EnableIsAccepted(names, m.s, id, m.clock);
  }

  lemma NotSpaced(starts: seq<int>, t: int)
    requires starts != [] && t - starts[|starts| - 1] < COOLDOWN * SECOND
    ensures !Spaced(starts + [t])
  {
    var all := starts + [t];
    assert all[|starts|] - all[|starts| - 1] < COOLDOWN * SECOND;
  }

  lemma OlderStart(starts: seq<int>, t: int)
    requires Spaced(starts) && t in starts && t != starts[|starts| - 1]
    ensures starts[|starts| - 1] - t >= COOLDOWN * SECOND
  {
  }

  /** When the next test is safe, exactly: whatever happens but the finish of a test, no test is
      accepted within 30 seconds of another if and only if the newest start is the one remembered
      or 30 seconds ago. */
  lemma SafeIff(names: Names, id: string, m: Moment)
    requires Base(id, m) && id != ""
    ensures IsSafe(names, id, m) <==> IsGuarded(id, m)
  {
    if IsGuarded(id, m) {
      forall events | IsRun(names, id, m, events) && NoFinish(id, events)
        ensures Spaced(GoAll(names, id, m, events).starts)
      {
        GuardedStaysSpaced(names, id, m, events);
      }
    } else if Spaced(m.starts) {
      var events := EarlyStart(names, id, m);
    } else {
      assert IsRun(names, id, m, []) && NoFinish(id, []) && GoAll(names, id, m, []) == m;
    }
  }

  // ---- runs with arbitrary finish times ----

  predicate AllHarmless(names: Names, id: string, m: Moment, events: seq<Event>)
    decreases |events|
  {
    events == []
    || (FinishIsHarmless(id, m, events[0]) && AllHarmless(names, id, Go(names, id, m, events[0]), events[1..]))
  }

  lemma HarmfulFinish(names: Names, id: string, m: Moment, e: Event)
    requires Base(id, m) && IsPossible(id, m, e) && IsGuarded(id, m) && !FinishIsHarmless(id, m, e)
    ensures !IsGuarded(id, Go(names, id, m, e))
  {
    FinishIsRemembered(names, id, m, e);
  }

  lemma {:induction false} AlwaysSafeFrom(names: Names, id: string, m: Moment, events: seq<Event>)
    requires Base(id, m) && IsGuarded(id, m) && id != "" && IsRun(names, id, m, events)
    ensures AlwaysSafe(names, id, m, events) <==> AllHarmless(names, id, m, events)
    decreases |events|
  {
    SafeIff(names, id, m);
    if events != [] {
      var next := Go(names, id, m, events[0]);
      GoKeepsBase(names, id, m, events[0]);
      if FinishIsHarmless(id, m, events[0]) {
        GoKeepsGuarded(names, id, m, events[0]);
        AlwaysSafeFrom(names, id, next, events[1..]);
      } else {
        HarmfulFinish(names, id, m, events[0]);
        SafeIff(names, id, next);
      }
    }
  }

  /** Before the first test of a channel is accepted. */
  function First(s: State, clock: int): Moment { Moment(s, [], multiset{}, clock) }

  /** The cooldown of every run, with arbitrary finish times: at no moment can tests be accepted
      less than 30 seconds apart if and only if every test that finishes is the newest one or
      finishes 30 seconds or more behind the start of the newest. */
  lemma AlwaysSafeIff(names: Names, id: string, s: State, clock: int, events: seq<Event>)
    requires IsSlug(id) && id != "" && IsRun(names, id, First(s, clock), events)
    ensures AlwaysSafe(names, id, First(s, clock), events) <==> AllHarmless(names, id, First(s, clock), events)
  {
    AlwaysSafeFrom(names, id, First(s, clock), events);
  }

  // ---- runs whose tests end in time ----

  /** Nothing happens while a test is in flight that started 30 seconds ago: tests end in time. */
  predicate IsPrompt(m: Moment, e: Event) {
    Time(e).Some? ==> forall t :: t in m.flying ==> Time(e).value < t + COOLDOWN * SECOND
  }

  predicate IsPromptRun(names: Names, id: string, m: Moment, events: seq<Event>)
    decreases |events|
  {
    events == [] || (IsPrompt(m, events[0]) && IsPromptRun(names, id, Go(names, id, m, events[0]), events[1..]))
  }

  /** No test is in flight, or just the newest. */
  ghost predicate NewestFlies(m: Moment) {
    m.flying == multiset{} || (m.starts != [] && m.flying == multiset{m.starts[|m.starts| - 1]})
  }

  /** A start finds the tests before it 30 seconds old, so none of them is in flight. */
  lemma StartFindsNone(names: Names, id: string, m: Moment, e: Event)
    requires Base(id, m) && IsGuarded(id, m) && NewestFlies(m) && IsPossible(id, m, e) && IsPrompt(m, e)
    requires Starts(m.s, e, id)
    ensures m.flying == multiset{}
  {
    StartIsRemembered(names, id, m, e);
    if m.starts != [] {
      var newest := m.starts[|m.starts| - 1];
      assert e.now >= newest + COOLDOWN * SECOND;
      assert newest !in m.flying;
    }
  }

  lemma GoKeepsNewest(names: Names, id: string, m: Moment, e: Event)
    requires Base(id, m) && IsGuarded(id, m) && NewestFlies(m) && IsPossible(id, m, e) && IsPrompt(m, e)
    ensures FinishIsHarmless(id, m, e) && NewestFlies(Go(names, id, m, e))
  {
    var next := Go(names, id, m, e);
    if Starts(m.s, e, id) {
      StartFindsNone(names, id, m, e);
      assert next.flying == multiset{e.now} && next.starts[|next.starts| - 1] == e.now;
    } else if Ends(e, id) {
      assert e.startedAt in m.flying && m.flying == multiset{m.starts[|m.starts| - 1]};
      assert next.flying == multiset{};
    }
  }

  lemma {:induction false} PromptRunFrom(names: Names, id: string, m: Moment, events: seq<Event>, k: nat)
    requires Base(id, m) && IsGuarded(id, m) && NewestFlies(m) && k <= |events|
    requires IsRun(names, id, m, events) && IsPromptRun(names, id, m, events)
    ensures AllHarmless(names, id, m, events)
    ensures NewestFlies(GoAll(names, id, m, events[..k])) && Spaced(GoAll(names, id, m, events[..k]).starts)
    decreases |events|
  {
    if events != [] {
      PromptStep(names, id, m, events[0]);
      PromptRunFrom(names, id, Go(names, id, m, events[0]), events[1..], if k > 0 then k - 1 else 0);
    }
    if k > 0 {
      GoAllPrefix(names, id, m, events, k);
    }
  }

  lemma PromptStep(names: Names, id: string, m: Moment, e: Event)
    requires Base(id, m) && IsGuarded(id, m) && NewestFlies(m) && IsPossible(id, m, e) && IsPrompt(m, e)
    ensures FinishIsHarmless(id, m, e)
    ensures var next := Go(names, id, m, e); Base(id, next) && IsGuarded(id, next) && NewestFlies(next)
  {
    GoKeepsNewest(names, id, m, e);
    GoKeepsBase(names, id, m, e);
    GoKeepsGuarded(names, id, m, e);
  }

  lemma GoAllPrefix(names: Names, id: string, m: Moment, events: seq<Event>, k: nat)
    requires 0 < k <= |events|
    ensures GoAll(names, id, m, events[..k]) == GoAll(names, id, Go(names, id, m, events[0]), events[1..][..k - 1])
  {
    assert events[..k][0] == events[0] && events[..k][1..] == events[1..][..k - 1];
  }

  /** Test cooldown: whatever is interleaved with the tests of a channel, as long as each ends
      within 30 seconds of its start, accepted tests start at least 30 seconds apart, at most one
      is in flight at any moment, and this stays so however the run goes on. */
  lemma TestsAreSpaced(names: Names, id: string, s: State, clock: int, events: seq<Event>)
    requires IsSlug(id) && id != "" && IsRun(names, id, First(s, clock), events)
    requires IsPromptRun(names, id, First(s, clock), events)
    ensures Spaced(GoAll(names, id, First(s, clock), events).starts)
    ensures forall k :: 0 <= k <= |events| ==> |GoAll(names, id, First(s, clock), events[..k]).flying| <= 1
    ensures AlwaysSafe(names, id, First(s, clock), events)
  {
    var m := First(s, clock);
    assert events[..|events|] == events;
    PromptRunFrom(names, id, m, events, |events|);
    forall k | 0 <= k <= |events|
      ensures |GoAll(names, id, m, events[..k]).flying| <= 1
    {
      PromptRunFrom(names, id, m, events, k);
    }
    AlwaysSafeIff(names, id, s, clock, events);
  }

  // ---- a test that takes longer ----

  /** The channel could be tested, but for the cooldown. */
  ghost predicate CanBeTested(s: State, id: string, ready: set<string>) {
    Lookup(s.configs, id).Some? && Configured(Lookup(s.configs, id).value, s.secrets, ready)
  }

  /** A late finish puts the clock back: two tests start 30 seconds apart, the first finishes
      behind the start of the second, and a third is accepted at the time of the second. */
  lemma LateFinishEndsCooldown(names: Names, id: string, s: State, ready: set<string>, clock: int, first: int,
                               second: int)
      returns (events: seq<Event>)
    requires IsSlug(id) && CanBeTested(s, id, ready) && Remembered(s, id).None?
    requires clock <= first && second >= first + COOLDOWN * SECOND
    ensures IsRun(names, id, First(s, clock), events)
    ensures GoAll(names, id, First(s, clock), events).starts == [first, second, second]
  {
    var begins, two := TwoBegin(names, id, First(s, clock), ready, first, second);
    var late := FirstFinishesLate(names, id, two, ready, first, second);
    GoConcat(names, id, First(s, clock), begins, late);
    events := begins + late;
    assert [first, second] + [second] == [first, second, second];
  }

  lemma {:induction false} GoConcat(names: Names, id: string, m: Moment, one: seq<Event>, two: seq<Event>)
    ensures GoAll(names, id, m, one + two) == GoAll(names, id, GoAll(names, id, m, one), two)
    ensures IsRun(names, id, m, one + two)
       <==> IsRun(names, id, m, one) && IsRun(names, id, GoAll(names, id, m, one), two)
    decreases |one|
  {
    if one == [] {
      assert one + two == two;
    } else {
      assert (one + two)[0] == one[0] && (one + two)[1..] == one[1..] + two;
      GoConcat(names, id, Go(names, id, m, one[0]), one[1..], two);
    }
  }

  lemma TwoBegin(names: Names, id: string, m: Moment, ready: set<string>, first: int, second: int)
      returns (events: seq<Event>, two: Moment)
    requires IsSlug(id) && CanBeTested(m.s, id, ready) && Remembered(m.s, id).None? && m.starts == []
    requires m.clock <= first && second >= first + COOLDOWN * SECOND
    ensures IsRun(names, id, m, events) && GoAll(names, id, m, events) == two
    ensures two.starts == [first, second] && first in two.flying && two.clock == second && CanBeTested(two.s, id, ready)
  {
    var begin := BeginAt(id, ready, first);
    var again := BeginAt(id, ready, second);
    var one := BeginGives(names, id, m, begin, [again] + []);
    CooldownIff(first, second);
    two := BeginGives(names, id, one, again, []);
    events := [begin] + ([again] + []);
  }

  lemma FirstFinishesLate(names: Names, id: string, m: Moment, ready: set<string>, first: int, second: int)
      returns (events: seq<Event>)
    requires IsSlug(id) && CanBeTested(m.s, id, ready) && first in m.flying && m.clock == second
    requires second >= first + COOLDOWN * SECOND
    ensures IsRun(names, id, m, events) && GoAll(names, id, m, events).starts == m.starts + [second]
  {
    var finish := FinishTest(id, first, true, "", second);
    var again := BeginAt(id, ready, second);
    SlugIsFixed(ChannelId, id);
    LateSteps(names, id, m, finish, again);
    events := [finish] + ([again] + []);
  }

  lemma LateSteps(names: Names, id: string, m: Moment, finish: Event, again: Event)
    requires Finishes(finish, id) && again.BeginTest? && EventId(again) == id && CanBeTested(m.s, id, again.ready)
    requires finish.startedAt in m.flying && m.clock <= finish.now <= again.now
    requires again.now >= finish.startedAt + COOLDOWN * SECOND
    ensures var events := [finish] + ([again] + []);
            IsRun(names, id, m, events) && GoAll(names, id, m, events).starts == m.starts + [again.now]
  {
    FinishGoes(names, id, m, finish, again.ready);
    var one := Go(names, id, m, finish);
    CooldownIff(finish.startedAt, again.now);
    BeginGoes(names, id, one, again);
    TwoSteps(names, id, m, one, Go(names, id, one, again), finish, again, []);
  }

  lemma BeginGoes(names: Names, id: string, m: Moment, e: Event)
    requires e.BeginTest? && EventId(e) == id && CanBeTested(m.s, id, e.ready)
    requires CooldownRemaining(Remembered(m.s, id), e.now).None?
    ensures var next := Go(names, id, m, e);
            && next.starts == m.starts + [e.now] && next.flying == m.flying + multiset{e.now} && next.clock == e.now
            && CanBeTested(next.s, id, e.ready) && Remembered(next.s, id) == Some(e.now)
  {
    SetTestLookup(m.s, id, TestRecord(Some(e.now), Some("running"), Some("Test started.")), e.now);
  }

  /** The moment behind an accepted test, from which the run goes on. */
  lemma BeginGives(names: Names, id: string, m: Moment, e: Event, rest: seq<Event>) returns (next: Moment)
    requires e.BeginTest? && EventId(e) == id && CanBeTested(m.s, id, e.ready) && m.clock <= e.now
    requires CooldownRemaining(Remembered(m.s, id), e.now).None?
    ensures GoAll(names, id, m, [e] + rest) == GoAll(names, id, next, rest)
    ensures IsRun(names, id, m, [e] + rest) <==> IsRun(names, id, next, rest)
    ensures next.starts == m.starts + [e.now] && next.flying == m.flying + multiset{e.now} && next.clock == e.now
    ensures CanBeTested(next.s, id, e.ready) && Remembered(next.s, id) == Some(e.now)
  {
    next := Go(names, id, m, e);
    BeginGoes(names, id, m, e);
    StepCons(names, id, m, e, rest);
  }

  lemma FinishGoes(names: Names, id: string, m: Moment, e: Event, ready: set<string>)
    requires Finishes(e, id) && CanBeTested(m.s, id, ready)
    ensures var next := Go(names, id, m, e);
            && next.starts == m.starts && next.clock == e.now
            && CanBeTested(next.s, id, ready) && Remembered(next.s, id) == Some(e.startedAt)
  {
    SetTestLookup(m.s, id, TestRecord(Some(e.startedAt), Some(if e.ok then "ok" else "error"), Some(e.detail)), e.now);
  }

  lemma TwoSteps(names: Names, id: string, m: Moment, one: Moment, two: Moment, a: Event, b: Event, rest: seq<Event>)
    requires one == Go(names, id, m, a) && two == Go(names, id, one, b)
    ensures GoAll(names, id, m, [a] + ([b] + rest)) == GoAll(names, id, two, rest)
    ensures IsRun(names, id, m, [a] + ([b] + rest))
       <==> IsPossible(id, m, a) && IsPossible(id, one, b) && IsRun(names, id, two, rest)
  {
    StepCons(names, id, one, b, rest);
    StepCons(names, id, m, a, [b] + rest);
  }

  lemma StepCons(names: Names, id: string, m: Moment, e: Event, rest: seq<Event>)
    ensures GoAll(names, id, m, [e] + rest) == GoAll(names, id, Go(names, id, m, e), rest)
    ensures IsRun(names, id, m, [e] + rest) <==> IsPossible(id, m, e) && IsRun(names, id, Go(names, id, m, e), rest)
  {
    var events := [e] + rest;
    assert events[0] == e && events[1..] == rest;
  }

  lemma SetTestLookup(s: State, id: string, test: TestRecord, now: int)
    requires Lookup(s.configs, id).Some?
    ensures Lookup(SetTest(s, id, test, now).configs, id)
         == Some(Lookup(s.configs, id).value.(test := test, updatedAt := now))
  {
    PutIsFound(s.configs, Lookup(s.configs, id).value.(test := test, updatedAt := now));
  }
}
