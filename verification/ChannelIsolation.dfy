/** Whole runs of the channel store: what every operation keeps, and that the operations on
    one channel leave the others and their secrets alone. */
module ChannelIsolation {
  import opened Results
  import opened Text
  import opened ChannelNames
  import opened ChannelAuth
  import opened ChannelStore

  /** One step of the store. Credentials are written with the manifest that was read earlier; a
      test that is abandoned, because its profile cannot be resolved, records nothing. */
  datatype Event =
    | UpsertChannel(request: Request, pathId: Option<string>, profiles: set<string>, now: int)
    | DeleteChannel(rawId: string)
    | StoreValues(rawId: string, mode: Mode, values: Store)
    | BeginTest(rawId: string, ready: set<string>, now: int)
    | FinishTest(rawId: string, startedAt: int, ok: bool, detail: string, now: int)
    | AbandonTest(rawId: string, startedAt: int, now: int)

  /** The channel an event is about. */
  function EventId(e: Event): string {
    if e.UpsertChannel? then TargetId(e.request, e.pathId) else SanitizeId(e.rawId)
  }

  function Apply(names: Names, s: State, e: Event): State {
    match e
    case UpsertChannel(request, pathId, profiles, now) => Upserted(names, s, request, pathId, profiles, now)
    case DeleteChannel(rawId) => Deleted(s, rawId)
    case StoreValues(_, mode, values) => s.(secrets := Written(mode, values, s.secrets))
    case BeginTest(rawId, ready, now) => Begun(s, rawId, ready, now)
    case FinishTest(rawId, startedAt, ok, detail, now) => Finished(s, rawId, startedAt, ok, detail, now)
    case AbandonTest(_, _, _) => s
  }

  function Run(names: Names, s: State, events: seq<Event>): State
    decreases |events|
  {
    if events == [] then s else Run(names, Apply(names, s, events[0]), events[1..])
  }

  // ---- the invariant ----

  ghost predicate IsNormal(names: Names, id: string, manifest: Option<Manifest>) {
    manifest.Some? ==> NormalMode(names, id, manifest.value.mode) == Some(manifest.value.mode)
  }

  ghost predicate ConfigOk(names: Names, config: Config) {
    IsSlug(config.id) && config.id != "" && IsNormal(names, config.id, config.manifest)
  }

  /** Ids are non-empty, in normal form and all different, and manifests are normalized. */
  ghost predicate Inv(names: Names, s: State) {
    && (forall i :: 0 <= i < |s.configs| ==> ConfigOk(names, s.configs[i]))
    && (forall i, j :: 0 <= i < j < |s.configs| ==> s.configs[i].id != s.configs[j].id)
  }

  /** A manifest with which credentials are written was one of the channel. */
  ghost predicate EventOk(names: Names, e: Event) {
    e.StoreValues? ==> NormalMode(names, EventId(e), e.mode) == Some(e.mode)
  }

  /** Whatever manifest is read in a reachable state is such a one, also when the channel is
      changed or deleted before the credentials are written. */
  lemma LoadedModeIsOk(names: Names, s: State, rawId: string, values: Store)
    requires Inv(names, s) && LoadedMode(s, rawId).Ok?
    ensures EventOk(names, StoreValues(rawId, LoadedMode(s, rawId).value, values))
  {
    var i := Find(s.configs, SanitizeId(rawId));
    assert ConfigOk(names, s.configs[i]);
  }

  lemma TargetIdIsSlug(request: Request, pathId: Option<string>)
    ensures IsSlug(TargetId(request, pathId))
  {
    if pathId.Some? {
      SanitizedForm(ChannelId, pathId.value);
    } else if request.id.Some? {
      SanitizedForm(ChannelId, request.id.value);
    } else {
      SanitizedForm(ChannelId, SanitizeId(Trim(request.name)));
    }
  }

  lemma EventIdIsSlug(e: Event)
    ensures IsSlug(EventId(e))
  {
    if e.UpsertChannel? {
      TargetIdIsSlug(e.request, e.pathId);
    } else {
      SanitizedForm(ChannelId, e.rawId);
    }
  }

  lemma NewConfigIsOk(names: Names, id: string, request: Request, existing: Option<Config>, now: int)
    requires !ManifestRefused(names, id, request) && IsSlug(id) && id != ""
    ensures ConfigOk(names, NewConfig(names, id, request, existing, now))
  {
    var declared := DeclaredManifest(names, id, request);
    if declared.Some? {
      NormalModeTwice(names, id, declared.value.mode);
    }
  }

  lemma PutKeepsInv(names: Names, s: State, config: Config, secrets: Store)
    requires Inv(names, s) && ConfigOk(names, config)
    ensures Inv(names, State(PutConfig(s.configs, config), secrets))
  {
  }

  lemma SetTestKeepsInv(names: Names, s: State, id: string, test: TestRecord, now: int)
    requires Inv(names, s)
    ensures Inv(names, SetTest(s, id, test, now))
  {
    var i := Find(s.configs, id);
    if i < |s.configs| {
      assert ConfigOk(names, s.configs[i].(test := test, updatedAt := now));
    }
  }

  lemma UpsertKeepsInv(names: Names, s: State, request: Request, pathId: Option<string>, profiles: set<string>,
                       now: int)
    requires Inv(names, s)
    ensures Inv(names, Upserted(names, s, request, pathId, profiles, now))
  {
    if Refusal(names, s, request, pathId, profiles).None? {
      var id := TargetId(request, pathId);
      TargetIdIsSlug(request, pathId);
      var config := NewConfig(names, id, request, Lookup(s.configs, id), now);
      NewConfigIsOk(names, id, request, Lookup(s.configs, id), now);
      PutKeepsInv(names, s, config, Upserted(names, s, request, pathId, profiles, now).secrets);
    }
  }

  lemma BeginKeepsInv(names: Names, s: State, rawId: string, ready: set<string>, now: int)
    requires Inv(names, s)
    ensures Inv(names, Begun(s, rawId, ready, now))
  {
    SetTestKeepsInv(names, s, SanitizeId(rawId), TestRecord(Some(now), Some("running"), Some("Test started.")), now);
  }

  lemma FinishKeepsInv(names: Names, s: State, rawId: string, startedAt: int, ok: bool, detail: string, now: int)
    requires Inv(names, s)
    ensures Inv(names, Finished(s, rawId, startedAt, ok, detail, now))
  {
    SetTestKeepsInv(names, s, SanitizeId(rawId),
                    TestRecord(Some(startedAt), Some(if ok then "ok" else "error"), Some(detail)), now);
  }

  lemma ApplyKeepsInv(names: Names, s: State, e: Event)
    requires Inv(names, s)
    ensures Inv(names, Apply(names, s, e))
  {
    match e {
      case UpsertChannel(request, pathId, profiles, now) => UpsertKeepsInv(names, s, request, pathId, profiles, now);
      case DeleteChannel(_) =>
      case StoreValues(_, _, _) =>
      case AbandonTest(_, _, _) =>
      case BeginTest(rawId, ready, now) =>
        BeginKeepsInv(names, s, rawId, ready, now);
      case FinishTest(rawId, startedAt, ok, detail, now) =>
        FinishKeepsInv(names, s, rawId, startedAt, ok, detail, now);
    }
  }

  lemma {:induction false} RunKeepsInv(names: Names, s: State, events: seq<Event>)
    requires Inv(names, s)
    ensures Inv(names, Run(names, s, events))
    decreases |events|
  {
    if events != [] {
      ApplyKeepsInv(names, s, events[0]);
      RunKeepsInv(names, Apply(names, s, events[0]), events[1..]);
    }
  }

  // ---- the manifest made from drafts ----

  ghost predicate Ascending(keys: seq<string>) {
    forall i :: 0 <= i < |keys| - 1 ==> Less(keys[i], keys[i + 1])
  }

  lemma {:induction false} LessIsTotal(s: string, t: string)
    ensures s == t || Less(s, t) || Less(t, s)
  {
    if s != "" && t != "" && s[0] == t[0] {
      LessIsTotal(s[1..], t[1..]);
      assert s == [s[0]] + s[1..] && t == [t[0]] + t[1..];
    }
  }

  lemma {:induction false} InsertAscends(keys: seq<string>, key: string)
    requires Ascending(keys)
    ensures Ascending(Insert(keys, key))
    ensures Insert(keys, key) != [] && (Insert(keys, key)[0] == key || (keys != [] && Insert(keys, key)[0] == keys[0]))
    ensures forall k :: k in Insert(keys, key) <==> k in keys || k == key
  {
    if keys != [] && !Less(key, keys[0]) && key != keys[0] {
      LessIsTotal(key, keys[0]);
      assert Ascending(keys[1..]) by {
        assert forall i :: 0 <= i < |keys| - 1 ==> keys[1..][i] == keys[i + 1];
      }
      InsertAscends(keys[1..], key);
      AscendingCons(keys[0], Insert(keys[1..], key));
      if |keys| > 1 {
        assert Less(keys[0], keys[1]) && keys[1..][0] == keys[1];
      }
    }
  }

  lemma AscendingCons(first: string, rest: seq<string>)
    requires Ascending(rest) && rest != []
    ensures Less(first, rest[0]) ==> Ascending([first] + rest)
  {
  }

  /** The credential fields made from drafts and references: every sanitized key that is not
      empty once, in ascending order, and nothing else. */
  lemma {:induction false} SortedKeysAre(raw: seq<string>, keys: seq<string>)
    requires Ascending(keys)
    ensures Ascending(SortedKeys(raw, keys))
    ensures forall k :: k in SortedKeys(raw, keys) <==>
              k in keys || (k != "" && exists i :: 0 <= i < |raw| && SanitizeFieldKey(raw[i]) == k)
    decreases |raw|
  {
    if raw != [] {
      var key := SanitizeFieldKey(raw[0]);
      var next := if key == "" then keys else Insert(keys, key);
      InsertAscends(keys, key);
      SortedKeysAre(raw[1..], next);
      forall k
        ensures k in SortedKeys(raw, keys) <==>
                k in keys || (k != "" && exists i :: 0 <= i < |raw| && SanitizeFieldKey(raw[i]) == k)
      {
        SomeKeyStep(raw, k);
      }
    }
  }

  lemma SomeKeyStep(raw: seq<string>, k: string)
    requires raw != []
    ensures (exists i :: 0 <= i < |raw| && SanitizeFieldKey(raw[i]) == k) <==>
            SanitizeFieldKey(raw[0]) == k || exists i :: 0 <= i < |raw[1..]| && SanitizeFieldKey(raw[1..][i]) == k
  {
    if i :| 0 <= i < |raw| && SanitizeFieldKey(raw[i]) == k && i > 0 {
      assert raw[1..][i - 1] == raw[i];
    }
    if i :| 0 <= i < |raw[1..]| && SanitizeFieldKey(raw[1..][i]) == k {
      assert raw[i + 1] == raw[1..][i];
    }
  }

  /** Only a manifest that comes with the request can be refused. */
  lemma DerivedManifestIsAccepted(names: Names, id: string, request: Request)
    requires request.manifest.None?
    ensures !ManifestRefused(names, id, request)
  {
    var raw := DraftKeys(request.drafts) + request.references;
    var keys := SortedKeys(raw, []);
    SortedKeysAre(raw, []);
    var fields := DraftFields(names, id, request.drafts, keys);
    forall i | 0 <= i < |fields|
      ensures !IsBlankField(fields[i])
    {
      assert keys[i] in keys;
      var j :| 0 <= j < |raw| && SanitizeFieldKey(raw[j]) == keys[i];
      SanitizedIsSlug(FieldKey, raw[j]);
    }
  }

  // ---- isolation ----

  /** A slot of another channel. */
  ghost predicate Foreign(names: Names, id: string, slot: string) { !OwnSlot(names, id, slot) }

  lemma ClearIsOwn(names: Names, id: string, manifest: Option<Manifest>, secrets: Store, slot: string)
    requires IsNormal(names, id, manifest) && Foreign(names, id, slot)
    ensures SameSlot(ClearManifest(manifest, secrets), secrets, slot)
  {
    if manifest.Some? {
      NormalModeIsOwn(names, id, manifest.value.mode);
      SecretsFrame(manifest.value.mode, map[], secrets, slot);
    }
  }

  lemma StoreIsOwn(names: Names, id: string, mode: Mode, values: Store, secrets: Store, slot: string)
    requires NormalMode(names, id, mode) == Some(mode) && HasFields(mode) && Foreign(names, id, slot)
    ensures SameSlot(StoreFields(mode.fields, 0, values, secrets).secrets, secrets, slot)
  {
    NormalModeIsOwn(names, id, mode);
    SecretsFrame(mode, values, secrets, slot);
  }

  /** No operation touches a slot outside its own channel's namespace. */
  lemma ApplyIsOwn(names: Names, s: State, e: Event, slot: string)
    requires Inv(names, s) && EventOk(names, e) && Foreign(names, EventId(e), slot)
    ensures SameSlot(Apply(names, s, e).secrets, s.secrets, slot)
  {
    var id := EventId(e);
    match e {
      case UpsertChannel(request, pathId, profiles, now) =>
        if Refusal(names, s, request, pathId, profiles).None? {
          UpsertIsOwn(names, s, request, pathId, profiles, now, slot);
        }
      case DeleteChannel(rawId) =>
        var i := Find(s.configs, id);
        if i < |s.configs| {
          ClearIsOwn(names, id, s.configs[i].manifest, s.secrets, slot);
        }
      case StoreValues(_, mode, values) =>
        if HasFields(mode) {
          StoreIsOwn(names, id, mode, values, s.secrets, slot);
        }
      case BeginTest(_, _, _) =>
      case FinishTest(_, _, _, _, _) =>
      case AbandonTest(_, _, _) =>
    }
  }

  lemma UpsertIsOwn(names: Names, s: State, request: Request, pathId: Option<string>, profiles: set<string>, now: int,
                    slot: string)
    requires Inv(names, s) && Refusal(names, s, request, pathId, profiles).None?
    requires Foreign(names, TargetId(request, pathId), slot)
    ensures SameSlot(Upserted(names, s, request, pathId, profiles, now).secrets, s.secrets, slot)
  {
    var id := TargetId(request, pathId);
    var existing := Lookup(s.configs, id);
    TargetIdIsSlug(request, pathId);
    NewConfigIsOk(names, id, request, existing, now);
    var config := NewConfig(names, id, request, existing, now);
    ClearIsOwn(names, id, ManifestToClear(config, existing), s.secrets, slot);
  }

  lemma PutKeepsOthers(configs: seq<Config>, config: Config, id: string)
    requires id != config.id
    ensures Lookup(PutConfig(configs, config), id) == Lookup(configs, id)
  {
    var after := PutConfig(configs, config);
    var i := Find(configs, id);
    var j := Find(after, id);
    assert i < |configs| ==> after[i].id == id;
    assert j < |configs| ==> configs[j].id == id;
  }

  lemma RemoveKeepsOthers(configs: seq<Config>, at: nat, id: string)
    requires at < |configs| && configs[at].id != id
    ensures Lookup(configs[..at] + configs[at + 1..], id) == Lookup(configs, id)
  {
    var after := configs[..at] + configs[at + 1..];
    var i := Find(configs, id);
    var j := Find(after, id);
    assert forall k :: 0 <= k < at ==> after[k] == configs[k];
    assert forall k :: at <= k < |after| ==> after[k] == configs[k + 1];
    if i < at {
      assert after[i].id == id;
    } else if i < |configs| {
      assert after[i - 1].id == id;
    }
  }

  lemma SetTestKeepsOthers(s: State, at: string, test: TestRecord, now: int, id: string)
    requires id != at
    ensures Lookup(SetTest(s, at, test, now).configs, id) == Lookup(s.configs, id)
  {
    var k := Find(s.configs, at);
    if k < |s.configs| {
      PutKeepsOthers(s.configs, s.configs[k].(test := test, updatedAt := now), id);
    }
  }

  lemma UpsertKeepsOthers(names: Names, s: State, request: Request, pathId: Option<string>, profiles: set<string>,
                          now: int, id: string)
    requires id != TargetId(request, pathId)
    ensures Lookup(Upserted(names, s, request, pathId, profiles, now).configs, id) == Lookup(s.configs, id)
  {
    if Refusal(names, s, request, pathId, profiles).None? {
      var target := TargetId(request, pathId);
      PutKeepsOthers(s.configs, NewConfig(names, target, request, Lookup(s.configs, target), now), id);
    }
  }

  lemma DeleteKeepsOthers(s: State, rawId: string, id: string)
    requires id != SanitizeId(rawId)
    ensures Lookup(Deleted(s, rawId).configs, id) == Lookup(s.configs, id)
  {
    var at := Find(s.configs, SanitizeId(rawId));
    if at < |s.configs| {
      RemoveKeepsOthers(s.configs, at, id);
    }
  }

  lemma ApplyKeepsOthers(names: Names, s: State, e: Event, id: string)
    requires id != EventId(e)
    ensures Lookup(Apply(names, s, e).configs, id) == Lookup(s.configs, id)
  {
    match e {
      case UpsertChannel(request, pathId, profiles, now) =>
        UpsertKeepsOthers(names, s, request, pathId, profiles, now, id);
      case DeleteChannel(rawId) =>
        DeleteKeepsOthers(s, rawId, id);
      case StoreValues(_, _, _) =>
      case AbandonTest(_, _, _) =>
      case BeginTest(rawId, ready, now) =>
        SetTestKeepsOthers(s, SanitizeId(rawId), TestRecord(Some(now), Some("running"), Some("Test started.")), now,
                           id);
      case FinishTest(rawId, startedAt, ok, detail, now) =>
        SetTestKeepsOthers(s, SanitizeId(rawId),
                           TestRecord(Some(startedAt), Some(if ok then "ok" else "error"), Some(detail)), now, id);
    }
  }

  /** What is stored for the channel, and each of its slots, is the same in both states. */
  ghost predicate SameChannel(names: Names, one: State, two: State, id: string) {
    && Lookup(one.configs, id) == Lookup(two.configs, id)
    && forall slot :: OwnSlot(names, id, slot) ==> SameSlot(one.secrets, two.secrets, slot)
  }

  /** However long a run, a channel no event is about stays as it is, with all its secrets. */
  lemma {:induction false} RunIsolation(names: Names, s: State, events: seq<Event>, id: string)
    requires Inv(names, s) && IsSlug(id)
    requires forall i :: 0 <= i < |events| ==> EventOk(names, events[i]) && EventId(events[i]) != id
    ensures SameChannel(names, Run(names, s, events), s, id)
    decreases |events|
  {
    if events != [] {
      var next := Apply(names, s, events[0]);
      ApplyKeepsInv(names, s, events[0]);
      RunIsolation(names, next, events[1..], id);
      ApplyKeepsOthers(names, s, events[0], id);
      forall slot | OwnSlot(names, id, slot)
        ensures SameSlot(next.secrets, s.secrets, slot)
      {
        OthersSlotIsForeign(names, id, EventId(events[0]), slot, events[0]);
        ApplyIsOwn(names, s, events[0], slot);
      }
    }
  }

  lemma OthersSlotIsForeign(names: Names, id: string, otherId: string, slot: string, e: Event)
    requires IsSlug(id) && otherId == EventId(e) && id != otherId && OwnSlot(names, id, slot)
    ensures Foreign(names, otherId, slot)
  {
    EventIdIsSlug(e);
    SlugIsFixed(ChannelId, id);
    SlugIsFixed(ChannelId, otherId);
    if OwnSlot(names, otherId, slot) {
      OwnSlotsAreDisjoint(names, id, otherId, slot);
    }
  }

  /** So whether such a channel can be used does not change either. */
  lemma RunKeepsConfigured(names: Names, s: State, events: seq<Event>, id: string, ready: set<string>)
    requires Inv(names, s) && IsSlug(id)
    requires forall i :: 0 <= i < |events| ==> EventOk(names, events[i]) && EventId(events[i]) != id
    requires Lookup(s.configs, id).Some?
    ensures var after := Run(names, s, events);
            && Lookup(after.configs, id) == Lookup(s.configs, id)
            && (Configured(Lookup(s.configs, id).value, after.secrets, ready)
                <==> Configured(Lookup(s.configs, id).value, s.secrets, ready))
  {
    RunIsolation(names, s, events, id);
    var config := Lookup(s.configs, id).value;
    var after := Run(names, s, events);
    if config.manifest.Some? {
      var slots := RequiredTargets(config.manifest.value.mode);
      NormalModeIsOwn(names, id, config.manifest.value.mode);
      forall i | 0 <= i < |slots|
        ensures IsFilled(after.secrets, slots[i]) <==> IsFilled(s.secrets, slots[i])
      {
        assert SameSlot(after.secrets, s.secrets, slots[i]);
      }
    }
  }

  // ---- what an accepted request achieves ----

  /** An accepted request changes the channel of its id in place or adds it behind the others;
      creation time and test record of a changed channel stay. */
  lemma AcceptedUpsertIsFound(names: Names, s: State, request: Request, pathId: Option<string>, profiles: set<string>,
                              now: int)
    requires Refusal(names, s, request, pathId, profiles).None?
    ensures var id := TargetId(request, pathId);
            var before := Lookup(s.configs, id);
            var configs := Upserted(names, s, request, pathId, profiles, now).configs;
            && (pathId.Some? <==> before.Some?)
            && |configs| == |s.configs| + (if pathId.Some? then 0 else 1)
            && (forall i :: 0 <= i < |s.configs| && i != Find(s.configs, id) ==> configs[i] == s.configs[i])
            && Lookup(configs, id).Some?
            && var c := Lookup(configs, id).value;
            && c.name == Trim(request.name) != "" && c.updatedAt == now
            && (before.Some? ==> c.createdAt == before.value.createdAt && c.test == before.value.test)
            && (before.None? ==> c.createdAt == now && c.test.startedAt.None?)
            && (before.Some? && request.enabled.None? ==> c.enabled == before.value.enabled)
  {
    var id := TargetId(request, pathId);
    PutIsFound(s.configs, NewConfig(names, id, request, Lookup(s.configs, id), now));
  }

  // ---- what storing credentials achieves ----

  lemma NormalModeFollowsKeys(names: Names, id: string, mode: Mode)
    requires HasFields(mode) && NormalMode(names, id, mode) == Some(mode)
    ensures SlotsFollowKeys(mode.fields)
    ensures forall i :: 0 <= i < |mode.fields| ==> mode.fields[i] == NormalField(names, id, mode.fields[i])
  {
    assert mode.fields == NormalFields(names, id, mode.fields);
    NormalFieldsFollowKeys(names, id, mode.fields);
  }

  /** When credentials are accepted, the slot of each field that was given a value holds it
      trimmed, and with this manifest the channel lacks at most its access token. */
  lemma StoredCredentialsTakeEffect(names: Names, s: State, rawId: string, mode: Mode, values: Store)
    requires EventOk(names, StoreValues(rawId, mode, values)) && WriteRefusal(mode, values, s.secrets).None?
    ensures var after := Apply(names, s, StoreValues(rawId, mode, values));
            && after.configs == s.configs
            && (forall i :: 0 <= i < |mode.fields| && Given(values, mode.fields[i].key).Some? ==>
                  Holds(after.secrets, StorageTarget(names, SanitizeId(rawId), mode.fields[i].key),
                        Given(values, mode.fields[i].key).value))
            && (IsConfigured(Some(mode), after.secrets) <==> AllFilled(after.secrets, AccessToken(mode)))
  {
    var id := SanitizeId(rawId);
    var secrets := Written(mode, values, s.secrets);
    NormalModeFollowsKeys(names, id, mode);
    StoreConfigures(mode, values, s.secrets);
    StoreReportsMissing(mode.fields, 0, values, s.secrets);
    forall i | 0 <= i < |mode.fields| && Given(values, mode.fields[i].key).Some?
      ensures Holds(secrets, StorageTarget(names, id, mode.fields[i].key), Given(values, mode.fields[i].key).value)
    {
      FieldHolds(names, id, mode.fields, i, values, s.secrets);
    }
  }

  lemma FieldHolds(names: Names, id: string, fields: seq<Field>, i: nat, values: Store, secrets: Store)
    requires SlotsFollowKeys(fields) && i < |fields| && fields[i] == NormalField(names, id, fields[i])
    requires i < FirstMissing(fields, values, 0) && Given(values, fields[i].key).Some?
    ensures Holds(StoreFields(fields, 0, values, secrets).secrets, StorageTarget(names, id, fields[i].key),
                  Given(values, fields[i].key).value)
  {
    var key := fields[i].key;
    var slot := StorageTarget(names, id, key);
    assert SanitizeFieldKey(key) == key && fields[i].targets == [slot];
    ValueForField(fields, 0, i, values, slot);
    StoreWritesGiven(fields, 0, values, secrets, slot);
  }

  // ---- what deleting leaves behind ----

  /** The secrets hold nothing in the namespace of the channel. */
  ghost predicate IsEmptyFor(names: Names, id: string, secrets: Store) {
    forall slot :: slot in secrets ==> Foreign(names, id, slot)
  }

  /** The slots the manifest of the channel names. */
  function ManifestSlots(configs: seq<Config>, id: string): seq<string> {
    var config := Lookup(configs, id);
    if config.Some? && config.value.manifest.Some? then AllTargets(config.value.manifest.value.mode) else []
  }

  /** Deleting a channel leaves no secret in its namespace exactly when all of them were in
      slots its last manifest names. */
  lemma DeleteLeavesNothingIff(names: Names, s: State, rawId: string)
    ensures IsEmptyFor(names, SanitizeId(rawId), Deleted(s, rawId).secrets)
       <==> forall slot :: slot in s.secrets && OwnSlot(names, SanitizeId(rawId), slot) ==>
              slot in ManifestSlots(s.configs, SanitizeId(rawId))
  {
    var slots := ManifestSlots(s.configs, SanitizeId(rawId));
    assert forall slot :: slot in Deleted(s, rawId).secrets <==> slot in s.secrets && slot !in slots;
  }

  /** Some value is given for a field in front of the first whose required value is missing. */
  predicate SomeGiven(fields: seq<Field>, values: Store) {
    exists i :: 0 <= i < FirstMissing(fields, values, 0) && Given(values, fields[i].key).Some?
  }

  /** Credentials of the channel are written, of which at least one has a value. */
  predicate StoresFor(e: Event, id: string) {
    e.StoreValues? && SanitizeId(e.rawId) == id && HasFields(e.mode) && SomeGiven(e.mode.fields, e.values)
  }

  lemma StoreStaysEmptyIff(names: Names, id: string, mode: Mode, values: Store, secrets: Store)
    requires HasFields(mode) && NormalMode(names, id, mode) == Some(mode) && IsEmptyFor(names, id, secrets)
    ensures IsEmptyFor(names, id, StoreFields(mode.fields, 0, values, secrets).secrets)
       <==> !SomeGiven(mode.fields, values)
  {
    if SomeGiven(mode.fields, values) {
      var i :| 0 <= i < FirstMissing(mode.fields, values, 0) && Given(values, mode.fields[i].key).Some?;
      NormalModeFollowsKeys(names, id, mode);
      FieldHolds(names, id, mode.fields, i, values, secrets);
      OwnTarget(names, id, mode.fields[i].key);
      assert !Foreign(names, id, StorageTarget(names, id, mode.fields[i].key));
    } else {
      NothingGiven(mode.fields, 0, values, secrets);
    }
  }

  lemma ApplyStaysEmptyIff(names: Names, s: State, e: Event, id: string)
    requires Inv(names, s) && EventOk(names, e) && IsSlug(id) && IsEmptyFor(names, id, s.secrets)
    ensures IsEmptyFor(names, id, Apply(names, s, e).secrets) <==> !StoresFor(e, id)
  {
    if EventId(e) != id {
      forall slot | OwnSlot(names, id, slot)
        ensures slot !in Apply(names, s, e).secrets
      {
        OthersSlotIsForeign(names, id, EventId(e), slot, e);
        ApplyIsOwn(names, s, e, slot);
      }
    } else if e.StoreValues? && HasFields(e.mode) {
      StoreStaysEmptyIff(names, id, e.mode, e.values, s.secrets);
    } else {
      assert forall slot :: slot in Apply(names, s, e).secrets ==> slot in s.secrets;
    }
  }

  /** The namespace of the channel is empty at every moment of the run. */
  ghost predicate EmptyThroughout(names: Names, s: State, events: seq<Event>, id: string) {
    forall k :: 0 <= k <= |events| ==> IsEmptyFor(names, id, Run(names, s, events[..k]).secrets)
  }

  predicate NothingStored(events: seq<Event>, id: string) {
    forall i :: 0 <= i < |events| ==> !StoresFor(events[i], id)
  }

  /** From an empty namespace, whatever else happens in a run, the namespace stays empty at every
      moment exactly when no credentials of the channel are written. */
  lemma {:induction false} StaysEmptyIff(names: Names, s: State, events: seq<Event>, id: string)
    requires Inv(names, s) && IsSlug(id) && IsEmptyFor(names, id, s.secrets)
    requires forall i :: 0 <= i < |events| ==> EventOk(names, events[i])
    ensures EmptyThroughout(names, s, events, id) <==> NothingStored(events, id)
    decreases |events|
  {
    if events == [] {
      EmptyNow(names, s, events, id);
    } else {
      var next, rest := Apply(names, s, events[0]), events[1..];
      ApplyKeepsInv(names, s, events[0]);
      ApplyStaysEmptyIff(names, s, events[0], id);
      EmptyStep(names, s, events, id);
      NothingStoredStep(events, id);
      if IsEmptyFor(names, id, next.secrets) {
        StaysEmptyIff(names, next, rest, id);
      } else {
        EmptyNow(names, next, rest, id);
      }
    }
  }

  lemma EmptyNow(names: Names, s: State, events: seq<Event>, id: string)
    ensures EmptyThroughout(names, s, events, id) ==> IsEmptyFor(names, id, s.secrets)
    ensures events == [] ==> (EmptyThroughout(names, s, events, id) <==> IsEmptyFor(names, id, s.secrets))
  {
    assert events[..0] == [] && Run(names, s, events[..0]) == s;
  }

  lemma EmptyStep(names: Names, s: State, events: seq<Event>, id: string)
    requires events != [] && IsEmptyFor(names, id, s.secrets)
    ensures EmptyThroughout(names, s, events, id)
       <==> EmptyThroughout(names, Apply(names, s, events[0]), events[1..], id)
  {
    var next, rest := Apply(names, s, events[0]), events[1..];
    RunPrefix(names, s, events);
    if EmptyThroughout(names, s, events, id) {
      forall k | 0 <= k <= |rest|
        ensures IsEmptyFor(names, id, Run(names, next, rest[..k]).secrets)
      {
        assert Run(names, s, events[..k + 1]) == Run(names, next, rest[..k]);
      }
    }
  }

  lemma NothingStoredStep(events: seq<Event>, id: string)
    requires events != []
    ensures NothingStored(events, id) <==> !StoresFor(events[0], id) && NothingStored(events[1..], id)
  {
    assert forall i :: 0 < i < |events| ==> events[i] == events[1..][i - 1];
  }

  lemma RunPrefix(names: Names, s: State, events: seq<Event>)
    requires events != []
    ensures Run(names, s, events[..0]) == s
    ensures forall k :: 0 < k <= |events| ==>
              Run(names, s, events[..k]) == Run(names, Apply(names, s, events[0]), events[1..][..k - 1])
  {
    forall k | 0 < k <= |events|
      ensures Run(names, s, events[..k]) == Run(names, Apply(names, s, events[0]), events[1..][..k - 1])
    {
      assert events[..k][1..] == events[1..][..k - 1];
    }
  }

  /** Deleting a channel leaves none of its secrets, at any moment of any run behind it, exactly
      when every secret in its namespace was in a slot its last manifest names and no credentials
      of the channel are written behind the deletion, with whatever manifest they were read. */
  lemma DeletedSecretsStayGoneIff(names: Names, s: State, rawId: string, events: seq<Event>)
    requires Inv(names, s) && forall i :: 0 <= i < |events| ==> EventOk(names, events[i])
    ensures var id := SanitizeId(rawId);
            (forall k :: 0 <= k <= |events| ==>
               IsEmptyFor(names, id, Run(names, s, [DeleteChannel(rawId)] + events[..k]).secrets))
            <==>
            && (forall slot :: slot in s.secrets && OwnSlot(names, id, slot) ==> slot in ManifestSlots(s.configs, id))
            && NothingStored(events, id)
  {
    var id, gone := SanitizeId(rawId), Deleted(s, rawId);
    forall k | 0 <= k <= |events|
      ensures Run(names, s, [DeleteChannel(rawId)] + events[..k]) == Run(names, gone, events[..k])
    {
      var run := [DeleteChannel(rawId)] + events[..k];
      assert run[0] == DeleteChannel(rawId) && run[1..] == events[..k];
    }
    DeleteLeavesNothingIff(names, s, rawId);
    ApplyKeepsInv(names, s, DeleteChannel(rawId));
    SanitizedForm(ChannelId, rawId);
    if IsEmptyFor(names, id, gone.secrets) {
      StaysEmptyIff(names, gone, events, id);
    } else {
      EmptyNow(names, gone, events, id);
    }
  }

  lemma PutIsFound(configs: seq<Config>, config: Config)
    ensures Lookup(PutConfig(configs, config), config.id) == Some(config)
  {
    var after := PutConfig(configs, config);
    var i := Find(configs, config.id);
    assert after[i] == config;
    assert forall k :: 0 <= k < i ==> after[k] == configs[k];
  }

  lemma DeletedIsGone(names: Names, s: State, rawId: string)
    requires Inv(names, s)
    ensures Lookup(Deleted(s, rawId).configs, SanitizeId(rawId)).None?
  {
    var id := SanitizeId(rawId);
    var at := Find(s.configs, id);
    var after := Deleted(s, rawId).configs;
    if at < |s.configs| {
      assert forall k :: 0 <= k < at ==> after[k] == s.configs[k];
      assert forall k :: at <= k < |after| ==> after[k] == s.configs[k + 1];
    }
  }

  /** A secret whose field a change of the channel drops outlives the channel: neither the
      change, even one that clears secrets, nor deleting the channel removes it. */
  lemma DroppedSecretOutlivesChannel(names: Names, s: State, request: Request, pathId: Option<string>,
                                     profiles: set<string>, now: int, rawId: string, slot: string)
    requires Inv(names, s) && Refusal(names, s, request, pathId, profiles).None?
    requires SanitizeId(rawId) == TargetId(request, pathId) && slot in s.secrets
    requires var manifest := NormalManifest(names, TargetId(request, pathId), request);
             manifest.Some? && slot !in AllTargets(manifest.value.mode)
    ensures var after := Deleted(Upserted(names, s, request, pathId, profiles, now), rawId);
            Lookup(after.configs, SanitizeId(rawId)).None? && Holds(after.secrets, slot, s.secrets[slot])
  {
    var id := TargetId(request, pathId);
    var config := NewConfig(names, id, request, Lookup(s.configs, id), now);
    var next := Upserted(names, s, request, pathId, profiles, now);
    ApplyKeepsInv(names, s, UpsertChannel(request, pathId, profiles, now));
    PutIsFound(s.configs, config);
    SecretsFrame(config.manifest.value.mode, map[], s.secrets, slot);
    SecretsFrame(config.manifest.value.mode, map[], next.secrets, slot);
    DeletedIsGone(names, next, rawId);
  }

  /** Credentials whose manifest was read before the channel was deleted, and which are written
      behind it, survive the deletion. */
  lemma CredentialsSurviveDelete(names: Names, s: State, rawId: string, values: Store, i: nat)
    requires Inv(names, s) && LoadedMode(s, rawId).Ok?
    requires var mode := LoadedMode(s, rawId).value;
             && WriteRefusal(mode, values, Deleted(s, rawId).secrets).None?
             && i < |mode.fields| && Given(values, mode.fields[i].key).Some?
    ensures var mode := LoadedMode(s, rawId).value;
            var after := Run(names, s, [DeleteChannel(rawId), StoreValues(rawId, mode, values)]);
            && Lookup(after.configs, SanitizeId(rawId)).None?
            && Holds(after.secrets, StorageTarget(names, SanitizeId(rawId), mode.fields[i].key),
                     Given(values, mode.fields[i].key).value)
  {
    var mode := LoadedMode(s, rawId).value;
    LoadedModeIsOk(names, s, rawId, values);
    DeletedIsGone(names, s, rawId);
    StoredCredentialsTakeEffect(names, Deleted(s, rawId), rawId, mode, values);
    var events := [DeleteChannel(rawId), StoreValues(rawId, mode, values)];
    assert events[1..][0] == StoreValues(rawId, mode, values) && events[1..][1..] == [];
    assert Run(names, s, events) == Run(names, Deleted(s, rawId), events[1..]);
  }
}
