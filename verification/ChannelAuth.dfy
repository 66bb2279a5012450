/** The credentials a channel declares and the secret slots they are kept in. */
module ChannelAuth {
  import opened Results
  import opened Sequences
  import opened Text
  import opened ChannelNames

  datatype Field = Field(key: string, required: bool, targets: seq<string>)

  datatype TokenStorage = TokenStorage(access: string, refresh: Option<string>, expires: Option<string>)

  datatype CodeFlow = CodeFlow(clientId: string, clientSecret: Option<string>, tokens: TokenStorage)

  datatype DeviceFlow = DeviceFlow(clientId: string, tokens: TokenStorage)

  datatype Mode =
    | Secrets(fields: seq<Field>)
    | AuthorizationCode(oauth: CodeFlow)
    | DeviceCode(device: DeviceFlow)
    | Hybrid(fields: seq<Field>, oauth: CodeFlow)

  predicate HasFields(mode: Mode) { mode.Secrets? || mode.Hybrid? }

  // ---- normal manifests ----

  function Tokens(names: Names, id: string): TokenStorage {
    TokenStorage(StorageTarget(names, id, names.access), Some(StorageTarget(names, id, names.refresh)),
                 Some(StorageTarget(names, id, names.expires)))
  }

  function NormalField(names: Names, id: string, field: Field): Field {
    Field(SanitizeFieldKey(field.key), field.required, [StorageTarget(names, id, SanitizeFieldKey(field.key))])
  }

  function FieldNormalizer(names: Names, id: string): Field -> Field { field => NormalField(names, id, field) }

  function NormalFields(names: Names, id: string, fields: seq<Field>): seq<Field> {
    Map(FieldNormalizer(names, id), fields)
  }

  /** `normalize_oauth_storage_targets` */
  function NormalCodeFlow(names: Names, id: string, flow: CodeFlow): CodeFlow {
    CodeFlow(StorageTarget(names, id, names.client),
             if flow.clientSecret.Some? then Some(StorageTarget(names, id, names.secret)) else None,
             Tokens(names, id))
  }

  /** `normalize_device_oauth_storage_targets` */
  function NormalDeviceFlow(names: Names, id: string): DeviceFlow {
    DeviceFlow(StorageTarget(names, id, names.client), Tokens(names, id))
  }

  predicate IsBlankField(field: Field) { SanitizeFieldKey(field.key) == "" }

  predicate HasBlankKey(fields: seq<Field>) { exists i :: 0 <= i < |fields| && IsBlankField(fields[i]) }

  function NormalMode(names: Names, id: string, mode: Mode): Option<Mode> {
    if HasFields(mode) && HasBlankKey(mode.fields) then None
    else
      Some(match mode
           case Secrets(fields) => Secrets(NormalFields(names, id, fields))
           case AuthorizationCode(oauth) => AuthorizationCode(NormalCodeFlow(names, id, oauth))
           case DeviceCode(_) => DeviceCode(NormalDeviceFlow(names, id))
           case Hybrid(fields, oauth) => Hybrid(NormalFields(names, id, fields), NormalCodeFlow(names, id, oauth)))
  }

  /** `normalize_manifest_storage_targets`; nothing when a field has no key. */
  method NormalizeStorageTargets(names: Names, id: string, original: Mode) returns (mode: Option<Mode>)
    ensures mode == NormalMode(names, id, original)
  {
    var fields := [];
    if HasFields(original) {
      var normal := NormalizeFields(names, id, original.fields);
      if normal.None? {
        return None;
      }
      fields := normal.value;
    }
    match original {
      case Secrets(_) => mode := Some(Secrets(fields));
      case AuthorizationCode(flow) => mode := Some(AuthorizationCode(NormalCodeFlow(names, id, flow)));
      case DeviceCode(_) => mode := Some(DeviceCode(NormalDeviceFlow(names, id)));
      case Hybrid(_, oauth) => mode := Some(Hybrid(fields, NormalCodeFlow(names, id, oauth)));
    }
  }

  method NormalizeFields(names: Names, id: string, original: seq<Field>) returns (fields: Option<seq<Field>>)
    ensures fields == if HasBlankKey(original) then None else Some(NormalFields(names, id, original))
  {
    var done := [];
    for i := 0 to |original|
      invariant done == NormalFields(names, id, original[..i])
      invariant forall k :: 0 <= k < i ==> !IsBlankField(original[k])
    {
      var field := NormalizeField(names, id, original[i]);
      if field.None? {
        return None;
      }
      done := done + [field.value];
      MapStep(FieldNormalizer(names, id), original, i);
    }
    assert original[..|original|] == original;
    return Some(done);
  }

  /** One field; nothing when its key is blank. */
  method NormalizeField(names: Names, id: string, original: Field) returns (field: Option<Field>)
    ensures field == if IsBlankField(original) then None else Some(NormalField(names, id, original))
  {
    var key := SanitizeFieldKey(original.key);
    if key == "" {
      return None;
    }
    return Some(Field(key, original.required, [StorageTarget(names, id, key)]));
  }

  lemma NormalFieldsAgain(names: Names, id: string, fields: seq<Field>)
    ensures NormalFields(names, id, NormalFields(names, id, fields)) == NormalFields(names, id, fields)
    ensures HasBlankKey(NormalFields(names, id, fields)) <==> HasBlankKey(fields)
  {
    forall i | 0 <= i < |fields|
      ensures SanitizeFieldKey(SanitizeFieldKey(fields[i].key)) == SanitizeFieldKey(fields[i].key)
    {
      SanitizedIsSlug(FieldKey, fields[i].key);
    }
    var normal := NormalFields(names, id, fields);
    assert forall i :: 0 <= i < |fields| ==> (IsBlankField(normal[i]) <==> IsBlankField(fields[i]));
    assert NormalFields(names, id, normal) == normal;
    if i :| 0 <= i < |fields| && IsBlankField(fields[i]) {
      assert IsBlankField(normal[i]);
    }
  }

  /** A manifest that was normalized once is not changed by normalizing it again. */
  lemma NormalModeTwice(names: Names, id: string, mode: Mode)
    ensures NormalMode(names, id, mode).Some? ==>
              NormalMode(names, id, NormalMode(names, id, mode).value) == NormalMode(names, id, mode)
  {
    if HasFields(mode) {
      NormalFieldsAgain(names, id, mode.fields);
    }
  }

  // ---- the slots of a manifest ----

  function Optional(slot: Option<string>): seq<string> { if slot.Some? then [slot.value] else [] }

  function FieldTargets(fields: seq<Field>): seq<string> {
    if fields == [] then [] else fields[0].targets + FieldTargets(fields[1..])
  }

  function FormTargets(mode: Mode): seq<string> { if HasFields(mode) then FieldTargets(mode.fields) else [] }

  function TokenTargets(tokens: TokenStorage): seq<string> {
    [tokens.access] + Optional(tokens.refresh) + Optional(tokens.expires)
  }

  function CodeFlowTargets(flow: CodeFlow): seq<string> {
    TokenTargets(flow.tokens) + [flow.clientId] + Optional(flow.clientSecret)
  }

  /** The slots of the mode beside the form fields. */
  function FlowTargets(mode: Mode): seq<string> {
    match mode
    case Secrets(_) => []
    case AuthorizationCode(oauth) => CodeFlowTargets(oauth)
    case Hybrid(_, oauth) => CodeFlowTargets(oauth)
    case DeviceCode(device) => TokenTargets(device.tokens) + [device.clientId]
  }

  /** `manifest_all_storage_targets` */
  function AllTargets(mode: Mode): seq<string> { FormTargets(mode) + FlowTargets(mode) }

  function RequiredFields(fields: seq<Field>): seq<string> {
    if fields == [] then []
    else (if fields[0].required then fields[0].targets else []) + RequiredFields(fields[1..])
  }

  function AccessToken(mode: Mode): seq<string> {
    match mode
    case Secrets(_) => []
    case AuthorizationCode(oauth) => [oauth.tokens.access]
    case Hybrid(_, oauth) => [oauth.tokens.access]
    case DeviceCode(device) => [device.tokens.access]
  }

  /** `required_secret_targets`; that it is sorted and has no duplicates does not matter here. */
  function RequiredTargets(mode: Mode): seq<string> {
    (if HasFields(mode) then RequiredFields(mode.fields) else []) + AccessToken(mode)
  }

  type Store = map<string, string>

  predicate IsFilled(secrets: Store, slot: string) { slot in secrets && !IsBlank(secrets[slot]) }

  predicate AllFilled(secrets: Store, slots: seq<string>) {
    forall i :: 0 <= i < |slots| ==> IsFilled(secrets, slots[i])
  }

  /** `manifest_is_configured`, with a secret manager at hand. */
  predicate IsConfigured(mode: Option<Mode>, secrets: Store) {
    mode.None? || AllFilled(secrets, RequiredTargets(mode.value))
  }

  ghost predicate AllOwn(names: Names, id: string, slots: seq<string>) {
    forall i :: 0 <= i < |slots| ==> OwnSlot(names, id, slots[i])
  }

  lemma {:induction false} FieldTargetsAreOwn(names: Names, id: string, fields: seq<Field>)
    requires forall i :: 0 <= i < |fields| ==> AllOwn(names, id, fields[i].targets)
    ensures AllOwn(names, id, FieldTargets(fields)) && AllOwn(names, id, RequiredFields(fields))
  {
    if fields != [] {
      FieldTargetsAreOwn(names, id, fields[1..]);
    }
  }

  lemma NormalFieldsAreOwn(names: Names, id: string, fields: seq<Field>)
    ensures AllOwn(names, id, FieldTargets(NormalFields(names, id, fields)))
    ensures AllOwn(names, id, RequiredFields(NormalFields(names, id, fields)))
  {
    var normal := NormalFields(names, id, fields);
    assert forall i :: 0 <= i < |normal| ==> normal[i] == NormalField(names, id, fields[i]);
    FieldTargetsAreOwn(names, id, normal);
  }

  lemma TokensAreOwn(names: Names, id: string)
    ensures AllOwn(names, id, TokenTargets(Tokens(names, id)))
  {
  }

  lemma OwnConcat(names: Names, id: string, slots: seq<string>, more: seq<string>)
    requires AllOwn(names, id, slots) && AllOwn(names, id, more)
    ensures AllOwn(names, id, slots + more)
  {
  }

  lemma OwnTarget(names: Names, id: string, key: string)
    ensures OwnSlot(names, id, StorageTarget(names, id, key)) && AllOwn(names, id, [StorageTarget(names, id, key)])
  {
    assert OwnSlot(names, id, StorageTarget(names, id, key));
  }

  lemma CodeFlowTargetsAreOwn(names: Names, id: string, flow: CodeFlow)
    ensures AllOwn(names, id, CodeFlowTargets(NormalCodeFlow(names, id, flow)))
  {
    TokensAreOwn(names, id);
    OwnTarget(names, id, names.client);
    OwnTarget(names, id, names.secret);
    var normal := NormalCodeFlow(names, id, flow);
    OwnConcat(names, id, TokenTargets(normal.tokens), [normal.clientId]);
    OwnConcat(names, id, TokenTargets(normal.tokens) + [normal.clientId], Optional(normal.clientSecret));
  }

  lemma DeviceFlowTargetsAreOwn(names: Names, id: string)
    ensures AllOwn(names, id, TokenTargets(Tokens(names, id)) + [StorageTarget(names, id, names.client)])
  {
    TokensAreOwn(names, id);
    assert OwnSlot(names, id, StorageTarget(names, id, names.client));
  }

  lemma FlowTargetsAreOwn(names: Names, id: string, mode: Mode)
    requires NormalMode(names, id, mode).Some?
    ensures AllOwn(names, id, FlowTargets(NormalMode(names, id, mode).value))
    ensures AllOwn(names, id, AccessToken(NormalMode(names, id, mode).value))
  {
    assert OwnSlot(names, id, StorageTarget(names, id, names.access));
    match mode {
      case AuthorizationCode(oauth) => CodeFlowTargetsAreOwn(names, id, oauth);
      case Hybrid(_, oauth) => CodeFlowTargetsAreOwn(names, id, oauth);
      case DeviceCode(_) => DeviceFlowTargetsAreOwn(names, id);
      case Secrets(_) =>
    }
  }

  /** A normalized manifest names slots of its own channel only. */
  lemma NormalModeIsOwn(names: Names, id: string, mode: Mode)
    requires NormalMode(names, id, mode).Some?
    ensures AllOwn(names, id, AllTargets(NormalMode(names, id, mode).value))
    ensures AllOwn(names, id, RequiredTargets(NormalMode(names, id, mode).value))
  {
    FlowTargetsAreOwn(names, id, mode);
    var normal := NormalMode(names, id, mode).value;
    if HasFields(mode) {
      NormalFieldsAreOwn(names, id, mode.fields);
      OwnConcat(names, id, RequiredFields(normal.fields), AccessToken(normal));
    }
    OwnConcat(names, id, FormTargets(normal), FlowTargets(normal));
  }

  /** No two keys of an OAuth flow are sanitized to one. */
  ghost predicate DistinctFlowKeys(names: Names) {
    forall i, j :: 0 <= i < j < 5 ==> SanitizeFieldKey(FlowKey(names, i)) != SanitizeFieldKey(FlowKey(names, j))
  }

  /** The keys of the parts of a flow, in the order of `CodeFlowTargets`. */
  function FlowKey(names: Names, i: nat): string {
    match i
    case 0 => names.access
    case 1 => names.refresh
    case 2 => names.expires
    case 3 => names.client
    case _ => names.secret
  }

  /** The parts of a flow do not overwrite each other: each has a slot of its own. */
  lemma FlowSlotsAreDistinct(names: Names, id: string, flow: CodeFlow)
    requires DistinctFlowKeys(names)
    ensures var slots := CodeFlowTargets(NormalCodeFlow(names, id, flow));
            forall i, j :: 0 <= i < j < |slots| ==> slots[i] != slots[j]
  {
    var slots := CodeFlowTargets(NormalCodeFlow(names, id, flow));
    FlowSlots(names, id, flow);
    forall i, j | 0 <= i < j < |slots|
      ensures slots[i] != slots[j]
    {
      StorageTargetIsInjective(names, id, FlowKey(names, i), id, FlowKey(names, j));
    }
  }

  lemma IsOwnKey(key: string)
    requires IsSlug(key)
    ensures SanitizeFieldKey(key) == key
  {
    SlugIsFixed(FieldKey, key);
  }

  lemma AccessKey()
    ensures SanitizeFieldKey("access_token") == "access_token"
  {
    IsOwnKey("access_token");
  }

  lemma RefreshKey()
    ensures SanitizeFieldKey("refresh_token") == "refresh_token"
  {
    IsOwnKey("refresh_token");
  }

  lemma ExpiresKey()
    ensures SanitizeFieldKey("expires_at") == "expires_at"
  {
    IsOwnKey("expires_at");
  }

  lemma ClientKey()
    ensures SanitizeFieldKey("client_id") == "client_id"
  {
    IsOwnKey("client_id");
  }

  lemma SecretKey()
    ensures SanitizeFieldKey("client_secret") == "client_secret"
  {
    IsOwnKey("client_secret");
  }

  lemma UnlikeTexts(a: string, b: string, c: string, d: string, e: string)
    requires |a| == 12 && |b| == 13 && b[0] == 'r' && |c| == 10 && |d| == 9 && |e| == 13 && e[0] == 'c'
    ensures a != b && a != c && a != d && a != e && b != c && b != d && b != e && c != d && c != e && d != e
  {
  }

  lemma UnlikeKeysAreDistinct(names: Names, clean: seq<string>)
    requires |clean| == 5 && forall i, j :: 0 <= i < j < |clean| ==> clean[i] != clean[j]
    requires SanitizeFieldKey(names.access) == clean[0] && SanitizeFieldKey(names.refresh) == clean[1]
    requires SanitizeFieldKey(names.expires) == clean[2] && SanitizeFieldKey(names.client) == clean[3]
    requires SanitizeFieldKey(names.secret) == clean[4]
    ensures DistinctFlowKeys(names)
  {
    forall i, j | 0 <= i < j < 5
      ensures SanitizeFieldKey(FlowKey(names, i)) != SanitizeFieldKey(FlowKey(names, j))
    {
      assert SanitizeFieldKey(FlowKey(names, i)) == clean[i] && SanitizeFieldKey(FlowKey(names, j)) == clean[j];
    }
  }

  lemma CleanKeysAreDistinct(names: Names)
    requires SanitizeFieldKey(names.access) == names.access && |names.access| == 12
    requires SanitizeFieldKey(names.refresh) == names.refresh && |names.refresh| == 13 && names.refresh[0] == 'r'
    requires SanitizeFieldKey(names.expires) == names.expires && |names.expires| == 10
    requires SanitizeFieldKey(names.client) == names.client && |names.client| == 9
    requires SanitizeFieldKey(names.secret) == names.secret && |names.secret| == 13 && names.secret[0] == 'c'
    ensures DistinctFlowKeys(names)
  {
    UnlikeTexts(names.access, names.refresh, names.expires, names.client, names.secret);
    UnlikeKeysAreDistinct(names, [names.access, names.refresh, names.expires, names.client, names.secret]);
  }

  /** The keys of the code are such. */
  lemma CodeKeysAreDistinct(prefix: string)
    ensures DistinctFlowKeys(Names(prefix, "access_token", "refresh_token", "expires_at", "client_id", "client_secret"))
  {
    AccessKey();
    RefreshKey();
    ExpiresKey();
    ClientKey();
    SecretKey();
    CleanKeysAreDistinct(Names(prefix, "access_token", "refresh_token", "expires_at", "client_id", "client_secret"));
  }

  lemma FlowSlots(names: Names, id: string, flow: CodeFlow)
    ensures var slots := CodeFlowTargets(NormalCodeFlow(names, id, flow));
            |slots| <= 5 && forall i :: 0 <= i < |slots| ==> slots[i] == StorageTarget(names, id, FlowKey(names, i))
  {
    FlowSlotList(StorageTarget(names, id, names.access), StorageTarget(names, id, names.refresh),
                 StorageTarget(names, id, names.expires), StorageTarget(names, id, names.client),
                 NormalCodeFlow(names, id, flow).clientSecret);
  }

  lemma FlowSlotList(access: string, refresh: string, expires: string, client: string, secret: Option<string>)
    ensures CodeFlowTargets(CodeFlow(client, secret, TokenStorage(access, Some(refresh), Some(expires))))
         == if secret.Some? then [access, refresh, expires, client, secret.value]
            else [access, refresh, expires, client]
  {
  }

  // ---- writing and clearing slots ----

  /** The value given for a field, unless it is blank. */
  function Given(values: Store, key: string): Option<string> {
    if key in values && Trim(values[key]) != "" then Some(Trim(values[key])) else None
  }

  function Write(secrets: Store, slots: seq<string>, value: string): Store {
    secrets + (map slot | slot in slots :: value)
  }

  function Clear(secrets: Store, slots: seq<string>): Store {
    map slot | slot in secrets && slot !in slots :: secrets[slot]
  }

  datatype Stored = Stored(secrets: Store, missing: Option<string>)

  /** The fields are written one by one until a required one has no value; what was written
      before stays. */
  function StoreFields(fields: seq<Field>, k: nat, values: Store, secrets: Store): Stored
    requires k <= |fields|
    decreases |fields| - k
  {
    if k == |fields| then Stored(secrets, None)
    else
      var value := Given(values, fields[k].key);
      if value.None? then
        if fields[k].required then Stored(secrets, Some(fields[k].key))
        else StoreFields(fields, k + 1, values, secrets)
      else StoreFields(fields, k + 1, values, Write(secrets, fields[k].targets, value.value))
  }

  /** The store loop of `store_manifest_values`. */
  method StoreManifestValues(fields: seq<Field>, values: Store, original: Store)
    returns (secrets: Store, missing: Option<string>)
    ensures Stored(secrets, missing) == StoreFields(fields, 0, values, original)
  {
    secrets := original;
    for k := 0 to |fields|
      invariant StoreFields(fields, k, values, secrets) == StoreFields(fields, 0, values, original)
    {
      var field := fields[k];
      var value := Given(values, field.key);
      if field.required && value.None? {
        return secrets, Some(field.key);
      }
      if value.None? {
        continue;
      }
      secrets := SetAll(secrets, field.targets, value.value);
    }
    missing := None;
  }

  method SetAll(original: Store, slots: seq<string>, value: string) returns (secrets: Store)
    ensures secrets == Write(original, slots, value)
  {
    secrets := original;
    for i := 0 to |slots|
      invariant secrets == Write(original, slots[..i], value)
    {
      WriteStep(original, slots, i, value);
      secrets := secrets[slots[i] := value];
    }
    assert slots[..|slots|] == slots;
  }

  lemma WriteStep(secrets: Store, slots: seq<string>, i: nat, value: string)
    requires i < |slots|
    ensures Write(secrets, slots[..i + 1], value) == Write(secrets, slots[..i], value)[slots[i] := value]
  {
    assert slots[..i + 1] == slots[..i] + [slots[i]];
  }

  /** `clear_manifest_secrets` */
  method ClearManifestSecrets(mode: Mode, original: Store) returns (secrets: Store)
    ensures secrets == Clear(original, AllTargets(mode))
  {
    secrets := ClearEach(original, AllTargets(mode));
  }

  method ClearEach(original: Store, slots: seq<string>) returns (secrets: Store)
    ensures secrets == Clear(original, slots)
  {
    secrets := original;
    for i := 0 to |slots|
      invariant secrets == Clear(original, slots[..i])
    {
      secrets := secrets - {slots[i]};
      assert slots[..i + 1] == slots[..i] + [slots[i]];
    }
    assert slots[..|slots|] == slots;
  }

  /** The slot has the same content, or none, in both. */
  predicate SameSlot(one: Store, two: Store, slot: string) {
    (slot in one <==> slot in two) && (slot in one ==> one[slot] == two[slot])
  }

  /** The first field a required value is missing for. */
  function FirstMissing(fields: seq<Field>, values: Store, k: nat): (m: nat)
    requires k <= |fields|
    ensures k <= m <= |fields|
    ensures forall i :: k <= i < m ==> !fields[i].required || Given(values, fields[i].key).Some?
    ensures m < |fields| ==> fields[m].required && Given(values, fields[m].key).None?
    decreases |fields| - k
  {
    if k == |fields| || (fields[k].required && Given(values, fields[k].key).None?) then k
    else FirstMissing(fields, values, k + 1)
  }

  /** Fields share a slot only with their key. */
  ghost predicate SlotsFollowKeys(fields: seq<Field>) {
    forall i, j, slot ::
      0 <= i < |fields| && 0 <= j < |fields| && slot in fields[i].targets && slot in fields[j].targets ==>
        fields[i].key == fields[j].key
  }

  lemma SameSlotSameKey(names: Names, id: string, one: Field, two: Field, slot: string)
    requires slot in NormalField(names, id, one).targets && slot in NormalField(names, id, two).targets
    ensures NormalField(names, id, one).key == NormalField(names, id, two).key
  {
    SanitizedIsSlug(FieldKey, one.key);
    SanitizedIsSlug(FieldKey, two.key);
    StorageTargetIsInjective(names, id, SanitizeFieldKey(one.key), id, SanitizeFieldKey(two.key));
  }

  lemma NormalFieldsFollowKeys(names: Names, id: string, fields: seq<Field>)
    ensures SlotsFollowKeys(NormalFields(names, id, fields))
  {
    var normal := NormalFields(names, id, fields);
    forall i, j, slot | 0 <= i < |normal| && 0 <= j < |normal| && slot in normal[i].targets && slot in normal[j].targets
      ensures normal[i].key == normal[j].key
    {
      SameSlotSameKey(names, id, fields[i], fields[j], slot);
    }
  }

  /** Storing reports the first field without a required value, and fails only for one. */
  lemma {:induction false} StoreReportsMissing(fields: seq<Field>, k: nat, values: Store, secrets: Store)
    requires k <= |fields|
    ensures var m := FirstMissing(fields, values, k);
            StoreFields(fields, k, values, secrets).missing == if m < |fields| then Some(fields[m].key) else None
    decreases |fields| - k
  {
    if k < |fields| && FirstMissing(fields, values, k) > k {
      var value := Given(values, fields[k].key);
      StoreReportsMissing(fields, k + 1, values,
        if value.None? then secrets else Write(secrets, fields[k].targets, value.value));
    }
  }

  /** The value the slot gets from the fields before the first missing one. */
  function ValueFor(fields: seq<Field>, k: nat, values: Store, slot: string): Option<string>
    requires k <= |fields|
    decreases |fields| - k
  {
    if k == FirstMissing(fields, values, k) then None
    else if slot in fields[k].targets && Given(values, fields[k].key).Some? then Given(values, fields[k].key)
    else ValueFor(fields, k + 1, values, slot)
  }

  lemma {:induction false} SameSlotSameValue(fields: seq<Field>, j: nat, k: nat, values: Store, slot: string)
    requires j < k <= |fields| && SlotsFollowKeys(fields) && slot in fields[j].targets
    ensures ValueFor(fields, k, values, slot).Some? ==>
              ValueFor(fields, k, values, slot) == Given(values, fields[j].key)
    decreases |fields| - k
  {
    if k < FirstMissing(fields, values, k) {
      if slot in fields[k].targets {
        assert fields[k].key == fields[j].key;
      }
      SameSlotSameValue(fields, j, k + 1, values, slot);
    }
  }

  /** When no field before the first missing one is given a value, storing writes nothing. */
  lemma {:induction false} NothingGiven(fields: seq<Field>, k: nat, values: Store, secrets: Store)
    requires k <= |fields|
    requires forall i :: k <= i < FirstMissing(fields, values, k) ==> Given(values, fields[i].key).None?
    ensures StoreFields(fields, k, values, secrets).secrets == secrets
    decreases |fields| - k
  {
    if k < FirstMissing(fields, values, k) {
      NothingGiven(fields, k + 1, values, secrets);
    }
  }

  predicate Holds(secrets: Store, slot: string, value: string) { slot in secrets && secrets[slot] == value }

  /** Storing puts into each slot the trimmed value given for its field, and leaves the slots
      alone that get none. */
  lemma {:induction false} StoreWritesGiven(fields: seq<Field>, k: nat, values: Store, secrets: Store, slot: string)
    requires k <= |fields| && SlotsFollowKeys(fields)
    ensures var value := ValueFor(fields, k, values, slot);
            var after := StoreFields(fields, k, values, secrets).secrets;
            if value.Some? then Holds(after, slot, value.value) else SameSlot(after, secrets, slot)
    decreases |fields| - k
  {
    if k < FirstMissing(fields, values, k) {
      var value := Given(values, fields[k].key);
      if value.None? {
        StoreWritesGiven(fields, k + 1, values, secrets, slot);
      } else {
        StoreWritesGiven(fields, k + 1, values, Write(secrets, fields[k].targets, value.value), slot);
        if slot in fields[k].targets {
          SameSlotSameValue(fields, k, k + 1, values, slot);
        }
      }
    }
  }

  // ---- what storing and clearing mean for the channel ----

  lemma {:induction false} ValueForField(fields: seq<Field>, k: nat, i: nat, values: Store, slot: string)
    requires SlotsFollowKeys(fields) && k <= i < |fields| && i < FirstMissing(fields, values, k)
    requires slot in fields[i].targets && Given(values, fields[i].key).Some?
    ensures ValueFor(fields, k, values, slot) == Given(values, fields[i].key)
    decreases i - k
  {
    if k < i {
      if slot in fields[k].targets {
        assert fields[k].key == fields[i].key;
      } else {
        ValueForField(fields, k + 1, i, values, slot);
      }
    }
  }

  lemma {:induction false} ValueForIsGiven(fields: seq<Field>, k: nat, values: Store, slot: string)
    requires k <= |fields|
    ensures ValueFor(fields, k, values, slot).Some? ==> !IsBlank(ValueFor(fields, k, values, slot).value)
    decreases |fields| - k
  {
    if k < FirstMissing(fields, values, k) {
      ValueForIsGiven(fields, k + 1, values, slot);
    }
  }

  lemma {:induction false} RequiredFieldOf(fields: seq<Field>, p: nat) returns (i: nat)
    requires p < |RequiredFields(fields)|
    ensures i < |fields| && fields[i].required && RequiredFields(fields)[p] in fields[i].targets
  {
    var own := if fields[0].required then fields[0].targets else [];
    if p < |own| {
      i := 0;
    } else {
      var j := RequiredFieldOf(fields[1..], p - |own|);
      i := j + 1;
    }
  }

  /** When nothing was missing, every slot of a required field is filled. */
  lemma StoreFillsRequired(fields: seq<Field>, values: Store, secrets: Store)
    requires SlotsFollowKeys(fields)
    requires StoreFields(fields, 0, values, secrets).missing.None?
    ensures AllFilled(StoreFields(fields, 0, values, secrets).secrets, RequiredFields(fields))
  {
    var slots := RequiredFields(fields);
    var after := StoreFields(fields, 0, values, secrets).secrets;
    StoreReportsMissing(fields, 0, values, secrets);
    forall p | 0 <= p < |slots|
      ensures IsFilled(after, slots[p])
    {
      var i := RequiredFieldOf(fields, p);
      ValueForField(fields, 0, i, values, slots[p]);
      ValueForIsGiven(fields, 0, values, slots[p]);
      StoreWritesGiven(fields, 0, values, secrets, slots[p]);
    }
  }

  lemma AllFilledConcat(secrets: Store, slots: seq<string>, more: seq<string>)
    ensures AllFilled(secrets, slots + more) <==> AllFilled(secrets, slots) && AllFilled(secrets, more)
  {
    var all := slots + more;
    if AllFilled(secrets, all) {
      assert forall i :: 0 <= i < |slots| ==> all[i] == slots[i];
      assert forall i :: 0 <= i < |more| ==> all[|slots| + i] == more[i];
    }
  }

  /** Storing that reports nothing missing configures the channel; a hybrid one needs its
      access token beside. */
  lemma StoreConfigures(mode: Mode, values: Store, secrets: Store)
    requires HasFields(mode) && SlotsFollowKeys(mode.fields)
    ensures var stored := StoreFields(mode.fields, 0, values, secrets);
            stored.missing.None? ==>
              (IsConfigured(Some(mode), stored.secrets) <==> AllFilled(stored.secrets, AccessToken(mode)))
  {
    var stored := StoreFields(mode.fields, 0, values, secrets);
    if stored.missing.None? {
      StoreFillsRequired(mode.fields, values, secrets);
      AllFilledConcat(stored.secrets, RequiredFields(mode.fields), AccessToken(mode));
    }
  }

  /** Slots outside the targets of the fields are not touched, whether storing fails or not. */
  lemma {:induction false} StoreFrame(fields: seq<Field>, k: nat, values: Store, secrets: Store, slot: string)
    requires k <= |fields|
    requires forall i :: 0 <= i < |fields| ==> slot !in fields[i].targets
    ensures SameSlot(StoreFields(fields, k, values, secrets).secrets, secrets, slot)
    decreases |fields| - k
  {
    if k < |fields| {
      var value := Given(values, fields[k].key);
      if value.None? {
        if !fields[k].required {
          StoreFrame(fields, k + 1, values, secrets, slot);
        }
      } else {
        StoreFrame(fields, k + 1, values, Write(secrets, fields[k].targets, value.value), slot);
      }
    }
  }

  lemma {:induction false} FieldTargetsHold(fields: seq<Field>, i: nat, slot: string)
    requires i < |fields| && slot in fields[i].targets
    ensures slot in FieldTargets(fields)
  {
    if i > 0 {
      FieldTargetsHold(fields[1..], i - 1, slot);
    }
  }

  /** Storing and clearing touch the slots of the manifest alone; clearing leaves none of them. */
  lemma SecretsFrame(mode: Mode, values: Store, secrets: Store, slot: string)
    ensures slot !in AllTargets(mode) ==> SameSlot(Clear(secrets, AllTargets(mode)), secrets, slot)
    ensures slot in AllTargets(mode) ==> slot !in Clear(secrets, AllTargets(mode))
    ensures HasFields(mode) && slot !in AllTargets(mode) ==>
              SameSlot(StoreFields(mode.fields, 0, values, secrets).secrets, secrets, slot)
  {
    if HasFields(mode) && slot !in AllTargets(mode) {
      forall i | 0 <= i < |mode.fields|
        ensures slot !in mode.fields[i].targets
      {
        if slot in mode.fields[i].targets {
          FieldTargetsHold(mode.fields, i, slot);
        }
      }
      StoreFrame(mode.fields, 0, values, secrets, slot);
    }
  }
}
