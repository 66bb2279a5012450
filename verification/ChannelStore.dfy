/** The stored channels and their secrets: creating, changing and deleting channels, storing
    credentials, and the two halves of a test. */
module ChannelStore {
  import opened Results
  import opened Text
  import opened ChannelNames
  import opened ChannelAuth

  datatype Manifest = Manifest(integrationId: string, displayName: string, docsUrl: Option<string>, mode: Mode)

  datatype Draft = Draft(key: string, required: Option<bool>)

  /** A request to create or change a channel. `references` are the secret references of its
      send specification; the two checks of that, before and after the references are
      rewritten, are given by their outcome. */
  datatype Request = Request(
    id: Option<string>, name: string, description: string, enabled: Option<bool>, docsUrl: Option<string>,
    send: string, references: seq<string>, sendValid: bool, rewrittenValid: bool,
    manifest: Option<Manifest>, drafts: seq<Draft>, profile: Option<string>, clearSecrets: bool)

  /** When the last test started, in nanoseconds, and how it went. */
  datatype TestRecord = TestRecord(startedAt: Option<int>, outcome: Option<string>, message: Option<string>)

  datatype Config = Config(
    id: string, name: string, description: string, enabled: bool, docsUrl: Option<string>, send: string,
    manifest: Option<Manifest>, profile: Option<string>, createdAt: int, updatedAt: int, test: TestRecord)

  datatype Error =
    | NameRequired | IdRequired | NotFound | AlreadyExists | SendInvalid | BlankFieldKey | ProfileNotFound
    | NoCredentialFields | NoDirectFields | FieldRequired(key: string) | NotConfigured | TestedRecently(seconds: int)

  datatype State = State(configs: seq<Config>, secrets: Store)

  // ---- the manifest of a request ----

  predicate Less(s: string, t: string) {
    t != "" && (s == "" || s[0] < t[0] || (s[0] == t[0] && Less(s[1..], t[1..])))
  }

  /** Insertion into an ordered set. */
  function Insert(keys: seq<string>, key: string): seq<string> {
    if keys == [] || Less(key, keys[0]) then [key] + keys
    else if key == keys[0] then keys
    else [keys[0]] + Insert(keys[1..], key)
  }

  function SortedKeys(raw: seq<string>, keys: seq<string>): seq<string>
    decreases |raw|
  {
    if raw == [] then keys
    else
      var key := SanitizeFieldKey(raw[0]);
      SortedKeys(raw[1..], if key == "" then keys else Insert(keys, key))
  }

  function DraftKeys(drafts: seq<Draft>): seq<string> {
    seq(|drafts|, i requires 0 <= i < |drafts| => drafts[i].key)
  }

  function IsRequired(drafts: seq<Draft>, key: string): bool {
    if drafts == [] then true
    else if SanitizeFieldKey(drafts[0].key) == key then drafts[0].required.None? || drafts[0].required.value
    else IsRequired(drafts[1..], key)
  }

  function DraftFields(names: Names, id: string, drafts: seq<Draft>, keys: seq<string>): seq<Field> {
    seq(|keys|,
        i requires 0 <= i < |keys| => Field(keys[i], IsRequired(drafts, keys[i]), [StorageTarget(names, id, keys[i])]))
  }

  /** `normalize_auth_manifest` before the slots are normalized. */
  function DeclaredManifest(names: Names, id: string, request: Request): Option<Manifest> {
    match request.manifest
    case Some(m) =>
      Some(Manifest(AuthIntegrationId(names, id),
                    if IsBlank(m.displayName) then Trim(request.name) else m.displayName,
                    if m.docsUrl.None? then request.docsUrl else m.docsUrl, m.mode))
    case None =>
      var keys := SortedKeys(DraftKeys(request.drafts) + request.references, []);
      if keys == [] then None
      else Some(Manifest(AuthIntegrationId(names, id), Trim(request.name), request.docsUrl,
                         Secrets(DraftFields(names, id, request.drafts, keys))))
  }

  predicate ManifestRefused(names: Names, id: string, request: Request) {
    var declared := DeclaredManifest(names, id, request);
    declared.Some? && NormalMode(names, id, declared.value.mode).None?
  }

  /** `normalize_auth_manifest` */
  function NormalManifest(names: Names, id: string, request: Request): Option<Manifest>
    requires !ManifestRefused(names, id, request)
  {
    match DeclaredManifest(names, id, request)
    case None => None
    case Some(m) => Some(m.(mode := NormalMode(names, id, m.mode).value))
  }

  // ---- creating and changing a channel ----

  /** The index of the channel, or the number of channels. */
  function Find(configs: seq<Config>, id: string): (i: nat)
    ensures i <= |configs|
    ensures i < |configs| ==> configs[i].id == id
    ensures forall k :: 0 <= k < i ==> configs[k].id != id
  {
    if configs == [] || configs[0].id == id then 0 else 1 + Find(configs[1..], id)
  }

  function Lookup(configs: seq<Config>, id: string): Option<Config> {
    var i := Find(configs, id);
    if i < |configs| then Some(configs[i]) else None
  }

  function TargetId(request: Request, pathId: Option<string>): string {
    if pathId.Some? then SanitizeId(pathId.value)
    else SanitizeId(if request.id.Some? then request.id.value else SanitizeId(Trim(request.name)))
  }

  function CleanOptional(text: Option<string>): Option<string> {
    if text.Some? && Trim(text.value) != "" then Some(Trim(text.value)) else None
  }

  function ProfileOf(request: Request, existing: Option<Config>): Option<string> {
    if CleanOptional(request.profile).Some? then CleanOptional(request.profile)
    else if existing.Some? then existing.value.profile
    else None
  }

  function Refusal(names: Names, s: State, request: Request, pathId: Option<string>,
                   profiles: set<string>): Option<Error> {
    var id := TargetId(request, pathId);
    var existing := Lookup(s.configs, id);
    if Trim(request.name) == "" then Some(NameRequired)
    else if id == "" then Some(IdRequired)
    else if pathId.Some? && existing.None? then Some(NotFound)
    else if pathId.None? && existing.Some? then Some(AlreadyExists)
    else if !request.sendValid then Some(SendInvalid)
    else if ManifestRefused(names, id, request) then Some(BlankFieldKey)
    else if !request.rewrittenValid then Some(SendInvalid)
    else if ProfileOf(request, existing).Some? && ProfileOf(request, existing).value !in profiles then
      Some(ProfileNotFound)
    else None
  }

  function NewConfig(names: Names, id: string, request: Request, existing: Option<Config>, now: int): Config
    requires !ManifestRefused(names, id, request)
  {
    var enabled := if request.enabled.Some? then request.enabled.value else existing.None? || existing.value.enabled;
    var createdAt := if existing.Some? then existing.value.createdAt else now;
    var test := if existing.Some? then existing.value.test else TestRecord(None, None, None);
    Config(id, Trim(request.name), Trim(request.description), enabled, request.docsUrl, request.send,
           NormalManifest(names, id, request), ProfileOf(request, existing), createdAt, now, test)
  }

  function PutConfig(configs: seq<Config>, config: Config): seq<Config> {
    var i := Find(configs, config.id);
    if i < |configs| then configs[i := config] else configs + [config]
  }

  function ClearManifest(manifest: Option<Manifest>, secrets: Store): Store {
    if manifest.Some? then Clear(secrets, AllTargets(manifest.value.mode)) else secrets
  }

  /** The manifest whose slots a clearing request clears: the new one if there is one. */
  function ManifestToClear(config: Config, existing: Option<Config>): Option<Manifest> {
    if config.manifest.Some? then config.manifest
    else if existing.Some? then existing.value.manifest
    else None
  }

  function Upserted(names: Names, s: State, request: Request, pathId: Option<string>, profiles: set<string>,
                    now: int): State {
    if Refusal(names, s, request, pathId, profiles).Some? then s
    else
      var id := TargetId(request, pathId);
      var existing := Lookup(s.configs, id);
      var config := NewConfig(names, id, request, existing, now);
      State(PutConfig(s.configs, config),
            if request.clearSecrets then ClearManifest(ManifestToClear(config, existing), s.secrets) else s.secrets)
  }

  // ---- deleting a channel, storing its credentials ----

  function Deleted(s: State, rawId: string): State {
    var i := Find(s.configs, SanitizeId(rawId));
    if i == |s.configs| then s
    else State(s.configs[..i] + s.configs[i + 1..], ClearManifest(s.configs[i].manifest, s.secrets))
  }

  /** The manifest `store_custom_messaging_channel_credentials` reads, without the lock, before
      it writes any slot. */
  function LoadedMode(s: State, rawId: string): Result<Mode, Error> {
    match Lookup(s.configs, SanitizeId(rawId))
    case None => Err(NotFound)
    case Some(config) =>
      if config.manifest.None? then Err(NoCredentialFields) else Ok(config.manifest.value.mode)
  }

  function WriteRefusal(mode: Mode, values: Store, secrets: Store): Option<Error> {
    if !HasFields(mode) then Some(NoDirectFields)
    else
      var missing := StoreFields(mode.fields, 0, values, secrets).missing;
      if missing.Some? then Some(FieldRequired(missing.value)) else None
  }

  /** The secrets behind the writes, for a manifest that may have changed meanwhile. */
  function Written(mode: Mode, values: Store, secrets: Store): Store {
    if HasFields(mode) then StoreFields(mode.fields, 0, values, secrets).secrets else secrets
  }

  // ---- testing a channel ----

  const SECOND: int := 1_000_000_000

  const COOLDOWN: int := 30

  /** Whole seconds, cut towards zero. */
  function NumSeconds(nanoseconds: int): int {
    if nanoseconds >= 0 then nanoseconds / SECOND else -((-nanoseconds) / SECOND)
  }

  /** `channel_test_cooldown_remaining` */
  function CooldownRemaining(last: Option<int>, now: int): Option<int> {
    if last.None? then None
    else
      var elapsed := NumSeconds(now - last.value);
      if elapsed >= COOLDOWN then None else Some(if COOLDOWN - elapsed > 1 then COOLDOWN - elapsed else 1)
  }

  function ModeOf(config: Config): Option<Mode> {
    if config.manifest.Some? then Some(config.manifest.value.mode) else None
  }

  /** The channel can be used: enabled, its profile ready, its required slots filled. */
  predicate Configured(config: Config, secrets: Store, ready: set<string>) {
    && config.enabled
    && (config.profile.None? || config.profile.value in ready)
    && IsConfigured(ModeOf(config), secrets)
  }

  function BeginRefusal(s: State, rawId: string, ready: set<string>, now: int): Option<Error> {
    match Lookup(s.configs, SanitizeId(rawId))
    case None => Some(NotFound)
    case Some(config) =>
      if !Configured(config, s.secrets, ready) then Some(NotConfigured)
      else
        var wait := CooldownRemaining(config.test.startedAt, now);
        if wait.Some? then Some(TestedRecently(wait.value)) else None
  }

  function SetTest(s: State, id: string, test: TestRecord, now: int): State {
    var i := Find(s.configs, id);
    if i == |s.configs| then s
    else s.(configs := s.configs[i := s.configs[i].(test := test, updatedAt := now)])
  }

  function Begun(s: State, rawId: string, ready: set<string>, now: int): State {
    if BeginRefusal(s, rawId, ready, now).Some? then s
    else SetTest(s, SanitizeId(rawId), TestRecord(Some(now), Some("running"), Some("Test started.")), now)
  }

  function Finished(s: State, rawId: string, startedAt: int, ok: bool, detail: string, now: int): State {
    SetTest(s, SanitizeId(rawId), TestRecord(Some(startedAt), Some(if ok then "ok" else "error"), Some(detail)), now)
  }

  // ---- the store ----

  class ChannelStore {
    const names: Names
    var configs: seq<Config>
    var secrets: Store

    constructor (names: Names)
      ensures this.names == names && Now() == State([], map[])
    {
      this.names := names;
      configs := [];
      secrets := map[];
    }

    function Now(): State
      reads this
    {
      State(configs, secrets)
    }

    /** `upsert_custom_messaging_channel`: a refused request changes nothing. */
    method Upsert(request: Request, pathId: Option<string>, profiles: set<string>, now: int)
      returns (error: Option<Error>)
      modifies this
      ensures error == Refusal(names, old(Now()), request, pathId, profiles)
      ensures Now() == Upserted(names, old(Now()), request, pathId, profiles, now)
    {
      if Trim(request.name) == "" {
        return Some(NameRequired);
      }
      var id := TargetId(request, pathId);
      if id == "" {
        return Some(IdRequired);
      }
      var index := Find(configs, id);
      var existing := if index < |configs| then Some(configs[index]) else None;
      if pathId.Some? && existing.None? {
        return Some(NotFound);
      }
      if pathId.None? && existing.Some? {
        return Some(AlreadyExists);
      }
      if !request.sendValid {
        return Some(SendInvalid);
      }
      var manifest := DeclaredManifest(names, id, request);
      if manifest.Some? {
        var mode := NormalizeStorageTargets(names, id, manifest.value.mode);
        if mode.None? {
          return Some(BlankFieldKey);
        }
        manifest := Some(manifest.value.(mode := mode.value));
      }
      assert manifest == NormalManifest(names, id, request);
      if !request.rewrittenValid {
        return Some(SendInvalid);
      }
      var profile := ProfileOf(request, existing);
      if profile.Some? && profile.value !in profiles {
        return Some(ProfileNotFound);
      }
      var config := NewConfig(names, id, request, existing, now);
      if request.clearSecrets {
        var toClear := ManifestToClear(config, existing);
        if toClear.Some? {
          secrets := ClearManifestSecrets(toClear.value.mode, secrets);
        }
      }
      if index < |configs| {
        configs := configs[index := config];
      } else {
        configs := configs + [config];
      }
      return None;
    }

    /** `delete_custom_messaging_channel` */
    method Delete(rawId: string) returns (found: bool)
      modifies this
      ensures found <==> Lookup(old(configs), SanitizeId(rawId)).Some?
      ensures Now() == Deleted(old(Now()), rawId)
    {
      var index := Find(configs, SanitizeId(rawId));
      if index == |configs| {
        return false;
      }
      var removed := configs[index];
      configs := configs[..index] + configs[index + 1..];
      if removed.manifest.Some? {
        secrets := ClearManifestSecrets(removed.manifest.value.mode, secrets);
      }
      return true;
    }

    /** The first half of `store_custom_messaging_channel_credentials`: the manifest is read. */
    method LoadCredentials(rawId: string) returns (mode: Result<Mode, Error>)
      ensures mode == LoadedMode(Now(), rawId)
    {
      var config := Lookup(configs, SanitizeId(rawId));
      if config.None? {
        return Err(NotFound);
      }
      if config.value.manifest.None? {
        return Err(NoCredentialFields);
      }
      return Ok(config.value.manifest.value.mode);
    }

    /** The second half: the slots of the manifest that was read are written. */
    method WriteCredentials(mode: Mode, values: Store) returns (error: Option<Error>)
      modifies this`secrets
      ensures error == WriteRefusal(mode, values, old(secrets))
      ensures secrets == Written(mode, values, old(secrets))
    {
      if !HasFields(mode) {
        return Some(NoDirectFields);
      }
      var missing;
      secrets, missing := StoreManifestValues(mode.fields, values, secrets);
      return if missing.Some? then Some(FieldRequired(missing.value)) else None;
    }

    /** The first half of `test_custom_messaging_channel`, up to the network call. */
    method BeginTest(rawId: string, ready: set<string>, now: int) returns (error: Option<Error>)
      modifies this`configs
      ensures error == BeginRefusal(old(Now()), rawId, ready, now)
      ensures Now() == Begun(old(Now()), rawId, ready, now)
    {
      var index := Find(configs, SanitizeId(rawId));
      if index == |configs| {
        return Some(NotFound);
      }
      if !Configured(configs[index], secrets, ready) {
        return Some(NotConfigured);
      }
      var wait := CooldownRemaining(configs[index].test.startedAt, now);
      if wait.Some? {
        return Some(TestedRecently(wait.value));
      }
      var test := TestRecord(Some(now), Some("running"), Some("Test started."));
      configs := configs[index := configs[index].(test := test, updatedAt := now)];
      return None;
    }

    /** The second half, after the network call. */
    method FinishTest(rawId: string, startedAt: int, ok: bool, detail: string, now: int)
      modifies this`configs
      ensures Now() == Finished(old(Now()), rawId, startedAt, ok, detail, now)
    {
      var index := Find(configs, SanitizeId(rawId));
      if index < |configs| {
        var test := TestRecord(Some(startedAt), Some(if ok then "ok" else "error"), Some(detail));
        configs := configs[index := configs[index].(test := test, updatedAt := now)];
      }
    }
  }
}
