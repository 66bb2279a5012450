/** The text an action error is carried in, and reading it back. */
module ActionErrors {
  import opened Results
  import opened Text

  datatype Domain = Action | Auth | Integration | Channel | App | Search | Scheduler | Watcher

  datatype Reason =
    | MissingInput | InvalidInput | NotFound | NotConnected | Unavailable | PermissionDenied
    | Ambiguous | RateLimited | Timeout | Failed | BundleNotGranted | ApprovalRequired

  datatype ActionError = Structured(domain: Domain, reason: Reason, message: string)

  function DomainKey(domain: Domain): string {
    match domain
    case Action => "action"
    case Auth => "auth"
    case Integration => "integration"
    case Channel => "channel"
    case App => "app"
    case Search => "search"
    case Scheduler => "scheduler"
    case Watcher => "watcher"
  }

  function ReasonKey(reason: Reason): string {
    match reason
    case MissingInput => "missing_input"
    case InvalidInput => "invalid_input"
    case NotFound => "not_found"
    case NotConnected => "not_connected"
    case Unavailable => "unavailable"
    case PermissionDenied => "permission_denied"
    case Ambiguous => "ambiguous"
    case RateLimited => "rate_limited"
    case Timeout => "timeout"
    case Failed => "failed"
    case BundleNotGranted => "bundle_not_granted"
    case ApprovalRequired => "approval_required"
  }

  const DOMAINS := [Action, Auth, Integration, Channel, App, Search, Scheduler, Watcher]

  const REASONS :=
    [MissingInput, InvalidInput, NotFound, NotConnected, Unavailable, PermissionDenied,
     Ambiguous, RateLimited, Timeout, Failed, BundleNotGranted, ApprovalRequired]

  /** The arms of `ActionErrorDomain::from_str`, tried in order. */
  function FindDomain(domains: seq<Domain>, key: string): Option<Domain> {
    if domains == [] then None
    else if DomainKey(domains[0]) == key then Some(domains[0])
    else FindDomain(domains[1..], key)
  }

  function FindReason(reasons: seq<Reason>, key: string): Option<Reason> {
    if reasons == [] then None
    else if ReasonKey(reasons[0]) == key then Some(reasons[0])
    else FindReason(reasons[1..], key)
  }

  function DomainFromText(text: string): Option<Domain> { FindDomain(DOMAINS, Trim(text)) }

  function ReasonFromText(text: string): Option<Reason> { FindReason(REASONS, Trim(text)) }

  const NO_MESSAGE := "Action failed"

  function CleanMessage(message: string): string {
    if Trim(message) == "" then NO_MESSAGE else Trim(message)
  }

  /** `ActionError::new` */
  function New(domain: Domain, reason: Reason, message: string): ActionError {
    Structured(domain, reason, CleanMessage(message))
  }

  const ERR := "ERR/"

  function Render(e: ActionError): string {
    ERR + (DomainKey(e.domain) + ['/'] + (ReasonKey(e.reason) + [':'] + ([' '] + e.message)))
  }

  /** `parse_structured_action_error_text` */
  function Parse(text: string): Option<ActionError> {
    var trimmed := Trim(text);
    if !StartsWith(trimmed, ERR) then None
    else
      match SplitOnce(trimmed[|ERR|..], '/')
      case None => None
      case Some((domainText, rest)) =>
        match SplitOnce(rest, ':')
        case None => None
        case Some((reasonText, message)) =>
          var domain := DomainFromText(domainText);
          var reason := ReasonFromText(reasonText);
          if domain.Some? && reason.Some? then Some(New(domain.value, reason.value, message)) else None
  }

  predicate IsStructured(text: string) { StartsWith(TrimStart(text), ERR) }

  /** `ensure_structured_action_error_text`; the domain is the one of the action's name. */
  function Ensure(domainOf: string -> Domain, name: string, message: string): string {
    if IsStructured(message) then Trim(message)
    else Render(New(domainOf(Lower(Trim(name))), Failed, message))
  }

  // ---- keys ----

  lemma DomainKeyFacts(domain: Domain)
    ensures IsTrimmed(DomainKey(domain)) && '/' !in DomainKey(domain) && DomainKey(domain) != ""
  {
  }

  lemma ReasonKeyFacts(reason: Reason)
    ensures IsTrimmed(ReasonKey(reason)) && ':' !in ReasonKey(reason) && ReasonKey(reason) != ""
  {
    ReasonKeyHasNoColon(reason);
  }

  lemma ReasonKeyHasNoColon(reason: Reason)
    ensures ':' !in ReasonKey(reason)
  {
  }

  lemma DomainKeyIsInjective(one: Domain, two: Domain)
    requires DomainKey(one) == DomainKey(two)
    ensures one == two
  {
  }

  /** No two reasons have keys of one length and first letter. */
  function ReasonMark(reason: Reason): (nat, char)
    ensures ReasonMark(reason) == (|ReasonKey(reason)|, ReasonKey(reason)[0])
  {
    match reason
    case MissingInput => (13, 'm')
    case InvalidInput => (13, 'i')
    case NotFound => (9, 'n')
    case NotConnected => (13, 'n')
    case Unavailable => (11, 'u')
    case PermissionDenied => (17, 'p')
    case Ambiguous => (9, 'a')
    case RateLimited => (12, 'r')
    case Timeout => (7, 't')
    case Failed => (6, 'f')
    case BundleNotGranted => (18, 'b')
    case ApprovalRequired => (17, 'a')
  }

  lemma ReasonKeyIsInjective(one: Reason, two: Reason)
    requires ReasonKey(one) == ReasonKey(two)
    ensures one == two
  {
    assert ReasonMark(one) == ReasonMark(two);
  }

  lemma {:induction false} FindDomainFinds(domains: seq<Domain>, domain: Domain)
    requires domain in domains
    ensures FindDomain(domains, DomainKey(domain)) == Some(domain)
  {
    if DomainKey(domains[0]) == DomainKey(domain) {
      DomainKeyIsInjective(domains[0], domain);
    } else {
      FindDomainFinds(domains[1..], domain);
    }
  }

  lemma {:induction false} FindReasonFinds(reasons: seq<Reason>, reason: Reason)
    requires reason in reasons
    ensures FindReason(reasons, ReasonKey(reason)) == Some(reason)
  {
    if ReasonKey(reasons[0]) == ReasonKey(reason) {
      ReasonKeyIsInjective(reasons[0], reason);
    } else {
      FindReasonFinds(reasons[1..], reason);
    }
  }

  lemma DomainComesBack(domain: Domain)
    ensures DomainFromText(DomainKey(domain)) == Some(domain)
  {
    DomainKeyFacts(domain);
    AllDomains(domain);
    FindDomainFinds(DOMAINS, domain);
  }

  lemma AllDomains(domain: Domain)
    ensures domain in DOMAINS
  {
  }

  lemma ReasonComesBack(reason: Reason)
    ensures ReasonFromText(ReasonKey(reason)) == Some(reason)
  {
    ReasonKeyFacts(reason);
    AllReasons(reason);
    FindReasonFinds(REASONS, reason);
  }

  lemma AllReasons(reason: Reason)
    ensures reason in REASONS
  {
  }

  // ---- the round trip ----

  /** Messages as `ActionError::new` leaves them. */
  predicate IsCleanMessage(message: string) { message != "" && IsTrimmed(message) }

  lemma CleanMessageIsClean(message: string)
    ensures IsCleanMessage(CleanMessage(message))
    ensures IsCleanMessage(message) ==> CleanMessage(message) == message
    ensures CleanMessage([' '] + CleanMessage(message)) == CleanMessage(message)
  {
    NoMessageIsClean();
    TrimSpace(CleanMessage(message));
  }

  lemma NoMessageIsClean()
    ensures IsCleanMessage(NO_MESSAGE)
  {
  }

  lemma PrefixedIsTrimmed(head: string, message: string)
    requires head != "" && !IsWhitespace(head[0]) && message != "" && !IsWhitespace(message[|message| - 1])
    ensures IsTrimmed(head + message)
  {
  }

  lemma RenderParts(e: ActionError)
    requires IsCleanMessage(e.message)
    ensures Trim(Render(e)) == Render(e) && TrimStart(Render(e)) == Render(e)
    ensures StartsWith(Render(e), ERR)
    ensures Render(e)[|ERR|..] == DomainKey(e.domain) + ['/'] + (ReasonKey(e.reason) + [':'] + ([' '] + e.message))
  {
    var rest := DomainKey(e.domain) + ['/'] + (ReasonKey(e.reason) + [':'] + ([' '] + e.message));
    assert rest[|rest| - 1] == e.message[|e.message| - 1];
    PrefixedIsTrimmed(ERR, rest);
    TrimStartOfTrimmed(Render(e));
  }

  lemma TrimStartOfTrimmed(s: string)
    requires IsTrimmed(s)
    ensures TrimStart(s) == s
  {
  }

  lemma ParseRest(text: string, domain: Domain, reason: Reason, message: string)
    requires StartsWith(Trim(text), ERR)
    requires Trim(text)[|ERR|..] == DomainKey(domain) + ['/'] + (ReasonKey(reason) + [':'] + message)
    ensures Parse(text) == Some(New(domain, reason, message))
  {
    DomainKeyFacts(domain);
    ReasonKeyFacts(reason);
    SplitOnceAt(DomainKey(domain), '/', ReasonKey(reason) + [':'] + message);
    SplitOnceAt(ReasonKey(reason), ':', message);
    DomainComesBack(domain);
    ReasonComesBack(reason);
  }

  /** Error text round trip: whatever the message, even one with separators in it, the text of
      an error reads back as that error. */
  lemma ErrorRoundTrip(domain: Domain, reason: Reason, message: string)
    ensures Parse(Render(New(domain, reason, message))) == Some(New(domain, reason, message))
  {
    var e := New(domain, reason, message);
    CleanMessageIsClean(message);
    RenderParts(e);
    ParseRest(Render(e), domain, reason, [' '] + e.message);
  }

  /** Two errors with one text are one error. */
  lemma RenderIsInjective(domain: Domain, reason: Reason, message: string, otherDomain: Domain, otherReason: Reason,
                          other: string)
    requires Render(New(domain, reason, message)) == Render(New(otherDomain, otherReason, other))
    ensures New(domain, reason, message) == New(otherDomain, otherReason, other)
  {
    ErrorRoundTrip(domain, reason, message);
    ErrorRoundTrip(otherDomain, otherReason, other);
  }

  /** What parsing yields is an error as `ActionError::new` makes them, and its text, which may
      differ from the one parsed, parses to it again. */
  lemma ParsedTextIsStable(text: string)
    ensures Parse(text).Some? ==> Parse(Render(Parse(text).value)) == Parse(text)
  {
    if Parse(text).Some? {
      var e := Parse(text).value;
      ParsedIsClean(text);
      assert e == New(e.domain, e.reason, e.message) by {
        CleanMessageIsClean(e.message);
      }
      ErrorRoundTrip(e.domain, e.reason, e.message);
    }
  }

  lemma ParsedIsClean(text: string)
    requires Parse(text).Some?
    ensures IsCleanMessage(Parse(text).value.message)
  {
    var trimmed := Trim(text);
    var (_, rest) := SplitOnce(trimmed[|ERR|..], '/').value;
    var (_, message) := SplitOnce(rest, ':').value;
    CleanMessageIsClean(message);
  }

  // ---- making sure a text is structured ----

  lemma {:induction false} TrimEndKeepsPrefix(s: string, prefix: string)
    requires prefix <= s && prefix != "" && !IsWhitespace(prefix[|prefix| - 1])
    ensures prefix <= TrimEnd(s)
  {
    if IsWhitespace(s[|s| - 1]) {
      assert |prefix| < |s| by {
        assert prefix[|prefix| - 1] == s[|prefix| - 1];
      }
      TrimEndKeepsPrefix(s[..|s| - 1], prefix);
    }
  }

  /** Trimming does not change whether a text counts as structured. */
  lemma TrimKeepsStructured(text: string)
    requires IsStructured(text)
    ensures IsStructured(Trim(text)) && Trim(Trim(text)) == Trim(text)
  {
    assert ERR[|ERR| - 1] == '/';
    TrimEndKeepsPrefix(TrimStart(text), ERR);
    TrimStartOfTrimmed(Trim(text));
  }

  /** Making sure twice is making sure once, on every string and under any two names. */
  lemma EnsureTwice(domainOf: string -> Domain, name: string, otherName: string, message: string)
    ensures Ensure(domainOf, otherName, Ensure(domainOf, name, message)) == Ensure(domainOf, name, message)
  {
    if IsStructured(message) {
      TrimKeepsStructured(message);
    } else {
      CleanMessageIsClean(message);
      RenderParts(New(domainOf(Lower(Trim(name))), Failed, message));
    }
  }

  lemma {:induction false} TrimEndStartsWith(s: string, prefix: string)
    requires prefix <= TrimEnd(s)
    ensures prefix <= s
  {
    if s != "" && IsWhitespace(s[|s| - 1]) {
      TrimEndStartsWith(s[..|s| - 1], prefix);
    }
  }

  lemma ParsedIsStructured(text: string)
    requires Parse(text).Some?
    ensures IsStructured(text)
  {
    TrimEndStartsWith(TrimStart(text), ERR);
  }

  lemma ParseOfTrim(text: string)
    ensures Parse(Trim(text)) == Parse(text)
  {
    assert Trim(Trim(text)) == Trim(text);
  }

  /** The result can be parsed exactly when the text could be or did not begin as an error: a
      text that only begins like one is passed on as it is. */
  lemma EnsuredParsesIff(domainOf: string -> Domain, name: string, message: string)
    ensures Parse(Ensure(domainOf, name, message)).Some? <==> Parse(message).Some? || !IsStructured(message)
    ensures Parse(message).Some? ==> Parse(Ensure(domainOf, name, message)) == Parse(message)
  {
    if IsStructured(message) {
      ParseOfTrim(message);
    } else {
      ErrorRoundTrip(domainOf(Lower(Trim(name))), Failed, message);
      if Parse(message).Some? {
        ParsedIsStructured(message);
      }
    }
  }

  /** The prefix alone is such a text. */
  lemma PrefixAloneIsNotParsed(domainOf: string -> Domain, name: string)
    ensures Ensure(domainOf, name, ERR) == ERR && Parse(ERR).None?
  {
    assert IsTrimmed(ERR);
    TrimStartOfTrimmed(ERR);
    assert Trim(ERR) == ERR;
    assert ERR[|ERR|..] == "";
  }
}
