/**
 * Scope normalisation (src/auth/mcp-oauth-scopes.js) and the scope decisions of
 * `authorize` and `consent` (src/auth/mcp-oauth-provider.js).
 */
module McpScopes {
  import opened Options

  const READ := "workspace:read"
  const CLIENT_TASKS := "workspace:client-tasks:write"
  const SERVICE_REPORTS := "workspace:service-reports:publish"
  const RESOURCE_LINKS := "workspace:resource-links:write"

  const DEFAULT_SCOPES := [READ]
  const SUPPORTED := [READ, CLIENT_TASKS, SERVICE_REPORTS, RESOURCE_LINKS]

  function Filter(supported: seq<string>, scopes: seq<string>): seq<string> {
    if supported == [] then []
    else (if supported[0] in scopes then [supported[0]] else []) + Filter(supported[1..], scopes)
  }

  /** The supported scopes among `scopes`, in the supported order; None when a scope is unknown or read is missing. */
  function Normalize(scopes: seq<string>): Option<seq<string>> {
    if scopes == [] || (exists s :: s in scopes && s !in SUPPORTED) || READ !in scopes then None
    else Some(Filter(SUPPORTED, scopes))
  }

  predicate HasWriteScope(scopes: seq<string>) {
    CLIENT_TASKS in scopes || SERVICE_REPORTS in scopes || RESOURCE_LINKS in scopes
  }

  /** `authorize`: no requested scope means the defaults. */
  function Authorize(requested: seq<string>): Option<seq<string>> {
    Normalize(if requested == [] then DEFAULT_SCOPES else requested)
  }

  /** `consent`: the selection, unless it is malformed or exceeds the pending request. */
  function Consent(pending: seq<string>, selected: seq<string>): Option<seq<string>> {
    match Normalize(selected)
    case None => None
    case Some(scopes) => if exists s :: s in scopes && s !in pending then None else Some(scopes)
  }

  predicate Subset(a: seq<string>, b: seq<string>) {
    forall s :: s in a ==> s in b
  }

  lemma {:induction false} FilterMember(supported: seq<string>, scopes: seq<string>, s: string)
    ensures s in Filter(supported, scopes) <==> s in supported && s in scopes
  {
    if supported != [] {
      FilterMember(supported[1..], scopes, s);
      assert supported == [supported[0]] + supported[1..];
    }
  }

  lemma {:induction false} FilterSameSet(supported: seq<string>, a: seq<string>, b: seq<string>)
    requires Subset(a, b) && Subset(b, a)
    ensures Filter(supported, a) == Filter(supported, b)
  {
    if supported != [] { FilterSameSet(supported[1..], a, b); }
  }

  /** Exactly the well-formed requests are accepted, and the result names exactly the same scopes. */
  lemma NormalizeKeepsTheSet(scopes: seq<string>)
    ensures Normalize(scopes).Some? <==> READ in scopes && Subset(scopes, SUPPORTED)
    ensures Normalize(scopes).Some? ==> Subset(Normalize(scopes).value, scopes) && Subset(scopes, Normalize(scopes).value)
  {
    forall s ensures s in Filter(SUPPORTED, scopes) <==> s in SUPPORTED && s in scopes {
      FilterMember(SUPPORTED, scopes, s);
    }
  }

  /** Two requests normalise alike exactly when they name the same scopes, in whatever order or multiplicity. */
  lemma NormalizeIgnoresOrder(a: seq<string>, b: seq<string>)
    requires Normalize(a).Some? && Normalize(b).Some?
    ensures Normalize(a) == Normalize(b) <==> Subset(a, b) && Subset(b, a)
  {
    NormalizeKeepsTheSet(a);
    NormalizeKeepsTheSet(b);
    if Subset(a, b) && Subset(b, a) {
      FilterSameSet(SUPPORTED, a, b);
    }
  }

  lemma NormalizeIsIdempotent(scopes: seq<string>)
    requires Normalize(scopes).Some?
    ensures Normalize(Normalize(scopes).value) == Normalize(scopes)
  {
    NormalizeKeepsTheSet(scopes);
    NormalizeKeepsTheSet(Normalize(scopes).value);
    NormalizeIgnoresOrder(Normalize(scopes).value, scopes);
  }

  /** The four scopes there are, in the order they are stored; an authorization that names none asks to read. */
  lemma FourScopes()
    ensures Normalize(["workspace:resource-links:write", "workspace:service-reports:publish", "workspace:read", "workspace:client-tasks:write"])
            == Some(["workspace:read", "workspace:client-tasks:write", "workspace:service-reports:publish", "workspace:resource-links:write"])
    ensures Authorize([]) == Some(["workspace:read"]) && Normalize([]) == None
  {
    var scopes := ["workspace:resource-links:write", "workspace:service-reports:publish", "workspace:read", "workspace:client-tasks:write"];
    assert scopes[0] == RESOURCE_LINKS && scopes[1] == SERVICE_REPORTS && scopes[2] == READ && scopes[3] == CLIENT_TASKS;
    FilterOfAll(scopes);
    FilterOfRead();
  }

  lemma FilterOfAll(scopes: seq<string>)
    requires READ in scopes && CLIENT_TASKS in scopes && SERVICE_REPORTS in scopes && RESOURCE_LINKS in scopes
    ensures Filter(SUPPORTED, scopes) == SUPPORTED
  {
    assert SUPPORTED[1..] == [CLIENT_TASKS, SERVICE_REPORTS, RESOURCE_LINKS];
    assert SUPPORTED[1..][1..] == [SERVICE_REPORTS, RESOURCE_LINKS] && SUPPORTED[1..][1..][1..] == [RESOURCE_LINKS];
    assert Filter([RESOURCE_LINKS], scopes) == [RESOURCE_LINKS];
    assert Filter([SERVICE_REPORTS, RESOURCE_LINKS], scopes) == [SERVICE_REPORTS, RESOURCE_LINKS];
  }

  lemma FilterOfRead()
    ensures Filter(SUPPORTED, [READ]) == [READ]
  {
    assert READ != CLIENT_TASKS && READ != SERVICE_REPORTS && READ != RESOURCE_LINKS by {
      assert READ[10] == 'r' && CLIENT_TASKS[10] == 'c' && SERVICE_REPORTS[10] == 's' && |RESOURCE_LINKS| != |READ|;
    }
    assert SUPPORTED[1..] == [CLIENT_TASKS, SERVICE_REPORTS, RESOURCE_LINKS];
    assert SUPPORTED[1..][1..] == [SERVICE_REPORTS, RESOURCE_LINKS] && SUPPORTED[1..][1..][1..] == [RESOURCE_LINKS];
    assert Filter([RESOURCE_LINKS], [READ]) == [];
    assert Filter([SERVICE_REPORTS, RESOURCE_LINKS], [READ]) == [];
  }

  /** Writing is whatever an accepted request asks for besides reading. */
  lemma WritingIsAllButReading(scopes: seq<string>)
    requires Normalize(scopes).Some?
    ensures HasWriteScope(scopes) <==> exists s :: s in scopes && s != READ
  {
    NormalizeKeepsTheSet(scopes);
    assert READ != CLIENT_TASKS && READ != SERVICE_REPORTS && READ != RESOURCE_LINKS by {
      assert READ[10] == 'r' && CLIENT_TASKS[10] == 'c' && SERVICE_REPORTS[10] == 's' && |RESOURCE_LINKS| != |READ|;
    }
  }

  /** Consent is given to exactly the well-formed selections within the request. */
  lemma ConsentExactlyWhen(pending: seq<string>, selected: seq<string>)
    ensures Consent(pending, selected).Some? <==> READ in selected && Subset(selected, SUPPORTED) && Subset(selected, pending)
    ensures Consent(pending, selected).Some? ==> Consent(pending, selected) == Normalize(selected)
  {
    NormalizeKeepsTheSet(selected);
    if Normalize(selected).Some? && !Subset(selected, pending) {
      var s :| s in selected && s !in pending;
      assert s in Normalize(selected).value;
    }
  }

  /** What the user granted is never more than what the client asked for, and always includes reading. */
  lemma ConsentNeverWidens(requested: seq<string>, selected: seq<string>)
    requires Authorize(requested).Some?
    requires Consent(Authorize(requested).value, selected).Some?
    ensures var granted := Consent(Authorize(requested).value, selected).value;
            && READ in granted && Subset(granted, selected) && Subset(selected, granted)
            && Subset(granted, if requested == [] then DEFAULT_SCOPES else requested)
            && (HasWriteScope(granted) ==> HasWriteScope(requested))
  {
    NormalizeKeepsTheSet(selected);
    NormalizeKeepsTheSet(if requested == [] then DEFAULT_SCOPES else requested);
  }
}
