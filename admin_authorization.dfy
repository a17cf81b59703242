/**
 * The admin authorization interceptor: before an administrative call reaches the service, it finds the
 * roles allowed for the call, grants the call when one of them is the anonymous role or the caller holds
 * one of them, and otherwise rejects the call without invoking the service.
 *
 * The four annotation lookups are inputs, the authorization service's role query is a given predicate,
 * the service call a given function, and audit logging an optional trace of events.
 */
module AdminAuthorization {
  import opened Wrappers
  import opened Strings

  /** A @RolesAllowed annotation; its value may be null. */
  datatype RolesAllowed = RolesAllowed(value: Option<seq<string>>)

  /** The @RolesAllowed annotations (or their absence) of the four places the interceptor looks. */
  datatype AnnotationSources = AnnotationSources(
    serviceMethod: Option<RolesAllowed>,
    interfaceMethod: Option<RolesAllowed>,
    serviceClass: Option<RolesAllowed>,
    interfaceClass: Option<RolesAllowed>)

  /** The caller's session: its user name and session id. */
  datatype SessionToken = SessionToken(userName: string, sessionId: string)

  /** Audit log entries: the request, and a grant through the caller's role. */
  datatype AuditEvent = AuditRequest(parts: seq<string>) | AuditGranted(parts: seq<string>)

  /** What the service method did: returned a value or threw. */
  datatype ServiceResult<V, X> = Returned(value: V) | Raised(error: X)

  /** How an intercepted call ends. */
  datatype Outcome<V, X> =
    | RolesUndetermined                          // the runtime error for a method without roles
    | NotAuthorized(messageParts: seq<string>)   // the authorization error
    | Delegated(result: ServiceResult<V, X>)     // the service's own result or exception, unwrapped

  /** The first annotation found: service method, interface method, service class, interface class. */
  function FirstAnnotation(sources: AnnotationSources): (found: Option<RolesAllowed>)
    ensures found.None? <==>
      sources.serviceMethod.None? && sources.interfaceMethod.None? && sources.serviceClass.None? && sources.interfaceClass.None?
    ensures sources.serviceMethod.Some? ==> found == sources.serviceMethod
    ensures sources.serviceMethod.None? && sources.interfaceMethod.Some? ==> found == sources.interfaceMethod
    ensures sources.serviceMethod.None? && sources.interfaceMethod.None? && sources.serviceClass.Some? ==> found == sources.serviceClass
    ensures found.Some? ==> found in {sources.serviceMethod, sources.interfaceMethod, sources.serviceClass, sources.interfaceClass}
  {
    if sources.serviceMethod.Some? then sources.serviceMethod
    else if sources.interfaceMethod.Some? then sources.interfaceMethod
    else if sources.serviceClass.Some? then sources.serviceClass
    else sources.interfaceClass
  }

  /** Arrays.toString of the role names: `[a, b]`. */
  function RolesText(roles: seq<string>): string
  {
    "[" + Join(roles, ", ") + "]"
  }

  /** buildAuditMessage: user name, session id, the required roles' text and the method name, in that order. */
  function BuildAuditMessage(token: SessionToken, requiredRoleName: string, methodName: string): seq<string>
  {
    [token.userName, token.sessionId, requiredRoleName, methodName]
  }

  /** A role lets the caller in when it is the anonymous role (in any case) or the caller holds it. */
  predicate Grants(role: string, anonymous: string, isCallerInRole: string -> bool)
  {
    EqualsIgnoreCase(anonymous, role) || isCallerInRole(role)
  }

  /** The call is authorized when some listed role lets the caller in. */
  predicate Authorized(roles: seq<string>, anonymous: string, isCallerInRole: string -> bool)
  {
    exists i :: 0 <= i < |roles| && Grants(roles[i], anonymous, isCallerInRole)
  }

  /**
   * The roles the caller is queried for, in order: the scan stops before querying an anonymous role and
   * right after the first role the caller holds.
   */
  function QueriedRoles(roles: seq<string>, anonymous: string, isCallerInRole: string -> bool): seq<string>
  {
    if roles == [] then []
    else if EqualsIgnoreCase(anonymous, roles[0]) then []
    else if isCallerInRole(roles[0]) then [roles[0]]
    else [roles[0]] + QueriedRoles(roles[1..], anonymous, isCallerInRole)
  }

  /** The call was granted by the role query (rather than by the anonymous role). */
  predicate GrantedByQuery(queried: seq<string>, isCallerInRole: string -> bool)
  {
    queried != [] && isCallerInRole(queried[|queried| - 1])
  }

  /** The roles scanned so far all failed: the scan's queries are those roles followed by the rest of the scan. */
  lemma {:induction false} QueriedAfterMisses(roles: seq<string>, i: nat, anonymous: string, isCallerInRole: string -> bool)
    requires i <= |roles|
    requires forall j :: 0 <= j < i ==> !Grants(roles[j], anonymous, isCallerInRole)
    ensures QueriedRoles(roles, anonymous, isCallerInRole) == roles[..i] + QueriedRoles(roles[i..], anonymous, isCallerInRole)
  {
    if i > 0 {
      QueriedAfterMisses(roles[1..], i - 1, anonymous, isCallerInRole);
      assert roles[1..][i - 1..] == roles[i..];
      assert roles[..i] == [roles[0]] + roles[1..][..i - 1];
    }
  }

  /**
   * The role scan: the queried roles are a prefix of the list, never include an anonymous role, all but
   * the last were refused, a scan that stops before the end without a granted query stops on an anonymous
   * role, and the call is authorized exactly when the scan stopped early or its last query succeeded.
   */
  lemma {:induction false} RoleScan(roles: seq<string>, anonymous: string, isCallerInRole: string -> bool)
    ensures var q := QueriedRoles(roles, anonymous, isCallerInRole);
      && |q| <= |roles| && q == roles[..|q|]
      && (forall j :: 0 <= j < |q| ==> !EqualsIgnoreCase(anonymous, q[j]))
      && (forall j :: 0 <= j < |q| - 1 ==> !isCallerInRole(q[j]))
      && (|q| < |roles| && !GrantedByQuery(q, isCallerInRole) ==> EqualsIgnoreCase(anonymous, roles[|q|]))
      && (Authorized(roles, anonymous, isCallerInRole) <==> |q| < |roles| || GrantedByQuery(q, isCallerInRole))
  {
    if roles != [] {
      RoleScan(roles[1..], anonymous, isCallerInRole);
      var q := QueriedRoles(roles, anonymous, isCallerInRole);
      var rest := QueriedRoles(roles[1..], anonymous, isCallerInRole);
      if Grants(roles[0], anonymous, isCallerInRole) {
        assert Authorized(roles, anonymous, isCallerInRole);
      } else {
        assert q == [roles[0]] + rest;
        assert roles == [roles[0]] + roles[1..];
        if Authorized(roles[1..], anonymous, isCallerInRole) {
          var k :| 0 <= k < |roles[1..]| && Grants(roles[1..][k], anonymous, isCallerInRole);
          assert Grants(roles[k + 1], anonymous, isCallerInRole);
        }
        if Authorized(roles, anonymous, isCallerInRole) {
          var k :| 0 <= k < |roles| && Grants(roles[k], anonymous, isCallerInRole);
          assert k > 0 && Grants(roles[1..][k - 1], anonymous, isCallerInRole);
        }
      }
    }
  }

  /**
   * invoke: find the allowed roles (a runtime error when there are none), audit the request when audit
   * logging is on, scan the roles, and either reject the call with the audit message or call the service
   * with the same arguments and hand back its result or exception unchanged.
   */
  method Invoke<A, V, X>(
    sources: AnnotationSources,
    token: SessionToken,
    methodName: string,
    args: A,
    anonymous: string,
    isCallerInRole: string -> bool,
    auditEnabled: bool,
    service: A -> ServiceResult<V, X>)
    returns (outcome: Outcome<V, X>, queried: seq<string>, audit: seq<AuditEvent>, calls: seq<A>)
    ensures outcome.RolesUndetermined? <==>
      FirstAnnotation(sources).None? || FirstAnnotation(sources).value.value.None?
    ensures outcome.RolesUndetermined? ==> queried == [] && audit == [] && calls == []
    ensures !outcome.RolesUndetermined? ==>
      var roles := FirstAnnotation(sources).value.value.value;
      var parts := BuildAuditMessage(token, RolesText(roles), methodName);
      && queried == QueriedRoles(roles, anonymous, isCallerInRole)
      && (Authorized(roles, anonymous, isCallerInRole) ==> outcome == Delegated(service(args)) && calls == [args])
      && (!Authorized(roles, anonymous, isCallerInRole) ==> outcome == NotAuthorized(parts) && calls == [])
      && audit == if auditEnabled then [AuditRequest(parts)] + (if GrantedByQuery(queried, isCallerInRole) then [AuditGranted(parts)] else [])
                  else []
  {
    queried, audit, calls := [], [], [];
    var allowed := sources.serviceMethod;
    if allowed.None? {
      allowed := sources.interfaceMethod;
      if allowed.None? {
        allowed := sources.serviceClass;
        if allowed.None? {
          allowed := sources.interfaceClass;
        }
      }
    }
    if allowed.None? || allowed.value.value.None? {
      return RolesUndetermined, queried, audit, calls;
    }
    var roles := allowed.value.value.value;

    var authorized := false;
    var msgWillBeRecorded := auditEnabled;
    var msgParts: Option<seq<string>> := None;
    if msgWillBeRecorded {
      msgParts := Some(BuildAuditMessage(token, RolesText(roles), methodName));
      audit := audit + [AuditRequest(msgParts.value)];
    }
    ghost var parts := BuildAuditMessage(token, RolesText(roles), methodName);

    var i := 0;
    while i < |roles|
      invariant 0 <= i <= |roles|
      invariant !authorized
      invariant queried == roles[..i]
      invariant forall j :: 0 <= j < i ==> !Grants(roles[j], anonymous, isCallerInRole)
      invariant msgParts == if auditEnabled then Some(parts) else None
      invariant audit == if auditEnabled then [AuditRequest(parts)] else []
    {
      var requiredRoleName := roles[i];
      if EqualsIgnoreCase(anonymous, requiredRoleName) {
        authorized := true;
        break;
      }
      queried := queried + [requiredRoleName];
      if isCallerInRole(requiredRoleName) {
        authorized := true;
        if msgWillBeRecorded {
          audit := audit + [AuditGranted(msgParts.value)];
        }
        break;
      }
      i := i + 1;
    }
    QueriedAfterMisses(roles, i, anonymous, isCallerInRole);
    RoleScan(roles, anonymous, isCallerInRole);
    if i < |roles| {
      assert roles[i..] == [roles[i]] + roles[i + 1..];
      assert authorized && Authorized(roles, anonymous, isCallerInRole);
    } else {
      assert roles[..i] == roles && roles[i..] == [];
    }

    if !authorized {
      if msgParts.None? {
        msgParts := Some(BuildAuditMessage(token, RolesText(roles), methodName));
      }
      return NotAuthorized(msgParts.value), queried, audit, calls;
    }
    calls := calls + [args];
    outcome := Delegated(service(args));
  }
}
