/** The request gates of middlewares/AuthMiddleware.js.

    `jwt.verify` with the server's key is not modelled: it is a parameter
    `verify` that either refuses the token or yields the decoded payload
    (possibly null). Calling `next()` is the outcome `Next`; answering through
    `res.status(...).send(...)` is `Respond`. */
module AuthMiddleware {
  import opened Wrappers

  /** What the JWT library reports for a token. */
  datatype Payload = Payload(userId: Option<string>, role: Option<string>)
  datatype Verdict = Invalid | Valid(payload: Option<Payload>)

  /** What a middleware did: passed the request on, or answered it. */
  datatype Action = Next | Respond(status: int, body: string)

  const NotAuthenticated := Respond(401, "You are not authenticated!")
  const TokenNotValid := Respond(403, "Token is not valid!")
  const RoleNotFound := Respond(403, "Role not found!")
  const NoPermission := Respond(403, "You don't have permission to access this resource!")

  // ---------------------------------------------------------------------------
  // verifyToken
  // ---------------------------------------------------------------------------

  /** The decision of verifyToken and, when it passes the request on, the
      user id and role it records: `payload?.userId` and `payload?.role`. */
  datatype Gate = Gate(action: Action, userId: Option<string>, userRole: Option<string>)

  function PayloadUser(payload: Option<Payload>): Option<string> {
    if payload.Some? then payload.value.userId else None
  }

  function PayloadRole(payload: Option<Payload>): Option<string> {
    if payload.Some? then payload.value.role else None
  }

  /** verifyToken on the `jwt` cookie `token`, given the request's current
      `userId` and `userRole` (kept when the request is answered). */
  function VerifyTokenGate(token: Option<string>, verify: string -> Verdict,
                           userId: Option<string>, userRole: Option<string>): (g: Gate)
    ensures !Truthy(token) ==> g == Gate(NotAuthenticated, userId, userRole)
    ensures Truthy(token) && verify(token.value).Invalid? ==> g == Gate(TokenNotValid, userId, userRole)
    ensures g.action == Next <==> Truthy(token) && verify(token.value).Valid?
    ensures g.action == Next ==>
              g.userId == PayloadUser(verify(token.value).payload) &&
              g.userRole == PayloadRole(verify(token.value).payload)
  {
    if !Truthy(token) then Gate(NotAuthenticated, userId, userRole)
    else match verify(token.value)
      case Invalid => Gate(TokenNotValid, userId, userRole)
      case Valid(payload) => Gate(Next, PayloadUser(payload), PayloadRole(payload))
  }

  /** A request without a token is answered 401 whatever the verifier would
      have said: the verifier is not consulted. */
  lemma MissingTokenIgnoresVerifier(token: Option<string>, verify1: string -> Verdict, verify2: string -> Verdict,
                                    userId: Option<string>, userRole: Option<string>)
    requires !Truthy(token)
    ensures VerifyTokenGate(token, verify1, userId, userRole) == VerifyTokenGate(token, verify2, userId, userRole)
    ensures VerifyTokenGate(token, verify1, userId, userRole).action == NotAuthenticated
  {
  }

  /** Whether verifyToken passes a request on depends only on the token and
      the verifier, not on what the request carried before. */
  lemma VerifyTokenIgnoresPriorFields(token: Option<string>, verify: string -> Verdict,
                                      userId1: Option<string>, userRole1: Option<string>,
                                      userId2: Option<string>, userRole2: Option<string>)
    ensures VerifyTokenGate(token, verify, userId1, userRole1).action ==
            VerifyTokenGate(token, verify, userId2, userRole2).action
    ensures VerifyTokenGate(token, verify, userId1, userRole1).action == Next ==>
              VerifyTokenGate(token, verify, userId1, userRole1) == VerifyTokenGate(token, verify, userId2, userRole2)
  {
  }

  /** An Express request, as far as the gates read and write it. */
  class Request {
    const jwtCookie: Option<string>
    var userId: Option<string>
    var userRole: Option<string>

    constructor (jwtCookie: Option<string>)
      ensures this.jwtCookie == jwtCookie && userId == None && userRole == None
    {
      this.jwtCookie := jwtCookie;
      userId := None;
      userRole := None;
    }
  }

  /** verifyToken: answers 401 or 403, or records the payload's user id and
      role on the request and passes it on. */
  method VerifyToken(req: Request, verify: string -> Verdict) returns (action: Action)
    modifies req
    ensures Gate(action, req.userId, req.userRole) ==
            VerifyTokenGate(req.jwtCookie, verify, old(req.userId), old(req.userRole))
  {
    var token := req.jwtCookie;
    if token.None? || token.value == "" {
      return NotAuthenticated;
    }
    var verdict := verify(token.value);
    if verdict.Invalid? {
      return TokenNotValid;
    }
    var payload := verdict.payload;
    req.userId := if payload.Some? then payload.value.userId else None;
    req.userRole := if payload.Some? then payload.value.role else None;
    action := Next;
  }

  // ---------------------------------------------------------------------------
  // checkRole
  // ---------------------------------------------------------------------------

  /** checkRole(allowedRoles) applied to a request whose role is `userRole`. */
  function CheckRole(allowedRoles: seq<string>, userRole: Option<string>): (a: Action)
    ensures !Truthy(userRole) ==> a == RoleNotFound
    ensures a == Next <==> Truthy(userRole) && userRole.value in allowedRoles
    ensures a != Next ==> a.status == 403
    ensures Truthy(userRole) && userRole.value !in allowedRoles ==> a == NoPermission
  {
    if !Truthy(userRole) then RoleNotFound
    else if userRole.value in allowedRoles then Next
    else NoPermission
  }

  /** Without a role the answer is the same whatever roles are allowed. */
  lemma MissingRoleIgnoresAllowed(allowed1: seq<string>, allowed2: seq<string>, userRole: Option<string>)
    requires !Truthy(userRole)
    ensures CheckRole(allowed1, userRole) == CheckRole(allowed2, userRole) == RoleNotFound
  {
  }

  /** Allowing more roles never turns a request away that was let through. */
  lemma CheckRoleMonotone(allowed1: seq<string>, allowed2: seq<string>, userRole: Option<string>)
    requires forall r :: r in allowed1 ==> r in allowed2
    ensures CheckRole(allowed1, userRole) == Next ==> CheckRole(allowed2, userRole) == Next
  {
  }

  // ---------------------------------------------------------------------------
  // verifyToken followed by checkRole
  // ---------------------------------------------------------------------------

  /** A route that chains verifyToken and checkRole(allowedRoles): the first
      answer given, or Next when both pass the request on. */
  function Guarded(token: Option<string>, verify: string -> Verdict, allowedRoles: seq<string>,
                   userId: Option<string>, userRole: Option<string>): Action
  {
    var g := VerifyTokenGate(token, verify, userId, userRole);
    if g.action != Next then g.action else CheckRole(allowedRoles, g.userRole)
  }

  /** The guarded route is reached exactly when the token is present and
      valid and its payload carries an allowed, non-empty role; the role the
      request carried before plays no part. */
  lemma GuardedReachesRoute(token: Option<string>, verify: string -> Verdict, allowedRoles: seq<string>,
                            userId: Option<string>, userRole: Option<string>)
    ensures Guarded(token, verify, allowedRoles, userId, userRole) == Next <==>
              && Truthy(token)
              && verify(token.value).Valid?
              && Truthy(PayloadRole(verify(token.value).payload))
              && PayloadRole(verify(token.value).payload).value in allowedRoles
  {
    var g := VerifyTokenGate(token, verify, userId, userRole);
    if g.action == Next {
      assert g.userRole == PayloadRole(verify(token.value).payload);
    }
  }
}
