/**
 * The two middlewares of server/routes.ts that stand in front of every
 * resource route. Each decides, from the session's user (absent when the
 * request is not authenticated) and the current time, whether the request
 * continues to its handler or is answered at once.
 */
module Gates {
  import opened Wrappers
  import opened Schema

  /** A response sent by a gate: a bare status (`sendStatus`) or a status with a JSON `{message}`. */
  datatype Response = SendStatus(code: int) | JsonMessage(code: int, message: string)

  /** The gate's outcome: call `next()`, or answer the request with a response. */
  datatype Decision = Next | Respond(response: Response)

  const BlockedMessage := "Sua conta está bloqueada pelo administrador."
  const ExpiredMessage := "Assinatura expirada. Contate o admin."

  const Unauthorized := Respond(SendStatus(401))
  const Forbidden := Respond(SendStatus(403))
  const Blocked := Respond(JsonMessage(403, BlockedMessage))
  const Expired := Respond(JsonMessage(403, ExpiredMessage))

  predicate IsAdmin(u: User) {
    u.role == AdminRole
  }

  /**
   * `checkAccess`: an administrator always passes; anyone else passes only if
   * not blocked and the subscription has not ended (`now` not after the end date).
   */
  function CheckAccess(user: Option<User>, now: int): (d: Decision)
    ensures d == Next <==>
      user.Some? && (IsAdmin(user.value) || (!user.value.isBlocked && now <= user.value.subscriptionEndDate))
    ensures d in {Next, Unauthorized, Blocked, Expired}
  {
    if user.None? then Unauthorized
    else if IsAdmin(user.value) then Next
    else if user.value.isBlocked then Blocked
    else if now > user.value.subscriptionEndDate then Expired
    else Next
  }

  /** `requireAdmin`: only an authenticated administrator passes. */
  function RequireAdmin(user: Option<User>): (d: Decision)
    ensures d == Next <==> user.Some? && IsAdmin(user.value)
    ensures d in {Next, Unauthorized, Forbidden}
  {
    if user.None? then Unauthorized
    else if !IsAdmin(user.value) then Forbidden
    else Next
  }

  // ---------------------------------------------------------------------
  // Properties of the gates

  lemma UnauthenticatedIsRejected(now: int)
    ensures CheckAccess(None, now) == Unauthorized
    ensures RequireAdmin(None) == Unauthorized
  {
  }

  /** An administrator passes `checkAccess` whatever the block flag and subscription say. */
  lemma AdminBypassesAccessChecks(u: User, now: int)
    requires IsAdmin(u)
    ensures CheckAccess(Some(u), now) == Next
    ensures forall b: bool, end: int :: CheckAccess(Some(u.(isBlocked := b, subscriptionEndDate := end)), now) == Next
  {
  }

  /** The block flag is checked before the subscription: a blocked user is told so even with time left. */
  lemma BlockedBeforeExpiry(u: User, now: int)
    requires !IsAdmin(u) && u.isBlocked
    ensures CheckAccess(Some(u), now) == Blocked
  {
  }

  /** An unblocked non-administrator is refused as expired exactly when `now` is past the end; the end instant itself still passes. */
  lemma ExpiryIsStrict(u: User, now: int)
    requires !IsAdmin(u) && !u.isBlocked
    ensures CheckAccess(Some(u), now) == Expired <==> now > u.subscriptionEndDate
    ensures CheckAccess(Some(u), now) == Next <==> now <= u.subscriptionEndDate
    ensures CheckAccess(Some(u), u.subscriptionEndDate) == Next
  {
  }

  /** Access once lost by expiry is not regained by waiting: refusals persist forward in time. */
  lemma AccessOnlyExpiresForward(user: Option<User>, earlier: int, later: int)
    requires earlier <= later
    ensures CheckAccess(user, later) == Next ==> CheckAccess(user, earlier) == Next
  {
  }

  /** `requireAdmin` refuses every authenticated non-administrator, and passes a blocked or expired administrator. */
  lemma RequireAdminIgnoresAccount(u: User)
    ensures !IsAdmin(u) ==> RequireAdmin(Some(u)) == Forbidden
    ensures IsAdmin(u) ==> RequireAdmin(Some(u.(isBlocked := true))) == Next
    ensures IsAdmin(u) ==> forall end: int :: RequireAdmin(Some(u.(subscriptionEndDate := end))) == Next
  {
  }
}
