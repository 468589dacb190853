/**
 * The access policy the gates implement, stated independently of the
 * early-return code: a route declares a sensitivity class, the policy
 * yields an allow/deny decision with a denial reason, and the boundary turns
 * a reason into the response the server sends.
 */
module AccessPolicy {
  import opened Wrappers
  import opened Schema
  import opened Gates

  /** `Public`: no gate runs before the handler; `StandardGated`: `checkAccess`; `AdminOnly`: `requireAdmin`. */
  datatype SensitivityClass = Public | StandardGated | AdminOnly

  datatype DenialReason = Unauthenticated | InsufficientRole | AccountBlocked | SubscriptionExpired

  datatype AccessDecision = Allowed | Denied(reason: DenialReason)

  /** The class of each group of the route table: the auth routes are public. */
  function GroupClass(group: string): SensitivityClass {
    if group in {"medications", "appointments", "panic"} then StandardGated
    else if group == "admin" then AdminOnly
    else Public
  }

  /** The policy: what each class demands of the identity at time `now`. */
  function Evaluate(identity: Option<User>, sensitivity: SensitivityClass, now: int): AccessDecision {
    match sensitivity
    case Public => Allowed
    case AdminOnly =>
      if identity.None? then Denied(Unauthenticated)
      else if identity.value.role == AdminRole then Allowed
      else Denied(InsufficientRole)
    case StandardGated =>
      if identity.None? then Denied(Unauthenticated)
      else if identity.value.role == AdminRole then Allowed
      else if identity.value.isBlocked then Denied(AccountBlocked)
      else if now > identity.value.subscriptionEndDate then Denied(SubscriptionExpired)
      else Allowed
  }

  /** The boundary mapping from a decision to what the server does. */
  function Render(d: AccessDecision): Decision {
    match d
    case Allowed => Next
    case Denied(Unauthenticated) => Respond(SendStatus(401))
    case Denied(InsufficientRole) => Respond(SendStatus(403))
    case Denied(AccountBlocked) => Respond(JsonMessage(403, BlockedMessage))
    case Denied(SubscriptionExpired) => Respond(JsonMessage(403, ExpiredMessage))
  }

  /** Distinct decisions are rendered as distinct responses, so no denial reason is lost at the boundary. */
  lemma RenderInjective(d1: AccessDecision, d2: AccessDecision)
    ensures Render(d1) == Render(d2) ==> d1 == d2
  {
  }

  /** `checkAccess` is the standard-gated policy and `requireAdmin` the admin-only policy, for every identity and time. */
  lemma GatesImplementPolicy(identity: Option<User>, now: int)
    ensures CheckAccess(identity, now) == Render(Evaluate(identity, StandardGated, now))
    ensures RequireAdmin(identity) == Render(Evaluate(identity, AdminOnly, now))
  {
  }

  /** Admin-only is the stricter class: whoever passes it passes the standard gate too. */
  lemma AdminOnlyImpliesStandard(identity: Option<User>, now: int)
    ensures Evaluate(identity, AdminOnly, now) == Allowed ==> Evaluate(identity, StandardGated, now) == Allowed
  {
  }
}
