/** The pure rules: exposure ceilings, authorization and the lifecycle graph. */
module Domain {
  import opened Schema
  import opened Wrappers

  const MAX_SAFE_INTEGER: int := 0x1f_ffff_ffff_ffff

  datatype Ceilings = Ceilings(recipientSelected: int, planEntitlement: int, physicalSafety: int)

  predicate ValidCeiling(n: int) {
    0 <= n <= MAX_SAFE_INTEGER
  }

  /** None stands for the RangeError. */
  function EffectiveExposureLimit(c: Ceilings): (limit: Option<nat>)
    ensures limit.None? <==>
            !(ValidCeiling(c.recipientSelected) && ValidCeiling(c.planEntitlement) && ValidCeiling(c.physicalSafety))
    ensures limit.Some? ==>
              && limit.value <= c.recipientSelected && limit.value <= c.planEntitlement
                  && limit.value <= c.physicalSafety
              && limit.value in {c.recipientSelected, c.planEntitlement, c.physicalSafety}
  {
    if !ValidCeiling(c.recipientSelected) || !ValidCeiling(c.planEntitlement) || !ValidCeiling(c.physicalSafety) then
      None
    else
      var m := if c.recipientSelected < c.planEntitlement then c.recipientSelected else c.planEntitlement;
      Some(if c.physicalSafety < m then c.physicalSafety else m)
  }

  datatype RequestKind = Standard | Reply

  datatype Facts = Facts(
    actorAuthenticated: bool, actorRestricted: bool, actorParticipation: Participation,
    actorAvailability: Availability, scope: Scope, eligibility: Eligibility,
    relationshipActive: bool, grantActive: bool, blocked: bool, recipientPaused: bool,
    quietHoursActive: bool, cooldownUntil: Option<Time>, recipientAccepted: nat,
    senderAccepted: nat, senderLimit: nat, ceilings: Ceilings, deviceEligible: bool,
    deliveryEnabled: bool, kind: RequestKind, ejectBackValid: bool)

  datatype Decision = Allow(limit: nat) | Deny(reason: RejectionReason) | OutOfRange

  predicate HasAccess(f: Facts) {
    if f.kind == Reply then f.ejectBackValid
    else match f.scope
      case Named => f.relationshipActive && f.grantActive
      case Connected => f.relationshipActive
      case AllAuthenticated => true
  }

  predicate SenderIsEligible(f: Facts) {
    f.eligibility == AuthenticatedAccounts
    || (f.actorParticipation == ParticipationReady && f.actorAvailability == Available)
  }

  function AuthorizeEject(f: Facts, now: Time): (d: Decision)
    ensures d.Allow? ==> f.recipientAccepted < d.limit && f.senderAccepted < f.senderLimit
  {
    if !f.actorAuthenticated || f.actorRestricted then Deny(ActorRestricted)
    else if f.blocked || !HasAccess(f) || !SenderIsEligible(f) then Deny(PermissionRequired)
    else if f.recipientPaused then Deny(RecipientPaused)
    else if f.quietHoursActive then Deny(QuietHoursActive)
    else if f.cooldownUntil.Some? && now < f.cooldownUntil.value then Deny(CooldownActive)
    else match EffectiveExposureLimit(f.ceilings)
      case None => OutOfRange
      case Some(limit) =>
        if f.recipientAccepted >= limit || f.senderAccepted >= f.senderLimit then Deny(RateLimited)
        else if !f.deliveryEnabled || !f.deviceEligible then Deny(DeviceUnavailable)
        else Allow(limit)
  }

  /** The condition behind each reason, taken alone. */
  predicate Blocks(f: Facts, now: Time, reason: RejectionReason) {
    match reason
    case ActorRestricted => !f.actorAuthenticated || f.actorRestricted
    case PermissionRequired =>
      || f.blocked
      || (f.kind == Reply && !f.ejectBackValid)
      || (f.kind == Standard && f.scope == Named && !(f.relationshipActive && f.grantActive))
      || (f.kind == Standard && f.scope == Connected && !f.relationshipActive)
      || (f.eligibility == ReadyParticipantsOnly
          && !(f.actorParticipation == ParticipationReady && f.actorAvailability == Available))
    case RecipientPaused => f.recipientPaused
    case QuietHoursActive => f.quietHoursActive
    case CooldownActive => f.cooldownUntil.Some? && now < f.cooldownUntil.value
    case RateLimited =>
      || f.recipientAccepted >= f.ceilings.recipientSelected || f.recipientAccepted >= f.ceilings.planEntitlement
      || f.recipientAccepted >= f.ceilings.physicalSafety || f.senderAccepted >= f.senderLimit
    case DeviceUnavailable => !f.deliveryEnabled || !f.deviceEligible
  }

  function Rank(reason: RejectionReason): nat {
    match reason
    case ActorRestricted => 0
    case PermissionRequired => 1
    case RecipientPaused => 2
    case QuietHoursActive => 3
    case CooldownActive => 4
    case RateLimited => 5
    case DeviceUnavailable => 6
  }

  /** A request is denied for the first reason that blocks it and allowed exactly when none does; ceilings out of
      range are an error, but only for requests that no earlier reason denies. */
  lemma DeniedForFirstReason(f: Facts, now: Time)
    ensures var d, inRange := AuthorizeEject(f, now), EffectiveExposureLimit(f.ceilings).Some?;
            && (d.Allow? <==> inRange && forall reason :: !Blocks(f, now, reason))
            && (d.Deny? ==> Blocks(f, now, d.reason)
                            && forall reason :: Blocks(f, now, reason) ==> Rank(d.reason) <= Rank(reason))
            && (d.OutOfRange? <==> !inRange && forall reason :: Blocks(f, now, reason) ==> Rank(reason) >= 5)
  {
    var d := AuthorizeEject(f, now);
    if d.Deny? {
      assert Blocks(f, now, d.reason);
    } else {
      assert !Blocks(f, now, ActorRestricted) && !Blocks(f, now, CooldownActive);
      assert d.OutOfRange? || (!Blocks(f, now, RateLimited) && !Blocks(f, now, DeviceUnavailable));
    }
  }

  /** The transition table of the lifecycle. */
  function Successors(s: LifecycleState): set<LifecycleState> {
    match s
    case Requested => {Rejected, Authorized}
    case Authorized => {Queued, Cancelled}
    case Queued => {Dispatched, Expired, Cancelled}
    case Dispatched => {Dispatched, Delivered, Expired, Cancelled}
    case Delivered => {RejectedByAgent, Attempted}
    case Attempted => {Failed, OutcomeUnknown}
    case _ => {}
  }

  predicate CanTransition(from: LifecycleState, to: LifecycleState) {
    to in Successors(from)
  }

  predicate Terminal(s: LifecycleState) {
    Successors(s) == {}
  }
}
