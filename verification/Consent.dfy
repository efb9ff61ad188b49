/** The recipient's own controls, pausing and granting, as functions of the database. */
module Consent {
  import opened Schema
  import opened Wrappers
  import Issuance
  import LedgerOps

  datatype GrantAnswer = Updated | ConnectionRequired

  /** Outstanding commands to a recipient, from everyone or from one actor. */
  function OutstandingTo(l: Ledger, recipient: Id, actor: Option<Id>): set<Id> {
    set c | c in l.commands && l.commands[c].recipient == recipient
            && (actor.None? || l.commands[c].actor == actor.value) && Outstanding(l.commands[c])
  }

  function DefaultPolicy(paused: bool): Policy {
    Policy(Named, ReadyParticipantsOnly, paused, 0, 60)
  }

  function WithPolicy(db: Db, recipient: Id): Db {
    if recipient in db.perms.policies then db else SetPolicies(db, db.perms.policies[recipient := DefaultPolicy(false)])
  }

  ghost function CancelTo(db: Db, recipient: Id, actor: Option<Id>, now: Time): Db {
    db.(ledger := LedgerOps.CancelAll(db.ledger, OutstandingTo(db.ledger, recipient, actor), PermissionRevoked, now))
  }

  ghost function SetPaused(db: Db, recipient: Id, paused: bool, now: Time, clock: Time): Tx<Ack> {
    var locked := Issuance.WithRecipient(db, recipient, clock);
    if recipient !in locked.counters.recipients then Aborted
    else
      var row := if recipient in db.perms.policies then db.perms.policies[recipient].(paused := paused)
                 else DefaultPolicy(paused);
      var next := SetPolicies(locked, db.perms.policies[recipient := row]);
      Committed(if paused then CancelTo(next, recipient, None, now) else next, Done)
  }

  ghost function SetGrant(db: Db, recipient: Id, actor: Id, granted: bool, now: Time, clock: Time): Tx<GrantAnswer> {
    var locked := Issuance.WithRecipient(db, recipient, clock);
    if recipient !in locked.counters.recipients then Aborted
    else
      var next := WithPolicy(locked, recipient);
      if granted then
        if Related(next.perms, recipient, actor) && ActivePerson(next, actor) then
          Committed(SetGrants(next, next.perms.grants + {(recipient, actor)}), Updated)
        else Committed(next, ConnectionRequired)
      else
        Committed(CancelTo(SetGrants(next, next.perms.grants - {(recipient, actor)}), recipient, Some(actor), now),
                  Updated)
  }
}
