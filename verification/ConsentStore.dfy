/** The recipient-consent store's transactions, statement by statement. */
module ConsentStore {
  import opened Schema
  import opened Wrappers
  import opened Database
  import opened Consent
  import Issuance
  import LedgerOps
  import Stores

  class RecipientConsentStore {
    const database: Database

    constructor (database: Database)
      ensures this.database == database
    {
      this.database := database;
    }

    /** Creates the recipient's counter row if there is none and locks it; false when there is no such person. */
    method Lock(recipient: Id, clock: Time) returns (locked: bool)
      modifies database`counters
      ensures database.Snapshot() == Issuance.WithRecipient(old(database.Snapshot()), recipient, clock)
      ensures locked == (recipient in database.counters.recipients)
    {
      Stores.EnsureRecipient(database, recipient, clock);
      return recipient in database.counters.recipients;
    }

    method CancelOutstanding(recipient: Id, actor: Option<Id>, now: Time)
      requires LedgerOps.Linked(database.ledger)
      modifies database`ledger
      ensures database.Snapshot() == CancelTo(old(database.Snapshot()), recipient, actor, now)
    {
      Stores.CancelEach(database, OutstandingTo(database.ledger, recipient, actor), PermissionRevoked, now);
    }

    /** False when the transaction throws. */
    method SetPaused(recipient: Id, paused: bool, now: Time, clock: Time) returns (done: bool)
      requires LedgerOps.Linked(database.ledger)
      modifies database
      ensures var tx := Consent.SetPaused(old(database.Snapshot()), recipient, paused, now, clock);
              if done then tx == Committed(database.Snapshot(), Done)
              else tx.Aborted? && database.Snapshot() == old(database.Snapshot())
    {
      var start := database.Snapshot();
      var locked := Lock(recipient, clock);
      if !locked {
        database.Become(start);
        return false;
      }
      var policies := database.perms.policies;
      database.perms := database.perms.(
        policies := policies[recipient := if recipient in policies then policies[recipient].(paused := paused)
                             else DefaultPolicy(paused)]);
      if paused {
        CancelOutstanding(recipient, None, now);
      }
      return true;
    }

    /** None when the transaction throws. */
    method SetGrant(recipient: Id, actor: Id, granted: bool, now: Time, clock: Time)
        returns (answer: Option<GrantAnswer>)
      requires LedgerOps.Linked(database.ledger)
      modifies database
      ensures var tx := Consent.SetGrant(old(database.Snapshot()), recipient, actor, granted, now, clock);
              if answer.Some? then tx == Committed(database.Snapshot(), answer.value)
              else tx.Aborted? && database.Snapshot() == old(database.Snapshot())
    {
      var start := database.Snapshot();
      var locked := Lock(recipient, clock);
      if !locked {
        database.Become(start);
        return None;
      }
      if recipient !in database.perms.policies {
        database.perms := database.perms.(policies := database.perms.policies[recipient := DefaultPolicy(false)]);
      }
      if granted {
        if !Related(database.perms, recipient, actor) || !ActivePerson(database.Snapshot(), actor) {
          return Some(ConnectionRequired);
        }
        database.perms := database.perms.(grants := database.perms.grants + {(recipient, actor)});
        return Some(Updated);
      }
      database.perms := database.perms.(grants := database.perms.grants - {(recipient, actor)});
      CancelOutstanding(recipient, Some(actor), now);
      return Some(Updated);
    }
  }
}
