/** Statements that several stores share. */
module Stores {
  import opened Schema
  import opened Wrappers
  import opened Database
  import Issuance
  import LedgerOps

  method Least(ids: set<Id>) returns (least: Id)
    requires ids != {}
    ensures least in ids && forall c :: c in ids ==> least <= c
  {
    least :| least in ids;
    var rest := ids - {least};
    while rest != {}
      invariant rest <= ids && least in ids
      invariant forall c :: c in ids ==> c in rest || least <= c
    {
      var c :| c in rest;
      if c < least {
        least := c;
      }
      rest := rest - {c};
    }
  }

  /** A recipient's counter row, created if the person has none. */
  method EnsureRecipient(database: Database, recipient: Id, clock: Time)
    modifies database`counters
    ensures database.Snapshot() == Issuance.WithRecipient(old(database.Snapshot()), recipient, clock)
  {
    var recipients := database.counters.recipients;
    if recipient in database.dir.people && recipient !in recipients {
      database.counters := database.counters.(recipients := recipients[recipient := RecipientState(clock, 0, None, 0)]);
    }
  }

  /** One lifecycle event for a request. */
  method InsertEvent(database: Database, request: Id, event: LifecycleEvent)
    modifies database`ledger
    ensures database.ledger == LedgerOps.Append(old(database.ledger), request, [event])
  {
    var events := database.ledger.events;
    var earlier := if request in events then events[request] else [];
    database.ledger := database.ledger.(events := events[request := earlier + [event]]);
  }

  /** The loop of every cancelling transaction: the selected commands in identifier order, each with its event. */
  method CancelEach(database: Database, selected: set<Id>, why: CancelReason, now: Time)
    requires LedgerOps.Linked(database.ledger) && selected <= database.ledger.commands.Keys
    modifies database`ledger
    ensures database.ledger == LedgerOps.CancelAll(old(database.ledger), selected, why, now)
  {
    ghost var start := database.ledger;
    var pending := selected;
    LedgerOps.CancelNone(start, why, now);
    assert selected - pending == {};
    while pending != {}
      invariant pending <= selected
      invariant database.ledger == LedgerOps.CancelAll(start, selected - pending, why, now)
    {
      var c := Least(pending);
      ghost var done := selected - pending;
      LedgerOps.CancelAllStep(start, done, c, why, now);
      var commands := database.ledger.commands;
      var row := commands[c];
      database.ledger := database.ledger.(commands :=
                                          commands[c := row.(status := Cancelled, cancellation := Some(why))]);
      InsertEvent(database, row.request, LifecycleEvent(Cancelled, Some(CancelledBecause(why)), now));
      pending := pending - {c};
      assert selected - pending == done + {c};
    }
    assert selected - pending == selected;
  }
}
