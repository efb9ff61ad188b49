/** The relationship store's transactions, statement by statement. */
module RelationshipStore {
  import opened Schema
  import opened Wrappers
  import opened Database
  import opened Relationships
  import ConsentStore
  import LedgerOps
  import Retention
  import Stores

  predicate Stale(invitations: map<Id, Invitation>, i: Id, before: Time) {
    i in invitations && StaleAt(invitations[i]) < before
  }

  predicate StalerThan(invitations: map<Id, Invitation>, i: Id, j: Id)
    requires i in invitations && j in invitations
  {
    StaleAt(invitations[i]) < StaleAt(invitations[j])
    || (StaleAt(invitations[i]) == StaleAt(invitations[j]) && i < j)
  }

  /** The cleanup deletes the stalest rows that nobody holds, and leaves one only when the limit is reached. */
  ghost predicate Sweeps(invitations: map<Id, Invitation>, before: Time, limit: nat, held: set<Id>, deleted: set<Id>) {
    && CleanupAllowed(invitations, before, limit, deleted)
    && (forall d, s :: d in deleted && Stale(invitations, s, before) && s !in held && s !in deleted
                       ==> StalerThan(invitations, d, s))
    && (|deleted| < limit ==> forall s :: Stale(invitations, s, before) ==> s in held || s in deleted)
  }

  method Stalest(invitations: map<Id, Invitation>, ids: set<Id>) returns (i: Id)
    requires ids != {} && ids <= invitations.Keys
    ensures i in ids && forall j :: j in ids && j != i ==> StalerThan(invitations, i, j)
  {
    i :| i in ids;
    var rest := ids - {i};
    while rest != {}
      invariant rest <= ids && i in ids
      invariant forall j :: j in ids ==> j in rest || j == i || StalerThan(invitations, i, j)
    {
      var j :| j in rest;
      if StalerThan(invitations, j, i) {
        i := j;
      }
      rest := rest - {j};
    }
  }

  /** The stalest rows, at most `limit` of them, that nobody holds. */
  method SelectStale(invitations: map<Id, Invitation>, before: Time, limit: nat, held: set<Id>)
    returns (selected: set<Id>)
    ensures Sweeps(invitations, before, limit, held, selected)
  {
    var rest := set s | s in invitations && Stale(invitations, s, before) && s !in held;
    selected := {};
    while rest != {} && |selected| < limit
      invariant |selected| <= limit && rest <= invitations.Keys
      invariant forall s :: s in rest ==> Stale(invitations, s, before)
      invariant forall s :: s in selected ==> Stale(invitations, s, before)
      invariant forall s :: Stale(invitations, s, before) ==> s in held || s in rest || s in selected
      invariant forall d, s :: d in selected && s in rest ==> StalerThan(invitations, d, s)
      decreases rest
    {
      var i := Stalest(invitations, rest);
      var chosen := selected + {i};
      assert |chosen| <= |selected| + 1;
      selected, rest := chosen, rest - {i};
    }
  }

  class RelationshipStore {
    const database: Database

    constructor (database: Database)
      ensures this.database == database
    {
      this.database := database;
    }

    /** Deletes the stalest rows first, up to the limit, skipping rows that other transactions hold. */
    method CleanupInTransaction(before: Time, limit: nat, held: set<Id>) returns (deleted: set<Id>)
      modifies database`perms
      ensures Sweeps(old(database.perms.invitations), before, limit, held, deleted)
      ensures database.perms == old(database.perms).(invitations := old(database.perms.invitations) - deleted)
    {
      var invitations := database.perms.invitations;
      deleted := SelectStale(invitations, before, limit, held);
      database.perms := database.perms.(invitations := invitations - deleted);
    }

    /** The scheduled cleanup accepts limits from 1 to 500 and throws on any other. */
    method CleanupInvitations(before: Time, limit: int, held: set<Id>) returns (count: Option<nat>, deleted: set<Id>)
      modifies database`perms
      ensures count.Some? <==> 1 <= limit <= 500
      ensures if count.Some? then
                Sweeps(old(database.perms.invitations), before, limit, held, deleted)
                && Committed(database.Snapshot(), count.value) == Cleanup(old(database.Snapshot()), deleted)
              else deleted == {} && database.Snapshot() == old(database.Snapshot())
    {
      if !ValidLimit(limit) {
        return None, {};
      }
      deleted := CleanupInTransaction(before, limit, held);
      return Some(|deleted|), deleted;
    }

    /** None when the transaction throws. */
    method CreateInvitation(id: Id, inviter: Id, digest: Digest, now: Time, held: set<Id>)
      returns (answer: Option<CreateAnswer>, deleted: set<Id>)
      modifies database
      ensures Sweeps(old(database.perms.invitations), now - 24 * HOUR, 100, held, deleted)
      ensures var tx := Relationships.CreateInvitation(old(database.Snapshot()), id, inviter, digest, now, deleted);
              if answer.Some? then tx == Committed(database.Snapshot(), answer.value)
              else tx.Aborted? && database.Snapshot() == old(database.Snapshot())
    {
      var start := database.Snapshot();
      deleted := CleanupInTransaction(now - RETENTION, CLEANUP_LIMIT, held);
      if !ActivePerson(database.Snapshot(), inviter) {
        return Some(AccountUnavailable), deleted;
      }
      var kept := database.perms.invitations;
      // CHECK (invalidated_at >= created_at), the primary key and the unique digest
      if exists i :: i in kept && kept[i].inviter == inviter && Pending(kept[i]) && now < kept[i].createdAt {
        database.Become(start);
        return None, deleted;
      }
      database.perms := database.perms.(invitations := Invalidated(kept, inviter, now));
      if id in kept || exists i :: i in kept && kept[i].digest == digest {
        database.Become(start);
        return None, deleted;
      }
      database.perms := database.perms.(
        invitations := database.perms.invitations[
          id := Invitation(inviter, digest, now, now + SECRET_LIFETIME, None, None)]);
      return Some(Created), deleted;
    }

    method SelectInvitation(digest: Digest) returns (found: Option<Id>)
      requires Retention.UniqueDigests(database.perms.invitations)
      ensures found == FindInvitation(database.perms.invitations, digest)
    {
      var invitations := database.perms.invitations;
      if i :| i in invitations && invitations[i].digest == digest {
        assert IsInvitation(invitations, i, digest);
        return Some(i);
      }
      return None;
    }

    /** None when the transaction throws. */
    method AcceptInvitation(accepter: Id, digest: Digest, now: Time, held: set<Id>)
      returns (answer: Option<AcceptAnswer>, deleted: set<Id>)
      requires Retention.UniqueDigests(database.perms.invitations)
      modifies database
      ensures Sweeps(old(database.perms.invitations), now - 24 * HOUR, 100, held, deleted)
      ensures var tx := Relationships.AcceptInvitation(old(database.Snapshot()), accepter, digest, now, deleted);
              if answer.Some? then tx == Committed(database.Snapshot(), answer.value)
              else tx.Aborted? && database.Snapshot() == old(database.Snapshot())
    {
      var start := database.Snapshot();
      deleted := CleanupInTransaction(now - RETENTION, CLEANUP_LIMIT, held);
      assert forall i, d :: IsInvitation(database.perms.invitations, i, d) ==>
          IsInvitation(start.perms.invitations, i, d);
      var selected := SelectInvitation(digest);
      if selected.None? {
        return Some(InvitationUnavailable), deleted;
      }
      var kept, i := database.perms.invitations, selected.value;
      var inviter := kept[i].inviter;
      if kept[i].usedAt.Some? || kept[i].invalidatedAt.Some? || kept[i].expiresAt <= now || inviter == accepter {
        return Some(InvitationUnavailable), deleted;
      }
      if !ActivePerson(start, inviter) || !ActivePerson(start, accepter) {
        return Some(InvitationUnavailable), deleted;
      }
      // CHECK (used_at >= created_at)
      if now < kept[i].createdAt {
        database.Become(start);
        return None, deleted;
      }
      var connected := Connect(i, accepter, now);
      return Some(connected), deleted;
    }

    method Connect(i: Id, accepter: Id, now: Time) returns (answer: AcceptAnswer)
      requires i in database.perms.invitations
      modifies database`perms
      ensures var perms := old(database.perms);
              var inviter := perms.invitations[i].inviter;
              var pair := Pair(inviter, accepter);
              var used := perms.(invitations := perms.invitations[i := perms.invitations[i].(usedAt := Some(now))]);
              if Related(perms, inviter, accepter) then database.perms == used && answer == AlreadyConnected
              else answer == NowConnected
                   && database.perms == used.(
                                        grants := if pair in perms.relationships then
                                            Unlinked(perms.grants, inviter, accepter)
                                        else perms.grants,
                                        relationships := perms.relationships[pair := Relationship(true, now, None)])
    {
      var row := database.perms.invitations[i];
      var pair := Pair(row.inviter, accepter);
      var relationships := database.perms.relationships;
      database.perms := database.perms.(invitations := database.perms.invitations[i := row.(usedAt := Some(now))]);
      if pair in relationships {
        if relationships[pair].active {
          return AlreadyConnected;
        }
        database.perms := database.perms.(grants := Unlinked(database.perms.grants, row.inviter, accepter));
        database.perms := database.perms.(
          relationships := relationships[pair :=
                                         relationships[pair].(active := true, createdAt := now, endedAt := None)]);
        return NowConnected;
      }
      database.perms := database.perms.(relationships := relationships[pair := Relationship(true, now, None)]);
      return NowConnected;
    }

    /** None when the transaction throws. */
    method DisconnectRelationship(person: Id, other: Id, now: Time) returns (answer: Option<DisconnectAnswer>)
      requires LedgerOps.Linked(database.ledger)
      modifies database
      ensures var tx := Relationships.Disconnect(old(database.Snapshot()), person, other, now);
              if answer.Some? then tx == Committed(database.Snapshot(), answer.value)
              else tx.Aborted? && database.Snapshot() == old(database.Snapshot())
    {
      var start := database.Snapshot();
      var consent := new ConsentStore.RecipientConsentStore(database);
      var first := consent.Lock(person, now);
      var second := consent.Lock(other, now);
      if person == other || !first || !second {
        return Some(Unchanged);
      }
      var pair, relationships := Pair(person, other), database.perms.relationships;
      if pair !in relationships || !relationships[pair].active {
        return Some(Unchanged);
      }
      // CHECK (ended_at >= created_at)
      if now < relationships[pair].createdAt {
        database.Become(start);
        return None;
      }
      database.perms := database.perms.(
        relationships := relationships[pair := relationships[pair].(active := false, endedAt := Some(now))]);
      database.perms := database.perms.(grants := Unlinked(database.perms.grants, person, other));
      Stores.CancelEach(database, OutstandingBetween(database.ledger, person, other), PermissionRevoked, now);
      return Some(Disconnected);
    }
  }
}
