/** The database the stores write to: its groups of tables are fields that every statement replaces. */
module Database {
  import opened Schema

  class Database {
    var dir: Directory
    var perms: Permissions
    var fleet: Fleet
    var counters: Counters
    var ledger: Ledger

    constructor (db: Db)
      ensures Snapshot() == db
    {
      dir, perms, fleet, counters, ledger := db.dir, db.perms, db.fleet, db.counters, db.ledger;
    }

    function Snapshot(): Db
      reads this
    {
      Db(dir, perms, fleet, counters, ledger)
    }

    /** Commits a new content, or rolls back to an old one. */
    method Become(db: Db)
      modifies this
      ensures Snapshot() == db
    {
      dir, perms, fleet, counters, ledger := db.dir, db.perms, db.fleet, db.counters, db.ledger;
    }
  }
}
