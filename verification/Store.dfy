/** The SQLite store: two tables, the UNIQUE hash column, AUTOINCREMENT ids and one open transaction. */
module Store {
  import opened Types

  /** The committed (or, inside a transaction, the visible) content of both tables. */
  datatype Db = Db(accounts: map<string, Account>, log: seq<Transaction>, lastId: int)

  predicate HasHash(log: seq<Transaction>, hash: string) {
    exists i :: 0 <= i < |log| && log[i].packetHash == hash
  }

  /** What the schema guarantees: the primary key, the UNIQUE hash and the growing ids. */
  ghost predicate WellFormed(db: Db) {
    && (forall v :: v in db.accounts ==> db.accounts[v].vpa == v)
    && (forall i, j :: 0 <= i < j < |db.log| ==> db.log[i].packetHash != db.log[j].packetHash)
    && (forall i, j :: 0 <= i < j < |db.log| ==> db.log[i].id < db.log[j].id)
    && (forall i :: 0 <= i < |db.log| ==> db.log[i].id <= db.lastId)
  }

  /** How many rows carry a hash. */
  function RowsFor(log: seq<Transaction>, hash: string): nat {
    if log == [] then 0
    else RowsFor(log[..|log| - 1], hash) + if log[|log| - 1].packetHash == hash then 1 else 0
  }

  lemma {:induction false} RowsForZero(log: seq<Transaction>, hash: string)
    ensures RowsFor(log, hash) == 0 <==> !HasHash(log, hash)
  {
    if log != [] {
      var init := log[..|log| - 1];
      RowsForZero(init, hash);
      if HasHash(log, hash) && log[|log| - 1].packetHash != hash {
        var i :| 0 <= i < |log| && log[i].packetHash == hash;
        assert init[i].packetHash == hash;
      }
    }
  }

  /** The UNIQUE column in counting form. */
  lemma {:induction false} AtMostOneRow(db: Db, hash: string)
    requires WellFormed(db)
    ensures RowsFor(db.log, hash) <= 1
    decreases |db.log|
  {
    if db.log != [] {
      var init := db.log[..|db.log| - 1];
      AtMostOneRow(db.(log := init), hash);
      RowsForZero(init, hash);
    }
  }

  function Append(db: Db, tx: Transaction): Db {
    db.(log := db.log + [tx.(id := db.lastId + 1)], lastId := db.lastId + 1)
  }

  lemma {:induction false} AppendKeepsWellFormed(db: Db, tx: Transaction)
    requires WellFormed(db) && !HasHash(db.log, tx.packetHash)
    ensures WellFormed(Append(db, tx))
    ensures RowsFor(Append(db, tx).log, tx.packetHash) == 1
  {
    var db' := Append(db, tx);
    assert db'.log[..|db'.log| - 1] == db.log;
    RowsForZero(db.log, tx.packetHash);
    forall i, j | 0 <= i < j < |db'.log|
      ensures db'.log[i].packetHash != db'.log[j].packetHash
    {
      assert db'.log[i] == db.log[i];
    }
  }

  function Seed(): map<string, Account> {
    map["alice@demo" := Account("alice@demo", "Alice", 500000, 0),
        "bob@demo" := Account("bob@demo", "Bob", 100000, 0),
        "carol@demo" := Account("carol@demo", "Carol", 250000, 0),
        "dave@demo" := Account("dave@demo", "Dave", 50000, 0)]
  }

  /** The four demo accounts, in paise. */
  ghost predicate Seeded(accounts: map<string, Account>) {
    && (forall v :: v in accounts <==> v == "alice@demo" || v == "bob@demo" || v == "carol@demo" || v == "dave@demo")
    && (forall v :: v in accounts ==>
      && accounts[v].vpa == v && accounts[v].version == 0
      && (v == "alice@demo" ==> accounts[v].holderName == "Alice" && accounts[v].balance == 5000_00)
      && (v == "bob@demo" ==> accounts[v].holderName == "Bob" && accounts[v].balance == 1000_00)
      && (v == "carol@demo" ==> accounts[v].holderName == "Carol" && accounts[v].balance == 2500_00)
      && (v == "dave@demo" ==> accounts[v].holderName == "Dave" && accounts[v].balance == 500_00))
  }

  lemma {:induction false} SeedNamesDiffer()
    ensures "alice@demo" != "bob@demo" && "alice@demo" != "carol@demo" && "alice@demo" != "dave@demo"
    ensures "bob@demo" != "carol@demo" && "bob@demo" != "dave@demo" && "carol@demo" != "dave@demo"
  {
    assert "alice@demo"[0] == 'a' && "bob@demo"[0] == 'b' && "carol@demo"[0] == 'c' && "dave@demo"[0] == 'd';
  }

  lemma {:induction false} SeedIsSeeded()
    ensures Seeded(Seed())
  {
    SeedNamesDiffer();
  }

  /** DELETE on both tables and a new seed; SQLite keeps the AUTOINCREMENT counter. */
  function Reset(db: Db): Db {
    Db(Seed(), [], db.lastId)
  }

  datatype DbError = TransactionOpen | NoTransaction

  class Database {
    var accounts: map<string, Account>
    var log: seq<Transaction>
    var lastId: int
    var snapshot: Option<Db> // what ROLLBACK restores; None when no transaction is open

    function Contents(): Db
      reads this
    {
      Db(accounts, log, lastId)
    }

    ghost predicate Valid()
      reads this
    {
      WellFormed(Contents())
    }

    constructor ()
      ensures Valid() && snapshot.None?
      ensures Contents() == Db(Seed(), [], 0) && Seeded(accounts)
    {
      SeedIsSeeded();
      accounts := Seed();
      log := [];
      lastId := 0;
      snapshot := None;
    }

    method Begin() returns (r: Result<(), DbError>)
      modifies this`snapshot
      ensures old(snapshot).None? ==> r.Ok? && snapshot == Some(Contents())
      ensures old(snapshot).Some? ==> r == Err(TransactionOpen) && snapshot == old(snapshot)
    {
      if snapshot.Some? {
        return Err(TransactionOpen);
      }
      snapshot := Some(Contents());
      r := Ok(());
    }

    method Commit() returns (r: Result<(), DbError>)
      modifies this`snapshot
      ensures snapshot.None?
      ensures r == if old(snapshot).Some? then Ok(()) else Err(NoTransaction)
    {
      r := if snapshot.Some? then Ok(()) else Err(NoTransaction);
      snapshot := None;
    }

    method Rollback() returns (r: Result<(), DbError>)
      modifies this
      ensures snapshot.None?
      ensures old(snapshot).Some? ==> r.Ok? && Contents() == old(snapshot).value
      ensures old(snapshot).None? ==> r == Err(NoTransaction) && Contents() == old(Contents())
    {
      if snapshot.None? {
        return Err(NoTransaction);
      }
      accounts, log, lastId := snapshot.value.accounts, snapshot.value.log, snapshot.value.lastId;
      snapshot := None;
      r := Ok(());
    }

    method ResetTables()
      modifies this`accounts, this`log
      ensures Contents() == Reset(old(Contents())) && Seeded(accounts)
      ensures Valid()
    {
      SeedIsSeeded();
      log := [];
      accounts := map[];
      accounts := Seed();
    }
  }

  class AccountRepository {
    const db: Database

    constructor (db: Database)
      ensures this.db == db
    {
      this.db := db;
    }

    method FindById(vpa: string) returns (account: Option<Account>)
      ensures account.Some? <==> vpa in db.accounts
      ensures account.Some? ==> account.value == db.accounts[vpa]
    {
      account := if vpa in db.accounts then Some(db.accounts[vpa]) else None;
    }

    /** An upsert on the primary key: whatever was stored is overwritten, its version included. */
    method Save(account: Account)
      modifies db`accounts
      ensures db.accounts == old(db.accounts)[account.vpa := account]
      ensures old(db.Valid()) ==> db.Valid()
    {
      db.accounts := db.accounts[account.vpa := account];
    }

    /** One entry for every row, in whatever order the rows come. */
    method FindAll() returns (rows: seq<Account>)
      requires db.Valid()
      ensures |rows| == |db.accounts|
      ensures forall v :: v in db.accounts ==> db.accounts[v] in rows
      ensures forall i :: 0 <= i < |rows| ==> rows[i].vpa in db.accounts && rows[i] == db.accounts[rows[i].vpa]
      ensures forall i, j :: 0 <= i < j < |rows| ==> rows[i].vpa != rows[j].vpa
    {
      rows := [];
      var pending := db.accounts.Keys;
      while pending != {}
        invariant pending <= db.accounts.Keys
        invariant |rows| + |pending| == |db.accounts|
        invariant forall v :: v in db.accounts && v !in pending ==> db.accounts[v] in rows
        invariant forall i :: 0 <= i < |rows| ==>
          rows[i].vpa in db.accounts && rows[i].vpa !in pending && rows[i] == db.accounts[rows[i].vpa]
        invariant forall i, j :: 0 <= i < j < |rows| ==> rows[i].vpa != rows[j].vpa
        decreases |pending|
      {
        var v :| v in pending;
        rows := rows + [db.accounts[v]];
        pending := pending - {v};
      }
    }
  }

  class TransactionRepository {
    const db: Database

    constructor (db: Database)
      ensures this.db == db
    {
      this.db := db;
    }

    /** Inserts a row under the next id, or fails on the UNIQUE hash and changes nothing. */
    method Save(tx: Transaction) returns (r: Result<Transaction, SettleError>)
      modifies db`log, db`lastId
      ensures old(HasHash(db.log, tx.packetHash)) ==>
        r == Err(DuplicateHash) && db.Contents() == old(db.Contents())
      ensures !old(HasHash(db.log, tx.packetHash)) ==>
        r == Ok(tx.(id := db.lastId)) && db.Contents() == Append(old(db.Contents()), tx)
      ensures old(db.Valid()) ==> db.Valid()
    {
      if HasHash(db.log, tx.packetHash) {
        return Err(DuplicateHash);
      }
      ghost var before := db.Contents();
      db.lastId := db.lastId + 1;
      db.log := db.log + [tx.(id := db.lastId)];
      r := Ok(tx.(id := db.lastId));
      if WellFormed(before) {
        AppendKeepsWellFormed(before, tx);
      }
    }

    method ExistsByPacketHash(hash: string) returns (found: bool)
      ensures found <==> RowsFor(db.log, hash) > 0
    {
      found := HasHash(db.log, hash);
      RowsForZero(db.log, hash);
    }
  }
}
