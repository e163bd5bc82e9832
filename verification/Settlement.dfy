/** Settling one payment: the service with its retry loop, and the one-shot function it implements. */
module Settlement {
  import opened Types
  import opened Store

  /** The row `settle` writes; the store assigns the id. */
  function Row(req: Request, settledAt: int, status: Status): Transaction {
    Transaction(0, req.packetHash, req.instruction.senderVpa, req.instruction.receiverVpa,
                req.instruction.amount, req.instruction.signedAt, settledAt,
                req.bridgeNodeId, req.hopCount, status)
  }

  /** The two saves, in order, of copies read earlier. When both copies are of one account the second wins. */
  function SaveBoth(accounts: map<string, Account>, sender: Account, receiver: Account, amount: int)
    : map<string, Account>
  {
    accounts[sender.vpa := sender.(balance := sender.balance - amount)]
            [receiver.vpa := receiver.(balance := receiver.balance + amount)]
  }

  /** What a settle amounts to when nothing else runs: no retries, no transaction, no copies. */
  function SettleAtOnce(db: Db, req: Request, settledAt: int): (Db, Result<Transaction, SettleError>) {
    var p := req.instruction;
    if p.senderVpa !in db.accounts then (db, Err(UnknownSender))
    else if p.receiverVpa !in db.accounts then (db, Err(UnknownReceiver))
    else if p.amount <= 0 then (db, Err(NonPositiveAmount))
    else if HasHash(db.log, req.packetHash) then (db, Err(DuplicateHash))
    else
      var covered := db.accounts[p.senderVpa].balance >= p.amount;
      var row := Row(req, settledAt, if covered then SETTLED else REJECTED);
      var db' := Append(db, row);
      var accounts' :=
        if covered then SaveBoth(db.accounts, db.accounts[p.senderVpa], db.accounts[p.receiverVpa], p.amount)
        else db.accounts;
      (db'.(accounts := accounts'), Ok(row.(id := db.lastId + 1)))
  }

  /** The row says of the request all there is to say, column by column. */
  ghost predicate RowOf(tx: Transaction, req: Request, settledAt: int) {
    var p := req.instruction;
    && tx.packetHash == req.packetHash
    && tx.senderVpa == p.senderVpa && tx.receiverVpa == p.receiverVpa && tx.amount == p.amount
    && tx.signedAt == p.signedAt && tx.settledAt == settledAt
    && tx.bridgeNodeId == req.bridgeNodeId && tx.hopCount == req.hopCount
  }

  /** One new row and, if it is SETTLED, exactly one transfer; or nothing at all. */
  ghost predicate RecordsOnce(db: Db, req: Request, settledAt: int, db': Db, r: Result<Transaction, SettleError>) {
    && (r.Ok? <==> !HasHash(db.log, req.packetHash)
                   && req.instruction.senderVpa in db.accounts
                   && req.instruction.receiverVpa in db.accounts
                   && req.instruction.amount > 0)
    && (r.Ok? ==>
      && db'.log == db.log + [r.value]
      && RowOf(r.value, req, settledAt)
      && r.value.id == db'.lastId > db.lastId
      && r.value.status == (if db.accounts[req.instruction.senderVpa].balance >= req.instruction.amount
                            then SETTLED else REJECTED)
      && (r.value.status == REJECTED ==> db'.accounts == db.accounts)
      && db'.accounts.Keys == db.accounts.Keys)
    && (r.Err? ==> db' == db)
  }

  lemma {:induction false} SettleRecordsOnce(db: Db, req: Request, settledAt: int)
    requires WellFormed(db)
    ensures RecordsOnce(db, req, settledAt, SettleAtOnce(db, req, settledAt).0, SettleAtOnce(db, req, settledAt).1)
    ensures WellFormed(SettleAtOnce(db, req, settledAt).0)
  {
    var (db', r) := SettleAtOnce(db, req, settledAt);
    if r.Ok? {
      AppendKeepsWellFormed(db, Row(req, settledAt, r.value.status));
    }
  }

  /** The effect of a settled payment on every balance; a self-payment only ever adds. */
  lemma {:induction false} SettleMovesMoney(db: Db, req: Request, settledAt: int, v: string)
    requires WellFormed(db) && v in db.accounts
    ensures var (db', r) := SettleAtOnce(db, req, settledAt);
      var p := req.instruction;
      && v in db'.accounts
      && (r.Ok? && r.value.status == SETTLED ==>
        && db'.accounts[v].balance == db.accounts[v].balance
            + (if v == p.receiverVpa then p.amount else 0)
            - (if v == p.senderVpa && v != p.receiverVpa then p.amount else 0))
      && (!(r.Ok? && r.value.status == SETTLED) ==> db'.accounts == db.accounts)
  {
  }

  class SettlementService {
    const db: Database
    const accounts: AccountRepository
    const transactions: TransactionRepository

    ghost predicate Valid()
      reads this, db
    {
      accounts.db == db && transactions.db == db && db.Valid() && db.snapshot.None?
    }

    constructor (accounts: AccountRepository, transactions: TransactionRepository)
      requires accounts.db == transactions.db && accounts.db.Valid() && accounts.db.snapshot.None?
      ensures Valid() && db == accounts.db
    {
      this.db := accounts.db;
      this.accounts := accounts;
      this.transactions := transactions;
    }

    /** Three attempts at most; `now` is the clock reading stored in the row. */
    method Settle(req: Request, now: int) returns (r: Result<Transaction, SettleError>)
      requires Valid()
      modifies db
      ensures Valid()
      ensures (db.Contents(), r) == SettleAtOnce(old(db.Contents()), req, now)
      ensures RecordsOnce(old(db.Contents()), req, now, db.Contents(), r)
    {
      SettleRecordsOnce(db.Contents(), req, now);
      for attempt := 1 to 4
        invariant attempt <= 3
        invariant Valid() && db.Contents() == old(db.Contents())
      {
        var senderOpt := accounts.FindById(req.instruction.senderVpa);
        if senderOpt.None? {
          return Err(UnknownSender);
        }
        var receiverOpt := accounts.FindById(req.instruction.receiverVpa);
        if receiverOpt.None? {
          return Err(UnknownReceiver);
        }
        var sender, receiver, amount := senderOpt.value, receiverOpt.value, req.instruction.amount;
        if amount <= 0 {
          return Err(NonPositiveAmount);
        }
        if sender.balance < amount {
          r := RecordRejected(req, now);
          return;
        }
        sender := sender.(balance := sender.balance - amount);
        receiver := receiver.(balance := receiver.balance + amount);
        r := CommitBoth(sender, receiver, Row(req, now, SETTLED));
        if r.Ok? || attempt == 3 {
          return;
        }
      }
      assert false;
    }

    /** The locked block: one transaction around the two saves and the insert, rolled back if the insert fails. */
    method CommitBoth(sender: Account, receiver: Account, row: Transaction)
      returns (r: Result<Transaction, SettleError>)
      requires Valid()
      modifies db
      ensures Valid()
      ensures old(HasHash(db.log, row.packetHash)) ==>
        r == Err(DuplicateHash) && db.Contents() == old(db.Contents())
      ensures !old(HasHash(db.log, row.packetHash)) ==>
        && r == Ok(row.(id := db.lastId))
        && db.Contents() == Append(old(db.Contents()), row)
             .(accounts := old(db.accounts)[sender.vpa := sender][receiver.vpa := receiver])
    {
      var _ := db.Begin();
      accounts.Save(sender);
      accounts.Save(receiver);
      r := transactions.Save(row);
      if r.Ok? {
        var _ := db.Commit();
      } else {
        var _ := db.Rollback();
      }
    }

    /** The REJECTED row is inserted outside any explicit transaction; a duplicate hash is thrown at once. */
    method RecordRejected(req: Request, now: int) returns (r: Result<Transaction, SettleError>)
      requires Valid()
      modifies db
      ensures Valid()
      ensures old(HasHash(db.log, req.packetHash)) ==>
        r == Err(DuplicateHash) && db.Contents() == old(db.Contents())
      ensures !old(HasHash(db.log, req.packetHash)) ==>
        && db.Contents() == Append(old(db.Contents()), Row(req, now, REJECTED))
        && r == Ok(Row(req, now, REJECTED).(id := db.lastId))
        && RowOf(r.value, req, now) && r.value.status == REJECTED
    {
      r := transactions.Save(Row(req, now, REJECTED));
    }
  }
}
