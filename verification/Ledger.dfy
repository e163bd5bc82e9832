/** Runs of settles one after another, and what the log says about the balances. */
module Ledger {
  import opened Types
  import opened Store
  import opened Settlement
  import opened Sums

  datatype Call = Call(req: Request, settledAt: int)

  function Serial(db: Db, calls: seq<Call>): Db {
    if calls == [] then db
    else
      var last := calls[|calls| - 1];
      SettleAtOnce(Serial(db, calls[..|calls| - 1]), last.req, last.settledAt).0
  }

  /** What one row means for one account. */
  function RowEffect(tx: Transaction, v: string): int {
    if tx.status != SETTLED then 0
    else if v == tx.receiverVpa then tx.amount
    else if v == tx.senderVpa then -tx.amount
    else 0
  }

  /** SETTLED amounts received, minus SETTLED amounts sent to a different account. */
  function Net(log: seq<Transaction>, v: string): int {
    if log == [] then 0 else Net(log[..|log| - 1], v) + RowEffect(log[|log| - 1], v)
  }

  lemma {:induction false} NetOfAppended(log: seq<Transaction>, tx: Transaction, v: string)
    ensures Net(log + [tx], v) == Net(log, v) + RowEffect(tx, v)
  {
    assert (log + [tx])[..|log|] == log;
  }

  /** Every balance is explained by the opening accounts and the log. */
  ghost predicate Reconciled(opening: map<string, Account>, db: Db) {
    && db.accounts.Keys == opening.Keys
    && forall v :: v in opening ==> db.accounts[v].balance == opening[v].balance + Net(db.log, v)
  }

  lemma {:induction false} SettleReconciles(opening: map<string, Account>, db: Db, call: Call)
    requires WellFormed(db) && Reconciled(opening, db)
    ensures Reconciled(opening, SettleAtOnce(db, call.req, call.settledAt).0)
  {
    var (db', r) := SettleAtOnce(db, call.req, call.settledAt);
    SettleRecordsOnce(db, call.req, call.settledAt);
    forall v | v in opening
      ensures db'.accounts[v].balance == opening[v].balance + Net(db'.log, v)
    {
      SettleMovesMoney(db, call.req, call.settledAt, v);
      if r.Ok? {
        NetOfAppended(db.log, r.value, v);
      }
    }
  }

  lemma {:induction false} SerialKeepsWellFormed(db: Db, calls: seq<Call>)
    requires WellFormed(db)
    ensures WellFormed(Serial(db, calls))
    ensures Serial(db, calls).accounts.Keys == db.accounts.Keys
  {
    if calls != [] {
      var init, last := calls[..|calls| - 1], calls[|calls| - 1];
      SerialKeepsWellFormed(db, init);
      SettleRecordsOnce(Serial(db, init), last.req, last.settledAt);
    }
  }

  /** From an empty log, the ledger reconciles after any run, self-payments and rejections included. */
  lemma {:induction false} SerialRunsReconcile(db: Db, calls: seq<Call>)
    requires WellFormed(db) && db.log == []
    ensures Reconciled(db.accounts, Serial(db, calls))
  {
    if calls != [] {
      var init, last := calls[..|calls| - 1], calls[|calls| - 1];
      SerialRunsReconcile(db, init);
      SerialKeepsWellFormed(db, init);
      SettleReconciles(db.accounts, Serial(db, init), last);
    }
  }

  // ---- conservation ----

  ghost function Balances(accounts: map<string, Account>): map<string, int> {
    map v | v in accounts :: accounts[v].balance
  }

  ghost function Total(accounts: map<string, Account>): int {
    Sum(Balances(accounts))
  }

  ghost predicate NoneNegative(accounts: map<string, Account>) {
    forall v :: v in accounts ==> accounts[v].balance >= 0
  }

  lemma {:induction false} TotalAfterSave(accounts: map<string, Account>, a: Account)
    requires a.vpa in accounts
    ensures Total(accounts[a.vpa := a]) == Total(accounts) - accounts[a.vpa].balance + a.balance
  {
    assert Balances(accounts[a.vpa := a]) == Balances(accounts)[a.vpa := a.balance];
    SumUpdate(Balances(accounts), a.vpa, a.balance);
  }

  /** What two saves do to the total: they replace what is stored by the copies, the debit cancelling the credit;
      for one account only the credited copy counts. */
  lemma {:induction false} SaveBothTotal(accounts: map<string, Account>, sender: Account, receiver: Account,
          amount: int)
    requires sender.vpa in accounts && receiver.vpa in accounts
    ensures sender.vpa != receiver.vpa ==>
      Total(SaveBoth(accounts, sender, receiver, amount))
        == Total(accounts) + (sender.balance - accounts[sender.vpa].balance)
                           + (receiver.balance - accounts[receiver.vpa].balance)
    ensures sender.vpa == receiver.vpa ==>
      Total(SaveBoth(accounts, sender, receiver, amount))
        == Total(accounts) + (receiver.balance + amount - accounts[receiver.vpa].balance)
  {
    var debited := sender.(balance := sender.balance - amount);
    TotalAfterSave(accounts, debited);
    TotalAfterSave(accounts[sender.vpa := debited], receiver.(balance := receiver.balance + amount));
  }

  /** A SETTLED payment to its own sender: credited and never debited. */
  predicate SelfPayment(tx: Transaction) {
    tx.status == SETTLED && tx.senderVpa == tx.receiverVpa
  }

  function SelfPaid(log: seq<Transaction>): int {
    if log == [] then 0
    else SelfPaid(log[..|log| - 1]) + if SelfPayment(log[|log| - 1]) then log[|log| - 1].amount else 0
  }

  /** None of the rows from number `from` on is a self-payment. */
  ghost predicate NoSelfPayments(log: seq<Transaction>, from: nat) {
    forall i :: from <= i < |log| ==> !SelfPayment(log[i])
  }

  /** Rows were added, all of positive amounts. */
  ghost predicate LogExtends(log: seq<Transaction>, log': seq<Transaction>) {
    log <= log' && forall i :: |log| <= i < |log'| ==> log'[i].amount > 0
  }

  lemma {:induction false} SelfPaidGrows(log: seq<Transaction>, log': seq<Transaction>)
    requires LogExtends(log, log')
    ensures SelfPaid(log) <= SelfPaid(log')
    ensures SelfPaid(log) == SelfPaid(log') <==> NoSelfPayments(log', |log|)
    decreases |log'|
  {
    if |log'| == |log| {
      assert log' == log;
    } else {
      var init := log'[..|log'| - 1];
      assert log <= init;
      SelfPaidGrows(log, init);
      assert forall i :: |log| <= i < |init| ==> init[i] == log'[i];
    }
  }

  lemma {:induction false} SettleExtendsLog(db: Db, call: Call)
    requires WellFormed(db)
    ensures var (db', r) := SettleAtOnce(db, call.req, call.settledAt);
      && LogExtends(db.log, db'.log)
      && SelfPaid(db'.log) == SelfPaid(db.log) + if r.Ok? && SelfPayment(r.value) then r.value.amount else 0
  {
    var (db', r) := SettleAtOnce(db, call.req, call.settledAt);
    SettleRecordsOnce(db, call.req, call.settledAt);
    if r.Ok? {
      assert db'.log[..|db.log|] == db.log;
    }
  }

  lemma {:induction false} SettleKeepsNoneNegative(db: Db, call: Call)
    requires WellFormed(db) && NoneNegative(db.accounts)
    ensures NoneNegative(SettleAtOnce(db, call.req, call.settledAt).0.accounts)
  {
  }

  /** One settle moves the total by what it adds in self-payments. */
  lemma {:induction false} SettleMovesTotal(db: Db, call: Call)
    requires WellFormed(db)
    ensures var db' := SettleAtOnce(db, call.req, call.settledAt).0;
      Total(db'.accounts) - SelfPaid(db'.log) == Total(db.accounts) - SelfPaid(db.log)
  {
    SettleExtendsLog(db, call);
    var r := SettleAtOnce(db, call.req, call.settledAt).1;
    var p := call.req.instruction;
    if r.Ok? && r.value.status == SETTLED {
      SaveBothTotal(db.accounts, db.accounts[p.senderVpa], db.accounts[p.receiverVpa], p.amount);
    }
  }

  /** A serial run creates exactly what it settles as self-payments. */
  lemma {:induction false} SerialMovesTotal(db: Db, calls: seq<Call>)
    requires WellFormed(db)
    ensures var db' := Serial(db, calls);
      && Total(db'.accounts) - SelfPaid(db'.log) == Total(db.accounts) - SelfPaid(db.log)
      && (NoneNegative(db.accounts) ==> NoneNegative(db'.accounts))
      && LogExtends(db.log, db'.log)
  {
    if calls != [] {
      var init, last := calls[..|calls| - 1], calls[|calls| - 1];
      SerialMovesTotal(db, init);
      SerialKeepsWellFormed(db, init);
      var before := Serial(db, init);
      SettleMovesTotal(before, last);
      SettleExtendsLog(before, last);
      if NoneNegative(before.accounts) {
        SettleKeepsNoneNegative(before, last);
      }
    }
  }

  /** The exact condition: a serial run never loses money, and keeps the total if and only if it settles
      no payment to its own sender. */
  lemma {:induction false} SerialConserves(db: Db, calls: seq<Call>)
    requires WellFormed(db)
    ensures Total(db.accounts) <= Total(Serial(db, calls).accounts)
    ensures Total(db.accounts) == Total(Serial(db, calls).accounts) <==> NoSelfPayments(Serial(db, calls).log, |db.log|)
    ensures NoneNegative(db.accounts) ==> NoneNegative(Serial(db, calls).accounts)
  {
    SerialMovesTotal(db, calls);
    SelfPaidGrows(db.log, Serial(db, calls).log);
  }

  lemma {:induction false} SumOfFour(a: string, b: string, c: string, d: string, f: map<string, int>)
    requires a != b && a != c && a != d && b != c && b != d && c != d
    requires f.Keys == {a, b, c, d}
    ensures Sum(f) == f[a] + f[b] + f[c] + f[d]
  {
    SumTakeOut(f, a);
    SumTakeOut(f - {a}, b);
    SumTakeOut(f - {a} - {b}, c);
    SumTakeOut(f - {a} - {b} - {c}, d);
    assert f - {a} - {b} - {c} - {d} == map[];
  }

  lemma {:induction false} SeedTotal()
    ensures Total(Seed()) == 900000 && NoneNegative(Seed())
    ensures WellFormed(Db(Seed(), [], 0))
  {
    SeedNamesDiffer();
    var a, b, c, d := "alice@demo", "bob@demo", "carol@demo", "dave@demo";
    assert Balances(Seed()).Keys == {a, b, c, d};
    SumOfFour(a, b, c, d, Balances(Seed()));
  }

  /** Since seed or reset: nothing is created or lost, and no 64-bit addition or subtraction can overflow,
      not even for a payment that will turn out to be a duplicate or to be paid to its own sender. */
  lemma {:induction false} ConservationAndNoOverflow(lastId: int, calls: seq<Call>, v: string, next: Request)
    requires NoSelfPayments(Serial(Db(Seed(), [], lastId), calls).log, 0)
    requires v in Seed()
    ensures var accounts := Serial(Db(Seed(), [], lastId), calls).accounts;
      && Total(accounts) == 900000
      && v in accounts && 0 <= accounts[v].balance <= 900000
      && (var p := next.instruction;
          p.senderVpa in accounts && p.receiverVpa in accounts
          && 0 < p.amount <= accounts[p.senderVpa].balance ==>
            && InInt64(accounts[p.senderVpa].balance - p.amount)
            && InInt64(accounts[p.receiverVpa].balance + p.amount)
            && (p.senderVpa != p.receiverVpa ==> accounts[p.receiverVpa].balance + p.amount <= 900000))
  {
    var db := Db(Seed(), [], lastId);
    SeedTotal();
    assert WellFormed(db);
    SerialConserves(db, calls);
    SerialKeepsWellFormed(db, calls);
    var b := Balances(Serial(db, calls).accounts);
    SumBounds(b, v, v);
    var p := next.instruction;
    if p.senderVpa in b && p.receiverVpa in b {
      SumBounds(b, p.senderVpa, p.receiverVpa);
    }
  }
}
