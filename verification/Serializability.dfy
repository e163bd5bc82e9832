/** When an interleaved run equals settling one payment after another, and what a stale read does instead. */
module Serializability {
  import opened Types
  import opened Store
  import opened Settlement
  import opened Ledger
  import opened Concurrent

  /** The calls that inserted a row, in the order of their rows. */
  ghost function Inserts(s: Sys, events: seq<Event>): seq<Call> {
    if events == [] then []
    else
      var init, last := events[..|events| - 1], events[|events| - 1];
      var before := Run(s, init);
      Inserts(s, init) +
        if Inserting(before, last) then [Call(before.threads[last.tid].job.req, last.now)] else []
  }

  ghost predicate NoReset(events: seq<Event>) {
    forall k :: 0 <= k < |events| ==> !events[k].ResetDb?
  }

  /** The copies are still what the decision of a serial settle would use. */
  ghost predicate Clear(s: Sys, tid: nat)
    requires tid < |s.threads|
  {
    var t := s.threads[tid];
    var p := t.job.req.instruction;
    && p.senderVpa in s.db.accounts && p.receiverVpa in s.db.accounts
    && (t.pc.Committing? ==>
      && t.pc.receiver == s.db.accounts[p.receiverVpa]
      && (p.senderVpa != p.receiverVpa ==> t.pc.sender == s.db.accounts[p.senderVpa])
      && s.db.accounts[p.senderVpa].balance >= p.amount)
    && (t.pc.Rejecting? ==> s.db.accounts[p.senderVpa].balance < p.amount)
  }

  /** The accounts a thread has copied exist. */
  ghost predicate Known(s: Sys, t: Thread) {
    && (t.pc.ReadingReceiver? || t.pc.Committing? || t.pc.Rejecting? ==> t.pc.sender.vpa in s.db.accounts)
    && (t.pc.Committing? || t.pc.Rejecting? ==> t.pc.receiver.vpa in s.db.accounts)
  }

  ghost predicate AllKnown(s: Sys) {
    forall i :: 0 <= i < |s.threads| ==> Known(s, s.threads[i])
  }

  lemma {:induction false} StepKeepsKeys(s: Sys, e: Event)
    requires Inv(s) && AllKnown(s) && !e.ResetDb?
    ensures Apply(s, e).db.accounts.Keys == s.db.accounts.Keys
    ensures AllKnown(Apply(s, e))
  {
    if Inserting(s, e) {
      assert Known(s, s.threads[e.tid]) && Coherent(s.threads[e.tid]);
    }
  }

  lemma {:induction false} RunKeepsKnown(s: Sys, events: seq<Event>)
    requires Start(s) && NoReset(events)
    ensures AllKnown(Run(s, events))
    ensures Run(s, events).db.accounts.Keys == s.db.accounts.Keys
  {
    if events != [] {
      var init := events[..|events| - 1];
      RunKeepsKnown(s, init);
      RunKeepsInv(s, init);
      StepKeepsKeys(Run(s, init), events[|events| - 1]);
    }
  }

  /** One insert equals the serial settle exactly when its copies are clear. */
  lemma {:induction false} ClearInsertIsSerial(s: Sys, e: Event)
    requires Inv(s) && AllKnown(s) && Inserting(s, e)
    ensures var req := s.threads[e.tid].job.req;
      Apply(s, e).db == SettleAtOnce(s.db, req, e.now).0 <==> Clear(s, e.tid)
  {
    var t := s.threads[e.tid];
    var p := t.job.req.instruction;
    assert Known(s, t) && Coherent(t);
    var serial := SettleAtOnce(s.db, t.job.req, e.now).0;
    var actual := Apply(s, e).db;
    assert serial.log[|s.db.log|].status
           == if s.db.accounts[p.senderVpa].balance >= p.amount then SETTLED else REJECTED;
    assert actual.log[|s.db.log|].status == if t.pc.Committing? then SETTLED else REJECTED;
    if t.pc.Committing? && actual == serial {
      assert actual.accounts[p.receiverVpa] == serial.accounts[p.receiverVpa];
      assert actual.accounts[p.senderVpa] == serial.accounts[p.senderVpa];
    }
  }

  /** Every insert of the run is clear. */
  ghost predicate ClearThroughout(s: Sys, events: seq<Event>) {
    events == [] ||
    var init, last := events[..|events| - 1], events[|events| - 1];
    ClearThroughout(s, init) && (Inserting(Run(s, init), last) ==> Clear(Run(s, init), last.tid))
  }

  /** After every event, the database is what settling the inserted calls one at a time gives. */
  ghost predicate SerialThroughout(s: Sys, events: seq<Event>) {
    && Run(s, events).db == Serial(s.db, Inserts(s, events))
    && (events == [] || SerialThroughout(s, events[..|events| - 1]))
  }

  /** The exact condition, for every run without a reset. */
  lemma {:induction false} SerialExactlyWhenClear(s: Sys, events: seq<Event>)
    requires Start(s) && NoReset(events)
    ensures SerialThroughout(s, events) <==> ClearThroughout(s, events)
  {
    if events != [] {
      var init, last := events[..|events| - 1], events[|events| - 1];
      SerialExactlyWhenClear(s, init);
      var before := Run(s, init);
      RunKeepsInv(s, init);
      RunKeepsKnown(s, init);
      MoneyMovesOnlyWithItsRow(before, last);
      if Inserting(before, last) {
        ClearInsertIsSerial(before, last);
        var calls := Inserts(s, events);
        assert calls[..|calls| - 1] == Inserts(s, init);
      } else {
        assert Inserts(s, events) == Inserts(s, init);
      }
    }
  }

  // ---- a condition on the schedule alone ----

  /** No event since the attempt's first read wrote an account its insert depends on. */
  ghost predicate Undisturbed(s: Sys, tid: nat)
    requires tid < |s.threads|
  {
    var t := s.threads[tid];
    var p := t.job.req.instruction;
    (t.pc.Committing? || t.pc.Rejecting?) ==>
      forall j :: t.pc.since <= j < |s.writes| ==>
        p.senderVpa !in s.writes[j] && (t.pc.Committing? ==> p.receiverVpa !in s.writes[j])
  }

  ghost predicate UndisturbedThroughout(s: Sys, events: seq<Event>) {
    events == [] ||
    var init, last := events[..|events| - 1], events[|events| - 1];
    && UndisturbedThroughout(s, init)
    && (Inserting(Run(s, init), last) ==> Undisturbed(Run(s, init), last.tid))
  }

  ghost predicate Unwritten(s: Sys, since: nat, v: string) {
    since <= |s.writes| && forall j :: since <= j < |s.writes| ==> v !in s.writes[j]
  }

  /** A copy no later event overwrote is still the stored account. */
  ghost predicate Tracks(s: Sys, since: nat, copy: Account) {
    && since <= |s.writes|
    && (Unwritten(s, since, copy.vpa) ==> copy.vpa in s.db.accounts && s.db.accounts[copy.vpa] == copy)
  }

  ghost predicate CopiesTrack(s: Sys, t: Thread) {
    && (t.pc.ReadingReceiver? || t.pc.Committing? || t.pc.Rejecting? ==> Tracks(s, t.pc.since, t.pc.sender))
    && (t.pc.Committing? || t.pc.Rejecting? ==> Tracks(s, t.pc.since, t.pc.receiver))
  }

  lemma {:induction false} TracksStep(s: Sys, e: Event, since: nat, copy: Account)
    requires Inv(s) && Tracks(s, since, copy)
    ensures Tracks(Apply(s, e), since, copy)
  {
    var s' := Apply(s, e);
    assert s'.writes[..|s.writes|] == s.writes;
    if Unwritten(s', since, copy.vpa) {
      forall j | since <= j < |s.writes| ensures copy.vpa !in s.writes[j] {
        assert s'.writes[j] == s.writes[j];
      }
      assert copy.vpa !in s'.writes[|s.writes|];
      MoneyMovesOnlyWithItsRow(s, e);
    }
  }

  lemma {:induction false} CopiesTrackStep(s: Sys, e: Event, i: nat)
    requires Inv(s) && i < |s.threads| && CopiesTrack(s, s.threads[i])
    ensures CopiesTrack(Apply(s, e), Apply(s, e).threads[i])
  {
    var t := s.threads[i];
    if t.pc.ReadingReceiver? || t.pc.Committing? || t.pc.Rejecting? {
      TracksStep(s, e, t.pc.since, t.pc.sender);
    }
    if t.pc.Committing? || t.pc.Rejecting? {
      TracksStep(s, e, t.pc.since, t.pc.receiver);
    }
    if e.Step? && e.tid == i && t.pc.ReadingReceiver? && t.job.req.instruction.receiverVpa in s.db.accounts {
      var copy := s.db.accounts[t.job.req.instruction.receiverVpa];
      assert Tracks(s, t.pc.since, copy);
      TracksStep(s, e, t.pc.since, copy);
    }
    if e.Step? && e.tid == i && t.pc.ReadingSender? && t.job.req.instruction.senderVpa in s.db.accounts {
      var copy := s.db.accounts[t.job.req.instruction.senderVpa];
      assert Tracks(s, |s.writes|, copy);
      TracksStep(s, e, |s.writes|, copy);
    }
  }

  lemma {:induction false} RunTracks(s: Sys, events: seq<Event>)
    requires Start(s)
    ensures forall i :: 0 <= i < |Run(s, events).threads| ==> CopiesTrack(Run(s, events), Run(s, events).threads[i])
  {
    if events != [] {
      var init, last := events[..|events| - 1], events[|events| - 1];
      RunTracks(s, init);
      RunKeepsInv(s, init);
      forall i | 0 <= i < |Run(s, init).threads|
        ensures CopiesTrack(Run(s, events), Run(s, events).threads[i])
      {
        CopiesTrackStep(Run(s, init), last, i);
      }
    }
  }

  lemma {:induction false} UndisturbedIsClear(s: Sys, tid: nat)
    requires Inv(s) && AllKnown(s) && tid < |s.threads|
    requires CopiesTrack(s, s.threads[tid]) && Undisturbed(s, tid)
    requires s.threads[tid].pc.Committing? || s.threads[tid].pc.Rejecting?
    ensures Clear(s, tid)
  {
    var t := s.threads[tid];
    assert Coherent(t) && Known(s, t);
    assert Unwritten(s, t.pc.since, t.pc.sender.vpa);
    if t.pc.Committing? {
      assert Unwritten(s, t.pc.since, t.pc.receiver.vpa);
    }
  }

  /** If no commit overlaps another attempt on the same accounts, the interleaved run is the serial run of its
      inserts: same balances, same rows in the same order with the same ids and times. */
  lemma {:induction false} SerialEquivalence(s: Sys, events: seq<Event>)
    requires Start(s) && NoReset(events) && UndisturbedThroughout(s, events)
    ensures ClearThroughout(s, events)
    ensures Run(s, events).db == Serial(s.db, Inserts(s, events))
  {
    if events != [] {
      var init, last := events[..|events| - 1], events[|events| - 1];
      SerialEquivalence(s, init);
      RunKeepsInv(s, init);
      RunKeepsKnown(s, init);
      RunTracks(s, init);
      if Inserting(Run(s, init), last) {
        UndisturbedIsClear(Run(s, init), last.tid);
      }
    }
    SerialExactlyWhenClear(s, events);
  }

  // ---- the ledger under interleaving ----

  /** The balances a commit is about to overwrite are the ones it read. */
  ghost predicate Current(s: Sys, tid: nat)
    requires tid < |s.threads|
  {
    var t := s.threads[tid];
    var p := t.job.req.instruction;
    t.pc.Committing? ==>
      && p.senderVpa in s.db.accounts && p.receiverVpa in s.db.accounts
      && t.pc.receiver.balance == s.db.accounts[p.receiverVpa].balance
      && (p.senderVpa != p.receiverVpa ==> t.pc.sender.balance == s.db.accounts[p.senderVpa].balance)
  }

  ghost predicate CurrentThroughout(s: Sys, events: seq<Event>) {
    events == [] ||
    var init, last := events[..|events| - 1], events[|events| - 1];
    CurrentThroughout(s, init) && (Inserting(Run(s, init), last) ==> Current(Run(s, init), last.tid))
  }

  ghost predicate ReconciledThroughout(s: Sys, events: seq<Event>) {
    && Reconciled(s.db.accounts, Run(s, events).db)
    && (events == [] || ReconciledThroughout(s, events[..|events| - 1]))
  }

  /** From a reconciled state an insert keeps the ledger reconciled exactly when its copies are current. */
  lemma {:induction false} CurrentInsertReconciles(opening: map<string, Account>, s: Sys, e: Event)
    requires Inv(s) && AllKnown(s) && Inserting(s, e) && Reconciled(opening, s.db)
    ensures Reconciled(opening, Apply(s, e).db) <==> Current(s, e.tid)
  {
    var t := s.threads[e.tid];
    var p := t.job.req.instruction;
    var db' := Apply(s, e).db;
    assert Known(s, t) && Coherent(t);
    StepKeepsKeys(s, e);
    forall v | v in opening
      ensures Net(db'.log, v) == Net(s.db.log, v) + RowEffect(db'.log[|s.db.log|], v)
    {
      NetOfAppended(s.db.log, db'.log[|s.db.log|], v);
    }
    if t.pc.Committing? && Reconciled(opening, db') {
      assert db'.accounts[p.receiverVpa].balance == t.pc.receiver.balance + p.amount;
      assert p.senderVpa in opening && p.receiverVpa in opening;
    }
  }

  /** The ledger explains every balance after every event exactly when every commit wrote over what it had read. */
  lemma {:induction false} ReconciledExactlyWhenCurrent(s: Sys, events: seq<Event>)
    requires Start(s) && s.db.log == [] && NoReset(events)
    ensures ReconciledThroughout(s, events) <==> CurrentThroughout(s, events)
  {
    if events != [] {
      var init, last := events[..|events| - 1], events[|events| - 1];
      ReconciledExactlyWhenCurrent(s, init);
      RunKeepsInv(s, init);
      RunKeepsKnown(s, init);
      MoneyMovesOnlyWithItsRow(Run(s, init), last);
      if Inserting(Run(s, init), last) && Reconciled(s.db.accounts, Run(s, init).db) {
        CurrentInsertReconciles(s.db.accounts, Run(s, init), last);
      }
    }
  }

  // ---- the stale read ----

  function Payer(req: Request): Thread {
    Thread(Job(req, true), ReadingSender(1), None, None)
  }

  function Round(now: int): seq<Event> {
    [Step(0, now), Step(1, now)]
  }

  /** Both read before either commits. */
  function Overlapped(now: int): seq<Event> {
    Round(now) + Round(now) + Round(now)
  }

  /** Two payments out of one account to two others, each covered on its own but perhaps not together. */
  ghost predicate TwoPayments(s: Sys, a: Request, b: Request) {
    var p, q := a.instruction, b.instruction;
    && Start(s)
    && s.threads == [Payer(a), Payer(b)]
    && a.packetHash != b.packetHash && !HasHash(s.db.log, a.packetHash) && !HasHash(s.db.log, b.packetHash)
    && p.senderVpa == q.senderVpa && p.senderVpa != p.receiverVpa && p.senderVpa != q.receiverVpa
    && p.receiverVpa != q.receiverVpa
    && p.senderVpa in s.db.accounts && p.receiverVpa in s.db.accounts && q.receiverVpa in s.db.accounts
    && 0 < p.amount <= s.db.accounts[p.senderVpa].balance
    && 0 < q.amount <= s.db.accounts[p.senderVpa].balance
  }

  lemma {:induction false} BothRead(s: Sys, a: Request, b: Request, now: int)
    requires TwoPayments(s, a, b)
    ensures var s4 := Run(Run(s, Round(now)), Round(now));
      var p, q := a.instruction, b.instruction;
      && s4.db == s.db && |s4.threads| == 2
      && s4.threads[0] == Payer(a).(pc := Committing(1, 0, s.db.accounts[p.senderVpa], s.db.accounts[p.receiverVpa]))
      && s4.threads[1] == Payer(b).(pc := Committing(1, 1, s.db.accounts[p.senderVpa], s.db.accounts[q.receiverVpa]))
  {
    RunTwo(s, Step(0, now), Step(1, now));
    RunTwo(Run(s, Round(now)), Step(0, now), Step(1, now));
  }

  /** A commit by thread i from copies of the original accounts. */
  lemma {:induction false} StaleCommit(s: Sys, i: nat, now: int, accounts: map<string, Account>)
    requires i < |s.threads| && s.threads[i].pc.Committing? && s.threads[i].pc.attempt == 1
    requires WellFormed(s.db) && !HasHash(s.db.log, s.threads[i].job.req.packetHash)
    requires var p := s.threads[i].job.req.instruction;
      && p.senderVpa in s.db.accounts && p.receiverVpa in s.db.accounts && p.senderVpa != p.receiverVpa
      && p.senderVpa in accounts && accounts[p.senderVpa].vpa == p.senderVpa
      && s.threads[i].pc.sender == accounts[p.senderVpa]
      && s.threads[i].pc.receiver == s.db.accounts[p.receiverVpa]
    ensures var p := s.threads[i].job.req.instruction;
      var s' := Apply(s, Step(i, now));
      && |s'.threads| == |s.threads|
      && (forall j :: 0 <= j < |s.threads| && j != i ==> s'.threads[j] == s.threads[j])
      && s'.db.log == s.db.log + [Row(s.threads[i].job.req, now, SETTLED).(id := s.db.lastId + 1)]
      && s'.db.accounts == SaveBoth(s.db.accounts, accounts[p.senderVpa], s.db.accounts[p.receiverVpa], p.amount)
      && WellFormed(s'.db)
      && Total(s'.db.accounts)
         == Total(s.db.accounts) + accounts[p.senderVpa].balance - s.db.accounts[p.senderVpa].balance
  {
    var p := s.threads[i].job.req.instruction;
    CommitKeepsWellFormed(s.db, s.seen, s.threads[i].job.req, s.threads[i].pc, now);
    SaveBothTotal(s.db.accounts, accounts[p.senderVpa], s.db.accounts[p.receiverVpa], p.amount);
  }

  lemma {:induction false} HashOfNewRow(log: seq<Transaction>, row: Transaction, hash: string)
    requires !HasHash(log, hash) && row.packetHash != hash
    ensures !HasHash(log + [row], hash)
  {
    forall i | 0 <= i < |log + [row]| ensures (log + [row])[i].packetHash != hash {
      if i < |log| {
        assert log[i].packetHash != hash;
      }
    }
  }

  /** The first debit is lost: both payments are SETTLED and the bank holds `amount` more than before. */
  lemma {:induction false} LostUpdate(s: Sys, a: Request, b: Request, now: int)
    requires TwoPayments(s, a, b)
    ensures var p, q := a.instruction, b.instruction;
      var end := Run(s, Overlapped(now)).db;
      && |end.log| == |s.db.log| + 2
      && end.log[|s.db.log|].status == SETTLED && end.log[|s.db.log| + 1].status == SETTLED
      && p.senderVpa in end.accounts
      && end.accounts[p.senderVpa].balance == s.db.accounts[p.senderVpa].balance - q.amount
      && Total(end.accounts) == Total(s.db.accounts) + p.amount
  {
    BothRead(s, a, b, now);
    var s4 := Run(Run(s, Round(now)), Round(now));
    RunConcat(s, Round(now), Round(now));
    RunConcat(s, Round(now) + Round(now), Round(now));
    RunTwo(s4, Step(0, now), Step(1, now));
    StaleCommit(s4, 0, now, s.db.accounts);
    var s5 := Apply(s4, Step(0, now));
    HashOfNewRow(s.db.log, s5.db.log[|s.db.log|], b.packetHash);
    StaleCommit(s5, 1, now, s.db.accounts);
  }

  lemma {:induction false} SerialOfDistinctPayers(db: Db, calls: seq<Call>)
    requires WellFormed(db)
    requires forall i :: 0 <= i < |calls| ==>
      calls[i].req.instruction.senderVpa != calls[i].req.instruction.receiverVpa
    ensures |db.log| <= |Serial(db, calls).log| && NoSelfPayments(Serial(db, calls).log, |db.log|)
  {
    if calls != [] {
      var init, last := calls[..|calls| - 1], calls[|calls| - 1];
      SerialOfDistinctPayers(db, init);
      SerialKeepsWellFormed(db, init);
      SettleRecordsOnce(Serial(db, init), last.req, last.settledAt);
    }
  }

  /** No order of the two calls, with any clock readings, gives the balances the overlapped run ends with. */
  lemma {:induction false} LostUpdateIsNotSerial(s: Sys, a: Request, b: Request, now: int, calls: seq<Call>)
    requires TwoPayments(s, a, b)
    requires forall i :: 0 <= i < |calls| ==> calls[i].req == a || calls[i].req == b
    ensures Run(s, Overlapped(now)).db.accounts != Serial(s.db, calls).accounts
  {
    LostUpdate(s, a, b, now);
    SerialOfDistinctPayers(s.db, calls);
    SerialConserves(s.db, calls);
  }
}
