/** Many ingests and settles at once. Each event is a clock reading or one step a thread takes while it holds one
    mutex, an eviction, a cache clear or a database reset; a run is any list of events. */
module Concurrent {
  import opened Types
  import opened Store
  import opened Settlement
  import opened Idempotency
  import Ingestion
  import Ledger

  /** One packet to ingest: the request it decrypts to, or an undecryptable one. */
  datatype Job = Job(req: Request, decryptable: bool)

  datatype Outcome = Recorded(tx: Transaction) | Failed(error: SettleError) | Dropped | Undecryptable | NotFresh

  /** Where a thread is. Between its steps it holds no mutex, so the clock reading its claim carries (`stamp`) and
      the account copies may go stale.
      `since` is the number of events that had happened when the attempt read its first account. */
  datatype Pc =
    | Arriving
    | Claiming(stamp: int)
    | Checking
    | ReadingSender(attempt: nat)
    | ReadingReceiver(attempt: nat, since: nat, sender: Account)
    | Committing(attempt: nat, since: nat, sender: Account, receiver: Account)
    | Rejecting(since: nat, sender: Account, receiver: Account)
    | Finished(outcome: Outcome)

  /** A claim that went through: the time stored with it, and when it was stored. */
  datatype Claimed = Claimed(stamp: int, at: int)

  /** `claim` and `gatedAt` record how the thread passed the claim and when it passed the age check. */
  datatype Thread = Thread(job: Job, pc: Pc, claim: Option<Claimed>, gatedAt: Option<int>)

  /** `writes` lists, event by event, the accounts the event wrote. */
  datatype Sys = Sys(db: Db, seen: Cache, threads: seq<Thread>, writes: seq<set<string>>)

  datatype Event = Step(tid: nat, now: int) | EvictAt(now: int) | ClearCache(now: int) | ResetDb(now: int)

  datatype Effect = Effect(db: Db, seen: Cache, pc: Pc, written: set<string>)

  /** What an attempt does with its two copies. */
  function Decide(p: PaymentInstruction, attempt: nat, since: nat, sender: Account, receiver: Account): Pc {
    if p.amount <= 0 then Finished(Failed(NonPositiveAmount))
    else if sender.balance < p.amount then Rejecting(since, sender, receiver)
    else Committing(attempt, since, sender, receiver)
  }

  /** The locked part of a settle that found the balance sufficient. */
  function CommitEffect(db: Db, seen: Cache, req: Request, pc: Pc, now: int): Effect
    requires pc.Committing?
  {
    if HasHash(db.log, req.packetHash) then
      Effect(db, seen, if pc.attempt >= 3 then Finished(Failed(DuplicateHash)) else ReadingSender(pc.attempt + 1), {})
    else
      var row := Row(req, now, SETTLED);
      var accounts := SaveBoth(db.accounts, pc.sender, pc.receiver, req.instruction.amount);
      Effect(Append(db, row).(accounts := accounts), seen,
             Finished(Recorded(row.(id := db.lastId + 1))), {pc.sender.vpa, pc.receiver.vpa})
  }

  function RejectEffect(db: Db, seen: Cache, req: Request, now: int): Effect {
    if HasHash(db.log, req.packetHash) then Effect(db, seen, Finished(Failed(DuplicateHash)), {})
    else
      var row := Row(req, now, REJECTED);
      Effect(Append(db, row), seen, Finished(Recorded(row.(id := db.lastId + 1))), {})
  }

  function Advance(db: Db, seen: Cache, t: Thread, clock: nat, now: int): Effect {
    var req := t.job.req;
    var p := req.instruction;
    match t.pc
    case Arriving => Effect(db, seen, Claiming(now), {})
    case Claiming(stamp) =>
      if req.packetHash in seen then Effect(db, seen, Finished(Dropped), {})
      else Effect(db, Claim(seen, req.packetHash, stamp), Checking, {})
    case Checking =>
      if !t.job.decryptable then Effect(db, seen, Finished(Undecryptable), {})
      else if !Ingestion.Fresh(now, p.signedAt) then Effect(db, seen, Finished(NotFresh), {})
      else Effect(db, seen, ReadingSender(1), {})
    case ReadingSender(n) =>
      if p.senderVpa !in db.accounts then Effect(db, seen, Finished(Failed(UnknownSender)), {})
      else Effect(db, seen, ReadingReceiver(n, clock, db.accounts[p.senderVpa]), {})
    case ReadingReceiver(n, since, sender) =>
      if p.receiverVpa !in db.accounts then Effect(db, seen, Finished(Failed(UnknownReceiver)), {})
      else Effect(db, seen, Decide(p, n, since, sender, db.accounts[p.receiverVpa]), {})
    case Committing(_, _, _, _) => CommitEffect(db, seen, req, t.pc, now)
    case Rejecting(_, _, _) => RejectEffect(db, seen, req, now)
    case Finished(_) => Effect(db, seen, t.pc, {})
  }

  function Moved(t: Thread, pc: Pc, now: int): Thread {
    t.(pc := pc,
       claim := if t.pc.Claiming? && pc.Checking? then Some(Claimed(t.pc.stamp, now)) else t.claim,
       gatedAt := if t.pc.Checking? && pc.ReadingSender? then Some(now) else t.gatedAt)
  }

  function Apply(s: Sys, e: Event): Sys {
    match e
    case Step(tid, now) =>
      if tid < |s.threads| then
        var f := Advance(s.db, s.seen, s.threads[tid], |s.writes|, now);
        Sys(f.db, f.seen, s.threads[tid := Moved(s.threads[tid], f.pc, now)], s.writes + [f.written])
      else s.(writes := s.writes + [{}])
    case EvictAt(now) => s.(seen := Evict(s.seen, now), writes := s.writes + [{}])
    case ClearCache(_) => s.(seen := map[], writes := s.writes + [{}])
    case ResetDb(_) => s.(db := Reset(s.db), writes := s.writes + [s.db.accounts.Keys + Seed().Keys])
  }

  function Run(s: Sys, events: seq<Event>): Sys {
    if events == [] then s else Apply(Run(s, events[..|events| - 1]), events[|events| - 1])
  }

  lemma {:induction false} RunSnoc(s: Sys, events: seq<Event>, e: Event)
    ensures Run(s, events + [e]) == Apply(Run(s, events), e)
  {
    assert (events + [e])[..|events|] == events;
  }

  lemma {:induction false} RunOne(s: Sys, e: Event)
    ensures Run(s, [e]) == Apply(s, e)
  {
    RunSnoc(s, [], e);
    assert [] + [e] == [e];
  }

  lemma {:induction false} RunTwo(s: Sys, e: Event, f: Event)
    ensures Run(s, [e, f]) == Apply(Apply(s, e), f)
  {
    RunOne(s, e);
    RunSnoc(s, [e], f);
    assert [e] + [f] == [e, f];
  }

  lemma {:induction false} RunConcat(s: Sys, a: seq<Event>, b: seq<Event>)
    ensures Run(s, a + b) == Run(Run(s, a), b)
  {
    if b == [] {
      assert a + b == a;
    } else {
      assert (a + b)[..|a + b| - 1] == a + b[..|b| - 1];
      RunConcat(s, a, b[..|b| - 1]);
    }
  }

  /** Nothing has happened yet: every thread is an ingest before it reads the clock for its claim, or a settle before
      its first read. */
  ghost predicate Start(s: Sys) {
    && WellFormed(s.db)
    && s.writes == []
    && forall i :: 0 <= i < |s.threads| ==>
      && (s.threads[i].pc == Arriving || s.threads[i].pc == ReadingSender(1))
      && s.threads[i].claim.None? && s.threads[i].gatedAt.None?
  }

  // ---- what holds in every interleaving, resets and evictions included ----

  /** The copies a thread carries belong to its parties, and its decision fits its copies. */
  ghost predicate Coherent(t: Thread) {
    var p := t.job.req.instruction;
    && (t.pc.ReadingReceiver? ==> t.pc.sender.vpa == p.senderVpa)
    && (t.pc.Committing? || t.pc.Rejecting? ==>
      t.pc.sender.vpa == p.senderVpa && t.pc.receiver.vpa == p.receiverVpa && p.amount > 0)
    && (t.pc.Committing? ==> t.pc.sender.balance >= p.amount)
    && (t.pc.Rejecting? ==> t.pc.sender.balance < p.amount)
  }

  ghost predicate Inv(s: Sys) {
    WellFormed(s.db) && forall i :: 0 <= i < |s.threads| ==> Coherent(s.threads[i])
  }

  lemma {:induction false} CommitKeepsWellFormed(db: Db, seen: Cache, req: Request, pc: Pc, now: int)
    requires WellFormed(db) && pc.Committing?
    ensures WellFormed(CommitEffect(db, seen, req, pc, now).db)
  {
    if !HasHash(db.log, req.packetHash) {
      AppendKeepsWellFormed(db, Row(req, now, SETTLED));
    }
  }

  lemma {:induction false} RejectKeepsWellFormed(db: Db, seen: Cache, req: Request, now: int)
    requires WellFormed(db)
    ensures WellFormed(RejectEffect(db, seen, req, now).db)
  {
    if !HasHash(db.log, req.packetHash) {
      AppendKeepsWellFormed(db, Row(req, now, REJECTED));
    }
  }

  lemma {:induction false} AdvanceKeepsWellFormed(db: Db, seen: Cache, t: Thread, clock: nat, now: int)
    requires WellFormed(db)
    ensures WellFormed(Advance(db, seen, t, clock, now).db)
  {
    if t.pc.Committing? {
      CommitKeepsWellFormed(db, seen, t.job.req, t.pc, now);
    } else if t.pc.Rejecting? {
      RejectKeepsWellFormed(db, seen, t.job.req, now);
    }
  }

  lemma {:induction false} AdvanceKeepsCoherent(db: Db, seen: Cache, t: Thread, clock: nat, now: int)
    requires WellFormed(db) && Coherent(t)
    ensures Coherent(Moved(t, Advance(db, seen, t, clock, now).pc, now))
  {
  }

  lemma {:induction false} ResetKeepsWellFormed(db: Db)
    ensures WellFormed(Reset(db)) && Ledger.NoneNegative(Reset(db).accounts)
  {
    Ledger.SeedTotal();
  }

  lemma {:induction false} ApplyKeepsInv(s: Sys, e: Event)
    requires Inv(s)
    ensures Inv(Apply(s, e))
  {
    if e.Step? && e.tid < |s.threads| {
      AdvanceKeepsWellFormed(s.db, s.seen, s.threads[e.tid], |s.writes|, e.now);
      AdvanceKeepsCoherent(s.db, s.seen, s.threads[e.tid], |s.writes|, e.now);
    }
    ResetKeepsWellFormed(s.db);
  }

  lemma {:induction false} RunKeepsInv(s: Sys, events: seq<Event>)
    requires Start(s)
    ensures Inv(Run(s, events))
  {
    if events != [] {
      RunKeepsInv(s, events[..|events| - 1]);
      ApplyKeepsInv(Run(s, events[..|events| - 1]), events[|events| - 1]);
    }
  }

  ghost predicate CopiesNotNegative(t: Thread) {
    && (t.pc.ReadingReceiver? || t.pc.Committing? ==> t.pc.sender.balance >= 0)
    && (t.pc.Committing? ==> t.pc.receiver.balance >= 0)
  }

  lemma {:induction false} AdvanceStaysNotNegative(db: Db, seen: Cache, t: Thread, clock: nat, now: int)
    requires WellFormed(db) && Coherent(t) && Ledger.NoneNegative(db.accounts) && CopiesNotNegative(t)
    ensures var f := Advance(db, seen, t, clock, now);
      Ledger.NoneNegative(f.db.accounts) && CopiesNotNegative(Moved(t, f.pc, now))
  {
  }

  /** However stale the copies get, no stored balance ever becomes negative. */
  lemma {:induction false} NoNegativeBalance(s: Sys, events: seq<Event>)
    requires Start(s) && Ledger.NoneNegative(s.db.accounts)
    ensures Ledger.NoneNegative(Run(s, events).db.accounts)
    ensures forall i :: 0 <= i < |Run(s, events).threads| ==> CopiesNotNegative(Run(s, events).threads[i])
  {
    if events != [] {
      var init, e := events[..|events| - 1], events[|events| - 1];
      NoNegativeBalance(s, init);
      RunKeepsInv(s, init);
      var before := Run(s, init);
      if e.Step? && e.tid < |before.threads| {
        AdvanceStaysNotNegative(before.db, before.seen, before.threads[e.tid], |before.writes|, e.now);
      }
      ResetKeepsWellFormed(before.db);
    }
  }

  /** The event inserts a row. */
  predicate Inserting(s: Sys, e: Event) {
    && e.Step? && e.tid < |s.threads|
    && (s.threads[e.tid].pc.Committing? || s.threads[e.tid].pc.Rejecting?)
    && !HasHash(s.db.log, s.threads[e.tid].job.req.packetHash)
  }

  /** The event writes balances on behalf of a hash. */
  predicate Paying(s: Sys, e: Event, hash: string) {
    Inserting(s, e) && s.threads[e.tid].pc.Committing? && s.threads[e.tid].job.req.packetHash == hash
  }

  /** Balances change only in the event that inserts the SETTLED row paying for it. */
  lemma {:induction false} MoneyMovesOnlyWithItsRow(s: Sys, e: Event)
    ensures var s' := Apply(s, e);
      && (!Inserting(s, e) && !e.ResetDb? ==> s'.db == s.db && s'.writes == s.writes + [{}])
      && (Inserting(s, e) ==>
        var t := s.threads[e.tid];
        && s'.db.log == s.db.log + [Row(t.job.req, e.now, if t.pc.Committing? then SETTLED else REJECTED)
                                      .(id := s.db.lastId + 1)]
        && s'.threads[e.tid].pc == Finished(Recorded(s'.db.log[|s.db.log|]))
        && (t.pc.Rejecting? ==> s'.db.accounts == s.db.accounts && s'.writes == s.writes + [{}])
        && (t.pc.Committing? ==> s'.writes == s.writes + [{t.pc.sender.vpa, t.pc.receiver.vpa}])
        && (forall v :: v in s.db.accounts && v !in s'.writes[|s.writes|] ==>
              v in s'.db.accounts && s'.db.accounts[v] == s.db.accounts[v]))
  {
  }

  /** In every run: outside a reset the database changes only by one row, which says what the thread was asked; a
      balance changes only if that row is SETTLED, and then only for its two parties. */
  lemma {:induction false} OnlyItsPartiesArePaid(s: Sys, events: seq<Event>, e: Event, v: string)
    requires Start(s) && !e.ResetDb?
    requires v in Run(s, events).db.accounts
    ensures var before := Run(s, events);
      var after := Apply(before, e);
      && v in after.db.accounts
      && (after.db != before.db ==>
        && e.Step? && e.tid < |before.threads|
        && |after.db.log| == |before.db.log| + 1 && after.db.log[..|before.db.log|] == before.db.log
        && var row := after.db.log[|before.db.log|];
           && RowOf(row, before.threads[e.tid].job.req, e.now)
           && row.id == after.db.lastId == before.db.lastId + 1 && row.amount > 0
           && (after.db.accounts[v] == before.db.accounts[v]
               || (row.status == SETTLED && (v == row.senderVpa || v == row.receiverVpa)))
           && (row.status == SETTLED || (row.status == REJECTED && after.db.accounts == before.db.accounts)))
  {
    RunKeepsInv(s, events);
    MoneyMovesOnlyWithItsRow(Run(s, events), e);
  }

  /** How often balances were written for a hash since the last reset. */
  ghost function Payments(s: Sys, events: seq<Event>, hash: string): nat {
    if events == [] then 0
    else
      var init, last := events[..|events| - 1], events[|events| - 1];
      if last.ResetDb? then 0
      else Payments(s, init, hash) + if Paying(Run(s, init), last, hash) then 1 else 0
  }

  function SettledRowsFor(log: seq<Transaction>, hash: string): nat {
    if log == [] then 0
    else SettledRowsFor(log[..|log| - 1], hash)
         + if log[|log| - 1].packetHash == hash && log[|log| - 1].status == SETTLED then 1 else 0
  }

  lemma {:induction false} SettledRowsAreRows(log: seq<Transaction>, hash: string)
    ensures SettledRowsFor(log, hash) <= RowsFor(log, hash)
  {
    if log != [] {
      SettledRowsAreRows(log[..|log| - 1], hash);
    }
  }

  /** Every payment made since the last reset has its own SETTLED row, and the other way round. */
  lemma {:induction false} PaymentsAreSettledRows(s: Sys, events: seq<Event>, hash: string)
    requires Start(s) && s.db.log == []
    ensures Payments(s, events, hash) == SettledRowsFor(Run(s, events).db.log, hash)
  {
    if events != [] {
      var init, last := events[..|events| - 1], events[|events| - 1];
      PaymentsAreSettledRows(s, init, hash);
      var before := Run(s, init);
      MoneyMovesOnlyWithItsRow(before, last);
      if Inserting(before, last) {
        assert Run(s, events).db.log[..|before.db.log|] == before.db.log;
      }
    }
  }

  /** Exactly once: between two resets a hash has at most one row and its money moves at most once,
      and then in the event that writes its row. Any interleaving of ingests, settles, evictions and clears. */
  lemma {:induction false} ExactlyOnce(s: Sys, events: seq<Event>, hash: string)
    requires Start(s) && s.db.log == []
    ensures Payments(s, events, hash) == SettledRowsFor(Run(s, events).db.log, hash)
            <= RowsFor(Run(s, events).db.log, hash) <= 1
  {
    RunKeepsInv(s, events);
    PaymentsAreSettledRows(s, events, hash);
    SettledRowsAreRows(Run(s, events).db.log, hash);
    AtMostOneRow(Run(s, events).db, hash);
  }
}
