/** The events of the step system are what the services do on the heap: one call of a service method each. */
module Steps {
  import opened Types
  import opened Store
  import opened Settlement
  import opened Idempotency
  import opened Ingestion
  import opened Concurrent

  /** The locked block, and another attempt if the hash was taken. */
  method PerformCommit(settlement: SettlementService, req: Request, at: Pc, now: int, ghost seen: Cache)
    returns (pc: Pc, written: set<string>)
    requires settlement.Valid() && at.Committing?
    modifies settlement.db
    ensures settlement.Valid()
    ensures Effect(settlement.db.Contents(), seen, pc, written)
            == CommitEffect(old(settlement.db.Contents()), seen, req, at, now)
  {
    var amount := req.instruction.amount;
    var debited := at.sender.(balance := at.sender.balance - amount);
    var credited := at.receiver.(balance := at.receiver.balance + amount);
    var r := settlement.CommitBoth(debited, credited, Row(req, now, SETTLED));
    if r.Ok? {
      return Finished(Recorded(r.value)), {at.sender.vpa, at.receiver.vpa};
    }
    return if at.attempt < 3 then ReadingSender(at.attempt + 1) else Finished(Failed(r.error)), {};
  }

  /** The next step of a thread, carried out by the services. */
  method Perform(idempotency: IdempotencyService, settlement: SettlementService, t: Thread, clock: nat, now: int)
    returns (pc: Pc, written: set<string>)
    requires settlement.Valid()
    modifies idempotency, settlement.db
    ensures settlement.Valid()
    ensures Effect(settlement.db.Contents(), idempotency.seen, pc, written)
            == Advance(old(settlement.db.Contents()), old(idempotency.seen), t, clock, now)
  {
    var req := t.job.req;
    var p := req.instruction;
    pc, written := t.pc, {};
    match t.pc
    case Arriving =>
      pc := Claiming(now);
    case Claiming(stamp) =>
      var inserted := idempotency.Claim(req.packetHash, stamp);
      pc := if inserted then Checking else Finished(Dropped);
    case Checking =>
      var ageSeconds := TruncDiv(now - p.signedAt, 1000);
      pc := if !t.job.decryptable then Finished(Undecryptable)
            else if ageSeconds > MAX_AGE_SECONDS || ageSeconds < -300 then Finished(NotFresh)
            else ReadingSender(1);
    case ReadingSender(n) =>
      var sender := settlement.accounts.FindById(p.senderVpa);
      pc := if sender.None? then Finished(Failed(UnknownSender)) else ReadingReceiver(n, clock, sender.value);
    case ReadingReceiver(n, since, sender) =>
      var receiver := settlement.accounts.FindById(p.receiverVpa);
      pc := if receiver.None? then Finished(Failed(UnknownReceiver))
            else if p.amount <= 0 then Finished(Failed(NonPositiveAmount))
            else if sender.balance < p.amount then Rejecting(since, sender, receiver.value)
            else Committing(n, since, sender, receiver.value);
    case Committing(_, _, _, _) =>
      pc, written := PerformCommit(settlement, req, t.pc, now, idempotency.seen);
    case Rejecting(_, _, _) =>
      var r := settlement.RecordRejected(req, now);
      pc := Finished(if r.Ok? then Recorded(r.value) else Failed(r.error));
    case Finished(_) =>
  }

  /** An eviction, a cache clear or a database reset. */
  method PerformShared(idempotency: IdempotencyService, db: Database, e: Event, ghost s: Sys)
    requires !e.Step? && db.Valid() && s.db == db.Contents() && s.seen == idempotency.seen
    modifies idempotency, db
    ensures db.Valid()
    ensures Apply(s, e).db == db.Contents() && Apply(s, e).seen == idempotency.seen && Apply(s, e).threads == s.threads
  {
    match e
    case EvictAt(now) => idempotency.EvictExpired(now);
    case ClearCache(_) => idempotency.Clear();
    case ResetDb(_) => db.ResetTables();
  }
}
