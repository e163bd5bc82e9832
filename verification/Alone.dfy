/** A thread nothing interrupts does exactly what the one-shot functions say. */
module Alone {
  import opened Types
  import opened Store
  import opened Settlement
  import opened Ingestion
  import opened Concurrent

  /** Three steps of one thread: an attempt. */
  function Attempt(tid: nat, now: int): seq<Event> {
    [Step(tid, now), Step(tid, now), Step(tid, now)]
  }

  lemma {:induction false} RunThree(s: Sys, e: Event, f: Event, g: Event)
    ensures Run(s, [e, f, g]) == Apply(Apply(Apply(s, e), f), g)
  {
    RunTwo(s, e, f);
    RunSnoc(s, [e, f], g);
    assert [e, f] + [g] == [e, f, g];
  }

  function OutcomeOf(r: Result<Transaction, SettleError>): Outcome {
    match r
    case Ok(tx) => Recorded(tx)
    case Err(e) => Failed(e)
  }

  /** Where two uninterrupted reads leave an attempt. */
  function AfterReads(db: Db, p: PaymentInstruction, attempt: nat, since: nat): Pc {
    if p.senderVpa !in db.accounts then Finished(Failed(UnknownSender))
    else if p.receiverVpa !in db.accounts then Finished(Failed(UnknownReceiver))
    else Decide(p, attempt, since, db.accounts[p.senderVpa], db.accounts[p.receiverVpa])
  }

  /** What an uninterrupted step leaves alone. */
  ghost predicate Unmoved(s: Sys, s': Sys, tid: nat) {
    && s'.db == s.db && s'.seen == s.seen && |s'.threads| == |s.threads|
    && (tid < |s.threads| ==> s'.threads[tid].job == s.threads[tid].job)
  }

  lemma {:induction false} ReadsAlone(s: Sys, tid: nat, now: int)
    requires tid < |s.threads| && s.threads[tid].pc.ReadingSender?
    ensures var s' := Apply(Apply(s, Step(tid, now)), Step(tid, now));
      && Unmoved(s, s', tid)
      && s'.threads[tid].pc == AfterReads(s.db, s.threads[tid].job.req.instruction,
                                          s.threads[tid].pc.attempt, |s.writes|)
  {
  }

  lemma {:induction false} FinishedStep(s: Sys, tid: nat, now: int)
    requires tid < |s.threads| && s.threads[tid].pc.Finished?
    ensures Unmoved(s, Apply(s, Step(tid, now)), tid)
    ensures Apply(s, Step(tid, now)).threads[tid].pc == s.threads[tid].pc
  {
  }

  /** A finished attempt with the given result, or one that met its own hash and goes round again. */
  ghost predicate Attempted(s: Sys, s': Sys, tid: nat, db': Db, r: Result<Transaction, SettleError>)
    requires tid < |s.threads| && s.threads[tid].pc.ReadingSender?
  {
    var n := s.threads[tid].pc.attempt;
    && |s'.threads| == |s.threads| && s'.seen == s.seen && s'.threads[tid].job == s.threads[tid].job
    && (|| (s'.threads[tid].pc == Finished(OutcomeOf(r)) && s'.db == db')
        || (n < 3 && s'.db == s.db && s'.threads[tid].pc == ReadingSender(n + 1)))
  }

  lemma {:induction false} ThirdStep(s: Sys, s2: Sys, tid: nat, now: int)
    requires tid < |s.threads| && s.threads[tid].pc.ReadingSender? && s.threads[tid].pc.attempt <= 3
    requires WellFormed(s.db) && Unmoved(s, s2, tid)
    requires s2.threads[tid].pc == AfterReads(s.db, s.threads[tid].job.req.instruction,
                                              s.threads[tid].pc.attempt, |s.writes|)
    ensures var (db', r) := SettleAtOnce(s.db, s.threads[tid].job.req, now);
      Attempted(s, Apply(s2, Step(tid, now)), tid, db', r)
  {
  }

  /** Three uninterrupted steps make one attempt. */
  lemma {:induction false} AttemptAlone(s: Sys, tid: nat, now: int, db': Db, r: Result<Transaction, SettleError>)
    requires tid < |s.threads| && s.threads[tid].pc.ReadingSender? && s.threads[tid].pc.attempt <= 3
    requires WellFormed(s.db) && (db', r) == SettleAtOnce(s.db, s.threads[tid].job.req, now)
    ensures Attempted(s, Run(s, Attempt(tid, now)), tid, db', r)
  {
    var e := Step(tid, now);
    RunThree(s, e, e, e);
    ReadsAlone(s, tid, now);
    ThirdStep(s, Apply(Apply(s, e), e), tid, now);
  }

  ghost predicate Resting(s: Sys, s': Sys, tid: nat) {
    Unmoved(s, s', tid) && tid < |s.threads| && s'.threads[tid].pc == s.threads[tid].pc
  }

  lemma {:induction false} FinishedStays(s: Sys, tid: nat, now: int)
    requires tid < |s.threads| && s.threads[tid].pc.Finished?
    ensures Resting(s, Run(s, Attempt(tid, now)), tid)
  {
    var e := Step(tid, now);
    RunThree(s, e, e, e);
    FinishedStep(s, tid, now);
    FinishedStep(Apply(s, e), tid, now);
    FinishedStep(Apply(Apply(s, e), e), tid, now);
  }

  /** The three attempts of one settle. */
  function Attempts(tid: nat, now: int): seq<Event> {
    Attempt(tid, now) + Attempt(tid, now) + Attempt(tid, now)
  }

  lemma {:induction false} FinishedStaysThrice(s: Sys, tid: nat, now: int)
    requires tid < |s.threads| && s.threads[tid].pc.Finished?
    ensures Resting(s, Run(s, Attempts(tid, now)), tid)
  {
    var attempt := Attempt(tid, now);
    RunConcat(s, attempt, attempt);
    RunConcat(s, attempt + attempt, attempt);
    FinishedStays(s, tid, now);
    FinishedStays(Run(s, attempt), tid, now);
    FinishedStays(Run(Run(s, attempt), attempt), tid, now);
  }

  /** What three steps do to a settling thread, which may have finished before. */
  ghost predicate Continues(s: Sys, s': Sys, tid: nat, db': Db, r: Result<Transaction, SettleError>)
    requires tid < |s.threads|
  {
    if s.threads[tid].pc.ReadingSender? then Attempted(s, s', tid, db', r) else Resting(s, s', tid)
  }

  lemma {:induction false} ContinuesAlone(s: Sys, tid: nat, now: int, db': Db, r: Result<Transaction, SettleError>)
    requires tid < |s.threads|
    requires || s.threads[tid].pc.Finished?
             || (s.threads[tid].pc.ReadingSender? && s.threads[tid].pc.attempt <= 3
                 && WellFormed(s.db) && (db', r) == SettleAtOnce(s.db, s.threads[tid].job.req, now))
    ensures Continues(s, Run(s, Attempt(tid, now)), tid, db', r)
  {
    if s.threads[tid].pc.Finished? {
      FinishedStays(s, tid, now);
    } else {
      AttemptAlone(s, tid, now, db', r);
    }
  }

  /** The thread has finished with this result and database. */
  ghost predicate EndedWith(s: Sys, s': Sys, tid: nat, db': Db, r: Result<Transaction, SettleError>) {
    && s'.db == db' && s'.seen == s.seen
    && tid < |s'.threads| && s'.threads[tid].pc == Finished(OutcomeOf(r))
  }

  /** An uninterrupted settle ends within three attempts, with the one-shot result. */
  lemma {:induction false} SettleAlone(s: Sys, tid: nat, now: int, db': Db, r: Result<Transaction, SettleError>)
    requires tid < |s.threads| && s.threads[tid].pc == ReadingSender(1)
    requires WellFormed(s.db) && (db', r) == SettleAtOnce(s.db, s.threads[tid].job.req, now)
    ensures EndedWith(s, Run(s, Attempts(tid, now)), tid, db', r)
  {
    var attempt := Attempt(tid, now);
    var s1 := Run(s, attempt);
    var s2 := Run(s1, attempt);
    RunConcat(s, attempt, attempt);
    RunConcat(s, attempt + attempt, attempt);
    ContinuesAlone(s, tid, now, db', r);
    ContinuesAlone(s1, tid, now, db', r);
    ContinuesAlone(s2, tid, now, db', r);
  }

  lemma {:induction false} OneMoreAttempt(s: Sys, tid: nat, now: int)
    requires tid < |s.threads| && s.threads[tid].pc.ReadingSender?
    requires var req := s.threads[tid].job.req;
      var p := req.instruction;
      && HasHash(s.db.log, req.packetHash) && p.senderVpa in s.db.accounts && p.receiverVpa in s.db.accounts
      && 0 < p.amount <= s.db.accounts[p.senderVpa].balance
    ensures var s', n := Run(s, Attempt(tid, now)), s.threads[tid].pc.attempt;
      && Unmoved(s, s', tid)
      && s'.threads[tid].pc == if n < 3 then ReadingSender(n + 1) else Finished(Failed(DuplicateHash))
  {
    var e := Step(tid, now);
    RunThree(s, e, e, e);
    ReadsAlone(s, tid, now);
  }

  /** A covered payment whose hash is taken goes round exactly three times before it fails. */
  lemma {:induction false} DuplicateTakesThreeAttempts(s: Sys, tid: nat, now: int)
    requires tid < |s.threads| && s.threads[tid].pc == ReadingSender(1)
    requires var req := s.threads[tid].job.req;
      var p := req.instruction;
      && HasHash(s.db.log, req.packetHash) && p.senderVpa in s.db.accounts && p.receiverVpa in s.db.accounts
      && 0 < p.amount <= s.db.accounts[p.senderVpa].balance
    ensures var s1 := Run(s, Attempt(tid, now));
      var s2 := Run(s1, Attempt(tid, now));
      var s3 := Run(s2, Attempt(tid, now));
      && Unmoved(s, s1, tid) && tid < |s1.threads| && s1.threads[tid].pc == ReadingSender(2)
      && Unmoved(s, s2, tid) && tid < |s2.threads| && s2.threads[tid].pc == ReadingSender(3)
      && Unmoved(s, s3, tid) && tid < |s3.threads| && s3.threads[tid].pc == Finished(Failed(DuplicateHash))
  {
    var s1 := Run(s, Attempt(tid, now));
    var s2 := Run(s1, Attempt(tid, now));
    OneMoreAttempt(s, tid, now);
    OneMoreAttempt(s1, tid, now);
    OneMoreAttempt(s2, tid, now);
  }

  function JobOf(opener: Opener, packet: MeshPacket, bridgeNodeId: string, hopCount: int): Job {
    var hash := opener.hash(packet.ciphertext);
    match opener.open(packet.ciphertext)
    case Some(p) => Job(Request(p, hash, bridgeNodeId, hopCount), true)
    case None => Job(Request(PaymentInstruction("", "", 0, "", "", 0), hash, bridgeNodeId, hopCount), false)
  }

  ghost predicate Matches(o: Outcome, r: IngestResult) {
    match o
    case Recorded(tx) => r.outcome == tx.status && r.transactionId == Some(tx.id)
    case Failed(e) => r.outcome == INVALID && r.reason == InternalError(e)
    case Dropped => r.outcome == DUPLICATE_DROPPED
    case Undecryptable => r.outcome == INVALID && r.reason == DecryptionFailed
    case NotFresh => r.outcome == INVALID && (r.reason == StalePacket || r.reason == FutureDated)
  }

  /** The clock reading, the claim and the gates. */
  function Gates(tid: nat, t: Readings): seq<Event> {
    [Step(tid, t.claim), Step(tid, t.claim), Step(tid, t.gate)]
  }

  lemma {:induction false} GatesAlone(s: Sys, tid: nat, opener: Opener, packet: MeshPacket, bridgeNodeId: string,
          hopCount: int, t: Readings)
    requires tid < |s.threads| && s.threads[tid].pc.Claiming? && s.threads[tid].pc.stamp == t.claim
    requires s.threads[tid].job == JobOf(opener, packet, bridgeNodeId, hopCount)
    ensures var s2 := Apply(Apply(s, Step(tid, t.claim)), Step(tid, t.gate));
      var (b', r) := IngestAtOnce(Backend(s.seen, s.db), opener, packet, bridgeNodeId, hopCount, t);
      && s2.db == s.db && tid < |s2.threads| && s2.seen == b'.seen && s2.threads[tid].job == s.threads[tid].job
      && (|| (s2.threads[tid].pc.Finished? && Matches(s2.threads[tid].pc.outcome, r) && b'.db == s.db)
          || (s2.threads[tid].pc == ReadingSender(1)
              && var (db', settled) := SettleAtOnce(s.db, s.threads[tid].job.req, t.insert);
                 b'.db == db' && Matches(OutcomeOf(settled), r)))
  {
  }

  lemma {:induction false} ArriveAlone(s: Sys, tid: nat, now: int)
    requires tid < |s.threads| && s.threads[tid].pc.Arriving?
    ensures Unmoved(s, Apply(s, Step(tid, now)), tid)
    ensures Apply(s, Step(tid, now)).threads[tid].pc == Claiming(now)
  {
  }

  /** The stepwise ingest, run alone, is the one-shot ingest. */
  lemma {:induction false} IngestAlone(s: Sys, tid: nat, opener: Opener, packet: MeshPacket, bridgeNodeId: string,
          hopCount: int, t: Readings)
    requires WellFormed(s.db) && tid < |s.threads| && s.threads[tid].pc.Arriving?
    requires s.threads[tid].job == JobOf(opener, packet, bridgeNodeId, hopCount)
    ensures var s' := Run(s, Gates(tid, t) + Attempts(tid, t.insert));
      var (b', r) := IngestAtOnce(Backend(s.seen, s.db), opener, packet, bridgeNodeId, hopCount, t);
      && Backend(s'.seen, s'.db) == b'
      && tid < |s'.threads| && s'.threads[tid].pc.Finished? && Matches(s'.threads[tid].pc.outcome, r)
  {
    var s1 := Apply(s, Step(tid, t.claim));
    ArriveAlone(s, tid, t.claim);
    RunThree(s, Step(tid, t.claim), Step(tid, t.claim), Step(tid, t.gate));
    RunConcat(s, Gates(tid, t), Attempts(tid, t.insert));
    var s3 := Apply(Apply(s1, Step(tid, t.claim)), Step(tid, t.gate));
    GatesAlone(s1, tid, opener, packet, bridgeNodeId, hopCount, t);
    if s3.threads[tid].pc.Finished? {
      FinishedStaysThrice(s3, tid, t.insert);
    } else {
      var (db', settled) := SettleAtOnce(s.db, s.threads[tid].job.req, t.insert);
      SettleAlone(s3, tid, t.insert, db', settled);
    }
  }
}
