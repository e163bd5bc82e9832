/** The locked block of `settle` statement by statement: BEGIN, two saves, the insert, COMMIT or ROLLBACK, and
    the release of the mutex are separate steps. Every such run is a run of the coarser `Concurrent` system,
    and readers never see the middle of a block. */
module Locking {
  import opened Types
  import opened Store
  import opened Settlement
  import opened Idempotency
  import opened Concurrent
  import Ledger

  /** The next statement of the block. */
  datatype Stage = Begin | SaveSender | SaveReceiver | Insert | Commit(row: Transaction) | Rollback | Release

  /** The thread that holds the database mutex across several steps. */
  datatype Holder = Holder(tid: nat, stage: Stage)

  /** `conn` is what the shared connection shows, uncommitted changes included; `snapshot` is what ROLLBACK
      restores; `observed` collects what each `findAll` returned. */
  datatype Fine = Fine(
    conn: Db, snapshot: Option<Db>, holder: Option<Holder>, seen: Cache, threads: seq<Thread>,
    writes: seq<set<string>>, observed: seq<map<string, Account>>)

  datatype FineEvent = Do(event: Event) | FindAll

  /** What is committed. */
  function Committed(m: Fine): Sys {
    Sys(if m.snapshot.Some? then m.snapshot.value else m.conn, m.seen, m.threads, m.writes)
  }

  /** A step outside the block; one that touches the database happens only when no transaction is open. */
  function Outside(m: Fine, e: Event): Fine {
    var s := Apply(Committed(m), e);
    m.(conn := if m.holder.None? then s.db else m.conn, seen := s.seen, threads := s.threads, writes := s.writes)
  }

  /** The thread ends its attempt. */
  function Leave(m: Fine, tid: nat, pc: Pc, written: set<string>): Fine
    requires tid < |m.threads|
  {
    m.(snapshot := None, holder := Some(Holder(tid, Release)),
       threads := m.threads[tid := m.threads[tid].(pc := pc)], writes := m.writes + [written])
  }

  function Inside(m: Fine, tid: nat, stage: Stage, now: int): Fine
    requires tid < |m.threads|
  {
    var t := m.threads[tid];
    if stage.Release? then m.(holder := None)
    else if !t.pc.Committing? then m
    else
      var amount := t.job.req.instruction.amount;
      var sender := t.pc.sender.(balance := t.pc.sender.balance - amount);
      var receiver := t.pc.receiver.(balance := t.pc.receiver.balance + amount);
      match stage
      case Begin => m.(snapshot := Some(m.conn), holder := Some(Holder(tid, SaveSender)))
      case SaveSender =>
        m.(conn := m.conn.(accounts := m.conn.accounts[sender.vpa := sender]),
           holder := Some(Holder(tid, SaveReceiver)))
      case SaveReceiver =>
        m.(conn := m.conn.(accounts := m.conn.accounts[receiver.vpa := receiver]), holder := Some(Holder(tid, Insert)))
      case Insert =>
        if HasHash(m.conn.log, t.job.req.packetHash) then m.(holder := Some(Holder(tid, Rollback)))
        else
          var row := Row(t.job.req, now, SETTLED);
          m.(conn := Append(m.conn, row), holder := Some(Holder(tid, Commit(row.(id := m.conn.lastId + 1)))))
      case Commit(row) => Leave(m, tid, Finished(Recorded(row)), {sender.vpa, receiver.vpa})
      case Rollback =>
        var pc := if t.pc.attempt >= 3 then Finished(Failed(DuplicateHash)) else ReadingSender(t.pc.attempt + 1);
        if m.snapshot.None? then m else Leave(m.(conn := m.snapshot.value), tid, pc, {})
      case Release => m
  }

  /** The database mutex is not needed for these steps. */
  predicate Lockless(pc: Pc) {
    pc.Arriving? || pc.Claiming? || pc.Checking? || pc.Finished?
  }

  function FineApply(m: Fine, f: FineEvent): Fine {
    match f
    case FindAll => if m.holder.None? then m.(observed := m.observed + [m.conn.accounts]) else m
    case Do(e) =>
      match e
      case Step(tid, now) =>
        if tid >= |m.threads| then m
        else if m.holder.Some? && m.holder.value.tid == tid then Inside(m, tid, m.holder.value.stage, now)
        else if Lockless(m.threads[tid].pc) then Outside(m, e)
        else if m.holder.Some? then m // blocked on the mutex
        else if m.threads[tid].pc.Committing? then m.(holder := Some(Holder(tid, Begin)))
        else Outside(m, e)
      case EvictAt(_) => Outside(m, e)
      case ClearCache(_) => Outside(m, e)
      case ResetDb(_) => if m.holder.Some? then m else Outside(m, e)
  }

  function FineRun(m: Fine, fs: seq<FineEvent>): Fine {
    if fs == [] then m else FineApply(FineRun(m, fs[..|fs| - 1]), fs[|fs| - 1])
  }

  /** The coarse event a fine one stands for, if any: a block counts when it commits or rolls back. */
  function Meaning(m: Fine, f: FineEvent): seq<Event> {
    match f
    case FindAll => []
    case Do(e) =>
      match e
      case Step(tid, now) =>
        if tid >= |m.threads| then []
        else if m.holder.Some? && m.holder.value.tid == tid then
          match m.holder.value.stage
          case Commit(row) => [Step(tid, row.settledAt)]
          case Rollback => [Step(tid, now)]
          case _ => []
        else if Lockless(m.threads[tid].pc) then [e]
        else if m.holder.Some? || m.threads[tid].pc.Committing? then []
        else [e]
      case EvictAt(_) => [e]
      case ClearCache(_) => [e]
      case ResetDb(_) => if m.holder.Some? then [] else [e]
  }

  ghost function Coarse(m: Fine, fs: seq<FineEvent>): seq<Event> {
    if fs == [] then []
    else Coarse(m, fs[..|fs| - 1]) + Meaning(FineRun(m, fs[..|fs| - 1]), fs[|fs| - 1])
  }

  /** How far the connection is ahead of the snapshot, stage by stage. */
  ghost predicate StageInv(m: Fine, t: Thread, stage: Stage) {
    if stage.Release? then m.snapshot.None?
    else
      && t.pc.Committing?
      && (stage.Begin? <==> m.snapshot.None?)
      && (!stage.Begin? ==>
        var base, amount := m.snapshot.value, t.job.req.instruction.amount;
        var debited := t.pc.sender.(balance := t.pc.sender.balance - amount);
        var both := SaveBoth(base.accounts, t.pc.sender, t.pc.receiver, amount);
        match stage
        case Begin => true
        case SaveSender => m.conn == base
        case SaveReceiver => m.conn == base.(accounts := base.accounts[debited.vpa := debited])
        case Insert => m.conn == base.(accounts := both)
        case Commit(row) =>
          && !HasHash(base.log, t.job.req.packetHash)
          && row == Row(t.job.req, row.settledAt, SETTLED).(id := base.lastId + 1)
          && m.conn == Append(base, row).(accounts := both)
        case Rollback => HasHash(base.log, t.job.req.packetHash)
        case Release => true)
  }

  /** A transaction is open only while a thread holds the mutex. */
  ghost predicate FineInv(m: Fine) {
    && (m.holder.None? ==> m.snapshot.None?)
    && (m.holder.Some? ==>
      m.holder.value.tid < |m.threads| && StageInv(m, m.threads[m.holder.value.tid], m.holder.value.stage))
  }

  lemma {:induction false} StatementStep(m: Fine, tid: nat, stage: Stage, now: int)
    requires FineInv(m) && m.holder == Some(Holder(tid, stage)) && !stage.Commit? && !stage.Rollback?
    ensures var m' := Inside(m, tid, stage, now);
      FineInv(m') && m'.observed == m.observed && Committed(m') == Committed(m)
  {
  }

  lemma {:induction false} CommitStep(m: Fine, tid: nat, row: Transaction, now: int)
    requires FineInv(m) && m.holder == Some(Holder(tid, Commit(row)))
    ensures var m' := Inside(m, tid, Commit(row), now);
      FineInv(m') && m'.observed == m.observed && Committed(m') == Apply(Committed(m), Step(tid, row.settledAt))
  {
    var t := m.threads[tid];
    var f := CommitEffect(m.snapshot.value, m.seen, t.job.req, t.pc, row.settledAt);
    assert m.conn == f.db && Finished(Recorded(row)) == f.pc;
  }

  lemma {:induction false} RollbackStep(m: Fine, tid: nat, now: int)
    requires FineInv(m) && m.holder == Some(Holder(tid, Rollback))
    ensures var m' := Inside(m, tid, Rollback, now);
      FineInv(m') && m'.observed == m.observed && Committed(m') == Apply(Committed(m), Step(tid, now))
  {
    var t := m.threads[tid];
    var f := CommitEffect(m.snapshot.value, m.seen, t.job.req, t.pc, now);
    assert f.db == m.snapshot.value && f.written == {};
  }

  lemma {:induction false} InsideStep(m: Fine, tid: nat, stage: Stage, now: int)
    requires FineInv(m) && m.holder == Some(Holder(tid, stage))
    ensures var m' := Inside(m, tid, stage, now);
      && FineInv(m') && m'.observed == m.observed
      && Committed(m') == Run(Committed(m), Meaning(m, Do(Step(tid, now))))
  {
    var e := Meaning(m, Do(Step(tid, now)));
    match stage
    case Commit(row) =>
      CommitStep(m, tid, row, now);
      RunOne(Committed(m), e[0]);
    case Rollback =>
      RollbackStep(m, tid, now);
      RunOne(Committed(m), e[0]);
    case _ =>
      StatementStep(m, tid, stage, now);
  }

  lemma {:induction false} OutsideStep(m: Fine, e: Event)
    requires FineInv(m)
    requires m.holder.None? || e.EvictAt? || e.ClearCache? ||
      (e.Step? && e.tid != m.holder.value.tid && e.tid < |m.threads| && Lockless(m.threads[e.tid].pc))
    ensures FineInv(Outside(m, e)) && Outside(m, e).observed == m.observed
    ensures Committed(Outside(m, e)) == Run(Committed(m), [e])
  {
    RunOne(Committed(m), e);
  }

  /** Each fine step is a coarse step or no step. */
  lemma {:induction false} FineStep(m: Fine, f: FineEvent)
    requires FineInv(m)
    ensures FineInv(FineApply(m, f))
    ensures Committed(FineApply(m, f)) == Run(Committed(m), Meaning(m, f))
    ensures FineApply(m, f).observed ==
      if f.FindAll? && m.holder.None? then m.observed + [Committed(m).db.accounts] else m.observed
  {
    if f.Do? {
      if f.event.Step? && m.holder.Some? && f.event.tid == m.holder.value.tid {
        InsideStep(m, f.event.tid, m.holder.value.stage, f.event.now);
      } else if Meaning(m, f) == [f.event] {
        OutsideStep(m, f.event);
      }
    }
  }

  ghost predicate FineStart(m: Fine) {
    m.holder.None? && m.snapshot.None? && m.observed == []
  }

  /** The statement-level system refines the coarse one. */
  lemma {:induction false} FineRefinesCoarse(m: Fine, fs: seq<FineEvent>)
    requires FineStart(m)
    ensures FineInv(FineRun(m, fs))
    ensures Committed(FineRun(m, fs)) == Run(Committed(m), Coarse(m, fs))
  {
    if fs != [] {
      var init := fs[..|fs| - 1];
      FineRefinesCoarse(m, init);
      FineStep(FineRun(m, init), fs[|fs| - 1]);
      RunConcat(Committed(m), Coarse(m, init), Meaning(FineRun(m, init), fs[|fs| - 1]));
    }
  }

  /** For each `findAll` that got the mutex, how many coarse events had happened by then. */
  ghost function ReadPoints(m: Fine, fs: seq<FineEvent>): seq<nat> {
    if fs == [] then []
    else
      var init, f := fs[..|fs| - 1], fs[|fs| - 1];
      ReadPoints(m, init) + if f.FindAll? && FineRun(m, init).holder.None? then [|Coarse(m, init)|] else []
  }

  /** Each read returned the accounts after a prefix of the run, and later reads came no earlier in it. */
  ghost predicate ReadsFollow(s: Sys, events: seq<Event>, points: seq<nat>, observed: seq<map<string, Account>>) {
    && |points| == |observed|
    && (forall i :: 0 <= i < |points| ==>
          points[i] <= |events| && observed[i] == Run(s, events[..points[i]]).db.accounts)
    && (forall i, j :: 0 <= i < j < |points| ==> points[i] <= points[j])
  }

  lemma {:induction false} ReadsFollowLonger(s: Sys, events: seq<Event>, more: seq<Event>, points: seq<nat>,
                                             observed: seq<map<string, Account>>)
    requires ReadsFollow(s, events, points, observed)
    ensures ReadsFollow(s, events + more, points, observed)
  {
    forall i | 0 <= i < |points|
      ensures points[i] <= |events + more| && observed[i] == Run(s, (events + more)[..points[i]]).db.accounts
    {
      assert (events + more)[..points[i]] == events[..points[i]];
    }
  }

  lemma {:induction false} ReadsFollowOneMore(s: Sys, events: seq<Event>, points: seq<nat>, observed: seq<map<string,
          Account>>)
    requires ReadsFollow(s, events, points, observed)
    ensures ReadsFollow(s, events, points + [|events|], observed + [Run(s, events).db.accounts])
  {
    assert events[..|events|] == events;
  }

  /** Whenever the mutex is free no transaction is open and the connection shows the committed state; and in every
      interleaving each `findAll` returned the accounts as the whole commits before it had left them. */
  lemma {:induction false} ReaderAtomicity(m: Fine, fs: seq<FineEvent>)
    requires FineStart(m)
    ensures var end := FineRun(m, fs);
      && (end.holder.None? ==> end.snapshot.None? && end.conn == Run(Committed(m), Coarse(m, fs)).db)
      && ReadsFollow(Committed(m), Coarse(m, fs), ReadPoints(m, fs), end.observed)
  {
    FineRefinesCoarse(m, fs);
    if fs != [] {
      var init, f := fs[..|fs| - 1], fs[|fs| - 1];
      ReaderAtomicity(m, init);
      FineRefinesCoarse(m, init);
      FineStep(FineRun(m, init), f);
      var s, events := Committed(m), Coarse(m, init);
      if f.FindAll? && FineRun(m, init).holder.None? {
        ReadsFollowOneMore(s, events, ReadPoints(m, init), FineRun(m, init).observed);
      }
      ReadsFollowLonger(s, events, Meaning(FineRun(m, init), f), ReadPoints(m, fs), FineRun(m, fs).observed);
    }
  }

  /** So a reader never meets a negative balance either. */
  lemma {:induction false} ReadersSeeNoNegativeBalance(m: Fine, fs: seq<FineEvent>, i: nat)
    requires FineStart(m) && Start(Committed(m)) && Ledger.NoneNegative(m.conn.accounts)
    requires i < |FineRun(m, fs).observed|
    ensures Ledger.NoneNegative(FineRun(m, fs).observed[i])
  {
    ReaderAtomicity(m, fs);
    NoNegativeBalance(Committed(m), Coarse(m, fs)[..ReadPoints(m, fs)[i]]);
  }

  // ---- every block ends, and does its work ----

  /** How many more statements the holder has to make before it releases the mutex. */
  function Rank(stage: Stage): nat {
    match stage
    case Begin => 5
    case SaveSender => 4
    case SaveReceiver => 3
    case Insert => 2
    case Commit(_) => 1
    case Rollback => 1
    case Release => 0
  }

  predicate Holding(m: Fine, tid: nat) {
    m.holder.Some? && m.holder.value.tid == tid
  }

  /** Each step of the holder is one statement nearer to the release; the mutex keeps the others waiting. */
  lemma {:induction false} HolderAdvances(m: Fine, tid: nat, f: FineEvent)
    requires FineInv(m) && Holding(m, tid)
    ensures var m' := FineApply(m, f);
      if !(f.Do? && f.event.Step? && f.event.tid == tid) then m'.holder == m.holder && m'.conn == m.conn
      else if m.holder.value.stage.Release? then m'.holder.None? && m'.conn == m.conn
      else Holding(m', tid) && Rank(m'.holder.value.stage) < Rank(m.holder.value.stage)
  {
  }

  /** While one thread holds the mutex, the others can claim and check, which is the coarse step; their reads, their
      rejected inserts and their own blocks wait. */
  lemma {:induction false} MutexExcludes(m: Fine, tid: nat, other: nat, now: int)
    requires FineInv(m) && Holding(m, tid) && other < |m.threads| && other != tid
    ensures var pc, m' := m.threads[other].pc, FineApply(m, Do(Step(other, now)));
      if pc.ReadingSender? || pc.ReadingReceiver? || pc.Rejecting? || pc.Committing? then m' == m
      else Committed(m') == Apply(Committed(m), Step(other, now))
  {
    if Lockless(m.threads[other].pc) {
      OutsideStep(m, Step(other, now));
      RunOne(Committed(m), Step(other, now));
    }
  }

  function OwnSteps(fs: seq<FineEvent>, tid: nat): nat {
    if fs == [] then 0
    else
      var f := fs[|fs| - 1];
      OwnSteps(fs[..|fs| - 1], tid) + if f.Do? && f.event.Step? && f.event.tid == tid then 1 else 0
  }

  ghost predicate Released(m: Fine, fs: seq<FineEvent>) {
    exists k :: 0 <= k <= |fs| && FineRun(m, fs[..k]).holder.None?
  }

  lemma {:induction false} BlockProgresses(m: Fine, fs: seq<FineEvent>, tid: nat)
    requires FineInv(m) && Holding(m, tid)
    ensures FineInv(FineRun(m, fs))
    ensures || Released(m, fs)
            || (Holding(FineRun(m, fs), tid)
                && Rank(FineRun(m, fs).holder.value.stage) + OwnSteps(fs, tid) <= Rank(m.holder.value.stage))
  {
    if fs != [] {
      var init, f := fs[..|fs| - 1], fs[|fs| - 1];
      BlockProgresses(m, init, tid);
      FineStep(FineRun(m, init), f);
      assert fs[..|fs|] == fs;
      if Released(m, init) {
        var k :| 0 <= k <= |init| && FineRun(m, init[..k]).holder.None?;
        assert fs[..k] == init[..k];
      } else {
        HolderAdvances(FineRun(m, init), tid, f);
      }
    }
  }

  /** No interleaving can keep the mutex: it is free again once the holder has made its remaining steps. */
  lemma {:induction false} BlockEnds(m: Fine, fs: seq<FineEvent>, tid: nat)
    requires FineInv(m) && Holding(m, tid) && OwnSteps(fs, tid) > Rank(m.holder.value.stage)
    ensures Released(m, fs)
  {
    BlockProgresses(m, fs, tid);
  }

  /** Seven steps of one thread: take the mutex, six statements. */
  function Block(m: Fine, tid: nat, now: int): Fine {
    var f := Do(Step(tid, now));
    FineApply(FineApply(FineApply(FineApply(FineApply(FineApply(FineApply(m, f), f), f), f), f), f), f)
  }

  lemma {:induction false} BlockOpens(m: Fine, tid: nat, now: int)
    requires FineInv(m) && m.holder.None? && tid < |m.threads| && m.threads[tid].pc.Committing?
    ensures var f := Do(Step(tid, now));
      var m5 := FineApply(FineApply(FineApply(FineApply(FineApply(m, f), f), f), f), f);
      && FineInv(m5) && Holding(m5, tid) && Committed(m5) == Committed(m)
      && m5.holder.value.stage ==
           if HasHash(m.conn.log, m.threads[tid].job.req.packetHash) then Rollback
           else Commit(Row(m.threads[tid].job.req, now, SETTLED).(id := m.conn.lastId + 1))
  {
    var f := Do(Step(tid, now));
    var m1 := FineApply(m, f);
    StatementStep(m1, tid, Begin, now);
    var m2 := FineApply(m1, f);
    StatementStep(m2, tid, SaveSender, now);
    var m3 := FineApply(m2, f);
    StatementStep(m3, tid, SaveReceiver, now);
    var m4 := FineApply(m3, f);
    StatementStep(m4, tid, Insert, now);
  }

  /** A block nothing interrupts is the one coarse step, and leaves the mutex free with nothing uncommitted. */
  lemma {:induction false} BlockAlone(m: Fine, tid: nat, now: int)
    requires FineInv(m) && m.holder.None? && tid < |m.threads| && m.threads[tid].pc.Committing?
    ensures var m' := Block(m, tid, now);
      && m'.holder.None? && m'.snapshot.None? && m'.conn == Committed(m').db
      && Committed(m') == Apply(Committed(m), Step(tid, now))
  {
    var f := Do(Step(tid, now));
    BlockOpens(m, tid, now);
    var m5 := FineApply(FineApply(FineApply(FineApply(FineApply(m, f), f), f), f), f);
    if m5.holder.value.stage.Rollback? {
      RollbackStep(m5, tid, now);
    } else {
      CommitStep(m5, tid, m5.holder.value.stage.row, now);
    }
    var m6 := FineApply(m5, f);
    StatementStep(m6, tid, Release, now);
  }
}
