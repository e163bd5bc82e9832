/** How long the claim cache and the age check together keep a ciphertext from being processed twice. */
module Replay {
  import opened Types
  import opened Idempotency
  import opened Concurrent
  import Ingestion

  const TTL_MILLIS := TTL_SECONDS * 1000

  function Max(a: int, b: int): int {
    if a >= b then a else b
  }

  /** The clock never runs backwards from one event to the next. */
  ghost predicate Monotone(events: seq<Event>) {
    forall i, j :: 0 <= i < j < |events| ==> events[i].now <= events[j].now
  }

  ghost predicate NoClear(events: seq<Event>) {
    forall i :: 0 <= i < |events| ==> !events[i].ClearCache?
  }

  /** The second of two claims of one hash is stored more than the lifetime of an entry after the first one's stamp. */
  ghost predicate Expired(first: Claimed, second: Claimed) {
    first.at <= second.at && first.stamp + TTL_MILLIS < second.at
  }

  ghost predicate Apart(a: Thread, b: Thread) {
    a.job.req.packetHash == b.job.req.packetHash && a.claim.Some? && b.claim.Some? ==>
      Expired(a.claim.value, b.claim.value) || Expired(b.claim.value, a.claim.value)
  }

  /** A claim the thread made is still in the cache, or has outlived its stamp by more than the lifetime. */
  ghost predicate Remembered(seen: Cache, t: Thread, now: int) {
    && (t.pc.Claiming? ==> t.pc.stamp <= now)
    && (t.claim.Some? ==>
      var c, h := t.claim.value, t.job.req.packetHash;
      && c.stamp <= c.at <= now
      && (c.stamp + TTL_MILLIS < now || (h in seen && seen[h] == c.stamp)))
  }

  ghost predicate GatedFresh(t: Thread, now: int) {
    && (t.pc.Arriving? || t.pc.Claiming? ==> t.claim.None?)
    && (t.pc.Arriving? || t.pc.Claiming? || t.pc.Checking? ==> t.gatedAt.None?)
    && (t.gatedAt.Some? ==>
      && t.gatedAt.value <= now
      && Ingestion.Fresh(t.gatedAt.value, t.job.req.instruction.signedAt)
      && (t.claim.Some? ==> t.claim.value.at <= t.gatedAt.value))
  }

  ghost predicate CacheInv(s: Sys, now: int) {
    && (forall i :: 0 <= i < |s.threads| ==> Remembered(s.seen, s.threads[i], now) && GatedFresh(s.threads[i], now))
    && (forall i, j :: 0 <= i < j < |s.threads| ==> Apart(s.threads[i], s.threads[j]))
  }

  lemma {:induction false} Later(s: Sys, now: int, later: int)
    requires CacheInv(s, now) && now <= later
    ensures CacheInv(s, later)
  {
  }

  lemma {:induction false} ClaimStep(s: Sys, e: Event)
    requires CacheInv(s, e.now) && e.Step? && e.tid < |s.threads|
    ensures CacheInv(Apply(s, e), e.now)
  {
    var s' := Apply(s, e);
    var t, t' := s.threads[e.tid], s'.threads[e.tid];
    assert Remembered(s.seen, t, e.now) && GatedFresh(t, e.now);
    forall i | 0 <= i < |s'.threads|
      ensures Remembered(s'.seen, s'.threads[i], e.now) && GatedFresh(s'.threads[i], e.now)
      ensures i != e.tid ==> Apart(s'.threads[i], t') && Apart(t', s'.threads[i])
    {
      assert Remembered(s.seen, s.threads[i], e.now) && GatedFresh(s.threads[i], e.now);
      if i < e.tid {
        assert Apart(s.threads[i], t);
      } else if i > e.tid {
        assert Apart(t, s.threads[i]);
      }
    }
  }

  lemma {:induction false} RunKeepsCacheInv(s: Sys, events: seq<Event>, now: int)
    requires Start(s) && Monotone(events) && NoClear(events)
    requires forall i :: 0 <= i < |events| ==> events[i].now <= now
    ensures CacheInv(Run(s, events), now)
  {
    if events != [] {
      var init, last := events[..|events| - 1], events[|events| - 1];
      RunKeepsCacheInv(s, init, last.now);
      if last.Step? && last.tid < |Run(s, init).threads| {
        ClaimStep(Run(s, init), last);
      }
      Later(Run(s, events), last.now, now);
    }
  }

  /** The thread passed the claim and later the age check. */
  ghost predicate Passed(t: Thread, claim: Claimed) {
    t.claim == Some(claim) && t.gatedAt.Some?
  }

  ghost predicate SameCiphertext(a: Thread, b: Thread) {
    a.job.req.packetHash == b.job.req.packetHash && a.job.req.instruction == b.job.req.instruction
  }

  /** First by the time it was stored or by the stamp it was stored with. */
  predicate First(first: Claimed, second: Claimed) {
    first.at < second.at || first.stamp <= second.stamp
  }

  /** Two ingests of one ciphertext both get through only if it was signed no earlier than
      998 ms before its first claim; signed 999 ms or more before, it gets through once at most. */
  lemma {:induction false} ReplayWindow(s: Sys, events: seq<Event>, i: nat, j: nat, first: Claimed, second: Claimed)
    requires Start(s) && Monotone(events) && NoClear(events)
    requires i < |Run(s, events).threads| && j < |Run(s, events).threads| && i != j
    requires SameCiphertext(Run(s, events).threads[i], Run(s, events).threads[j])
    requires Passed(Run(s, events).threads[i], first) && Passed(Run(s, events).threads[j], second)
    requires First(first, second)
    ensures first.stamp + TTL_MILLIS < Max(first.at, second.at)
    ensures Run(s, events).threads[i].job.req.instruction.signedAt >= first.stamp - 998
  {
    var now := if events == [] then 0 else events[|events| - 1].now;
    RunKeepsCacheInv(s, events, now);
    var s' := Run(s, events);
    var a, b := s'.threads[i], s'.threads[j];
    assert GatedFresh(a, now) && GatedFresh(b, now) && (if i < j then Apart(a, b) else Apart(b, a));
    Ingestion.FreshWindow(a.gatedAt.value, a.job.req.instruction.signedAt);
    Ingestion.FreshWindow(b.gatedAt.value, b.job.req.instruction.signedAt);
  }

  // ---- the window is exact ----

  function Pass(tid: nat, claim: int, gate: int): seq<Event> {
    [Step(tid, claim), Step(tid, claim), Step(tid, gate)]
  }

  /** At most 86400.999 s old and at most 300.999 s in the future. */
  predicate InWindow(gate: int, signedAt: int) {
    signedAt - 300_999 <= gate <= signedAt + 86_400_999
  }

  /** Read the clock, claim, check, wait for the evictor, and all of it again. */
  function ReplaySchedule(claim: int, signedAt: int): seq<Event> {
    var first := Max(claim, signedAt);
    var evict := Max(first, claim + TTL_MILLIS + 1);
    Pass(0, claim, first) + [EvictAt(evict)] + Pass(1, evict, evict)
  }

  lemma {:induction false} ScheduleIsMonotone(claim: int, signedAt: int)
    ensures Monotone(ReplaySchedule(claim, signedAt)) && NoClear(ReplaySchedule(claim, signedAt))
  {
  }

  function Ingester(req: Request): Thread {
    Thread(Job(req, true), Arriving, None, None)
  }

  /** Both threads got through, the first claim being the one of thread 0 with this stamp. */
  ghost predicate Replayed(s: Sys, events: seq<Event>, stamp: int) {
    && Monotone(events) && NoClear(events)
    && |Run(s, events).threads| == 2
    && exists first: Claimed, second: Claimed :: first.stamp == stamp && First(first, second)
                               && Passed(Run(s, events).threads[0], first) && Passed(Run(s, events).threads[1], second)
  }

  lemma {:induction false} RunKeepsThreads(s: Sys, events: seq<Event>)
    ensures |Run(s, events).threads| == |s.threads|
    ensures forall i :: 0 <= i < |s.threads| ==> Run(s, events).threads[i].job == s.threads[i].job
  {
    if events != [] {
      RunKeepsThreads(s, events[..|events| - 1]);
    }
  }

  /** An unclaimed hash passes the claim and, exactly within the window, the age check. */
  lemma {:induction false} PassesGates(s: Sys, i: nat, req: Request, claim: int, gate: int)
    requires i < |s.threads| && s.threads[i] == Ingester(req) && req.packetHash !in s.seen
    ensures var s' := Run(s, Pass(i, claim, gate));
      && |s'.threads| == |s.threads| && s'.threads[i].claim == Some(Claimed(claim, claim))
      && (Passed(s'.threads[i], Claimed(claim, claim)) <==> InWindow(gate, req.instruction.signedAt))
      && s'.seen == s.seen[req.packetHash := claim]
      && forall j :: 0 <= j < |s.threads| && j != i ==> s'.threads[j] == s.threads[j]
  {
    Ingestion.FreshWindow(gate, req.instruction.signedAt);
    var e := Step(i, claim);
    RunTwo(s, e, e);
    RunSnoc(s, [e, e], Step(i, gate));
    assert [e, e] + [Step(i, gate)] == Pass(i, claim, gate);
    var s1 := Apply(s, e);
    assert s1.threads[i].pc == Claiming(claim) && s1.seen == s.seen;
    var s2 := Apply(s1, e);
    assert s2.threads[i].pc == Checking && s2.seen == s.seen[req.packetHash := claim];
  }

  lemma {:induction false} ReplayScheduleWorks(s: Sys, req: Request, claim: int)
    requires s.threads == [Ingester(req), Ingester(req)] && req.packetHash !in s.seen
    requires req.instruction.signedAt >= claim - 998
    ensures Replayed(s, ReplaySchedule(claim, req.instruction.signedAt), claim)
  {
    var signedAt := req.instruction.signedAt;
    var first := Max(claim, signedAt);
    var evict := Max(first, claim + TTL_MILLIS + 1);
    var a, b := Pass(0, claim, first), Pass(1, evict, evict);
    RunConcat(s, a + [EvictAt(evict)], b);
    RunSnoc(s, a, EvictAt(evict));
    PassesGates(s, 0, req, claim, first);
    var s3 := Apply(Run(s, a), EvictAt(evict));
    assert req.packetHash !in s3.seen && s3.threads == Run(s, a).threads;
    PassesGates(s3, 1, req, evict, evict);
    ScheduleIsMonotone(claim, signedAt);
    assert First(Claimed(claim, claim), Claimed(evict, evict));
  }

  /** Exactly: a second pass is possible if and only if the packet is signed at most 998 ms before its first claim. */
  lemma {:induction false} ReplayExactly(s: Sys, req: Request, claim: int)
    requires Start(s) && s.threads == [Ingester(req), Ingester(req)] && req.packetHash !in s.seen
    ensures (exists events :: Replayed(s, events, claim)) <==> req.instruction.signedAt >= claim - 998
  {
    if req.instruction.signedAt >= claim - 998 {
      ReplayScheduleWorks(s, req, claim);
    }
    forall events | Replayed(s, events, claim)
      ensures req.instruction.signedAt >= claim - 998
    {
      RunKeepsThreads(s, events);
      var first: Claimed, second: Claimed :| first.stamp == claim && First(first, second)
                                             && Passed(Run(s, events).threads[0], first)
                                             && Passed(Run(s, events).threads[1], second);
      ReplayWindow(s, events, 0, 1, first, second);
    }
  }

  // ---- with a clear in between ----

  /** Nothing is remembered across a clear: whatever ran before, the next claim of any hash goes through and is
      stored with the time it read. */
  lemma {:induction false} ClearForgetsEveryClaim(s: Sys, events: seq<Event>, cleared: int, i: nat, now: int)
    requires i < |Run(s, events).threads| && Run(s, events).threads[i].pc.Claiming?
    ensures var before, after := Run(s, events), Run(s, events + [ClearCache(cleared), Step(i, now)]);
      var t := before.threads[i];
      && after.threads == before.threads[i := t.(pc := Checking, claim := Some(Claimed(t.pc.stamp, now)))]
      && after.seen == map[t.job.req.packetHash := t.pc.stamp]
      && after.db == before.db
  {
    RunConcat(s, events, [ClearCache(cleared), Step(i, now)]);
    RunTwo(Run(s, events), ClearCache(cleared), Step(i, now));
  }

  /** Two ingests of one ciphertext with a clear between them. */
  function ClearedBetween(claim: int, gate: int, cleared: int, claim2: int, gate2: int): seq<Event> {
    Pass(0, claim, gate) + [ClearCache(cleared)] + Pass(1, claim2, gate2)
  }

  /** Both claims go through, and both ingests get through exactly when both age checks are within the window. */
  lemma {:induction false} ReplayAcrossClear(s: Sys, req: Request, claim: int, gate: int, cleared: int,
          claim2: int, gate2: int)
    requires s.threads == [Ingester(req), Ingester(req)] && req.packetHash !in s.seen
    ensures var s' := Run(s, ClearedBetween(claim, gate, cleared, claim2, gate2));
      && |s'.threads| == 2
      && s'.threads[0].claim == Some(Claimed(claim, claim)) && s'.threads[1].claim == Some(Claimed(claim2, claim2))
      && (s'.threads[0].gatedAt.Some? <==> InWindow(gate, req.instruction.signedAt))
      && (s'.threads[1].gatedAt.Some? <==> InWindow(gate2, req.instruction.signedAt))
  {
    var a, b := Pass(0, claim, gate), Pass(1, claim2, gate2);
    RunConcat(s, a + [ClearCache(cleared)], b);
    RunSnoc(s, a, ClearCache(cleared));
    PassesGates(s, 0, req, claim, gate);
    var s1 := Apply(Run(s, a), ClearCache(cleared));
    assert s1.threads == Run(s, a).threads && req.packetHash !in s1.seen;
    PassesGates(s1, 1, req, claim2, gate2);
  }
}
