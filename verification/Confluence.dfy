/** Covered payments settle in every order, with the same final accounts. */
module Confluence {
  import opened Types
  import opened Store
  import opened Settlement
  import opened Ingestion
  import opened Mesh
  import opened Api
  import opened Flushes

  /** What an upload pays into (incoming) or out of an account. */
  function Share(opener: Opener, u: BridgeUpload, v: string, incoming: bool): int {
    match opener.open(u.packet.ciphertext)
    case None => 0
    case Some(p) => if v == (if incoming then p.receiverVpa else p.senderVpa) then p.amount else 0
  }

  function Shares(opener: Opener, uploads: seq<BridgeUpload>, v: string, incoming: bool): int {
    if uploads == [] then 0
    else
      Shares(opener, uploads[..|uploads| - 1], v, incoming) + Share(opener, uploads[|uploads| - 1], v, incoming)
  }

  /** A payment between two different known accounts. */
  ghost predicate Proper(accounts: map<string, Account>, opener: Opener, u: BridgeUpload) {
    && opener.open(u.packet.ciphertext).Some?
    && var p := opener.open(u.packet.ciphertext).value;
       && p.senderVpa in accounts && p.receiverVpa in accounts && p.senderVpa != p.receiverVpa && p.amount > 0
  }

  ghost predicate New(b: Backend, opener: Opener, u: BridgeUpload) {
    HashOf(opener, u) !in b.seen && !HasHash(b.db.log, HashOf(opener, u))
  }

  ghost predicate DistinctHashes(opener: Opener, uploads: seq<BridgeUpload>) {
    forall i, j :: 0 <= i < j < |uploads| ==> HashOf(opener, uploads[i]) != HashOf(opener, uploads[j])
  }

  ghost predicate AllFresh(opener: Opener, uploads: seq<BridgeUpload>, clock: Clock) {
    forall k :: 0 <= k < |uploads| && opener.open(uploads[k].packet.ciphertext).Some? ==>
      Fresh(clock(k).gate, opener.open(uploads[k].packet.ciphertext).value.signedAt)
  }

  /** New, proper payments with different hashes, and every account can pay all it is asked to. */
  ghost predicate Covered(b: Backend, opener: Opener, uploads: seq<BridgeUpload>) {
    && WellFormed(b.db)
    && DistinctHashes(opener, uploads)
    && (forall u :: u in uploads ==> New(b, opener, u) && Proper(b.db.accounts, opener, u))
    && (forall v :: v in b.db.accounts ==> Shares(opener, uploads, v, false) <= b.db.accounts[v].balance)
  }

  /** The accounts after all of them. */
  ghost function AfterAll(accounts: map<string, Account>, opener: Opener, uploads: seq<BridgeUpload>): map<string,
          Account> {
    map v | v in accounts ::
      accounts[v].(balance :=
        accounts[v].balance + Shares(opener, uploads, v, true) - Shares(opener, uploads, v, false))
  }

  /** The state after a flush in which everything settled. */
  ghost predicate AllPaid(b: Backend, b': Backend, opener: Opener, uploads: seq<BridgeUpload>) {
    && WellFormed(b'.db)
    && b'.db.accounts == AfterAll(b.db.accounts, opener, uploads)
    && (forall h :: h in b'.seen ==> h in b.seen || exists u :: u in uploads && HashOf(opener, u) == h)
    && (forall h :: HasHash(b'.db.log, h) ==>
          HasHash(b.db.log, h) || exists u :: u in uploads && HashOf(opener, u) == h)
  }

  ghost predicate AllSettled(results: seq<IngestResult>) {
    forall k :: 0 <= k < |results| ==> results[k].outcome == SETTLED
  }

  lemma {:induction false} SharesNotNegative(accounts: map<string, Account>, opener: Opener,
          uploads: seq<BridgeUpload>, v: string, incoming: bool)
    requires forall u :: u in uploads ==> Proper(accounts, opener, u)
    ensures Shares(opener, uploads, v, incoming) >= 0
  {
    if uploads != [] {
      assert Proper(accounts, opener, uploads[|uploads| - 1]);
      SharesNotNegative(accounts, opener, uploads[..|uploads| - 1], v, incoming);
    }
  }

  /** The coverage of the whole list covers the prefix. */
  lemma {:induction false} CoveredPrefix(b: Backend, opener: Opener, uploads: seq<BridgeUpload>)
    requires uploads != [] && Covered(b, opener, uploads)
    ensures Covered(b, opener, uploads[..|uploads| - 1])
  {
    var init, last := uploads[..|uploads| - 1], uploads[|uploads| - 1];
    assert Proper(b.db.accounts, opener, last);
    forall v | v in b.db.accounts ensures Shares(opener, init, v, false) <= b.db.accounts[v].balance {
      assert Shares(opener, uploads, v, false) == Shares(opener, init, v, false) + Share(opener, last, v, false);
    }
  }

  ghost predicate Affordable(b: Backend, opener: Opener, u: BridgeUpload) {
    && New(b, opener, u) && Proper(b.db.accounts, opener, u)
    && var p := opener.open(u.packet.ciphertext).value;
       b.db.accounts[p.senderVpa].balance >= p.amount
  }

  /** What the last payment meets when the others have settled: an unused hash and a sufficient balance. */
  lemma {:induction false} LastIsPayable(b: Backend, b1: Backend, opener: Opener, uploads: seq<BridgeUpload>)
    requires uploads != [] && Covered(b, opener, uploads)
    requires AllPaid(b, b1, opener, uploads[..|uploads| - 1])
    ensures Affordable(b1, opener, uploads[|uploads| - 1])
  {
    var init, last := uploads[..|uploads| - 1], uploads[|uploads| - 1];
    assert last in uploads && New(b, opener, last) && Proper(b.db.accounts, opener, last);
    var p := opener.open(last.packet.ciphertext).value;
    assert forall u :: u in init ==> u in uploads;
    SharesNotNegative(b.db.accounts, opener, init, p.senderVpa, true);
    assert Shares(opener, uploads, p.senderVpa, false) == Shares(opener, init, p.senderVpa, false) + p.amount;
    forall u | u in init ensures HashOf(opener, u) != HashOf(opener, last) {
      var i :| 0 <= i < |init| && init[i] == u;
      assert uploads[i] == u;
    }
  }

  /** What settling one upload does, and all it does. */
  ghost predicate Paid(b: Backend, b': Backend, r: IngestResult, opener: Opener, u: BridgeUpload, t: Readings)
    requires Proper(b.db.accounts, opener, u)
  {
    var p := opener.open(u.packet.ciphertext).value;
    && r.outcome == SETTLED && WellFormed(b'.db)
    && b'.seen == b.seen[HashOf(opener, u) := t.claim]
    && b'.db.accounts == SaveBoth(b.db.accounts, b.db.accounts[p.senderVpa], b.db.accounts[p.receiverVpa], p.amount)
    && (exists tx :: b'.db.log == b.db.log + [tx] && tx.packetHash == HashOf(opener, u))
  }

  lemma {:induction false} IngestPays(b: Backend, opener: Opener, u: BridgeUpload, t: Readings)
    requires WellFormed(b.db) && Affordable(b, opener, u)
    requires Fresh(t.gate, opener.open(u.packet.ciphertext).value.signedAt)
    ensures Paid(b, IngestUpload(b, opener, u, t).0, IngestUpload(b, opener, u, t).1, opener, u, t)
  {
    UploadIsIngested(b, opener, u, t);
  }

  lemma {:induction false} AfterAllOneMore(b: Backend, accounts1: map<string, Account>, opener: Opener,
          uploads: seq<BridgeUpload>)
    requires uploads != [] && Covered(b, opener, uploads)
    requires accounts1 == AfterAll(b.db.accounts, opener, uploads[..|uploads| - 1])
    ensures Proper(b.db.accounts, opener, uploads[|uploads| - 1])
    ensures var p := opener.open(uploads[|uploads| - 1].packet.ciphertext).value;
      SaveBoth(accounts1, accounts1[p.senderVpa], accounts1[p.receiverVpa], p.amount)
        == AfterAll(b.db.accounts, opener, uploads)
  {
    var last := uploads[|uploads| - 1];
    assert last in uploads && Proper(b.db.accounts, opener, last);
    var p := opener.open(last.packet.ciphertext).value;
    var a, c := SaveBoth(accounts1, accounts1[p.senderVpa], accounts1[p.receiverVpa], p.amount),
                AfterAll(b.db.accounts, opener, uploads);
    forall v | v in b.db.accounts ensures v in a && a[v] == c[v] {
    }
    assert a.Keys == c.Keys;
  }

  lemma {:induction false} OneMorePaid(b: Backend, b1: Backend, b2: Backend, r: IngestResult, opener: Opener,
          uploads: seq<BridgeUpload>, t: Readings)
    requires uploads != [] && Covered(b, opener, uploads)
    requires AllPaid(b, b1, opener, uploads[..|uploads| - 1]) && Affordable(b1, opener, uploads[|uploads| - 1])
    requires Paid(b1, b2, r, opener, uploads[|uploads| - 1], t)
    ensures AllPaid(b, b2, opener, uploads)
  {
    var init, last := uploads[..|uploads| - 1], uploads[|uploads| - 1];
    assert uploads == init + [last];
    assert last in uploads;
    AfterAllOneMore(b, b1.db.accounts, opener, uploads);
    var tx :| b2.db.log == b1.db.log + [tx] && tx.packetHash == HashOf(opener, last);
    forall h | HasHash(b2.db.log, h)
      ensures HasHash(b.db.log, h) || exists u :: u in uploads && HashOf(opener, u) == h
    {
      var i :| 0 <= i < |b2.db.log| && b2.db.log[i].packetHash == h;
      if i < |b1.db.log| {
        assert b1.db.log[i].packetHash == h;
        assert HasHash(b1.db.log, h);
      }
    }
  }

  /** The last upload settles on top of the others. */
  lemma {:induction false} LastSettles(b: Backend, b1: Backend, opener: Opener, uploads: seq<BridgeUpload>, t: Readings)
    returns (b2: Backend, r: IngestResult)
    requires uploads != [] && Covered(b, opener, uploads)
    requires var p := opener.open(uploads[|uploads| - 1].packet.ciphertext);
      p.Some? ==> Fresh(t.gate, p.value.signedAt)
    requires AllPaid(b, b1, opener, uploads[..|uploads| - 1])
    ensures (b2, r) == IngestUpload(b1, opener, uploads[|uploads| - 1], t)
    ensures AllPaid(b, b2, opener, uploads) && r.outcome == SETTLED
  {
    LastIsPayable(b, b1, opener, uploads);
    var u := uploads[|uploads| - 1];
    IngestPays(b1, opener, u, t);
    var step := IngestUpload(b1, opener, u, t);
    b2, r := step.0, step.1;
    OneMorePaid(b, b1, b2, r, opener, uploads, t);
  }

  /** Every covered payment settles, and the balances follow from the payments alone. */
  lemma {:induction false} FlushSettlesAll(b: Backend, opener: Opener, uploads: seq<BridgeUpload>, clock: Clock)
    requires Covered(b, opener, uploads) && AllFresh(opener, uploads, clock)
    ensures AllPaid(b, Flush(b, opener, uploads, clock).0, opener, uploads)
    ensures AllSettled(Flush(b, opener, uploads, clock).1) && |Flush(b, opener, uploads, clock).1| == |uploads|
  {
    if uploads == [] {
      assert AfterAll(b.db.accounts, opener, []) == b.db.accounts;
    } else {
      var k := |uploads| - 1;
      CoveredPrefix(b, opener, uploads);
      FlushSettlesAll(b, opener, uploads[..k], clock);
      var b2, r := LastSettles(b, Flush(b, opener, uploads[..k], clock).0, opener, uploads, clock(k));
      FlushEndsWith(b, opener, uploads, clock);
    }
  }

  // ---- any other order ----

  lemma {:induction false} SharesConcat(opener: Opener, a: seq<BridgeUpload>, c: seq<BridgeUpload>, v: string,
          incoming: bool)
    ensures Shares(opener, a + c, v, incoming) == Shares(opener, a, v, incoming) + Shares(opener, c, v, incoming)
  {
    if c == [] {
      assert a + c == a;
    } else {
      var init := c[..|c| - 1];
      assert (a + c)[..|a + c| - 1] == a + init;
      SharesConcat(opener, a, init, v, incoming);
    }
  }

  lemma {:induction false} WithoutOne(before: seq<BridgeUpload>, u: BridgeUpload, after: seq<BridgeUpload>)
    ensures multiset(before + after) == multiset(before + [u] + after) - multiset{u}
  {
  }

  /** Take the last element of one list out of the other. */
  lemma {:induction false} TakeOut(a: seq<BridgeUpload>, c: seq<BridgeUpload>)
    returns (before: seq<BridgeUpload>, after: seq<BridgeUpload>)
    requires a != [] && multiset(a) == multiset(c)
    ensures c == before + [a[|a| - 1]] + after
    ensures multiset(a[..|a| - 1]) == multiset(before + after)
  {
    var init, last := a[..|a| - 1], a[|a| - 1];
    WithoutOne(init, last, []);
    assert a == init + [last] + [];
    assert init + [] == init;
    assert last in multiset(c);
    var i :| 0 <= i < |c| && c[i] == last;
    before, after := c[..i], c[i + 1..];
    assert c == before + [last] + after;
    WithoutOne(before, last, after);
  }

  lemma {:induction false} SharesOfPermutation(opener: Opener, a: seq<BridgeUpload>, c: seq<BridgeUpload>, v: string,
          incoming: bool)
    requires multiset(a) == multiset(c)
    ensures Shares(opener, a, v, incoming) == Shares(opener, c, v, incoming)
    decreases |a|
  {
    if a == [] {
      assert |multiset(c)| == 0;
    } else {
      var last := a[|a| - 1];
      var before, after := TakeOut(a, c);
      SharesOfPermutation(opener, a[..|a| - 1], before + after, v, incoming);
      SharesConcat(opener, before, after, v, incoming);
      SharesConcat(opener, before + [last], after, v, incoming);
      SharesConcat(opener, before, [last], v, incoming);
      assert Shares(opener, [last], v, incoming) == Share(opener, last, v, incoming);
    }
  }

  lemma {:induction false} TwiceInSequence(s: seq<BridgeUpload>, i: nat, j: nat)
    requires i < j < |s| && s[i] == s[j]
    ensures multiset(s)[s[i]] >= 2
  {
    assert s == s[..i] + [s[i]] + s[i + 1..j] + [s[j]] + s[j + 1..];
  }

  lemma {:induction false} OnceInSequence(opener: Opener, s: seq<BridgeUpload>, i: nat)
    requires DistinctHashes(opener, s) && i < |s|
    ensures multiset(s)[s[i]] == 1
  {
    assert s == s[..i] + [s[i]] + s[i + 1..];
    assert s[i] !in s[..i] && s[i] !in s[i + 1..];
  }

  lemma {:induction false} DistinctHashesOfPermutation(opener: Opener, a: seq<BridgeUpload>, c: seq<BridgeUpload>)
    requires multiset(a) == multiset(c) && DistinctHashes(opener, a)
    ensures DistinctHashes(opener, c)
  {
    forall i, j | 0 <= i < j < |c| ensures HashOf(opener, c[i]) != HashOf(opener, c[j]) {
      assert c[i] in multiset(a) && c[j] in multiset(a);
      var k :| 0 <= k < |a| && a[k] == c[i];
      var l :| 0 <= l < |a| && a[l] == c[j];
      if k == l {
        TwiceInSequence(c, i, j);
        OnceInSequence(opener, a, k);
      }
    }
  }

  lemma {:induction false} CoveredOfPermutation(b: Backend, opener: Opener, a: seq<BridgeUpload>, c: seq<BridgeUpload>)
    requires multiset(a) == multiset(c) && Covered(b, opener, a)
    ensures Covered(b, opener, c)
    ensures AfterAll(b.db.accounts, opener, a) == AfterAll(b.db.accounts, opener, c)
  {
    DistinctHashesOfPermutation(opener, a, c);
    forall u | u in c ensures u in a {
      assert u in multiset(c);
    }
    forall v ensures Shares(opener, a, v, false) == Shares(opener, c, v, false)
             ensures Shares(opener, a, v, true) == Shares(opener, c, v, true)
    {
      SharesOfPermutation(opener, a, c, v, false);
      SharesOfPermutation(opener, a, c, v, true);
    }
  }

  /** Confluence: in whatever order covered payments are flushed, all settle and the accounts end the same. */
  lemma {:induction false} FlushOrderDoesNotMatter(b: Backend, opener: Opener, a: seq<BridgeUpload>,
          c: seq<BridgeUpload>, clockA: Clock, clockC: Clock)
    requires multiset(a) == multiset(c) && Covered(b, opener, a)
    requires AllFresh(opener, a, clockA) && AllFresh(opener, c, clockC)
    ensures AllSettled(Flush(b, opener, a, clockA).1) && AllSettled(Flush(b, opener, c, clockC).1)
    ensures Flush(b, opener, a, clockA).0.db.accounts == Flush(b, opener, c, clockC).0.db.accounts
  {
    CoveredOfPermutation(b, opener, a, c);
    FlushSettlesAll(b, opener, a, clockA);
    FlushSettlesAll(b, opener, c, clockC);
  }
}
