/** Flushing: replays do nothing, order does not matter, and what the mesh delivers is recorded once. */
module Flushes {
  import opened Types
  import opened Store
  import opened Settlement
  import opened Ingestion
  import opened Mesh
  import opened Api

  function HashOf(opener: Opener, u: BridgeUpload): string {
    opener.hash(u.packet.ciphertext)
  }

  lemma {:induction false} FlushEndsWith(b: Backend, opener: Opener, uploads: seq<BridgeUpload>, clock: Clock)
    requires uploads != []
    ensures var k := |uploads| - 1;
      var (b1, results) := Flush(b, opener, uploads[..k], clock);
      var step := IngestUpload(b1, opener, uploads[k], clock(k));
      Flush(b, opener, uploads, clock) == (step.0, results + [step.1])
  {
  }

  ghost predicate UploadIngested(b: Backend, b': Backend, r: IngestResult, opener: Opener, u: BridgeUpload,
          t: Readings) {
    Ingested(b, b', r, HashOf(opener, u), opener.open(u.packet.ciphertext), u.bridgeNodeId, 5 - u.packet.ttl, t)
  }

  lemma {:induction false} UploadIsIngested(b: Backend, opener: Opener, u: BridgeUpload, t: Readings)
    requires WellFormed(b.db)
    ensures var step := IngestUpload(b, opener, u, t);
      UploadIngested(b, step.0, step.1, opener, u, t)
  {
    IngestWritesOnlyPastEveryGate(b, opener, u.packet, u.bridgeNodeId, 5 - u.packet.ttl, t);
    assert IngestUpload(b, opener, u, t) == IngestAtOnce(b, opener, u.packet, u.bridgeNodeId, 5 - u.packet.ttl, t);
  }

  /** What the last ingest of a flush did to the state the others left. */
  lemma {:induction false} LastIngest(b: Backend, opener: Opener, uploads: seq<BridgeUpload>, clock: Clock)
    returns (b1: Backend, b2: Backend, r: IngestResult)
    requires uploads != [] && WellFormed(Flush(b, opener, uploads[..|uploads| - 1], clock).0.db)
    ensures b1 == Flush(b, opener, uploads[..|uploads| - 1], clock).0 && b2 == Flush(b, opener, uploads, clock).0
    ensures Flush(b, opener, uploads, clock).1 == Flush(b, opener, uploads[..|uploads| - 1], clock).1 + [r]
    ensures UploadIngested(b1, b2, r, opener, uploads[|uploads| - 1], clock(|uploads| - 1))
  {
    var k := |uploads| - 1;
    FlushEndsWith(b, opener, uploads, clock);
    b1 := Flush(b, opener, uploads[..k], clock).0;
    UploadIsIngested(b1, opener, uploads[k], clock(k));
    var step := IngestUpload(b1, opener, uploads[k], clock(k));
    b2, r := step.0, step.1;
  }

  ghost predicate AllClaimed(b: Backend, b': Backend, opener: Opener, uploads: seq<BridgeUpload>) {
    && WellFormed(b'.db) && b'.db.accounts.Keys == b.db.accounts.Keys
    && b.seen.Keys <= b'.seen.Keys
    && forall u :: u in uploads ==> HashOf(opener, u) in b'.seen
  }

  lemma {:induction false} OneMoreClaimed(b: Backend, b1: Backend, b2: Backend, r: IngestResult, opener: Opener,
                       uploads: seq<BridgeUpload>, t: Readings)
    requires uploads != [] && AllClaimed(b, b1, opener, uploads[..|uploads| - 1])
    requires UploadIngested(b1, b2, r, opener, uploads[|uploads| - 1], t)
    ensures AllClaimed(b, b2, opener, uploads)
  {
    assert uploads == uploads[..|uploads| - 1] + [uploads[|uploads| - 1]];
  }

  /** Claims only accumulate, and every upload ends up claimed. */
  lemma {:induction false} FlushClaimsAll(b: Backend, opener: Opener, uploads: seq<BridgeUpload>, clock: Clock)
    requires WellFormed(b.db)
    ensures AllClaimed(b, Flush(b, opener, uploads, clock).0, opener, uploads)
    ensures |Flush(b, opener, uploads, clock).1| == |uploads|
  {
    if uploads != [] {
      var k := |uploads| - 1;
      FlushClaimsAll(b, opener, uploads[..k], clock);
      var b1, b2, r := LastIngest(b, opener, uploads, clock);
      OneMoreClaimed(b, b1, b2, r, opener, uploads, clock(k));
    }
  }

  /** Every result is a dropped duplicate. */
  ghost predicate AllDropped(opener: Opener, uploads: seq<BridgeUpload>, results: seq<IngestResult>) {
    && |results| == |uploads|
    && forall k :: 0 <= k < |results| ==>
        results[k] == IngestResult(DUPLICATE_DROPPED, HashOf(opener, uploads[k]), Fine, None)
  }

  /** Uploads already claimed are dropped and nothing moves, whatever became of them the first time. */
  lemma {:induction false} ClaimedUploadsAreDropped(b: Backend, opener: Opener, uploads: seq<BridgeUpload>,
          clock: Clock)
    requires forall u :: u in uploads ==> HashOf(opener, u) in b.seen
    ensures Flush(b, opener, uploads, clock).0 == b
    ensures AllDropped(opener, uploads, Flush(b, opener, uploads, clock).1)
  {
    if uploads != [] {
      var k := |uploads| - 1;
      assert uploads[k] in uploads;
      ClaimedUploadsAreDropped(b, opener, uploads[..k], clock);
      assert uploads[..k] + [uploads[k]] == uploads;
    }
  }

  lemma {:induction false} SameUploads(a: seq<BridgeUpload>, b: seq<BridgeUpload>, view: View, online: set<string>)
    requires IsUploadOf(a, view, online) && IsUploadOf(b, view, online)
    ensures forall u :: u in b ==> u in a
  {
    forall i | 0 <= i < |b| ensures b[i] in a {
      assert b[i] == BridgeUpload(b[i].bridgeNodeId, view[b[i].bridgeNodeId][b[i].packet.packetId]);
    }
  }

  /** Two flushes in a row: the second one, in any order, with any clock, only drops duplicates. */
  method FlushTwice(api: ApiController, clock: Clock, clock2: Clock)
    returns (first: seq<IngestResult>, second: seq<IngestResult>, ghost between: Backend)
    requires api.Valid()
    modifies api.idempotency, api.db
    ensures api.Valid()
    ensures api.State() == between
    ensures exists uploads :: (between, first) == Flush(old(api.State()), api.bridge.opener, uploads, clock)
    ensures forall k :: 0 <= k < |second| ==> second[k].outcome == DUPLICATE_DROPPED
  {
    ghost var uploads;
    first, uploads := api.MeshFlush(clock);
    between := api.State();
    FlushClaimsAll(old(api.State()), api.bridge.opener, uploads, clock);
    ghost var again;
    second, again := api.MeshFlush(clock2);
    SameUploads(uploads, again, api.mesh.View(), api.mesh.Online());
    ClaimedUploadsAreDropped(between, api.bridge.opener, again, clock2);
  }

  // ---- delivery ----

  /** The row of an upload ingested at t: the payment's own columns, the uploading bridge and the hops used. */
  ghost predicate Decided(tx: Transaction, hash: string, p: PaymentInstruction, u: BridgeUpload, t: Readings) {
    && RowOf(tx, Request(p, hash, u.bridgeNodeId, 5 - u.packet.ttl), t.insert)
    && (tx.status == SETTLED || tx.status == REJECTED)
  }

  /** The log has exactly one row for the hash, and it is this upload's. */
  ghost predicate RecordedOnce(log: seq<Transaction>, hash: string, p: PaymentInstruction, u: BridgeUpload,
          t: Readings) {
    RowsFor(log, hash) == 1 && exists i :: 0 <= i < |log| && Decided(log[i], hash, p, u, t)
  }

  /** Unseen, decryptable, between known accounts and positive. */
  ghost predicate Payable(b: Backend, opener: Opener, ciphertext: string) {
    && opener.hash(ciphertext) !in b.seen && !HasHash(b.db.log, opener.hash(ciphertext))
    && opener.open(ciphertext).Some?
    && var p := opener.open(ciphertext).value;
       p.senderVpa in b.db.accounts && p.receiverVpa in b.db.accounts && p.amount > 0
  }

  /** Only this ciphertext has its hash among the uploads. */
  ghost predicate NoCollision(opener: Opener, uploads: seq<BridgeUpload>, ciphertext: string) {
    forall u :: u in uploads && HashOf(opener, u) == opener.hash(ciphertext) ==> u.packet.ciphertext == ciphertext
  }

  /** Upload number k is the first with this ciphertext. */
  ghost predicate FirstUpload(uploads: seq<BridgeUpload>, ciphertext: string, k: int) {
    && 0 <= k < |uploads| && uploads[k].packet.ciphertext == ciphertext
    && forall j :: 0 <= j < k ==> uploads[j].packet.ciphertext != ciphertext
  }

  ghost predicate Carries(uploads: seq<BridgeUpload>, ciphertext: string) {
    exists u :: u in uploads && u.packet.ciphertext == ciphertext
  }

  /** What ingesting this upload first decided: recorded if it was fresh then, and never again otherwise. */
  ghost predicate DecidedAt(b': Backend, opener: Opener, u: BridgeUpload, t: Readings) {
    && opener.open(u.packet.ciphertext).Some?
    && var h, p := HashOf(opener, u), opener.open(u.packet.ciphertext).value;
       if Fresh(t.gate, p.signedAt) then RecordedOnce(b'.db.log, h, p, u, t) else !HasHash(b'.db.log, h)
  }

  /** One ingest, seen from a payable ciphertext: it is decided now, for good, or still payable. */
  lemma {:induction false} IngestOfPayable(b: Backend, b': Backend, r: IngestResult, opener: Opener, u: BridgeUpload,
          ciphertext: string, t: Readings)
    requires WellFormed(b.db) && Payable(b, opener, ciphertext)
    requires HashOf(opener, u) == opener.hash(ciphertext) ==> u.packet.ciphertext == ciphertext
    requires UploadIngested(b, b', r, opener, u, t)
    ensures if u.packet.ciphertext != ciphertext then Payable(b', opener, ciphertext)
            else DecidedAt(b', opener, u, t)
  {
    var h := opener.hash(ciphertext);
    RowsForZero(b.db.log, h);
    if b'.db != b.db {
      var p := opener.open(u.packet.ciphertext).value;
      var tx :| b'.db.log == b.db.log + [tx] && tx.status == r.outcome
                && RowOf(tx, Request(p, HashOf(opener, u), u.bridgeNodeId, 5 - u.packet.ttl), t.insert);
      assert b'.db.log[..|b.db.log|] == b.db.log;
      if u.packet.ciphertext == ciphertext {
        assert Decided(b'.db.log[|b.db.log|], h, p, u, t);
      } else {
        RowsForZero(b'.db.log, h);
      }
    }
  }

  /** Once claimed, a hash keeps the record it has, or stays without one. */
  lemma {:induction false} DecisionStays(b: Backend, b': Backend, r: IngestResult, opener: Opener, u: BridgeUpload,
          t: Readings, u0: BridgeUpload, t0: Readings)
    requires HashOf(opener, u0) in b.seen && UploadIngested(b, b', r, opener, u, t) && DecidedAt(b, opener, u0, t0)
    ensures DecidedAt(b', opener, u0, t0)
  {
    if b'.db != b.db {
      var h, p := HashOf(opener, u0), opener.open(u0.packet.ciphertext).value;
      var tx :| b'.db.log == b.db.log + [tx] && tx.packetHash == HashOf(opener, u);
      assert b'.db.log[..|b.db.log|] == b.db.log;
      if RecordedOnce(b.db.log, h, p, u0, t0) {
        var i :| 0 <= i < |b.db.log| && Decided(b.db.log[i], h, p, u0, t0);
        assert b'.db.log[i] == b.db.log[i];
      } else {
        RowsForZero(b.db.log, h);
        RowsForZero(b'.db.log, h);
      }
    }
  }

  /** What a flush has made of a ciphertext that was payable before it. */
  ghost predicate Delivered(b': Backend, opener: Opener, uploads: seq<BridgeUpload>, clock: Clock, ciphertext: string) {
    if !Carries(uploads, ciphertext) then Payable(b', opener, ciphertext)
    else exists k :: FirstUpload(uploads, ciphertext, k) && DecidedAt(b', opener, uploads[k], clock(k))
  }

  lemma {:induction false} DeliveryStays(b: Backend, b': Backend, r: IngestResult, opener: Opener,
          uploads: seq<BridgeUpload>, clock: Clock, ciphertext: string)
    requires uploads != [] && Carries(uploads[..|uploads| - 1], ciphertext)
    requires Delivered(b, opener, uploads[..|uploads| - 1], clock, ciphertext)
    requires opener.hash(ciphertext) in b.seen
    requires UploadIngested(b, b', r, opener, uploads[|uploads| - 1], clock(|uploads| - 1))
    ensures Delivered(b', opener, uploads, clock, ciphertext)
  {
    var init := uploads[..|uploads| - 1];
    var k :| FirstUpload(init, ciphertext, k) && DecidedAt(b, opener, init[k], clock(k));
    DecisionStays(b, b', r, opener, uploads[|uploads| - 1], clock(|uploads| - 1), init[k], clock(k));
    assert FirstUpload(uploads, ciphertext, k) && uploads[k] == init[k];
  }

  /** A flush that meets a payable ciphertext records it exactly once, however often it is uploaded, with the bridge
      and the hops of its first upload, if and only if the age check passes then. */
  lemma {:induction false} FlushDelivers(b: Backend, opener: Opener, uploads: seq<BridgeUpload>, clock: Clock,
          ciphertext: string)
    requires WellFormed(b.db) && Payable(b, opener, ciphertext) && NoCollision(opener, uploads, ciphertext)
    ensures Delivered(Flush(b, opener, uploads, clock).0, opener, uploads, clock, ciphertext)
  {
    if uploads != [] {
      var k := |uploads| - 1;
      var init, u := uploads[..k], uploads[k];
      assert uploads == init + [u];
      FlushDelivers(b, opener, init, clock, ciphertext);
      FlushClaimsAll(b, opener, init, clock);
      var b1, b2, r := LastIngest(b, opener, uploads, clock);
      if Carries(init, ciphertext) {
        DeliveryStays(b1, b2, r, opener, uploads, clock, ciphertext);
      } else {
        IngestOfPayable(b1, b2, r, opener, u, ciphertext, clock(k));
        assert u.packet.ciphertext == ciphertext ==> FirstUpload(uploads, ciphertext, k);
      }
    }
  }
}
