/** The ingest pipeline: claim, decrypt, check the age, settle. */
module Ingestion {
  import opened Types
  import opened Store
  import opened Settlement
  import opened Idempotency

  const MAX_AGE_SECONDS := 86400
  const SKEW_SECONDS := 300

  /** SHA-256 of the ciphertext, and what decryption and parsing make of it (None when either throws). */
  datatype Opener = Opener(hash: string -> string, open: string -> Option<PaymentInstruction>)

  /** The clock readings one ingest takes: at the claim, at the age check, at the insert. */
  datatype Readings = Readings(claim: int, gate: int, insert: int)

  datatype Reason = Fine | DecryptionFailed | StalePacket | FutureDated | InternalError(cause: SettleError)

  datatype IngestResult = IngestResult(
    outcome: Status, packetHash: string, reason: Reason, transactionId: Option<int>)

  function AgeSeconds(now: int, signedAt: int): int {
    TruncDiv(now - signedAt, 1000)
  }

  predicate Fresh(now: int, signedAt: int) {
    -SKEW_SECONDS <= AgeSeconds(now, signedAt) <= MAX_AGE_SECONDS
  }

  /** Truncation widens the window by 999 ms on both sides. */
  lemma {:induction false} FreshWindow(now: int, signedAt: int)
    ensures Fresh(now, signedAt) <==> signedAt - 300_999 <= now <= signedAt + 86_400_999
  {
    var d := now - signedAt;
    if d >= 0 {
      assert d == 1000 * (d / 1000) + d % 1000;
    } else {
      assert -d == 1000 * (-d / 1000) + -d % 1000;
    }
  }

  /** Everything an ingest can change. */
  datatype Backend = Backend(seen: Cache, db: Db)

  /** The gates in order; the claim is kept whatever happens later. */
  function IngestAtOnce(b: Backend, opener: Opener, packet: MeshPacket, bridgeNodeId: string, hopCount: int,
          t: Readings)
    : (Backend, IngestResult)
  {
    var hash := opener.hash(packet.ciphertext);
    if hash in b.seen then (b, IngestResult(DUPLICATE_DROPPED, hash, Fine, None))
    else
      var b' := b.(seen := b.seen[hash := t.claim]);
      match opener.open(packet.ciphertext)
      case None => (b', IngestResult(INVALID, hash, DecryptionFailed, None))
      case Some(p) =>
        if AgeSeconds(t.gate, p.signedAt) > MAX_AGE_SECONDS then (b', IngestResult(INVALID, hash, StalePacket, None))
        else if AgeSeconds(t.gate, p.signedAt) < -SKEW_SECONDS then (b', IngestResult(INVALID, hash, FutureDated, None))
        else
          match SettleAtOnce(b'.db, Request(p, hash, bridgeNodeId, hopCount), t.insert)
          case (db', Ok(tx)) => (b'.(db := db'), IngestResult(tx.status, hash, Fine, Some(tx.id)))
          case (db', Err(e)) => (b'.(db := db'), IngestResult(INVALID, "?", InternalError(e), None))
  }

  /** When an ingest writes a row, what it writes, and that it never gives a claim back. */
  ghost predicate Ingested(b: Backend, b': Backend, r: IngestResult, hash: string,
                           payload: Option<PaymentInstruction>, bridgeNodeId: string, hopCount: int, t: Readings)
  {
    && WellFormed(b'.db)
    && b'.db.accounts.Keys == b.db.accounts.Keys
    && b'.seen == Claim(b.seen, hash, t.claim)
    && (hash in b.seen <==> r.outcome == DUPLICATE_DROPPED)
    && (b'.db != b.db <==>
          hash !in b.seen && !HasHash(b.db.log, hash) && payload.Some?
          && Fresh(t.gate, payload.value.signedAt)
          && payload.value.senderVpa in b.db.accounts && payload.value.receiverVpa in b.db.accounts
          && payload.value.amount > 0)
    && (b'.db == b.db ==> r.transactionId.None? && (r.outcome == DUPLICATE_DROPPED || r.outcome == INVALID))
    && (b'.db != b.db ==>
          && r.transactionId == Some(b'.db.lastId)
          && (exists tx :: b'.db.log == b.db.log + [tx] && tx.status == r.outcome
                && RowOf(tx, Request(payload.value, hash, bridgeNodeId, hopCount), t.insert))
          && r.outcome == (if b.db.accounts[payload.value.senderVpa].balance >= payload.value.amount
                           then SETTLED else REJECTED))
  }

  lemma {:induction false} IngestWritesOnlyPastEveryGate(b: Backend, opener: Opener, packet: MeshPacket,
                                      bridgeNodeId: string, hopCount: int, t: Readings)
    requires WellFormed(b.db)
    ensures var (b', r) := IngestAtOnce(b, opener, packet, bridgeNodeId, hopCount, t);
      Ingested(b, b', r, opener.hash(packet.ciphertext), opener.open(packet.ciphertext), bridgeNodeId, hopCount, t)
  {
    var payload := opener.open(packet.ciphertext);
    if payload.Some? {
      var req := Request(payload.value, opener.hash(packet.ciphertext), bridgeNodeId, hopCount);
      SettleRecordsOnce(b.db, req, t.insert);
    }
  }

  /** Which gate answers, in milliseconds and in order; the hash is lost only when the settle throws. */
  lemma {:induction false} IngestReasons(b: Backend, opener: Opener, packet: MeshPacket, bridgeNodeId: string,
          hopCount: int, t: Readings)
    ensures var (_, r) := IngestAtOnce(b, opener, packet, bridgeNodeId, hopCount, t);
      var hash := opener.hash(packet.ciphertext);
      && r.packetHash == (if r.reason.InternalError? then "?" else hash)
      && (hash in b.seen ==> r == IngestResult(DUPLICATE_DROPPED, hash, Fine, None))
      && (hash !in b.seen ==>
        match opener.open(packet.ciphertext)
        case None => r == IngestResult(INVALID, hash, DecryptionFailed, None)
        case Some(p) =>
          && (r.reason == StalePacket <==> t.gate - p.signedAt >= 86_401_000)
          && (r.reason == FutureDated <==> t.gate - p.signedAt <= -301_000)
          && (r.reason.InternalError? <==>
               -301_000 < t.gate - p.signedAt < 86_401_000
               && (HasHash(b.db.log, hash) || p.senderVpa !in b.db.accounts || p.receiverVpa !in b.db.accounts
                   || p.amount <= 0))
          && (r.reason == Fine <==> r.transactionId.Some?)
          && (r.reason != Fine ==> r.outcome == INVALID))
  {
    var payload := opener.open(packet.ciphertext);
    if payload.Some? {
      var d := t.gate - payload.value.signedAt;
      if d >= 0 {
        assert d == 1000 * (d / 1000) + d % 1000;
      } else {
        assert -d == 1000 * (-d / 1000) + -d % 1000;
      }
    }
  }

  class BridgeIngestionService {
    const opener: Opener
    const idempotency: IdempotencyService
    const settlement: SettlementService

    ghost predicate Valid()
      reads this, settlement, settlement.db
    {
      settlement.Valid()
    }

    function State(): Backend
      reads this, idempotency, settlement.db
    {
      Backend(idempotency.seen, settlement.db.Contents())
    }

    constructor (opener: Opener, idempotency: IdempotencyService, settlement: SettlementService)
      requires settlement.Valid()
      ensures Valid()
      ensures this.opener == opener && this.idempotency == idempotency && this.settlement == settlement
    {
      this.opener := opener;
      this.idempotency := idempotency;
      this.settlement := settlement;
    }

    method Ingest(packet: MeshPacket, bridgeNodeId: string, hopCount: int, t: Readings) returns (r: IngestResult)
      requires Valid()
      modifies idempotency, settlement.db
      ensures Valid()
      ensures (State(), r) == IngestAtOnce(old(State()), opener, packet, bridgeNodeId, hopCount, t)
    {
      var packetHash := opener.hash(packet.ciphertext);
      var claimed := idempotency.Claim(packetHash, t.claim);
      if !claimed {
        return IngestResult(DUPLICATE_DROPPED, packetHash, Fine, None);
      }
      var payload := opener.open(packet.ciphertext);
      if payload.None? {
        return IngestResult(INVALID, packetHash, DecryptionFailed, None);
      }
      var ageSeconds := TruncDiv(t.gate - payload.value.signedAt, 1000);
      if ageSeconds > MAX_AGE_SECONDS {
        return IngestResult(INVALID, packetHash, StalePacket, None);
      }
      if ageSeconds < -300 {
        return IngestResult(INVALID, packetHash, FutureDated, None);
      }
      var tx := settlement.Settle(Request(payload.value, packetHash, bridgeNodeId, hopCount), t.insert);
      match tx
      case Ok(row) => r := IngestResult(row.status, packetHash, Fine, Some(row.id));
      case Err(e) => r := IngestResult(INVALID, "?", InternalError(e), None);
    }
  }
}
