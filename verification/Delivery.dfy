/** From a phone's inject to the log: one gossip round and one flush are enough. */
module Delivery {
  import opened Types
  import opened Store
  import opened Ingestion
  import opened Mesh
  import opened Api
  import opened Flushes
  import opened Codec
  import opened Crypto

  /** Nobody holds the id yet. */
  ghost predicate FreshId(view: View, id: string) {
    forall d :: d in view ==> id !in view[d]
  }

  /** No other ciphertext in the mesh has this one's hash. */
  ghost predicate MeshNoCollision(opener: Opener, view: View, ciphertext: string) {
    forall d, id :: d in view && id in view[d] && opener.hash(view[d][id].ciphertext) == opener.hash(ciphertext) ==>
      view[d][id].ciphertext == ciphertext
  }

  /** The copy a bridge uploads: the injected packet with all its hops where it was injected, one fewer elsewhere. */
  function UploadOf(p: MeshPacket, device: string, bridge: string): BridgeUpload {
    BridgeUpload(bridge, if bridge == device then p else p.(ttl := p.ttl - 1))
  }

  /** After the round, every bridge holds the injected packet, one hop further unless it was injected there. */
  lemma {:induction false} BridgeHoldsIt(start: View, before: View, after: View, device: string, bridge: string,
          p: MeshPacket)
    requires device in start && bridge in start && FreshId(start, p.packetId) && p.ttl >= 1
    requires before == With(start, device, p) && GossipRound(before, after)
    ensures p.packetId in after[bridge] && after[bridge][p.packetId] == UploadOf(p, device, bridge).packet
  {
    if bridge != device {
      assert p.packetId in before[device] && before[device][p.packetId] == p;
      assert Offered(before, bridge, p.packetId);
      assert CopyOf(before, bridge, p.packetId, after[bridge][p.packetId]);
    }
  }

  /** Nobody holds the ciphertext yet. */
  ghost predicate FreshCiphertext(view: View, ciphertext: string) {
    forall d, id :: d in view && id in view[d] ==> view[d][id].ciphertext != ciphertext
  }

  /** A new ciphertext travels under no other id. */
  lemma {:induction false} OnlyThisId(start: View, before: View, after: View, device: string, p: MeshPacket,
          d: string, id: string)
    requires device in start && FreshCiphertext(start, p.ciphertext)
    requires before == With(start, device, p) && GossipRound(before, after)
    requires d in after && id in after[d] && after[d][id].ciphertext == p.ciphertext
    ensures id == p.packetId
  {
    if id !in before[d] {
      assert CopyOf(before, d, id, after[d][id]);
    }
  }

  lemma {:induction false} RoundAddsNoCollision(opener: Opener, start: View, before: View, after: View,
          device: string, p: MeshPacket)
    requires device in start && MeshNoCollision(opener, start, p.ciphertext)
    requires before == With(start, device, p) && GossipRound(before, after)
    ensures MeshNoCollision(opener, after, p.ciphertext)
  {
    assert MeshNoCollision(opener, before, p.ciphertext);
    forall d, id | d in after && id in after[d] && opener.hash(after[d][id].ciphertext) == opener.hash(p.ciphertext)
      ensures after[d][id].ciphertext == p.ciphertext
    {
      if id !in before[d] {
        assert CopyOf(before, d, id, after[d][id]);
      }
    }
  }

  lemma {:induction false} UploadsCarryIt(opener: Opener, uploads: seq<BridgeUpload>, view: View, online: set<string>,
          bridge: string, id: string, ciphertext: string)
    requires IsUploadOf(uploads, view, online) && bridge in view && bridge in online
    requires id in view[bridge] && view[bridge][id].ciphertext == ciphertext
    ensures BridgeUpload(bridge, view[bridge][id]) in uploads && Carries(uploads, ciphertext)
    ensures MeshNoCollision(opener, view, ciphertext) ==> NoCollision(opener, uploads, ciphertext)
  {
    assert BridgeUpload(bridge, view[bridge][id]) in uploads;
  }

  /** What one inject and one round make of the mesh. */
  ghost predicate Spread(start: View, after: View, device: string, p: MeshPacket) {
    device in start && GossipRound(With(start, device, p), after)
  }

  method InjectAndGossip(mesh: MeshSimulatorService, device: string, packet: MeshPacket)
    requires mesh.Valid() && device in mesh.devices
    modifies mesh.devices.Values
    ensures mesh.Valid()
    ensures Spread(old(mesh.View()), mesh.View(), device, packet)
  {
    ghost var start := mesh.View();
    var _ := mesh.Inject(device, packet);
    ghost var before := mesh.View();
    assert before == With(start, device, packet);
    var _, _ := mesh.GossipOnce();
  }

  /** The payment is new and unmistakable. */
  ghost predicate Deliverable(b: Backend, opener: Opener, view: View, packet: MeshPacket) {
    Payable(b, opener, packet.ciphertext) && MeshNoCollision(opener, view, packet.ciphertext)
  }

  /** Whatever is uploaded with the packet's ciphertext is the packet, with the hops it has left at that bridge. */
  ghost predicate OnlyUploadsOf(uploads: seq<BridgeUpload>, packet: MeshPacket, device: string) {
    forall u :: u in uploads && u.packet.ciphertext == packet.ciphertext ==>
      u == UploadOf(packet, device, u.bridgeNodeId)
  }

  /** Every bridge uploads the packet with the hops it has left, and nothing else carries a new ciphertext. */
  lemma {:induction false} SpreadIsUploaded(start: View, after: View, online: set<string>, device: string,
          packet: MeshPacket, uploads: seq<BridgeUpload>)
    requires FreshId(start, packet.packetId) && packet.ttl >= 1 && Spread(start, after, device, packet)
    requires online <= start.Keys && IsUploadOf(uploads, after, online)
    ensures forall bridge :: bridge in online ==> UploadOf(packet, device, bridge) in uploads
    ensures FreshCiphertext(start, packet.ciphertext) ==> OnlyUploadsOf(uploads, packet, device)
  {
    var before := With(start, device, packet);
    forall bridge | bridge in online ensures UploadOf(packet, device, bridge) in uploads {
      BridgeHoldsIt(start, before, after, device, bridge, packet);
      assert BridgeUpload(bridge, after[bridge][packet.packetId]) in uploads;
    }
    if FreshCiphertext(start, packet.ciphertext) {
      forall u | u in uploads && u.packet.ciphertext == packet.ciphertext
        ensures u == UploadOf(packet, device, u.bridgeNodeId)
      {
        OnlyThisId(start, before, after, device, packet, u.bridgeNodeId, u.packet.packetId);
        BridgeHoldsIt(start, before, after, device, u.bridgeNodeId, packet);
      }
    }
  }

  /** Upload number k was the first of the ciphertext; it decided the payment p. */
  ghost predicate DecidedBy(log: seq<Transaction>, hash: string, p: PaymentInstruction, uploads: seq<BridgeUpload>,
          ciphertext: string, clock: Clock, k: int)
  {
    && FirstUpload(uploads, ciphertext, k)
    && if Fresh(clock(k).gate, p.signedAt) then RecordedOnce(log, hash, p, uploads[k], clock(k))
       else !HasHash(log, hash)
  }

  /** A spread packet is claimed by the flush that follows. If deliverable, it is recorded exactly once, with the
      bridge and the hops of its first upload, if and only if the age check passes then. */
  lemma {:induction false} SpreadIsDelivered(b: Backend, opener: Opener, start: View, after: View, online: set<string>,
          device: string, packet: MeshPacket, uploads: seq<BridgeUpload>, clock: Clock)
    requires WellFormed(b.db) && FreshId(start, packet.packetId) && packet.ttl >= 1
    requires Spread(start, after, device, packet)
    requires online != {} && online <= start.Keys && IsUploadOf(uploads, after, online)
    ensures var b' := Flush(b, opener, uploads, clock).0;
      && opener.hash(packet.ciphertext) in b'.seen
      && (Deliverable(b, opener, start, packet) ==>
          exists k :: DecidedBy(b'.db.log, opener.hash(packet.ciphertext), opener.open(packet.ciphertext).value,
                                uploads, packet.ciphertext, clock, k))
  {
    var bridge :| bridge in online;
    BridgeHoldsIt(start, With(start, device, packet), after, device, bridge, packet);
    UploadsCarryIt(opener, uploads, after, online, bridge, packet.packetId, packet.ciphertext);
    FlushClaimsAll(b, opener, uploads, clock);
    if Deliverable(b, opener, start, packet) {
      RoundAddsNoCollision(opener, start, With(start, device, packet), after, device, packet);
      FlushDelivers(b, opener, uploads, clock, packet.ciphertext);
      var b' := Flush(b, opener, uploads, clock).0;
      var k :| FirstUpload(uploads, packet.ciphertext, k) && DecidedAt(b', opener, uploads[k], clock(k));
      assert DecidedBy(b'.db.log, opener.hash(packet.ciphertext), opener.open(packet.ciphertext).value,
                       uploads, packet.ciphertext, clock, k);
    }
  }

  /** Inject, one gossip round, one flush. A mesh with a bridge leaves the packet's hash claimed; if the payment was
      new, decryptable, between known accounts and positive, the log has exactly one row for it just when the
      packet was fresh as it was first uploaded. That row names the uploading bridge; if the ciphertext was new to
      the mesh, its hop count is 5 minus the TTL at injection, plus one unless it was injected at that bridge. */
  method SendAndDeliver(api: ApiController, device: string, packet: MeshPacket, clock: Clock)
    returns (ghost uploads: seq<BridgeUpload>)
    requires api.Valid()
    requires FreshId(api.mesh.View(), packet.packetId) && packet.ttl >= 1
    requires device in api.mesh.devices && api.mesh.Online() != {}
    modifies api.mesh.devices.Values, api.idempotency, api.db
    ensures api.Valid()
    ensures api.bridge.opener.hash(packet.ciphertext) in api.State().seen
    ensures IsUploadOf(uploads, api.mesh.View(), api.mesh.Online())
    ensures old(FreshCiphertext(api.mesh.View(), packet.ciphertext)) ==> OnlyUploadsOf(uploads, packet, device)
    ensures old(Deliverable(api.State(), api.bridge.opener, api.mesh.View(), packet)) ==>
      exists k :: DecidedBy(api.State().db.log, api.bridge.opener.hash(packet.ciphertext),
                            api.bridge.opener.open(packet.ciphertext).value, uploads, packet.ciphertext, clock, k)
  {
    ghost var opener := api.bridge.opener;
    ghost var start, backend := api.mesh.View(), api.State();
    InjectAndGossip(api.mesh, device, packet);
    ghost var after, online := api.mesh.View(), api.mesh.Online();
    assert api.State() == backend;
    var _, met := api.MeshFlush(clock);
    uploads := met;
    SpreadIsUploaded(start, after, online, device, packet, uploads);
    SpreadIsDelivered(backend, opener, start, after, online, device, packet, uploads, clock);
  }

  /** The same for what a phone really sends: sealed with lawful ciphers, the row carries the payment's own parties
      and amount. */
  lemma {:induction false} SealedPaymentIsDelivered(b: Backend, opener: Opener, c: Ciphers, fl: real -> real,
          p: PaymentInstruction, r: Randomness, start: View, after: View, online: set<string>, device: string,
          packet: MeshPacket, uploads: seq<BridgeUpload>, clock: Clock)
    requires Lawful(c) && Survives(c, ToJson(fl, p)) && r.Sized() && AmountSurvives(fl, p.amount)
    requires (forall s :: opener.open(s) == Open(c, fl, s)) && packet.ciphertext == Encrypted(c, ToJson(fl, p), r)
    requires WellFormed(b.db) && FreshId(start, packet.packetId) && packet.ttl >= 1
    requires Spread(start, after, device, packet)
    requires online != {} && online <= start.Keys && IsUploadOf(uploads, after, online)
    requires Deliverable(b, opener, start, packet)
    ensures exists k :: DecidedBy(Flush(b, opener, uploads, clock).0.db.log, opener.hash(packet.ciphertext), p,
                                  uploads, packet.ciphertext, clock, k)
  {
    PayloadExactly(c, fl, p, r);
    SpreadIsDelivered(b, opener, start, after, online, device, packet, uploads, clock);
  }
}
