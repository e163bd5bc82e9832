/** The mesh simulator: devices that hold packets and a gossip round that floods them one hop. */
module Mesh {
  import opened Types
  import opened Sums

  type Held = map<string, MeshPacket>  // packet id -> packet
  type View = map<string, Held>        // device id -> what it holds

  ghost predicate Keyed(held: Held) {
    forall id :: id in held ==> held[id].packetId == id
  }

  ghost predicate WellKeyed(view: View) {
    forall d :: d in view ==> Keyed(view[d])
  }

  function Copied(p: MeshPacket): MeshPacket {
    p.(ttl := p.ttl - 1)
  }

  function With(view: View, d: string, p: MeshPacket): View
    requires d in view
  {
    view[d := view[d][p.packetId := p]]
  }

  /** Another device held the packet with hops left when the round began. */
  ghost predicate Offered(before: View, d: string, id: string) {
    exists src :: src in before && src != d && id in before[src] && before[src][id].ttl > 0
  }

  /** `p` is what some other device's copy becomes on the way to `d`. */
  ghost predicate CopyOf(before: View, d: string, id: string, p: MeshPacket) {
    exists src :: src in before && src != d && id in before[src] && before[src][id].ttl > 0
                  && p == before[src][id].(ttl := before[src][id].ttl - 1)
  }

  /** Copies already held stay; everything else held is a copy of something offered. */
  ghost predicate Sound(before: View, after: View) {
    && after.Keys == before.Keys
    && forall d :: d in before ==>
      && (forall id :: id in before[d] ==> id in after[d] && after[d][id] == before[d][id])
      && (forall id :: id in after[d] && id !in before[d] ==> CopyOf(before, d, id, after[d][id]))
  }

  /** One round: each device holds what it held and everything offered to it, and nothing more. */
  ghost predicate GossipRound(before: View, after: View) {
    && Sound(before, after)
    && forall d, id :: d in before && Offered(before, d, id) ==> id in after[d]
  }

  /** Holding only ever adds during a round. */
  ghost predicate Grown(a: View, b: View) {
    && a.Keys == b.Keys
    && forall d, id :: d in a && id in a[d] ==> id in b[d] && b[d][id] == a[d][id]
  }

  ghost function Counts(view: View): map<string, int> {
    map d | d in view :: |view[d]|
  }

  /** How many copies the whole mesh holds. */
  ghost function Copies(view: View): int {
    Sum(Counts(view))
  }

  lemma {:induction false} CopiesAfterHold(view: View, d: string, p: MeshPacket)
    requires d in view && p.packetId !in view[d]
    ensures Copies(With(view, d, p)) == Copies(view) + 1
  {
    var view' := With(view, d, p);
    assert Counts(view') == Counts(view)[d := |view[d]| + 1];
    SumUpdate(Counts(view), d, |view[d]| + 1);
  }

  /** The counts of all devices but those ahead. */
  ghost predicate CountsOf(counts: map<string, int>, view: View, ahead: set<string>) {
    && (forall d :: d in counts <==> d in view && d !in ahead)
    && (forall d :: d in counts ==> counts[d] == |view[d]|)
  }

  lemma {:induction false} OneMoreCounted(counts: map<string, int>, view: View, ahead: set<string>, d: string)
    requires CountsOf(counts, view, ahead) && d in ahead && d in view
    ensures CountsOf(counts[d := |view[d]|], view, ahead - {d})
  {
  }

  lemma {:induction false} AllCounted(counts: map<string, int>, view: View)
    requires CountsOf(counts, view, {})
    ensures counts == Counts(view)
  {
  }

  // ---- what the loops of a round keep ----

  ghost predicate Offers(before: View, src: string, pkt: MeshPacket) {
    src in before && pkt.packetId in before[src] && before[src][pkt.packetId] == pkt && pkt.ttl > 0
  }

  lemma {:induction false} HoldKeepsSound(before: View, view: View, src: string, dst: string, pkt: MeshPacket)
    requires Sound(before, view) && Offers(before, src, pkt)
    requires dst in view && dst != src && pkt.packetId !in view[dst]
    ensures Sound(before, With(view, dst, Copied(pkt)))
  {
    assert CopyOf(before, dst, pkt.packetId, Copied(pkt));
  }

  /** What one pass of the innermost loop body leaves. */
  ghost predicate Handed(before: View, view: View, view': View, src: string, dst: string, pkt: MeshPacket, given: int) {
    && Sound(before, view') && Grown(view, view')
    && (dst in view' && dst != src ==> pkt.packetId in view'[dst])
    && given == Copies(view') - Copies(view)
  }

  lemma {:induction false} HoldGives(before: View, view: View, src: string, dst: string, pkt: MeshPacket)
    requires Sound(before, view) && Offers(before, src, pkt)
    requires dst in view && dst != src && pkt.packetId !in view[dst]
    ensures Handed(before, view, With(view, dst, Copied(pkt)), src, dst, pkt, 1)
  {
    HoldKeepsSound(before, view, src, dst, pkt);
    CopiesAfterHold(view, dst, Copied(pkt));
  }

  ghost predicate Served(view: View, done: set<string>, src: string, id: string) {
    forall d :: d in done && d != src ==> d in view && id in view[d]
  }

  lemma {:induction false} ServedGrows(before: View, view: View, view': View, done: set<string>,
                    src: string, dst: string, pkt: MeshPacket, given: int)
    requires Handed(before, view, view', src, dst, pkt, given)
    requires Served(view, done, src, pkt.packetId) && dst in view
    ensures Served(view', done + {dst}, src, pkt.packetId)
  {
  }

  lemma {:induction false} NothingHanded(before: View, view: View, src: string, dst: string, pkt: MeshPacket)
    requires Sound(before, view) && (dst == src || (dst in view && pkt.packetId in view[dst]))
    ensures Handed(before, view, view, src, dst, pkt, 0)
  {
  }

  /** What the innermost loop leaves: every other device holds the packet. */
  ghost predicate Flooded(before: View, start: View, end: View, src: string, id: string, transfers: int) {
    && Sound(before, end) && Grown(start, end)
    && (forall d :: d in end && d != src ==> id in end[d])
    && transfers == Copies(end) - Copies(start)
  }

  /** The packet reached every device but its source. */
  ghost predicate SentOut(view: View, src: string, id: string) {
    forall d :: d in view && d != src ==> id in view[d]
  }

  lemma {:induction false} SentOutStays(a: View, b: View, src: string, id: string)
    requires SentOut(a, src, id) && Grown(a, b)
    ensures SentOut(b, src, id)
  {
  }

  ghost predicate Forwarded(view: View, src: string, packets: seq<MeshPacket>) {
    forall p :: p in packets && p.ttl > 0 ==> SentOut(view, src, p.packetId)
  }

  lemma {:induction false} ForwardedGrows(before: View, view: View, view': View, src: string,
                       packets: seq<MeshPacket>, p: MeshPacket, given: int)
    requires Forwarded(view, src, packets) && Flooded(before, view, view', src, p.packetId, given)
    ensures Forwarded(view', src, packets + [p])
  {
    forall q | q in packets && q.ttl > 0 {
      SentOutStays(view, view', src, q.packetId);
    }
  }

  ghost predicate Drained(before: View, start: View, end: View, src: string, transfers: int) {
    && Sound(before, end) && Grown(start, end)
    && (src in before && forall id :: id in before[src] && before[src][id].ttl > 0 ==> SentOut(end, src, id))
    && transfers == Copies(end) - Copies(start)
  }

  ghost predicate AllSent(before: View, view: View, done: set<string>) {
    forall src, id :: src in done && src in before && id in before[src] && before[src][id].ttl > 0 ==>
      SentOut(view, src, id)
  }

  lemma {:induction false} AllSentGrows(before: View, view: View, view': View, done: set<string>, src: string,
          given: int)
    requires AllSent(before, view, done) && Drained(before, view, view', src, given)
    ensures AllSent(before, view', done + {src})
  {
    forall s, id | s in done && s in before && id in before[s] && before[s][id].ttl > 0 {
      SentOutStays(view, view', s, id);
    }
  }

  /** A round, and a transfer count that is the growth of the mesh. */
  ghost predicate RoundDone(before: View, after: View, transfers: int) {
    GossipRound(before, after) && transfers == Copies(after) - Copies(before)
  }

  lemma {:induction false} AllSentIsRound(before: View, view: View, transfers: int)
    requires Sound(before, view) && AllSent(before, view, before.Keys)
    requires transfers == Copies(view) - Copies(before)
    ensures RoundDone(before, view, transfers)
  {
    forall d, id | d in before && Offered(before, d, id) ensures id in view[d] {
      var src :| src in before && src != d && id in before[src] && before[src][id].ttl > 0;
      assert SentOut(view, src, id);
    }
  }

  // ---- devices ----

  lemma {:induction false} TakeNext<T>(s: seq<T>, i: nat)
    requires i < |s|
    ensures s[..i + 1] == s[..i] + [s[i]]
  {
  }

  lemma {:induction false} TakeAll<T>(s: seq<T>)
    ensures s[..|s|] == s
  {
  }

  /** The packets of `held`, each once. */
  ghost predicate Lists(packets: seq<MeshPacket>, held: Held) {
    && (forall i :: 0 <= i < |packets| ==> packets[i].packetId in held && packets[i] == held[packets[i].packetId])
    && (forall id :: id in held ==> held[id] in packets)
    && (forall i, j :: 0 <= i < j < |packets| ==> packets[i].packetId != packets[j].packetId)
  }

  ghost predicate SnapshotOf(snapshot: map<string, seq<MeshPacket>>, view: View, done: set<string>) {
    forall d :: d in done ==> d in snapshot && d in view && Lists(snapshot[d], view[d])
  }

  class VirtualDevice {
    const deviceId: string
    const hasInternet: bool
    var heldPackets: Held

    constructor (deviceId: string, hasInternet: bool)
      ensures this.deviceId == deviceId && this.hasInternet == hasInternet && heldPackets == map[]
    {
      this.deviceId := deviceId;
      this.hasInternet := hasInternet;
      heldPackets := map[];
    }

    method Hold(packet: MeshPacket)
      modifies this
      ensures heldPackets == old(heldPackets)[packet.packetId := packet]
    {
      heldPackets := heldPackets[packet.packetId := packet];
    }

    method Holds(packetId: string) returns (r: bool)
      ensures r <==> packetId in heldPackets
    {
      r := packetId in heldPackets;
    }

    method PacketCount() returns (n: int)
      ensures n == |heldPackets|
    {
      n := |heldPackets|;
    }

    /** Every held packet once, in any order. */
    method GetHeldPackets() returns (packets: seq<MeshPacket>)
      requires Keyed(heldPackets)
      ensures Lists(packets, heldPackets)
    {
      packets := [];
      var ahead := heldPackets.Keys;
      while ahead != {}
        invariant ahead <= heldPackets.Keys
        invariant Lists(packets, map id | id in heldPackets && id !in ahead :: heldPackets[id])
        decreases |ahead|
      {
        var id :| id in ahead;
        packets := packets + [heldPackets[id]];
        ahead := ahead - {id};
      }
      assert (map id | id in heldPackets && id !in ahead :: heldPackets[id]) == heldPackets;
    }

    method Clear()
      modifies this
      ensures heldPackets == map[]
    {
      heldPackets := map[];
    }
  }

  ghost function IdsOf(list: seq<VirtualDevice>): set<string> {
    set x | x in list :: x.deviceId
  }

  lemma {:induction false} IdsOfAppended(list: seq<VirtualDevice>, d: VirtualDevice)
    ensures IdsOf(list + [d]) == IdsOf(list) + {d.deviceId}
  {
  }

  /** The list and the devices still ahead are together all of them. */
  ghost predicate DeviceList(list: seq<VirtualDevice>, devices: map<string, VirtualDevice>, ahead: set<string>) {
    && IdsOf(list) + ahead == devices.Keys
    && forall i :: 0 <= i < |list| ==> list[i].deviceId in devices && list[i] == devices[list[i].deviceId]
  }

  lemma {:induction false} OneMoreDevice(list: seq<VirtualDevice>, devices: map<string, VirtualDevice>,
          ahead: set<string>, d: string)
    requires DeviceList(list, devices, ahead) && d in ahead && d in devices && devices[d].deviceId == d
    ensures DeviceList(list + [devices[d]], devices, ahead - {d})
  {
    IdsOfAppended(list, devices[d]);
    assert IdsOf(list) + {d} + (ahead - {d}) == IdsOf(list) + ahead;
  }

  lemma {:induction false} IdsOfNext(list: seq<VirtualDevice>, i: nat)
    requires i < |list|
    ensures IdsOf(list[..i + 1]) == IdsOf(list[..i]) + {list[i].deviceId}
  {
    TakeNext(list, i);
    IdsOfAppended(list[..i], list[i]);
  }

  // ---- uploads ----

  datatype BridgeUpload = BridgeUpload(bridgeNodeId: string, packet: MeshPacket)

  /** The uploads are exactly the packets held by devices with internet, each once. */
  ghost predicate IsUploadOf(uploads: seq<BridgeUpload>, view: View, online: set<string>) {
    && (forall i :: 0 <= i < |uploads| ==>
      var u := uploads[i];
      u.bridgeNodeId in view && u.bridgeNodeId in online && u.packet.packetId in view[u.bridgeNodeId]
      && u.packet == view[u.bridgeNodeId][u.packet.packetId])
    && (forall d, id :: d in view && d in online && id in view[d] ==> BridgeUpload(d, view[d][id]) in uploads)
    && (forall i, j :: 0 <= i < j < |uploads| ==>
      uploads[i].bridgeNodeId != uploads[j].bridgeNodeId || uploads[i].packet.packetId != uploads[j].packet.packetId)
  }

  lemma {:induction false} OneFewerAhead(online: set<string>, ahead: set<string>, d: string)
    requires d in ahead
    ensures online - (ahead - {d}) == online - ahead + (if d in online then {d} else {})
  {
  }

  ghost predicate UploadsFrom(more: seq<BridgeUpload>, d: string, packets: seq<MeshPacket>) {
    |more| == |packets| && forall i :: 0 <= i < |more| ==> more[i] == BridgeUpload(d, packets[i])
  }

  lemma {:induction false} UploadsFromAll(more: seq<BridgeUpload>, d: string, packets: seq<MeshPacket>, held: Held,
          id: string)
    requires UploadsFrom(more, d, packets) && Lists(packets, held) && id in held
    ensures BridgeUpload(d, held[id]) in more
  {
    var i :| 0 <= i < |packets| && packets[i] == held[id];
    assert more[i] == BridgeUpload(d, held[id]);
  }

  lemma {:induction false} UploadsOfOneMore(uploads: seq<BridgeUpload>, view: View, online: set<string>, d: string,
                                            packets: seq<MeshPacket>, more: seq<BridgeUpload>)
    requires IsUploadOf(uploads, view, online) && d in view && d !in online && Lists(packets, view[d])
    requires UploadsFrom(more, d, packets)
    ensures IsUploadOf(uploads + more, view, online + {d})
  {
    forall e, id | e in view && e in online + {d} && id in view[e]
      ensures BridgeUpload(e, view[e][id]) in uploads + more
    {
      if e == d {
        UploadsFromAll(more, d, packets, view[d], id);
      }
    }
  }

  class MeshSimulatorService {
    const devices: map<string, VirtualDevice>

    ghost predicate Valid()
      reads this, devices.Values
    {
      && (forall d :: d in devices ==> devices[d].deviceId == d)
      && WellKeyed(View())
    }

    function View(): View
      reads this, devices.Values
    {
      map d | d in devices :: devices[d].heldPackets
    }

    ghost function Online(): set<string>
      reads this, devices.Values
    {
      set d | d in devices && devices[d].hasInternet
    }

    /** Any set of devices; the source seeds five of them, one with internet. */
    constructor (devices: map<string, VirtualDevice>)
      requires forall d :: d in devices ==> devices[d].deviceId == d && devices[d].heldPackets == map[]
      ensures Valid() && this.devices == devices
    {
      this.devices := devices;
    }

    /** All devices once, in any order. */
    method GetDevices() returns (list: seq<VirtualDevice>)
      requires Valid()
      ensures IsDeviceList(list)
    {
      list := [];
      var ahead := devices.Keys;
      while ahead != {}
        invariant ahead <= devices.Keys
        invariant DeviceList(list, devices, ahead)
        decreases |ahead|
      {
        var d :| d in ahead;
        OneMoreDevice(list, devices, ahead, d);
        list := list + [devices[d]];
        ahead := ahead - {d};
      }
    }

    ghost predicate IsDeviceList(list: seq<VirtualDevice>) {
      DeviceList(list, devices, {})
    }

    method Inject(senderDeviceId: string, packet: MeshPacket) returns (known: bool)
      requires Valid()
      modifies devices.Values
      ensures Valid()
      ensures known <==> senderDeviceId in devices
      ensures known ==> View() == With(old(View()), senderDeviceId, packet)
      ensures !known ==> View() == old(View())
    {
      known := senderDeviceId in devices;
      if known {
        HoldAt(devices[senderDeviceId], packet, View());
      }
    }

    /** One call of `hold`, seen from the whole mesh. */
    method HoldAt(dst: VirtualDevice, packet: MeshPacket, ghost view: View)
      requires Valid() && view == View() && dst.deviceId in devices && devices[dst.deviceId] == dst
      modifies dst
      ensures Valid()
      ensures View() == With(view, dst.deviceId, packet)
    {
      dst.Hold(packet);
    }

    /** The body of the innermost loop. */
    method Offer(src: VirtualDevice, pkt: MeshPacket, dst: VirtualDevice, ghost before: View, ghost view: View)
      returns (given: int)
      requires Valid() && view == View()
      requires dst.deviceId in devices && devices[dst.deviceId] == dst
      requires src.deviceId in devices && devices[src.deviceId] == src
      requires Sound(before, view) && Offers(before, src.deviceId, pkt)
      modifies dst
      ensures Valid()
      ensures Handed(before, view, View(), src.deviceId, dst.deviceId, pkt, given)
    {
      if dst == src {
        NothingHanded(before, view, src.deviceId, dst.deviceId, pkt);
        return 0;
      }
      var has := dst.Holds(pkt.packetId);
      assert View() == view;
      if has {
        NothingHanded(before, view, src.deviceId, dst.deviceId, pkt);
        return 0;
      }
      HoldGives(before, view, src.deviceId, dst.deviceId, pkt);
      HoldAt(dst, Copied(pkt), view);
      return 1;
    }

    /** The innermost loop: hand `pkt` to every device that lacks it. */
    method Flood(src: VirtualDevice, pkt: MeshPacket, deviceList: seq<VirtualDevice>, ghost before: View)
      returns (transfers: int)
      requires Valid() && IsDeviceList(deviceList)
      requires src.deviceId in devices && devices[src.deviceId] == src
      requires Sound(before, View()) && Offers(before, src.deviceId, pkt)
      modifies devices.Values
      ensures Valid()
      ensures Flooded(before, old(View()), View(), src.deviceId, pkt.packetId, transfers)
    {
      transfers := 0;
      ghost var start := View();
      ghost var view := start;
      for i := 0 to |deviceList|
        invariant Valid() && view == View() && Sound(before, view) && Grown(start, view)
        invariant Served(view, IdsOf(deviceList[..i]), src.deviceId, pkt.packetId)
        invariant transfers == Copies(view) - Copies(start)
      {
        var given := Offer(src, pkt, deviceList[i], before, view);
        transfers := transfers + given;
        ServedGrows(before, view, View(), IdsOf(deviceList[..i]), src.deviceId, deviceList[i].deviceId, pkt, given);
        IdsOfNext(deviceList, i);
        view := View();
      }
      TakeAll(deviceList);
    }

    /** The middle loop: everything `src` held when the round began and may still forward. */
    method FloodAll(src: VirtualDevice, packets: seq<MeshPacket>, deviceList: seq<VirtualDevice>, ghost before: View)
      returns (transfers: int)
      requires Valid() && IsDeviceList(deviceList)
      requires src.deviceId in devices && devices[src.deviceId] == src
      requires Sound(before, View()) && Lists(packets, before[src.deviceId])
      modifies devices.Values
      ensures Valid()
      ensures Drained(before, old(View()), View(), src.deviceId, transfers)
    {
      transfers := 0;
      ghost var start := View();
      ghost var view := start;
      for i := 0 to |packets|
        invariant Valid() && view == View() && Sound(before, view) && Grown(start, view)
        invariant Forwarded(view, src.deviceId, packets[..i])
        invariant transfers == Copies(view) - Copies(start)
      {
        TakeNext(packets, i);
        if packets[i].ttl > 0 {
          var given := Flood(src, packets[i], deviceList, before);
          transfers := transfers + given;
          ForwardedGrows(before, view, View(), src.deviceId, packets[..i], packets[i], given);
          view := View();
        }
      }
      TakeAll(packets);
    }

    /** `getHeldPackets` of every device, before anything moves. */
    method Snapshot(deviceList: seq<VirtualDevice>, ghost view: View) returns (snapshot: map<string, seq<MeshPacket>>)
      requires Valid() && IsDeviceList(deviceList) && view == View()
      ensures View() == view && SnapshotOf(snapshot, view, devices.Keys)
    {
      snapshot := map[];
      for i := 0 to |deviceList|
        invariant View() == view && SnapshotOf(snapshot, view, IdsOf(deviceList[..i]))
      {
        var d := deviceList[i].deviceId;
        var packets := HeldAt(d, view);
        snapshot := snapshot[d := packets];
        IdsOfNext(deviceList, i);
      }
      TakeAll(deviceList);
    }

    /** The outer loop, over the sources. */
    method FloodMesh(deviceList: seq<VirtualDevice>, snapshot: map<string, seq<MeshPacket>>, ghost before: View)
      returns (transfers: int)
      requires Valid() && IsDeviceList(deviceList) && before == View()
      requires SnapshotOf(snapshot, before, devices.Keys)
      modifies devices.Values
      ensures Valid()
      ensures RoundDone(before, View(), transfers)
    {
      transfers := 0;
      ghost var view := before;
      for i := 0 to |deviceList|
        invariant Valid() && view == View() && Sound(before, view)
        invariant AllSent(before, view, IdsOf(deviceList[..i]))
        invariant transfers == Copies(view) - Copies(before)
      {
        var src := deviceList[i];
        var given := FloodAll(src, snapshot[src.deviceId], deviceList, before);
        transfers := transfers + given;
        AllSentGrows(before, view, View(), IdsOf(deviceList[..i]), src.deviceId, given);
        IdsOfNext(deviceList, i);
        view := View();
      }
      TakeAll(deviceList);
      AllSentIsRound(before, view, transfers);
    }

    /** Read every device, then flood what they held. */
    method Round() returns (transfers: int)
      requires Valid()
      modifies devices.Values
      ensures Valid()
      ensures RoundDone(old(View()), View(), transfers)
    {
      ghost var before := View();
      var deviceList := GetDevices();
      var snapshot := Snapshot(deviceList, before);
      transfers := FloodMesh(deviceList, snapshot, before);
    }

    /** One gossip round. Its count is the growth of the mesh, and the reported counts are those after it. */
    method GossipOnce() returns (transfers: int, deviceCounts: map<string, int>)
      requires Valid()
      modifies devices.Values
      ensures Valid()
      ensures RoundDone(old(View()), View(), transfers)
      ensures deviceCounts == Counts(View())
    {
      transfers := Round();
      deviceCounts := SnapshotMap();
    }

    method SnapshotMap() returns (counts: map<string, int>)
      requires Valid()
      ensures counts == Counts(View())
    {
      counts := map[];
      var ahead := devices.Keys;
      ghost var view := View();
      while ahead != {}
        invariant ahead <= devices.Keys && view == View()
        invariant CountsOf(counts, view, ahead)
        decreases |ahead|
      {
        var d :| d in ahead;
        var n := devices[d].PacketCount();
        OneMoreCounted(counts, view, ahead, d);
        counts := counts[d := n];
        ahead := ahead - {d};
      }
      AllCounted(counts, view);
    }

    /** Everything held by devices with internet, device by device. */
    method CollectBridgeUploads() returns (uploads: seq<BridgeUpload>)
      requires Valid()
      ensures IsUploadOf(uploads, View(), Online())
    {
      uploads := [];
      var ahead := devices.Keys;
      ghost var view, online := View(), Online();
      while ahead != {}
        invariant ahead <= devices.Keys && view == View() && online == Online()
        invariant IsUploadOf(uploads, view, online - ahead)
        decreases |ahead|
      {
        var d :| d in ahead;
        if devices[d].hasInternet {
          var packets := HeldAt(d, view);
          var more := UploadEach(d, packets);
          UploadsOfOneMore(uploads, view, online - ahead, d, packets, more);
          uploads := uploads + more;
        }
        OneFewerAhead(online, ahead, d);
        ahead := ahead - {d};
      }
      assert online - {} == online;
    }

    method HeldAt(d: string, ghost view: View) returns (packets: seq<MeshPacket>)
      requires Valid() && d in devices && view == View()
      ensures Lists(packets, view[d])
    {
      assert Keyed(view[d]);
      packets := devices[d].GetHeldPackets();
    }

    method UploadEach(d: string, packets: seq<MeshPacket>) returns (more: seq<BridgeUpload>)
      ensures UploadsFrom(more, d, packets)
    {
      more := [];
      for i := 0 to |packets|
        invariant |more| == i && forall j :: 0 <= j < i ==> more[j] == BridgeUpload(d, packets[j])
      {
        more := more + [BridgeUpload(d, packets[i])];
      }
    }

    method ResetMesh()
      requires Valid()
      modifies devices.Values
      ensures Valid()
      ensures View() == map d | d in devices :: map[]
    {
      ghost var view := View();
      var ahead := devices.Keys;
      while ahead != {}
        invariant ahead <= devices.Keys
        invariant Valid() && view == View()
        invariant forall d :: d in view && d !in ahead ==> view[d] == map[]
        decreases |ahead|
      {
        var d :| d in ahead;
        ClearAt(devices[d], view);
        view := View();
        ahead := ahead - {d};
      }
    }

    /** One call of `clear`, seen from the whole mesh. */
    method ClearAt(dst: VirtualDevice, ghost view: View)
      requires Valid() && view == View() && dst.deviceId in devices && devices[dst.deviceId] == dst
      modifies dst
      ensures Valid()
      ensures View() == view[dst.deviceId := map[]]
    {
      dst.Clear();
    }
  }
}
