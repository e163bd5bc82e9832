/** Overlapping gossip rounds. Each device call takes one mutex, so reading a device, `holds` and `hold` are
    separate steps, and injects, other rounds and resets may come in between. */
module MeshConcurrent {
  import opened Types
  import opened Mesh

  /** A round has read some devices; between `holds` and `hold` it has a copy under way to a device. */
  datatype Round = Round(snapshot: set<(string, MeshPacket)>, pending: Option<(string, MeshPacket)>)

  datatype Net = Net(view: View, rounds: seq<Round>, injected: set<MeshPacket>)

  datatype Event =
    | Inject(device: string, packet: MeshPacket)
    | StartRound
    | ReadDevice(round: nat, device: string)
    | CheckHolds(round: nat, src: string, packet: MeshPacket, dst: string)
    | HoldCopy(round: nat)
    | ClearDevice(device: string)

  function Apply(n: Net, e: Event): Net {
    match e
    case Inject(d, p) =>
      if d in n.view then n.(view := With(n.view, d, p), injected := n.injected + {p}) else n
    case StartRound => n.(rounds := n.rounds + [Round({}, None)])
    case ReadDevice(r, d) =>
      if r < |n.rounds| && d in n.view then
        var round := n.rounds[r];
        var read := set id | id in n.view[d] :: (d, n.view[d][id]);
        n.(rounds := n.rounds[r := round.(snapshot := round.snapshot + read)])
      else n
    case CheckHolds(r, src, p, dst) =>
      if r < |n.rounds| && n.rounds[r].pending.None? && (src, p) in n.rounds[r].snapshot && p.ttl > 0
         && dst in n.view && dst != src && p.packetId !in n.view[dst]
      then n.(rounds := n.rounds[r := n.rounds[r].(pending := Some((dst, Copied(p))))])
      else n
    case HoldCopy(r) =>
      if r < |n.rounds| && n.rounds[r].pending.Some? && n.rounds[r].pending.value.0 in n.view then
        var (dst, copy) := n.rounds[r].pending.value;
        n.(view := With(n.view, dst, copy), rounds := n.rounds[r := n.rounds[r].(pending := None)])
      else n
    case ClearDevice(d) => if d in n.view then n.(view := n.view[d := map[]]) else n
  }

  function Run(n: Net, events: seq<Event>): Net {
    if events == [] then n else Apply(Run(n, events[..|events| - 1]), events[|events| - 1])
  }

  /** `p` left some hops behind since it was injected, and nothing else changed. */
  ghost predicate Forwarded(injected: set<MeshPacket>, p: MeshPacket) {
    exists q :: q in injected && p == q.(ttl := p.ttl) && 0 <= p.ttl < q.ttl
  }

  ghost predicate Genuine(injected: set<MeshPacket>, p: MeshPacket) {
    p in injected || Forwarded(injected, p)
  }

  ghost predicate Intact(n: Net) {
    && (forall d, id :: d in n.view && id in n.view[d] ==>
          n.view[d][id].packetId == id && Genuine(n.injected, n.view[d][id]))
    && (forall r, x :: 0 <= r < |n.rounds| && x in n.rounds[r].snapshot ==> Genuine(n.injected, x.1))
    && (forall r :: 0 <= r < |n.rounds| && n.rounds[r].pending.Some? ==>
          Forwarded(n.injected, n.rounds[r].pending.value.1))
  }

  lemma {:induction false} CopyIsForwarded(injected: set<MeshPacket>, p: MeshPacket)
    requires Genuine(injected, p) && p.ttl > 0
    ensures Forwarded(injected, Copied(p))
  {
    if p in injected {
      assert Copied(p) == p.(ttl := Copied(p).ttl);
    } else {
      var q :| q in injected && p == q.(ttl := p.ttl) && 0 <= p.ttl < q.ttl;
      assert Copied(p) == q.(ttl := Copied(p).ttl);
    }
  }

  lemma {:induction false} GenuineStays(a: set<MeshPacket>, b: set<MeshPacket>, p: MeshPacket)
    requires a <= b
    ensures Forwarded(a, p) ==> Forwarded(b, p)
    ensures Genuine(a, p) ==> Genuine(b, p)
  {
  }

  lemma {:induction false} InjectStaysIntact(n: Net, d: string, p: MeshPacket)
    requires Intact(n)
    ensures Intact(Apply(n, Inject(d, p)))
  {
    var n' := Apply(n, Inject(d, p));
    forall e, id | e in n'.view && id in n'.view[e]
      ensures n'.view[e][id].packetId == id && Genuine(n'.injected, n'.view[e][id])
    {
      GenuineStays(n.injected, n'.injected, n'.view[e][id]);
    }
    forall r, x | 0 <= r < |n'.rounds| && x in n'.rounds[r].snapshot ensures Genuine(n'.injected, x.1) {
      GenuineStays(n.injected, n'.injected, x.1);
    }
    forall r | 0 <= r < |n'.rounds| && n'.rounds[r].pending.Some?
      ensures Forwarded(n'.injected, n'.rounds[r].pending.value.1)
    {
      GenuineStays(n.injected, n'.injected, n'.rounds[r].pending.value.1);
    }
  }

  lemma {:induction false} CheckStaysIntact(n: Net, e: Event)
    requires Intact(n) && e.CheckHolds?
    ensures Intact(Apply(n, e))
  {
    if Apply(n, e) != n {
      assert Genuine(n.injected, (e.src, e.packet).1);
      CopyIsForwarded(n.injected, e.packet);
    }
  }

  lemma {:induction false} ApplyStaysIntact(n: Net, e: Event)
    requires Intact(n)
    ensures Intact(Apply(n, e))
  {
    match e
    case Inject(d, p) => InjectStaysIntact(n, d, p);
    case CheckHolds(_, _, _, _) => CheckStaysIntact(n, e);
    case _ =>
  }

  lemma {:induction false} RunStaysIntact(n: Net, events: seq<Event>)
    requires Intact(n)
    ensures Intact(Run(n, events))
  {
    if events != [] {
      RunStaysIntact(n, events[..|events| - 1]);
      ApplyStaysIntact(Run(n, events[..|events| - 1]), events[|events| - 1]);
    }
  }

  /** From an empty mesh, whatever overlaps: each held copy is an injected packet, or one that differs from an
      injected packet only by hops used, and then has no negative TTL. */
  lemma {:induction false} MeshIntegrity(n: Net, events: seq<Event>, d: string, id: string)
    requires n.rounds == [] && (forall e :: e in n.view ==> n.view[e] == map[])
    requires d in Run(n, events).view && id in Run(n, events).view[d]
    ensures var p := Run(n, events).view[d][id];
      exists q :: q in Run(n, events).injected
        && p.packetId == q.packetId == id && p.ciphertext == q.ciphertext && p.createdAt == q.createdAt
        && (p == q || 0 <= p.ttl < q.ttl)
  {
    RunStaysIntact(n, events);
    var n' := Run(n, events);
    var p := n'.view[d][id];
    assert Genuine(n'.injected, p);
    if Forwarded(n'.injected, p) {
      var q :| q in n'.injected && p == q.(ttl := p.ttl) && 0 <= p.ttl < q.ttl;
      assert q in n'.injected && p.packetId == q.packetId;
    }
  }

  // ---- what the steps achieve ----

  lemma {:induction false} RunSnoc(n: Net, events: seq<Event>, e: Event)
    ensures Run(n, events + [e]) == Apply(Run(n, events), e)
  {
    assert (events + [e])[..|events|] == events;
  }

  lemma {:induction false} RunConcat(n: Net, a: seq<Event>, b: seq<Event>)
    ensures Run(n, a + b) == Run(Run(n, a), b)
  {
    if b == [] {
      assert a + b == a;
    } else {
      assert (a + b)[..|a + b| - 1] == a + b[..|b| - 1];
      RunConcat(n, a, b[..|b| - 1]);
    }
  }

  /** Nothing but what device d holds may have changed. */
  ghost predicate OnlyAt(v: View, v': View, d: string) {
    v'.Keys == v.Keys && forall e :: e in v && e != d ==> v'[e] == v[e]
  }

  /** A hold stores the copy under way at its device, beside everything else there; a clear empties its device;
      an inject stores the packet; no other step touches a device. */
  lemma {:induction false} EachStepDoesItsWork(n: Net, e: Event)
    ensures var n' := Apply(n, e);
      match e
      case HoldCopy(r) =>
        r < |n.rounds| && n.rounds[r].pending.Some? && n.rounds[r].pending.value.0 in n.view ==>
          var (dst, copy) := n.rounds[r].pending.value;
          && OnlyAt(n.view, n'.view, dst) && n'.rounds == n.rounds[r := Round(n.rounds[r].snapshot, None)]
          && (forall id :: id in n'.view[dst] <==> id in n.view[dst] || id == copy.packetId)
          && (forall id :: id in n'.view[dst] ==>
                n'.view[dst][id] == if id == copy.packetId then copy else n.view[dst][id])
      case ClearDevice(d) =>
        OnlyAt(n.view, n'.view, d) && n'.rounds == n.rounds && (d in n.view ==> forall id :: id !in n'.view[d])
      case Inject(d, p) =>
        && OnlyAt(n.view, n'.view, d) && n'.rounds == n.rounds
        && (d in n.view ==>
          && p in n'.injected
          && (forall id :: id in n'.view[d] <==> id in n.view[d] || id == p.packetId)
          && (forall id :: id in n'.view[d] ==> n'.view[d][id] == if id == p.packetId then p else n.view[d][id]))
      case _ => n'.view == n.view
  {
  }

  predicate OfRound(e: Event, r: nat) {
    match e
    case ReadDevice(s, _) => s == r
    case CheckHolds(s, _, _, _) => s == r
    case HoldCopy(s) => s == r
    case _ => false
  }

  /** Whatever the others do, a round keeps its snapshot and the copy it has under way. */
  lemma {:induction false} OthersLeaveRound(n: Net, events: seq<Event>, r: nat)
    requires r < |n.rounds| && forall i :: 0 <= i < |events| ==> !OfRound(events[i], r)
    ensures r < |Run(n, events).rounds| && Run(n, events).rounds[r] == n.rounds[r]
    ensures Run(n, events).view.Keys == n.view.Keys
  {
    if events != [] {
      OthersLeaveRound(n, events[..|events| - 1], r);
    }
  }

  /** A held id goes away only when its device is cleared. */
  lemma {:induction false} IdsStay(n: Net, events: seq<Event>, d: string, id: string)
    requires d in n.view && id in n.view[d]
    requires forall i :: 0 <= i < |events| ==> events[i] != ClearDevice(d)
    ensures d in Run(n, events).view && id in Run(n, events).view[d]
  {
    if events != [] {
      IdsStay(n, events[..|events| - 1], d, id);
    }
  }

  /** A copy under way is stored by the round's next hold, whatever other rounds, injects and clears come between. */
  lemma {:induction false} CopyArrives(n: Net, events: seq<Event>, r: nat, dst: string, copy: MeshPacket)
    requires r < |n.rounds| && n.rounds[r].pending == Some((dst, copy)) && dst in n.view
    requires forall i :: 0 <= i < |events| ==> !OfRound(events[i], r)
    ensures var v := Run(n, events + [HoldCopy(r)]).view;
      dst in v && copy.packetId in v[dst] && v[dst][copy.packetId] == copy
  {
    OthersLeaveRound(n, events, r);
    RunSnoc(n, events, HoldCopy(r));
  }

  /** An offer under interference: the packet's id is at the destination when the round goes on, unless the
      destination was cleared meanwhile. */
  lemma {:induction false} OfferArrives(n: Net, r: nat, src: string, p: MeshPacket, dst: string, events: seq<Event>)
    requires r < |n.rounds| && n.rounds[r].pending.None? && (src, p) in n.rounds[r].snapshot && p.ttl > 0
    requires dst in n.view && dst != src
    requires forall i :: 0 <= i < |events| ==> !OfRound(events[i], r) && events[i] != ClearDevice(dst)
    ensures var v := Run(Apply(n, CheckHolds(r, src, p, dst)), events + [HoldCopy(r)]).view;
      dst in v && p.packetId in v[dst]
  {
    var n1 := Apply(n, CheckHolds(r, src, p, dst));
    if p.packetId in n.view[dst] {
      forall i | 0 <= i < |events + [HoldCopy(r)]| ensures (events + [HoldCopy(r)])[i] != ClearDevice(dst) {
      }
      IdsStay(n1, events + [HoldCopy(r)], dst, p.packetId);
    } else {
      CopyArrives(n1, events, r, dst, Copied(p));
    }
  }

  // ---- a round nothing interrupts ----

  datatype Offer = Offer(src: string, packet: MeshPacket, dst: string)

  function Reads(r: nat, devices: seq<string>): seq<Event> {
    if devices == [] then [] else Reads(r, devices[..|devices| - 1]) + [ReadDevice(r, devices[|devices| - 1])]
  }

  function Handing(r: nat, o: Offer): seq<Event> {
    [CheckHolds(r, o.src, o.packet, o.dst), HoldCopy(r)]
  }

  function Handings(r: nat, offers: seq<Offer>): seq<Event> {
    if offers == [] then [] else Handings(r, offers[..|offers| - 1]) + Handing(r, offers[|offers| - 1])
  }

  /** One round: start, read the devices, make the offers, each in the given order. */
  function WholeRound(r: nat, devices: seq<string>, offers: seq<Offer>): seq<Event> {
    [StartRound] + Reads(r, devices) + Handings(r, offers)
  }

  ghost predicate Holds(held: Held, p: MeshPacket) {
    p.packetId in held && held[p.packetId] == p
  }

  /** The snapshot is what the devices read so far hold. */
  ghost predicate ReadSoFar(view: View, devices: seq<string>, snapshot: set<(string, MeshPacket)>) {
    forall d, p :: (d, p) in snapshot <==> d in devices && d in view && Holds(view[d], p)
  }

  lemma {:induction false} OneMoreRead(view: View, devices: seq<string>, d: string, snapshot: set<(string, MeshPacket)>)
    requires WellKeyed(view) && d in view && ReadSoFar(view, devices, snapshot)
    ensures ReadSoFar(view, devices + [d], snapshot + set id | id in view[d] :: (d, view[d][id]))
  {
    var read := set id | id in view[d] :: (d, view[d][id]);
    forall e, p ensures (e, p) in read <==> e == d && Holds(view[d], p) {
      if e == d && Holds(view[d], p) {
        assert (d, view[d][p.packetId]) in read;
      }
    }
  }

  lemma {:induction false} ReadsAlone(n: Net, r: nat, devices: seq<string>)
    requires WellKeyed(n.view) && r < |n.rounds| && n.rounds[r] == Round({}, None)
    ensures var n' := Run(n, Reads(r, devices));
      && n' == n.(rounds := n'.rounds) && |n'.rounds| == |n.rounds|
      && n'.rounds[r].pending.None? && ReadSoFar(n.view, devices, n'.rounds[r].snapshot)
  {
    if devices != [] {
      var init, d := devices[..|devices| - 1], devices[|devices| - 1];
      ReadsAlone(n, r, init);
      RunSnoc(n, Reads(r, init), ReadDevice(r, d));
      assert devices == init + [d];
      if d in n.view {
        OneMoreRead(n.view, init, d, Run(n, Reads(r, init)).rounds[r].snapshot);
      }
    }
  }

  /** The offer is one a round makes: a packet with hops left, to another device. */
  ghost predicate Due(before: View, o: Offer) {
    && o.src in before && Holds(before[o.src], o.packet) && o.packet.ttl > 0
    && o.dst in before && o.dst != o.src
  }

  ghost predicate Handled(before: View, view: View, offers: seq<Offer>) {
    forall o :: o in offers && Due(before, o) ==> o.dst in view && o.packet.packetId in view[o.dst]
  }

  lemma {:induction false} OneMoreHandled(before: View, view: View, view': View, offers: seq<Offer>, o: Offer)
    requires Handled(before, view, offers) && Grown(view, view')
    requires Due(before, o) ==> o.dst in view' && o.packet.packetId in view'[o.dst]
    ensures Handled(before, view', offers + [o])
  {
  }

  /** An offer that is due is made, or the destination has the packet already. */
  lemma {:induction false} HandingActs(n: Net, r: nat, o: Offer)
    requires r < |n.rounds| && n.rounds[r].pending.None?
    ensures var n' := Apply(Apply(n, CheckHolds(r, o.src, o.packet, o.dst)), HoldCopy(r));
      && n' == n.(view := n'.view)
      && if (o.src, o.packet) in n.rounds[r].snapshot && o.packet.ttl > 0 && o.dst in n.view && o.dst != o.src
            && o.packet.packetId !in n.view[o.dst]
         then n'.view == With(n.view, o.dst, Copied(o.packet))
         else n'.view == n.view
  {
    var n1 := Apply(n, CheckHolds(r, o.src, o.packet, o.dst));
    var n' := Apply(n1, HoldCopy(r));
    assert n'.rounds == n.rounds;
  }

  /** One offer: the copy is made and stored, or was not needed. */
  lemma {:induction false} HandingAlone(n: Net, r: nat, before: View, devices: seq<string>, offers: seq<Offer>,
          o: Offer)
    requires r < |n.rounds| && n.rounds[r].pending.None? && ReadSoFar(before, devices, n.rounds[r].snapshot)
    requires Sound(before, n.view) && Handled(before, n.view, offers) && (forall d :: d in before ==> d in devices)
    ensures var n' := Apply(Apply(n, CheckHolds(r, o.src, o.packet, o.dst)), HoldCopy(r));
      && n' == n.(view := n'.view) && Sound(before, n'.view) && Handled(before, n'.view, offers + [o])
  {
    var view' := Apply(Apply(n, CheckHolds(r, o.src, o.packet, o.dst)), HoldCopy(r)).view;
    HandingActs(n, r, o);
    assert Due(before, o) ==> (o.src, o.packet) in n.rounds[r].snapshot;
    if view' != n.view {
      HoldKeepsSound(before, n.view, o.src, o.dst, o.packet);
    }
    OneMoreHandled(before, n.view, view', offers, o);
  }

  lemma {:induction false} HandingsAlone(n: Net, r: nat, devices: seq<string>, offers: seq<Offer>)
    requires r < |n.rounds| && n.rounds[r].pending.None? && ReadSoFar(n.view, devices, n.rounds[r].snapshot)
    requires forall d :: d in n.view ==> d in devices
    ensures var n' := Run(n, Handings(r, offers));
      n' == n.(view := n'.view) && Sound(n.view, n'.view) && Handled(n.view, n'.view, offers)
  {
    if offers != [] {
      var init, o := offers[..|offers| - 1], offers[|offers| - 1];
      HandingsAlone(n, r, devices, init);
      var n1 := Run(n, Handings(r, init));
      HandingAlone(n1, r, n.view, devices, init, o);
      var check := CheckHolds(r, o.src, o.packet, o.dst);
      RunSnoc(n, Handings(r, init), check);
      RunSnoc(n, Handings(r, init) + [check], HoldCopy(r));
      assert Handings(r, init) + [check] + [HoldCopy(r)] == Handings(r, offers);
      assert offers == init + [o];
    }
  }

  /** A round nothing interrupts, which reads every device and then makes every offer due, in any order, is one
      round of the simulator. */
  lemma {:induction false} RoundAlone(n: Net, devices: seq<string>, offers: seq<Offer>)
    requires WellKeyed(n.view) && forall d :: d in n.view ==> d in devices
    requires forall o :: Due(n.view, o) ==> o in offers
    ensures var n' := Run(n, WholeRound(|n.rounds|, devices, offers));
      && GossipRound(n.view, n'.view)
      && n'.injected == n.injected && |n'.rounds| == |n.rounds| + 1 && n'.rounds[|n.rounds|].pending.None?
  {
    var r := |n.rounds|;
    var n1 := Apply(n, StartRound);
    RunSnoc(n, [], StartRound);
    assert [] + [StartRound] == [StartRound];
    RunConcat(n, [StartRound], Reads(r, devices));
    RunConcat(n, [StartRound] + Reads(r, devices), Handings(r, offers));
    ReadsAlone(n1, r, devices);
    var n2 := Run(n1, Reads(r, devices));
    HandingsAlone(n2, r, devices, offers);
    var n3 := Run(n2, Handings(r, offers));
    forall d, id | d in n.view && Offered(n.view, d, id) ensures id in n3.view[d] {
      var src :| src in n.view && src != d && id in n.view[src] && n.view[src][id].ttl > 0;
      assert Keyed(n.view[src]);
      assert Due(n.view, Offer(src, n.view[src][id], d));
    }
  }
}
