/** What gossip rounds do to a mesh over whole runs, for every iteration order. */
module MeshRuns {
  import opened Types
  import opened Mesh

  // ---- one round ----

  /** What can still travel after a round is already everywhere. */
  lemma {:induction false} RoundReachesAll(a: View, b: View, src: string, d: string, id: string)
    requires GossipRound(a, b) && src in b && d in b && id in b[src] && b[src][id].ttl > 0
    ensures id in b[d]
  {
    if id in a[src] {
      assert src != d ==> Offered(a, d, id);
    } else {
      assert CopyOf(a, src, id, b[src][id]);
      var src2 :| src2 in a && src2 != src && id in a[src2] && a[src2][id].ttl > 0;
      assert src2 != d ==> Offered(a, d, id);
    }
  }

  /** Whatever is new at a device was held by another one when the round began, with hops left, and has exactly one
      hop fewer. */
  lemma {:induction false} NewCopyLosesOneHop(a: View, b: View, d: string, id: string)
    requires GossipRound(a, b) && d in b && id in b[d] && id !in a[d]
    ensures exists src ::
      && src in a && src != d && id in a[src]
      && b[d][id].packetId == a[src][id].packetId
      && b[d][id].ciphertext == a[src][id].ciphertext && b[d][id].createdAt == a[src][id].createdAt
      && 0 <= b[d][id].ttl == a[src][id].ttl - 1
  {
    assert CopyOf(a, d, id, b[d][id]);
  }

  /** A round leaves nothing for the next one. */
  lemma {:induction false} RoundIsFixpoint(a: View, b: View, c: View)
    requires GossipRound(a, b) && GossipRound(b, c)
    ensures c == b && Copies(c) - Copies(b) == 0
  {
    forall d, id | d in b && id in c[d] ensures id in b[d] {
      if !(id in b[d]) {
        assert CopyOf(b, d, id, c[d][id]);
        var src :| src in b && src != d && id in b[src] && b[src][id].ttl > 0;
        RoundReachesAll(a, b, src, d, id);
      }
    }
    forall d | d in b ensures c[d] == b[d] {
      assert c[d].Keys == b[d].Keys;
    }
  }

  /** Which ids each device ends with, and so the number of transfers, does not depend on any iteration order. */
  lemma {:induction false} RoundCountIsOrderFree(a: View, b: View, b': View)
    requires GossipRound(a, b) && GossipRound(a, b')
    ensures forall d :: d in a ==> b[d].Keys == b'[d].Keys
    ensures Counts(b) == Counts(b') && Copies(b) - Copies(a) == Copies(b') - Copies(a)
  {
    forall d, id | d in a ensures id in b[d] <==> id in b'[d] {
      if id in b[d] && id !in a[d] {
        assert CopyOf(a, d, id, b[d][id]);
        assert Offered(a, d, id);
      }
      if id in b'[d] && id !in a[d] {
        assert CopyOf(a, d, id, b'[d][id]);
        assert Offered(a, d, id);
      }
    }
    forall d | d in a ensures |b[d]| == |b'[d]| {
      assert b[d].Keys == b'[d].Keys;
      assert |b[d]| == |b[d].Keys| && |b'[d]| == |b'[d].Keys|;
    }
  }

  // ---- reachable states ----

  /** Where and as what each id was injected. */
  datatype Injection = Injection(device: string, packet: MeshPacket)

  /** The devices, and every packet ever injected under its id. */
  datatype State = State(view: View, injected: map<string, Injection>)

  /** Injected as `o`, the packet is held nowhere, only at its origin, or everywhere with one hop used. */
  ghost predicate Nowhere(view: View, id: string) {
    forall d :: d in view ==> id !in view[d]
  }

  ghost predicate OnlyAtOrigin(view: View, id: string, o: Injection) {
    forall d :: d in view ==> (id in view[d] <==> d == o.device) && (d == o.device ==> view[d][id] == o.packet)
  }

  ghost predicate Everywhere(view: View, id: string, o: Injection) {
    && o.packet.ttl > 0
    && forall d :: d in view ==>
      id in view[d] && view[d][id] == if d == o.device then o.packet else o.packet.(ttl := o.packet.ttl - 1)
  }

  ghost predicate Placed(view: View, id: string, o: Injection) {
    Nowhere(view, id) || OnlyAtOrigin(view, id, o) || Everywhere(view, id, o)
  }

  ghost predicate Reachable(s: State) {
    && (forall id :: id in s.injected ==>
      s.injected[id].device in s.view && s.injected[id].packet.packetId == id && Placed(s.view, id, s.injected[id]))
    && (forall d, id :: d in s.view && id in s.view[d] ==> id in s.injected)
  }

  ghost predicate InjectStep(s: State, s': State, d: string, p: MeshPacket) {
    && p.packetId !in s.injected // a fresh id
    && if d in s.view then s' == State(With(s.view, d, p), s.injected[p.packetId := Injection(d, p)])
       else s' == s
  }

  ghost predicate GossipStep(s: State, s': State) {
    GossipRound(s.view, s'.view) && s'.injected == s.injected
  }

  ghost predicate ResetStep(s: State, s': State) {
    s' == s.(view := map d | d in s.view :: map[])
  }

  ghost predicate Next(s: State, s': State) {
    (exists d, p :: InjectStep(s, s', d, p)) || GossipStep(s, s') || ResetStep(s, s')
  }

  ghost predicate Empty(s: State) {
    s.injected == map[] && forall d :: d in s.view ==> s.view[d] == map[]
  }

  lemma {:induction false} GossipKeepsPlaced(a: View, b: View, id: string, o: Injection)
    requires GossipRound(a, b) && o.device in a && Placed(a, id, o)
    ensures Placed(b, id, o)
    ensures OnlyAtOrigin(a, id, o) && o.packet.ttl > 0 ==> Everywhere(b, id, o)
    ensures !(OnlyAtOrigin(a, id, o) && o.packet.ttl > 0) ==> forall d :: d in a ==>
      (id in b[d] <==> id in a[d]) && (id in a[d] ==> b[d][id] == a[d][id])
  {
    forall d | d in a && id in b[d] && id !in a[d]
      ensures OnlyAtOrigin(a, id, o) && o.packet.ttl > 0 && b[d][id] == o.packet.(ttl := o.packet.ttl - 1)
    {
      assert CopyOf(a, d, id, b[d][id]);
      var src :| src in a && src != d && id in a[src] && a[src][id].ttl > 0
                 && b[d][id] == a[src][id].(ttl := a[src][id].ttl - 1);
    }
    if OnlyAtOrigin(a, id, o) && o.packet.ttl > 0 {
      forall d | d in a && d != o.device ensures id in b[d] {
        assert Offered(a, d, id);
      }
      assert Everywhere(b, id, o);
    } else if OnlyAtOrigin(a, id, o) {
      assert OnlyAtOrigin(b, id, o);
    }
  }

  lemma {:induction false} InjectKeepsReachable(s: State, s': State, d: string, p: MeshPacket)
    requires Reachable(s) && InjectStep(s, s', d, p)
    ensures Reachable(s')
  {
    if d in s.view {
      assert OnlyAtOrigin(s'.view, p.packetId, Injection(d, p));
      forall id | id in s.injected ensures Placed(s'.view, id, s.injected[id]) {
        var o := s.injected[id];
        if OnlyAtOrigin(s.view, id, o) {
          assert OnlyAtOrigin(s'.view, id, o);
        } else if Nowhere(s.view, id) {
          assert Nowhere(s'.view, id);
        } else {
          assert Everywhere(s'.view, id, o);
        }
      }
    }
  }

  lemma {:induction false} GossipKeepsReachable(s: State, s': State)
    requires Reachable(s) && GossipStep(s, s')
    ensures Reachable(s')
  {
    forall id | id in s.injected ensures Placed(s'.view, id, s.injected[id]) {
      GossipKeepsPlaced(s.view, s'.view, id, s.injected[id]);
    }
    forall d, id | d in s'.view && id in s'.view[d] ensures id in s.injected {
      if id !in s.view[d] {
        assert CopyOf(s.view, d, id, s'.view[d][id]);
      }
    }
  }

  lemma {:induction false} ResetKeepsReachable(s: State, s': State)
    requires Reachable(s) && ResetStep(s, s')
    ensures Reachable(s')
  {
    forall id | id in s.injected ensures Placed(s'.view, id, s.injected[id]) {
      assert Nowhere(s'.view, id);
    }
  }

  /** In every state of every run each injected id is nowhere, at its origin only, or everywhere. */
  lemma {:induction false} EveryRunStaysReachable(run: seq<State>, k: nat)
    requires k < |run| && Empty(run[0])
    requires forall i :: 0 <= i < |run| - 1 ==> Next(run[i], run[i + 1])
    ensures Reachable(run[k])
  {
    if k > 0 {
      EveryRunStaysReachable(run, k - 1);
      var s, s' := run[k - 1], run[k];
      assert Next(run[k - 1], run[k - 1 + 1]);
      if GossipStep(s, s') {
        GossipKeepsReachable(s, s');
      } else if ResetStep(s, s') {
        ResetKeepsReachable(s, s');
      } else {
        var d, p :| InjectStep(s, s', d, p);
        InjectKeepsReachable(s, s', d, p);
      }
    }
  }

  /** Every copy in a reachable mesh carries the ciphertext and creation time it was injected with. */
  lemma {:induction false} CopiesAreGenuine(s: State, d: string, id: string)
    requires Reachable(s) && d in s.view && id in s.view[d]
    ensures id in s.injected
    ensures s.view[d][id].ciphertext == s.injected[id].packet.ciphertext
    ensures s.view[d][id].createdAt == s.injected[id].packet.createdAt
    ensures s.view[d][id].packetId == id
  {
    assert Placed(s.view, id, s.injected[id]);
  }

  /** In reachable states even the result of a round is the same for every iteration order. */
  lemma {:induction false} RoundIsDeterministic(s: State, b: View, b': View)
    requires Reachable(s) && GossipRound(s.view, b) && GossipRound(s.view, b')
    ensures b == b'
  {
    RoundCountIsOrderFree(s.view, b, b');
    forall d, id | d in b && id in b[d] ensures b[d][id] == b'[d][id] {
      if id !in s.view[d] {
        assert CopyOf(s.view, d, id, b[d][id]);
        var o := s.injected[id];
        GossipKeepsPlaced(s.view, b, id, o);
        GossipKeepsPlaced(s.view, b', id, o);
      }
    }
    forall d | d in b ensures b[d] == b'[d] {
    }
  }

  // ---- the simulator's own runs ----

  /** Injecting a packet with a fresh id on the heap is a step of such a run. */
  method InjectStays(mesh: MeshSimulatorService, device: string, packet: MeshPacket, ghost s: State)
    returns (ghost s': State)
    requires mesh.Valid() && s.view == mesh.View() && Reachable(s) && packet.packetId !in s.injected
    modifies mesh.devices.Values
    ensures mesh.Valid() && s'.view == mesh.View() && Next(s, s') && Reachable(s')
    ensures device in mesh.devices ==> s'.injected == s.injected[packet.packetId := Injection(device, packet)]
  {
    var known := mesh.Inject(device, packet);
    s' := if known then State(mesh.View(), s.injected[packet.packetId := Injection(device, packet)]) else s;
    assert InjectStep(s, s', device, packet);
    InjectKeepsReachable(s, s', device, packet);
  }

  /** So is a gossip round. */
  method GossipStays(mesh: MeshSimulatorService, ghost s: State) returns (ghost s': State)
    requires mesh.Valid() && s.view == mesh.View() && Reachable(s)
    modifies mesh.devices.Values
    ensures mesh.Valid() && s'.view == mesh.View() && Next(s, s') && Reachable(s') && s'.injected == s.injected
  {
    var _, _ := mesh.GossipOnce();
    s' := s.(view := mesh.View());
    assert GossipStep(s, s');
    GossipKeepsReachable(s, s');
  }

  /** And a reset. */
  method ResetStays(mesh: MeshSimulatorService, ghost s: State) returns (ghost s': State)
    requires mesh.Valid() && s.view == mesh.View() && Reachable(s)
    modifies mesh.devices.Values
    ensures mesh.Valid() && s'.view == mesh.View() && Next(s, s') && Reachable(s') && s'.injected == s.injected
  {
    mesh.ResetMesh();
    s' := s.(view := mesh.View());
    assert ResetStep(s, s');
    ResetKeepsReachable(s, s');
  }
}
