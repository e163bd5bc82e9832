/** The two controller endpoints that compose the services, and what a flush does to the back end. */
module Api {
  import opened Store
  import opened Idempotency
  import opened Ingestion
  import opened Mesh

  /** Upload number k is ingested with the clock readings clock(k). */
  type Clock = nat -> Readings

  /** Hops are counted down from 5. */
  function IngestUpload(b: Backend, opener: Opener, u: BridgeUpload, t: Readings): (Backend, IngestResult) {
    IngestAtOnce(b, opener, u.packet, u.bridgeNodeId, 5 - u.packet.ttl, t)
  }

  /** The serial ingest loop. */
  function Flush(b: Backend, opener: Opener, uploads: seq<BridgeUpload>, clock: Clock): (Backend, seq<IngestResult>) {
    if uploads == [] then (b, [])
    else
      var k := |uploads| - 1;
      var (b1, results) := Flush(b, opener, uploads[..k], clock);
      var (b2, r) := IngestUpload(b1, opener, uploads[k], clock(k));
      (b2, results + [r])
  }

  lemma {:induction false} FlushOneMore(b: Backend, opener: Opener, uploads: seq<BridgeUpload>, k: nat, clock: Clock,
                     b1: Backend, results: seq<IngestResult>, b2: Backend, r: IngestResult)
    requires k < |uploads| && (b1, results) == Flush(b, opener, uploads[..k], clock)
    requires var u := uploads[k];
      (b2, r) == IngestAtOnce(b1, opener, u.packet, u.bridgeNodeId, 5 - u.packet.ttl, clock(k))
    ensures (b2, results + [r]) == Flush(b, opener, uploads[..k + 1], clock)
  {
    assert uploads[..k + 1][..k] == uploads[..k];
  }

  class ApiController {
    const mesh: MeshSimulatorService
    const idempotency: IdempotencyService
    const bridge: BridgeIngestionService
    const db: Database

    ghost predicate Valid()
      reads this, mesh, mesh.devices.Values, bridge, bridge.settlement, bridge.settlement.db
    {
      && mesh.Valid() && bridge.Valid()
      && bridge.idempotency == idempotency && bridge.settlement.db == db
    }

    constructor (mesh: MeshSimulatorService, bridge: BridgeIngestionService)
      requires mesh.Valid() && bridge.Valid()
      ensures Valid() && this.mesh == mesh && this.bridge == bridge
    {
      this.mesh := mesh;
      this.idempotency := bridge.idempotency;
      this.bridge := bridge;
      this.db := bridge.settlement.db;
    }

    function State(): Backend
      reads this, bridge, bridge.idempotency, bridge.settlement.db
    {
      bridge.State()
    }

    /** The loop of a flush. */
    method IngestAll(uploads: seq<BridgeUpload>, clock: Clock) returns (results: seq<IngestResult>)
      requires Valid()
      modifies idempotency, db
      ensures bridge.Valid()
      ensures (State(), results) == Flush(old(State()), bridge.opener, uploads, clock)
    {
      ghost var start := State();
      ghost var state := start;
      results := [];
      for k := 0 to |uploads|
        invariant bridge.Valid() && state == State()
        invariant (state, results) == Flush(start, bridge.opener, uploads[..k], clock)
      {
        var hopCount := 5 - uploads[k].packet.ttl;
        var r := bridge.Ingest(uploads[k].packet, uploads[k].bridgeNodeId, hopCount, clock(k));
        FlushOneMore(start, bridge.opener, uploads, k, clock, state, results, State(), r);
        results := results + [r];
        state := State();
      }
      TakeAll(uploads);
    }

    /** `uploads` is what the bridges held, in the order the loop met it. */
    method MeshFlush(clock: Clock) returns (results: seq<IngestResult>, ghost uploads: seq<BridgeUpload>)
      requires Valid()
      modifies idempotency, db
      ensures Valid() && mesh.View() == old(mesh.View())
      ensures IsUploadOf(uploads, mesh.View(), mesh.Online())
      ensures (State(), results) == Flush(old(State()), bridge.opener, uploads, clock)
    {
      ghost var view := mesh.View();
      var list := mesh.CollectBridgeUploads();
      results := IngestAll(list, clock);
      assert mesh.View() == view;
      uploads := list;
    }

    /** Empties the devices, the cache and both tables; only the id counter goes on. */
    method MeshReset()
      requires Valid()
      modifies mesh.devices.Values, idempotency, db
      ensures Valid()
      ensures mesh.View() == map d | d in mesh.devices :: map[]
      ensures State() == Backend(map[], Reset(old(State()).db))
    {
      ghost var backend := State();
      mesh.ResetMesh();
      ghost var view := mesh.View();
      assert State() == backend;
      idempotency.Clear();
      db.ResetTables();
      assert mesh.View() == view;
    }
  }
}
