/** The controller's snapshot API calls: creating a snapshot of a resource
    definition, deleting one, and answering a satellite that asks for an
    in-progress snapshot.

    The object graph is modelled as values: a map from resource name to
    resource definition, each holding its resources (with their volumes,
    storage pools and the connection state of their node's peer), its
    volume definitions and its snapshot definitions. The transaction's
    commit, the satellite updates, the event stream and the messages sent
    to peers are recorded in an effects log. */
module SnapshotHandler {
  import opened Wrappers

  // The object graph

  datatype StorPool = StorPool(name: string, driverName: string, snapshotSupported: bool)

  /** A volume of a resource: its storage pool and its meta-disk path
      (None for a null path). */
  datatype Volume = Volume(storPool: StorPool, metaDiskPath: Option<string>)

  /** A resource: the node it is assigned to, whether it carries the
      DISKLESS flag, whether that node's peer is connected, and its volumes
      by volume number. */
  datatype Resource = Resource(node: string, diskless: bool, peerConnected: bool, volumes: map<int, Volume>)

  datatype VolumeDfn = VolumeDfn(volNr: int, size: int)
  datatype SnapshotVolumeDfn = SnapshotVolumeDfn(volNr: int, size: int)
  datatype SnapshotVolume = SnapshotVolume(volNr: int, storPoolName: string)
  datatype Snapshot = Snapshot(node: string, volumes: seq<SnapshotVolume>, deleted: bool)
  datatype SnapshotDfn = SnapshotDfn(
    name: string,
    volumeDfns: seq<SnapshotVolumeDfn>,
    snapshots: seq<Snapshot>,
    deleted: bool)

  /** A resource definition; inProgress holds the names of its snapshots
      marked in progress. */
  datatype RscDfn = RscDfn(
    resources: seq<Resource>,
    volumeDfns: seq<VolumeDfn>,
    snapshotDfns: map<string, SnapshotDfn>,
    inProgress: set<string>)

  /** The failures the calls report, by their API return code. */
  datatype ApiError =
    | FailNotFoundRscDfn(rscName: string)
    | FailExistsSnapshotDfn(snapshotName: string)
    | FailSnapshotsNotSupported(node: string)
    | FailNotConnected(node: string)
    | FailNotFoundRsc
    | FailNotFoundSnapshotDfn(snapshotName: string)
    | NullVolume(node: string, volNr: int)  // rsc.getVolume returned null

  /** A message to a satellite answering its request for a snapshot. */
  datatype Message =
    | InProgressSnapshot(snapshot: Snapshot, fullSyncId: int, updateId: int)
    | SnapshotEnded(rscName: string, snapshotName: string, fullSyncId: int, updateId: int)

  /** The effects a call has beyond the object graph, in order. */
  datatype Step =
    | Commit
    | UpdateSatellites(rscName: string, snapshotName: string)
    | OpenEventStream(rscName: string, snapshotName: string)
    | Sent(node: string, message: Message)

  // Viability checks

  predicate IsDiskless(rsc: Resource) {
    rsc.diskless
  }

  /** A meta-disk path that is set, non-empty and not "internal". */
  predicate ExternalMetaDisk(vlm: Volume) {
    vlm.metaDiskPath.Some? && vlm.metaDiskPath.value != "" && vlm.metaDiskPath.value != "internal"
  }

  predicate DriversSupportSnapshots(rsc: Resource) {
    IsDiskless(rsc) || forall nr :: nr in rsc.volumes ==> rsc.volumes[nr].storPool.snapshotSupported
  }

  predicate InternalMetaDisks(rsc: Resource) {
    forall nr :: nr in rsc.volumes ==> !ExternalMetaDisk(rsc.volumes[nr])
  }

  predicate Viable(rsc: Resource) {
    DriversSupportSnapshots(rsc) && InternalMetaDisks(rsc) && rsc.peerConnected
  }

  /** The three checks on one resource, in the order they run: storage
      drivers (skipped for diskless resources), meta disks, connection. */
  function CheckResource(rsc: Resource): (r: Outcome<ApiError>)
    ensures r == Pass <==> Viable(rsc)
    ensures r.Fail? && !(DriversSupportSnapshots(rsc) && InternalMetaDisks(rsc)) ==>
      r.error == FailSnapshotsNotSupported(rsc.node)
    ensures r.Fail? && DriversSupportSnapshots(rsc) && InternalMetaDisks(rsc) ==>
      r.error == FailNotConnected(rsc.node)
  {
    if !DriversSupportSnapshots(rsc) then Fail(FailSnapshotsNotSupported(rsc.node))
    else if !InternalMetaDisks(rsc) then Fail(FailSnapshotsNotSupported(rsc.node))
    else if !rsc.peerConnected then Fail(FailNotConnected(rsc.node))
    else Pass
  }

  /** ensureSnapshotsViable: passes exactly when every resource is viable,
      and otherwise reports the first resource that is not. */
  function EnsureSnapshotsViable(resources: seq<Resource>): (r: Outcome<ApiError>)
    ensures r == Pass <==> forall i :: 0 <= i < |resources| ==> Viable(resources[i])
    ensures r.Fail? ==>
      exists i :: 0 <= i < |resources| && !Viable(resources[i]) &&
        r == CheckResource(resources[i]) && forall j :: 0 <= j < i ==> Viable(resources[j])
  {
    if resources == [] then Pass
    else
      match CheckResource(resources[0])
      case Fail(e) => Fail(e)
      case Pass =>
        var r := EnsureSnapshotsViable(resources[1..]);
        assert forall i :: 1 <= i < |resources| ==> resources[i] == resources[1..][i - 1];
        if r.Fail? then
          var i :| 0 <= i < |resources[1..]| && !Viable(resources[1..][i]) &&
            r == CheckResource(resources[1..][i]) && forall j :: 0 <= j < i ==> Viable(resources[1..][j]);
          assert forall j :: 0 <= j < i + 1 ==> Viable(resources[j]);
          r
        else
          r
  }

  // Building the snapshot

  /** One snapshot volume definition per volume definition, with its
      number and size. */
  function SnapshotVolumeDfnsOf(vlmDfns: seq<VolumeDfn>): (svds: seq<SnapshotVolumeDfn>)
    ensures |svds| == |vlmDfns|
    ensures forall i :: 0 <= i < |vlmDfns| ==> svds[i] == SnapshotVolumeDfn(vlmDfns[i].volNr, vlmDfns[i].size)
  {
    seq(|vlmDfns|, i requires 0 <= i < |vlmDfns| => SnapshotVolumeDfn(vlmDfns[i].volNr, vlmDfns[i].size))
  }

  /** Whether the resource has a volume for every snapshot volume
      definition. */
  predicate HasVolumes(rsc: Resource, svds: seq<SnapshotVolumeDfn>) {
    forall j :: 0 <= j < |svds| ==> svds[j].volNr in rsc.volumes
  }

  /** The snapshot volumes of one resource, one per snapshot volume
      definition, each on the storage pool of the resource's volume with
      that number. */
  function SnapshotVolumesOf(rsc: Resource, svds: seq<SnapshotVolumeDfn>): (r: Result<seq<SnapshotVolume>, ApiError>)
    ensures r.Success? <==> HasVolumes(rsc, svds)
    ensures r.Success? ==> |r.value| == |svds| && forall j :: 0 <= j < |svds| ==>
      r.value[j] == SnapshotVolume(svds[j].volNr, rsc.volumes[svds[j].volNr].storPool.name)
    ensures r.Failure? ==> r.error.NullVolume? && r.error.node == rsc.node
  {
    if svds == [] then Success([])
    else
      var init := svds[..|svds| - 1];
      var last := svds[|svds| - 1];
      assert forall j :: 0 <= j < |init| ==> init[j] == svds[j];
      match SnapshotVolumesOf(rsc, init)
      case Failure(e) => Failure(e)
      case Success(vols) =>
        if last.volNr in rsc.volumes then
          Success(vols + [SnapshotVolume(last.volNr, rsc.volumes[last.volNr].storPool.name)])
        else
          Failure(NullVolume(rsc.node, last.volNr))
  }

  /** The resources that are not diskless, in order. */
  function WithDisk(resources: seq<Resource>): (r: seq<Resource>)
    ensures |r| <= |resources|
    ensures forall rsc :: rsc in r <==> rsc in resources && !IsDiskless(rsc)
  {
    if resources == [] then []
    else
      var init := resources[..|resources| - 1];
      var last := resources[|resources| - 1];
      assert resources == init + [last];
      WithDisk(init) + (if IsDiskless(last) then [] else [last])
  }

  /** The snapshots of the resources that are not diskless, built in
      order; the first missing volume fails. */
  function SnapshotsOf(resources: seq<Resource>, svds: seq<SnapshotVolumeDfn>): Result<seq<Snapshot>, ApiError>
  {
    if resources == [] then Success([])
    else
      var init := resources[..|resources| - 1];
      var last := resources[|resources| - 1];
      match SnapshotsOf(init, svds)
      case Failure(e) => Failure(e)
      case Success(snaps) =>
        if IsDiskless(last) then Success(snaps)
        else
          match SnapshotVolumesOf(last, svds)
          case Failure(e) => Failure(e)
          case Success(vols) => Success(snaps + [Snapshot(last.node, vols, false)])
  }

  /** snap is the fresh snapshot of rsc: on its node, not deleted, with
      one snapshot volume per snapshot volume definition. */
  predicate SnapshotFor(rsc: Resource, svds: seq<SnapshotVolumeDfn>, snap: Snapshot) {
    snap.node == rsc.node && !snap.deleted && Success(snap.volumes) == SnapshotVolumesOf(rsc, svds)
  }

  /** One snapshot per resource that is not diskless, on that resource's
      node, each with one snapshot volume per snapshot volume definition;
      building them fails exactly when such a resource lacks a volume. */
  lemma SnapshotsOfShape(resources: seq<Resource>, svds: seq<SnapshotVolumeDfn>)
    ensures SnapshotsOf(resources, svds).Success? <==>
      forall rsc :: rsc in WithDisk(resources) ==> HasVolumes(rsc, svds)
    ensures SnapshotsOf(resources, svds).Success? ==>
      var snaps := SnapshotsOf(resources, svds).value;
      |snaps| == |WithDisk(resources)| &&
      forall i :: 0 <= i < |snaps| ==> SnapshotFor(WithDisk(resources)[i], svds, snaps[i])
  {
    SnapshotsOfSucceeds(resources, svds);
    if SnapshotsOf(resources, svds).Success? {
      SnapshotsOfContents(resources, svds);
    }
  }

  lemma {:induction false} SnapshotsOfSucceeds(resources: seq<Resource>, svds: seq<SnapshotVolumeDfn>)
    ensures SnapshotsOf(resources, svds).Success? <==>
      forall rsc :: rsc in WithDisk(resources) ==> HasVolumes(rsc, svds)
    decreases |resources|
  {
    if resources != [] {
      var init := resources[..|resources| - 1];
      var last := resources[|resources| - 1];
      assert resources == init + [last];
      SnapshotsOfSucceeds(init, svds);
    }
  }

  lemma {:induction false} SnapshotsOfContents(resources: seq<Resource>, svds: seq<SnapshotVolumeDfn>)
    requires SnapshotsOf(resources, svds).Success?
    ensures var snaps := SnapshotsOf(resources, svds).value;
      |snaps| == |WithDisk(resources)| &&
      forall i :: 0 <= i < |snaps| ==> SnapshotFor(WithDisk(resources)[i], svds, snaps[i])
    decreases |resources|
  {
    if resources != [] {
      var init := resources[..|resources| - 1];
      var last := resources[|resources| - 1];
      assert resources == init + [last];
      SnapshotsOfContents(init, svds);
      var w := WithDisk(init);
      var before := SnapshotsOf(init, svds).value;
      var snaps := SnapshotsOf(resources, svds).value;
      var wd := WithDisk(resources);
      if IsDiskless(last) {
        assert wd == w && snaps == before;
      } else {
        var snap := Snapshot(last.node, SnapshotVolumesOf(last, svds).value, false);
        assert wd == w + [last];
        assert snaps == before + [snap];
        forall i | 0 <= i < |snaps|
          ensures SnapshotFor(wd[i], svds, snaps[i])
        {
          if i < |before| {
            assert snaps[i] == before[i] && wd[i] == w[i];
          } else {
            assert snaps[i] == snap && wd[i] == last;
          }
        }
      }
    }
  }

  /** createSnapshot as a whole: the resource definition after the call, or
      the failure it reports. */
  function CreateSnapshotPlan(dfns: map<string, RscDfn>, rscName: string, snapName: string): (r: Result<RscDfn, ApiError>)
    ensures r.Success? <==>
      rscName in dfns && snapName !in dfns[rscName].snapshotDfns &&
      (forall i :: 0 <= i < |dfns[rscName].resources| ==> Viable(dfns[rscName].resources[i])) &&
      (forall rsc :: rsc in WithDisk(dfns[rscName].resources) ==>
        HasVolumes(rsc, SnapshotVolumeDfnsOf(dfns[rscName].volumeDfns))) &&
      WithDisk(dfns[rscName].resources) != []
    ensures rscName !in dfns ==> r == Failure(FailNotFoundRscDfn(rscName))
    ensures rscName in dfns && snapName in dfns[rscName].snapshotDfns ==>
      r == Failure(FailExistsSnapshotDfn(snapName))
    ensures (rscName in dfns && snapName !in dfns[rscName].snapshotDfns &&
      EnsureSnapshotsViable(dfns[rscName].resources).Fail?) ==>
      r == Failure(EnsureSnapshotsViable(dfns[rscName].resources).error)
    ensures (rscName in dfns && snapName !in dfns[rscName].snapshotDfns &&
      EnsureSnapshotsViable(dfns[rscName].resources) == Pass && WithDisk(dfns[rscName].resources) == []) ==>
      r == Failure(FailNotFoundRsc)
  {
    if rscName !in dfns then Failure(FailNotFoundRscDfn(rscName))
    else
      var dfn := dfns[rscName];
      if snapName in dfn.snapshotDfns then Failure(FailExistsSnapshotDfn(snapName))
      else
        match EnsureSnapshotsViable(dfn.resources)
        case Fail(e) => Failure(e)
        case Pass =>
          var svds := SnapshotVolumeDfnsOf(dfn.volumeDfns);
          SnapshotsOfShape(dfn.resources, svds);
          match SnapshotsOf(dfn.resources, svds)
          case Failure(e) => Failure(e)
          case Success(snaps) =>
            if snaps == [] then Failure(FailNotFoundRsc)
            else
              Success(dfn.(
                snapshotDfns := dfn.snapshotDfns[snapName := SnapshotDfn(snapName, svds, snaps, false)],
                inProgress := dfn.inProgress + {snapName}))
  }

  /** deleteSnapshot as a whole: a definition without snapshots is removed;
      otherwise it and all its snapshots are marked deleted and it is
      marked in progress, so that the satellites remove them. */
  function DeleteSnapshotPlan(dfns: map<string, RscDfn>, rscName: string, snapName: string): (r: Result<RscDfn, ApiError>)
    ensures rscName !in dfns ==>
      r == Failure(FailNotFoundRscDfn(rscName))
    ensures rscName in dfns && snapName !in dfns[rscName].snapshotDfns ==>
      r == Failure(FailNotFoundSnapshotDfn(snapName))
    ensures rscName in dfns && snapName in dfns[rscName].snapshotDfns ==>
      r.Success? &&
      var dfn := dfns[rscName];
      var after := r.value;
      after.resources == dfn.resources && after.volumeDfns == dfn.volumeDfns &&
      (forall name :: name != snapName ==>
        (name in after.snapshotDfns <==> name in dfn.snapshotDfns) &&
        (name in dfn.snapshotDfns ==> after.snapshotDfns[name] == dfn.snapshotDfns[name])) &&
      (dfn.snapshotDfns[snapName].snapshots == [] ==>
        snapName !in after.snapshotDfns && after.inProgress == dfn.inProgress) &&
      (dfn.snapshotDfns[snapName].snapshots != [] ==>
        snapName in after.snapshotDfns && after.snapshotDfns[snapName].deleted &&
        after.inProgress == dfn.inProgress + {snapName} &&
        |after.snapshotDfns[snapName].snapshots| == |dfn.snapshotDfns[snapName].snapshots| &&
        forall i :: 0 <= i < |after.snapshotDfns[snapName].snapshots| ==>
          after.snapshotDfns[snapName].snapshots[i].deleted &&
          after.snapshotDfns[snapName].snapshots[i].node == dfn.snapshotDfns[snapName].snapshots[i].node)
  {
    if rscName !in dfns then Failure(FailNotFoundRscDfn(rscName))
    else
      var dfn := dfns[rscName];
      if snapName !in dfn.snapshotDfns then Failure(FailNotFoundSnapshotDfn(snapName))
      else
        var snapshotDfn := dfn.snapshotDfns[snapName];
        if snapshotDfn.snapshots == [] then
          Success(dfn.(snapshotDfns := dfn.snapshotDfns - {snapName}))
        else
          Success(dfn.(
            snapshotDfns := dfn.snapshotDfns[snapName := MarkedDeleted(snapshotDfn)],
            inProgress := dfn.inProgress + {snapName}))
  }

  /** A snapshot definition with itself and every snapshot marked deleted. */
  function MarkedDeleted(snapshotDfn: SnapshotDfn): (d: SnapshotDfn)
    ensures d.deleted && d.name == snapshotDfn.name && d.volumeDfns == snapshotDfn.volumeDfns
    ensures |d.snapshots| == |snapshotDfn.snapshots|
    ensures forall i :: 0 <= i < |d.snapshots| ==> d.snapshots[i] == snapshotDfn.snapshots[i].(deleted := true)
  {
    snapshotDfn.(
      deleted := true,
      snapshots := seq(|snapshotDfn.snapshots|, i requires 0 <= i < |snapshotDfn.snapshots| => snapshotDfn.snapshots[i].(deleted := true)))
  }

  /** The first snapshot of the definition on the node. */
  function SnapshotOn(snaps: seq<Snapshot>, node: string): (r: Option<Snapshot>)
    ensures r.Some? <==> exists i :: 0 <= i < |snaps| && snaps[i].node == node
    ensures r.Some? ==> r.value in snaps && r.value.node == node
  {
    if snaps == [] then None
    else if snaps[0].node == node then Some(snaps[0])
    else
      var r := SnapshotOn(snaps[1..], node);
      assert forall i :: 1 <= i < |snaps| ==> snaps[i] == snaps[1..][i - 1];
      assert r.Some? ==> snaps[1..][0] in snaps;
      r
  }

  /** respondSnapshot's answer to the peer on node: the peer's snapshot when
      the definition exists and is in progress, the "ended" message
      otherwise. */
  function SnapshotResponse(
    dfns: map<string, RscDfn>, rscName: string, snapName: string, node: string, fullSyncId: int, updateId: int): (m: Message)
    ensures m.InProgressSnapshot? <==>
      rscName in dfns && snapName in dfns[rscName].snapshotDfns && snapName in dfns[rscName].inProgress &&
      (exists i :: 0 <= i < |dfns[rscName].snapshotDfns[snapName].snapshots| &&
        dfns[rscName].snapshotDfns[snapName].snapshots[i].node == node)
    ensures m.InProgressSnapshot? ==>
      m.snapshot in dfns[rscName].snapshotDfns[snapName].snapshots && m.snapshot.node == node
    ensures m.SnapshotEnded? ==> m.rscName == rscName && m.snapshotName == snapName
    ensures m.fullSyncId == fullSyncId && m.updateId == updateId
  {
    var snapshot :=
      if rscName in dfns && snapName in dfns[rscName].snapshotDfns && snapName in dfns[rscName].inProgress then
        SnapshotOn(dfns[rscName].snapshotDfns[snapName].snapshots, node)
      else
        None;
    if snapshot.Some? then InProgressSnapshot(snapshot.value, fullSyncId, updateId)
    else SnapshotEnded(rscName, snapName, fullSyncId, updateId)
  }

  // What the calls promise

  /** A created snapshot definition: marked in progress, one snapshot volume
      definition per volume definition, one snapshot per resource with a
      disk, each with one volume per snapshot volume definition; nothing
      else in the resource definition changes. */
  lemma CreateSnapshotContents(dfns: map<string, RscDfn>, rscName: string, snapName: string)
    requires CreateSnapshotPlan(dfns, rscName, snapName).Success?
    ensures var dfn := dfns[rscName];
      var after := CreateSnapshotPlan(dfns, rscName, snapName).value;
      after.resources == dfn.resources && after.volumeDfns == dfn.volumeDfns &&
      after.inProgress == dfn.inProgress + {snapName} &&
      snapName in after.snapshotDfns &&
      (forall name :: name != snapName ==>
        (name in after.snapshotDfns <==> name in dfn.snapshotDfns) &&
        (name in dfn.snapshotDfns ==> after.snapshotDfns[name] == dfn.snapshotDfns[name])) &&
      var created := after.snapshotDfns[snapName];
      !created.deleted && created.name == snapName &&
      |created.volumeDfns| == |dfn.volumeDfns| &&
      (forall i :: 0 <= i < |dfn.volumeDfns| ==>
        created.volumeDfns[i].volNr == dfn.volumeDfns[i].volNr && created.volumeDfns[i].size == dfn.volumeDfns[i].size) &&
      |created.snapshots| == |WithDisk(dfn.resources)| > 0 &&
      (forall i :: 0 <= i < |created.snapshots| ==>
        created.snapshots[i].node == WithDisk(dfn.resources)[i].node && !created.snapshots[i].deleted &&
        |created.snapshots[i].volumes| == |dfn.volumeDfns|)
  {
    var dfn := dfns[rscName];
    var svds := SnapshotVolumeDfnsOf(dfn.volumeDfns);
    SnapshotsOfShape(dfn.resources, svds);
    var snaps := SnapshotsOf(dfn.resources, svds).value;
    forall i | 0 <= i < |snaps|
      ensures |snaps[i].volumes| == |dfn.volumeDfns|
    {
      assert Success(snaps[i].volumes) == SnapshotVolumesOf(WithDisk(dfn.resources)[i], svds);
    }
  }

  /** A freshly created snapshot is in progress, so the satellite of every
      resource with a disk is sent its snapshot when it asks. */
  lemma RespondAfterCreate(dfns: map<string, RscDfn>, rscName: string, snapName: string, k: nat, fullSyncId: int, updateId: int)
    requires CreateSnapshotPlan(dfns, rscName, snapName).Success?
    requires k < |WithDisk(dfns[rscName].resources)|
    ensures
      var after := dfns[rscName := CreateSnapshotPlan(dfns, rscName, snapName).value];
      SnapshotResponse(after, rscName, snapName, WithDisk(dfns[rscName].resources)[k].node, fullSyncId, updateId).InProgressSnapshot?
  {
    CreateSnapshotContents(dfns, rscName, snapName);
    var after := CreateSnapshotPlan(dfns, rscName, snapName).value;
    assert after.snapshotDfns[snapName].snapshots[k].node == WithDisk(dfns[rscName].resources)[k].node;
  }

  /** Deleting a snapshot that was just created never removes it outright:
      a created snapshot has instances, so they are marked deleted for the
      satellites to remove. */
  lemma DeleteAfterCreate(dfns: map<string, RscDfn>, rscName: string, snapName: string)
    requires CreateSnapshotPlan(dfns, rscName, snapName).Success?
    ensures
      var created := dfns[rscName := CreateSnapshotPlan(dfns, rscName, snapName).value];
      DeleteSnapshotPlan(created, rscName, snapName).Success? &&
      snapName in DeleteSnapshotPlan(created, rscName, snapName).value.snapshotDfns &&
      DeleteSnapshotPlan(created, rscName, snapName).value.snapshotDfns[snapName].deleted
  {
    CreateSnapshotContents(dfns, rscName, snapName);
  }

  // The calls

  /** The controller's resource definitions and the effects its snapshot
      calls have had so far. */
  class SnapshotController {
    var rscDfnMap: map<string, RscDfn>
    var log: seq<Step>

    constructor(dfns: map<string, RscDfn>)
      ensures rscDfnMap == dfns && log == []
    {
      rscDfnMap := dfns;
      log := [];
    }

    /** createSnapshot: checks, then builds the snapshot definition, its
        volume definitions and one snapshot per resource with a disk; on
        success commits, updates the satellites and opens the deployment
        event stream, in that order. A failure leaves everything as it
        was. */
    method CreateSnapshot(rscName: string, snapName: string) returns (rc: Outcome<ApiError>)
      modifies this
      ensures var plan := CreateSnapshotPlan(old(rscDfnMap), rscName, snapName);
        if plan.Success? then
          rc == Pass && rscDfnMap == old(rscDfnMap)[rscName := plan.value] &&
          log == old(log) + [Commit, UpdateSatellites(rscName, snapName), OpenEventStream(rscName, snapName)]
        else
          rc == Fail(plan.error) && rscDfnMap == old(rscDfnMap) && log == old(log)
    {
      if rscName !in rscDfnMap {
        return Fail(FailNotFoundRscDfn(rscName));
      }
      var rscDfn := rscDfnMap[rscName];
      if snapName in rscDfn.snapshotDfns {
        return Fail(FailExistsSnapshotDfn(snapName));
      }
      var viable := EnsureSnapshotsViable(rscDfn.resources);
      if viable.Fail? {
        return viable;
      }
      rscDfn := rscDfn.(inProgress := rscDfn.inProgress + {snapName});

      var vlmDfns := rscDfn.volumeDfns;
      var svds: seq<SnapshotVolumeDfn> := [];
      var i := 0;
      while i < |vlmDfns|
        invariant 0 <= i <= |vlmDfns|
        invariant svds == SnapshotVolumeDfnsOf(vlmDfns[..i])
      {
        svds := svds + [SnapshotVolumeDfn(vlmDfns[i].volNr, vlmDfns[i].size)];
        i := i + 1;
      }
      assert vlmDfns[..i] == vlmDfns;

      var built := SnapshotsFor(rscDfn.resources, svds);
      if built.Failure? {
        return Fail(built.error);
      }
      var snaps := built.value;
      if snaps == [] {
        return Fail(FailNotFoundRsc);
      }
      rscDfn := rscDfn.(snapshotDfns := rscDfn.snapshotDfns[snapName := SnapshotDfn(snapName, svds, snaps, false)]);
      rscDfnMap := rscDfnMap[rscName := rscDfn];
      log := log + [Commit];
      log := log + [UpdateSatellites(rscName, snapName)];
      log := log + [OpenEventStream(rscName, snapName)];
      rc := Pass;
    }

    /** deleteSnapshot: a definition without snapshots is deleted and the
        transaction committed; otherwise the definition and each snapshot
        are marked deleted, the definition is marked in progress, the
        transaction committed and the satellites updated. A failure leaves
        everything as it was. */
    method DeleteSnapshot(rscName: string, snapName: string) returns (rc: Outcome<ApiError>)
      modifies this
      ensures var plan := DeleteSnapshotPlan(old(rscDfnMap), rscName, snapName);
        if plan.Success? then
          rc == Pass && rscDfnMap == old(rscDfnMap)[rscName := plan.value] &&
          log == old(log) +
            if old(rscDfnMap)[rscName].snapshotDfns[snapName].snapshots == [] then [Commit]
            else [Commit, UpdateSatellites(rscName, snapName)]
        else
          rc == Fail(plan.error) && rscDfnMap == old(rscDfnMap) && log == old(log)
    {
      if rscName !in rscDfnMap {
        return Fail(FailNotFoundRscDfn(rscName));
      }
      var rscDfn := rscDfnMap[rscName];
      if snapName !in rscDfn.snapshotDfns {
        return Fail(FailNotFoundSnapshotDfn(snapName));
      }
      var snapshotDfn := rscDfn.snapshotDfns[snapName];
      if snapshotDfn.snapshots == [] {
        rscDfn := rscDfn.(snapshotDfns := rscDfn.snapshotDfns - {snapName});
        rscDfnMap := rscDfnMap[rscName := rscDfn];
        log := log + [Commit];
      } else {
        var snaps := snapshotDfn.snapshots;
        var i := 0;
        while i < |snaps|
          invariant 0 <= i <= |snaps| && |snaps| == |snapshotDfn.snapshots|
          invariant forall j :: 0 <= j < i ==> snaps[j] == snapshotDfn.snapshots[j].(deleted := true)
          invariant forall j :: i <= j < |snaps| ==> snaps[j] == snapshotDfn.snapshots[j]
        {
          snaps := snaps[i := snaps[i].(deleted := true)];
          i := i + 1;
        }
        var marked := snapshotDfn.(deleted := true, snapshots := snaps);
        assert marked == MarkedDeleted(snapshotDfn);
        rscDfn := rscDfn.(
          snapshotDfns := rscDfn.snapshotDfns[snapName := marked],
          inProgress := rscDfn.inProgress + {snapName});
        rscDfnMap := rscDfnMap[rscName := rscDfn];
        log := log + [Commit];
        log := log + [UpdateSatellites(rscName, snapName)];
      }
      rc := Pass;
    }

    /** respondSnapshot: sends the peer on node its in-progress snapshot, or
        the "ended" message. */
    method RespondSnapshot(rscName: string, snapName: string, node: string, fullSyncId: int, updateId: int)
      modifies this`log
      ensures log == old(log) + [Sent(node, SnapshotResponse(rscDfnMap, rscName, snapName, node, fullSyncId, updateId))]
    {
      var snapshot: Option<Snapshot> := None;
      if rscName in rscDfnMap {
        var rscDfn := rscDfnMap[rscName];
        if snapName in rscDfn.snapshotDfns && snapName in rscDfn.inProgress {
          snapshot := SnapshotOn(rscDfn.snapshotDfns[snapName].snapshots, node);
        }
      }
      var message;
      if snapshot.Some? {
        message := InProgressSnapshot(snapshot.value, fullSyncId, updateId);
      } else {
        message := SnapshotEnded(rscName, snapName, fullSyncId, updateId);
      }
      log := log + [Sent(node, message)];
    }
  }

  /** The snapshots of the resources with a disk, built one resource at a
      time; a missing volume fails. */
  method SnapshotsFor(resources: seq<Resource>, svds: seq<SnapshotVolumeDfn>) returns (r: Result<seq<Snapshot>, ApiError>)
    ensures r == SnapshotsOf(resources, svds)
  {
    var snaps: seq<Snapshot> := [];
    var k := 0;
    while k < |resources|
      invariant 0 <= k <= |resources|
      invariant SnapshotsOf(resources[..k], svds) == Success(snaps)
    {
      var rsc := resources[k];
      assert resources[..k + 1] == resources[..k] + [rsc];
      if !IsDiskless(rsc) {
        var vols := SnapshotVolumesFor(rsc, svds);
        if vols.Failure? {
          assert SnapshotsOf(resources[..k + 1], svds) == Failure(vols.error);
          SnapshotsOfExtend(resources[..k + 1], resources[k + 1..], svds);
          assert resources[..k + 1] + resources[k + 1..] == resources;
          return Failure(vols.error);
        }
        snaps := snaps + [Snapshot(rsc.node, vols.value, false)];
      }
      k := k + 1;
    }
    assert resources[..k] == resources;
    return Success(snaps);
  }

  /** The snapshot volumes of one resource, built one snapshot volume
      definition at a time; a missing volume fails. */
  method SnapshotVolumesFor(rsc: Resource, svds: seq<SnapshotVolumeDfn>) returns (r: Result<seq<SnapshotVolume>, ApiError>)
    ensures r == SnapshotVolumesOf(rsc, svds)
  {
    var vols: seq<SnapshotVolume> := [];
    var j := 0;
    while j < |svds|
      invariant 0 <= j <= |svds|
      invariant SnapshotVolumesOf(rsc, svds[..j]) == Success(vols)
    {
      assert svds[..j + 1][..j] == svds[..j];
      if svds[j].volNr !in rsc.volumes {
        assert SnapshotVolumesOf(rsc, svds[..j + 1]) == Failure(NullVolume(rsc.node, svds[j].volNr));
        SnapshotVolumesOfExtend(rsc, svds[..j + 1], svds[j + 1..]);
        assert svds[..j + 1] + svds[j + 1..] == svds;
        return Failure(NullVolume(rsc.node, svds[j].volNr));
      }
      vols := vols + [SnapshotVolume(svds[j].volNr, rsc.volumes[svds[j].volNr].storPool.name)];
      j := j + 1;
    }
    assert svds[..j] == svds;
    return Success(vols);
  }

  /** Once building the snapshot volumes fails, further definitions keep
      the first failure. */
  lemma {:induction false} SnapshotVolumesOfExtend(rsc: Resource, svds: seq<SnapshotVolumeDfn>, more: seq<SnapshotVolumeDfn>)
    requires SnapshotVolumesOf(rsc, svds).Failure?
    ensures SnapshotVolumesOf(rsc, svds + more) == SnapshotVolumesOf(rsc, svds)
    decreases |more|
  {
    if more != [] {
      var init := more[..|more| - 1];
      SnapshotVolumesOfExtend(rsc, svds, init);
      var all := svds + more;
      assert all[..|all| - 1] == svds + init;
      assert SnapshotVolumesOf(rsc, all[..|all| - 1]) == SnapshotVolumesOf(rsc, svds);
    } else {
      assert svds + more == svds;
    }
  }

  /** Once building the snapshots fails, further resources keep the first
      failure. */
  lemma {:induction false} SnapshotsOfExtend(resources: seq<Resource>, more: seq<Resource>, svds: seq<SnapshotVolumeDfn>)
    requires SnapshotsOf(resources, svds).Failure?
    ensures SnapshotsOf(resources + more, svds) == SnapshotsOf(resources, svds)
    decreases |more|
  {
    if more != [] {
      var init := more[..|more| - 1];
      SnapshotsOfExtend(resources, init, svds);
      var all := resources + more;
      assert all[..|all| - 1] == resources + init;
      assert SnapshotsOf(all[..|all| - 1], svds) == SnapshotsOf(resources, svds);
    } else {
      assert resources + more == resources;
    }
  }
}
