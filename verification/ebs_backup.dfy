/**
 * The EBS backup Lambda: snapshot every volume of every instance tagged for
 * backup, label and tag each snapshot with the instance id and the date, then
 * delete every snapshot owned by the account whose start date lies more than
 * the retention period in the past.
 *
 * The EC2 API is not modelled. The tagged instances and the owned snapshots are
 * input sequences; the id that `create_snapshot` returns for the n-th snapshot
 * of the run is `snapshotIdOf(n)`; the requests sent are returned as a log of
 * actions. Dates are day numbers, and `today`, the date label fixed when the
 * module is loaded, is kept apart from `nowDay`, the day on which the
 * retention phase runs.
 */
module EbsBackup {
  import opened Optional
  import opened Ec2

  /** Snapshots whose start date is more than this many days ago are deleted. */
  const RetentionDays: int := 7

  /** A request sent to EC2. */
  datatype Action =
    | CreateSnapshot(volumeId: string, description: string)
    | CreateTags(resources: seq<string>, tags: seq<Tag>)
    | DeleteSnapshot(snapshotId: string)

  // ---------------------------------------------------------------------------
  // Backup phase
  // ---------------------------------------------------------------------------

  /** A volume to snapshot, with the instance it is attached to. */
  datatype VolumeRef = VolumeRef(instanceId: string, volumeId: string)

  /** The snapshot description and Name tag: `Backup-<instance id>-<today>`. */
  function Description(instanceId: string, today: string): string {
    "Backup-" + instanceId + "-" + today
  }

  /** The volumes of one instance, in mapping order. */
  function InstanceVolumes(inst: Instance): seq<VolumeRef> {
    seq(|inst.blockDeviceMappings|, j requires 0 <= j < |inst.blockDeviceMappings| =>
      VolumeRef(inst.instanceId, inst.blockDeviceMappings[j].volumeId))
  }

  /** The volumes of a list of instances: instance by instance, then mapping by mapping. */
  function Volumes(insts: seq<Instance>): seq<VolumeRef> {
    if insts == [] then []
    else Volumes(insts[..|insts| - 1]) + InstanceVolumes(insts[|insts| - 1])
  }

  /** The two requests for one volume: create the snapshot, then tag the id it was given. */
  function SnapshotRequests(v: VolumeRef, today: string, snapshotId: string): seq<Action> {
    var desc := Description(v.instanceId, today);
    [CreateSnapshot(v.volumeId, desc), CreateTags([snapshotId], [Tag("Name", desc), Tag("CreatedOn", today)])]
  }

  /** The requests of the backup phase for `vols`; the n-th snapshot created gets id `snapshotIdOf(n)`. */
  function BackupActions(vols: seq<VolumeRef>, today: string, snapshotIdOf: nat -> string): seq<Action> {
    if vols == [] then []
    else BackupActions(vols[..|vols| - 1], today, snapshotIdOf)
         + SnapshotRequests(vols[|vols| - 1], today, snapshotIdOf(|vols| - 1))
  }

  lemma BackupActionsSnoc(vols: seq<VolumeRef>, v: VolumeRef, today: string, snapshotIdOf: nat -> string)
    ensures BackupActions(vols + [v], today, snapshotIdOf)
            == BackupActions(vols, today, snapshotIdOf) + SnapshotRequests(v, today, snapshotIdOf(|vols|))
  {
    assert (vols + [v])[..|vols|] == vols;
  }

  lemma VolumesSnoc(insts: seq<Instance>, inst: Instance)
    ensures Volumes(insts + [inst]) == Volumes(insts) + InstanceVolumes(inst)
  {
    assert (insts + [inst])[..|insts|] == insts;
  }

  /**
   * The backup phase sends exactly two requests per volume, in volume order:
   * a snapshot of the volume described as `Backup-<instance>-<today>`, then
   * tags on the snapshot just created, exactly Name = that description and
   * CreatedOn = today.
   */
  lemma {:induction false} BackupActionsAt(vols: seq<VolumeRef>, today: string, snapshotIdOf: nat -> string)
    ensures |BackupActions(vols, today, snapshotIdOf)| == 2 * |vols|
    ensures forall k :: 0 <= k < |vols| ==>
              var desc := "Backup-" + vols[k].instanceId + "-" + today;
              && BackupActions(vols, today, snapshotIdOf)[2 * k] == CreateSnapshot(vols[k].volumeId, desc)
              && BackupActions(vols, today, snapshotIdOf)[2 * k + 1] ==
                   CreateTags([snapshotIdOf(k)], [Tag("Name", desc), Tag("CreatedOn", today)])
    ensures forall i :: 0 <= i < |BackupActions(vols, today, snapshotIdOf)| ==>
              !BackupActions(vols, today, snapshotIdOf)[i].DeleteSnapshot?
  {
    if vols != [] {
      var init := vols[..|vols| - 1];
      BackupActionsAt(init, today, snapshotIdOf);
      forall k | 0 <= k < |init| ensures vols[k] == init[k] { }
    }
  }

  /** Exactly one snapshot per block-device mapping: the volumes of the instances of `a + b` are those of `a` then those of `b`. */
  lemma {:induction false} VolumesAppend(a: seq<Instance>, b: seq<Instance>)
    ensures Volumes(a + b) == Volumes(a) + Volumes(b)
  {
    if b != [] {
      var init := b[..|b| - 1];
      assert (a + b)[..|a + b| - 1] == a + init;
      VolumesAppend(a, init);
    } else {
      assert a + b == a;
    }
  }

  /** The number of snapshots requested is the number of block-device mappings. */
  lemma {:induction false} VolumesCount(insts: seq<Instance>)
    ensures |Volumes(insts)| == MappingCount(insts)
  {
    if insts != [] {
      VolumesCount(insts[..|insts| - 1]);
    }
  }

  /** Total number of block-device mappings. */
  function MappingCount(insts: seq<Instance>): nat {
    if insts == [] then 0 else MappingCount(insts[..|insts| - 1]) + |insts[|insts| - 1].blockDeviceMappings|
  }

  lemma AppendAssoc<T>(a: seq<T>, b: seq<T>, c: seq<T>)
    ensures a + (b + c) == (a + b) + c
  {
  }

  /** Snapshotting mapping `m` of `instance` adds that volume's two requests. */
  lemma InstanceStep(done: seq<VolumeRef>, instance: Instance, m: nat, today: string, snapshotIdOf: nat -> string)
    requires m < |instance.blockDeviceMappings|
    ensures BackupActions(done + InstanceVolumes(instance)[..m + 1], today, snapshotIdOf)
            == BackupActions(done + InstanceVolumes(instance)[..m], today, snapshotIdOf)
               + SnapshotRequests(InstanceVolumes(instance)[m], today, snapshotIdOf(|done| + m))
  {
    var vs := InstanceVolumes(instance);
    assert done + vs[..m + 1] == (done + vs[..m]) + [vs[m]];
    BackupActionsSnoc(done + vs[..m], vs[m], today, snapshotIdOf);
  }

  /** Visiting instance `i` of a reservation adds that instance's volumes. */
  lemma ReservationStep(visited: seq<Instance>, instances: seq<Instance>, i: nat)
    requires i < |instances|
    ensures Volumes(visited + instances[..i + 1]) == Volumes(visited + instances[..i]) + InstanceVolumes(instances[i])
  {
    assert visited + instances[..i + 1] == (visited + instances[..i]) + [instances[i]];
    VolumesSnoc(visited + instances[..i], instances[i]);
  }

  /**
   * The innermost loop of the backup phase, for one instance: for each
   * block-device mapping, request a snapshot of its volume and then tag the
   * snapshot. `done` are the volumes snapshotted earlier in the run, and
   * `created` their number, so this instance's snapshots are numbered from
   * `created` on.
   */
  method SnapshotInstance(instance: Instance, today: string, snapshotIdOf: nat -> string,
                          created: nat, ghost done: seq<VolumeRef>)
    returns (requests: seq<Action>)
    requires created == |done|
    ensures BackupActions(done + InstanceVolumes(instance), today, snapshotIdOf)
            == BackupActions(done, today, snapshotIdOf) + requests
  {
    var instanceId := instance.instanceId;
    var mappings := instance.blockDeviceMappings;
    var n := created;
    requests := [];
    assert done + InstanceVolumes(instance)[..0] == done;
    for m := 0 to |mappings|
      invariant n == |done| + m
      invariant BackupActions(done + InstanceVolumes(instance)[..m], today, snapshotIdOf)
                == BackupActions(done, today, snapshotIdOf) + requests
    {
      var volumeId := mappings[m].volumeId;
      var desc := "Backup-" + instanceId + "-" + today;
      var snapshotId := snapshotIdOf(n);
      var sent := [CreateSnapshot(volumeId, desc),
                   CreateTags([snapshotId], [Tag("Name", desc), Tag("CreatedOn", today)])];
      assert sent == SnapshotRequests(InstanceVolumes(instance)[m], today, snapshotIdOf(|done| + m));
      InstanceStep(done, instance, m, today, snapshotIdOf);
      AppendAssoc(BackupActions(done, today, snapshotIdOf), requests, sent);
      requests := requests + sent;
      n := n + 1;
    }
    assert InstanceVolumes(instance)[..|mappings|] == InstanceVolumes(instance);
  }

  /**
   * The middle loop of the backup phase, for the instances of one
   * reservation. `visited` are the instances handled earlier in the run and
   * `created` the number of snapshots requested for them; `total` is the
   * number requested once this reservation is done.
   */
  method SnapshotReservation(instances: seq<Instance>, today: string, snapshotIdOf: nat -> string,
                             created: nat, ghost visited: seq<Instance>)
    returns (requests: seq<Action>, total: nat)
    requires created == |Volumes(visited)|
    ensures total == |Volumes(visited + instances)|
    ensures BackupActions(Volumes(visited + instances), today, snapshotIdOf)
            == BackupActions(Volumes(visited), today, snapshotIdOf) + requests
  {
    requests, total := [], created;
    assert visited + instances[..0] == visited;
    for i := 0 to |instances|
      invariant total == |Volumes(visited + instances[..i])|
      invariant BackupActions(Volumes(visited + instances[..i]), today, snapshotIdOf)
                == BackupActions(Volumes(visited), today, snapshotIdOf) + requests
    {
      var instance := instances[i];
      ReservationStep(visited, instances, i);
      var more := SnapshotInstance(instance, today, snapshotIdOf, total, Volumes(visited + instances[..i]));
      AppendAssoc(BackupActions(Volumes(visited), today, snapshotIdOf), requests, more);
      requests := requests + more;
      total := total + |instance.blockDeviceMappings|;
    }
    assert instances[..|instances|] == instances;
  }

  /**
   * `lambda_handler`'s backup loops: for each reservation, each instance of
   * it, each block-device mapping of that, request a snapshot and tag it.
   */
  method Backup(reservations: seq<Reservation>, today: string, snapshotIdOf: nat -> string)
    returns (actions: seq<Action>)
    ensures actions == BackupActions(Volumes(AllInstances(reservations)), today, snapshotIdOf)
  {
    actions := [];
    var created: nat := 0;
    for r := 0 to |reservations|
      invariant created == |Volumes(AllInstances(reservations[..r]))|
      invariant actions == BackupActions(Volumes(AllInstances(reservations[..r])), today, snapshotIdOf)
    {
      AllInstancesStep(reservations, r);
      var requests;
      requests, created := SnapshotReservation(reservations[r].instances, today, snapshotIdOf,
                                               created, AllInstances(reservations[..r]));
      actions := actions + requests;
    }
    assert reservations[..|reservations|] == reservations;
  }

  // ---------------------------------------------------------------------------
  // Retention phase
  // ---------------------------------------------------------------------------

  /** An owned snapshot: `startDay` is None when the record has no StartTime. */
  datatype Snapshot = Snapshot(snapshotId: string, startDay: Option<int>, tags: seq<Tag>)

  /** The age test of the retention phase: started strictly before `nowDay - RetentionDays`. */
  predicate IsExpired(s: Snapshot, nowDay: int): (expired: bool)
    ensures expired ==> s.startDay.Some? && s.startDay.value < nowDay
  {
    s.startDay.Some? && s.startDay.value < nowDay - RetentionDays
  }

  /** The expired snapshots of `snapshots`, in listed order. */
  function Expired(snapshots: seq<Snapshot>, nowDay: int): seq<Snapshot> {
    if snapshots == [] then []
    else Expired(snapshots[..|snapshots| - 1], nowDay)
         + (if IsExpired(snapshots[|snapshots| - 1], nowDay) then [snapshots[|snapshots| - 1]] else [])
  }

  /** One delete request per expired snapshot, in listed order. */
  function DeleteActions(expired: seq<Snapshot>): seq<Action> {
    seq(|expired|, i requires 0 <= i < |expired| => DeleteSnapshot(expired[i].snapshotId))
  }

  /**
   * A listed snapshot is deleted as many times as it is listed if it is
   * expired, and never otherwise; so a snapshot listed once is deleted at most
   * once, and exactly when it is expired.
   */
  lemma {:induction false} ExpiredCount(snapshots: seq<Snapshot>, nowDay: int, s: Snapshot)
    ensures multiset(Expired(snapshots, nowDay))[s] == if IsExpired(s, nowDay) then multiset(snapshots)[s] else 0
  {
    if snapshots != [] {
      var init := snapshots[..|snapshots| - 1];
      ExpiredCount(init, nowDay, s);
      assert snapshots == init + [snapshots[|snapshots| - 1]];
    }
  }

  /**
   * A snapshot without a start time, or one started no more than
   * `RetentionDays` days before `nowDay` (in particular on `nowDay` itself), is
   * never deleted.
   */
  lemma RecentOrUndatedKept(snapshots: seq<Snapshot>, nowDay: int, s: Snapshot)
    requires s.startDay.None? || s.startDay.value >= nowDay - RetentionDays
    ensures s !in Expired(snapshots, nowDay)
  {
    ExpiredCount(snapshots, nowDay, s);
  }

  /** The boundary is strict: a snapshot exactly `RetentionDays` old is kept, one a day older is deleted. */
  lemma RetentionBoundary(id: string, tags: seq<Tag>, nowDay: int)
    ensures !IsExpired(Snapshot(id, Some(nowDay - 7), tags), nowDay)
    ensures IsExpired(Snapshot(id, Some(nowDay - 8), tags), nowDay)
  {
  }

  /**
   * Deletion looks at the start date only: two listings that agree on every
   * snapshot's id and start date, whatever their tags, lead to the same deletes.
   */
  lemma {:induction false} DeletionIgnoresTags(a: seq<Snapshot>, b: seq<Snapshot>, nowDay: int)
    requires |a| == |b|
    requires forall i :: 0 <= i < |a| ==> a[i].snapshotId == b[i].snapshotId && a[i].startDay == b[i].startDay
    ensures DeleteActions(Expired(a, nowDay)) == DeleteActions(Expired(b, nowDay))
  {
    if a != [] {
      var n := |a| - 1;
      DeletionIgnoresTags(a[..n], b[..n], nowDay);
      var ea, eb := Expired(a[..n], nowDay), Expired(b[..n], nowDay);
      assert IsExpired(a[n], nowDay) <==> IsExpired(b[n], nowDay);
      if IsExpired(a[n], nowDay) {
        assert Expired(a, nowDay) == ea + [a[n]];
        assert Expired(b, nowDay) == eb + [b[n]];
        assert DeleteActions(ea + [a[n]]) == DeleteActions(ea) + [DeleteSnapshot(a[n].snapshotId)];
        assert DeleteActions(eb + [b[n]]) == DeleteActions(eb) + [DeleteSnapshot(b[n].snapshotId)];
      } else {
        assert Expired(a, nowDay) == ea;
        assert Expired(b, nowDay) == eb;
      }
    }
  }

  /** `delete_old_snapshots`: one delete request per listed snapshot that is expired. */
  method DeleteOldSnapshots(snapshots: seq<Snapshot>, nowDay: int) returns (actions: seq<Action>)
    ensures actions == DeleteActions(Expired(snapshots, nowDay))
  {
    var oldDate := nowDay - RetentionDays;
    actions := [];
    for i := 0 to |snapshots|
      invariant actions == DeleteActions(Expired(snapshots[..i], nowDay))
    {
      var snap := snapshots[i];
      assert snapshots[..i + 1][..i] == snapshots[..i];
      if snap.startDay.Some? && snap.startDay.value < oldDate {
        assert Expired(snapshots[..i + 1], nowDay) == Expired(snapshots[..i], nowDay) + [snap];
        actions := actions + [DeleteSnapshot(snap.snapshotId)];
      }
    }
    assert snapshots[..|snapshots|] == snapshots;
  }

  /**
   * `lambda_handler`: the whole backup phase, then the retention phase over
   * every owned snapshot. No delete request precedes a backup request.
   */
  method LambdaHandler(reservations: seq<Reservation>, today: string, snapshotIdOf: nat -> string,
                       snapshots: seq<Snapshot>, nowDay: int)
    returns (actions: seq<Action>)
    ensures actions == BackupActions(Volumes(AllInstances(reservations)), today, snapshotIdOf)
                       + DeleteActions(Expired(snapshots, nowDay))
    ensures forall i, j :: 0 <= i < j < |actions| && actions[i].DeleteSnapshot? ==> actions[j].DeleteSnapshot?
  {
    var created := Backup(reservations, today, snapshotIdOf);
    var deleted := DeleteOldSnapshots(snapshots, nowDay);
    actions := created + deleted;
    BackupActionsAt(Volumes(AllInstances(reservations)), today, snapshotIdOf);
  }
}
