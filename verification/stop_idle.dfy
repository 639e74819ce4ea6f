/**
 * The idle-instance stopper: for each running EC2 instance, average its hourly
 * CPU utilisation over the last two days, mark it idle when the average is
 * below 5 percent, and stop all idle instances with a single request.
 *
 * The AWS APIs are not modelled. The running instances are an input sequence,
 * the CloudWatch `Average` values of an instance are `datapointsOf(id)`, and
 * Python's `round(x, 2)` on floats is the function parameter `round`:
 * arithmetic on samples is exact (`real`), and nothing is claimed about a
 * usage that the rounding could move across the threshold.
 */
module StopIdle {
  import opened Ec2

  /** CPU_THRESHOLD, in percent. */
  const CpuThreshold: real := 5.0

  // ---------------------------------------------------------------------------
  // Averaging (get_cpu_utilization)
  // ---------------------------------------------------------------------------

  function Sum(xs: seq<real>): real {
    if xs == [] then 0.0 else Sum(xs[..|xs| - 1]) + xs[|xs| - 1]
  }

  /** If every sample is above `t`, the sum exceeds `|xs|` times `t`. */
  lemma {:induction false} SumAbove(xs: seq<real>, t: real)
    requires xs != []
    requires forall i :: 0 <= i < |xs| ==> xs[i] > t
    ensures Sum(xs) > |xs| as real * t
  {
    var n := |xs| - 1;
    if n > 0 {
      SumAbove(xs[..n], t);
    }
    assert (n + 1) as real * t == n as real * t + t;
  }

  /** If every sample is below `t`, the sum is less than `|xs|` times `t`. */
  lemma {:induction false} SumBelow(xs: seq<real>, t: real)
    requires xs != []
    requires forall i :: 0 <= i < |xs| ==> xs[i] < t
    ensures Sum(xs) < |xs| as real * t
  {
    var n := |xs| - 1;
    if n > 0 {
      SumBelow(xs[..n], t);
    }
    assert (n + 1) as real * t == n as real * t + t;
  }

  /** The arithmetic mean: the sum spread evenly over the samples. */
  function Mean(xs: seq<real>): (m: real)
    requires xs != []
    ensures m * |xs| as real == Sum(xs)
  {
    Sum(xs) / |xs| as real
  }

  /** The mean lies between the smallest and the largest sample. */
  lemma MeanBetween(xs: seq<real>)
    requires xs != []
    ensures exists i :: 0 <= i < |xs| && xs[i] <= Mean(xs)
    ensures exists j :: 0 <= j < |xs| && Mean(xs) <= xs[j]
  {
    var m := Mean(xs);
    if forall i :: 0 <= i < |xs| ==> xs[i] > m {
      SumAbove(xs, m);
    }
    if forall j :: 0 <= j < |xs| ==> xs[j] < m {
      SumBelow(xs, m);
    }
  }

  /** `get_cpu_utilization`: exactly 0 without datapoints, else `round` of the exact mean of their averages. */
  function CpuUtilization(datapoints: seq<real>, round: real -> real): (usage: real)
    ensures datapoints == [] ==> usage == 0.0
    ensures datapoints != [] ==> usage == round(Mean(datapoints))
  {
    if datapoints != [] then round(Mean(datapoints)) else 0.0
  }

  /** `cpu_usage < CPU_THRESHOLD`: strict, so an instance without datapoints (usage 0) is idle. */
  predicate IsIdle(inst: Instance, datapointsOf: string -> seq<real>, round: real -> real): (idle: bool)
    ensures datapointsOf(inst.instanceId) == [] ==> idle
  {
    CpuUtilization(datapointsOf(inst.instanceId), round) < CpuThreshold
  }

  /** Before rounding: samples all below the threshold average below it, samples all at or above it do not. */
  lemma MeanAgainstThreshold(xs: seq<real>)
    requires xs != []
    ensures (forall i :: 0 <= i < |xs| ==> xs[i] < CpuThreshold) ==> Mean(xs) < CpuThreshold
    ensures (forall i :: 0 <= i < |xs| ==> xs[i] >= CpuThreshold) ==> Mean(xs) >= CpuThreshold
  {
    MeanBetween(xs);
  }

  /** Samples 10 and 2 average 6; if rounding keeps 6, the instance is not idle (6 is not below 5). */
  lemma TenAndTwoNotIdle(round: real -> real)
    requires round(6.0) == 6.0
    ensures Mean([10.0, 2.0]) == 6.0
    ensures !(CpuUtilization([10.0, 2.0], round) < CpuThreshold)
  {
    assert Sum([10.0, 2.0]) == 12.0 by {
      assert [10.0, 2.0][..1] == [10.0];
      assert [10.0][..0] == [];
    }
  }

  // ---------------------------------------------------------------------------
  // Name tag
  // ---------------------------------------------------------------------------

  /** `tags[i]` is the first tag whose key is "Name". */
  ghost predicate IsFirstNameTag(tags: seq<Tag>, i: int) {
    0 <= i < |tags| && tags[i].key == "Name" && forall j :: 0 <= j < i ==> tags[j].key != "Name"
  }

  /** `name` is what the first "Name" tag of `tags` gives, "NoName" when there is none. */
  ghost predicate NamedBy(tags: seq<Tag>, name: string) {
    (exists i :: IsFirstNameTag(tags, i) && name == tags[i].value)
    || ((forall i :: 0 <= i < |tags| ==> tags[i].key != "Name") && name == "NoName")
  }

  /** Skipping a leading tag that is not "Name" does not change which name tag comes first. */
  lemma NamedBySkip(tags: seq<Tag>, name: string)
    requires tags != [] && tags[0].key != "Name"
    requires NamedBy(tags[1..], name)
    ensures NamedBy(tags, name)
  {
    if i :| IsFirstNameTag(tags[1..], i) && name == tags[1..][i].value {
      assert IsFirstNameTag(tags, i + 1);
    } else {
      assert forall i :: 1 <= i < |tags| ==> tags[i] == tags[1..][i - 1];
    }
  }

  /** The display name: the value of the first "Name" tag, or "NoName" when there is none. */
  function NameTag(tags: seq<Tag>): (name: string)
    ensures NamedBy(tags, name)
  {
    if tags == [] then "NoName"
    else if tags[0].key == "Name" then
      assert IsFirstNameTag(tags, 0);
      tags[0].value
    else
      var rest := NameTag(tags[1..]);
      NamedBySkip(tags, rest);
      rest
  }

  // ---------------------------------------------------------------------------
  // Idle selection and the stop request (main)
  // ---------------------------------------------------------------------------

  /** The line printed for each instance: id, display name and usage. */
  datatype UsageLine = UsageLine(instanceId: string, name: string, usage: real)

  function LineFor(inst: Instance, datapointsOf: string -> seq<real>, round: real -> real): UsageLine {
    UsageLine(inst.instanceId, NameTag(inst.tags), CpuUtilization(datapointsOf(inst.instanceId), round))
  }

  /** The usage lines of `insts`, in order. */
  function UsageReport(insts: seq<Instance>, datapointsOf: string -> seq<real>, round: real -> real): seq<UsageLine> {
    if insts == [] then []
    else UsageReport(insts[..|insts| - 1], datapointsOf, round) + [LineFor(insts[|insts| - 1], datapointsOf, round)]
  }

  /** One usage line per instance, in order, each naming that instance with its display name and usage. */
  lemma {:induction false} UsageReportAt(insts: seq<Instance>, datapointsOf: string -> seq<real>, round: real -> real)
    ensures |UsageReport(insts, datapointsOf, round)| == |insts|
    ensures forall k :: 0 <= k < |insts| ==> UsageReport(insts, datapointsOf, round)[k] == LineFor(insts[k], datapointsOf, round)
  {
    if insts != [] {
      var init := insts[..|insts| - 1];
      UsageReportAt(init, datapointsOf, round);
      forall k | 0 <= k < |init| ensures insts[k] == init[k] { }
    }
  }

  /** The ids of the idle instances of `insts`, in order. */
  function IdleIds(insts: seq<Instance>, datapointsOf: string -> seq<real>, round: real -> real): seq<string> {
    if insts == [] then []
    else IdleIds(insts[..|insts| - 1], datapointsOf, round)
         + (if IsIdle(insts[|insts| - 1], datapointsOf, round) then [insts[|insts| - 1].instanceId] else [])
  }

  lemma IdleIdsSnoc(insts: seq<Instance>, inst: Instance, datapointsOf: string -> seq<real>, round: real -> real)
    ensures IdleIds(insts + [inst], datapointsOf, round)
            == IdleIds(insts, datapointsOf, round) + (if IsIdle(inst, datapointsOf, round) then [inst.instanceId] else [])
    ensures UsageReport(insts + [inst], datapointsOf, round) == UsageReport(insts, datapointsOf, round) + [LineFor(inst, datapointsOf, round)]
  {
    assert (insts + [inst])[..|insts|] == insts;
  }

  /** The idle ids of earlier instances come before those of later ones. */
  lemma {:induction false} IdleIdsAppend(a: seq<Instance>, b: seq<Instance>, datapointsOf: string -> seq<real>, round: real -> real)
    ensures IdleIds(a + b, datapointsOf, round) == IdleIds(a, datapointsOf, round) + IdleIds(b, datapointsOf, round)
  {
    if b == [] {
      assert a + b == a;
    } else {
      var init := b[..|b| - 1];
      assert a + b == (a + init) + [b[|b| - 1]];
      IdleIdsAppend(a, init, datapointsOf, round);
      IdleIdsSnoc(a + init, b[|b| - 1], datapointsOf, round);
    }
  }

  /** An id is in the idle list exactly when some examined instance with that id is idle. */
  lemma {:induction false} IdleIdsMembers(insts: seq<Instance>, datapointsOf: string -> seq<real>, round: real -> real, id: string)
    ensures id in IdleIds(insts, datapointsOf, round) <==>
              exists k :: 0 <= k < |insts| && insts[k].instanceId == id && IsIdle(insts[k], datapointsOf, round)
  {
    if insts != [] {
      var init := insts[..|insts| - 1];
      IdleIdsMembers(init, datapointsOf, round, id);
      if k :| 0 <= k < |insts| && insts[k].instanceId == id && IsIdle(insts[k], datapointsOf, round) {
        if k < |init| {
          assert init[k] == insts[k];
        }
      }
      if k :| 0 <= k < |init| && init[k].instanceId == id && IsIdle(init[k], datapointsOf, round) {
        assert insts[k] == init[k];
      }
    }
  }

  /** An instance without datapoints has usage 0, below the threshold, so it is idle. */
  lemma NoDataIsIdle(insts: seq<Instance>, datapointsOf: string -> seq<real>, round: real -> real, k: int)
    requires 0 <= k < |insts| && datapointsOf(insts[k].instanceId) == []
    ensures insts[k].instanceId in IdleIds(insts, datapointsOf, round)
  {
    IdleIdsMembers(insts, datapointsOf, round, insts[k].instanceId);
  }

  /**
   * The display name has no effect on the decision: instances that differ
   * only in their tags give the same idle list.
   */
  lemma {:induction false} IdleIgnoresTags(a: seq<Instance>, b: seq<Instance>, datapointsOf: string -> seq<real>, round: real -> real)
    requires |a| == |b|
    requires forall k :: 0 <= k < |a| ==> a[k].instanceId == b[k].instanceId
    ensures IdleIds(a, datapointsOf, round) == IdleIds(b, datapointsOf, round)
  {
    if a != [] {
      var n := |a| - 1;
      IdleIgnoresTags(a[..n], b[..n], datapointsOf, round);
      assert IsIdle(a[n], datapointsOf, round) == IsIdle(b[n], datapointsOf, round);
    }
  }

  /** Visiting instance `i` of a reservation adds its usage line, and its id when it is idle. */
  lemma VisitStep(visited: seq<Instance>, instances: seq<Instance>, i: nat,
                  datapointsOf: string -> seq<real>, round: real -> real)
    requires i < |instances|
    ensures UsageReport(visited + instances[..i + 1], datapointsOf, round)
            == UsageReport(visited + instances[..i], datapointsOf, round) + [LineFor(instances[i], datapointsOf, round)]
    ensures IdleIds(visited + instances[..i + 1], datapointsOf, round)
            == IdleIds(visited + instances[..i], datapointsOf, round)
               + (if IsIdle(instances[i], datapointsOf, round) then [instances[i].instanceId] else [])
  {
    assert visited + instances[..i + 1] == (visited + instances[..i]) + [instances[i]];
    IdleIdsSnoc(visited + instances[..i], instances[i], datapointsOf, round);
  }

  /**
   * The inner loop of `main`, over the instances of one reservation: print
   * each usage line and collect the idle ids. `visited` are the instances of
   * the earlier reservations, whose lines and idle ids are already in
   * `report0` and `idle0`.
   */
  method VisitReservation(instances: seq<Instance>, datapointsOf: string -> seq<real>, round: real -> real,
                          report0: seq<UsageLine>, idle0: seq<string>, ghost visited: seq<Instance>)
    returns (report: seq<UsageLine>, idle: seq<string>)
    requires report0 == UsageReport(visited, datapointsOf, round)
    requires idle0 == IdleIds(visited, datapointsOf, round)
    ensures report == UsageReport(visited + instances, datapointsOf, round)
    ensures idle == IdleIds(visited + instances, datapointsOf, round)
  {
    report, idle := report0, idle0;
    assert visited + instances[..0] == visited;
    for i := 0 to |instances|
      invariant report == UsageReport(visited + instances[..i], datapointsOf, round)
      invariant idle == IdleIds(visited + instances[..i], datapointsOf, round)
    {
      var instance := instances[i];
      var instanceId := instance.instanceId;
      var nameTag := NameTag(instance.tags);
      var cpuUsage := CpuUtilization(datapointsOf(instanceId), round);
      VisitStep(visited, instances, i, datapointsOf, round);
      report := report + [UsageLine(instanceId, nameTag, cpuUsage)];
      if cpuUsage < CpuThreshold {
        idle := idle + [instanceId];
      }
    }
    assert instances[..|instances|] == instances;
  }

  /**
   * `main`: visit every instance of every reservation, record its usage line,
   * collect the idle ids in visiting order, then request a stop of all of them
   * at once, and only if there is at least one.
   */
  method StopIdleInstances(reservations: seq<Reservation>, datapointsOf: string -> seq<real>, round: real -> real)
    returns (report: seq<UsageLine>, idle: seq<string>, stopRequests: seq<seq<string>>)
    ensures var insts := AllInstances(reservations);
            && |report| == |insts|
            && forall k :: 0 <= k < |insts| ==> report[k] == LineFor(insts[k], datapointsOf, round)
    ensures idle == IdleIds(AllInstances(reservations), datapointsOf, round)
    ensures |stopRequests| <= 1
    ensures stopRequests != [] <==> idle != []
    ensures forall s :: s in stopRequests ==> s == idle
  {
    report, idle := [], [];
    for r := 0 to |reservations|
      invariant report == UsageReport(AllInstances(reservations[..r]), datapointsOf, round)
      invariant idle == IdleIds(AllInstances(reservations[..r]), datapointsOf, round)
    {
      AllInstancesStep(reservations, r);
      report, idle := VisitReservation(reservations[r].instances, datapointsOf, round,
                                       report, idle, AllInstances(reservations[..r]));
    }
    assert reservations[..|reservations|] == reservations;
    UsageReportAt(AllInstances(reservations), datapointsOf, round);
    if idle != [] {
      stopRequests := [idle];
    } else {
      stopRequests := [];
    }
  }
}
