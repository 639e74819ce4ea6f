/**
 * The EC2 records both AWS scripts read from `describe_instances`: reservations
 * holding instances, each with its tags and its block-device mappings.
 */
module Ec2 {

  /** A `{'Key': ..., 'Value': ...}` tag. */
  datatype Tag = Tag(key: string, value: string)

  /** A block-device mapping; only `vol['Ebs']['VolumeId']` is read. */
  datatype BlockDeviceMapping = BlockDeviceMapping(volumeId: string)

  /** An instance record; an absent `Tags` key is the empty list. */
  datatype Instance = Instance(instanceId: string, tags: seq<Tag>, blockDeviceMappings: seq<BlockDeviceMapping>)

  datatype Reservation = Reservation(instances: seq<Instance>)

  /**
   * The instances in the order the nested loops visit them: reservation by
   * reservation, and within a reservation in listed order.
   */
  function AllInstances(reservations: seq<Reservation>): seq<Instance> {
    if reservations == [] then []
    else AllInstances(reservations[..|reservations| - 1]) + reservations[|reservations| - 1].instances
  }

  /** Visiting reservation `r` appends its instances to those visited before. */
  lemma AllInstancesStep(reservations: seq<Reservation>, r: nat)
    requires r < |reservations|
    ensures AllInstances(reservations[..r + 1]) == AllInstances(reservations[..r]) + reservations[r].instances
  {
    assert reservations[..r + 1][..r] == reservations[..r];
  }

  /** Every instance of every reservation is visited, and nothing else. */
  lemma {:induction false} AllInstancesMembers(reservations: seq<Reservation>, inst: Instance)
    ensures inst in AllInstances(reservations) <==>
              exists r :: 0 <= r < |reservations| && inst in reservations[r].instances
  {
    if reservations != [] {
      var init := reservations[..|reservations| - 1];
      AllInstancesMembers(init, inst);
      if inst in AllInstances(reservations) && inst !in reservations[|reservations| - 1].instances {
        var r :| 0 <= r < |init| && inst in init[r].instances;
        assert reservations[r] == init[r];
      }
      if r :| 0 <= r < |reservations| && inst in reservations[r].instances {
        if r < |init| {
          assert init[r] == reservations[r];
        }
      }
    }
  }
}
