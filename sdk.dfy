/**
 * The shapes of the EC2 SDK requests and replies that the starter kit reads.
 * Only the fields the kit touches are kept.  Every reference the kit
 * null-checks, or could find null, is an Option.
 */
module Sdk {
  import opened Wrappers

  /** A java.util.List that may itself be null and may hold null elements. */
  type JList<T> = Option<seq<Option<T>>>

  /** An instance state as the provider reports it; its name may be missing. */
  datatype InstanceState = InstanceState(name: Option<string>)

  datatype Instance = Instance(instanceId: string, state: Option<InstanceState>)

  datatype Reservation = Reservation(instances: JList<Instance>)

  datatype RunInstancesRequest = RunInstancesRequest(
    imageId: string,
    instanceType: string,
    minCount: int,
    maxCount: int,
    keyName: string,
    securityGroups: seq<string>)

  datatype RunInstancesResult = RunInstancesResult(reservation: Option<Reservation>)

  datatype InstanceStateChange = InstanceStateChange(currentState: Option<InstanceState>)

  datatype StartInstancesRequest = StartInstancesRequest(instanceIds: seq<string>)

  datatype StartInstancesResult = StartInstancesResult(startingInstances: JList<InstanceStateChange>)

  datatype StopInstancesRequest = StopInstancesRequest(instanceIds: seq<string>)

  datatype StopInstancesResult = StopInstancesResult(stoppingInstances: JList<InstanceStateChange>)

  datatype DescribeInstancesRequest = DescribeInstancesRequest(instanceIds: seq<string>)

  datatype DescribeInstancesResult = DescribeInstancesResult(reservations: JList<Reservation>)

  datatype KeyPairInfo = KeyPairInfo(keyName: string)

  datatype KeyPair = KeyPair(keyName: string)

  datatype CreateKeyPairRequest = CreateKeyPairRequest(keyName: string)

  datatype DescribeKeyPairsRequest = DescribeKeyPairsRequest(keyNames: seq<string>)

  datatype DescribeKeyPairsResult = DescribeKeyPairsResult(keyPairs: JList<KeyPairInfo>)

  datatype SecurityGroup = SecurityGroup(groupName: string, groupId: string)

  datatype CreateSecurityGroupRequest = CreateSecurityGroupRequest(groupName: string)

  datatype CreateSecurityGroupResult = CreateSecurityGroupResult(groupId: string)

  datatype DescribeSecurityGroupsRequest = DescribeSecurityGroupsRequest(groupNames: seq<string>)

  datatype DescribeSecurityGroupsResult = DescribeSecurityGroupsResult(securityGroups: JList<SecurityGroup>)
}
