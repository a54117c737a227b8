/**
 * The starter kit's example workflow: create-or-reuse of the security group
 * and the key pair against the provider, then launch, start, and stop only
 * when the start reported success.  The answer of doesSecurityGroupExists,
 * the id the provider assigns to a new group, and the replies of the launch,
 * start, stop and describe calls are parameters.
 */
module Ec2Test {
  import opened Wrappers
  import opened Sdk
  import Ec2
  import Cloud

  const MySecurityGroup: string := "my-security-group"
  const MyKeyPair: string := "my-key-pair"
  const MyAmiId: string := "ami-9abea4fb"
  const MyInstanceType: string := "t2.micro"

  /** The run request the workflow's launchInstance builds. */
  const MyLaunchRequest: RunInstancesRequest :=
    RunInstancesRequest(MyAmiId, MyInstanceType, 0, 1, MyKeyPair, [MySecurityGroup])

  /**
   * createSecurityGroup, as written: when the existence check reports FALSE it
   * looks the group up by name and creates nothing; when it reports TRUE it
   * sends one create request and then looks the result up by the new group id,
   * passed where getSecurityGroup expects a group name.
   */
  method CreateSecurityGroup(p: Cloud.Provider, groupExists: bool, assignedId: Option<string>)
    returns (group: Option<SecurityGroup>)
    modifies p
    ensures !groupExists ==> p.groups == old(p.groups) && p.groupCreateRequests == old(p.groupCreateRequests)
    ensures !groupExists ==>
              group == Ec2.GetSecurityGroup(Cloud.GroupsReply(old(p.groups), Ec2.SecurityGroupsRequest(MySecurityGroup)))
    ensures groupExists ==> p.groupCreateRequests == old(p.groupCreateRequests) + [MySecurityGroup]
    ensures groupExists && (assignedId.None? || MySecurityGroup in old(p.groups)) ==>
              group.None? && p.groups == old(p.groups)
    ensures groupExists && assignedId.Some? && MySecurityGroup !in old(p.groups) ==>
              && p.groups == old(p.groups)[MySecurityGroup := assignedId.value]
              && group == Ec2.GetSecurityGroup(Cloud.GroupsReply(p.groups, Ec2.SecurityGroupsRequest(assignedId.value)))
    ensures groupExists && group.Some? ==> group.value.groupName == assignedId.value
    ensures (groupExists <==> MySecurityGroup in old(p.groups)) ==> group.None?
    ensures p.keyNames == old(p.keyNames) && p.keyCreateRequests == old(p.keyCreateRequests)
  {
    if !groupExists {
      Cloud.GroupLookup(p.groups, MySecurityGroup);
      return Ec2.GetSecurityGroup(p.DescribeSecurityGroups(Ec2.SecurityGroupsRequest(MySecurityGroup)));
    }
    var request := CreateSecurityGroupRequest(MySecurityGroup);
    var created := p.CreateSecurityGroup(request, assignedId);
    if created.None? {
      return None;
    }
    Cloud.GroupLookup(p.groups, created.value.groupId);
    group := Ec2.GetSecurityGroup(p.DescribeSecurityGroups(Ec2.SecurityGroupsRequest(created.value.groupId)));
  }

  /**
   * createKeyPair: looks the key pair up by name and creates it only when the
   * lookup found nothing.  It returns the lookup's answer, so null on the
   * path that creates.
   */
  method CreateKeyPair(p: Cloud.Provider) returns (keyPairInfo: Option<KeyPairInfo>)
    modifies p
    ensures keyPairInfo == Ec2.GetKeyPairInfo(Cloud.KeyPairsReply(old(p.keyNames), Ec2.KeyPairsRequest(MyKeyPair)))
    ensures keyPairInfo == if MyKeyPair in old(p.keyNames) then Some(KeyPairInfo(MyKeyPair)) else None
    ensures p.keyCreateRequests == old(p.keyCreateRequests) + (if keyPairInfo.None? then [MyKeyPair] else [])
    ensures p.keyNames == old(p.keyNames) + {MyKeyPair}
    ensures p.groups == old(p.groups) && p.groupCreateRequests == old(p.groupCreateRequests)
  {
    keyPairInfo := Ec2.GetKeyPairInfo(p.DescribeKeyPairs(Ec2.KeyPairsRequest(MyKeyPair)));
    Cloud.KeyPairLookup(p.keyNames, MyKeyPair);
    if keyPairInfo.None? {
      var keyPair := p.CreateKeyPair(CreateKeyPairRequest(MyKeyPair));
      // the key material is read from the new key pair without a null check
      assert keyPair.Some?;
    }
  }

  /** Two createKeyPair calls in a row: at most one create request in all, and the second finds the key. */
  method CreateKeyPairTwice(p: Cloud.Provider) returns (first: Option<KeyPairInfo>, second: Option<KeyPairInfo>)
    modifies p
    ensures p.keyCreateRequests ==
              old(p.keyCreateRequests) + (if MyKeyPair in old(p.keyNames) then [] else [MyKeyPair])
    ensures first.None? <==> MyKeyPair !in old(p.keyNames)
    ensures second == Some(KeyPairInfo(MyKeyPair))
    ensures p.keyNames == old(p.keyNames) + {MyKeyPair}
    ensures p.groups == old(p.groups) && p.groupCreateRequests == old(p.groupCreateRequests)
  {
    first := CreateKeyPair(p);
    second := CreateKeyPair(p);
  }

  /**
   * basic(): group, key pair, launch, start, and a stop only when the start
   * returned true.  The launched instance must be non-null (its id is read
   * without a check).
   */
  method Basic(
    p: Cloud.Provider,
    groupExists: bool,
    assignedId: Option<string>,
    runReply: Option<RunInstancesResult>,
    startReply: Option<StartInstancesResult>,
    startDescribes: seq<Option<DescribeInstancesResult>>,
    stopReply: Option<StopInstancesResult>,
    stopDescribes: seq<Option<DescribeInstancesResult>>)
    returns (
      launchRequest: RunInstancesRequest,
      startRequest: StartInstancesRequest,
      started: bool,
      stopRequest: Option<StopInstancesRequest>)
    requires Ec2.LaunchInstance(runReply).Some?
    requires Ec2.FirstChangeReadable(Ec2.StartingInstances(startReply))
    requires Ec2.MustPoll(Ec2.StartingInstances(startReply), Ec2.AwaitRunning) ==>
               Ec2.PollReady(startDescribes, Ec2.AwaitRunning)
    requires Ec2.ReachedAtOnce(Ec2.StartingInstances(startReply), Ec2.AwaitRunning) ==>
               && Ec2.FirstChangeReadable(Ec2.StoppingInstances(stopReply))
               && (Ec2.MustPoll(Ec2.StoppingInstances(stopReply), Ec2.AwaitStopped) ==>
                     Ec2.PollReady(stopDescribes, Ec2.AwaitStopped))
    modifies p
    ensures launchRequest.keyName == MyKeyPair && launchRequest.securityGroups == [MySecurityGroup]
    ensures started <==> Ec2.ReachedAtOnce(Ec2.StartingInstances(startReply), Ec2.AwaitRunning)
    ensures startRequest.instanceIds == [Ec2.LaunchInstance(runReply).value.instanceId]
    ensures stopRequest.Some? <==> started
    ensures stopRequest.Some? ==> stopRequest.value.instanceIds == [Ec2.LaunchInstance(runReply).value.instanceId]
    ensures p.keyNames == old(p.keyNames) + {MyKeyPair}
    ensures p.keyCreateRequests ==
              old(p.keyCreateRequests) + (if MyKeyPair in old(p.keyNames) then [] else [MyKeyPair])
    ensures p.groupCreateRequests ==
              old(p.groupCreateRequests) + (if groupExists then [MySecurityGroup] else [])
    ensures p.groups ==
              if groupExists && assignedId.Some? && MySecurityGroup !in old(p.groups)
              then old(p.groups)[MySecurityGroup := assignedId.value] else old(p.groups)
  {
    var securityGroup := CreateSecurityGroup(p, groupExists, assignedId);
    var keyPairInfo := CreateKeyPair(p);
    launchRequest := MyLaunchRequest;
    var instance := Ec2.LaunchInstance(runReply);
    var instanceId := instance.value.instanceId;
    var startPolls, startSleeps;
    started, startRequest, startPolls, startSleeps := Ec2.StartInstance(instanceId, startReply, startDescribes);
    stopRequest := None;
    if started {
      var stopped, request, stopPolls, stopSleeps := Ec2.StopInstance(instanceId, stopReply, stopDescribes);
      stopRequest := Some(request);
    }
  }
}
