/**
 * The EC2 provider as the starter kit's test driver sees it: a table of
 * key-pair names, a table of security groups (name to provider-assigned id),
 * and a log of the create requests it has received.  Describe calls answer
 * from the tables; create calls log the request and update the tables.
 */
module Cloud {
  import opened Wrappers
  import opened Sdk
  import Ec2

  /** The key-pair records the table holds for the requested names, in request order. */
  function KnownKeyPairs(table: set<string>, names: seq<string>): (r: seq<Option<KeyPairInfo>>)
    ensures |r| <= |names|
    ensures forall j | 0 <= j < |r| :: r[j].Some? && r[j].value.keyName in table && r[j].value.keyName in names
    ensures (forall j | 0 <= j < |names| :: names[j] in table) ==>
              |r| == |names| && forall j | 0 <= j < |r| :: r[j] == Some(KeyPairInfo(names[j]))
  {
    if names == [] then []
    else (if names[0] in table then [Some(KeyPairInfo(names[0]))] else []) + KnownKeyPairs(table, names[1..])
  }

  /** The provider's reply to a describe-key-pairs request. */
  function KeyPairsReply(table: set<string>, request: DescribeKeyPairsRequest): Option<DescribeKeyPairsResult>
  {
    Some(DescribeKeyPairsResult(Some(KnownKeyPairs(table, request.keyNames))))
  }

  /** The groups the table holds under the requested names, in request order. */
  function KnownGroups(groups: map<string, string>, names: seq<string>): (r: seq<Option<SecurityGroup>>)
    ensures |r| <= |names|
    ensures forall j | 0 <= j < |r| ::
              && r[j].Some? && r[j].value.groupName in groups && groups[r[j].value.groupName] == r[j].value.groupId
              && r[j].value.groupName in names
    ensures (forall j | 0 <= j < |names| :: names[j] !in groups) ==> r == []
  {
    if names == [] then []
    else
      (if names[0] in groups then [Some(SecurityGroup(names[0], groups[names[0]]))] else [])
      + KnownGroups(groups, names[1..])
  }

  /** The provider's reply to a describe-security-groups request (lookup by group name). */
  function GroupsReply(groups: map<string, string>, request: DescribeSecurityGroupsRequest): Option<DescribeSecurityGroupsResult>
  {
    Some(DescribeSecurityGroupsResult(Some(KnownGroups(groups, request.groupNames))))
  }

  /** getKeyPairInfo over the provider's reply finds the record exactly when the name is in the table. */
  lemma KeyPairLookup(table: set<string>, name: string)
    ensures Ec2.GetKeyPairInfo(KeyPairsReply(table, Ec2.KeyPairsRequest(name))) ==
              if name in table then Some(KeyPairInfo(name)) else None
  {
  }

  /** getSecurityGroup over the provider's reply finds the group exactly when the name is in the table. */
  lemma GroupLookup(groups: map<string, string>, name: string)
    ensures Ec2.GetSecurityGroup(GroupsReply(groups, Ec2.SecurityGroupsRequest(name))) ==
              if name in groups then Some(SecurityGroup(name, groups[name])) else None
  {
  }

  class Provider {
    /** Names of the key pairs the account holds. */
    var keyNames: set<string>
    /** Security groups the account holds: group name to group id. */
    var groups: map<string, string>
    /** Key names of the create-key-pair requests received, oldest first. */
    var keyCreateRequests: seq<string>
    /** Group names of the create-security-group requests received, oldest first. */
    var groupCreateRequests: seq<string>

    constructor (keyNames: set<string>, groups: map<string, string>)
      ensures this.keyNames == keyNames && this.groups == groups
      ensures keyCreateRequests == [] && groupCreateRequests == []
    {
      this.keyNames := keyNames;
      this.groups := groups;
      keyCreateRequests := [];
      groupCreateRequests := [];
    }

    function DescribeKeyPairs(request: DescribeKeyPairsRequest): Option<DescribeKeyPairsResult>
      reads this
    {
      KeyPairsReply(keyNames, request)
    }

    function DescribeSecurityGroups(request: DescribeSecurityGroupsRequest): Option<DescribeSecurityGroupsResult>
      reads this
    {
      GroupsReply(groups, request)
    }

    /**
     * Creates a key pair under a new name.  A name already held is refused
     * (null reply) and the table keeps a single key pair of that name.
     */
    method CreateKeyPair(request: CreateKeyPairRequest) returns (keyPair: Option<KeyPair>)
      modifies this
      ensures keyCreateRequests == old(keyCreateRequests) + [request.keyName]
      ensures keyNames == old(keyNames) + {request.keyName}
      ensures keyPair == if request.keyName in old(keyNames) then None else Some(KeyPair(request.keyName))
      ensures groups == old(groups) && groupCreateRequests == old(groupCreateRequests)
    {
      keyCreateRequests := keyCreateRequests + [request.keyName];
      if request.keyName in keyNames {
        keyPair := None;
      } else {
        keyNames := keyNames + {request.keyName};
        keyPair := Some(KeyPair(request.keyName));
      }
    }

    /**
     * Creates a security group under a new name, with the id the provider
     * assigns (assignedId; None when the provider answers null).  A name already
     * held is refused (null reply) and the table keeps its group.
     */
    method CreateSecurityGroup(request: CreateSecurityGroupRequest, assignedId: Option<string>)
      returns (result: Option<CreateSecurityGroupResult>)
      modifies this
      ensures groupCreateRequests == old(groupCreateRequests) + [request.groupName]
      ensures result == if assignedId.Some? && request.groupName !in old(groups)
                        then Some(CreateSecurityGroupResult(assignedId.value)) else None
      ensures groups == if result.Some? then old(groups)[request.groupName := result.value.groupId] else old(groups)
      ensures keyNames == old(keyNames) && keyCreateRequests == old(keyCreateRequests)
    {
      groupCreateRequests := groupCreateRequests + [request.groupName];
      if assignedId.Some? && request.groupName !in groups {
        groups := groups[request.groupName := assignedId.value];
        result := Some(CreateSecurityGroupResult(assignedId.value));
      } else {
        result := None;
      }
    }
  }
}
