/**
 * The EC2 wrapper class: the first-element-or-null getters, the two state
 * classifiers, and the bounded polling waiters behind startInstance and
 * stopInstance.  Every reply of the EC2 client is a parameter: the getters
 * take the client's reply, the waiters take the reply to the start or stop
 * call and the replies to the successive describe calls, in the order the
 * loop issues them.
 */
module Ec2 {
  import opened Wrappers
  import opened Sdk

  /** The retry budget of both waiters. */
  const MaxRetries: nat := 50

  // ---------------------------------------------------------------------
  // State classification
  // ---------------------------------------------------------------------

  /** The instance-state names EC2 documents, and Unknown for a missing or other name. */
  datatype Label = Pending | Running | ShuttingDown | Terminated | Stopping | Stopped | Unknown

  /** Reference classification of a (nullable) state into EC2's closed set of names. */
  function Classify(s: Option<InstanceState>): Label
  {
    if s.None? || s.value.name.None? then Unknown
    else
      var n := s.value.name.value;
      if n == "pending" then Pending
      else if n == "running" then Running
      else if n == "shutting-down" then ShuttingDown
      else if n == "terminated" then Terminated
      else if n == "stopping" then Stopping
      else if n == "stopped" then Stopped
      else Unknown
  }

  /** isRunning: a non-null state whose name is "running". */
  predicate IsRunning(s: Option<InstanceState>)
    ensures IsRunning(s) <==> Classify(s) == Running
  {
    s.Some? && s.value.name == Some("running")
  }

  /** isStopped: a non-null state whose name is "stopped". */
  predicate IsStopped(s: Option<InstanceState>)
    ensures IsStopped(s) <==> Classify(s) == Stopped
  {
    s.Some? && s.value.name == Some("stopped")
  }

  /** The two classifiers never agree on a state. */
  lemma ClassifiersExclusive(s: Option<InstanceState>)
    ensures !(IsRunning(s) && IsStopped(s))
  {
  }

  // ---------------------------------------------------------------------
  // First-element-or-null getters
  // ---------------------------------------------------------------------

  /** get(0) of a list behind the null and size checks: null when the list is null or empty. */
  function FirstOrNull<T>(list: JList<T>): Option<T>
  {
    if list.None? || |list.value| == 0 then None else list.value[0]
  }

  /** launchInstance: the first instance of the reservation, or null when any guard fails. */
  function LaunchInstance(result: Option<RunInstancesResult>): (r: Option<Instance>)
    ensures result.None? ==> r.None?
    ensures result.Some? && result.value.reservation.None? ==> r.None?
    ensures result.Some? && result.value.reservation.Some? ==>
              r == FirstOrNull(result.value.reservation.value.instances)
  {
    if result.None? then None
    else if result.value.reservation.None? then None
    else if result.value.reservation.value.instances.None? then None
    else if |result.value.reservation.value.instances.value| == 0 then None
    else result.value.reservation.value.instances.value[0]
  }

  /** The describe request getKeyPairInfo builds for one key name. */
  function KeyPairsRequest(keyName: string): DescribeKeyPairsRequest
  {
    DescribeKeyPairsRequest([keyName])
  }

  /** getKeyPairInfo: the first key pair of the reply, or null when any guard fails. */
  function GetKeyPairInfo(result: Option<DescribeKeyPairsResult>): (r: Option<KeyPairInfo>)
    ensures result.None? ==> r.None?
    ensures result.Some? ==> r == FirstOrNull(result.value.keyPairs)
  {
    if result.None? then None
    else if result.value.keyPairs.None? then None
    else if |result.value.keyPairs.value| == 0 then None
    else result.value.keyPairs.value[0]
  }

  /** The describe request getSecurityGroup builds; the argument goes in as a group NAME. */
  function SecurityGroupsRequest(groupName: string): DescribeSecurityGroupsRequest
  {
    DescribeSecurityGroupsRequest([groupName])
  }

  /** getSecurityGroup: the first group of the reply, or null when any guard fails. */
  function GetSecurityGroup(result: Option<DescribeSecurityGroupsResult>): (r: Option<SecurityGroup>)
    ensures result.None? ==> r.None?
    ensures result.Some? ==> r == FirstOrNull(result.value.securityGroups)
  {
    if result.Some? && result.value.securityGroups.Some? && |result.value.securityGroups.value| > 0 then
      result.value.securityGroups.value[0]
    else
      None
  }

  /** The describe request getInstance builds for one instance id. */
  function InstancesRequest(instanceId: string): DescribeInstancesRequest
  {
    DescribeInstancesRequest([instanceId])
  }

  /**
   * What getInstance needs to run without a null dereference: it never
   * null-checks the reservations list, nor the instance list of the first
   * reservation.
   */
  predicate DescribeReadable(result: Option<DescribeInstancesResult>)
  {
    result.Some? ==>
      && result.value.reservations.Some?
      && (|result.value.reservations.value| > 0 && result.value.reservations.value[0].Some? ==>
            result.value.reservations.value[0].value.instances.Some?)
  }

  /** getInstance: the first instance of the first reservation, or null when a guard fails. */
  function GetInstance(result: Option<DescribeInstancesResult>): (r: Option<Instance>)
    requires DescribeReadable(result)
    ensures result.None? ==> r.None?
    ensures result.Some? ==>
              r == match FirstOrNull(result.value.reservations)
                   case None => None
                   case Some(reservation) => FirstOrNull(reservation.instances)
  {
    if result.None? || |result.value.reservations.value| == 0 then None
    else
      var reservation := result.value.reservations.value[0];
      if reservation.None? || |reservation.value.instances.value| == 0 then None
      else reservation.value.instances.value[0]
  }

  // ---------------------------------------------------------------------
  // The polling loop
  // ---------------------------------------------------------------------

  /** Which classifier a waiter tests: isRunning for start, isStopped for stop. */
  datatype Goal = AwaitRunning | AwaitStopped

  predicate Reached(goal: Goal, s: Option<InstanceState>)
  {
    match goal
    case AwaitRunning => IsRunning(s)
    case AwaitStopped => IsStopped(s)
  }

  /**
   * The state one describe reply yields to the loop (`getInstance(...).getState()`),
   * or None when the loop could not read it: getInstance would dereference a
   * null list, or it returns a null instance.
   */
  function Observe(d: Option<DescribeInstancesResult>): (r: Option<Option<InstanceState>>)
    ensures r.Some? <==>
              && d.Some? && d.value.reservations.Some? && |d.value.reservations.value| > 0
              && d.value.reservations.value[0].Some?
              && d.value.reservations.value[0].value.instances.Some?
              && |d.value.reservations.value[0].value.instances.value| > 0
              && d.value.reservations.value[0].value.instances.value[0].Some?
    ensures r.Some? ==> r.value == d.value.reservations.value[0].value.instances.value[0].value.state
  {
    if DescribeReadable(d) && GetInstance(d).Some? then Some(GetInstance(d).value.state) else None
  }

  /** The describe reply shows the goal state. */
  predicate Hit(d: Option<DescribeInstancesResult>, goal: Goal)
  {
    Observe(d).Some? && Reached(goal, Observe(d).value)
  }

  /** The index of the first reply that shows the goal, or |ds| when none does. */
  function FirstHit(ds: seq<Option<DescribeInstancesResult>>, goal: Goal): (k: nat)
    ensures k <= |ds|
    ensures forall i | 0 <= i < k :: !Hit(ds[i], goal)
    ensures k < |ds| ==> Hit(ds[k], goal)
  {
    if |ds| == 0 then 0
    else if Hit(ds[0], goal) then 0
    else 1 + FirstHit(ds[1..], goal)
  }

  /** A position with no earlier hit and a hit there (or the end) is the first hit. */
  lemma FirstHitUnique(ds: seq<Option<DescribeInstancesResult>>, goal: Goal, k: nat)
    requires k <= |ds|
    requires forall i | 0 <= i < k :: !Hit(ds[i], goal)
    requires k < |ds| ==> Hit(ds[k], goal)
    ensures FirstHit(ds, goal) == k
  {
  }

  /** Number of sleeps the loop performs: one per reply before the first hit, within the budget. */
  function SleepCount(ds: seq<Option<DescribeInstancesResult>>, goal: Goal): (n: nat)
    requires |ds| >= MaxRetries
    ensures n <= MaxRetries
  {
    FirstHit(ds[..MaxRetries], goal)
  }

  /** Number of describe calls the loop performs: up to and including the first hit, within the budget. */
  function DescribeCount(ds: seq<Option<DescribeInstancesResult>>, goal: Goal): (n: nat)
    requires |ds| >= MaxRetries
    ensures 1 <= n <= MaxRetries
  {
    if SleepCount(ds, goal) < MaxRetries then SleepCount(ds, goal) + 1 else MaxRetries
  }

  /**
   * The loop can run to its end: the provider answers each of the possible
   * describe calls, and every reply the loop consumes yields a non-null instance.
   */
  predicate PollReady(ds: seq<Option<DescribeInstancesResult>>, goal: Goal)
  {
    |ds| >= MaxRetries && forall i | 0 <= i < DescribeCount(ds, goal) :: Observe(ds[i]).Some?
  }

  /** Once polling starts there is at least one describe, at most MaxRetries, and one sleep fewer than describes unless the budget ran out. */
  lemma PollBounded(ds: seq<Option<DescribeInstancesResult>>, goal: Goal)
    requires |ds| >= MaxRetries
    ensures 1 <= DescribeCount(ds, goal) <= MaxRetries
    ensures SleepCount(ds, goal) <= MaxRetries
    ensures SleepCount(ds, goal) == DescribeCount(ds, goal) - 1 || SleepCount(ds, goal) == DescribeCount(ds, goal) == MaxRetries
  {
  }

  /** The first goal state at index k < MaxRetries stops the loop after k+1 describes and k sleeps. */
  lemma PollStopsAtFirstHit(ds: seq<Option<DescribeInstancesResult>>, goal: Goal, k: nat)
    requires |ds| >= MaxRetries && k < MaxRetries
    requires Hit(ds[k], goal)
    requires forall i | 0 <= i < k :: !Hit(ds[i], goal)
    ensures DescribeCount(ds, goal) == k + 1
    ensures SleepCount(ds, goal) == k
  {
  }

  /** A goal never seen within the budget exhausts it: exactly MaxRetries describes and sleeps. */
  lemma PollExhausts(ds: seq<Option<DescribeInstancesResult>>, goal: Goal)
    requires |ds| >= MaxRetries
    requires forall i | 0 <= i < MaxRetries :: !Hit(ds[i], goal)
    ensures DescribeCount(ds, goal) == MaxRetries
    ensures SleepCount(ds, goal) == MaxRetries
  {
  }

  /**
   * The retry loop shared by startInstance and stopInstance: describe, test
   * the goal, break on it, otherwise sleep and count the retry.  It returns
   * the describe requests it issued, in order, and the number of sleeps.
   */
  method Poll(instanceId: string, goal: Goal, ds: seq<Option<DescribeInstancesResult>>)
    returns (polls: seq<DescribeInstancesRequest>, sleeps: nat)
    requires PollReady(ds, goal)
    ensures |polls| == DescribeCount(ds, goal)
    ensures sleeps == SleepCount(ds, goal)
    ensures forall i | 0 <= i < |polls| :: polls[i] == InstancesRequest(instanceId)
  {
    polls, sleeps := [], 0;
    var retryCount := 0;
    while retryCount < MaxRetries
      invariant 0 <= retryCount <= MaxRetries
      invariant retryCount <= SleepCount(ds, goal)
      invariant |polls| == retryCount && sleeps == retryCount
      invariant forall i | 0 <= i < |polls| :: polls[i] == InstancesRequest(instanceId)
    {
      assert ds[..MaxRetries][retryCount] == ds[retryCount];
      polls := polls + [InstancesRequest(instanceId)];
      var instance := GetInstance(ds[retryCount]);
      if Reached(goal, instance.value.state) {
        break;
      }
      sleeps := sleeps + 1;
      retryCount := retryCount + 1;
    }
  }

  // ---------------------------------------------------------------------
  // The waiters
  // ---------------------------------------------------------------------

  /** The provider reported at least one state change. */
  predicate Acknowledged(changes: JList<InstanceStateChange>)
  {
    changes.Some? && |changes.value| > 0
  }

  /** The waiter reads getCurrentState() of the first change without a null check. */
  predicate FirstChangeReadable(changes: JList<InstanceStateChange>)
  {
    Acknowledged(changes) ==> changes.value[0].Some?
  }

  /** The first state change already shows the goal: the waiter returns true at once. */
  predicate ReachedAtOnce(changes: JList<InstanceStateChange>, goal: Goal)
    requires FirstChangeReadable(changes)
  {
    Acknowledged(changes) && Reached(goal, changes.value[0].value.currentState)
  }

  /** The waiter enters its retry loop. */
  predicate MustPoll(changes: JList<InstanceStateChange>, goal: Goal)
    requires FirstChangeReadable(changes)
  {
    Acknowledged(changes) && !Reached(goal, changes.value[0].value.currentState)
  }

  function StartingInstances(reply: Option<StartInstancesResult>): JList<InstanceStateChange>
  {
    if reply.None? then None else reply.value.startingInstances
  }

  function StoppingInstances(reply: Option<StopInstancesResult>): JList<InstanceStateChange>
  {
    if reply.None? then None else reply.value.stoppingInstances
  }

  /**
   * startInstance: sends a start request for the one id, returns true only when
   * the immediate reply already says running, and otherwise polls and returns
   * false, whether the loop saw running or used up its retries.
   */
  method StartInstance(instanceId: string, reply: Option<StartInstancesResult>, ds: seq<Option<DescribeInstancesResult>>)
    returns (started: bool, request: StartInstancesRequest, polls: seq<DescribeInstancesRequest>, sleeps: nat)
    requires FirstChangeReadable(StartingInstances(reply))
    requires MustPoll(StartingInstances(reply), AwaitRunning) ==> PollReady(ds, AwaitRunning)
    ensures request.instanceIds == [instanceId]
    ensures !Acknowledged(StartingInstances(reply)) ==> !started && polls == [] && sleeps == 0
    ensures started <==> ReachedAtOnce(StartingInstances(reply), AwaitRunning)
    ensures started ==> polls == [] && sleeps == 0
    ensures MustPoll(StartingInstances(reply), AwaitRunning) ==>
              && !started
              && |polls| == DescribeCount(ds, AwaitRunning)
              && sleeps == SleepCount(ds, AwaitRunning)
    ensures forall i | 0 <= i < |polls| :: polls[i] == InstancesRequest(instanceId)
  {
    var instances: seq<string> := [];
    instances := instances + [instanceId];
    request := StartInstancesRequest(instances);
    polls, sleeps := [], 0;
    if reply.None? { return false, request, polls, sleeps; }
    if reply.value.startingInstances.None? { return false, request, polls, sleeps; }
    if |reply.value.startingInstances.value| == 0 { return false, request, polls, sleeps; }
    var stateChange := reply.value.startingInstances.value[0].value;
    if IsRunning(stateChange.currentState) { return true, request, polls, sleeps; }
    polls, sleeps := Poll(instanceId, AwaitRunning, ds);
    started := false;
  }

  /**
   * stopInstance: the same as startInstance, with the stopping-instances list
   * of the reply and isStopped in place of isRunning.
   */
  method StopInstance(instanceId: string, reply: Option<StopInstancesResult>, ds: seq<Option<DescribeInstancesResult>>)
    returns (stopped: bool, request: StopInstancesRequest, polls: seq<DescribeInstancesRequest>, sleeps: nat)
    requires FirstChangeReadable(StoppingInstances(reply))
    requires MustPoll(StoppingInstances(reply), AwaitStopped) ==> PollReady(ds, AwaitStopped)
    ensures request.instanceIds == [instanceId]
    ensures !Acknowledged(StoppingInstances(reply)) ==> !stopped && polls == [] && sleeps == 0
    ensures stopped <==> ReachedAtOnce(StoppingInstances(reply), AwaitStopped)
    ensures stopped ==> polls == [] && sleeps == 0
    ensures MustPoll(StoppingInstances(reply), AwaitStopped) ==>
              && !stopped
              && |polls| == DescribeCount(ds, AwaitStopped)
              && sleeps == SleepCount(ds, AwaitStopped)
    ensures forall i | 0 <= i < |polls| :: polls[i] == InstancesRequest(instanceId)
  {
    var instances: seq<string> := [];
    instances := instances + [instanceId];
    request := StopInstancesRequest(instances);
    polls, sleeps := [], 0;
    if reply.None? { return false, request, polls, sleeps; }
    if reply.value.stoppingInstances.None? { return false, request, polls, sleeps; }
    if |reply.value.stoppingInstances.value| == 0 { return false, request, polls, sleeps; }
    var stateChange := reply.value.stoppingInstances.value[0].value;
    if IsStopped(stateChange.currentState) { return true, request, polls, sleeps; }
    polls, sleeps := Poll(instanceId, AwaitStopped, ds);
    stopped := false;
  }
}
