# aws-starter-kit: the EC2 wrapper and its example workflow, in Dafny

The starter kit wraps the AWS EC2 client in one Java class, `EC2`. Most of its
methods make a single client call. This model covers the parts that have real
control flow:

- **The EC2 getters.** `launchInstance`, `getKeyPairInfo`, `getSecurityGroup`
  and `getInstance` each run a chain of null and empty-list guards, then
  return `get(0)` or null.
- **The state classifiers** `isRunning` and `isStopped`.
- **The two waiters.** `startInstance` and `stopInstance` send the state-change
  request and check the immediate reply. A null reply, a null list or an empty
  list gives false with no describe call. If the reply lists a first state
  change and that change does not already show the target state, they poll
  with describe calls. After each
  describe that does not show the target state they sleep for 5000 ms, the last
  one included. They stop after at most 50 retries.
- **The create-or-reuse flows** of the example workflow (`EC2Test`):
  `createSecurityGroup`, `createKeyPair`, and `basic()`. In `basic()`, the stop
  runs only when the start reported true.

Every reply of the EC2 client is an input to the model:
- the getters take the reply;
- the waiters take the reply to start or stop, and a sequence holding the
  describe replies in the order the loop asks for them;
- the workflow takes a `Cloud.Provider` object. It holds the account's set of
  key-pair names and its security groups (a map from group name to id). It
  also logs every create request it receives.

Java `null` is `Option.None`. A Java list that may be null and may hold nulls
is an `Option<seq<Option<T>>>` (`Sdk.JList`). Sleeps are a counter. Describe
calls are the list of describe requests issued.

The model follows the code as written, including three behaviours that look
unintended:

- **The waiters return false after every poll.** They return `true` only when
  the immediate reply already shows the target state. Once the loop is
  entered, the result is `false`, whether the loop broke on the target state
  or used up its 50 retries (`Ec2.StartInstance`, `Ec2.StopInstance`).
- **The existence check in `createSecurityGroup` is inverted.** When
  `doesSecurityGroupExists` answers false, the flow only looks the group up.
  When it answers true, the flow sends a create request. After creating, it
  passes the new group *id* to `getSecurityGroup`, which sends it as a group
  *name*. With a truthful existence oracle the flow therefore never yields a
  group (`Ec2Test.CreateSecurityGroup`, last ensures but one).
- **`createKeyPair` returns the lookup made before creating.** On the path
  that creates a key pair, it returns null
  (`Ec2Test.CreateKeyPair`).

The polling helpers work on the replies:
- `Ec2.FirstHit` gives the index of the first describe reply that shows the
  target state;
- `Ec2.DescribeCount` and `Ec2.SleepCount` give how many describe calls and
  sleeps the loop makes;
- `Ec2.Poll` is the loop itself, proved against those two functions.

The lemmas state the bounds:
- at most 50 describe calls and at most 50 sleeps;
- a first hit at index k < 50 means exactly k+1 describe calls and k sleeps;
- when the budget runs out, exactly 50 of each.

`Ec2.Classify` maps a state onto EC2's documented state names. It is an
independent reference for the classifiers.

Files: `wrappers.dfy` (Option), `sdk.dfy` (request and reply shapes),
`ec2.dfy` (the `EC2` class), `cloud.dfy` (the provider), `ec2_test.dfy` (the
example workflow).

## Model

| member | source | states |
|---|---|---|
| Ec2.IsRunning | src/main/java/com/mickoo/aws/starterkit/EC2.java:84-87 | true exactly when the state classifies as running: a non-null state named "running" |
| Ec2.IsStopped | src/main/java/com/mickoo/aws/starterkit/EC2.java:89-92 | true exactly when the state classifies as stopped: a non-null state named "stopped" |
| Ec2.ClassifiersExclusive | src/main/java/com/mickoo/aws/starterkit/EC2.java:84-92 | isRunning and isStopped never both hold of one state |
| Ec2.LaunchInstance | src/main/java/com/mickoo/aws/starterkit/EC2.java:42-49 | null when the reply, its reservation, or its instance list is null, or that list is empty; otherwise the first instance |
| Ec2.GetKeyPairInfo | src/main/java/com/mickoo/aws/starterkit/EC2.java:145-155 | null when the reply or its key-pair list is null, or the list is empty; otherwise the first key pair |
| Ec2.GetSecurityGroup | src/main/java/com/mickoo/aws/starterkit/EC2.java:157-167 | null when the reply or its group list is null, or the list is empty; otherwise the first group |
| Ec2.GetInstance | src/main/java/com/mickoo/aws/starterkit/EC2.java:189-200 | requires the lists it never null-checks to be non-null; null when the reply is null, has no reservations, or its first reservation is null or empty; otherwise that reservation's first instance |
| Ec2.Observe | src/main/java/com/mickoo/aws/starterkit/EC2.java:69-70 | a describe reply yields a state to the loop exactly when the reply, its reservation list, a first reservation, its instance list and a first instance are all present; the state is that first instance's state |
| Ec2.FirstHit | src/main/java/com/mickoo/aws/starterkit/EC2.java:68-72 | index of the first reply that shows the goal state: no earlier reply does, and the reply there does (or none does) |
| Ec2.FirstHitUnique | src/main/java/com/mickoo/aws/starterkit/EC2.java:68-72 | any index with no earlier hit and a hit there (or the end) is the first hit |
| Ec2.SleepCount | src/main/java/com/mickoo/aws/starterkit/EC2.java:65-79 | the loop sleeps at most MaxRetries (50) times |
| Ec2.DescribeCount | src/main/java/com/mickoo/aws/starterkit/EC2.java:65-79 | once the loop is entered it makes between 1 and 50 describe calls |
| Ec2.PollBounded | src/main/java/com/mickoo/aws/starterkit/EC2.java:65-79 | at least 1 and at most 50 describe calls, at most 50 sleeps, and one sleep fewer than describes unless the budget ran out |
| Ec2.PollStopsAtFirstHit | src/main/java/com/mickoo/aws/starterkit/EC2.java:68-72 | a first goal state at index k < 50 stops the loop after exactly k+1 describe calls and k sleeps (the break precedes the sleep) |
| Ec2.PollExhausts | src/main/java/com/mickoo/aws/starterkit/EC2.java:65-79 | a goal not seen in the first 50 replies gives exactly 50 describe calls and 50 sleeps |
| Ec2.Poll | src/main/java/com/mickoo/aws/starterkit/EC2.java:65-79 | the loop issues DescribeCount describe requests, all for the instance id, and SleepCount sleeps |
| Ec2.StartInstance | src/main/java/com/mickoo/aws/starterkit/EC2.java:52-82 | start request for the one id; false with no describe or sleep when the reply or its list is null or the list is empty; true iff the first change is already running, then with no describe or sleep; after polling always false with the loop's counts |
| Ec2.StopInstance | src/main/java/com/mickoo/aws/starterkit/EC2.java:95-127 | the same as StartInstance with the stopping-instances list and isStopped |
| Cloud.KnownKeyPairs | src/main/java/com/mickoo/aws/starterkit/EC2.java:150 | the provider's describe-key-pairs answer holds only requested names it knows, one record per requested name when it knows them all |
| Cloud.KnownGroups | src/main/java/com/mickoo/aws/starterkit/EC2.java:162 | the provider's describe-security-groups answer holds only requested groups of its table with their ids, and is empty when no requested name is a group name |
| Cloud.KeyPairLookup | src/main/java/com/mickoo/aws/starterkit/EC2.java:145-155 | getKeyPairInfo over the provider's reply finds the key pair exactly when its name is in the table |
| Cloud.GroupLookup | src/main/java/com/mickoo/aws/starterkit/EC2.java:157-167 | getSecurityGroup over the provider's reply finds the group exactly when the requested name is a group name |
| Cloud.Provider.CreateKeyPair | src/main/java/com/mickoo/aws/starterkit/EC2.java:138-143 | every request is logged; a new name is added to the table and returned as a key pair, an existing name is refused (null) |
| Cloud.Provider.CreateSecurityGroup | src/main/java/com/mickoo/aws/starterkit/EC2.java:130-132 | every request is logged; a new name is stored with the assigned id and the id is returned, an existing name or a null answer leaves the table unchanged and returns null |
| Ec2Test.CreateSecurityGroup | src/test/java/com/mickoo/aws/starterkit/EC2Test.java:62-71 | check false: no create, lookup by name; check true: exactly one create request named my-security-group, null if the create answer is null, else lookup by the returned id as a name; with a truthful check the result is always null |
| Ec2Test.CreateKeyPair | src/test/java/com/mickoo/aws/starterkit/EC2Test.java:73-84 | returns the initial lookup unchanged (the record if the key exists, null otherwise); one create request exactly when that lookup was null; afterwards the key exists |
| Ec2Test.CreateKeyPairTwice | src/test/java/com/mickoo/aws/starterkit/EC2Test.java:73-84 | two calls in a row send at most one create request in all (exactly one when the key was absent) and the second call returns the key pair; the group table and its create log are unchanged |
| Ec2Test.Basic | src/test/java/com/mickoo/aws/starterkit/EC2Test.java:41-60 | a stop request is sent exactly when the start returned true; start and stop requests name the launched instance's id; the launch request names my-key-pair and my-security-group; the create requests and the new key and group tables are those of the two flows |

## Left out

- Client construction, credential providers and the endpoint string (EC2.java:26-39): SDK setup without logic.
- `addInboundRule`, `addOutboundRule`, `allocateElasticIP`, `associateElasticIP` (EC2.java:170-187): single client calls with no logic. The pass-throughs `createSecurityGroup` and `createKeyPair` (EC2.java:130-143) appear only as the provider's create methods.
- `doesSecurityGroupExists` calls the SDK helper `SecurityGroupUtils.doesSecurityGroupExist`, which is foreign code. Its answer is a boolean parameter.
- `Thread.sleep(5000)` and the swallowed `InterruptedException`: each sleep is a counter increment. Timing and interruption are not modelled.
- Writing the key material to `~/.ssh` and the logging in `createKeyPair` (EC2Test.java:77-81): I/O.
- Cloud.KnownKeyPairs, Cloud.KnownGroups: a describe by an unknown key or group name is answered with an empty list. EC2 answers it with InvalidKeyPair.NotFound / InvalidGroup.NotFound, which the SDK throws. Under that behaviour the create path of `createKeyPair` could not be reached, and neither could the lookup-by-id of `createSecurityGroup` unless the id is also a group name. The model assumes the empty-list answer that the kit's null and size checks anticipate.
- Exceptions raised by the SDK are not modelled. The provider refusing a duplicate name (the SDK throws) is modelled as a null reply that leaves the tables unchanged.
- Null dereferences become `requires` clauses instead of exceptions:
  - the unchecked reservations and instance lists in `getInstance`;
  - the null instance in the polling loops (EC2.java:69-70, 113-114);
  - a null first state change;
  - a null launched instance in `basic()`.

  The key material of a newly created key pair is read without a null check
  (EC2Test.java:78). Under the provider model that key pair is never null
  (`Ec2Test.CreateKeyPair`, an assertion on the create path).
- Ec2.Poll, Ec2.StartInstance, Ec2.StopInstance: the describe-reply sequence must hold an answer for each of the 50 possible calls. Replies after the one that stops the loop are never read.
- The describe replies the waiters read are not tied to the provider's tables. The provider keeps no instance table, and instance states are arbitrary inputs.
- The instance-state code and pagination are not modelled. Of the requests, only the fields the kit sets are kept: names and ids, and for the run request of `basic()` (the constant `Ec2Test.MyLaunchRequest`) image id, instance type, min and max count, key name and security groups.
- The waiters return only a boolean. The code has no cancellable wait, no rejection on a terminated state, no abort after repeated describe failures, and no distinct reached and exhausted outcomes, so the model has none either.
