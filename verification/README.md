# DocumentDB replica autoscaler — Dafny model

This project models the decision logic of a Lambda-hosted autoscaler for an
Amazon DocumentDB cluster. The handler receives a CloudWatch alarm
notification through SNS. It then adds or removes read replicas so that the
replica count stays between a configured `min_capacity` and `max_capacity`.

The `DocumentDB` object describes the cluster and its instances once, in its
constructor, and never refreshes that description. So each invocation works
on one fixed description, and everything it decides is a deterministic
function of:

- the configuration `Config(clusterId, minCapacity, maxCapacity)`;
- the description, an immutable `Snapshot`. It holds the cluster status,
  the cluster members (identifier, writer flag) and the instances
  (identifier, status, class). The value is `None` when the describe calls
  raise;
- the notification as read from the SNS record: `Unreadable` when reading it
  raises, otherwise the value of `NewStateValue`, which may be absent;
- `suffixes(k)`, the uuid hex drawn for the k-th request;
- `rejected`, which is `Some(k)` when the control plane raises on the k-th
  request.

Files:

- `options.dfy`: module `Options`, the `Option` datatype.
- `autoscaling.dfy`: module `Autoscaling`, covering `src/autoscaling.py`.
  - The snapshot datatypes.
  - The queries: `IsModifying`, `ReplicaCount` and `PrimaryInstanceClass`.
  - The two guarded mutators, `AddReplica` and `RemoveReplica`. Each
    returns `Option<Action>`: `None` when it refuses, otherwise the one
    create-instance or delete-instance request it sends.
- `controller.dfy`: module `Controller`, covering `src/index.py`.
  - `Handler` is the decision procedure as a function. It returns the
    mutator calls made, the requests sent, and how the invocation ended.
  - `HandleEvent`, `CatchUp` and `Respond` run the same procedure with the
    source's counting loop and `if`/`elif`. They are proved to agree with `Handler`.
  - The lemmas state the floor, alarm, failure and capacity-bound
    properties.

The model follows the code, including these behaviours:

- `add_replica` refuses at or above `max_capacity`.
- `remove_replica` refuses at or below `min_capacity`. It also refuses while
  an instance is not "available", because its default is
  `ignore_status=False`.
- On "ALARM", the handler calls `add_replica()` with its default
  `ignore_status=True`. A busy instance therefore never blocks a scale-out;
  only the ceiling and a cluster in state "creating" do.
- Rejections are not swallowed. A failed create or delete raises out of the
  mutator, and the handler's `except` clause ends the invocation, even in
  the floor loop.

## Model

| member | source | states |
|---|---|---|
| Autoscaling.IsModifying | src/autoscaling.py:59-73 | true iff some instance's status is not "available"; false for an empty list |
| Autoscaling.ReplicaCount | src/autoscaling.py:75-85 | the length of `instances[1:]`: 0 for an empty list, otherwise one less than the number of instances |
| Autoscaling.ServedClass | src/autoscaling.py:102-104 | None iff the member names no listed instance as writer; otherwise the class of the first instance it names |
| Autoscaling.WriterClass | src/autoscaling.py:96-105 | None iff no writer member names a listed instance; otherwise the class found at the first writer/instance pair in member-then-instance order |
| Autoscaling.PrimaryInstanceClass | src/autoscaling.py:87-107 | the class of the instance at the first writer match, or "db.r5.large" when no writer member names a listed instance |
| Autoscaling.Prefix8 | src/autoscaling.py:138 | Python's `[0:8]`: the first eight characters of the hex string, or the whole string when it is no longer than eight |
| Autoscaling.ReplicaId | src/autoscaling.py:138 | the new identifier starts with the cluster id and a dash, and adds at most eight characters |
| Autoscaling.AddReplica | src/autoscaling.py:109-141 | emits a request iff count < max, status is not "creating", and (ignore_status or no busy instance); that request creates in the cluster with the primary's class, engine "docdb" and the id built from the cluster id, a dash and the first eight characters of the given uuid hex, so at most nine characters longer than the cluster id |
| Autoscaling.AddIgnoringStatusNeverConsultsInstances | src/autoscaling.py:109-133 | with `ignore_status=True`, snapshots that differ only in instance statuses give the same result |
| Autoscaling.FirstReaderId | src/autoscaling.py:165-170 | None iff every member is a writer; otherwise the id of the first member that is not a writer |
| Autoscaling.RemoveReplica | src/autoscaling.py:144-170 | emits a request iff count > min, (ignore_status or no busy instance) and some member is not a writer; that request deletes the first non-writer member |
| Autoscaling.RemoveNeverTargetsWriter | src/autoscaling.py:165-170 | when member ids are unique, the deleted id belongs to no writer |
| Controller.Execute | src/index.py:30-53 | calls run in order and stop at the first rejected request; the calls made are a prefix of those planned; the run fails exactly when the rejected request index is reached |
| Controller.FloorCalls | src/index.py:28-33 | the floor loop makes exactly `deficit` calls, each `add_replica(ignore_status=True)` |
| Controller.AlarmCalls | src/index.py:41-49 | "ALARM" gives one `add_replica()` (ignore_status=True); "OK" gives one `remove_replica()` (ignore_status=False); any other or missing value gives no call |
| Controller.Plan | src/index.py:23-49 | below the floor, the floor calls; otherwise nothing when the notification cannot be read, else the alarm calls |
| Controller.Handler | src/index.py:16-53 | ends on the bounds check iff min > max, with no call; no call when the describe fails; at or above the floor, an unreadable notification aborts with no call and no request; any aborted run with requests was rejected at its last request |
| Controller.CatchUp | src/index.py:28-36 | the counting loop (missing_replicas decreasing to 0, leaving at the first exception) equals `Execute` of the floor calls |
| Controller.HandleEvent | src/index.py:16-53 | the handler written with its loop produces exactly the invocation `Handler` describes |
| Controller.Respond | src/index.py:41-49 | the `if`/`elif` on the alarm state makes exactly the calls `AlarmCalls` plans |
| Controller.FailureIsFinal | src/index.py:51-53 | after a rejected request, later calls change nothing |
| Controller.FloorAllRefused | src/index.py:28-33 | when every `add_replica` call refuses, the floor loop sends nothing and runs all its calls without failing |
| Controller.FloorAllCreate | src/index.py:28-33 | when every `add_replica` call emits and nothing is rejected, n rounds send n requests, the k-th being what the k-th call returned |
| Controller.FloorStopsAtFailure | src/index.py:30-36 | leaving the floor loop at a rejection gives the same trace as the full count of rounds would |
| Controller.RejectionTruncates | src/index.py:51-53 | a rejection at request k leaves the first k+1 fault-free requests; the run fails iff the fault-free run sends more than k, and is otherwise the fault-free run |
| Controller.FloorPath | src/index.py:26-36 | below the floor with no rejection: exactly min - count `add_replica(ignore_status=True)` calls, a normal return, and min - count creates unless the cluster is "creating", in which case none |
| Controller.FloorIgnoresNotification | src/index.py:35-38 | below the floor, the result is the same for every notification: the message is never read |
| Controller.AlarmPath | src/index.py:38-49 | at or above the floor with no rejection: "ALARM" gives exactly [add(True)] and its request, "OK" gives exactly [remove(False)] and its request, anything else gives nothing |
| Controller.AtMostOneStep | src/index.py:41-49 | at or above the floor, at most one mutator call and one request |
| Controller.RejectionStopsInvocation | src/index.py:21-53 | under a rejection, the calls and requests are prefixes of the fault-free ones; the invocation aborts iff the rejected request would have been sent, and is otherwise identical |
| Controller.FloorWithinBounds | src/index.py:26-33 | below the floor, the requested change is between 0 and the deficit, whatever is rejected |
| Controller.StepWithinBounds | src/index.py:41-49 | at or above the floor, the one step never pushes the count past max or below min |
| Controller.KeepsWithinBounds | src/index.py:16-49 | one invocation never moves the count out of [min, max] when it starts inside; it never overshoots min from below, and never grows a count above max |

## Left out

- The boto3 client and its network calls are replaced by parameters:
  - the describe calls become `described`;
  - `create_db_instance` and `delete_db_instance` become emitted `Action`
    values, and their failure becomes `rejected`;
  - the responses the mutators return are ignored, as the handler ignores
    them.
- `uuid.uuid4()` is an opaque supply, `suffixes`. Only the Python `[0:8]`
  slice of it is modelled.
- Logging setup and log messages are not modelled. The three ways the
  handler returns `None` are kept apart as `Returned`, `ConfigRejected` and
  `Aborted`.
- Reading `min_capacity`, `max_capacity` and `cluster_identifier` from the
  environment, including the `int()` conversion, is not modelled. They are
  the fields of `Config`.
- JSON decoding of the SNS envelope is not modelled. It is reduced to the
  `Notification` values.
- `DBClusters[0]` is the only cluster considered: the snapshot holds one
  cluster. Lookups with `.get` are modelled as always finding their field:
  instance status, identifier and class are strings, and the writer flag is
  a boolean.
- Concurrent invocations and the cluster converging between invocations are
  not modelled. `KeepsWithinBounds` speaks of the count the requests ask
  for, not of the live count.
- Controller.KeepsWithinBounds: the bounds hold for the requested change
  measured from the stale count, not for the live cluster, because the
  snapshot is never refreshed.
