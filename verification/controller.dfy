/**
  The Lambda handler of the DocumentDB autoscaler (src/index.py).

  One invocation validates the capacity bounds, describes the cluster once,
  and then either tops the replica count up to the floor (ignoring the alarm)
  or takes at most one scale-out or scale-in step chosen by the alarm state.

  `Handler` is the decision procedure as a pure function; `HandleEvent` is
  the same procedure written with the source's counting loop, proved to agree
  with it. Outside effects become parameters:
  - `described`: the result of the describe calls, `None` when they raise;
  - `suffixes(k)`: the uuid hex drawn for the k-th request of the invocation;
  - `rejected`: `Some(k)` when the control plane raises on the k-th request.
*/
module Controller {
  import opened Options
  import opened Autoscaling

  const AlarmState := "ALARM"
  const OkState := "OK"

  /** A call of a `DocumentDB` mutator, with its `ignore_status` argument. */
  datatype Call = Add(ignoreStatus: bool) | Remove(ignoreStatus: bool)

  /** The SNS notification as the handler reads it: either reading the record
      raises, or it yields the value of `NewStateValue` (`None` when absent). */
  datatype Notification = Unreadable | Readable(newState: Option<string>)

  /** How the invocation ended: normally, on the bounds check, or in the
      exception handler. The handler returns `None` in all three cases. */
  datatype Ending = Returned | ConfigRejected | Aborted

  /** The calls made and the requests sent so far; `failed` once a request
      was rejected, after which nothing more happens. */
  datatype Trace = Trace(calls: seq<Call>, requests: seq<Action>, failed: bool)

  datatype Invocation = Invocation(calls: seq<Call>, requests: seq<Action>, ending: Ending)

  const Start := Trace([], [], false)

  /** Runs one mutator call against the snapshot. */
  function Perform(cfg: Config, s: Snapshot, c: Call, suffix: string): Option<Action> {
    match c
    case Add(ig) => AddReplica(cfg, s, ig, suffix)
    case Remove(ig) => RemoveReplica(cfg, s, ig)
  }

  /** What a mutator call returns, given how many requests the invocation
      has already sent (which picks the uuid a create would use). */
  type Mutators = (Call, nat) -> Option<Action>

  /** The mutators of one `DocumentDB` object built on snapshot `s`. */
  function Client(cfg: Config, s: Snapshot, suffixes: nat -> string): Mutators {
    (c: Call, sent: nat) => Perform(cfg, s, c, suffixes(sent))
  }

  /** One call: skipped once the trace has failed; otherwise recorded, and
      its request (if any) sent, failing when the control plane rejects it. */
  function Step(m: Mutators, t: Trace, c: Call, rejected: Option<nat>): Trace {
    if t.failed then t
    else
      match m(c, |t.requests|)
      case None => Trace(t.calls + [c], t.requests, false)
      case Some(a) => Trace(t.calls + [c], t.requests + [a], rejected == Some(|t.requests|))
  }

  /** Makes the calls in order, stopping at the first rejected request. */
  function Execute(m: Mutators, calls: seq<Call>, rejected: Option<nat>): (r: Trace)
    ensures r.calls <= calls
    ensures |r.requests| <= |r.calls|
    ensures !r.failed ==> r.calls == calls
    ensures r.failed <==> rejected.Some? && |r.requests| == rejected.value + 1
    ensures rejected.Some? ==> |r.requests| <= rejected.value + 1
  {
    if |calls| == 0 then Start
    else Step(m, Execute(m, calls[..|calls| - 1], rejected), calls[|calls| - 1], rejected)
  }

  /** The floor catch-up: `n` calls of `add_replica(ignore_status=True)`. */
  function FloorCalls(n: nat): (r: seq<Call>)
    ensures |r| == n
    ensures forall k :: 0 <= k < n ==> r[k] == Add(true)
  {
    if n == 0 then [] else FloorCalls(n - 1) + [Add(true)]
  }

  /** The alarm-driven step: `add_replica()` keeps its default
      `ignore_status=True`, `remove_replica()` its default `False`. */
  function AlarmCalls(state: Option<string>): (r: seq<Call>)
    ensures |r| <= 1
    ensures r == [Add(true)] <==> state == Some(AlarmState)
    ensures r == [Remove(false)] <==> state == Some(OkState)
    ensures r == [] <==> state != Some(AlarmState) && state != Some(OkState)
  {
    if state == Some(AlarmState) then [Add(true)]
    else if state == Some(OkState) then [Remove(false)]
    else []
  }

  function Finish(t: Trace): Invocation {
    Invocation(t.calls, t.requests, if t.failed then Aborted else Returned)
  }

  /** What the handler decides to call once the cluster is described: the
      floor catch-up when the stale count is below the floor, otherwise the
      alarm-driven step; `None` when reading the notification raises. */
  function Plan(cfg: Config, s: Snapshot, note: Notification): (r: Option<seq<Call>>)
    ensures ReplicaCount(s) < cfg.minCapacity ==> r == Some(FloorCalls(cfg.minCapacity - ReplicaCount(s)))
    ensures ReplicaCount(s) >= cfg.minCapacity ==> (r.None? <==> note.Unreadable?)
    ensures ReplicaCount(s) >= cfg.minCapacity && note.Readable? ==> r == Some(AlarmCalls(note.newState))
  {
    var count := ReplicaCount(s);
    if cfg.minCapacity > count then Some(FloorCalls(cfg.minCapacity - count))
    else
      match note
      case Unreadable => None
      case Readable(state) => Some(AlarmCalls(state))
  }

  /** `handler(event, context)`. */
  function Handler(cfg: Config, described: Option<Snapshot>, note: Notification,
                   suffixes: nat -> string, rejected: Option<nat>): (r: Invocation)
    ensures r.ending == ConfigRejected <==> cfg.minCapacity > cfg.maxCapacity
    ensures cfg.minCapacity > cfg.maxCapacity ==> r.calls == [] && r.requests == []
    ensures described.None? ==> r.calls == [] && r.requests == []
    ensures |r.requests| <= |r.calls|
    ensures r.ending == Aborted && |r.requests| > 0 ==> rejected == Some(|r.requests| - 1)
    ensures (&& cfg.minCapacity <= cfg.maxCapacity && described.Some? && note.Unreadable?
             && ReplicaCount(described.value) >= cfg.minCapacity)
            ==> r == Invocation([], [], Aborted)
  {
    if cfg.minCapacity > cfg.maxCapacity then Invocation([], [], ConfigRejected)
    else
      match described
      case None => Invocation([], [], Aborted)
      case Some(s) =>
        match Plan(cfg, s, note)
        case None => Invocation([], [], Aborted)
        case Some(calls) => Finish(Execute(Client(cfg, s, suffixes), calls, rejected))
  }

  /** The floor loop of the handler: `missing_replicas` counts down from
      `deficit`, one `add_replica(ignore_status=True)` per round, and an
      exception leaves the loop at once. */
  method CatchUp(m: Mutators, deficit: nat, rejected: Option<nat>) returns (t: Trace)
    ensures t == Execute(m, FloorCalls(deficit), rejected)
  {
    var missing := deficit;
    ghost var done := 0;
    t := Start;
    while missing > 0 && !t.failed
      invariant done + missing == deficit
      invariant t == Execute(m, FloorCalls(done), rejected)
      decreases missing
    {
      FloorRound(m, done, rejected);
      t := Step(m, t, Add(true), rejected);
      done := done + 1;
      missing := missing - 1;
    }
    if missing > 0 {
      FloorStopsAtFailure(m, done, deficit, rejected);
    } else {
      assert done == deficit;
    }
  }

  /** `handler` as written, with the floor catch-up as the source's loop. */
  method HandleEvent(cfg: Config, described: Option<Snapshot>, note: Notification,
                     suffixes: nat -> string, rejected: Option<nat>) returns (r: Invocation)
    ensures r == Handler(cfg, described, note, suffixes, rejected)
  {
    if cfg.minCapacity > cfg.maxCapacity {
      return Invocation([], [], ConfigRejected);
    }
    if described.None? {
      return Invocation([], [], Aborted);
    }
    var s := described.value;
    var docdb := Client(cfg, s, suffixes);
    var count := ReplicaCount(s);
    if cfg.minCapacity > count {
      var t := CatchUp(docdb, cfg.minCapacity - count, rejected);
      HandlerBelowFloor(cfg, s, note, suffixes, rejected);
      return Finish(t);
    }
    match note {
      case Unreadable =>
        return Invocation([], [], Aborted);
      case Readable(state) =>
        var t := Respond(docdb, state, rejected);
        HandlerAtFloor(cfg, s, state, suffixes, rejected);
        return Finish(t);
    }
  }

  /** Below the floor, the handler runs the floor calls. */
  lemma HandlerBelowFloor(cfg: Config, s: Snapshot, note: Notification, suffixes: nat -> string, rejected: Option<nat>)
    requires cfg.minCapacity <= cfg.maxCapacity
    requires ReplicaCount(s) < cfg.minCapacity
    ensures Handler(cfg, Some(s), note, suffixes, rejected)
         == Finish(Execute(Client(cfg, s, suffixes), FloorCalls(cfg.minCapacity - ReplicaCount(s)), rejected))
  {
    assert Plan(cfg, s, note) == Some(FloorCalls(cfg.minCapacity - ReplicaCount(s)));
  }

  /** At or above the floor, with the notification read, the handler runs
      the alarm calls. */
  lemma HandlerAtFloor(cfg: Config, s: Snapshot, state: Option<string>, suffixes: nat -> string, rejected: Option<nat>)
    requires cfg.minCapacity <= cfg.maxCapacity
    requires ReplicaCount(s) >= cfg.minCapacity
    ensures Handler(cfg, Some(s), Readable(state), suffixes, rejected)
         == Finish(Execute(Client(cfg, s, suffixes), AlarmCalls(state), rejected))
  {
  }

  /** The alarm dispatch: at most one mutator call, chosen by the state. */
  method Respond(m: Mutators, state: Option<string>, rejected: Option<nat>) returns (t: Trace)
    ensures t == Execute(m, AlarmCalls(state), rejected)
  {
    t := Start;
    if state == Some(AlarmState) {
      OneCall(m, Add(true), rejected);
      t := Step(m, t, Add(true), rejected);
    } else if state == Some(OkState) {
      OneCall(m, Remove(false), rejected);
      t := Step(m, t, Remove(false), rejected);
    }
  }

  /** A plan of one call is one step from the start. */
  lemma OneCall(m: Mutators, c: Call, rejected: Option<nat>)
    ensures Execute(m, [c], rejected) == Step(m, Start, c, rejected)
  {
    assert [c][..0] == [];
  }

  // ---------------------------------------------------------------------------
  // Lemmas about traces
  // ---------------------------------------------------------------------------

  lemma FloorCallsGrow(n: nat)
    ensures FloorCalls(n + 1)[..n] == FloorCalls(n)
    ensures FloorCalls(n + 1)[n] == Add(true)
  {
  }

  lemma FloorCallsSnoc(n: nat)
    ensures FloorCalls(n + 1) == FloorCalls(n) + [Add(true)]
  {
  }

  lemma FloorCallsSplit(m: nat, n: nat)
    ensures FloorCalls(m) + FloorCalls(n) == FloorCalls(m + n)
  {
  }

  /** Once a request has been rejected, later calls change nothing. */
  lemma {:induction false} FailureIsFinal(m: Mutators, calls: seq<Call>, more: seq<Call>, rejected: Option<nat>)
    requires Execute(m, calls, rejected).failed
    ensures Execute(m, calls + more, rejected) == Execute(m, calls, rejected)
    decreases |more|
  {
    if |more| == 0 {
      assert calls + more == calls;
    } else {
      var init := more[..|more| - 1];
      FailureIsFinal(m, calls, init, rejected);
      var all := calls + more;
      assert all[..|all| - 1] == calls + init;
      assert Execute(m, all, rejected) == Step(m, Execute(m, calls + init, rejected), all[|all| - 1], rejected);
    }
  }

  /** One more round of the floor loop is one more step of the trace. */
  lemma FloorRound(m: Mutators, done: nat, rejected: Option<nat>)
    ensures Execute(m, FloorCalls(done + 1), rejected) == Step(m, Execute(m, FloorCalls(done), rejected), Add(true), rejected)
  {
    FloorCallsGrow(done);
  }

  /** Leaving the floor loop at a rejection gives what running all of it
      would have. */
  lemma FloorStopsAtFailure(m: Mutators, done: nat, total: nat, rejected: Option<nat>)
    requires done <= total
    requires Execute(m, FloorCalls(done), rejected).failed
    ensures Execute(m, FloorCalls(total), rejected) == Execute(m, FloorCalls(done), rejected)
  {
    FloorCallsSplit(done, total - done);
    FailureIsFinal(m, FloorCalls(done), FloorCalls(total - done), rejected);
  }

  /** Floor calls that all refuse send nothing. */
  lemma {:induction false} FloorAllRefused(m: Mutators, n: nat)
    requires forall k: nat :: m(Add(true), k).None?
    ensures Execute(m, FloorCalls(n), None) == Trace(FloorCalls(n), [], false)
  {
    if n > 0 {
      FloorAllRefused(m, n - 1);
      FloorRound(m, n - 1, None);
      FloorCallsSnoc(n - 1);
    }
  }

  /** `t` is `n` floor calls that each sent what the mutator returned. */
  predicate CreatedEach(m: Mutators, t: Trace, n: nat) {
    && t.calls == FloorCalls(n)
    && !t.failed
    && |t.requests| == n
    && forall k :: 0 <= k < n ==> m(Add(true), k) == Some(t.requests[k])
  }

  /** One more emitting floor call, with nothing rejected, extends it. */
  lemma CreatedEachStep(m: Mutators, t: Trace, n: nat)
    requires CreatedEach(m, t, n)
    requires m(Add(true), n).Some?
    ensures CreatedEach(m, Step(m, t, Add(true), None), n + 1)
  {
    FloorCallsSnoc(n);
    var t' := Step(m, t, Add(true), None);
    assert t'.requests == t.requests + [m(Add(true), n).value];
    forall k | 0 <= k < n + 1
      ensures m(Add(true), k) == Some(t'.requests[k])
    {
      if k < n {
        assert t'.requests[k] == t.requests[k];
      }
    }
  }

  /** Floor calls that all emit send one request each, the k-th being what
      the k-th call returned, when nothing is rejected. */
  lemma {:induction false} FloorAllCreate(m: Mutators, n: nat)
    requires forall k: nat :: m(Add(true), k).Some?
    ensures CreatedEach(m, Execute(m, FloorCalls(n), None), n)
  {
    if n > 0 {
      FloorAllCreate(m, n - 1);
      ghost var t := Execute(m, FloorCalls(n - 1), None);
      assert CreatedEach(m, t, n - 1);
      FloorCreateRound(m, n - 1);
    }
  }

  lemma FloorCreateRound(m: Mutators, n: nat)
    requires CreatedEach(m, Execute(m, FloorCalls(n), None), n)
    requires m(Add(true), n).Some?
    ensures CreatedEach(m, Execute(m, FloorCalls(n + 1), None), n + 1)
  {
    FloorRound(m, n, None);
    CreatedEachStep(m, Execute(m, FloorCalls(n), None), n);
  }

  /** `t`, run with a rejection at request `k`, is `full`, the fault-free
      run of the same calls, cut short at that request: it fails exactly
      when `full` sent more than `k` requests, and then holds their first
      `k + 1`; otherwise the two are the same. */
  predicate CutAt(t: Trace, full: Trace, k: nat) {
    && (t.failed <==> k < |full.requests|)
    && (t.failed ==> t.requests == full.requests[..k + 1])
    && (!t.failed ==> t == full)
    && t.calls <= full.calls
  }

  /** One more call keeps a cut-short run cut short at the same request. */
  lemma CutAtStep(m: Mutators, t: Trace, full: Trace, c: Call, k: nat)
    requires !full.failed
    requires CutAt(t, full, k)
    ensures var full' := Step(m, full, c, None);
            CutAt(Step(m, t, c, Some(k)), full', k) && !full'.failed
  {
  }

  lemma {:induction false} RejectionTruncates(m: Mutators, calls: seq<Call>, k: nat)
    ensures CutAt(Execute(m, calls, Some(k)), Execute(m, calls, None), k)
    decreases |calls|
  {
    if |calls| > 0 {
      var init := calls[..|calls| - 1];
      RejectionTruncates(m, init, k);
      CutAtStep(m, Execute(m, init, Some(k)), Execute(m, init, None), calls[|calls| - 1], k);
    }
  }

  /** A plan of at most one call sends nothing, or the one request that
      call returns. */
  lemma SingleCall(m: Mutators, calls: seq<Call>, rejected: Option<nat>)
    requires |calls| <= 1
    ensures var t := Execute(m, calls, rejected);
            && t.calls == calls
            && (|calls| == 1 && m(calls[0], 0).None? ==> t.requests == [] && !t.failed)
            && (|calls| == 1 && m(calls[0], 0).Some? ==> t.requests == [m(calls[0], 0).value])
            && (|calls| == 0 ==> t.requests == [])
  {
    if |calls| == 1 {
      assert calls[..0] == [];
      assert Execute(m, calls, rejected) == Step(m, Start, calls[0], rejected);
    }
  }

  // ---------------------------------------------------------------------------
  // Lemmas about the handler
  // ---------------------------------------------------------------------------

  /** Below the ceiling, `add_replica(ignore_status=True)` creates a replica
      unless the cluster is being created. */
  lemma AddBelowCeiling(cfg: Config, s: Snapshot, suffix: string)
    requires ReplicaCount(s) < cfg.maxCapacity
    ensures AddReplica(cfg, s, true, suffix)
         == if s.clusterStatus == Creating then None
            else Some(CreateInstance(cfg.clusterId, ReplicaId(cfg.clusterId, suffix), PrimaryInstanceClass(s), Engine))
  {
  }

  /** Below the floor, and with nothing rejected, the handler makes exactly
      `min - count` calls of `add_replica(ignore_status=True)` and returns.
      The stale count stays below the ceiling, so each call sends a create
      with its own uuid, unless the cluster is still being created, when
      none does. */
  lemma FloorPath(cfg: Config, s: Snapshot, note: Notification, suffixes: nat -> string)
    requires cfg.minCapacity <= cfg.maxCapacity
    requires ReplicaCount(s) < cfg.minCapacity
    ensures var r := Handler(cfg, Some(s), note, suffixes, None);
            var deficit := cfg.minCapacity - ReplicaCount(s);
            && r.ending == Returned
            && r.calls == FloorCalls(deficit)
            && (s.clusterStatus == Creating ==> r.requests == [])
            && (s.clusterStatus != Creating ==>
                  |r.requests| == deficit
                  && forall k :: 0 <= k < deficit ==>
                       r.requests[k] == CreateInstance(cfg.clusterId, ReplicaId(cfg.clusterId, suffixes(k)),
                                                       PrimaryInstanceClass(s), Engine))
  {
    var deficit := cfg.minCapacity - ReplicaCount(s);
    var m := Client(cfg, s, suffixes);
    HandlerBelowFloor(cfg, s, note, suffixes, None);
    FloorClient(cfg, s, suffixes);
    if s.clusterStatus == Creating {
      FloorAllRefused(m, deficit);
    } else {
      FloorAllCreate(m, deficit);
    }
  }

  /** What each floor call returns when the stale count is below the ceiling. */
  lemma FloorClient(cfg: Config, s: Snapshot, suffixes: nat -> string)
    requires ReplicaCount(s) < cfg.maxCapacity
    ensures forall k: nat :: Client(cfg, s, suffixes)(Add(true), k)
                          == if s.clusterStatus == Creating then None
                             else Some(CreateInstance(cfg.clusterId, ReplicaId(cfg.clusterId, suffixes(k)),
                                                      PrimaryInstanceClass(s), Engine))
  {
    forall k: nat
      ensures Client(cfg, s, suffixes)(Add(true), k)
           == if s.clusterStatus == Creating then None
              else Some(CreateInstance(cfg.clusterId, ReplicaId(cfg.clusterId, suffixes(k)), PrimaryInstanceClass(s), Engine))
    {
      AddBelowCeiling(cfg, s, suffixes(k));
    }
  }

  /** Below the floor the notification is never read: any two notifications
      lead to the same invocation. */
  lemma FloorIgnoresNotification(cfg: Config, s: Snapshot, note: Notification, note': Notification,
                                 suffixes: nat -> string, rejected: Option<nat>)
    requires ReplicaCount(s) < cfg.minCapacity
    ensures Handler(cfg, Some(s), note, suffixes, rejected) == Handler(cfg, Some(s), note', suffixes, rejected)
  {
  }

  /** The requests one call sends on its own. */
  function Sent(a: Option<Action>): (r: seq<Action>)
    ensures |r| <= 1
    ensures a.Some? ==> r == [a.value]
    ensures a.None? ==> r == []
  {
    match a
    case Some(x) => [x]
    case None => []
  }

  /** At or above the floor, the alarm state alone picks the calls: "ALARM"
      one `add_replica()` (default `ignore_status=True`), "OK" one
      `remove_replica()` (default `ignore_status=False`), anything else none;
      the request sent is the one that mutator returns. */
  lemma AlarmPath(cfg: Config, s: Snapshot, state: Option<string>, suffixes: nat -> string)
    requires cfg.minCapacity <= cfg.maxCapacity
    requires ReplicaCount(s) >= cfg.minCapacity
    ensures var r := Handler(cfg, Some(s), Readable(state), suffixes, None);
            && r.ending == Returned
            && (state == Some(AlarmState) ==>
                  r.calls == [Add(true)] && r.requests == Sent(AddReplica(cfg, s, true, suffixes(0))))
            && (state == Some(OkState) ==>
                  r.calls == [Remove(false)] && r.requests == Sent(RemoveReplica(cfg, s, false)))
            && (state != Some(AlarmState) && state != Some(OkState) ==> r.calls == [] && r.requests == [])
  {
    var m := Client(cfg, s, suffixes);
    assert m(Add(true), 0) == AddReplica(cfg, s, true, suffixes(0));
    assert m(Remove(false), 0) == RemoveReplica(cfg, s, false);
    SingleCall(m, AlarmCalls(state), None);
  }

  /** At or above the floor, at most one mutator call and one request. */
  lemma AtMostOneStep(cfg: Config, s: Snapshot, note: Notification, suffixes: nat -> string, rejected: Option<nat>)
    requires ReplicaCount(s) >= cfg.minCapacity
    ensures var r := Handler(cfg, Some(s), note, suffixes, rejected);
            |r.requests| <= |r.calls| <= 1
  {
  }

  /** A control-plane rejection ends the invocation at that request: the
      requests sent are a prefix of the fault-free ones, and the invocation
      aborts exactly when the fault-free run would have sent the rejected
      request. */
  lemma RejectionStopsInvocation(cfg: Config, described: Option<Snapshot>, note: Notification,
                                 suffixes: nat -> string, k: nat)
    ensures var full := Handler(cfg, described, note, suffixes, None);
            var r := Handler(cfg, described, note, suffixes, Some(k));
            && r.calls <= full.calls
            && r.requests <= full.requests
            && |r.requests| <= k + 1
            && (k < |full.requests| ==> r.ending == Aborted && |r.requests| == k + 1)
            && (k >= |full.requests| ==> r == full)
  {
    if cfg.minCapacity <= cfg.maxCapacity && described.Some? {
      var s := described.value;
      var plan := Plan(cfg, s, note);
      if plan.Some? {
        var m := Client(cfg, s, suffixes);
        HandlerRuns(cfg, s, note, suffixes, None);
        HandlerRuns(cfg, s, note, suffixes, Some(k));
        RejectionTruncates(m, plan.value, k);
        FinishCut(Execute(m, plan.value, Some(k)), Execute(m, plan.value, None), k);
      }
    }
  }

  /** Once the bounds hold and the cluster is described, the handler runs
      whatever calls it planned. */
  lemma HandlerRuns(cfg: Config, s: Snapshot, note: Notification, suffixes: nat -> string, rejected: Option<nat>)
    requires cfg.minCapacity <= cfg.maxCapacity
    requires Plan(cfg, s, note).Some?
    ensures Handler(cfg, Some(s), note, suffixes, rejected)
         == Finish(Execute(Client(cfg, s, suffixes), Plan(cfg, s, note).value, rejected))
  {
  }

  /** A run cut short at request `k` ends an invocation that sent a prefix
      of the fault-free requests, aborting iff the cut happened. */
  lemma FinishCut(t: Trace, full: Trace, k: nat)
    requires CutAt(t, full, k) && !full.failed
    ensures var r := Finish(t);
            var f := Finish(full);
            && r.calls <= f.calls
            && r.requests <= f.requests
            && (k < |f.requests| ==> r.ending == Aborted && |r.requests| == k + 1)
            && (k >= |f.requests| ==> r == f)
  {
  }

  // ---------------------------------------------------------------------------
  // Capacity bounds
  // ---------------------------------------------------------------------------

  /** The change in replica count a request asks for. */
  function Effect(a: Action): int {
    if a.CreateInstance? then 1 else -1
  }

  /** The net change in replica count the requests ask for. */
  function Delta(rs: seq<Action>): int {
    if |rs| == 0 then 0 else Delta(rs[..|rs| - 1]) + Effect(rs[|rs| - 1])
  }

  lemma {:induction false} DeltaOfCreates(rs: seq<Action>)
    requires forall k :: 0 <= k < |rs| ==> rs[k].CreateInstance?
    ensures Delta(rs) == |rs|
    decreases |rs|
  {
    if |rs| > 0 {
      DeltaOfCreates(rs[..|rs| - 1]);
    }
  }

  /** Below the floor, whatever is rejected, only creates are sent and no
      more than the deficit. */
  lemma FloorWithinBounds(cfg: Config, s: Snapshot, note: Notification, suffixes: nat -> string, rejected: Option<nat>)
    requires cfg.minCapacity <= cfg.maxCapacity
    requires ReplicaCount(s) < cfg.minCapacity
    ensures var r := Handler(cfg, Some(s), note, suffixes, rejected);
            0 <= Delta(r.requests) <= cfg.minCapacity - ReplicaCount(s)
  {
    var r := Handler(cfg, Some(s), note, suffixes, rejected);
    var full := Handler(cfg, Some(s), note, suffixes, None);
    FloorPath(cfg, s, note, suffixes);
    if rejected.Some? {
      RejectionStopsInvocation(cfg, Some(s), note, suffixes, rejected.value);
    }
    assert r.requests <= full.requests;
    assert forall k :: 0 <= k < |r.requests| ==> r.requests[k] == full.requests[k];
    DeltaOfCreates(r.requests);
  }

  /** The one alarm-driven call asks for a change that respects the bounds:
      a create only below the ceiling, a delete only above the floor. */
  lemma CallEffect(cfg: Config, s: Snapshot, c: Call, suffix: string)
    requires c == Add(true) || c == Remove(false)
    ensures var a := Perform(cfg, s, c, suffix);
            && (a.Some? && c.Add? ==> ReplicaCount(s) < cfg.maxCapacity && Effect(a.value) == 1)
            && (a.Some? && c.Remove? ==> ReplicaCount(s) > cfg.minCapacity && Effect(a.value) == -1)
  {
  }

  lemma DeltaOfOne(a: Action)
    ensures Delta([a]) == Effect(a)
  {
    assert [a][..0] == [];
  }

  /** The alarm-driven calls, run on their own, never cross a bound. */
  lemma AlarmCallsWithinBounds(cfg: Config, s: Snapshot, state: Option<string>, suffixes: nat -> string, rejected: Option<nat>)
    requires cfg.minCapacity <= cfg.maxCapacity
    requires ReplicaCount(s) >= cfg.minCapacity
    ensures var t := Execute(Client(cfg, s, suffixes), AlarmCalls(state), rejected);
            var n := ReplicaCount(s);
            && (n <= cfg.maxCapacity ==> cfg.minCapacity <= n + Delta(t.requests) <= cfg.maxCapacity)
            && (n > cfg.maxCapacity ==> cfg.minCapacity <= n + Delta(t.requests) <= n)
  {
    var m := Client(cfg, s, suffixes);
    if state == Some(AlarmState) {
      assert m(Add(true), 0) == Perform(cfg, s, Add(true), suffixes(0));
      OneCallDelta(m, Add(true), rejected);
      CallEffect(cfg, s, Add(true), suffixes(0));
    } else if state == Some(OkState) {
      assert m(Remove(false), 0) == Perform(cfg, s, Remove(false), suffixes(0));
      OneCallDelta(m, Remove(false), rejected);
      CallEffect(cfg, s, Remove(false), suffixes(0));
    }
  }

  /** The change one call on its own asks for. */
  lemma OneCallDelta(m: Mutators, c: Call, rejected: Option<nat>)
    ensures Delta(Execute(m, [c], rejected).requests) == if m(c, 0).Some? then Effect(m(c, 0).value) else 0
  {
    OneCall(m, c, rejected);
    if m(c, 0).Some? {
      DeltaOfOne(m(c, 0).value);
    }
  }

  /** At or above the floor, the one step never crosses a bound. */
  lemma StepWithinBounds(cfg: Config, s: Snapshot, note: Notification, suffixes: nat -> string, rejected: Option<nat>)
    requires cfg.minCapacity <= cfg.maxCapacity
    requires ReplicaCount(s) >= cfg.minCapacity
    ensures var r := Handler(cfg, Some(s), note, suffixes, rejected);
            var n := ReplicaCount(s);
            && (n <= cfg.maxCapacity ==> cfg.minCapacity <= n + Delta(r.requests) <= cfg.maxCapacity)
            && (n > cfg.maxCapacity ==> cfg.minCapacity <= n + Delta(r.requests) <= n)
  {
    if note.Readable? {
      assert Handler(cfg, Some(s), note, suffixes, rejected).requests
          == Execute(Client(cfg, s, suffixes), AlarmCalls(note.newState), rejected).requests;
      AlarmCallsWithinBounds(cfg, s, note.newState, suffixes, rejected);
    }
  }

  /** Had every request succeeded, one invocation would leave the replica
      count within [min, max] when it started there, would never overshoot
      the floor when it started below it, and would never grow a count that
      is already above the ceiling. */
  lemma KeepsWithinBounds(cfg: Config, s: Snapshot, note: Notification, suffixes: nat -> string, rejected: Option<nat>)
    requires cfg.minCapacity <= cfg.maxCapacity
    ensures var r := Handler(cfg, Some(s), note, suffixes, rejected);
            var n := ReplicaCount(s);
            var after := n + Delta(r.requests);
            && (n < cfg.minCapacity ==> n <= after <= cfg.minCapacity)
            && (cfg.minCapacity <= n <= cfg.maxCapacity ==> cfg.minCapacity <= after <= cfg.maxCapacity)
            && (n > cfg.maxCapacity ==> cfg.minCapacity <= after <= n)
  {
    if ReplicaCount(s) < cfg.minCapacity {
      FloorWithinBounds(cfg, s, note, suffixes, rejected);
    } else {
      StepWithinBounds(cfg, s, note, suffixes, rejected);
    }
  }
}
