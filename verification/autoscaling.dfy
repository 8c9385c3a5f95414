/**
  The cluster capacity client of the DocumentDB autoscaler (src/autoscaling.py).

  The `DocumentDB` object describes the cluster and its instances once, when it
  is constructed, and never refreshes them. That description is modelled as an
  immutable `Snapshot`; every query and mutator is a pure function of it. The
  mutators do not talk to the control plane: they return the one request they
  would send (`Some`) or refuse (`None`).
*/
module Autoscaling {
  import opened Options

  /** The instance status that counts as settled. */
  const Available := "available"
  /** The cluster status during which no replica may be added. */
  const Creating := "creating"
  /** The class reported when no writer instance can be found. */
  const DefaultClass := "db.r5.large"
  /** The engine every new replica is created with. */
  const Engine := "docdb"

  /** One entry of the cluster's member list. */
  datatype Member = Member(instanceId: string, isWriter: bool)

  /** One entry of the instance list filtered by cluster id. */
  datatype Instance = Instance(instanceId: string, status: string, instanceClass: string)

  /** What the two describe calls returned, fetched once per object. */
  datatype Snapshot = Snapshot(clusterStatus: string, members: seq<Member>, instances: seq<Instance>)

  /** The object's attributes: cluster identifier and capacity bounds. */
  datatype Config = Config(clusterId: string, minCapacity: int, maxCapacity: int)

  /** A control-plane request: create-instance or delete-instance. */
  datatype Action =
    | CreateInstance(clusterId: string, instanceId: string, instanceClass: string, engine: string)
    | DeleteInstance(instanceId: string)

  // ---------------------------------------------------------------------------
  // Queries
  // ---------------------------------------------------------------------------

  predicate Busy(i: Instance) {
    i.status != Available
  }

  /** True iff some instance is not "available"; scans in list order and stops
      at the first busy one. */
  function IsModifying(instances: seq<Instance>): (r: bool)
    ensures r <==> exists k :: 0 <= k < |instances| && Busy(instances[k])
    ensures |instances| == 0 ==> !r
  {
    if |instances| == 0 then false
    else if Busy(instances[0]) then true
    else IsModifying(instances[1..])
  }

  /** Python's `xs[1:]`: everything after the first element, or nothing. */
  function DropFirst<T>(xs: seq<T>): seq<T> {
    if |xs| == 0 then [] else xs[1..]
  }

  /** The number of instances other than the first one listed. */
  function ReplicaCount(s: Snapshot): (r: nat)
    ensures |s.instances| == 0 ==> r == 0
    ensures |s.instances| > 0 ==> r + 1 == |s.instances|
  {
    |DropFirst(s.instances)|
  }

  /** A writer member that names this instance. */
  predicate Serves(m: Member, i: Instance) {
    m.isWriter && m.instanceId == i.instanceId
  }

  /** Member `p` and instance `q` are the pair the nested scan of members,
      then instances, meets first. */
  ghost predicate FirstServing(ms: seq<Member>, insts: seq<Instance>, p: int, q: int) {
    && 0 <= p < |ms| && 0 <= q < |insts|
    && Serves(ms[p], insts[q])
    && (forall p', q' :: 0 <= p' < p && 0 <= q' < |insts| ==> !Serves(ms[p'], insts[q']))
    && (forall q' :: 0 <= q' < q ==> !Serves(ms[p], insts[q']))
  }

  /** The inner loop: the class of the first instance the member serves. */
  function ServedClass(m: Member, insts: seq<Instance>): (r: Option<string>)
    ensures r.None? <==> forall q :: 0 <= q < |insts| ==> !Serves(m, insts[q])
    ensures r.Some? ==> exists q :: 0 <= q < |insts| && Serves(m, insts[q]) && r.value == insts[q].instanceClass
                                    && forall q' :: 0 <= q' < q ==> !Serves(m, insts[q'])
  {
    if |insts| == 0 then None
    else if Serves(m, insts[0]) then Some(insts[0].instanceClass)
    else
      var r := ServedClass(m, insts[1..]);
      if r.Some? then
        ghost var q :| 0 <= q < |insts[1..]| && Serves(m, insts[1..][q]) && r.value == insts[1..][q].instanceClass
                       && forall q' :: 0 <= q' < q ==> !Serves(m, insts[1..][q']);
        assert Serves(m, insts[q + 1]) && forall q' :: 0 <= q' < q + 1 ==> !Serves(m, insts[q']) by {
          forall q' | 0 <= q' < q + 1 ensures !Serves(m, insts[q']) {
            if q' > 0 { assert insts[q'] == insts[1..][q' - 1]; }
          }
        }
        r
      else
        assert forall q :: 0 <= q < |insts| ==> !Serves(m, insts[q]) by {
          forall q | 0 <= q < |insts| ensures !Serves(m, insts[q]) {
            if q > 0 { assert insts[q] == insts[1..][q - 1]; }
          }
        }
        r
  }

  /** The outer loop: the class found for the first writer member that serves
      some instance, or None when no member does. */
  function WriterClass(ms: seq<Member>, insts: seq<Instance>): (r: Option<string>)
    ensures r.None? <==> forall p, q :: 0 <= p < |ms| && 0 <= q < |insts| ==> !Serves(ms[p], insts[q])
    ensures r.Some? ==> exists p, q :: FirstServing(ms, insts, p, q) && r.value == insts[q].instanceClass
  {
    if |ms| == 0 then None
    else
      var here := ServedClass(ms[0], insts);
      if here.Some? then
        ghost var q :| 0 <= q < |insts| && Serves(ms[0], insts[q]) && here.value == insts[q].instanceClass
                       && forall q' :: 0 <= q' < q ==> !Serves(ms[0], insts[q']);
        assert FirstServing(ms, insts, 0, q);
        here
      else
        var r := WriterClass(ms[1..], insts);
        if r.Some? then
          ghost var p, q :| FirstServing(ms[1..], insts, p, q) && r.value == insts[q].instanceClass;
          assert FirstServing(ms, insts, p + 1, q) by {
            forall p', q' | 0 <= p' < p + 1 && 0 <= q' < |insts| ensures !Serves(ms[p'], insts[q']) {
              if p' > 0 { assert ms[p'] == ms[1..][p' - 1]; }
            }
          }
          r
        else
          assert forall p, q :: 0 <= p < |ms| && 0 <= q < |insts| ==> !Serves(ms[p], insts[q]) by {
            forall p, q | 0 <= p < |ms| && 0 <= q < |insts| ensures !Serves(ms[p], insts[q]) {
              if p > 0 { assert ms[p] == ms[1..][p - 1]; }
            }
          }
          r
  }

  /** The class of the primary (writer) instance, or "db.r5.large" when no
      writer member names a listed instance. */
  function PrimaryInstanceClass(s: Snapshot): (r: string)
    ensures (exists p, q :: FirstServing(s.members, s.instances, p, q) && r == s.instances[q].instanceClass)
         || ((forall p, q :: 0 <= p < |s.members| && 0 <= q < |s.instances| ==> !Serves(s.members[p], s.instances[q]))
             && r == DefaultClass)
  {
    match WriterClass(s.members, s.instances)
    case Some(c) => c
    case None => DefaultClass
  }

  // ---------------------------------------------------------------------------
  // Mutators
  // ---------------------------------------------------------------------------

  /** Python's `h[0:8]`: the first eight characters, or all of a shorter string. */
  function Prefix8(h: string): (r: string)
    ensures |r| <= 8
    ensures r <= h
    ensures |h| >= 8 ==> |r| == 8
    ensures |h| <= 8 ==> r == h
  {
    if |h| <= 8 then h else h[..8]
  }

  /** The identifier of a new replica: the cluster id, a dash and the first
      eight characters of a fresh uuid's hex form (here an opaque `suffix`). */
  function ReplicaId(clusterId: string, suffix: string): (r: string)
    ensures |clusterId| + 1 <= |r| <= |clusterId| + 9
    ensures r[..|clusterId| + 1] == clusterId + "-"
  {
    clusterId + "-" + Prefix8(suffix)
  }

  /** `add_replica`: refuses at or above the ceiling, while the cluster is
      being created, and (only when `ignoreStatus` is false) while some
      instance is busy; otherwise requests one replica of the primary's class. */
  function AddReplica(cfg: Config, s: Snapshot, ignoreStatus: bool, suffix: string): (r: Option<Action>)
    ensures ReplicaCount(s) >= cfg.maxCapacity ==> r.None?
    ensures s.clusterStatus == Creating ==> r.None?
    ensures !ignoreStatus && IsModifying(s.instances) ==> r.None?
    ensures r.Some? <==> ReplicaCount(s) < cfg.maxCapacity && s.clusterStatus != Creating
                         && (ignoreStatus || !IsModifying(s.instances))
    ensures r.Some? ==> && r.value.CreateInstance?
                        && r.value.clusterId == cfg.clusterId
                        && r.value.engine == Engine
                        && r.value.instanceClass == PrimaryInstanceClass(s)
                        && |cfg.clusterId| + 1 <= |r.value.instanceId|
                        && r.value.instanceId[..|cfg.clusterId| + 1] == cfg.clusterId + "-"
                        && r.value.instanceId == ReplicaId(cfg.clusterId, suffix)
                        && |r.value.instanceId| <= |cfg.clusterId| + 9
  {
    if ReplicaCount(s) >= cfg.maxCapacity then None
    else if s.clusterStatus == Creating then None
    else if !ignoreStatus && IsModifying(s.instances) then None
    else Some(CreateInstance(cfg.clusterId, ReplicaId(cfg.clusterId, suffix), PrimaryInstanceClass(s), Engine))
  }

  /** Member `p` is the first member that is not a writer. */
  ghost predicate FirstReader(ms: seq<Member>, p: int) {
    0 <= p < |ms| && !ms[p].isWriter && forall p' :: 0 <= p' < p ==> ms[p'].isWriter
  }

  /** The identifier of the first non-writer member, if any. */
  function FirstReaderId(ms: seq<Member>): (r: Option<string>)
    ensures r.None? <==> forall p :: 0 <= p < |ms| ==> ms[p].isWriter
    ensures r.Some? ==> exists p :: FirstReader(ms, p) && r.value == ms[p].instanceId
  {
    if |ms| == 0 then None
    else if !ms[0].isWriter then
      assert FirstReader(ms, 0);
      Some(ms[0].instanceId)
    else
      var r := FirstReaderId(ms[1..]);
      if r.Some? then
        ghost var p :| FirstReader(ms[1..], p) && r.value == ms[1..][p].instanceId;
        assert FirstReader(ms, p + 1) by {
          forall p' | 0 <= p' < p + 1 ensures ms[p'].isWriter {
            if p' > 0 { assert ms[p'] == ms[1..][p' - 1]; }
          }
        }
        r
      else
        assert forall p :: 0 <= p < |ms| ==> ms[p].isWriter by {
          forall p | 0 <= p < |ms| ensures ms[p].isWriter {
            if p > 0 { assert ms[p] == ms[1..][p - 1]; }
          }
        }
        r
  }

  /** `remove_replica`: refuses at or below the floor and (only when
      `ignoreStatus` is false) while some instance is busy; otherwise deletes
      the first member that is not a writer, and does nothing when every
      member is a writer. */
  function RemoveReplica(cfg: Config, s: Snapshot, ignoreStatus: bool): (r: Option<Action>)
    ensures ReplicaCount(s) <= cfg.minCapacity ==> r.None?
    ensures !ignoreStatus && IsModifying(s.instances) ==> r.None?
    ensures r.Some? <==> && ReplicaCount(s) > cfg.minCapacity
                         && (ignoreStatus || !IsModifying(s.instances))
                         && exists p :: 0 <= p < |s.members| && !s.members[p].isWriter
    ensures r.Some? ==> r.value.DeleteInstance?
                        && exists p :: FirstReader(s.members, p) && r.value.instanceId == s.members[p].instanceId
  {
    if ReplicaCount(s) <= cfg.minCapacity then None
    else if !ignoreStatus && IsModifying(s.instances) then None
    else
      match FirstReaderId(s.members)
      case Some(id) => Some(DeleteInstance(id))
      case None => None
  }

  // ---------------------------------------------------------------------------
  // Lemmas
  // ---------------------------------------------------------------------------

  /** Two instance lists that agree on everything but the statuses. */
  ghost predicate SameButStatus(insts: seq<Instance>, insts': seq<Instance>) {
    |insts| == |insts'| &&
    forall k :: 0 <= k < |insts| ==> insts[k].instanceId == insts'[k].instanceId && insts[k].instanceClass == insts'[k].instanceClass
  }

  /** The scans that find the primary's class read identifiers and classes
      only. */
  lemma {:induction false} ServedClassIgnoresStatus(m: Member, insts: seq<Instance>, insts': seq<Instance>)
    requires SameButStatus(insts, insts')
    ensures ServedClass(m, insts) == ServedClass(m, insts')
    decreases |insts|
  {
    if |insts| > 0 && !Serves(m, insts[0]) {
      assert SameButStatus(insts[1..], insts'[1..]) by {
        forall k | 0 <= k < |insts| - 1
          ensures insts[1..][k].instanceId == insts'[1..][k].instanceId
          ensures insts[1..][k].instanceClass == insts'[1..][k].instanceClass
        {
          assert insts[1..][k] == insts[k + 1] && insts'[1..][k] == insts'[k + 1];
        }
      }
      ServedClassIgnoresStatus(m, insts[1..], insts'[1..]);
    }
  }

  lemma {:induction false} WriterClassIgnoresStatus(ms: seq<Member>, insts: seq<Instance>, insts': seq<Instance>)
    requires SameButStatus(insts, insts')
    ensures WriterClass(ms, insts) == WriterClass(ms, insts')
    decreases |ms|
  {
    if |ms| > 0 {
      ServedClassIgnoresStatus(ms[0], insts, insts');
      WriterClassIgnoresStatus(ms[1..], insts, insts');
    }
  }

  /** With `ignoreStatus` true (the default), the instance statuses are never
      consulted: snapshots that differ only in them give the same request. */
  lemma AddIgnoringStatusNeverConsultsInstances(cfg: Config, s: Snapshot, s': Snapshot, suffix: string)
    requires s.clusterStatus == s'.clusterStatus && s.members == s'.members
    requires SameButStatus(s.instances, s'.instances)
    ensures AddReplica(cfg, s, true, suffix) == AddReplica(cfg, s', true, suffix)
  {
    WriterClassIgnoresStatus(s.members, s.instances, s'.instances);
  }

  /** A request to delete never names a writer, provided member identifiers
      are unique. */
  lemma RemoveNeverTargetsWriter(cfg: Config, s: Snapshot, ignoreStatus: bool)
    requires forall p, p' :: 0 <= p < p' < |s.members| ==> s.members[p].instanceId != s.members[p'].instanceId
    ensures var r := RemoveReplica(cfg, s, ignoreStatus);
            r.Some? ==> forall p :: 0 <= p < |s.members| && s.members[p].instanceId == r.value.instanceId
                                    ==> !s.members[p].isWriter
  {
  }
}
