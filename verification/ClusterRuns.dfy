/**
 Whole histories of the head's cluster state: proper calls keep the four structures
 in agreement, and adding a replica and later removing it leaves no trace.
 */
module ClusterRuns {
  import opened Keys
  import opened Balancer
  import opened Sums
  import opened Cluster
  import opened Agreement
  import opened Removal

  datatype Op =
    | UpsertOp(d: nat, name: string, version: string, cpus: int, gpus: int)
    | AddOp(d: nat, w: nat, content: Content, cpus: int, gpus: int, address: string)
    | RemoveOp(d: nat, r: nat, w: nat)
    | LoadOp(r: nat, w: nat, avg: real, stamp: nat)
    | NodeOp(w: nat)

  const NO_CLUSTER := Cluster(map[], map[], map[], map[])

  function Perform(c: Cluster, op: Op): Cluster {
    match op
    case UpsertOp(d, name, version, cpus, gpus) => Upsert(c, d, name, version, cpus, gpus)
    case AddOp(d, w, content, cpus, gpus, address) => Add(c, d, w, [content], cpus, gpus, address).0
    case RemoveOp(d, r, w) => Remove(c, d, r, w).0
    case LoadOp(r, w, avg, stamp) => LoadMetrics(c, r, w, avg, stamp)
    case NodeOp(w) => AddNode(c, w)
  }

  function PerformAll(c: Cluster, ops: seq<Op>): Cluster
    decreases |ops|
  {
    if ops == [] then c else PerformAll(Perform(c, ops[0]), ops[1..])
  }

  // What the callers owe: a fresh key on a registered node, the deployment that
  // lists the replica, and no registration of a node that has something in use.
  ghost predicate Proper(c: Cluster, op: Op) {
    match op
    case UpsertOp(_, _, _, _, _) => true
    case AddOp(d, w, content, _, _, _) =>
      d in c.deployments ==> w in c.nodes && Key(w, content.replicaId) !in c.replicaMap
    case RemoveOp(d, r, w) => NamesIt(c, d, Key(w, r))
    case LoadOp(_, _, _, _) => true
    case NodeOp(w) => Total(c.records, w) == Usage(0, 0)
  }

  ghost predicate AllProper(c: Cluster, ops: seq<Op>)
    decreases |ops|
  {
    ops == [] || (Proper(c, ops[0]) && AllProper(Perform(c, ops[0]), ops[1..]))
  }

  // ---------- agreement over runs ----------

  lemma UpsertAgree(c: Cluster, d: nat, name: string, version: string, cpus: int, gpus: int)
    requires Agree(c)
    ensures Agree(Upsert(c, d, name, version, cpus, gpus))
  {
    var c' := Upsert(c, d, name, version, cpus, gpus);
    assert forall x, e :: Lists(c', x, e) <==> Lists(c, x, e);
    assert forall x :: x in c'.deployments ==> UniqueMsgs(c'.deployments[x].replicas);
  }

  lemma LoadAgree(c: Cluster, r: nat, w: nat, avg: real, stamp: nat)
    requires Agree(c)
    ensures Agree(LoadMetrics(c, r, w, avg, stamp))
  {
    var key := Key(w, r);
    if key in c.records {
      var c', rec := LoadMetrics(c, r, w, avg, stamp), c.records[key].(avgRequests := avg, stamp := stamp);
      forall n | n in c.nodes ensures Total(c'.records, n) == Total(c.records, n) {
        SumUpdate(c.records, CpusOn(n), key, rec);
        SumUpdate(c.records, GpusOn(n), key, rec);
      }
      SameLists(c, c');
    }
  }

  lemma NodeAgree(c: Cluster, w: nat)
    requires Agree(c)
    ensures Agree(AddNode(c, w)) <==> Total(c.records, w) == Usage(0, 0)
  {
    SameLists(c, AddNode(c, w));
  }

  // Each operation keeps the agreement exactly when the call is proper.
  lemma PerformAgrees(c: Cluster, op: Op)
    requires Agree(c)
    ensures Agree(Perform(c, op)) <==> Proper(c, op)
  {
    match op
    case UpsertOp(d, name, version, cpus, gpus) => UpsertAgree(c, d, name, version, cpus, gpus);
    case AddOp(d, w, content, cpus, gpus, address) =>
      AddAgrees(c, d, w, [content], cpus, gpus, address);
      assert FreshContents(c, w, [content]) <==> Key(w, [content][0].replicaId) !in c.replicaMap;
    case RemoveOp(d, r, w) => RemoveAgrees(c, d, r, w);
    case LoadOp(r, w, avg, stamp) => LoadAgree(c, r, w, avg, stamp);
    case NodeOp(w) => NodeAgree(c, w);
  }

  lemma {:induction false} RunAgrees(c: Cluster, ops: seq<Op>)
    requires Agree(c) && AllProper(c, ops)
    ensures Agree(PerformAll(c, ops))
    decreases |ops|
  {
    if ops != [] {
      PerformAgrees(c, ops[0]);
      RunAgrees(Perform(c, ops[0]), ops[1..]);
    }
  }

  // In every state reached from the start by proper calls the four structures agree.
  lemma {:induction false} ReachableAgrees(ops: seq<Op>)
    requires AllProper(NO_CLUSTER, ops)
    ensures Agree(PerformAll(NO_CLUSTER, ops))
  {
    RunAgrees(NO_CLUSTER, ops);
  }

  // ---------- what the last call of a kind leaves ----------

  // The deployment is as this call described it.
  predicate Described(c: Cluster, op: Op)
    requires op.UpsertOp?
  {
    op.d in c.deployments &&
    var dep := c.deployments[op.d];
    dep.name == op.name && dep.version == op.version && dep.cpus == op.cpus && dep.gpus == op.gpus
  }

  predicate Redescribes(op: Op, d: nat) {
    op.UpsertOp? && op.d == d
  }

  lemma {:induction false} StaysDescribed(c: Cluster, op: Op, ops: seq<Op>)
    requires op.UpsertOp? && Described(c, op) && forall i :: 0 <= i < |ops| ==> !Redescribes(ops[i], op.d)
    ensures Described(PerformAll(c, ops), op)
    decreases |ops|
  {
    if ops != [] {
      assert !Redescribes(ops[0], op.d);
      if ops[0].AddOp? && ops[0].d in c.deployments {
        SingleAdd(c, ops[0].d, ops[0].w, ops[0].content, ops[0].cpus, ops[0].gpus, ops[0].address);
      }
      StaysDescribed(Perform(c, ops[0]), op, ops[1..]);
    }
  }

  // After any calls a deployment is as the last update described it.
  lemma {:induction false} LastUpdateWins(c: Cluster, ops: seq<Op>, i: nat)
    requires i < |ops| && ops[i].UpsertOp? && forall j :: i < j < |ops| ==> !Redescribes(ops[j], ops[i].d)
    ensures Described(PerformAll(c, ops), ops[i])
    decreases |ops|
  {
    if i == 0 {
      forall j | 0 <= j < |ops[1..]| ensures !Redescribes(ops[1..][j], ops[0].d) {
        assert ops[1..][j] == ops[j + 1];
      }
      StaysDescribed(Perform(c, ops[0]), ops[0], ops[1..]);
    } else {
      forall j | i - 1 < j < |ops[1..]| ensures !Redescribes(ops[1..][j], ops[1..][i - 1].d) {
        assert ops[1..][j] == ops[j + 1];
      }
      LastUpdateWins(Perform(c, ops[0]), ops[1..], i - 1);
    }
  }

  // The record holds these metrics, and still the amounts it was filed with.
  predicate Measured(c: Cluster, key: string, avg: real, stamp: nat, cpus: int, gpus: int) {
    key in c.records && c.records[key] == Record(avg, stamp, cpus, gpus)
  }

  // The call measures, files anew or removes the replica of this key.
  predicate Concerns(op: Op, key: string) {
    match op
    case AddOp(_, w, content, _, _, _) => Key(w, content.replicaId) == key
    case RemoveOp(_, r, w) => Key(w, r) == key
    case LoadOp(r, w, _, _) => Key(w, r) == key
    case _ => false
  }

  lemma OthersMeasured(c: Cluster, op: Op, key: string, avg: real, stamp: nat, cpus: int, gpus: int)
    requires Measured(c, key, avg, stamp, cpus, gpus) && !Concerns(op, key)
    ensures Measured(Perform(c, op), key, avg, stamp, cpus, gpus)
  {
    if op.AddOp? && op.d in c.deployments {
      SingleAdd(c, op.d, op.w, op.content, op.cpus, op.gpus, op.address);
    }
  }

  lemma {:induction false} StaysMeasured(c: Cluster, ops: seq<Op>, key: string, avg: real, stamp: nat, cpus: int,
                                         gpus: int)
    requires Measured(c, key, avg, stamp, cpus, gpus)
    requires forall i :: 0 <= i < |ops| ==> !Concerns(ops[i], key)
    ensures Measured(PerformAll(c, ops), key, avg, stamp, cpus, gpus)
    decreases |ops|
  {
    if ops != [] {
      assert !Concerns(ops[0], key);
      OthersMeasured(c, ops[0], key, avg, stamp, cpus, gpus);
      StaysMeasured(Perform(c, ops[0]), ops[1..], key, avg, stamp, cpus, gpus);
    }
  }

  // Metrics of a replica on record stay there until it is measured again, filed anew or
  // removed, and its amounts are never touched; metrics of any other leave no trace.
  lemma {:induction false} LastMetricsWin(c: Cluster, r: nat, w: nat, avg: real, stamp: nat, ops: seq<Op>)
    requires forall i :: 0 <= i < |ops| ==> !Concerns(ops[i], Key(w, r))
    ensures var key, c' := Key(w, r), PerformAll(Perform(c, LoadOp(r, w, avg, stamp)), ops);
            if key in c.records then Measured(c', key, avg, stamp, c.records[key].cpus, c.records[key].gpus)
            else c' == PerformAll(c, ops)
  {
    var key := Key(w, r);
    if key in c.records {
      StaysMeasured(Perform(c, LoadOp(r, w, avg, stamp)), ops, key, avg, stamp, c.records[key].cpus,
                    c.records[key].gpus);
    }
  }

  // ---------- calls that are not proper ----------

  // Two deployments, one node, and a replica of deployment 1 that uses two CPUs and a GPU.
  const SMALL := [UpsertOp(1, "m", "1", 2, 1), UpsertOp(2, "n", "1", 2, 1), NodeOp(1)]
  const FIRST := AddOp(1, 1, Content(1, "p"), 2, 1, "a")

  lemma SmallAgrees()
    ensures var c := PerformAll(NO_CLUSTER, SMALL);
            && Agree(c) && c.replicaMap == map[]
            && 1 in c.deployments && 2 in c.deployments && c.deployments[2].replicas == []
            && 1 in c.nodes && c.nodes[1] == Usage(0, 0)
  {
    var c1 := Perform(NO_CLUSTER, SMALL[0]);
    var c2 := Perform(c1, SMALL[1]);
    assert SMALL[1..] == [SMALL[1], SMALL[2]] && SMALL[1..][1..] == [SMALL[2]] && SMALL[1..][1..][1..] == [];
    assert PerformAll(c2, [SMALL[2]]) == Perform(c2, SMALL[2]);
    SumZero(c2.records, CpusOn(1));
    SumZero(c2.records, GpusOn(1));
    assert AllProper(c2, [SMALL[2]]);
    ReachableAgrees(SMALL);
  }

  // Two replicas in one call are charged to their node as one.
  lemma BatchBreaks()
    ensures var c := PerformAll(NO_CLUSTER, SMALL);
            var c' := Add(c, 1, 1, [Content(1, "p"), Content(2, "q")], 2, 1, "a").0;
            && Agree(c) && !Agree(c')
            && 1 in c'.nodes && c'.nodes[1] == Usage(2, 1) && Total(c'.records, 1) == Usage(4, 2)
  {
    var c := PerformAll(NO_CLUSTER, SMALL);
    var contents := [Content(1, "p"), Content(2, "q")];
    SmallAgrees();
    AddAgrees(c, 1, 1, contents, 2, 1, "a");
    EntriesOn(c, 1, contents, "a");
    AddEachKeys(c, 1, Entries(1, contents, "a"), 2, 1);
    AddEachTotal(c, 1, Entries(1, contents, "a"), 2, 1, 1, 1);
  }

  lemma WithFirst()
    ensures var c := Perform(PerformAll(NO_CLUSTER, SMALL), FIRST);
            && Agree(c) && Key(1, 1) in c.replicaMap
            && Lists(c, 1, c.replicaMap[Key(1, 1)]) && !Lists(c, 2, c.replicaMap[Key(1, 1)])
  {
    var c := PerformAll(NO_CLUSTER, SMALL);
    SmallAgrees();
    PerformAgrees(c, FIRST);
    SingleAdd(c, 1, 1, Content(1, "p"), 2, 1, "a");
    var e := Entry(1, Content(1, "p"), "a");
    var c' := Perform(c, FIRST);
    assert c'.deployments[1].replicas == c.deployments[1].replicas + [e] && c'.deployments[2].replicas == [];
  }

  // Removing a replica of deployment 1 from deployment 2: the map forgets it, and the
  // list it is on does not.
  lemma MisnamedBreaks()
    ensures var c := Perform(PerformAll(NO_CLUSTER, SMALL), FIRST);
            var c' := Remove(c, 2, 1, 1).0;
            && Agree(c) && !Agree(c')
            && Key(1, 1) in c.replicaMap && Lists(c', 1, c.replicaMap[Key(1, 1)]) && Key(1, 1) !in c'.replicaMap
  {
    WithFirst();
    RemoveAgrees(Perform(PerformAll(NO_CLUSTER, SMALL), FIRST), 2, 1, 1);
    Misnamed(Perform(PerformAll(NO_CLUSTER, SMALL), FIRST), 2, 1, 1, Key(1, 1));
  }

  lemma Misnamed(c: Cluster, d: nat, r: nat, w: nat, key: string)
    requires key == Key(w, r) && key in c.replicaMap && !Lists(c, d, c.replicaMap[key])
    ensures Remove(c, d, r, w) == (c.(replicaMap := c.replicaMap - {key}), Refused)
  {
  }

  // Two entries for one replica, of which one names another deployment: in one order the
  // report is harmless, in the other it is not.
  lemma {:induction false} OrderMatters(c: Cluster, w: nat, right: ReplicaState, wrong: ReplicaState, key: string)
    requires Agree(c) && IsDead(right) && IsDead(wrong) && right.replicaId == wrong.replicaId
    requires key == Key(w, right.replicaId) && key in c.replicaMap
    requires Lists(c, right.deploymentId, c.replicaMap[key]) && !Lists(c, wrong.deploymentId, c.replicaMap[key])
    ensures Agree(Report(c, w, [right, wrong]).0) && !Agree(Report(c, w, [wrong, right]).0)
  {
    var good, bad := [right, wrong], [wrong, right];
    assert FirstDead(bad, 0);
    assert !FirstDead(good, 1) by {
      assert IsDead(good[0]) && good[0].replicaId == good[1].replicaId;
    }
    ReportRemovesDead(c, w, good);
    ReportRemovesDead(c, w, bad);
  }

  lemma OrderMattersHere()
    ensures var c := Perform(PerformAll(NO_CLUSTER, SMALL), FIRST);
            var right, wrong := ReplicaState(1, 1, "DEAD"), ReplicaState(1, 2, "DEAD");
            && Agree(c) && Agree(Report(c, 1, [right, wrong]).0) && !Agree(Report(c, 1, [wrong, right]).0)
  {
    WithFirst();
    OrderMatters(Perform(PerformAll(NO_CLUSTER, SMALL), FIRST), 1,
                 ReplicaState(1, 1, "DEAD"), ReplicaState(1, 2, "DEAD"), Key(1, 1));
  }

  // ---------- add, then remove ----------

  // `es1` is `es2` with one `x` put in somewhere.
  ghost predicate Inserted(es1: seq<ReplicaMsg>, es2: seq<ReplicaMsg>, x: ReplicaMsg) {
    && es1 != []
    && ((es1[0] == x && es1[1..] == es2) || (es2 != [] && es1[0] == es2[0] && Inserted(es1[1..], es2[1..], x)))
  }

  // `c1` is `c2` with the replica `x` of node `w` added to deployment `d`.
  ghost predicate Extra(c1: Cluster, c2: Cluster, d: nat, x: ReplicaMsg, w: nat, cpus: int, gpus: int) {
    && ExtraList(c1.deployments, c2.deployments, d, x)
    && x.id !in c2.replicaMap && c1.replicaMap == c2.replicaMap[x.id := x]
    && (forall key :: key in c2.replicaMap ==> c2.replicaMap[key].id == key)
    && ExtraRecord(c1.records, c2.records, x.id, cpus, gpus)
    && w in c2.nodes
    && c1.nodes == c2.nodes[w := Usage(c2.nodes[w].cpus + cpus, c2.nodes[w].gpus + gpus)]
  }

  ghost predicate ExtraList(ds1: map<nat, Deployment>, ds2: map<nat, Deployment>, d: nat, x: ReplicaMsg) {
    && d in ds2 && d in ds1
    && ds1 == ds2[d := ds2[d].(replicas := ds1[d].replicas)]
    && Inserted(ds1[d].replicas, ds2[d].replicas, x)
    && (forall i :: 0 <= i < |ds2[d].replicas| ==> ds2[d].replicas[i].id != x.id)
  }

  ghost predicate ExtraRecord(rs1: map<string, Record>, rs2: map<string, Record>, key: string, cpus: int, gpus: int) {
    && key !in rs2 && key in rs1
    && rs1 == rs2[key := rs1[key]]
    && rs1[key].cpus == cpus && rs1[key].gpus == gpus
  }

  // The operation concerns other replicas, and does not register the node anew.
  ghost predicate Elsewhere(op: Op, key: string, w: nat) {
    match op
    case UpsertOp(_, _, _, _, _) => true
    case AddOp(_, w', content, _, _, _) => Key(w', content.replicaId) != key
    case RemoveOp(_, r, w') => Key(w', r) != key
    case LoadOp(_, _, _, _) => true
    case NodeOp(w') => w' != w
  }

  lemma {:induction false} InsertedAppend(es1: seq<ReplicaMsg>, es2: seq<ReplicaMsg>, x: ReplicaMsg, e: ReplicaMsg)
    requires Inserted(es1, es2, x)
    ensures Inserted(es1 + [e], es2 + [e], x)
  {
    assert (es1 + [e])[1..] == es1[1..] + [e];
    if !(es1[0] == x && es1[1..] == es2) {
      assert (es2 + [e])[1..] == es2[1..] + [e];
      InsertedAppend(es1[1..], es2[1..], x, e);
    }
  }

  lemma {:induction false} InsertedLast(es: seq<ReplicaMsg>, x: ReplicaMsg)
    ensures Inserted(es + [x], es, x)
  {
    if es != [] {
      InsertedLast(es[1..], x);
      assert (es + [x])[1..] == es[1..] + [x];
    }
  }

  lemma {:induction false} InsertedRemove(es1: seq<ReplicaMsg>, es2: seq<ReplicaMsg>, x: ReplicaMsg, e: ReplicaMsg)
    requires Inserted(es1, es2, x) && e != x
    ensures Inserted(RemoveFirst(es1, e), RemoveFirst(es2, e), x)
    ensures e in es1 <==> e in es2
  {
    assert es1 == [es1[0]] + es1[1..];
    if !(es1[0] == x && es1[1..] == es2) {
      assert es2 == [es2[0]] + es2[1..];
      InsertedRemove(es1[1..], es2[1..], x, e);
    }
  }

  lemma {:induction false} InsertedUndo(es1: seq<ReplicaMsg>, es2: seq<ReplicaMsg>, x: ReplicaMsg)
    requires Inserted(es1, es2, x) && forall i :: 0 <= i < |es2| ==> es2[i].id != x.id
    ensures x in es1 && RemoveFirst(es1, x) == es2
  {
    if es1[0] != x {
      InsertedUndo(es1[1..], es2[1..], x);
    }
  }

  lemma {:induction false} RemoveFirstIds(es: seq<ReplicaMsg>, e: ReplicaMsg, id: string)
    requires forall i :: 0 <= i < |es| ==> es[i].id != id
    ensures forall i :: 0 <= i < |RemoveFirst(es, e)| ==> RemoveFirst(es, e)[i].id != id
  {
    if es != [] && es[0] != e {
      RemoveFirstIds(es[1..], e, id);
    }
  }

  lemma ExtraListAdd(ds1: map<nat, Deployment>, ds2: map<nat, Deployment>, d: nat, x: ReplicaMsg, d': nat,
                     e: ReplicaMsg)
    requires ExtraList(ds1, ds2, d, x) && d' in ds2 && e.id != x.id
    ensures ExtraList(ds1[d' := ds1[d'].(replicas := ds1[d'].replicas + [e])],
                      ds2[d' := ds2[d'].(replicas := ds2[d'].replicas + [e])], d, x)
  {
    InsertedAppend(ds1[d].replicas, ds2[d].replicas, x, e);
  }

  lemma ExtraAdd(c1: Cluster, c2: Cluster, d: nat, x: ReplicaMsg, w: nat, cpus: int, gpus: int,
                 d': nat, e: ReplicaMsg, cpus': int, gpus': int)
    requires Extra(c1, c2, d, x, w, cpus, gpus) && d' in c2.deployments && e.id != x.id
    ensures Extra(AddOne(c1, d', e, cpus', gpus'), AddOne(c2, d', e, cpus', gpus'), d, x, w, cpus, gpus)
  {
    ExtraListAdd(c1.deployments, c2.deployments, d, x, d', e);
  }

  lemma ExtraMapRemove(m1: map<string, ReplicaMsg>, m2: map<string, ReplicaMsg>, x: ReplicaMsg, key: string)
    requires m1 == m2[x.id := x] && key != x.id
    ensures m1 - {key} == (m2 - {key})[x.id := x]
    ensures key in m2 ==> key in m1 && m1[key] == m2[key]
  {
  }

  // What is left of the lists and the map when a listed replica goes.
  function Unlisted(c: Cluster, d: nat, e: ReplicaMsg, key: string): Cluster
    requires d in c.deployments
  {
    c.(deployments := c.deployments[d := c.deployments[d].(replicas := RemoveFirst(c.deployments[d].replicas, e))],
       replicaMap := c.replicaMap - {key})
  }

  lemma ExtraUnlisted(c1: Cluster, c2: Cluster, d: nat, x: ReplicaMsg, w: nat, cpus: int, gpus: int,
                      d': nat, key: string, e: ReplicaMsg)
    requires Extra(c1, c2, d, x, w, cpus, gpus) && key != x.id && e != x && d' in c2.deployments
    ensures d' in c1.deployments
    ensures Extra(Unlisted(c1, d', e, key), Unlisted(c2, d', e, key), d, x, w, cpus, gpus)
  {
    ExtraMapRemove(c1.replicaMap, c2.replicaMap, x, key);
    ExtraListRemove(c1.deployments, c2.deployments, d, x, d', e);
  }

  lemma ExtraUnrecorded(c1: Cluster, c2: Cluster, d: nat, x: ReplicaMsg, w: nat, cpus: int, gpus: int, key: string)
    requires Extra(c1, c2, d, x, w, cpus, gpus) && key in c2.records
    ensures key in c1.records && c1.records[key] == c2.records[key]
    ensures Extra(c1.(records := c1.records - {key}), c2.(records := c2.records - {key}), d, x, w, cpus, gpus)
  {
    ExtraRecordRemove(c1.records, c2.records, x.id, cpus, gpus, key);
  }

  // The removal of a listed replica, on both sides.
  lemma ExtraRemoveListed(c1: Cluster, c2: Cluster, d: nat, x: ReplicaMsg, w: nat, cpus: int, gpus: int,
                          d': nat, r: nat, w': nat, key: string, e: ReplicaMsg)
    requires Extra(c1, c2, d, x, w, cpus, gpus) && key == Key(w', r) != x.id && e.id != x.id
    requires key in c2.replicaMap && c2.replicaMap[key] == e && Lists(c2, d', e)
    requires key in c1.replicaMap && c1.replicaMap[key] == e && Lists(c1, d', e)
    ensures Extra(Remove(c1, d', r, w').0, Remove(c2, d', r, w').0, d, x, w, cpus, gpus)
  {
    var u1, u2 := Unlisted(c1, d', e, key), Unlisted(c2, d', e, key);
    ExtraUnlisted(c1, c2, d, x, w, cpus, gpus, d', key, e);
    if key in c2.records {
      ExtraUnrecorded(u1, u2, d, x, w, cpus, gpus, key);
      var rec := c2.records[key];
      ExtraUse(u1.(records := u1.records - {key}), u2.(records := u2.records - {key}), d, x, w, cpus, gpus,
               w', -rec.cpus, -rec.gpus);
    }
  }

  lemma ExtraLists(c1: Cluster, c2: Cluster, d: nat, x: ReplicaMsg, w: nat, cpus: int, gpus: int, d': nat,
                   e: ReplicaMsg)
    requires Extra(c1, c2, d, x, w, cpus, gpus) && e.id != x.id
    ensures Lists(c1, d', e) <==> Lists(c2, d', e)
  {
    if d' in c2.deployments {
      ExtraListRemove(c1.deployments, c2.deployments, d, x, d', e);
    }
  }

  lemma ExtraRemove(c1: Cluster, c2: Cluster, d: nat, x: ReplicaMsg, w: nat, cpus: int, gpus: int,
                    d': nat, r: nat, w': nat, key: string)
    requires Extra(c1, c2, d, x, w, cpus, gpus) && key == Key(w', r) != x.id
    ensures Extra(Remove(c1, d', r, w').0, Remove(c2, d', r, w').0, d, x, w, cpus, gpus)
  {
    ExtraMapRemove(c1.replicaMap, c2.replicaMap, x, key);
    if key in c2.replicaMap {
      var e := c2.replicaMap[key];
      ExtraLists(c1, c2, d, x, w, cpus, gpus, d', e);
      if Lists(c2, d', e) {
        ExtraRemoveListed(c1, c2, d, x, w, cpus, gpus, d', r, w', key, e);
      }
    }
  }

  lemma {:induction false} ExtraListRemove(ds1: map<nat, Deployment>, ds2: map<nat, Deployment>, d: nat,
                                           x: ReplicaMsg, d': nat, e: ReplicaMsg)
    requires ExtraList(ds1, ds2, d, x) && d' in ds2 && e != x
    ensures e in ds1[d'].replicas <==> e in ds2[d'].replicas
    ensures ExtraList(ds1[d' := ds1[d'].(replicas := RemoveFirst(ds1[d'].replicas, e))],
                      ds2[d' := ds2[d'].(replicas := RemoveFirst(ds2[d'].replicas, e))], d, x)
  {
    InsertedRemove(ds1[d].replicas, ds2[d].replicas, x, e);
    RemoveFirstIds(ds2[d].replicas, e, x.id);
    if d' != d {
      assert ds1[d'] == ds2[d'];
    }
  }

  lemma ExtraRecordRemove(rs1: map<string, Record>, rs2: map<string, Record>, x: string, cpus: int, gpus: int,
                          key: string)
    requires ExtraRecord(rs1, rs2, x, cpus, gpus) && key in rs2
    ensures ExtraRecord(rs1 - {key}, rs2 - {key}, x, cpus, gpus)
    ensures key in rs1 && rs1[key] == rs2[key]
  {
    assert rs1 - {key} == (rs2 - {key})[x := rs1[x]];
  }

  lemma ExtraLoad(c1: Cluster, c2: Cluster, d: nat, x: ReplicaMsg, w: nat, cpus: int, gpus: int,
                  r: nat, w': nat, avg: real, stamp: nat, key: string)
    requires Extra(c1, c2, d, x, w, cpus, gpus) && key == Key(w', r)
    ensures Extra(LoadMetrics(c1, r, w', avg, stamp), LoadMetrics(c2, r, w', avg, stamp), d, x, w, cpus, gpus)
  {
    assert key in c1.records <==> key in c2.records || key == x.id;
    if key in c2.records {
      assert c1.records[key] == c2.records[key];
    }
  }

  lemma ExtraStep(c1: Cluster, c2: Cluster, d: nat, x: ReplicaMsg, w: nat, cpus: int, gpus: int, op: Op)
    requires Extra(c1, c2, d, x, w, cpus, gpus) && Elsewhere(op, x.id, w)
    ensures Extra(Perform(c1, op), Perform(c2, op), d, x, w, cpus, gpus)
  {
    match op
    case AddOp(d', w', content, cpus', gpus', address) =>
      if d' in c2.deployments {
        var e := Entry(w', content, address);
        SingleAdd(c1, d', w', content, cpus', gpus', address);
        SingleAdd(c2, d', w', content, cpus', gpus', address);
        ExtraAdd(c1, c2, d, x, w, cpus, gpus, d', e, cpus', gpus');
        ExtraUse(AddOne(c1, d', e, cpus', gpus'), AddOne(c2, d', e, cpus', gpus'), d, x, w, cpus, gpus,
                 w', cpus', gpus');
      }
    case RemoveOp(d', r, w') => ExtraRemove(c1, c2, d, x, w, cpus, gpus, d', r, w', Key(w', r));
    case LoadOp(r, w', avg, stamp) => ExtraLoad(c1, c2, d, x, w, cpus, gpus, r, w', avg, stamp, Key(w', r));
    case UpsertOp(d', name, version, cpus', gpus') =>
    case NodeOp(w') =>
  }

  lemma SingleAdd(c: Cluster, d: nat, w: nat, content: Content, cpus: int, gpus: int, address: string)
    requires d in c.deployments
    ensures var c1 := AddOne(c, d, Entry(w, content, address), cpus, gpus);
            Perform(c, AddOp(d, w, content, cpus, gpus, address)) == if w in c.nodes then Use(c1, w, cpus, gpus) else c1
  {
    var es := Entries(w, [content], address);
    assert es[..0] == [];
    assert AddEach(c, d, es, cpus, gpus) == AddOne(AddEach(c, d, es[..0], cpus, gpus), d, es[0], cpus, gpus);
  }

  lemma ExtraUse(c1: Cluster, c2: Cluster, d: nat, x: ReplicaMsg, w: nat, cpus: int, gpus: int, w': nat, cpus': int,
                 gpus': int)
    requires Extra(c1, c2, d, x, w, cpus, gpus)
    ensures w' in c1.nodes <==> w' in c2.nodes
    ensures w' in c2.nodes ==> Extra(Use(c1, w', cpus', gpus'), Use(c2, w', cpus', gpus'), d, x, w, cpus, gpus)
  {
  }

  lemma {:induction false} ExtraRun(c1: Cluster, c2: Cluster, d: nat, x: ReplicaMsg, w: nat, cpus: int, gpus: int,
                                    ops: seq<Op>)
    requires Extra(c1, c2, d, x, w, cpus, gpus) && forall op :: op in ops ==> Elsewhere(op, x.id, w)
    ensures Extra(PerformAll(c1, ops), PerformAll(c2, ops), d, x, w, cpus, gpus)
    decreases |ops|
  {
    if ops != [] {
      assert ops[0] in ops;
      ExtraStep(c1, c2, d, x, w, cpus, gpus, ops[0]);
      ExtraRun(Perform(c1, ops[0]), Perform(c2, ops[0]), d, x, w, cpus, gpus, ops[1..]);
    }
  }

  lemma ExtraUndo(c1: Cluster, c2: Cluster, d: nat, w: nat, r: nat, x: ReplicaMsg, cpus: int, gpus: int, key: string)
    requires x.id == key == Key(w, r) && Extra(c1, c2, d, x, w, cpus, gpus)
    ensures Remove(c1, d, r, w) == (c2, Done)
  {
    InsertedUndo(c1.deployments[d].replicas, c2.deployments[d].replicas, x);
    assert c1.replicaMap - {key} == c2.replicaMap;
    assert c1.records - {key} == c2.records;
    var dep := c1.deployments[d].(replicas := c2.deployments[d].replicas);
    assert dep == c2.deployments[d];
    assert c1.deployments[d := dep] == c2.deployments;
    assert Use(c1, w, -cpus, -gpus).nodes == c2.nodes;
  }

  lemma ExtraListStart(ds: map<nat, Deployment>, d: nat, x: ReplicaMsg)
    requires d in ds && forall i :: 0 <= i < |ds[d].replicas| ==> ds[d].replicas[i].id != x.id
    ensures ExtraList(ds[d := ds[d].(replicas := ds[d].replicas + [x])], ds, d, x)
  {
    InsertedLast(ds[d].replicas, x);
  }

  lemma FreshInLists(c: Cluster, d: nat, id: string)
    requires Filed(c) && d in c.deployments && id !in c.replicaMap
    ensures forall i :: 0 <= i < |c.deployments[d].replicas| ==> c.deployments[d].replicas[i].id != id
  {
    assert forall i :: 0 <= i < |c.deployments[d].replicas| ==> Lists(c, d, c.deployments[d].replicas[i]);
  }

  // Right after the add, the only difference is the replica itself.
  lemma ExtraStart(c: Cluster, d: nat, w: nat, x: ReplicaMsg, cpus: int, gpus: int)
    requires Mapped(c) && c.records.Keys == c.replicaMap.Keys && d in c.deployments && w in c.nodes
    requires x.id !in c.replicaMap
    requires forall i :: 0 <= i < |c.deployments[d].replicas| ==> c.deployments[d].replicas[i].id != x.id
    ensures Extra(Use(AddOne(c, d, x, cpus, gpus), w, cpus, gpus), c, d, x, w, cpus, gpus)
  {
    ExtraListStart(c.deployments, d, x);
  }

  // Adding a fresh replica, then anything else, then removing it is the same as
  // doing only the rest: no structure keeps a trace of it.
  lemma {:induction false} AddThenRemove(c: Cluster, d: nat, w: nat, content: Content, cpus: int, gpus: int,
                                         address: string, ops: seq<Op>)
    requires Agree(c) && d in c.deployments && Proper(c, AddOp(d, w, content, cpus, gpus, address))
    requires forall op :: op in ops ==> Elsewhere(op, Key(w, content.replicaId), w)
    ensures Remove(PerformAll(Perform(c, AddOp(d, w, content, cpus, gpus, address)), ops), d, content.replicaId, w)
            == (PerformAll(c, ops), Done)
  {
    var x := Entry(w, content, address);
    var c1 := Perform(c, AddOp(d, w, content, cpus, gpus, address));
    SingleAdd(c, d, w, content, cpus, gpus, address);
    FreshInLists(c, d, x.id);
    ExtraStart(c, d, w, x, cpus, gpus);
    ExtraRun(c1, c, d, x, w, cpus, gpus, ops);
    ExtraUndo(PerformAll(c1, ops), PerformAll(c, ops), d, w, content.replicaId, x, cpus, gpus, x.id);
  }
}
