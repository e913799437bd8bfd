/**
 Removing replicas, one at a time and by whole health reports: what is left is the
 cluster without the dead replicas, and nothing else depends on how they were
 reported.
 */
module Removal {
  import opened Common
  import opened Keys
  import opened Balancer
  import opened Sums
  import opened Cluster

  // The entries that are not dead, in order.
  function Keep(es: seq<ReplicaMsg>, dead: set<string>): seq<ReplicaMsg> {
    if es == [] then []
    else if es[0].id in dead then Keep(es[1..], dead)
    else [es[0]] + Keep(es[1..], dead)
  }

  function KeepLists(ds: map<nat, Deployment>, dead: set<string>): map<nat, Deployment> {
    map d | d in ds :: ds[d].(replicas := Keep(ds[d].replicas, dead))
  }

  // What each node uses once only these records are left.
  ghost function Recharged(nodes: map<nat, Usage>, records: map<string, Record>): map<nat, Usage> {
    map n | n in nodes :: Total(records, n)
  }

  // The same cluster as if the dead replicas had never been there.
  ghost function Without(c: Cluster, dead: set<string>): Cluster {
    Cluster(KeepLists(c.deployments, dead), c.replicaMap - dead, c.records - dead,
            Recharged(c.nodes, c.records - dead))
  }

  // ---------- lists ----------

  lemma {:induction false} KeepMembers(es: seq<ReplicaMsg>, dead: set<string>, e: ReplicaMsg)
    ensures e in Keep(es, dead) <==> e in es && e.id !in dead
  {
    if es != [] {
      KeepMembers(es[1..], dead, e);
    }
  }

  lemma {:induction false} KeepUnique(es: seq<ReplicaMsg>, dead: set<string>)
    requires UniqueMsgs(es)
    ensures UniqueMsgs(Keep(es, dead))
  {
    if es != [] {
      var rest := es[1..];
      KeepUnique(rest, dead);
      forall i | 0 <= i < |Keep(rest, dead)| ensures Keep(rest, dead)[i].id != es[0].id {
        KeepMembers(rest, dead, Keep(rest, dead)[i]);
        var j :| 0 <= j < |rest| && rest[j] == Keep(rest, dead)[i];
        assert es[j + 1] == rest[j];
      }
    }
  }

  lemma {:induction false} KeepTwice(es: seq<ReplicaMsg>, a: set<string>, b: set<string>)
    ensures Keep(Keep(es, a), b) == Keep(es, a + b)
  {
    if es != [] {
      KeepTwice(es[1..], a, b);
    }
  }

  lemma {:induction false} KeepAll(es: seq<ReplicaMsg>, dead: set<string>)
    requires forall i :: 0 <= i < |es| ==> es[i].id !in dead
    ensures Keep(es, dead) == es
  {
    if es != [] {
      KeepAll(es[1..], dead);
    }
  }

  // With distinct ids, removing the first equal entry is dropping its id.
  lemma {:induction false} RemoveFirstKeeps(es: seq<ReplicaMsg>, e: ReplicaMsg)
    requires UniqueMsgs(es) && e in es
    ensures RemoveFirst(es, e) == Keep(es, {e.id})
  {
    if es[0] == e {
      KeepAll(es[1..], {e.id});
    } else {
      var i :| 0 <= i < |es| && es[i] == e;
      assert es[0].id != es[i].id;
      RemoveFirstKeeps(es[1..], e);
    }
  }

  // ---------- the cluster without the dead ----------

  lemma WithoutLists(c: Cluster, dead: set<string>)
    ensures forall d, e :: Lists(Without(c, dead), d, e) <==> Lists(c, d, e) && e.id !in dead
  {
    forall d, e ensures Lists(Without(c, dead), d, e) <==> Lists(c, d, e) && e.id !in dead {
      if d in c.deployments {
        KeepMembers(c.deployments[d].replicas, dead, e);
      }
    }
  }

  lemma WithoutFiled(c: Cluster, dead: set<string>)
    requires Filed(c)
    ensures Filed(Without(c, dead))
  {
    var c' := Without(c, dead);
    WithoutLists(c, dead);
    forall d | d in c.deployments ensures UniqueMsgs(c'.deployments[d].replicas) {
      KeepUnique(c.deployments[d].replicas, dead);
    }
    forall key | key in c'.replicaMap ensures exists d :: Lists(c', d, c'.replicaMap[key]) {
      var d :| Lists(c, d, c.replicaMap[key]);
      assert Lists(c', d, c'.replicaMap[key]);
    }
  }

  lemma WithoutPlaced(c: Cluster, dead: set<string>)
    requires Placed(c)
    ensures Placed(Without(c, dead)) && Charged(Without(c, dead))
  {
  }

  lemma WithoutAgree(c: Cluster, dead: set<string>)
    requires Agree(c)
    ensures Agree(Without(c, dead))
  {
    WithoutFiled(c, dead);
    WithoutPlaced(c, dead);
  }

  lemma {:induction false} KeepListsIs(ds: map<nat, Deployment>, dead: set<string>, ds': map<nat, Deployment>)
    requires ds'.Keys == ds.Keys && forall d :: d in ds ==> ds'[d] == ds[d].(replicas := Keep(ds[d].replicas, dead))
    ensures KeepLists(ds, dead) == ds'
  {
  }

  lemma KeepListsTwice(ds: map<nat, Deployment>, a: set<string>, b: set<string>)
    ensures KeepLists(KeepLists(ds, a), b) == KeepLists(ds, a + b)
  {
    forall d | d in ds ensures Keep(Keep(ds[d].replicas, a), b) == Keep(ds[d].replicas, a + b) {
      KeepTwice(ds[d].replicas, a, b);
    }
  }

  lemma WithoutTwice(c: Cluster, a: set<string>, b: set<string>)
    ensures Without(Without(c, a), b) == Without(c, a + b)
  {
    KeepListsTwice(c.deployments, a, b);
    assert c.records - a - b == c.records - (a + b);
    assert c.replicaMap - a - b == c.replicaMap - (a + b);
    assert Recharged(Recharged(c.nodes, c.records - a), c.records - a - b) == Recharged(c.nodes, c.records - a - b);
  }

  lemma KeepListsAll(c: Cluster, dead: set<string>)
    requires Filed(c) && dead !! c.replicaMap.Keys
    ensures KeepLists(c.deployments, dead) == c.deployments
  {
    forall d | d in c.deployments ensures Keep(c.deployments[d].replicas, dead) == c.deployments[d].replicas {
      assert forall i :: 0 <= i < |c.deployments[d].replicas| ==> Lists(c, d, c.deployments[d].replicas[i]);
      KeepAll(c.deployments[d].replicas, dead);
    }
    KeepListsIs(c.deployments, dead, c.deployments);
  }

  lemma WithoutNone(c: Cluster, dead: set<string>)
    requires Agree(c) && dead !! c.replicaMap.Keys
    ensures Without(c, dead) == c
  {
    KeepListsAll(c, dead);
    RechargedIs(c.nodes, c.records, c.nodes);
    assert c.replicaMap - dead == c.replicaMap;
    assert c.records - dead == c.records;
  }

  lemma RechargedIs(nodes: map<nat, Usage>, records: map<string, Record>, nodes': map<nat, Usage>)
    requires nodes'.Keys == nodes.Keys && forall n :: n in nodes ==> nodes'[n] == Total(records, n)
    ensures Recharged(nodes, records) == nodes'
  {
  }

  // ---------- one removal ----------

  // The named deployment lists the replica the map has under this key.
  ghost predicate NamesIt(c: Cluster, d: nat, key: string) {
    key in c.replicaMap ==> Lists(c, d, c.replicaMap[key])
  }

  lemma RemoveTotal(c: Cluster, key: string, w: nat, n: nat)
    requires key in c.records && WorkerOf(key) == Some(w)
    ensures var before, after := Total(c.records, n), Total(c.records - {key}, n);
            after == if n != w then before
                     else Usage(before.cpus - c.records[key].cpus, before.gpus - c.records[key].gpus)
  {
    SumSplit(c.records, CpusOn(n), key);
    SumSplit(c.records, GpusOn(n), key);
  }

  lemma RemoveLists(c: Cluster, d: nat, key: string, d': nat)
    requires Agree(c) && key in c.replicaMap && Lists(c, d, c.replicaMap[key]) && d' in c.deployments
    ensures Keep(c.deployments[d'].replicas, {key}) ==
            if d' == d then RemoveFirst(c.deployments[d].replicas, c.replicaMap[key]) else c.deployments[d'].replicas
  {
    var es := c.deployments[d'].replicas;
    if d' == d {
      RemoveFirstKeeps(es, c.replicaMap[key]);
    } else {
      forall i | 0 <= i < |es| ensures es[i].id != key {
        assert Lists(c, d', es[i]);
      }
      KeepAll(es, {key});
    }
  }

  lemma RemoveIsWithout(c: Cluster, d: nat, r: nat, w: nat)
    requires Agree(c) && NamesIt(c, d, Key(w, r))
    ensures Remove(c, d, r, w) == (Without(c, {Key(w, r)}), if Key(w, r) in c.replicaMap then Done else Refused)
  {
    var key := Key(w, r);
    if key in c.replicaMap {
      WorkerOfKey(w, r);
      RemoveAt(c, d, r, w, key);
    } else {
      WithoutNone(c, {key});
      assert c.replicaMap - {key} == c.replicaMap;
    }
  }

  lemma RemoveRecharges(c: Cluster, key: string, w: nat)
    requires Agree(c) && key in c.records && WorkerOf(key) == Some(w)
    ensures w in c.nodes
    ensures Recharged(c.nodes, c.records - {key}) ==
            Use(c, w, -c.records[key].cpus, -c.records[key].gpus).nodes
  {
    var nodes' := Use(c, w, -c.records[key].cpus, -c.records[key].gpus).nodes;
    forall n | n in c.nodes ensures nodes'[n] == Total(c.records - {key}, n) {
      RemoveTotal(c, key, w, n);
    }
    RechargedIs(c.nodes, c.records - {key}, nodes');
  }

  lemma RemoveKeepsLists(c: Cluster, d: nat, key: string)
    requires Agree(c) && key in c.replicaMap && Lists(c, d, c.replicaMap[key])
    ensures KeepLists(c.deployments, {key}) ==
            c.deployments[d := c.deployments[d].(replicas := RemoveFirst(c.deployments[d].replicas, c.replicaMap[key]))]
  {
    var es := RemoveFirst(c.deployments[d].replicas, c.replicaMap[key]);
    var ds' := c.deployments[d := c.deployments[d].(replicas := es)];
    forall d' | d' in c.deployments
      ensures ds'[d'] == c.deployments[d'].(replicas := Keep(c.deployments[d'].replicas, {key}))
    {
      RemoveLists(c, d, key, d');
    }
    KeepListsIs(c.deployments, {key}, ds');
  }

  // What a removal does to each structure when it goes through.
  lemma RemoveParts(c: Cluster, d: nat, r: nat, w: nat, key: string)
    requires key == Key(w, r) && key in c.replicaMap && Lists(c, d, c.replicaMap[key])
    requires key in c.records && w in c.nodes
    ensures var es := RemoveFirst(c.deployments[d].replicas, c.replicaMap[key]);
            Remove(c, d, r, w) ==
            (Cluster(c.deployments[d := c.deployments[d].(replicas := es)], c.replicaMap - {key}, c.records - {key},
                     Use(c, w, -c.records[key].cpus, -c.records[key].gpus).nodes), Done)
  {
  }

  lemma RemoveAt(c: Cluster, d: nat, r: nat, w: nat, key: string)
    requires Agree(c) && key == Key(w, r) && WorkerOf(key) == Some(w)
    requires key in c.replicaMap && Lists(c, d, c.replicaMap[key])
    ensures Remove(c, d, r, w) == (Without(c, {key}), Done)
  {
    RemoveKeepsLists(c, d, key);
    RemoveRecharges(c, key, w);
    RemoveParts(c, d, r, w, key);
  }

  // A removal keeps the agreement exactly when the replica is unknown or the
  // deployment named is the one that lists it: otherwise the map forgets a replica
  // that the other structures keep.
  lemma RemoveAgrees(c: Cluster, d: nat, r: nat, w: nat)
    requires Agree(c)
    ensures Agree(Remove(c, d, r, w).0) <==> NamesIt(c, d, Key(w, r))
  {
    var key := Key(w, r);
    if NamesIt(c, d, key) {
      RemoveIsWithout(c, d, r, w);
      WithoutAgree(c, {key});
    } else {
      var c' := Remove(c, d, r, w).0;
      var d0 :| Lists(c, d0, c.replicaMap[key]);
      assert Lists(c', d0, c.replicaMap[key]) && key !in c'.replicaMap;
    }
  }

  // ---------- health reports ----------

  datatype ReplicaState = ReplicaState(replicaId: nat, deploymentId: nat, status: string)

  predicate IsDead(s: ReplicaState) {
    s.status == "DEAD"
  }

  predicate AnyDead(states: seq<ReplicaState>) {
    exists s :: s in states && IsDead(s)
  }

  // One entry, and whether its removal raised.
  function ReportEntry(c: Cluster, w: nat, entry: ReplicaState): (Cluster, bool) {
    if IsDead(entry) then
      var (c', outcome) := Remove(c, entry.deploymentId, entry.replicaId, w);
      (c', outcome.Raised?)
    else (c, false)
  }

  // One worker's report, entry by entry, until a removal raises.
  function Report(c: Cluster, w: nat, states: seq<ReplicaState>): (Cluster, bool) {
    if states == [] then (c, false)
    else
      var (c1, raised) := Report(c, w, states[..|states| - 1]);
      if raised then (c1, true) else ReportEntry(c1, w, states[|states| - 1])
  }

  // An entry with any other status might as well not be there, wherever it stands.
  lemma {:induction false} OtherStatus(c: Cluster, w: nat, before: seq<ReplicaState>, entry: ReplicaState,
                                       later: seq<ReplicaState>)
    requires entry.status != "DEAD"
    ensures Report(c, w, before + [entry] + later) == Report(c, w, before + later)
    ensures AnyDead(before + [entry] + later) <==> AnyDead(before + later)
    decreases |later|
  {
    if later == [] {
      assert before + [entry] + [] == before + [entry] && before + [] == before;
      assert (before + [entry])[..|before|] == before;
    } else {
      var front, last := later[..|later| - 1], later[|later| - 1];
      OtherStatus(c, w, before, entry, front);
      assert before + [entry] + later == (before + [entry] + front) + [last];
      assert before + later == (before + front) + [last];
      assert (before + [entry] + later)[..|before + [entry] + front|] == before + [entry] + front;
      assert (before + later)[..|before + front|] == before + front;
      assert AnyDead(before + [entry] + later) <==> AnyDead(before + [entry] + front) || IsDead(last);
    }
  }

  // So a report with nothing dead in it changes nothing.
  lemma {:induction false} NoneDead(c: Cluster, w: nat, states: seq<ReplicaState>)
    requires forall i :: 0 <= i < |states| ==> states[i].status != "DEAD"
    ensures Report(c, w, states) == (c, false) && !AnyDead(states)
  {
    if states != [] {
      var front, last := states[..|states| - 1], states[|states| - 1];
      NoneDead(c, w, front);
      OtherStatus(c, w, front, last, []);
      assert front + [last] + [] == states && front + [] == front;
    }
  }

  // What every removal needs in order not to raise, and keeps.
  ghost predicate Complete(c: Cluster) {
    && c.replicaMap.Keys <= c.records.Keys
    && (forall key :: key in c.replicaMap ==> WorkerOf(key).Some? && WorkerOf(key).value in c.nodes)
  }

  lemma RemoveComplete(c: Cluster, d: nat, r: nat, w: nat)
    requires Complete(c)
    ensures Complete(Remove(c, d, r, w).0) && !Remove(c, d, r, w).1.Raised?
  {
    WorkerOfKey(w, r);
  }

  // From structures that agree no report raises, not even one that names the wrong
  // deployments.
  lemma {:induction false} ReportCompletes(c: Cluster, w: nat, states: seq<ReplicaState>)
    requires Agree(c)
    ensures Complete(Report(c, w, states).0) && !Report(c, w, states).1
  {
    if states != [] {
      var front, last := states[..|states| - 1], states[|states| - 1];
      ReportCompletes(c, w, front);
      RemoveComplete(Report(c, w, front).0, last.deploymentId, last.replicaId, w);
    }
  }

  ghost function DeadKeys(w: nat, states: seq<ReplicaState>): set<string> {
    set s | s in states && IsDead(s) :: Key(w, s.replicaId)
  }

  // The replicas whose first DEAD entry names the deployment that lists them.
  ghost function RightKeys(c: Cluster, w: nat, states: seq<ReplicaState>): set<string> {
    if states == [] then {}
    else
      var front, last := states[..|states| - 1], states[|states| - 1];
      var key := Key(w, last.replicaId);
      RightKeys(c, w, front) +
      if IsDead(last) && key !in DeadKeys(w, front)
         && key in c.replicaMap && Lists(c, last.deploymentId, c.replicaMap[key])
      then {key} else {}
  }

  // Every dead key leaves the map; only the right ones leave the other structures.
  ghost function Struck(c: Cluster, right: set<string>, dead: set<string>): Cluster {
    Without(c, right).(replicaMap := c.replicaMap - dead)
  }

  lemma DeadGrow(w: nat, front: seq<ReplicaState>, last: ReplicaState)
    ensures DeadKeys(w, front + [last]) == DeadKeys(w, front) + if IsDead(last) then {Key(w, last.replicaId)} else {}
  {
  }

  lemma {:induction false} RightAreDead(c: Cluster, w: nat, states: seq<ReplicaState>)
    ensures RightKeys(c, w, states) <= DeadKeys(w, states)
  {
    if states != [] {
      var front, last := states[..|states| - 1], states[|states| - 1];
      RightAreDead(c, w, front);
      DeadGrow(w, front, last);
      assert states == front + [last];
    }
  }

  // A removal looks nothing up in the map but its own key.
  lemma RemoveUnder(c: Cluster, gone: set<string>, d: nat, r: nat, w: nat, key: string)
    requires key == Key(w, r) && key !in gone
    ensures var c' := c.(replicaMap := c.replicaMap - gone);
            && Remove(c', d, r, w).1 == Remove(c, d, r, w).1
            && Remove(c', d, r, w).0 == Remove(c, d, r, w).0.(replicaMap := c.replicaMap - (gone + {key}))
  {
    assert c.replicaMap - gone - {key} == c.replicaMap - (gone + {key});
  }

  lemma RemoveUnknown(c: Cluster, d: nat, r: nat, w: nat)
    requires Key(w, r) !in c.replicaMap
    ensures Remove(c, d, r, w) == (c, Refused)
  {
    assert c.replicaMap - {Key(w, r)} == c.replicaMap;
  }

  lemma StrikeUnder(c: Cluster, gone: set<string>, d: nat, r: nat, w: nat, key: string)
    requires Agree(c) && key == Key(w, r) && key !in gone
    requires key in c.replicaMap && Lists(c, d, c.replicaMap[key])
    ensures Remove(c.(replicaMap := c.replicaMap - gone), d, r, w) ==
            (Without(c, {key}).(replicaMap := c.replicaMap - (gone + {key})), Done)
  {
    RemoveIsWithout(c, d, r, w);
    RemoveUnder(c, gone, d, r, w, key);
  }

  lemma StruckMap(m: map<string, ReplicaMsg>, right: set<string>, dead: set<string>)
    requires right <= dead
    ensures m - right - dead == m - dead
  {
  }

  // The first DEAD entry of a key that names the right deployment.
  lemma StrikeRight(c: Cluster, right: set<string>, dead: set<string>, d: nat, r: nat, w: nat, key: string)
    requires Agree(c) && right <= dead && key == Key(w, r) && key !in dead
    requires key in c.replicaMap && Lists(c, d, c.replicaMap[key])
    ensures Remove(Struck(c, right, dead), d, r, w) == (Struck(c, right + {key}, dead + {key}), Done)
  {
    WithoutAgree(c, right);
    WithoutLists(c, right);
    StrikeUnder(Without(c, right), dead, d, r, w, key);
    WithoutTwice(c, right, {key});
    StruckMap(c.replicaMap, right, dead);
    StruckMap(c.replicaMap, right, dead + {key});
  }

  // The first DEAD entry of a key that names another deployment, or an unknown key.
  lemma StrikeWrong(c: Cluster, right: set<string>, dead: set<string>, d: nat, r: nat, w: nat, key: string)
    requires key == Key(w, r)
    requires key in c.replicaMap && key !in dead ==> !Lists(c, d, c.replicaMap[key])
    ensures Remove(Struck(c, right, dead), d, r, w) == (Struck(c, right, dead + {key}), Refused)
  {
    WithoutLists(c, right);
    var c1 := Struck(c, right, dead);
    assert forall d', e :: Lists(c1, d', e) == Lists(Without(c, right), d', e);
    assert c1.replicaMap - {key} == c.replicaMap - (dead + {key});
  }

  // What any report at all does to structures that agree, whatever deployments it names.
  lemma {:induction false} ReportExact(c: Cluster, w: nat, states: seq<ReplicaState>)
    requires Agree(c)
    ensures Report(c, w, states) == (Struck(c, RightKeys(c, w, states), DeadKeys(w, states)), false)
  {
    if states == [] {
      assert DeadKeys(w, states) == {};
      StruckNothing(c);
    } else {
      var front, last := states[..|states| - 1], states[|states| - 1];
      assert states == front + [last];
      ReportExact(c, w, front);
      OneMoreEntry(c, w, front, last);
    }
  }

  lemma StruckNothing(c: Cluster)
    requires Agree(c)
    ensures Struck(c, {}, {}) == c
  {
    WithoutNone(c, {});
    assert c.replicaMap - {} == c.replicaMap;
  }

  lemma {:induction false} OneMoreEntry(c: Cluster, w: nat, front: seq<ReplicaState>, last: ReplicaState)
    requires Agree(c) && Report(c, w, front) == (Struck(c, RightKeys(c, w, front), DeadKeys(w, front)), false)
    ensures var states := front + [last];
            Report(c, w, states) == (Struck(c, RightKeys(c, w, states), DeadKeys(w, states)), false)
  {
    StrikeEntry(c, w, front, last);
    ReportMore(c, w, front, last);
  }

  lemma {:induction false} ReportMore(c: Cluster, w: nat, front: seq<ReplicaState>, last: ReplicaState)
    requires !Report(c, w, front).1
    ensures Report(c, w, front + [last]) == ReportEntry(Report(c, w, front).0, w, last)
  {
    assert (front + [last])[..|front|] == front;
  }

  lemma {:induction false} StrikeEntry(c: Cluster, w: nat, front: seq<ReplicaState>, last: ReplicaState)
    requires Agree(c)
    ensures var states := front + [last];
            ReportEntry(Struck(c, RightKeys(c, w, front), DeadKeys(w, front)), w, last) ==
            (Struck(c, RightKeys(c, w, states), DeadKeys(w, states)), false)
  {
    DeadGrow(w, front, last);
    if IsDead(last) {
      StrikeDead(c, w, front, last, DeadKeys(w, front + [last]));
    } else {
      RightStay(c, w, front, last);
      assert DeadKeys(w, front + [last]) == DeadKeys(w, front);
    }
  }

  lemma {:induction false} StrikeDead(c: Cluster, w: nat, front: seq<ReplicaState>, last: ReplicaState,
                                      dead': set<string>)
    requires Agree(c) && IsDead(last) && dead' == DeadKeys(w, front) + {Key(w, last.replicaId)}
    ensures ReportEntry(Struck(c, RightKeys(c, w, front), DeadKeys(w, front)), w, last) ==
            (Struck(c, RightKeys(c, w, front + [last]), dead'), false)
  {
    StrikeNext(c, w, front, last, Key(w, last.replicaId), dead');
    EntryRemoves(Struck(c, RightKeys(c, w, front), DeadKeys(w, front)), w, last,
                 Struck(c, RightKeys(c, w, front + [last]), dead'));
  }

  lemma EntryRemoves(c: Cluster, w: nat, entry: ReplicaState, c': Cluster)
    requires IsDead(entry) && Remove(c, entry.deploymentId, entry.replicaId, w).0 == c'
    requires !Remove(c, entry.deploymentId, entry.replicaId, w).1.Raised?
    ensures ReportEntry(c, w, entry) == (c', false)
  {
  }

  lemma {:induction false} RightStay(c: Cluster, w: nat, front: seq<ReplicaState>, last: ReplicaState)
    requires !IsDead(last)
    ensures RightKeys(c, w, front + [last]) == RightKeys(c, w, front)
  {
    assert (front + [last])[..|front|] == front;
  }

  lemma {:induction false} StrikeNext(c: Cluster, w: nat, front: seq<ReplicaState>, last: ReplicaState, key: string,
                                      dead': set<string>)
    requires Agree(c) && IsDead(last) && key == Key(w, last.replicaId) && dead' == DeadKeys(w, front) + {key}
    ensures var right, dead := RightKeys(c, w, front), DeadKeys(w, front);
            var (c', outcome) := Remove(Struck(c, right, dead), last.deploymentId, last.replicaId, w);
            && c' == Struck(c, RightKeys(c, w, front + [last]), dead')
            && !outcome.Raised?
  {
    var right, dead := RightKeys(c, w, front), DeadKeys(w, front);
    assert (front + [last])[..|front|] == front;
    RightAreDead(c, w, front);
    if key !in dead && key in c.replicaMap && Lists(c, last.deploymentId, c.replicaMap[key]) {
      StrikeRight(c, right, dead, last.deploymentId, last.replicaId, w, key);
    } else {
      StrikeWrong(c, right, dead, last.deploymentId, last.replicaId, w, key);
      assert RightKeys(c, w, front + [last]) == right + {} == right;
    }
  }

  // Entry `i` is the first of a report to say that its replica is dead.
  ghost predicate FirstDead(states: seq<ReplicaState>, i: nat)
    requires i < |states|
  {
    IsDead(states[i]) && forall j :: 0 <= j < i && IsDead(states[j]) ==> states[j].replicaId != states[i].replicaId
  }

  // For each replica the first entry that says it is dead names the deployment that
  // lists it, if any does.
  ghost predicate WellNamed(c: Cluster, w: nat, states: seq<ReplicaState>) {
    forall i :: 0 <= i < |states| && FirstDead(states, i) ==>
      NamesIt(c, states[i].deploymentId, Key(w, states[i].replicaId))
  }

  lemma DeadBefore(w: nat, states: seq<ReplicaState>, last: ReplicaState)
    ensures Key(w, last.replicaId) in DeadKeys(w, states) <==>
            exists j :: 0 <= j < |states| && IsDead(states[j]) && states[j].replicaId == last.replicaId
  {
    forall j | 0 <= j < |states| ensures Key(w, states[j].replicaId) == Key(w, last.replicaId) <==>
                                         states[j].replicaId == last.replicaId
    {
      KeyInjective(w, states[j].replicaId, w, last.replicaId);
    }
    if Key(w, last.replicaId) in DeadKeys(w, states) {
      var s :| s in states && IsDead(s) && Key(w, s.replicaId) == Key(w, last.replicaId);
      var j :| 0 <= j < |states| && states[j] == s;
    }
    if j :| 0 <= j < |states| && IsDead(states[j]) && states[j].replicaId == last.replicaId {
      assert states[j] in states;
    }
  }

  lemma FirstOfMore(front: seq<ReplicaState>, last: ReplicaState)
    ensures forall i :: 0 <= i < |front| ==> FirstDead(front + [last], i) == FirstDead(front, i)
    ensures FirstDead(front + [last], |front|) <==>
            IsDead(last) && forall j :: 0 <= j < |front| && IsDead(front[j]) ==> front[j].replicaId != last.replicaId
  {
    var states := front + [last];
    assert forall j :: 0 <= j < |front| ==> states[j] == front[j];
  }

  lemma WellNamedMore(c: Cluster, w: nat, front: seq<ReplicaState>, last: ReplicaState)
    ensures WellNamed(c, w, front + [last]) <==>
            && WellNamed(c, w, front)
            && (FirstDead(front + [last], |front|) ==> NamesIt(c, last.deploymentId, Key(w, last.replicaId)))
  {
    FirstOfMore(front, last);
    var states := front + [last];
    assert forall i :: 0 <= i < |front| ==> states[i] == front[i];
    assert states[|front|] == last;
  }

  // A report is well named exactly when all its dead keys that the map has are right.
  lemma {:induction false} WellNamedIsRight(c: Cluster, w: nat, states: seq<ReplicaState>)
    ensures WellNamed(c, w, states) <==> DeadKeys(w, states) * c.replicaMap.Keys <= RightKeys(c, w, states)
  {
    if states != [] {
      var front, last := states[..|states| - 1], states[|states| - 1];
      assert states == front + [last];
      WellNamedIsRight(c, w, front);
      WellNamedMore(c, w, front, last);
      FirstOfMore(front, last);
      DeadBefore(w, front, last);
      DeadGrow(w, front, last);
      RightAreDead(c, w, front);
    }
  }

  // A well-named report removes exactly the replicas it lists as dead, from all four
  // structures, and keeps the others in order; any other report leaves the map without
  // a replica that is still listed.
  lemma {:induction false} ReportRemovesDead(c: Cluster, w: nat, states: seq<ReplicaState>)
    requires Agree(c)
    ensures Report(c, w, states) == (Without(c, DeadKeys(w, states)), false) <==> WellNamed(c, w, states)
    ensures Agree(Report(c, w, states).0) <==> WellNamed(c, w, states)
  {
    var right, dead := RightKeys(c, w, states), DeadKeys(w, states);
    ReportExact(c, w, states);
    WellNamedIsRight(c, w, states);
    RightAreDead(c, w, states);
    WithoutAgree(c, dead);
    if WellNamed(c, w, states) {
      StruckRight(c, right, dead);
    } else {
      var key :| key in dead && key in c.replicaMap && key !in right;
      StruckWrong(c, right, dead, key);
    }
  }

  lemma StruckRight(c: Cluster, right: set<string>, dead: set<string>)
    requires Agree(c) && right <= dead && dead * c.replicaMap.Keys <= right
    ensures Struck(c, right, dead) == Without(c, dead)
  {
    WithoutAgree(c, right);
    WithoutTwice(c, right, dead - right);
    WithoutNone(Without(c, right), dead - right);
    assert right + (dead - right) == dead;
  }

  lemma StruckWrong(c: Cluster, right: set<string>, dead: set<string>, key: string)
    requires Agree(c) && key in dead && key in c.replicaMap && key !in right
    ensures !Agree(Struck(c, right, dead))
  {
    var c' := Struck(c, right, dead);
    WithoutLists(c, right);
    var d :| Lists(c, d, c.replicaMap[key]);
    assert Lists(Without(c, right), d, c.replicaMap[key]);
    assert Lists(c', d, c.replicaMap[key]) && key !in c'.replicaMap;
  }

  // Two reports of the same dead replicas, in any order and with any repetitions, lead
  // to the same state exactly when they name the same replicas rightly.
  lemma {:induction false} ReportOrderIrrelevant(c: Cluster, w: nat, states: seq<ReplicaState>,
                                                 states': seq<ReplicaState>)
    requires Agree(c) && DeadKeys(w, states) == DeadKeys(w, states')
    ensures Report(c, w, states) == Report(c, w, states') <==> RightKeys(c, w, states) == RightKeys(c, w, states')
    ensures WellNamed(c, w, states) && WellNamed(c, w, states') ==> Report(c, w, states) == Report(c, w, states')
  {
    var right, right', dead := RightKeys(c, w, states), RightKeys(c, w, states'), DeadKeys(w, states);
    ReportExact(c, w, states);
    ReportExact(c, w, states');
    RightAreMapped(c, w, states);
    RightAreMapped(c, w, states');
    if right != right' {
      var key :| key in c.replicaMap && ((key in right) != (key in right'));
      assert key in c.records;
      assert key in Struck(c, right, dead).records <==> key !in right;
      assert key in Struck(c, right', dead).records <==> key !in right';
    }
    if WellNamed(c, w, states) && WellNamed(c, w, states') {
      ReportRemovesDead(c, w, states);
      ReportRemovesDead(c, w, states');
    }
  }

  lemma {:induction false} RightAreMapped(c: Cluster, w: nat, states: seq<ReplicaState>)
    ensures RightKeys(c, w, states) <= c.replicaMap.Keys
  {
    if states != [] {
      RightAreMapped(c, w, states[..|states| - 1]);
    }
  }

  lemma {:induction false} NothingLeftToStrike(c: Cluster, w: nat, states: seq<ReplicaState>)
    requires DeadKeys(w, states) !! c.replicaMap.Keys
    ensures Report(c, w, states) == (c, false)
  {
    if states != [] {
      var front, last := states[..|states| - 1], states[|states| - 1];
      assert states == front + [last];
      DeadGrow(w, front, last);
      NothingLeftToStrike(c, w, front);
      if IsDead(last) {
        RemoveUnknown(c, last.deploymentId, last.replicaId, w);
      }
    }
  }

  // The same report a second time changes nothing, and frees nothing twice.
  lemma {:induction false} ReportIdempotent(c: Cluster, w: nat, states: seq<ReplicaState>)
    requires Agree(c)
    ensures Report(Report(c, w, states).0, w, states) == Report(c, w, states)
  {
    ReportExact(c, w, states);
    NothingLeftToStrike(Report(c, w, states).0, w, states);
  }
}
