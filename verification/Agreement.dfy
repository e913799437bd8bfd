/**
 When the four structures stay in agreement: for each operation the exact
 condition under which it keeps them so, and that runs of proper calls do.
 */
module Agreement {
  import opened Common
  import opened Keys
  import opened Balancer
  import opened Sums
  import opened Cluster

  // ---------- adding ----------

  // Adding entries appends them to one list, in order; no other list changes, and no node.
  lemma {:induction false} AddEachAppends(c: Cluster, d: nat, es: seq<ReplicaMsg>, cpus: int, gpus: int)
    requires d in c.deployments
    ensures var c' := AddEach(c, d, es, cpus, gpus);
            && c'.deployments == c.deployments[d := c.deployments[d].(replicas := c.deployments[d].replicas + es)]
            && c'.nodes == c.nodes
  {
    if es == [] {
      assert c.deployments[d].replicas + [] == c.deployments[d].replicas;
    } else {
      var front, e := es[..|es| - 1], es[|es| - 1];
      AddEachAppends(c, d, front, cpus, gpus);
      assert c.deployments[d].replicas + es == c.deployments[d].replicas + front + [e];
    }
  }

  // `es[i]` is the last entry with this id.
  predicate LastWith(es: seq<ReplicaMsg>, key: string, i: int) {
    0 <= i < |es| && es[i].id == key && forall j :: i < j < |es| ==> es[j].id != key
  }

  // It also files each entry under its id, a later one over an earlier one, with a new
  // record of the amounts; under any other id nothing changes.
  lemma {:induction false} AddEachFiles(c: Cluster, d: nat, es: seq<ReplicaMsg>, cpus: int, gpus: int, key: string)
    requires d in c.deployments
    ensures var c' := AddEach(c, d, es, cpus, gpus);
            && (forall i :: LastWith(es, key, i) ==>
                  && key in c'.replicaMap && c'.replicaMap[key] == es[i]
                  && key in c'.records && c'.records[key] == Record(0.0, 0, cpus, gpus))
            && ((forall i :: 0 <= i < |es| ==> es[i].id != key) ==> SameUnder(c, c', key))
  {
    if es != [] {
      var front, e := es[..|es| - 1], es[|es| - 1];
      AddEachFiles(c, d, front, cpus, gpus, key);
      AddOneUnder(AddEach(c, d, front, cpus, gpus), d, e, cpus, gpus, key);
      LastOrBefore(es, key);
    }
  }

  lemma AddOneUnder(c: Cluster, d: nat, e: ReplicaMsg, cpus: int, gpus: int, key: string)
    requires d in c.deployments
    ensures var c' := AddOne(c, d, e, cpus, gpus);
            if key == e.id then key in c'.replicaMap && c'.replicaMap[key] == e
                                && key in c'.records && c'.records[key] == Record(0.0, 0, cpus, gpus)
            else SameUnder(c, c', key)
  {
  }

  lemma LastOrBefore(es: seq<ReplicaMsg>, key: string)
    requires es != []
    ensures var n := |es| - 1;
            if es[n].id == key then forall i :: LastWith(es, key, i) <==> i == n
            else forall i :: LastWith(es, key, i) ==> LastWith(es[..n], key, i)
  {
  }

  // The two clusters have the same under this key, if anything.
  predicate SameUnder(c: Cluster, c': Cluster, key: string) {
    && (key in c'.replicaMap <==> key in c.replicaMap)
    && (key in c.replicaMap ==> c'.replicaMap[key] == c.replicaMap[key])
    && (key in c'.records <==> key in c.records)
    && (key in c.records ==> c'.records[key] == c.records[key])
  }

  // The new entries' ids differ from each other and from every key in use.
  ghost predicate FreshEntries(c: Cluster, es: seq<ReplicaMsg>) {
    UniqueMsgs(es) && forall i :: 0 <= i < |es| ==> es[i].id !in c.replicaMap
  }

  ghost function Ids(es: seq<ReplicaMsg>): set<string> {
    set i | 0 <= i < |es| :: es[i].id
  }

  ghost predicate OnNode(es: seq<ReplicaMsg>, w: nat) {
    forall i :: 0 <= i < |es| ==> WorkerOf(es[i].id) == Some(w)
  }

  lemma AddOneFiled(c: Cluster, d: nat, e: ReplicaMsg, cpus: int, gpus: int)
    requires Filed(c) && d in c.deployments && e.id !in c.replicaMap
    ensures Filed(AddOne(c, d, e, cpus, gpus))
  {
    var c' := AddOne(c, d, e, cpus, gpus);
    var list, list' := c.deployments[d].replicas, c'.deployments[d].replicas;
    assert forall x, x' :: Lists(c', x, x') <==> Lists(c, x, x') || (x == d && x' == e);
    assert forall i :: 0 <= i < |list| ==> Lists(c, d, list[i]);
    assert UniqueMsgs(list');
    forall key | key in c'.replicaMap ensures exists x :: Lists(c', x, c'.replicaMap[key]) {
      if key == e.id {
        assert Lists(c', d, e);
      } else {
        var x :| Lists(c, x, c.replicaMap[key]);
        assert Lists(c', x, c'.replicaMap[key]);
      }
    }
  }

  // A replica listed twice stays listed twice.
  lemma AddOneStuck(c: Cluster, d: nat, e: ReplicaMsg, cpus: int, gpus: int)
    requires d in c.deployments && !UniqueInLists(c)
    ensures !UniqueInLists(AddOne(c, d, e, cpus, gpus))
  {
    var c' := AddOne(c, d, e, cpus, gpus);
    assert forall x, x' :: Lists(c, x, x') ==> Lists(c', x, x');
    if x :| x in c.deployments && !UniqueMsgs(c.deployments[x].replicas) {
      var list := c.deployments[x].replicas;
      assert c'.deployments[x].replicas[..|list|] == list;
      assert !UniqueMsgs(c'.deployments[x].replicas);
    }
  }

  lemma AddOneDuplicate(c: Cluster, d: nat, e: ReplicaMsg, cpus: int, gpus: int)
    requires Filed(c) && d in c.deployments && e.id in c.replicaMap
    ensures !UniqueInLists(AddOne(c, d, e, cpus, gpus))
  {
    var c' := AddOne(c, d, e, cpus, gpus);
    var list, list' := c.deployments[d].replicas, c'.deployments[d].replicas;
    var d0 :| Lists(c, d0, c.replicaMap[e.id]);
    if d0 == d {
      var i :| 0 <= i < |list| && list[i] == c.replicaMap[e.id];
      assert list'[i].id == list'[|list|].id;
    } else {
      assert Lists(c', d0, c.replicaMap[e.id]) && Lists(c', d, e);
    }
  }

  lemma {:induction false} AddEachKeys(c: Cluster, d: nat, es: seq<ReplicaMsg>, cpus: int, gpus: int)
    requires d in c.deployments
    ensures var c' := AddEach(c, d, es, cpus, gpus);
            && c'.replicaMap.Keys == c.replicaMap.Keys + Ids(es)
            && c'.records.Keys == c.records.Keys + Ids(es)
            && c'.nodes == c.nodes
  {
    if es == [] {
      assert Ids(es) == {};
    } else {
      AddEachKeys(c, d, es[..|es| - 1], cpus, gpus);
      assert Ids(es) == Ids(es[..|es| - 1]) + {es[|es| - 1].id};
    }
  }

  lemma LastFresh(c: Cluster, es: seq<ReplicaMsg>)
    requires es != []
    ensures var front, last := es[..|es| - 1], es[|es| - 1];
            FreshEntries(c, es) <==> FreshEntries(c, front) && last.id !in c.replicaMap.Keys + Ids(front)
  {
    var n := |es| - 1;
    var front := es[..n];
    assert forall i :: 0 <= i < n ==> front[i] == es[i] && front[i].id in Ids(front);
  }

  lemma {:induction false} AddEachFiled(c: Cluster, d: nat, es: seq<ReplicaMsg>, cpus: int, gpus: int)
    requires Filed(c) && d in c.deployments
    ensures var c' := AddEach(c, d, es, cpus, gpus);
            if FreshEntries(c, es) then Filed(c') else !UniqueInLists(c')
  {
    if es != [] {
      var front, e := es[..|es| - 1], es[|es| - 1];
      var c1 := AddEach(c, d, front, cpus, gpus);
      AddEachFiled(c, d, front, cpus, gpus);
      AddEachKeys(c, d, front, cpus, gpus);
      LastFresh(c, es);
      if FreshEntries(c, front) {
        if e.id in c1.replicaMap {
          AddOneDuplicate(c1, d, e, cpus, gpus);
        } else {
          AddOneFiled(c1, d, e, cpus, gpus);
        }
      } else {
        AddOneStuck(c1, d, e, cpus, gpus);
      }
    }
  }

  // Each fresh entry adds its own share to a sum over the records.
  lemma {:induction false} AddEachSum(c: Cluster, d: nat, es: seq<ReplicaMsg>, cpus: int, gpus: int,
                                      share: (string, Record) -> int, one: int)
    requires d in c.deployments && c.records.Keys == c.replicaMap.Keys && FreshEntries(c, es)
    requires forall i :: 0 <= i < |es| ==> share(es[i].id, Record(0.0, 0, cpus, gpus)) == one
    ensures Sum(AddEach(c, d, es, cpus, gpus).records, share) == Sum(c.records, share) + |es| * one
  {
    if es != [] {
      var front, e := es[..|es| - 1], es[|es| - 1];
      LastFresh(c, es);
      AddEachSum(c, d, front, cpus, gpus, share, one);
      AddEachKeys(c, d, front, cpus, gpus);
      SumInsert(AddEach(c, d, front, cpus, gpus).records, share, e.id, Record(0.0, 0, cpus, gpus));
      OneMore(|front|, one);
    }
  }

  lemma OneMore(n: nat, x: int)
    ensures (n + 1) * x == n * x + x
  {
  }

  lemma {:induction false} AddEachTotal(c: Cluster, d: nat, es: seq<ReplicaMsg>, cpus: int, gpus: int, n: nat, w: nat)
    requires d in c.deployments && c.records.Keys == c.replicaMap.Keys && FreshEntries(c, es) && OnNode(es, w)
    ensures var before, after := Total(c.records, n), Total(AddEach(c, d, es, cpus, gpus).records, n);
            after == if n == w then Usage(before.cpus + |es| * cpus, before.gpus + |es| * gpus) else before
  {
    AddEachSum(c, d, es, cpus, gpus, CpusOn(n), if n == w then cpus else 0);
    AddEachSum(c, d, es, cpus, gpus, GpusOn(n), if n == w then gpus else 0);
  }

  lemma CoversOne(n: nat, x: int)
    ensures n * x == x <==> n == 1 || x == 0
  {
    assert n * x - x == (n - 1) * x;
  }

  lemma ChargesMatch(u: Usage, n: nat, cpus: int, gpus: int)
    ensures Usage(u.cpus + cpus, u.gpus + gpus) == Usage(u.cpus + n * cpus, u.gpus + n * gpus) <==>
            n == 1 || (cpus == 0 && gpus == 0)
  {
    CoversOne(n, cpus);
    CoversOne(n, gpus);
  }

  // Charging one node puts the totals right exactly when it puts that node right.
  lemma UseCharged(c: Cluster, w: nat, cpus: int, gpus: int)
    requires w in c.nodes && forall n :: n in c.nodes && n != w ==> c.nodes[n] == Total(c.records, n)
    ensures Charged(Use(c, w, cpus, gpus)) <==>
            Usage(c.nodes[w].cpus + cpus, c.nodes[w].gpus + gpus) == Total(c.records, w)
  {
  }

  lemma {:induction false} OthersUncharged(c: Cluster, d: nat, es: seq<ReplicaMsg>, cpus: int, gpus: int, w: nat)
    requires Charged(c) && c.records.Keys == c.replicaMap.Keys && d in c.deployments
    requires FreshEntries(c, es) && OnNode(es, w)
    ensures var c1 := AddEach(c, d, es, cpus, gpus);
            forall n :: n in c1.nodes && n != w ==> c1.nodes[n] == Total(c1.records, n)
  {
    var c1 := AddEach(c, d, es, cpus, gpus);
    AddEachKeys(c, d, es, cpus, gpus);
    forall n | n in c1.nodes && n != w ensures c1.nodes[n] == Total(c1.records, n) {
      AddEachTotal(c, d, es, cpus, gpus, n, w);
    }
  }

  // The one charge is right exactly when it covers every replica added.
  lemma {:induction false} AddCharged(c: Cluster, d: nat, es: seq<ReplicaMsg>, cpus: int, gpus: int, w: nat)
    requires Charged(c) && c.records.Keys == c.replicaMap.Keys && d in c.deployments && w in c.nodes
    requires FreshEntries(c, es) && OnNode(es, w)
    ensures AddEach(c, d, es, cpus, gpus).nodes == c.nodes
    ensures Charged(Use(AddEach(c, d, es, cpus, gpus), w, cpus, gpus)) <==> |es| == 1 || (cpus == 0 && gpus == 0)
  {
    var c1 := AddEach(c, d, es, cpus, gpus);
    AddEachKeys(c, d, es, cpus, gpus);
    OthersUncharged(c, d, es, cpus, gpus, w);
    AddEachTotal(c, d, es, cpus, gpus, w, w);
    UseCharged(c1, w, cpus, gpus);
    ChargesMatch(c.nodes[w], |es|, cpus, gpus);
  }

  lemma {:induction false} AddPlaced(c: Cluster, d: nat, es: seq<ReplicaMsg>, cpus: int, gpus: int, w: nat)
    requires Agree(c) && d in c.deployments && OnNode(es, w)
    ensures Placed(AddEach(c, d, es, cpus, gpus)) <==> w in c.nodes || es == []
  {
    AddEachKeys(c, d, es, cpus, gpus);
    if es != [] {
      assert es[0].id in Ids(es);
    }
  }

  lemma SameLists(c: Cluster, c': Cluster)
    requires c.deployments == c'.deployments && c.replicaMap == c'.replicaMap
    ensures UniqueInLists(c) <==> UniqueInLists(c')
    ensures Filed(c) <==> Filed(c')
  {
    assert forall d, e :: Lists(c, d, e) == Lists(c', d, e);
  }

  lemma {:induction false} AddEntriesAgree(c: Cluster, d: nat, es: seq<ReplicaMsg>, cpus: int, gpus: int, w: nat)
    requires Agree(c) && d in c.deployments && OnNode(es, w)
    ensures var c1 := AddEach(c, d, es, cpus, gpus);
            && c1.nodes == c.nodes
            && (w in c.nodes ==>
                (Agree(Use(c1, w, cpus, gpus)) <==> FreshEntries(c, es) && (|es| == 1 || (cpus == 0 && gpus == 0))))
            && (w !in c.nodes ==> (Agree(c1) <==> es == []))
  {
    var c1 := AddEach(c, d, es, cpus, gpus);
    AddEachFiled(c, d, es, cpus, gpus);
    AddEachKeys(c, d, es, cpus, gpus);
    AddPlaced(c, d, es, cpus, gpus, w);
    if w in c.nodes {
      SameLists(c1, Use(c1, w, cpus, gpus));
      if FreshEntries(c, es) {
        AddCharged(c, d, es, cpus, gpus, w);
      }
    }
  }

  // A worker's keys are fresh when its replica ids are.
  ghost predicate FreshContents(c: Cluster, w: nat, contents: seq<Content>) {
    && (forall i :: 0 <= i < |contents| ==> Key(w, contents[i].replicaId) !in c.replicaMap)
    && (forall i, j :: 0 <= i < j < |contents| ==> contents[i].replicaId != contents[j].replicaId)
  }

  lemma EntriesOn(c: Cluster, w: nat, contents: seq<Content>, address: string)
    ensures OnNode(Entries(w, contents, address), w)
    ensures FreshEntries(c, Entries(w, contents, address)) <==> FreshContents(c, w, contents)
  {
    var es := Entries(w, contents, address);
    forall i | 0 <= i < |es| ensures WorkerOf(es[i].id) == Some(w) {
      WorkerOfKey(w, contents[i].replicaId);
    }
    forall i, j | 0 <= i < j < |es| ensures es[i].id != es[j].id <==> contents[i].replicaId != contents[j].replicaId {
      KeyInjective(w, contents[i].replicaId, w, contents[j].replicaId);
    }
    assert forall i :: 0 <= i < |es| ==> es[i].id == Key(w, contents[i].replicaId);
  }

  // Adding keeps the agreement exactly when there is no such deployment, or there
  // is nothing to add and no node to charge, or the node is registered, the new
  // keys are fresh, and the one charge covers the batch: a single replica, or
  // replicas that use nothing.
  lemma AddAgrees(c: Cluster, d: nat, w: nat, contents: seq<Content>, cpus: int, gpus: int, address: string)
    requires Agree(c)
    ensures Agree(Add(c, d, w, contents, cpus, gpus, address).0) <==>
              || d !in c.deployments
              || (contents == [] && w !in c.nodes)
              || (&& w in c.nodes && FreshContents(c, w, contents)
                  && (|contents| == 1 || (cpus == 0 && gpus == 0)))
  {
    if d in c.deployments {
      EntriesOn(c, w, contents, address);
      AddEntriesAgree(c, d, Entries(w, contents, address), cpus, gpus, w);
    }
  }
}
