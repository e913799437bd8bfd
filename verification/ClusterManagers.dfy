/**
 The head's managers as objects: node totals, autoscaler records and the deployment
 manager that drives both. What each call does to the whole is the function of
 Cluster.dfy with the same name.
 */
module ClusterManagers {
  import opened Common
  import opened Keys
  import opened Balancer
  import opened Cluster
  import opened Agreement

  class NodeInfo {
    var nodeMap: map<nat, Usage>

    constructor ()
      ensures nodeMap == map[]
    {
      nodeMap := map[];
    }

    method AddNode(w: nat)
      modifies this
      ensures nodeMap == old(nodeMap)[w := Usage(0, 0)]
    {
      nodeMap := nodeMap[w := Usage(0, 0)];
    }

    // Raises, and changes nothing, when the node is unknown.
    method UpdateResources(w: nat, cpus: int, gpus: int, add: bool) returns (raised: bool)
      modifies this
      ensures raised <==> w !in old(nodeMap)
      ensures nodeMap ==
              if raised then old(nodeMap)
              else old(nodeMap)[w := if add then Usage(old(nodeMap)[w].cpus + cpus, old(nodeMap)[w].gpus + gpus)
                                     else Usage(old(nodeMap)[w].cpus - cpus, old(nodeMap)[w].gpus - gpus)]
    {
      if w !in nodeMap {
        return true;
      }
      var used := nodeMap[w];
      if add {
        used := used.(cpus := used.cpus + cpus);
        used := used.(gpus := used.gpus + gpus);
      } else {
        used := used.(cpus := used.cpus - cpus);
        used := used.(gpus := used.gpus - gpus);
      }
      nodeMap := nodeMap[w := used];
      raised := false;
    }
  }

  class AutoScaleManager {
    var replicaMap: map<string, Record>

    constructor ()
      ensures replicaMap == map[]
    {
      replicaMap := map[];
    }

    method AddReplica(w: nat, r: nat, cpus: int, gpus: int)
      modifies this
      ensures replicaMap == old(replicaMap)[Key(w, r) := Record(0.0, 0, cpus, gpus)]
    {
      replicaMap := replicaMap[Key(w, r) := Record(0.0, 0, cpus, gpus)];
    }

    // The amounts to give back; raises, and changes nothing, when there is no record.
    method RemoveReplica(w: nat, r: nat) returns (amounts: Option<(int, int)>)
      modifies this
      ensures amounts == if Key(w, r) in old(replicaMap)
                         then Some((old(replicaMap)[Key(w, r)].cpus, old(replicaMap)[Key(w, r)].gpus)) else None
      ensures replicaMap == old(replicaMap) - {Key(w, r)}
    {
      var key := Key(w, r);
      if key !in replicaMap {
        assert replicaMap == replicaMap - {key};
        return None;
      }
      amounts := Some((replicaMap[key].cpus, replicaMap[key].gpus));
      replicaMap := replicaMap - {key};
    }

    method LoadMetrics(w: nat, r: nat, avg: real, stamp: nat)
      modifies this
      ensures replicaMap == if Key(w, r) in old(replicaMap)
                            then old(replicaMap)[Key(w, r) :=
                                   old(replicaMap)[Key(w, r)].(avgRequests := avg, stamp := stamp)]
                            else old(replicaMap)
    {
      var key := Key(w, r);
      if key !in replicaMap {
        return;
      }
      replicaMap := replicaMap[key := replicaMap[key].(avgRequests := avg)];
      replicaMap := replicaMap[key := replicaMap[key].(stamp := stamp)];
    }
  }

  class DeploymentManager {
    var deployments: map<nat, Deployment>
    var replicaMap: map<string, ReplicaMsg>
    const nodeInfoCache: NodeInfo
    const autoScaleManager: AutoScaleManager

    // The three objects together.
    ghost function View(): Cluster
      reads this, nodeInfoCache, autoScaleManager
    {
      Cluster(deployments, replicaMap, autoScaleManager.replicaMap, nodeInfoCache.nodeMap)
    }

    constructor (nodeInfoCache: NodeInfo, autoScaleManager: AutoScaleManager)
      ensures deployments == map[] && replicaMap == map[]
      ensures this.nodeInfoCache == nodeInfoCache && this.autoScaleManager == autoScaleManager
    {
      deployments, replicaMap := map[], map[];
      this.nodeInfoCache, this.autoScaleManager := nodeInfoCache, autoScaleManager;
    }

    method AddOrUpdateDeployment(d: nat, name: string, version: string, cpus: int, gpus: int)
      modifies this
      ensures View() == Upsert(old(View()), d, name, version, cpus, gpus)
      ensures replicaMap == old(replicaMap)
      ensures deployments == old(deployments)[d := deployments[d]]
      ensures deployments[d] ==
              Deployment(name, version, cpus, gpus, if d in old(deployments) then old(deployments)[d].replicas else [])
    {
      if d !in deployments {
        deployments := deployments[d := Deployment(name, version, cpus, gpus, [])];
      } else {
        var dep := deployments[d];
        dep := dep.(name := name);
        dep := dep.(version := version);
        dep := dep.(cpus := cpus);
        dep := dep.(gpus := gpus);
        deployments := deployments[d := dep];
      }
    }

    method AddReplicaToDeployment(d: nat, w: nat, contents: seq<Content>, cpus: int, gpus: int, address: string)
      returns (outcome: Outcome)
      modifies this, autoScaleManager, nodeInfoCache
      ensures (View(), outcome) == Add(old(View()), d, w, contents, cpus, gpus, address)
      ensures outcome == if d !in old(deployments) then Refused
                         else if w !in old(nodeInfoCache.nodeMap) then Raised else Done
      ensures outcome == Refused ==> View() == old(View())
    {
      if d !in deployments {
        return Refused;
      }
      ghost var es := Entries(w, contents, address);
      for k := 0 to |contents|
        invariant d in deployments
        invariant View() == AddEach(old(View()), d, es[..k], cpus, gpus)
      {
        AppendReplica(d, w, contents[k], cpus, gpus, address);
        assert es[..k + 1][..k] == es[..k];
      }
      assert es[..|contents|] == es;
      AddEachAppends(old(View()), d, es, cpus, gpus);
      var raised := nodeInfoCache.UpdateResources(w, cpus, gpus, true);
      outcome := if raised then Raised else Done;
    }

    // One pass of that loop.
    method AppendReplica(d: nat, w: nat, content: Content, cpus: int, gpus: int, address: string)
      requires d in deployments
      modifies this, autoScaleManager
      ensures View() == AddOne(old(View()), d, Entry(w, content, address), cpus, gpus)
    {
      var info := ReplicaMsg(Key(w, content.replicaId), address + ":" + content.port, "RUNNING");
      deployments := deployments[d := deployments[d].(replicas := deployments[d].replicas + [info])];
      replicaMap := replicaMap[Key(w, content.replicaId) := info];
      autoScaleManager.AddReplica(w, content.replicaId, cpus, gpus);
    }

    method RemoveReplicaFromDeployment(d: nat, r: nat, w: nat) returns (outcome: Outcome)
      modifies this, autoScaleManager, nodeInfoCache
      ensures (View(), outcome) == Remove(old(View()), d, r, w)
    {
      var key := Key(w, r);
      var replica := if key in replicaMap then Some(replicaMap[key]) else None;
      replicaMap := replicaMap - {key};
      if replica.Some? && d in deployments && replica.value in deployments[d].replicas {
        var left := RemoveFirst(deployments[d].replicas, replica.value);
        deployments := deployments[d := deployments[d].(replicas := left)];
        outcome := GiveBack(w, r);
      } else {
        outcome := Refused;
      }
    }

    // Drops the record and takes what it used off the node.
    method GiveBack(w: nat, r: nat) returns (outcome: Outcome)
      modifies autoScaleManager, nodeInfoCache
      ensures var was := old(View());
              var key := Key(w, r);
              if key !in was.records then View() == was && outcome == Raised
              else
                var left := was.(records := was.records - {key});
                if w !in was.nodes then View() == left && outcome == Raised
                else View() == Use(left, w, -was.records[key].cpus, -was.records[key].gpus) && outcome == Done
    {
      ghost var was := View();
      var amounts := autoScaleManager.RemoveReplica(w, r);
      if amounts.None? {
        assert was.records - {Key(w, r)} == was.records;
        return Raised;
      }
      var raised := nodeInfoCache.UpdateResources(w, amounts.value.0, amounts.value.1, false);
      outcome := if raised then Raised else Done;
    }

    method GetCurrentRoutingTable() returns (table: Table)
      ensures table == RoutingTable(View())
      ensures table.Keys == deployments.Keys
      ensures forall d :: d in deployments ==>
                && table[d].id == d && table[d].name == deployments[d].name
                && table[d].replicas == deployments[d].replicas
    {
      table := map d | d in deployments :: DeploymentMsg(d, deployments[d].name, deployments[d].replicas);
    }
  }
}
