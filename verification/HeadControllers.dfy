/**
 The head controller's publishing code and the health reports that trigger it, as an
 object: the latest snapshot, the coroutines waiting on the event and those already
 woken. Each method is the code between two awaits, and is the event of
 RoutingFeed.dfy with the same meaning.
 */
module HeadControllers {
  import opened Common
  import opened Cluster
  import opened Removal
  import opened ClusterManagers
  import F = RoutingFeed

  datatype Snapshot = Snapshot(ts: int, table: Table)

  datatype Answer = Answer(created: bool, worker: nat, address: string, contents: seq<Content>)

  function Carried(snap: F.Snap<Table>): Snapshot {
    Snapshot(snap.ts, snap.table)
  }

  class HeadController {
    const deploymentManager: DeploymentManager
    var latestRoutingSnapshot: Option<Snapshot>

    // The coroutines: parked at the event, woken, and suspended in a send with the
    // snapshot they are sending; and their `last_yielded_timestamp_ns`.
    var waiting: set<nat>
    var woken: set<nat>
    var sending: map<nat, Snapshot>
    var lastYielded: map<nat, int>

    ghost var feed: F.Feed<Table>

    ghost predicate Valid()
      reads this
    {
      && (latestRoutingSnapshot.Some? <==> feed.latest.Some?)
      && (feed.latest.Some? ==> latestRoutingSnapshot == Some(Carried(feed.latest.value)))
      && feed.history != []
      && (forall sid :: Placed(sid))
    }

    // Where subscriber `sid` is.
    ghost predicate Placed(sid: nat)
      reads this
    {
      && (sid in waiting <==> sid in feed.subs && feed.subs[sid].phase == F.Parked)
      && (sid in woken <==> sid in feed.subs && feed.subs[sid].phase == F.Woken)
      && (sid in sending <==> sid in feed.subs && feed.subs[sid].phase == F.Sending)
      && (sid in lastYielded <==> sid in feed.subs)
      && (sid in feed.subs ==>
          var s := feed.subs[sid];
          && s.sent != [] && lastYielded[sid] == s.last
          && (s.phase == F.Sending ==> sending[sid] == Carried(s.sent[|s.sent| - 1])))
    }

    constructor (deploymentManager: DeploymentManager)
      ensures Valid() && this.deploymentManager == deploymentManager
      ensures latestRoutingSnapshot == None && waiting == {} && woken == {} && sending == map[]
    {
      this.deploymentManager := deploymentManager;
      latestRoutingSnapshot, waiting, woken, sending, lastYielded := None, {}, {}, map[], map[];
      feed := F.Begin(map[]);
    }

    // The feed once it has heard of the manager's current table.
    ghost function Heard(): F.Feed<Table>
      reads this, deploymentManager, deploymentManager.nodeInfoCache, deploymentManager.autoScaleManager
    {
      F.Next(feed, F.Change(RoutingTable(deploymentManager.View())))
    }

    // Store a new snapshot and pulse the event.
    method OnDeploymentChange(now: int)
      requires Valid()
      modifies this
      ensures Valid() && feed == F.Next(old(Heard()), F.Publish(now))
      ensures latestRoutingSnapshot == Some(Snapshot(now, RoutingTable(deploymentManager.View())))
      ensures waiting == {} && woken == old(woken) + old(waiting) && sending == old(sending)
    {
      ghost var f := Heard();
      var table := deploymentManager.GetCurrentRoutingTable();
      latestRoutingSnapshot := Some(Snapshot(now, table));
      woken, waiting := woken + waiting, {};
      feed := F.Next(f, F.Publish(now));
      forall sid ensures Placed(sid) {
        assert old(Placed(sid));
      }
    }

    // Up to the first yield.
    method Subscribe(sid: nat, ghost proxy: nat, now: int) returns (yielded: Snapshot)
      requires Valid() && F.Can(Heard(), F.Subscribe(sid, proxy, now))
      modifies this
      ensures Valid() && feed == F.Next(old(Heard()), F.Subscribe(sid, proxy, now))
      ensures yielded == Snapshot(now, RoutingTable(deploymentManager.View()))
    {
      ghost var f := Heard();
      var initial := deploymentManager.GetCurrentRoutingTable();
      yielded := Snapshot(now, initial);
      latestRoutingSnapshot := Some(yielded);
      lastYielded := lastYielded[sid := 0];
      sending := sending[sid := yielded];
      feed := F.Next(f, F.Subscribe(sid, proxy, now));
      forall s ensures Placed(s) {
        assert old(Placed(s));
      }
    }

    // From a yield that has gone through to the wait.
    method AfterYield(sid: nat)
      requires Valid() && F.Can(feed, F.Resume(sid))
      modifies this
      ensures Valid() && feed == F.Next(old(feed), F.Resume(sid))
    {
      assert Placed(sid);
      lastYielded := lastYielded[sid := sending[sid].ts];
      sending := sending - {sid};
      waiting := waiting + {sid};
      feed := F.Next(feed, F.Resume(sid));
      forall s ensures Placed(s) {
        assert old(Placed(s));
      }
    }

    // From the wait to the next yield, or back to the wait when there is nothing newer.
    method AfterWait(sid: nat) returns (yielded: Option<Snapshot>)
      requires Valid() && F.Can(feed, F.Wake(sid))
      modifies this
      ensures Valid() && feed == F.Next(old(feed), F.Wake(sid))
      ensures yielded == if |feed.subs[sid].sent| > |old(feed).subs[sid].sent|
                         then Some(Carried(feed.subs[sid].sent[|old(feed).subs[sid].sent|])) else None
    {
      assert Placed(sid);
      woken := woken - {sid};
      if latestRoutingSnapshot.Some? && latestRoutingSnapshot.value.ts > lastYielded[sid] {
        yielded := latestRoutingSnapshot;
        sending := sending[sid := yielded.value];
      } else {
        yielded := None;
        waiting := waiting + {sid};
      }
      feed := F.Next(feed, F.Wake(sid));
      forall s ensures Placed(s) {
        assert old(Placed(s));
      }
    }

    // The stream is cancelled, wherever its coroutine is suspended.
    method EndSubscription(sid: nat)
      requires Valid() && F.Can(feed, F.Drop(sid))
      modifies this
      ensures Valid() && feed == F.Next(old(feed), F.Drop(sid))
    {
      assert Placed(sid);
      waiting, woken, sending := waiting - {sid}, woken - {sid}, sending - {sid};
      feed := F.Next(feed, F.Drop(sid));
      forall s ensures Placed(s) {
        assert old(Placed(s));
      }
    }

    // What `create_replica` does with the scheduler's answer, or with none when every
    // attempt failed: a positive one is filed and published, unless filing it raises.
    method FileAnswer(d: nat, answer: Option<Answer>, now: int) returns (raised: bool)
      requires Valid()
      modifies this, deploymentManager, deploymentManager.nodeInfoCache, deploymentManager.autoScaleManager
      ensures Valid()
      ensures if answer.Some? && answer.value.created
              then var (c, outcome) := Add(old(deploymentManager.View()), d, answer.value.worker, answer.value.contents,
                                           0, 0, answer.value.address);
                   && deploymentManager.View() == c && (raised <==> outcome.Raised?)
                   && (if raised then feed == old(feed) && latestRoutingSnapshot == old(latestRoutingSnapshot)
                       else latestRoutingSnapshot == Some(Snapshot(now, RoutingTable(c)))
                            && feed == F.Next(F.Next(old(feed), F.Change(RoutingTable(c))), F.Publish(now)))
              else deploymentManager.View() == old(deploymentManager.View()) && feed == old(feed) && !raised
    {
      if answer.None? || !answer.value.created {
        return false;
      }
      var reply := answer.value;
      var outcome := deploymentManager.AddReplicaToDeployment(d, reply.worker, reply.contents, 0, 0, reply.address);
      if outcome == Raised {
        return true;
      }
      raised := false;
      OnDeploymentChange(now);
    }

    // A replica's metrics go to the autoscaler; nothing is published.
    method RecordMetrics(r: nat, w: nat, avg: real, stamp: nat)
      requires Valid()
      modifies deploymentManager.autoScaleManager
      ensures Valid()
      ensures deploymentManager.View() == LoadMetrics(old(deploymentManager.View()), r, w, avg, stamp)
    {
      deploymentManager.autoScaleManager.LoadMetrics(w, r, avg, stamp);
    }

    // A worker's node registers; nothing is published.
    method RegisterNode(w: nat)
      requires Valid()
      modifies deploymentManager.nodeInfoCache
      ensures Valid()
      ensures deploymentManager.View() == AddNode(old(deploymentManager.View()), w)
    {
      deploymentManager.nodeInfoCache.AddNode(w);
    }

    // A worker's health report: the dead are removed, and if there were any the
    // resulting table is published; nothing is when a removal raises.
    method SendHealthStatus(w: nat, states: seq<ReplicaState>, now: int) returns (raised: bool)
      requires Valid()
      modifies this, deploymentManager, deploymentManager.nodeInfoCache, deploymentManager.autoScaleManager
      ensures Valid()
      ensures (deploymentManager.View(), raised) == Report(old(deploymentManager.View()), w, states)
      ensures if !raised && AnyDead(states)
              then latestRoutingSnapshot == Some(Snapshot(now, RoutingTable(deploymentManager.View())))
                   && waiting == {} && woken == old(woken) + old(waiting)
                   && feed == F.Next(F.Next(old(feed), F.Change(RoutingTable(deploymentManager.View()))),
                                     F.Publish(now))
              else feed == old(feed) && latestRoutingSnapshot == old(latestRoutingSnapshot)
                   && waiting == old(waiting) && woken == old(woken)
      ensures (forall i :: 0 <= i < |states| ==> states[i].status != "DEAD") ==>
                deploymentManager.View() == old(deploymentManager.View()) && feed == old(feed)
    {
      var changeDetected := false;
      for k := 0 to |states|
        invariant Valid() && feed == old(feed) && latestRoutingSnapshot == old(latestRoutingSnapshot)
        invariant waiting == old(waiting) && woken == old(woken)
        invariant (deploymentManager.View(), false) == Report(old(deploymentManager.View()), w, states[..k])
        invariant changeDetected <==> AnyDead(states[..k])
      {
        DeadGrows(states, k);
        assert states[..k + 1][..k] == states[..k];
        if states[k].status == "DEAD" {
          changeDetected := true;
          var outcome := deploymentManager.RemoveReplicaFromDeployment(states[k].deploymentId, states[k].replicaId, w);
          if outcome == Raised {
            ReportStops(old(deploymentManager.View()), w, states, k + 1);
            return true;
          }
        }
      }
      assert states[..|states|] == states;
      if !changeDetected {
        NothingReported(old(deploymentManager.View()), w, states);
      }
      raised := false;
      if changeDetected {
        OnDeploymentChange(now);
      }
    }
  }

  lemma {:induction false} NothingReported(c: Cluster, w: nat, states: seq<ReplicaState>)
    ensures (forall i :: 0 <= i < |states| ==> states[i].status != "DEAD") ==>
              Report(c, w, states) == (c, false) && !AnyDead(states)
  {
    if forall i :: 0 <= i < |states| ==> states[i].status != "DEAD" {
      NoneDead(c, w, states);
    }
  }

  lemma DeadGrows(states: seq<ReplicaState>, k: nat)
    requires k < |states|
    ensures AnyDead(states[..k + 1]) <==> AnyDead(states[..k]) || IsDead(states[k])
  {
    assert states[..k + 1] == states[..k] + [states[k]];
  }

  // What follows an entry that raises is not looked at.
  lemma {:induction false} ReportStops(c: Cluster, w: nat, states: seq<ReplicaState>, k: nat)
    requires k <= |states| && Report(c, w, states[..k]).1
    ensures Report(c, w, states) == Report(c, w, states[..k])
    decreases |states|
  {
    if k < |states| {
      var front := states[..|states| - 1];
      assert front[..k] == states[..k];
      ReportStops(c, w, front, k);
    } else {
      assert states[..k] == states;
    }
  }
}
