/**
 The scheduler's handlers and its table of futures as objects. Each method is the
 code between two awaits, and is the step of Handshake.dfy with the same meaning.
 */
module SchedulerCode {
  import opened Common
  import H = Handshake

  datatype FutureState = Pending | Cancelled | Done(reply: H.Reply)

  class Future {
    var state: FutureState

    // The key it was created under.
    ghost const key: nat

    constructor (ghost key: nat)
      ensures state == Pending && this.key == key
    {
      this.key := key;
      state := Pending;
    }

    // Completing a future that is done, or cancelled, would raise.
    method SetResult(reply: H.Reply)
      requires state == Pending
      modifies this
      ensures state == Done(reply)
    {
      state := Done(reply);
    }

    method Cancel()
      requires state == Pending
      modifies this
      ensures state == Cancelled
    {
      state := Cancelled;
    }
  }

  class FutureManager {
    var futures: map<nat, Future>

    ghost predicate Valid()
      reads this, futures.Values
    {
      forall key :: key in futures ==> futures[key].key == key && !futures[key].state.Done?
    }

    constructor ()
      ensures Valid() && futures == map[]
    {
      futures := map[];
    }

    // Raises, and changes nothing, when the key is taken.
    method CreateFuture(key: nat) returns (created: Option<Future>)
      requires Valid()
      modifies this
      ensures Valid()
      ensures created.None? <==> key in old(futures)
      ensures created.Some? ==> fresh(created.value) && created.value.state == Pending
      ensures futures == if created.None? then old(futures) else old(futures)[key := created.value]
    {
      if key in futures {
        return None;
      }
      var fut := new Future(key);
      futures := futures[key := fut];
      created := Some(fut);
    }

    // Pops the future, and completes it unless it was cancelled meanwhile.
    method SetResult(key: nat, reply: H.Reply)
      requires Valid()
      modifies this, futures.Values
      ensures Valid() && futures == old(futures) - {key}
      ensures key in old(futures) ==>
                old(futures)[key].state == if old(futures[key].state) == Pending then Done(reply) else Cancelled
      ensures forall k :: k in futures ==> unchanged(futures[k])
    {
      if key in futures {
        var fut := futures[key];
        futures := futures - {key};
        if fut.state == Pending {
          fut.SetResult(reply);
        }
      } else {
        assert futures - {key} == futures;
      }
    }
  }

  class HeadNodeManager {
    const workerId: nat
    const nodeAddress: string
    const replicaFutures: FutureManager
    var replicaNum: nat
    var replicaRegistry: map<nat, H.Registration>

    // The handlers past the duplicate check, with what they are about to file.
    var checked: map<nat, H.Registration>

    ghost var sched: H.Scheduler

    ghost predicate Valid()
      reads this, replicaFutures, replicaFutures.futures.Values
    {
      && replicaFutures.Valid()
      && H.Inv(sched) && sched.worker == workerId && sched.address == nodeAddress
      && replicaNum == sched.issued && replicaRegistry == sched.registry && checked == sched.checked
      && replicaFutures.futures.Keys == sched.futures.Keys
      && (forall id :: id in sched.futures ==> Awaited(id))
    }

    // A future is pending exactly while its call waits.
    ghost predicate Awaited(id: nat)
      requires id in sched.futures && replicaFutures.futures.Keys == sched.futures.Keys
      reads this, replicaFutures, replicaFutures.futures.Values
    {
      && sched.futures[id] in sched.calls
      && (replicaFutures.futures[id].state == Pending <==> sched.calls[sched.futures[id]].Waiting?)
    }

    constructor (workerId: nat, nodeAddress: string)
      ensures Valid() && sched == H.Idle(workerId, nodeAddress)
      ensures replicaNum == 0 && replicaRegistry == map[] && replicaFutures.futures == map[]
    {
      this.workerId, this.nodeAddress := workerId, nodeAddress;
      replicaNum, replicaRegistry, checked := 0, map[], map[];
      replicaFutures := new FutureManager();
      sched := H.Idle(workerId, nodeAddress);
      new;
      H.HandshakeSafe(workerId, nodeAddress, []);
      H.RunInv(sched, []);
    }

    // `CreateReplica` up to the launch.
    method Allocate(ghost call: nat, ghost dep: nat) returns (replicaId: nat, port: string)
      requires Valid() && H.Can(sched, H.Allocate(call, dep))
      modifies this
      ensures Valid() && sched == H.Next(old(sched), H.Allocate(call, dep))
      ensures sched.calls[call] == H.Allocated(replicaId, dep) && port == H.AssignedPort(replicaId)
      ensures replicaId == old(replicaNum) + 1 && replicaNum == replicaId
    {
      ghost var s := sched;
      H.StepInv(s, H.Allocate(call, dep));
      replicaNum := replicaNum + 1;
      replicaId := replicaNum;
      port := H.AssignedPort(replicaId);
      sched := H.Next(s, H.Allocate(call, dep));
      forall id | id in sched.futures ensures Awaited(id) {
        assert old(Awaited(id));
      }
    }

    // A launch that fails answers at once.
    method LaunchFailed(ghost call: nat, replicaId: nat, port: string) returns (reply: H.Reply)
      requires Valid() && H.Can(sched, H.LaunchFailed(call))
      requires sched.calls[call].id == replicaId && port == H.AssignedPort(replicaId)
      modifies this, replicaFutures, replicaFutures.futures.Values
      ensures Valid() && sched == H.Next(old(sched), H.LaunchFailed(call))
      ensures sched.calls[call] == H.Answered(replicaId, old(sched).calls[call].dep, reply) && !reply.created
    {
      ghost var s := sched;
      H.StepInv(s, H.LaunchFailed(call));
      NoFutureYet(s, call);
      reply := H.Reply(false, workerId, nodeAddress, replicaId, port);
      replicaFutures.SetResult(replicaId, reply);
      sched := H.Next(s, H.LaunchFailed(call));
      assert replicaFutures.futures == old(replicaFutures.futures);
      forall id | id in sched.futures ensures Awaited(id) {
        assert old(Awaited(id)) && H.IdOk(s, id);
      }
    }

    // A launch that succeeds leaves the call waiting on a new future.
    method LaunchOk(ghost call: nat, replicaId: nat) returns (fut: Future)
      requires Valid() && H.Can(sched, H.LaunchOk(call)) && sched.calls[call].id == replicaId
      modifies this, replicaFutures
      ensures Valid() && sched == H.Next(old(sched), H.LaunchOk(call))
      ensures replicaId in replicaFutures.futures && fut == replicaFutures.futures[replicaId] && fut.state == Pending
      ensures call in sched.calls && sched.calls[call].Waiting?
    {
      ghost var s := sched;
      H.StepInv(s, H.LaunchOk(call));
      NoFutureYet(s, call);
      var created := replicaFutures.CreateFuture(replicaId);
      fut := created.value;
      sched := H.Next(s, H.LaunchOk(call));
      forall id | id in sched.futures ensures Awaited(id) {
        if id != replicaId {
          assert old(Awaited(id)) && H.IdOk(s, id);
        }
      }
    }

    // `RegisterReplica` up to the end of its duplicate check.
    method RegisterCheck(handler: nat, id: nat, port: string, dep: nat) returns (duplicate: bool)
      requires Valid() && H.Can(sched, H.RegisterCheck(handler, id, port)) && sched.launched[id] == dep
      modifies this
      ensures Valid() && sched == H.Next(old(sched), H.RegisterCheck(handler, id, port))
      ensures duplicate <==> id in old(replicaRegistry)
      ensures checked == if duplicate then old(checked) else old(checked)[handler := H.Registration(id, port, dep)]
      ensures replicaRegistry == old(replicaRegistry)
    {
      ghost var s := sched;
      H.StepInv(s, H.RegisterCheck(handler, id, port));
      duplicate := id in replicaRegistry;
      if !duplicate {
        checked := checked[handler := H.Registration(id, port, dep)];
      }
      sched := H.Next(s, H.RegisterCheck(handler, id, port));
      forall i | i in sched.futures ensures Awaited(i) {
        assert old(Awaited(i));
      }
    }

    // The rest of it: file the replica, and answer the call that waits for it, if any.
    method RegisterFile(handler: nat)
      requires Valid() && H.Can(sched, H.RegisterFile(handler))
      modifies this, replicaFutures, replicaFutures.futures.Values
      ensures Valid() && sched == H.Next(old(sched), H.RegisterFile(handler))
      ensures checked == old(checked) - {handler}
      ensures replicaRegistry == old(replicaRegistry)[old(checked)[handler].id := old(checked)[handler]]
      ensures var reg, futures := old(checked)[handler], old(replicaFutures.futures);
              reg.id in futures && old(replicaFutures.futures[reg.id].state) == Pending ==>
                futures[reg.id].state == Done(H.Reply(true, workerId, nodeAddress, reg.id, reg.port))
    {
      ghost var s, s' := sched, H.Next(sched, H.RegisterFile(handler));
      FileEffect(s, handler, s');
      var reg := checked[handler];
      checked := checked - {handler};
      replicaRegistry := replicaRegistry[reg.id := reg];
      var reply := H.Reply(true, workerId, nodeAddress, reg.id, reg.port);
      replicaFutures.SetResult(reg.id, reply);
      sched := s';
      forall id | id in sched.futures ensures Awaited(id) {
        OthersWait(s, handler, s', id);
        assert old(Awaited(id));
      }
    }

    // The caller of a waiting `CreateReplica` goes away.
    method Abandon(ghost call: nat, replicaId: nat)
      requires Valid() && H.Can(sched, H.Abandon(call)) && sched.calls[call].id == replicaId
      modifies this, replicaFutures.futures.Values
      ensures Valid() && sched == H.Next(old(sched), H.Abandon(call))
      ensures replicaFutures.futures == old(replicaFutures.futures) && replicaId in replicaFutures.futures
      ensures replicaFutures.futures[replicaId].state == Cancelled
    {
      ghost var s := sched;
      H.StepInv(s, H.Abandon(call));
      assert H.CallOk(s, call) && Awaited(replicaId);
      replicaFutures.futures[replicaId].Cancel();
      sched := H.Next(s, H.Abandon(call));
      forall id | id in sched.futures ensures Awaited(id) {
        assert old(Awaited(id)) && H.IdOk(s, id);
      }
    }

    method CleanupReplicas(dead: set<nat>)
      requires Valid()
      modifies this
      ensures Valid() && sched == H.Next(old(sched), H.Cleanup(dead))
      ensures replicaRegistry.Keys == old(replicaRegistry).Keys - dead
      ensures forall id :: id in replicaRegistry ==> replicaRegistry[id] == old(replicaRegistry)[id]
    {
      ghost var s := sched;
      H.StepInv(s, H.Cleanup(dead));
      replicaRegistry := map id | id in replicaRegistry && id !in dead :: replicaRegistry[id];
      sched := H.Next(s, H.Cleanup(dead));
      assert replicaRegistry == s.registry - dead;
      forall id | id in sched.futures ensures Awaited(id) {
        assert old(Awaited(id));
      }
    }
  }

  lemma FileEffect(s: H.Scheduler, h: nat, s': H.Scheduler)
    requires H.Inv(s) && H.Can(s, H.RegisterFile(h)) && s' == H.Next(s, H.RegisterFile(h))
    ensures H.Inv(s') && s'.worker == s.worker && s'.address == s.address && s'.issued == s.issued
    ensures s'.checked == s.checked - {h} && s'.registry == s.registry[s.checked[h].id := s.checked[h]]
    ensures s'.futures == s.futures - {s.checked[h].id}
  {
    H.StepInv(s, H.RegisterFile(h));
    if s.checked[h].id !in s.futures {
      assert s.futures - {s.checked[h].id} == s.futures;
    }
  }

  // Filing one registration leaves every other future and its call alone.
  lemma OthersWait(s: H.Scheduler, h: nat, s': H.Scheduler, id: nat)
    requires H.Inv(s) && H.Can(s, H.RegisterFile(h)) && s' == H.Next(s, H.RegisterFile(h)) && id in s'.futures
    ensures id in s.futures && id != s.checked[h].id && s.futures[id] in s.calls
    ensures s'.futures[id] == s.futures[id] && s.futures[id] in s'.calls
    ensures s'.calls[s.futures[id]] == s.calls[s.futures[id]]
  {
    assert H.IdOk(s, id) && H.IdOk(s, s.checked[h].id);
  }

  // An id that has not been launched has no future.
  lemma NoFutureYet(s: H.Scheduler, call: nat)
    requires H.Inv(s) && call in s.calls && s.calls[call].Allocated?
    ensures s.calls[call].id !in s.futures
  {
    assert H.CallOk(s, call) && H.IdOk(s, s.calls[call].id);
  }
}
