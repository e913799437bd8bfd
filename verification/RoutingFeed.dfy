/**
 Publishing routing tables: the head stores a snapshot and pulses an event; each
 subscriber's coroutine wakes, reads the latest snapshot, sends it if it is newer,
 and waits again; each proxy applies what its stream delivers and reconnects when
 the stream ends.

 Nothing suspends between reading the table and clearing the event (the locks on
 the way are never contended), so a publication is one step; coroutines interleave
 at the sends and at the wait.
 */
module RoutingFeed {
  import opened Common

  // `moment` says which of the head's tables this is; the code does not carry it.
  datatype Snap<T> = Snap(ts: int, table: T, moment: nat)

  // Suspended in a send; waiting on the event; woken but not yet resumed; ended by the
  // head, which leaves what was sent for the proxy to read.
  datatype Phase = Sending | Parked | Woken | Ended

  predicate Waits(phase: Phase) {
    phase.Parked? || phase.Woken?
  }

  // `missed` records that a publication found the coroutine in its last send.
  datatype Sub<T> = Sub(phase: Phase, last: int, sent: seq<Snap<T>>, delivered: nat, missed: bool)

  // The subscription a proxy reads from, and the snapshots it has applied.
  datatype View<T> = View(conn: Option<nat>, applied: seq<Snap<T>>)

  datatype Feed<T> = Feed(
    history: seq<T>,                // every table the head has had; the last is current
    latest: Option<Snap<T>>,
    published: Option<Snap<T>>,     // by the last pulse of the event
    subs: map<nat, Sub<T>>,
    views: map<nat, View<T>>,
    clock: int)                     // the last time stamp taken

  datatype Event<T> =
    | Change(table: T)
    | Publish(ts: int)
    | Subscribe(sid: nat, proxy: nat, ts: int)
    | Resume(sid: nat)
    | Wake(sid: nat)
    | Deliver(proxy: nat)
    | Drop(sid: nat)
    | Disconnect(proxy: nat)

  function Begin<T>(table: T): Feed<T> {
    Feed([table], None, None, map[], map[], 0)
  }

  ghost predicate Can<T>(f: Feed<T>, e: Event<T>) {
    match e
    case Change(_) => true
    case Publish(_) => f.history != []
    case Subscribe(sid, proxy, _) =>
      && f.history != [] && sid !in f.subs && (proxy in f.views ==> f.views[proxy].conn.None?)
      && (forall p :: p in f.views ==> f.views[p].conn != Some(sid))
    case Resume(sid) => sid in f.subs && f.subs[sid].phase == Sending && f.subs[sid].sent != []
    case Wake(sid) => sid in f.subs && f.subs[sid].phase == Woken && f.latest.Some?
    case Deliver(proxy) =>
      && proxy in f.views && f.views[proxy].conn.Some? && f.views[proxy].conn.value in f.subs
      && f.subs[f.views[proxy].conn.value].delivered < |f.subs[f.views[proxy].conn.value].sent|
    case Drop(sid) => sid in f.subs && f.subs[sid].phase != Ended
    case Disconnect(proxy) => proxy in f.views && f.views[proxy].conn.Some?
  }

  function Newest<T>(f: Feed<T>, ts: int): Snap<T>
    requires f.history != []
  {
    Snap(ts, f.history[|f.history| - 1], |f.history| - 1)
  }

  // The event's set(): every waiter is scheduled; a sender hears nothing.
  function Pulse<T>(subs: map<nat, Sub<T>>): map<nat, Sub<T>> {
    map sid | sid in subs ::
      match subs[sid].phase
      case Parked => subs[sid].(phase := Woken)
      case Sending => subs[sid].(missed := true)
      case _ => subs[sid]
  }

  function Next<T>(f: Feed<T>, e: Event<T>): Feed<T>
    requires Can(f, e)
  {
    match e
    case Change(table) => f.(history := f.history + [table])
    case Publish(ts) =>
      f.(latest := Some(Newest(f, ts)), published := Some(Newest(f, ts)), subs := Pulse(f.subs), clock := ts)
    case Subscribe(sid, proxy, ts) =>
      var applied := if proxy in f.views then f.views[proxy].applied else [];
      f.(latest := Some(Newest(f, ts)), clock := ts,
         subs := f.subs[sid := Sub(Sending, 0, [Newest(f, ts)], 0, false)],
         views := f.views[proxy := View(Some(sid), applied)])
    case Resume(sid) =>
      var s := f.subs[sid];
      f.(subs := f.subs[sid := s.(phase := Parked, last := s.sent[|s.sent| - 1].ts)])
    case Wake(sid) =>
      var s := f.subs[sid];
      if f.latest.value.ts > s.last
      then f.(subs := f.subs[sid := s.(phase := Sending, sent := s.sent + [f.latest.value], missed := false)])
      else f.(subs := f.subs[sid := s.(phase := Parked)])
    case Deliver(proxy) =>
      var v := f.views[proxy];
      var s := f.subs[v.conn.value];
      f.(subs := f.subs[v.conn.value := s.(delivered := s.delivered + 1)],
         views := f.views[proxy := v.(applied := v.applied + [s.sent[s.delivered]])])
    case Drop(sid) => f.(subs := f.subs[sid := f.subs[sid].(phase := Ended)])
    case Disconnect(proxy) => f.(views := f.views[proxy := f.views[proxy].(conn := None)])
  }

  ghost predicate Runs<T>(f: Feed<T>, run: seq<Event<T>>)
    decreases |run|
  {
    run == [] || (Can(f, run[0]) && Runs(Next(f, run[0]), run[1..]))
  }

  ghost function After<T>(f: Feed<T>, run: seq<Event<T>>): Feed<T>
    requires Runs(f, run)
    decreases |run|
  {
    if run == [] then f else After(Next(f, run[0]), run[1..])
  }

  // ---------- what every event keeps, whatever the clock does ----------

  ghost predicate Genuine<T>(f: Feed<T>, snap: Snap<T>) {
    snap.moment < |f.history| && snap.table == f.history[snap.moment]
  }

  // Snapshots follow one another in time stamps and in the head's moments.
  ghost predicate InOrder<T>(snaps: seq<Snap<T>>) {
    forall i, j :: 0 <= i < j < |snaps| ==> snaps[i].ts < snaps[j].ts && snaps[i].moment <= snaps[j].moment
  }

  ghost predicate Forward<T>(snaps: seq<Snap<T>>) {
    forall i, j :: 0 <= i < j < |snaps| ==> snaps[i].moment <= snaps[j].moment
  }

  // The same, link by link, which is how the events keep it.
  ghost predicate Linked<T>(snaps: seq<Snap<T>>) {
    |snaps| <= 1 ||
    (var n := |snaps| - 1;
     snaps[n - 1].ts < snaps[n].ts && snaps[n - 1].moment <= snaps[n].moment && Linked(snaps[..n]))
  }

  ghost predicate LinkedForward<T>(snaps: seq<Snap<T>>) {
    |snaps| <= 1 ||
    (var n := |snaps| - 1; snaps[n - 1].moment <= snaps[n].moment && LinkedForward(snaps[..n]))
  }

  lemma {:induction false} LinkedInOrder<T>(snaps: seq<Snap<T>>)
    requires Linked(snaps)
    ensures InOrder(snaps)
  {
    if |snaps| > 1 {
      LinkedInOrder(snaps[..|snaps| - 1]);
    }
  }

  lemma {:induction false} ForwardAll<T>(snaps: seq<Snap<T>>)
    requires LinkedForward(snaps)
    ensures Forward(snaps)
  {
    if |snaps| > 1 {
      ForwardAll(snaps[..|snaps| - 1]);
    }
  }

  ghost predicate SubOk<T>(f: Feed<T>, s: Sub<T>) {
    && s.sent != [] && s.delivered <= |s.sent|
    && Linked(s.sent)
    && (forall i :: 0 <= i < |s.sent| ==> Genuine(f, s.sent[i]))
    && (Waits(s.phase) ==> s.last == s.sent[|s.sent| - 1].ts)
    && f.latest.Some? && s.sent[|s.sent| - 1].moment <= f.latest.value.moment
  }

  // What a proxy has applied is behind whatever its stream still has to deliver.
  ghost predicate ViewOk<T>(f: Feed<T>, v: View<T>) {
    && LinkedForward(v.applied)
    && (forall i :: 0 <= i < |v.applied| ==> Genuine(f, v.applied[i]))
    && (v.applied != [] ==>
        var m := v.applied[|v.applied| - 1].moment;
        && f.latest.Some? && m <= f.latest.value.moment
        && (v.conn.Some? && v.conn.value in f.subs ==> StillAhead(f.subs[v.conn.value], m)))
  }

  ghost predicate StillAhead<T>(s: Sub<T>, m: nat) {
    s.delivered < |s.sent| ==> m <= s.sent[s.delivered].moment
  }

  ghost predicate Inv<T(!new)>(f: Feed<T>) {
    && f.history != []
    && (f.latest.Some? ==> Genuine(f, f.latest.value))
    && (forall sid :: sid in f.subs ==> SubOk(f, f.subs[sid]))
    && (forall p :: p in f.views ==> ViewOk(f, f.views[p]))
  }

  // Every event only adds to the history and never makes the latest snapshot older.
  ghost predicate Grows<T>(f: Feed<T>, f': Feed<T>) {
    && f.history <= f'.history
    && (f.latest.Some? ==> f'.latest.Some? && f.latest.value.moment <= f'.latest.value.moment)
  }

  lemma StepGrows<T(!new)>(f: Feed<T>, e: Event<T>)
    requires Inv(f) && Can(f, e)
    ensures Grows(f, Next(f, e))
  {
  }

  // What an event does to a subscription other than sending on it.
  ghost predicate Kept<T>(s: Sub<T>, s': Sub<T>) {
    && s'.sent == s.sent
    && s.delivered <= s'.delivered && (s.delivered <= |s.sent| ==> s'.delivered <= |s.sent|)
    && (Waits(s'.phase) ==>
          && s.sent != [] && s.phase != Ended
          && s'.last == if s.phase == Sending then s.sent[|s.sent| - 1].ts else s.last)
    && (s'.phase == Sending ==> s.phase == Sending)
  }

  lemma SubEffect<T(!new)>(f: Feed<T>, e: Event<T>, sid: nat)
    requires Can(f, e) && sid in f.subs && sid in Next(f, e).subs && f.subs[sid].sent != []
    requires !(e.Wake? && e.sid == sid)
    ensures Kept(f.subs[sid], Next(f, e).subs[sid])
  {
  }

  lemma KeptOk<T(!new)>(f: Feed<T>, f': Feed<T>, s: Sub<T>, s': Sub<T>)
    requires SubOk(f, s) && Grows(f, f') && Kept(s, s')
    ensures SubOk(f', s')
  {
  }

  lemma {:induction false} LinkedMore<T(!new)>(snaps: seq<Snap<T>>, snap: Snap<T>)
    requires Linked(snaps)
    requires snaps != [] ==> snaps[|snaps| - 1].ts < snap.ts && snaps[|snaps| - 1].moment <= snap.moment
    ensures Linked(snaps + [snap])
  {
    assert (snaps + [snap])[..|snaps|] == snaps;
  }

  lemma SendsMore<T(!new)>(f: Feed<T>, f': Feed<T>, s: Sub<T>, snap: Snap<T>)
    requires SubOk(f, s) && f'.history == f.history && f'.latest == f.latest == Some(snap)
    requires Genuine(f, snap) && snap.ts > s.sent[|s.sent| - 1].ts
    ensures SubOk(f', s.(phase := Sending, sent := s.sent + [snap], missed := false))
  {
    LinkedMore(s.sent, snap);
  }

  lemma WakeSub<T(!new)>(f: Feed<T>, sid: nat)
    requires Inv(f) && Can(f, Wake(sid))
    ensures SubOk(Next(f, Wake(sid)), Next(f, Wake(sid)).subs[sid])
  {
    var s := f.subs[sid];
    assert SubOk(f, s);
    if f.latest.value.ts > s.last {
      SendsMore(f, Next(f, Wake(sid)), s, f.latest.value);
    }
  }

  lemma StepSub<T(!new)>(f: Feed<T>, e: Event<T>, sid: nat)
    requires Inv(f) && Can(f, e) && sid in Next(f, e).subs
    ensures SubOk(Next(f, e), Next(f, e).subs[sid])
  {
    if e.Wake? && e.sid == sid {
      WakeSub(f, sid);
    } else if sid in f.subs {
      assert SubOk(f, f.subs[sid]);
      StepGrows(f, e);
      SubEffect(f, e, sid);
      KeptOk(f, Next(f, e), f.subs[sid], Next(f, e).subs[sid]);
    }
  }

  // What is still to be delivered stays ahead when a subscription moves on.
  lemma AheadKept<T(!new)>(f: Feed<T>, f': Feed<T>, s: Sub<T>, s': Sub<T>, m: nat)
    requires SubOk(f, s) && StillAhead(s, m) && Kept(s, s')
    ensures StillAhead(s', m)
  {
    LinkedInOrder(s.sent);
  }

  lemma WakeAhead<T(!new)>(f: Feed<T>, sid: nat, m: nat)
    requires Inv(f) && Can(f, Wake(sid)) && StillAhead(f.subs[sid], m) && m <= f.latest.value.moment
    ensures StillAhead(Next(f, Wake(sid)).subs[sid], m)
  {
    assert SubOk(f, f.subs[sid]);
  }

  lemma {:induction false} LinkedForwardMore<T(!new)>(snaps: seq<Snap<T>>, snap: Snap<T>)
    requires LinkedForward(snaps) && snaps != [] && snaps[|snaps| - 1].moment <= snap.moment
    ensures LinkedForward(snaps + [snap])
  {
    assert (snaps + [snap])[..|snaps|] == snaps;
  }

  lemma DeliverView<T(!new)>(f: Feed<T>, p: nat)
    requires Inv(f) && Can(f, Deliver(p))
    ensures ViewOk(Next(f, Deliver(p)), Next(f, Deliver(p)).views[p])
  {
    var v := f.views[p];
    var s := f.subs[v.conn.value];
    assert ViewOk(f, v) && SubOk(f, s);
    LinkedInOrder(s.sent);
    if v.applied != [] {
      LinkedForwardMore(v.applied, s.sent[s.delivered]);
    }
  }

  // Any event but its own delivery leaves what a proxy has applied, and changes the
  // stream it reads only by ending it or starting a new one.
  lemma ViewEffect<T(!new)>(f: Feed<T>, e: Event<T>, p: nat)
    requires Inv(f) && Can(f, e) && p in f.views && e != Deliver(p)
    ensures var v, v' := f.views[p], Next(f, e).views[p];
            && v'.applied == v.applied
            && (v'.conn == v.conn || v'.conn.None? || (e.Subscribe? && e.proxy == p && v'.conn == Some(e.sid)))
  {
  }

  lemma NewStreamAhead<T(!new)>(f: Feed<T>, e: Event<T>, m: nat)
    requires Inv(f) && Can(f, e) && e.Subscribe? && f.latest.Some? && m <= f.latest.value.moment
    ensures StillAhead(Next(f, e).subs[e.sid], m)
  {
  }

  lemma OldStreamAhead<T(!new)>(f: Feed<T>, e: Event<T>, sid: nat, m: nat)
    requires Inv(f) && Can(f, e) && sid in f.subs && sid in Next(f, e).subs
    requires StillAhead(f.subs[sid], m) && f.latest.Some? && m <= f.latest.value.moment
    ensures StillAhead(Next(f, e).subs[sid], m)
  {
    assert SubOk(f, f.subs[sid]);
    if e.Wake? && e.sid == sid {
      WakeAhead(f, sid, m);
    } else {
      SubEffect(f, e, sid);
      AheadKept(f, Next(f, e), f.subs[sid], Next(f, e).subs[sid], m);
    }
  }

  lemma SubsFrom<T(!new)>(f: Feed<T>, e: Event<T>, sid: nat)
    requires Can(f, e) && sid in Next(f, e).subs
    ensures sid in f.subs || (e.Subscribe? && e.sid == sid)
  {
  }

  lemma KeepView<T(!new)>(f: Feed<T>, e: Event<T>, p: nat)
    requires Inv(f) && Can(f, e) && p in f.views && p in Next(f, e).views && e != Deliver(p)
    ensures ViewOk(Next(f, e), Next(f, e).views[p])
  {
    var f', v, v' := Next(f, e), f.views[p], Next(f, e).views[p];
    assert ViewOk(f, v);
    StepGrows(f, e);
    ViewEffect(f, e, p);
    if v.applied != [] && v'.conn.Some? && v'.conn.value in f'.subs {
      var m := v.applied[|v.applied| - 1].moment;
      SubsFrom(f, e, v'.conn.value);
      if e.Subscribe? && e.sid == v'.conn.value {
        NewStreamAhead(f, e, m);
      } else {
        OldStreamAhead(f, e, v'.conn.value, m);
      }
    }
  }

  lemma StepView<T(!new)>(f: Feed<T>, e: Event<T>, p: nat)
    requires Inv(f) && Can(f, e) && p in Next(f, e).views
    ensures ViewOk(Next(f, e), Next(f, e).views[p])
  {
    if e == Deliver(p) {
      DeliverView(f, p);
    } else if p in f.views {
      KeepView(f, e, p);
    }
  }

  lemma StepInv<T(!new)>(f: Feed<T>, e: Event<T>)
    requires Inv(f) && Can(f, e)
    ensures Inv(Next(f, e))
  {
    forall sid | sid in Next(f, e).subs ensures SubOk(Next(f, e), Next(f, e).subs[sid]) { StepSub(f, e, sid); }
    forall p | p in Next(f, e).views ensures ViewOk(Next(f, e), Next(f, e).views[p]) { StepView(f, e, p); }
  }

  lemma {:induction false} RunInv<T(!new)>(f: Feed<T>, run: seq<Event<T>>)
    requires Inv(f) && Runs(f, run)
    ensures Inv(After(f, run))
    decreases |run|
  {
    if run != [] {
      StepInv(f, run[0]);
      RunInv(Next(f, run[0]), run[1..]);
    }
  }

  // Whatever the interleaving and whatever the clock: each subscriber is sent
  // strictly increasing time stamps, and what a proxy applies, across any number of
  // reconnects, are tables the head really had, at moments that only move forward.
  lemma {:induction false} HistoryConsistent<T(!new)>(table: T, run: seq<Event<T>>)
    requires Runs(Begin(table), run)
    ensures var f := After(Begin(table), run);
            && (forall sid :: sid in f.subs ==> InOrder(f.subs[sid].sent))
            && (forall p :: p in f.views ==>
                && Forward(f.views[p].applied)
                && forall i :: 0 <= i < |f.views[p].applied| ==> Genuine(f, f.views[p].applied[i]))
  {
    RunInv(Begin(table), run);
    var f := After(Begin(table), run);
    forall sid | sid in f.subs ensures InOrder(f.subs[sid].sent) {
      assert SubOk(f, f.subs[sid]);
      LinkedInOrder(f.subs[sid].sent);
    }
    forall p | p in f.views
      ensures Forward(f.views[p].applied)
      ensures forall i :: 0 <= i < |f.views[p].applied| ==> Genuine(f, f.views[p].applied[i])
    {
      assert ViewOk(f, f.views[p]);
      ForwardAll(f.views[p].applied);
    }
  }

  // ---------- with a strictly increasing clock ----------

  ghost predicate Ticks<T>(f: Feed<T>, e: Event<T>) {
    (e.Publish? ==> e.ts > f.clock) && (e.Subscribe? ==> e.ts > f.clock)
  }

  ghost predicate RunTicks<T>(f: Feed<T>, run: seq<Event<T>>)
    requires Runs(f, run)
    decreases |run|
  {
    run == [] || (Ticks(f, run[0]) && RunTicks(Next(f, run[0]), run[1..]))
  }

  // The last thing sent is older than the last publication.
  ghost predicate Behind<T>(f: Feed<T>, s: Sub<T>)
    requires s.sent != []
  {
    f.published.Some? && s.sent[|s.sent| - 1].ts < f.published.value.ts
  }

  ghost predicate SubTimely<T>(f: Feed<T>, s: Sub<T>)
    requires s.sent != []
  {
    && s.sent[|s.sent| - 1].ts <= f.clock
    && (s.phase == Woken ==> f.latest.Some? && s.last < f.latest.value.ts)
    && (s.phase == Parked || s.phase == Sending ==> (s.missed <==> Behind(f, s)))
  }

  ghost predicate Timely<T(!new)>(f: Feed<T>) {
    && Inv(f)
    && (f.latest.Some? ==> f.latest.value.ts == f.clock)
    && (f.published.Some? ==> f.latest.Some? && f.published.value.ts <= f.clock)
    && (forall sid :: sid in f.subs ==> f.subs[sid].sent != [] && SubTimely(f, f.subs[sid]))
  }

  lemma StepTimely<T(!new)>(f: Feed<T>, e: Event<T>)
    requires Timely(f) && Can(f, e) && Ticks(f, e)
    ensures Timely(Next(f, e))
  {
    StepInv(f, e);
    var f' := Next(f, e);
    forall sid | sid in f'.subs ensures f'.subs[sid].sent != [] && SubTimely(f', f'.subs[sid]) {
      StepSubTimely(f, e, sid);
    }
  }

  lemma PublishTimely<T(!new)>(f: Feed<T>, ts: int, sid: nat)
    requires Timely(f) && Can(f, Publish(ts)) && Ticks(f, Publish(ts)) && sid in f.subs
    ensures var f' := Next(f, Publish(ts));
            sid in f'.subs && f'.subs[sid].sent == f.subs[sid].sent != [] && SubTimely(f', f'.subs[sid])
    ensures f.subs[sid].phase == Parked ==> Next(f, Publish(ts)).subs[sid].phase == Woken
  {
    assert SubOk(f, f.subs[sid]) && SubTimely(f, f.subs[sid]);
  }

  // With an increasing clock a woken subscriber always finds something newer.
  lemma WakeSends<T(!new)>(f: Feed<T>, sid: nat)
    requires Timely(f) && sid in f.subs && f.subs[sid].phase == Woken
    ensures Can(f, Wake(sid))
    ensures var s, s' := f.subs[sid], Next(f, Wake(sid)).subs[sid];
            s' == s.(phase := Sending, sent := s.sent + [f.latest.value], missed := false)
  {
    assert SubTimely(f, f.subs[sid]);
  }

  lemma WakeTimely<T(!new)>(f: Feed<T>, sid: nat)
    requires Timely(f) && Can(f, Wake(sid))
    ensures var f' := Next(f, Wake(sid)); f'.subs[sid].sent != [] && SubTimely(f', f'.subs[sid])
  {
    WakeSends(f, sid);
  }

  // What an event other than its own wake-up and a publication does to a subscription.
  ghost predicate Undisturbed<T>(s: Sub<T>, s': Sub<T>) {
    && s'.sent == s.sent && s'.missed == s.missed
    && ((s'.phase == s.phase && s'.last == s.last) || (s.phase == Sending && s'.phase == Parked) || s'.phase == Ended)
  }

  // The last publication is the same; clock and latest snapshot may have moved on.
  ghost predicate Later<T>(f: Feed<T>, f': Feed<T>) {
    && f'.published == f.published && f.clock <= f'.clock
    && (f.latest.Some? ==> f'.latest.Some? && f.latest.value.ts <= f'.latest.value.ts)
  }

  lemma OtherEffect<T(!new)>(f: Feed<T>, e: Event<T>, sid: nat)
    requires Can(f, e) && sid in f.subs && sid in Next(f, e).subs
    requires !e.Publish? && !(e.Wake? && e.sid == sid)
    ensures Undisturbed(f.subs[sid], Next(f, e).subs[sid])
  {
  }

  lemma LaterEffect<T(!new)>(f: Feed<T>, e: Event<T>)
    requires Can(f, e) && Ticks(f, e) && !e.Publish? && (f.latest.Some? ==> f.latest.value.ts == f.clock)
    ensures Later(f, Next(f, e))
  {
  }

  lemma UndisturbedTimely<T(!new)>(f: Feed<T>, f': Feed<T>, s: Sub<T>, s': Sub<T>)
    requires s.sent != [] && SubTimely(f, s) && Undisturbed(s, s') && Later(f, f')
    ensures SubTimely(f', s')
  {
  }

  lemma OtherTimely<T(!new)>(f: Feed<T>, e: Event<T>, sid: nat)
    requires Timely(f) && Can(f, e) && Ticks(f, e) && sid in f.subs && sid in Next(f, e).subs
    requires !e.Publish? && !(e.Wake? && e.sid == sid)
    ensures Next(f, e).subs[sid].sent != [] && SubTimely(Next(f, e), Next(f, e).subs[sid])
  {
    OtherEffect(f, e, sid);
    LaterEffect(f, e);
    UndisturbedTimely(f, Next(f, e), f.subs[sid], Next(f, e).subs[sid]);
  }

  lemma StepSubTimely<T(!new)>(f: Feed<T>, e: Event<T>, sid: nat)
    requires Timely(f) && Can(f, e) && Ticks(f, e) && sid in Next(f, e).subs
    ensures Next(f, e).subs[sid].sent != [] && SubTimely(Next(f, e), Next(f, e).subs[sid])
  {
    SubsFrom(f, e, sid);
    if sid in f.subs {
      if e.Publish? {
        PublishTimely(f, e.ts, sid);
      } else if e.Wake? && e.sid == sid {
        WakeTimely(f, sid);
      } else {
        OtherTimely(f, e, sid);
      }
    }
  }

  lemma {:induction false} RunTimely<T(!new)>(f: Feed<T>, run: seq<Event<T>>)
    requires Timely(f) && Runs(f, run) && RunTicks(f, run)
    ensures Timely(After(f, run))
    decreases |run|
  {
    if run != [] {
      StepTimely(f, run[0]);
      RunTimely(Next(f, run[0]), run[1..]);
    }
  }

  predicate Touches<T>(e: Event<T>, sid: nat) {
    (e.Wake? && e.sid == sid) || (e.Drop? && e.sid == sid)
  }

  ghost predicate LeavesAlone<T>(run: seq<Event<T>>, sid: nat) {
    forall i :: 0 <= i < |run| ==> !Touches(run[i], sid)
  }

  lemma {:induction false} StaysWoken<T(!new)>(f: Feed<T>, run: seq<Event<T>>, sid: nat)
    requires Runs(f, run) && LeavesAlone(run, sid)
    requires sid in f.subs && f.subs[sid].phase == Woken
    ensures var f' := After(f, run);
            && sid in f'.subs && f'.subs[sid].phase == Woken && f'.subs[sid].sent == f.subs[sid].sent
    decreases |run|
  {
    if run != [] {
      assert !Touches(run[0], sid);
      StaysWoken(Next(f, run[0]), run[1..], sid);
    }
  }

  // What a woken subscriber sends next, if the last change has been published.
  ghost predicate SendsCurrent<T>(f: Feed<T>, sid: nat) {
    && Can(f, Wake(sid)) && f.history != []
    && (f.latest.value.moment == |f.history| - 1 ==>
        var sent := Next(f, Wake(sid)).subs[sid].sent;
        && |sent| == |f.subs[sid].sent| + 1
        && sent[|sent| - 1].table == f.history[|f.history| - 1])
  }

  lemma WokenSendsCurrent<T(!new)>(f: Feed<T>, sid: nat)
    requires Timely(f) && sid in f.subs && f.subs[sid].phase == Woken
    ensures SendsCurrent(f, sid)
  {
    WakeSends(f, sid);
  }

  lemma {:induction false} NoLostFrom<T(!new)>(f: Feed<T>, ts: int, more: seq<Event<T>>, sid: nat)
    requires Timely(f) && sid in f.subs && f.subs[sid].phase == Parked && Can(f, Publish(ts)) && Ticks(f, Publish(ts))
    requires Runs(Next(f, Publish(ts)), more) && RunTicks(Next(f, Publish(ts)), more) && LeavesAlone(more, sid)
    ensures SendsCurrent(After(Next(f, Publish(ts)), more), sid)
  {
    var f' := Next(f, Publish(ts));
    StepTimely(f, Publish(ts));
    PublishTimely(f, ts, sid);
    RunTimely(f', more);
    StaysWoken(f', more, sid);
    WokenSendsCurrent(After(f', more), sid);
  }

  // A subscriber that a publication finds waiting is sent the head's current table
  // on its next step, however many changes, publications and subscriptions come
  // before that step, provided the last change has been published.
  lemma {:induction false} NoLostUpdate<T(!new)>(table: T, run: seq<Event<T>>, ts: int, more: seq<Event<T>>, sid: nat)
    requires Runs(Begin(table), run) && RunTicks(Begin(table), run)
    requires var f := After(Begin(table), run);
             && sid in f.subs && f.subs[sid].phase == Parked
             && Can(f, Publish(ts)) && Ticks(f, Publish(ts))
             && Runs(Next(f, Publish(ts)), more) && RunTicks(Next(f, Publish(ts)), more) && LeavesAlone(more, sid)
    ensures SendsCurrent(After(Next(After(Begin(table), run), Publish(ts)), more), sid)
  {
    RunTimely(Begin(table), run);
    NoLostFrom(After(Begin(table), run), ts, more, sid);
  }

  // A waiting subscriber has been sent something as new as the last publication,
  // exactly when no publication came while it was still in its last send.
  lemma {:induction false} CaughtUpExactly<T(!new)>(table: T, run: seq<Event<T>>, sid: nat)
    requires Runs(Begin(table), run) && RunTicks(Begin(table), run)
    requires sid in After(Begin(table), run).subs && After(Begin(table), run).subs[sid].phase == Parked
    ensures var f := After(Begin(table), run);
            var s := f.subs[sid];
            && s.sent != []
            && ((f.published.Some? ==> s.sent[|s.sent| - 1].ts >= f.published.value.ts) <==> !s.missed)
  {
    RunTimely(Begin(table), run);
    var f := After(Begin(table), run);
    assert SubTimely(f, f.subs[sid]);
  }

  // ---------- what a proxy shows ----------

  // Of two snapshots the one with the later time stamp is not the older table.
  ghost predicate Ordered<T>(f: Feed<T>, snap: Snap<T>) {
    f.published.Some? && snap.ts >= f.published.value.ts ==> snap.moment >= f.published.value.moment
  }

  // What a proxy applied last is what its stream delivered last.
  ghost predicate AppliedLast<T>(s: Sub<T>, v: View<T>) {
    0 < s.delivered <= |s.sent| ==> v.applied != [] && v.applied[|v.applied| - 1] == s.sent[s.delivered - 1]
  }

  ghost predicate ViewTracked<T>(f: Feed<T>, v: View<T>) {
    v.conn.Some? && v.conn.value in f.subs ==> AppliedLast(f.subs[v.conn.value], v)
  }

  // Each stream feeds one proxy.
  ghost predicate Apart<T>(v: View<T>, v': View<T>) {
    v.conn.None? || v'.conn != v.conn
  }

  ghost predicate Tracked<T(!new)>(f: Feed<T>) {
    && (f.published.Some? ==> f.latest.Some? && f.published.value.moment <= f.latest.value.moment)
    && (forall sid :: sid in f.subs ==> f.subs[sid].sent != [] && Ordered(f, f.subs[sid].sent[|f.subs[sid].sent| - 1]))
    && (forall p :: p in f.views ==> ViewTracked(f, f.views[p]))
    && (forall p, q :: p in f.views && q in f.views && p != q ==> Apart(f.views[p], f.views[q]))
  }

  lemma PublishedOrdered<T(!new)>(f: Feed<T>, e: Event<T>)
    requires Timely(f) && Tracked(f) && Can(f, e)
    ensures var f' := Next(f, e);
            f'.published.Some? ==> f'.latest.Some? && f'.published.value.moment <= f'.latest.value.moment
  {
    StepGrows(f, e);
  }

  // What was sent last was so before, or is the latest snapshot.
  lemma LastSentEffect<T(!new)>(f: Feed<T>, e: Event<T>, sid: nat)
    requires Can(f, e) && sid in Next(f, e).subs && (sid in f.subs ==> f.subs[sid].sent != [])
    ensures var f' := Next(f, e);
            var sent := f'.subs[sid].sent;
            && sent != []
            && ((sid in f.subs && sent[|sent| - 1] == f.subs[sid].sent[|f.subs[sid].sent| - 1]) ||
                f'.latest == Some(sent[|sent| - 1]))
  {
  }

  lemma StaysOrdered<T(!new)>(f: Feed<T>, e: Event<T>, snap: Snap<T>)
    requires Can(f, e) && Ticks(f, e) && Ordered(f, snap) && snap.ts <= f.clock
    ensures Ordered(Next(f, e), snap)
  {
  }

  lemma LastSentOrdered<T(!new)>(f: Feed<T>, e: Event<T>, sid: nat)
    requires Timely(f) && Tracked(f) && Can(f, e) && Ticks(f, e) && sid in Next(f, e).subs
    ensures var s := Next(f, e).subs[sid]; s.sent != [] && Ordered(Next(f, e), s.sent[|s.sent| - 1])
  {
    LastSentEffect(f, e, sid);
    PublishedOrdered(f, e);
    if sid in f.subs {
      assert SubTimely(f, f.subs[sid]);
      StaysOrdered(f, e, f.subs[sid].sent[|f.subs[sid].sent| - 1]);
    }
  }

  lemma DeliverTracked<T(!new)>(f: Feed<T>, p: nat)
    requires Inv(f) && Can(f, Deliver(p))
    ensures ViewTracked(Next(f, Deliver(p)), Next(f, Deliver(p)).views[p])
  {
  }

  lemma StreamTracked<T(!new)>(f: Feed<T>, e: Event<T>, p: nat, sid: nat)
    requires Tracked(f) && Can(f, e) && p in f.views && f.views[p].conn == Some(sid) && e != Deliver(p)
    requires sid in f.subs && sid in Next(f, e).subs && f.subs[sid].delivered <= |f.subs[sid].sent|
    ensures AppliedLast(f.subs[sid], f.views[p]) ==> AppliedLast(Next(f, e).subs[sid], f.views[p])
  {
    if e.Deliver? {
      assert Apart(f.views[p], f.views[e.proxy]);
    }
  }

  // A new stream has delivered nothing yet.
  lemma NewStreamTracked<T(!new)>(f: Feed<T>, e: Event<T>, v: View<T>)
    requires Can(f, e) && e.Subscribe? && v.conn == Some(e.sid)
    ensures ViewTracked(Next(f, e), v)
  {
  }

  lemma OldStreamTracked<T(!new)>(f: Feed<T>, e: Event<T>, p: nat)
    requires Inv(f) && Tracked(f) && Can(f, e) && p in f.views && e != Deliver(p)
    requires Next(f, e).views[p].conn == f.views[p].conn
    ensures ViewTracked(Next(f, e), Next(f, e).views[p])
  {
    var v := f.views[p];
    ViewEffect(f, e, p);
    if v.conn.Some? && v.conn.value in Next(f, e).subs {
      SubsFrom(f, e, v.conn.value);
      if v.conn.value in f.subs {
        assert ViewTracked(f, v) && SubOk(f, f.subs[v.conn.value]);
        StreamTracked(f, e, p, v.conn.value);
      }
    }
  }

  lemma StepViewTracked<T(!new)>(f: Feed<T>, e: Event<T>, p: nat)
    requires Inv(f) && Tracked(f) && Can(f, e) && p in Next(f, e).views
    ensures ViewTracked(Next(f, e), Next(f, e).views[p])
  {
    var v' := Next(f, e).views[p];
    if e == Deliver(p) {
      DeliverTracked(f, p);
    } else if p in f.views {
      ViewEffect(f, e, p);
      if v'.conn == f.views[p].conn {
        OldStreamTracked(f, e, p);
      } else if v'.conn.Some? {
        NewStreamTracked(f, e, v');
      }
    } else {
      NewStreamTracked(f, e, v');
    }
  }

  lemma StepApart<T(!new)>(f: Feed<T>, e: Event<T>, p: nat, q: nat)
    requires Tracked(f) && Can(f, e) && p in Next(f, e).views && q in Next(f, e).views && p != q
    ensures Apart(Next(f, e).views[p], Next(f, e).views[q])
  {
    if p in f.views && q in f.views {
      assert Apart(f.views[p], f.views[q]);
    }
  }

  lemma StepTracked<T(!new)>(f: Feed<T>, e: Event<T>)
    requires Timely(f) && Tracked(f) && Can(f, e) && Ticks(f, e)
    ensures Tracked(Next(f, e))
  {
    var f' := Next(f, e);
    PublishedOrdered(f, e);
    forall sid | sid in f'.subs
      ensures f'.subs[sid].sent != [] && Ordered(f', f'.subs[sid].sent[|f'.subs[sid].sent| - 1])
    {
      LastSentOrdered(f, e, sid);
    }
    forall p | p in f'.views ensures ViewTracked(f', f'.views[p]) { StepViewTracked(f, e, p); }
    forall p, q | p in f'.views && q in f'.views && p != q ensures Apart(f'.views[p], f'.views[q]) {
      StepApart(f, e, p, q);
    }
  }

  // The proxy has taken everything its waiting, not belated subscription has been sent.
  ghost predicate CaughtUp<T>(f: Feed<T>, p: nat) {
    && p in f.views && f.views[p].conn.Some? && f.views[p].conn.value in f.subs
    && (var s := f.subs[f.views[p].conn.value];
        s.phase == Parked && !s.missed && s.delivered == |s.sent|)
  }

  // It has, and the last publication carried the head's current table.
  ghost predicate Settled<T>(f: Feed<T>, p: nat) {
    CaughtUp(f, p) && f.published.Some? && f.published.value.moment == |f.history| - 1
  }

  lemma SettledShowsCurrent<T(!new)>(f: Feed<T>, p: nat)
    requires Timely(f) && Tracked(f) && Settled(f, p)
    ensures var applied := f.views[p].applied;
            applied != [] && applied[|applied| - 1].table == f.history[|f.history| - 1]
  {
    var s := f.subs[f.views[p].conn.value];
    assert SubOk(f, s) && SubTimely(f, s) && ViewTracked(f, f.views[p]);
    assert Ordered(f, s.sent[|s.sent| - 1]) && Genuine(f, s.sent[|s.sent| - 1]);
  }

  lemma {:induction false} RunTracked<T(!new)>(f: Feed<T>, run: seq<Event<T>>)
    requires Timely(f) && Tracked(f) && Runs(f, run) && RunTicks(f, run)
    ensures Timely(After(f, run)) && Tracked(After(f, run))
    decreases |run|
  {
    if run != [] {
      StepTimely(f, run[0]);
      StepTracked(f, run[0]);
      RunTracked(Next(f, run[0]), run[1..]);
    }
  }

  // With an increasing clock a proxy that has settled shows the head's current table.
  lemma {:induction false} SettledIsCurrent<T(!new)>(table: T, run: seq<Event<T>>, p: nat)
    requires Runs(Begin(table), run) && RunTicks(Begin(table), run) && Settled(After(Begin(table), run), p)
    ensures var f := After(Begin(table), run);
            var applied := f.views[p].applied;
            applied != [] && applied[|applied| - 1].table == f.history[|f.history| - 1]
  {
    RunTracked(Begin(table), run);
    SettledShowsCurrent(After(Begin(table), run), p);
  }

  // ---------- streams that end, and new ones ----------

  // The head can end any subscription that it has not ended, and sends nothing more on it.
  lemma {:induction false} EndedSendsNothing<T(!new)>(f: Feed<T>, sid: nat, run: seq<Event<T>>)
    requires sid in f.subs && f.subs[sid].phase != Ended
    ensures Can(f, Drop(sid))
    ensures Runs(Next(f, Drop(sid)), run) ==>
              var f' := After(Next(f, Drop(sid)), run);
              sid in f'.subs && f'.subs[sid].phase == Ended && f'.subs[sid].sent == f.subs[sid].sent
  {
    if Runs(Next(f, Drop(sid)), run) {
      StaysEnded(Next(f, Drop(sid)), sid, run);
    }
  }

  lemma {:induction false} StaysEnded<T(!new)>(f: Feed<T>, sid: nat, run: seq<Event<T>>)
    requires Runs(f, run) && sid in f.subs && f.subs[sid].phase == Ended
    ensures var f' := After(f, run);
            sid in f'.subs && f'.subs[sid].phase == Ended && f'.subs[sid].sent == f.subs[sid].sent
    decreases |run|
  {
    if run != [] {
      StaysEnded(Next(f, run[0]), sid, run[1..]);
    }
  }

  // A proxy leaves the stream it reads, if it reads one, and starts another.
  ghost function Reconnecting<T>(f: Feed<T>, p: nat, sid: nat, ts: int): seq<Event<T>> {
    (if p in f.views && f.views[p].conn.Some? then [Disconnect(p)] else []) + [Subscribe(sid, p, ts), Deliver(p)]
  }

  ghost predicate Unused<T>(f: Feed<T>, sid: nat) {
    sid !in f.subs && forall p :: p in f.views ==> f.views[p].conn != Some(sid)
  }

  lemma {:induction false} SubscribesAndReads<T(!new)>(f: Feed<T>, p: nat, sid: nat, ts: int)
    requires f.history != [] && Unused(f, sid) && (p in f.views ==> f.views[p].conn.None?)
    ensures var run := [Subscribe(sid, p, ts), Deliver(p)];
            && Runs(f, run)
            && p in After(f, run).views
            && After(f, run).views[p] ==
               View(Some(sid), (if p in f.views then f.views[p].applied else []) + [Newest(f, ts)])
  {
    var f1 := Next(f, Subscribe(sid, p, ts));
    assert Can(f1, Deliver(p));
    var last: seq<Event<T>> := [Deliver(p)];
    OneMore(f1, Deliver(p), []);
    assert last + [] == last;
    OneMore(f, Subscribe(sid, p, ts), last);
    assert [Subscribe(sid, p, ts)] + last == [Subscribe(sid, p, ts), Deliver(p)];
  }

  // Whatever has happened, a proxy that reconnects is sent the head's current table first,
  // and keeps what it had applied before.
  lemma {:induction false} ReconnectShowsCurrent<T(!new)>(f: Feed<T>, p: nat, sid: nat, ts: int)
    requires f.history != [] && Unused(f, sid)
    ensures var run := Reconnecting(f, p, sid, ts);
            && Runs(f, run)
            && p in After(f, run).views
            && After(f, run).views[p] ==
               View(Some(sid), (if p in f.views then f.views[p].applied else []) +
                               [Snap(ts, f.history[|f.history| - 1], |f.history| - 1)])
  {
    if p in f.views && f.views[p].conn.Some? {
      var f1 := Next(f, Disconnect(p));
      SubscribesAndReads(f1, p, sid, ts);
      OneMore(f, Disconnect(p), [Subscribe(sid, p, ts), Deliver(p)]);
    } else {
      SubscribesAndReads(f, p, sid, ts);
      assert Reconnecting(f, p, sid, ts) == [Subscribe(sid, p, ts), Deliver(p)];
    }
  }

  lemma {:induction false} OneMore<T(!new)>(f: Feed<T>, e: Event<T>, run: seq<Event<T>>)
    requires Can(f, e) && Runs(Next(f, e), run)
    ensures Runs(f, [e] + run) && After(f, [e] + run) == After(Next(f, e), run)
  {
    assert ([e] + run)[1..] == run && ([e] + run)[0] == e;
  }

  // ---------- a head that publishes what it changes ----------

  // Snapshots and publications are of the current table; without a publication so far,
  // so is everything last sent.
  ghost predicate Live<T(!new)>(f: Feed<T>) {
    && f.history != []
    && (f.latest.Some? ==> f.latest.value.moment == |f.history| - 1)
    && (f.published.Some? ==> f.published.value.moment == |f.history| - 1)
    && (f.published.None? ==> forall sid :: sid in f.subs ==> SentCurrent(f, f.subs[sid]))
  }

  ghost predicate SentCurrent<T>(f: Feed<T>, s: Sub<T>) {
    s.sent != [] && s.sent[|s.sent| - 1].moment == |f.history| - 1
  }

  lemma {:induction false} LiveEvent<T(!new)>(f: Feed<T>, e: Event<T>)
    requires Inv(f) && Live(f) && Can(f, e) && !e.Change?
    ensures Live(Next(f, e))
  {
    var f' := Next(f, e);
    if f'.published.None? {
      forall sid | sid in f'.subs ensures SentCurrent(f', f'.subs[sid]) {
        assert sid in f.subs ==> SubOk(f, f.subs[sid]) && SentCurrent(f, f.subs[sid]);
        LastSentEffect(f, e, sid);
      }
    }
  }

  lemma LiveChange<T(!new)>(f: Feed<T>, table: T, ts: int)
    ensures Can(Next(f, Change(table)), Publish(ts))
    ensures Live(Next(Next(f, Change(table)), Publish(ts)))
  {
  }

  // Before any snapshot is taken there is no one to tell.
  lemma LiveBefore<T(!new)>(f: Feed<T>, table: T)
    requires Timely(f) && f.latest.None?
    ensures Live(Next(f, Change(table)))
  {
  }

  lemma LiveShowsCurrent<T(!new)>(f: Feed<T>, p: nat)
    requires Timely(f) && Tracked(f) && Live(f) && CaughtUp(f, p)
    ensures var applied := f.views[p].applied;
            applied != [] && applied[|applied| - 1].table == f.history[|f.history| - 1]
  {
    if f.published.Some? {
      SettledShowsCurrent(f, p);
    } else {
      var s := f.subs[f.views[p].conn.value];
      assert SubOk(f, s) && SentCurrent(f, s) && ViewTracked(f, f.views[p]);
      assert Genuine(f, s.sent[|s.sent| - 1]);
    }
  }

  // So an update can be lost until the next publication: published during the
  // subscriber's first send, it leaves the subscriber waiting with the old table.
  lemma UpdateLost<T(!new)>(first: T, second: T)
    requires first != second
    ensures var run := [Subscribe(0, 0, 1), Change(second), Publish(2), Resume(0)];
            && Runs(Begin(first), run) && RunTicks(Begin(first), run)
            && var f := After(Begin(first), run);
               && f.history == [first, second] && f.published == Some(Snap(2, second, 1))
               && 0 in f.subs && f.subs[0].phase == Parked && f.subs[0].missed
               && f.subs[0].sent == [Snap(1, first, 0)]
  {
    var f0 := Begin(first);
    var f1 := Next(f0, Subscribe(0, 0, 1));
    var f2 := Next(f1, Change(second));
    var f3 := Next(f2, Publish(2));
    var f4 := Next(f3, Resume(0));
    assert f3.subs[0] == Sub(Sending, 0, [Snap(1, first, 0)], 0, true);
    assert f4.subs[0] == Sub(Parked, 1, [Snap(1, first, 0)], 0, true);
    LostRun(first, second, f1, f2, f3, f4);
  }

  lemma LostRun<T(!new)>(first: T, second: T, f1: Feed<T>, f2: Feed<T>, f3: Feed<T>, f4: Feed<T>)
    requires Follows(Begin(first), Subscribe(0, 0, 1), f1) && Follows(f1, Change(second), f2)
    requires Follows(f2, Publish(2), f3) && Follows(f3, Resume(0), f4)
    ensures var run := [Subscribe(0, 0, 1), Change(second), Publish(2), Resume(0)];
            Runs(Begin(first), run) && RunTicks(Begin(first), run) && After(Begin(first), run) == f4
  {
    var r3: seq<Event<T>> := [Resume(0)] + [];
    var r2 := [Publish(2)] + r3;
    var r1 := [Change(second)] + r2;
    Prefixed(f3, Resume(0), []);
    Prefixed(f2, Publish(2), r3);
    Prefixed(f1, Change(second), r2);
    Prefixed(Begin(first), Subscribe(0, 0, 1), r1);
    assert [Subscribe(0, 0, 1)] + r1 == [Subscribe(0, 0, 1), Change(second), Publish(2), Resume(0)];
  }

  ghost predicate Follows<T>(f: Feed<T>, e: Event<T>, f': Feed<T>) {
    Can(f, e) && Ticks(f, e) && Next(f, e) == f'
  }

  lemma {:induction false} Prefixed<T(!new)>(f: Feed<T>, e: Event<T>, run: seq<Event<T>>)
    requires Can(f, e) && Ticks(f, e) && Runs(Next(f, e), run) && RunTicks(Next(f, e), run)
    ensures Runs(f, [e] + run) && RunTicks(f, [e] + run) && After(f, [e] + run) == After(Next(f, e), run)
  {
    assert ([e] + run)[1..] == run;
  }
}
