/** What every run of the tracker and the realtime client keeps: watching, channels, release handles, the
    cache and single-flight refreshing. */
module RunTrackingProperties {
  import opened Wrappers
  import opened RunTracking

  // ---------- the invariant ----------

  predicate ChannelsAgree(s: Sys) {
    s.c.channels == s.t.tracked + Selection(s.c)
  }

  /** Only a channel of the empty id may be left over. */
  predicate WatchInv(s: Sys) {
    && s.t.tracked == s.c.watched == s.t.unwatch.Keys
    && (!s.h.disconnected ==> s.t.tracked + Selection(s.c) <= s.c.channels <= s.t.tracked + Selection(s.c) + {""})
    && (s.t.disposed ==> s.t.tracked == {})
  }

  predicate HandleInv(unwatch: map<string, nat>, uses: seq<nat>) {
    && (forall id | id in unwatch :: unwatch[id] < |uses| && uses[unwatch[id]] == 0)
    && (forall a, b | a in unwatch && b in unwatch :: unwatch[a] == unwatch[b] ==> a == b)
    && (forall n | 0 <= n < |uses| :: uses[n] == 1 || (uses[n] == 0 && n in unwatch.Values))
  }

  predicate CacheInv(t: Tracker) {
    && t.projections.Keys <= t.tracked
    && (forall id | id in t.projections :: Trackable(t.projections[id].status) && t.projections[id].id == id)
    && t.tracked !! t.terminal
    && t.refreshNeeded <= t.tracked
  }

  ghost predicate SingleFlight(t: Tracker, h: History) {
    forall id :: h.outstanding[id] == if IsFetching(t, id) then 1 else 0
  }

  ghost predicate Inv(s: Sys) {
    WatchInv(s) && HandleInv(s.t.unwatch, s.h.uses) && CacheInv(s.t) && SingleFlight(s.t, s.h)
  }

  // ---------- refreshing keeps it ----------

  lemma BeginKeeps(s: Sys, ids: set<string>)
    requires Inv(s) && ids <= s.t.tracked && forall id | id in ids :: !IsFetching(s.t, id)
    ensures Inv(BeginFetches(s, ids))
  {
    var r := BeginFetches(s, ids);
    assert SingleFlight(r.t, r.h);
  }

  lemma MarkKeeps(s: Sys, busy: set<string>)
    requires Inv(s) && busy <= s.t.tracked * s.t.inFlight.Keys
    ensures Inv(Mark(s, busy))
  {
    var r := Mark(s, busy);
    assert forall id :: IsFetching(r.t, id) == IsFetching(s.t, id);
  }

  lemma InvalidateKeeps(s: Sys, runs: set<string>)
    requires Inv(s)
    ensures Inv(Invalidate(s, runs))
  {
    var ids := runs * s.t.tracked;
    var busy := ids * s.t.inFlight.Keys;
    MarkKeeps(s, busy);
    BeginKeeps(Mark(s, busy), ids - busy);
  }

  // ---------- tracking keeps it ----------

  /** A handle is used once more exactly when its run is released. */
  lemma UsedExactly(uses: seq<nat>, unwatch: map<string, nat>, released: set<string>)
    requires HandleInv(unwatch, uses) && released <= unwatch.Keys
    ensures HandleInv(unwatch - released, Used(uses, unwatch, released))
    ensures forall id | id in released :: Used(uses, unwatch, released)[unwatch[id]] == 1
  {
    var now := Used(uses, unwatch, released);
    forall id | id in unwatch - released ensures now[unwatch[id]] == 0 {
      assert !exists other :: other in released && other in unwatch && unwatch[other] == unwatch[id];
    }
    forall n | 0 <= n < |uses| ensures now[n] == 1 || (now[n] == 0 && n in (unwatch - released).Values) {
      if uses[n] == 0 {
        var id :| id in unwatch && unwatch[id] == n;
        assert id in released || (id in unwatch - released && (unwatch - released)[id] == n);
      }
    }
  }

  lemma StopKeeps(s: Sys, ids: set<string>)
    requires Inv(s)
    ensures Inv(Stop(s, ids))
  {
    var r := Stop(s, ids);
    UsedExactly(s.h.uses, s.t.unwatch, ids * s.t.unwatch.Keys);
    assert s.t.unwatch - (ids * s.t.unwatch.Keys) == s.t.unwatch - ids;
    assert forall id :: IsFetching(r.t, id) == IsFetching(s.t, id);
    assert WatchInv(r);
  }

  lemma EnterKeeps(s: Sys, id: string)
    requires Inv(s) && id !in s.t.terminal && id !in s.t.tracked && !s.t.disposed
    ensures Inv(Enter(s, id))
  {
    var r := Enter(s, id);
    assert forall x :: IsFetching(r.t, x) == IsFetching(s.t, x);
    EnterHandles(s.t.unwatch, s.h.uses, id);
    assert WatchInv(r);
  }

  lemma EnterHandles(unwatch: map<string, nat>, uses: seq<nat>, id: string)
    requires HandleInv(unwatch, uses) && id !in unwatch
    ensures HandleInv(unwatch[id := |uses|], uses + [0])
  {
    var now, more := unwatch[id := |uses|], uses + [0];
    forall n | 0 <= n < |more| ensures more[n] == 1 || (more[n] == 0 && n in now.Values) {
      if n == |uses| {
        assert now[id] == n;
      } else if uses[n] == 0 {
        var x :| x in unwatch && unwatch[x] == n;
        assert now[x] == n;
      }
    }
  }

  lemma TrackKeeps(s: Sys, id: string)
    requires Inv(s) && id !in s.t.terminal && !s.t.disposed
    ensures Inv(Track(s, id))
  {
    if id !in s.t.tracked {
      EnterKeeps(s, id);
      if id !in s.t.inFlight {
        BeginKeeps(Enter(s, id), {id});
      }
    }
  }

  lemma TrackFacts(s: Sys, id: string)
    ensures Track(s, id).t.tracked == s.t.tracked + {id}
    ensures Track(s, id).t.terminal == s.t.terminal && Track(s, id).t.disposed == s.t.disposed
  {
  }

  lemma {:induction false} TrackEachFacts(s: Sys, ids: seq<string>)
    ensures TrackEach(s, ids).t.tracked == s.t.tracked + Elements(ids)
    ensures TrackEach(s, ids).t.terminal == s.t.terminal && TrackEach(s, ids).t.disposed == s.t.disposed
    decreases |ids|
  {
    if ids != [] {
      TrackFacts(s, ids[0]);
      TrackEachFacts(Track(s, ids[0]), ids[1..]);
      assert Elements(ids) == {ids[0]} + Elements(ids[1..]);
    }
  }

  lemma {:induction false} TrackEachKeeps(s: Sys, ids: seq<string>)
    requires Inv(s) && !s.t.disposed && Elements(ids) !! s.t.terminal
    ensures Inv(TrackEach(s, ids))
    decreases |ids|
  {
    if ids != [] {
      var first, rest := ids[0], ids[1..];
      assert first in Elements(ids) && Elements(rest) <= Elements(ids);
      TrackKeeps(s, first);
      TrackFacts(s, first);
      TrackEachKeeps(Track(s, first), rest);
    }
  }

  lemma {:induction false} DesiredExactly(summaries: seq<Summary>, tombstones: set<string>, id: string)
    ensures id in Desired(summaries, tombstones) <==>
            id !in tombstones && exists x | x in summaries :: x.id == id && Trackable(x.status)
  {
    if summaries != [] {
      DesiredExactly(summaries[1..], tombstones, id);
      assert summaries == [summaries[0]] + summaries[1..];
    }
  }

  lemma UpdateKeeps(s: Sys, summaries: seq<Summary>)
    requires Inv(s)
    ensures Inv(UpdateSummaries(s, summaries))
    ensures !s.t.disposed ==>
              UpdateSummaries(s, summaries).t.tracked ==
                  Elements(Desired(summaries, Tombstones(s.t.terminal, summaries)))
  {
    if !s.t.disposed {
      var tombstones := Tombstones(s.t.terminal, summaries);
      var desired := Desired(summaries, tombstones);
      var kept := s.(t := s.t.(terminal := tombstones));
      assert Inv(kept) by { assert forall id :: IsFetching(kept.t, id) == IsFetching(s.t, id); }
      StopKeeps(kept, s.t.tracked - Elements(desired));
      forall id | id in desired ensures id !in tombstones {
        DesiredExactly(summaries, tombstones, id);
      }
      TrackEachKeeps(Stop(kept, s.t.tracked - Elements(desired)), desired);
      TrackEachFacts(Stop(kept, s.t.tracked - Elements(desired)), desired);
    }
  }

  // ---------- results, failures and the other events keep it ----------

  lemma AcceptKeeps(s: Sys, p: Projection)
    requires Inv(s) && p.id in s.t.tracked
    ensures Inv(Accept(s, p))
  {
    if Trackable(p.status) {
      var r := Accept(s, p);
      assert forall id :: IsFetching(r.t, id) == IsFetching(s.t, id);
    } else {
      var stopped := Stop(s, {p.id});
      StopKeeps(s, {p.id});
      assert Accept(s, p) == stopped.(t := stopped.t.(terminal := s.t.terminal + {p.id}));
      assert forall id :: IsFetching(Accept(s, p).t, id) == IsFetching(stopped.t, id);
    }
  }

  lemma GoOnKeeps(s: Sys, id: string)
    requires Inv(s) && IsFetching(s.t, id)
    ensures Inv(GoOn(s, id))
  {
    var r := GoOn(s, id);
    if id in s.t.tracked && id in s.t.refreshNeeded {
      assert r.h.outstanding == s.h.outstanding by { assert s.h.outstanding[id] == 1; }
      assert forall x :: IsFetching(r.t, x) == IsFetching(s.t, x);
    } else {
      assert forall x :: x != id ==> IsFetching(r.t, x) == IsFetching(s.t, x);
      assert SingleFlight(r.t, r.h);
    }
  }

  lemma ResumeKeeps(s: Sys, id: string, result: Option<Projection>)
    requires Inv(s) && IsFetching(s.t, id) && (result.Some? ==> result.value.id == id)
    ensures Inv(Resume(s, id, result))
  {
    var received := Receive(s, id, result);
    assert forall x :: IsFetching(received.t, x) == IsFetching(s.t, x);
    if id in s.t.tracked && result.Some? {
      AcceptKeeps(s, result.value);
    }
    assert Inv(received);
    GoOnKeeps(received, id);
  }

  lemma SettleKeeps(s: Sys, id: string)
    requires Inv(s) && id in SettlingRuns(s.t)
    ensures Inv(Settle(s, id))
  {
    assert forall x :: IsFetching(Settle(s, id).t, x) == IsFetching(s.t, x);
  }

  lemma DisposeKeeps(s: Sys)
    requires Inv(s)
    ensures Inv(Dispose(s))
  {
    var stopped := Stop(s, s.t.tracked);
    StopKeeps(s, s.t.tracked);
    assert s.t.tracked * s.t.unwatch.Keys == s.t.unwatch.Keys;
    assert s.t.unwatch - s.t.tracked == map[] && s.t.projections - s.t.tracked == map[];
    assert s.t.refreshNeeded - s.t.tracked == {};
    assert Dispose(s) == stopped.(t := stopped.t.(disposed := true));
    assert forall x :: IsFetching(Dispose(s).t, x) == IsFetching(stopped.t, x);
  }

  lemma OpenKeeps(s: Sys)
    requires Inv(s)
    ensures Inv(Open(s))
  {
    InvalidateKeeps(s, s.t.tracked);
    var reconnected := Invalidate(s, s.t.tracked);
    InvalidateKeeps(reconnected, Interested(s.c));
    var again := Invalidate(reconnected, Interested(s.c));
    assert forall x :: IsFetching(Open(s).t, x) == IsFetching(again.t, x);
  }

  lemma ClientKeeps(s: Sys, e: Event)
    requires Inv(s) && (e.Started? || e.SocketLost? || e.RunSelected? || e.Disconnected?)
    ensures Inv(Handle(s, e))
  {
    var r := Handle(s, e);
    assert forall x :: IsFetching(r.t, x) == IsFetching(s.t, x);
    assert WatchInv(r);
  }

  /** Every event keeps the invariant. */
  lemma StepKeeps(s: Sys, e: Event)
    requires Inv(s) && Possible(s, e)
    ensures Inv(Handle(s, e))
  {
    match e
    case Summaries(summaries) => UpdateKeeps(s, summaries);
    case Seeded(p) => if !s.t.disposed && p.id in s.t.tracked { AcceptKeeps(s, p); }
    case RunInvalidated(id) => InvalidateKeeps(s, {id});
    case SocketOpened => OpenKeeps(s);
    case Resumed(id, result) => ResumeKeeps(s, id, result);
    case Settled(id) => SettleKeeps(s, id);
    case Disposed => DisposeKeeps(s);
    case _ => ClientKeeps(s, e);
  }

  lemma {:induction false} Reachable(s: Sys, events: seq<Event>)
    requires Inv(s) && Feasible(s, events)
    ensures Inv(Final(s, events))
    decreases |events|
  {
    if events != [] {
      StepKeeps(s, events[0]);
      Reachable(Handle(s, events[0]), events[1..]);
    }
  }

  /** In every reachable state the tracker and the client agree, at most one getRun is outstanding per run,
      and a release handle has been used once, or not yet, and then it belongs to a tracked run. */
  lemma TrackerAndClientAgree(events: seq<Event>)
    requires Feasible(INITIAL, events)
    ensures var s := Final(INITIAL, events);
      && s.t.tracked == s.c.watched == s.t.unwatch.Keys
      && (!s.h.disconnected ==> s.c.channels - {""} == (s.t.tracked + Selection(s.c)) - {""})
      && (forall n | 0 <= n < |s.h.uses| :: s.h.uses[n] == if n in s.t.unwatch.Values then 0 else 1)
      && (forall id | id in s.t.projections :: id in s.t.tracked && Trackable(s.t.projections[id].status))
      && s.t.tracked !! s.t.terminal
      && (forall id :: s.h.outstanding[id] <= 1)
  {
    Reachable(INITIAL, events);
    var s := Final(INITIAL, events);
    forall n | 0 <= n < |s.h.uses| && n in s.t.unwatch.Values ensures s.h.uses[n] == 0 {
      var id :| id in s.t.unwatch && s.t.unwatch[id] == n;
    }
  }

  // ---------- channels ----------

  /** The channels that nobody asks for. */
  function Leftover(s: Sys): set<string> {
    s.c.channels - (s.t.tracked + Selection(s.c))
  }

  predicate NoMoreLeft(s: Sys, r: Sys) {
    Leftover(r) <= Leftover(s) && r.c.selected == s.c.selected
  }

  lemma StopLeaves(s: Sys, ids: set<string>)
    requires WatchInv(s)
    ensures NoMoreLeft(s, Stop(s, ids))
  {
  }

  lemma {:induction false} TrackEachLeaves(s: Sys, ids: seq<string>)
    ensures NoMoreLeft(s, TrackEach(s, ids))
    decreases |ids|
  {
    if ids != [] {
      assert NoMoreLeft(s, Track(s, ids[0]));
      TrackEachLeaves(Track(s, ids[0]), ids[1..]);
    }
  }

  lemma OthersLeave(s: Sys, e: Event)
    requires Inv(s) && Possible(s, e) && !e.RunSelected? && !e.Disconnected?
    ensures NoMoreLeft(s, Handle(s, e))
  {
    match e
    case Summaries(summaries) =>
      if !s.t.disposed {
        var tombstones := Tombstones(s.t.terminal, summaries);
        var desired := Desired(summaries, tombstones);
        var kept := s.(t := s.t.(terminal := tombstones));
        StopLeaves(kept, s.t.tracked - Elements(desired));
        TrackEachLeaves(Stop(kept, s.t.tracked - Elements(desired)), desired);
      }
    case Seeded(p) => StopLeaves(s.(t := s.t.(terminal := s.t.terminal + {p.id})), {p.id});
    case Resumed(id, result) =>
      StopLeaves(s.(t := s.t.(terminal := s.t.terminal + {id})), {id});
      assert NoMoreLeft(s, Receive(s, id, result));
    case _ =>
  }

  /** Selecting a run leaves the channel of a selected empty id open, unless that id is tracked:
      the guard of line 37 takes the empty id for no selection. */
  predicate LeavesEmptyOpen(s: Sys, e: Event) {
    e.RunSelected? && e.id != "" && s.c.selected == Some("") && "" !in s.t.tracked
  }

  /** The open channels stay exactly those of the tracked and the selected runs, except in that case. */
  lemma ChannelsExactly(s: Sys, e: Event)
    requires Inv(s) && Possible(s, e) && !s.h.disconnected && ChannelsAgree(s) && !e.Disconnected?
    ensures ChannelsAgree(Handle(s, e)) <==> !LeavesEmptyOpen(s, e)
  {
    if e.RunSelected? {
      var r := Handle(s, e);
      if LeavesEmptyOpen(s, e) {
        assert "" in r.c.channels && "" !in r.t.tracked + Selection(r.c);
      }
    } else {
      StepKeeps(s, e);
      OthersLeave(s, e);
      assert Leftover(s) == {};
      assert Handle(s, e).h.disconnected == s.h.disconnected by { DisconnectedOnlyByEvent(s, e); }
    }
  }

  /** No step of the run leaves the empty channel open, and none disconnects. */
  predicate NoneLeaves(s: Sys, events: seq<Event>)
    requires Feasible(s, events)
    decreases |events|
  {
    events == [] ||
    (!LeavesEmptyOpen(s, events[0]) && !events[0].Disconnected? && NoneLeaves(Handle(s, events[0]), events[1..]))
  }

  /** Over every such run the open channels are exactly those of the tracked and the selected runs. */
  lemma {:induction false} ChannelsStayExact(s: Sys, events: seq<Event>)
    requires Inv(s) && !s.h.disconnected && ChannelsAgree(s)
    requires Feasible(s, events) && NoneLeaves(s, events)
    ensures ChannelsAgree(Final(s, events))
    decreases |events|
  {
    if events != [] {
      StepKeeps(s, events[0]);
      ChannelsExactly(s, events[0]);
      DisconnectedOnlyByEvent(s, events[0]);
      ChannelsStayExact(Handle(s, events[0]), events[1..]);
    }
  }

  lemma {:induction false} TrackEachDisconnects(s: Sys, ids: seq<string>)
    ensures TrackEach(s, ids).h.disconnected == s.h.disconnected
    decreases |ids|
  {
    if ids != [] {
      TrackEachDisconnects(Track(s, ids[0]), ids[1..]);
    }
  }

  lemma DisconnectedOnlyByEvent(s: Sys, e: Event)
    requires Possible(s, e) && !e.Disconnected?
    ensures Handle(s, e).h.disconnected == s.h.disconnected
  {
    if e.Summaries? && !s.t.disposed {
      var tombstones := Tombstones(s.t.terminal, e.summaries);
      var desired := Desired(e.summaries, tombstones);
      TrackEachDisconnects(Stop(s.(t := s.t.(terminal := tombstones)), s.t.tracked - Elements(desired)), desired);
    }
  }

  lemma TwoEvents(s: Sys, first: Event, second: Event)
    requires Possible(s, first) && Possible(Handle(s, first), second)
    ensures Feasible(s, [first, second])
    ensures Final(s, [first, second]) == Handle(Handle(s, first), second)
  {
    var events, next := [first, second], Handle(s, first);
    assert events[1..] == [second] && events[1..][1..] == [];
    assert Feasible(next, events[1..]);
    assert Final(next, events[1..]) == Handle(next, second);
  }

  /** The case occurs. */
  lemma EmptySelectionLeaks()
    ensures Feasible(INITIAL, [RunSelected(""), RunSelected("a")])
    ensures Final(INITIAL, [RunSelected(""), RunSelected("a")]).c.channels == {"", "a"}
  {
    TwoEvents(INITIAL, RunSelected(""), RunSelected("a"));
    assert Handle(INITIAL, RunSelected("")).c.channels == {""};
  }

  // ---------- which runs are tracked ----------

  /** The product lists the run, if at all, as nonterminal. */
  predicate OnlyTrackable(summaries: seq<Summary>, id: string) {
    forall x | x in summaries :: x.id == id ==> Trackable(x.status)
  }

  /** After a product update the tracked runs are those listed as nonterminal, save the finished ones that
      the product still lists as nonterminal only. */
  lemma TrackedExactly(s: Sys, summaries: seq<Summary>, id: string)
    requires Inv(s) && !s.t.disposed
    ensures var r := UpdateSummaries(s, summaries).t;
      && (id in r.tracked <==> (exists x | x in summaries :: x.id == id && Trackable(x.status))
                               && !(id in s.t.terminal && OnlyTrackable(summaries, id)))
      && (id in r.terminal <==> id in s.t.terminal && id in Ids(summaries) && id !in TerminalIds(summaries))
  {
    var tombstones := Tombstones(s.t.terminal, summaries);
    UpdateKeeps(s, summaries);
    DesiredExactly(summaries, tombstones, id);
    var desired := Desired(summaries, tombstones);
    TrackEachFacts(Stop(s.(t := s.t.(terminal := tombstones)), s.t.tracked - Elements(desired)), desired);
  }
}
