/** What becomes of the results that the tracker receives, and what its runs leave in the cache and the client. */
module RunResults {
  import opened Wrappers
  import opened RunTracking
  import opened RunTrackingProperties
  import opened RunInvalidations

  // ---------- one result ----------

  predicate IsFinished(p: Projection) {
    p.status in {"completed", "failed", "cancelled"}
  }

  /** A getRun that ends: of a tracked run a nonterminal result is cached, a finished one retires the run, a failure
      empties its entry; of a run no longer tracked it is dropped. No other run is touched. */
  lemma ResultsExactly(s: Sys, id: string, result: Option<Projection>)
    requires Inv(s) && Possible(s, Resumed(id, result))
    ensures var t, r := s.t, Handle(s, Resumed(id, result)).t;
      if id !in t.tracked then r.tracked == t.tracked && r.terminal == t.terminal && r.projections == t.projections
      else if result.None? then
        r.tracked == t.tracked && r.terminal == t.terminal && r.projections == t.projections - {id}
      else if IsFinished(result.value) then
        r.tracked == t.tracked - {id} && r.terminal == t.terminal + {id} && r.projections == t.projections - {id}
      else r.tracked == t.tracked && r.terminal == t.terminal && r.projections == t.projections[id := result.value]
  {
    var received := Receive(s, id, result).t;
    var r := Handle(s, Resumed(id, result)).t;
    assert r.tracked == received.tracked && r.terminal == received.terminal && r.projections == received.projections;
  }

  /** A projection that is handed in is taken in like a result, if its run is tracked. */
  lemma SeedsExactly(s: Sys, p: Projection)
    requires Inv(s)
    ensures var t, r := s.t, Handle(s, Seeded(p)).t;
      if p.id !in t.tracked then r == t
      else if IsFinished(p) then
        r.tracked == t.tracked - {p.id} && r.terminal == t.terminal + {p.id} && r.projections == t.projections - {p.id}
      else r.tracked == t.tracked && r.terminal == t.terminal && r.projections == t.projections[p.id := p]
  {
  }

  // ---------- the cache over runs ----------

  function Entry(t: Tracker, id: string): Option<Projection> {
    if id in t.projections then Some(t.projections[id]) else None
  }

  /** The projection that an event delivers for the run, or that it shows there is none. */
  predicate Delivers(e: Event, id: string) {
    (e.Resumed? && e.id == id) || (e.Seeded? && e.projection.id == id)
  }

  function Delivered(e: Event): Option<Projection>
    requires e.Resumed? || e.Seeded?
  {
    if e.Resumed? then e.result else Some(e.projection)
  }

  /** The last projection delivered for the run since it was last tracked, and since the last failure, suspension
      or disconnect; last is what that was before these events. */
  function LastDelivered(s: Sys, events: seq<Event>, id: string, last: Option<Projection>): Option<Projection>
    requires Feasible(s, events)
    decreases |events|
  {
    if events == [] then last
    else
      var e, next := events[0], Handle(s, events[0]);
      var now :=
        if id !in s.t.tracked || id !in next.t.tracked then None
        else if Delivers(e, id) then Delivered(e)
        else if e.SocketLost? || e.Disconnected? then None
        else last;
      LastDelivered(next, events[1..], id, now)
  }

  lemma {:induction false} TrackEachKeepsCache(s: Sys, ids: seq<string>)
    ensures TrackEach(s, ids).t.projections == s.t.projections
    decreases |ids|
  {
    if ids != [] {
      TrackEachKeepsCache(Track(s, ids[0]), ids[1..]);
    }
  }

  lemma UpdateKeepsEntries(s: Sys, summaries: seq<Summary>, id: string)
    requires Inv(s) && id in s.t.tracked && id in UpdateSummaries(s, summaries).t.tracked
    ensures Entry(UpdateSummaries(s, summaries).t, id) == Entry(s.t, id)
  {
    if !s.t.disposed {
      var tombstones := Tombstones(s.t.terminal, summaries);
      var desired := Desired(summaries, tombstones);
      var gone := s.t.tracked - Elements(desired);
      UpdateKeeps(s, summaries);
      TrackEachKeepsCache(Stop(s.(t := s.t.(terminal := tombstones)), gone), desired);
    }
  }

  lemma NewIsUncached(s: Sys, e: Event, id: string)
    requires Inv(s) && Possible(s, e) && id !in s.t.tracked
    ensures id !in Handle(s, e).t.projections
  {
    match e
    case Summaries(summaries) => NewRunsAreUncached(s, summaries, id);
    case Resumed(run, result) => ResultsExactly(s, run, result);
    case Seeded(p) => SeedsExactly(s, p);
    case _ =>
  }

  /** The entry of a run that stays tracked after an event, from the one before. */
  predicate EntryFollows(t: Tracker, e: Event, r: Tracker, id: string) {
    Entry(r, id) ==
    if Delivers(e, id) then Delivered(e)
    else if e.SocketLost? || e.Disconnected? then None
    else Entry(t, id)
  }

  lemma EntryStep(s: Sys, e: Event, id: string)
    requires Inv(s) && Possible(s, e) && id in s.t.tracked && id in Handle(s, e).t.tracked
    ensures EntryFollows(s.t, e, Handle(s, e).t, id)
  {
    var r := Handle(s, e).t;
    match e
    case Summaries(summaries) => UpdateKeepsEntries(s, summaries, id);
    case Resumed(run, result) =>
      ResultsExactly(s, run, result);
      ResultFollows(s.t, e, r, id);
    case Seeded(p) =>
      SeedsExactly(s, p);
      SeedFollows(s.t, e, r, id);
    case _ => OthersKeepEntries(s, e, id);
  }

  lemma ResultFollows(t: Tracker, e: Event, r: Tracker, id: string)
    requires e.Resumed? && id in t.tracked && id in r.tracked
    requires
      if e.id !in t.tracked then r.projections == t.projections
      else if e.result.None? then r.projections == t.projections - {e.id}
      else if IsFinished(e.result.value) then r.tracked == t.tracked - {e.id} && r.projections == t.projections - {e.id}
      else r.projections == t.projections[e.id := e.result.value]
    ensures EntryFollows(t, e, r, id)
  {
  }

  lemma SeedFollows(t: Tracker, e: Event, r: Tracker, id: string)
    requires e.Seeded? && id in t.tracked && id in r.tracked
    requires var p := e.projection;
      if p.id !in t.tracked then r == t
      else if IsFinished(p) then r.tracked == t.tracked - {p.id} && r.projections == t.projections - {p.id}
      else r.projections == t.projections[p.id := p]
    ensures EntryFollows(t, e, r, id)
  {
  }

  lemma OthersKeepEntries(s: Sys, e: Event, id: string)
    requires Possible(s, e) && !e.Summaries? && !e.Resumed? && !e.Seeded? && id in Handle(s, e).t.tracked
    ensures EntryFollows(s.t, e, Handle(s, e).t, id)
  {
  }

  /** Over every run, a run's cache entry is exactly the last projection delivered for it. */
  lemma {:induction false} CacheFollows(s: Sys, events: seq<Event>, id: string)
    requires Inv(s) && Feasible(s, events)
    ensures Entry(Final(s, events).t, id) == LastDelivered(s, events, id, Entry(s.t, id))
    decreases |events|
  {
    if events != [] {
      var e, next := events[0], Handle(s, events[0]);
      StepKeeps(s, e);
      if id !in next.t.tracked {
        assert Entry(next.t, id) == None;
      } else if id !in s.t.tracked {
        NewIsUncached(s, e, id);
      } else {
        EntryStep(s, e, id);
      }
      CacheFollows(next, events[1..], id);
    }
  }

  // ---------- disposal ----------

  lemma DisposedStays(s: Sys, e: Event)
    requires Inv(s) && Possible(s, e) && s.t.disposed
    ensures Handle(s, e).t.disposed
  {
  }

  /** Once disposed, the tracker tracks and caches nothing in whatever comes later. */
  lemma {:induction false} DisposedForGood(s: Sys, events: seq<Event>)
    requires Inv(s) && s.t.disposed && Feasible(s, events)
    ensures Final(s, events).t.disposed && Final(s, events).t.tracked == {} && Final(s, events).t.projections == map[]
    decreases |events|
  {
    if events == [] {
      assert s.t.projections.Keys == {};
    } else {
      StepKeeps(s, events[0]);
      DisposedStays(s, events[0]);
      DisposedForGood(Handle(s, events[0]), events[1..]);
    }
  }

  // ---------- the client over runs ----------

  /** The run selected last since the last disconnect. */
  function LastSelected(events: seq<Event>): Option<string> {
    if events == [] then None
    else
      match events[|events|-1]
      case RunSelected(id) => Some(id)
      case Disconnected => None
      case _ => LastSelected(events[..|events|-1])
  }

  /** The socket has opened since the last disconnect. */
  predicate OpenedSince(events: seq<Event>) {
    && events != [] && !events[|events|-1].Disconnected?
    && (events[|events|-1].SocketOpened? || OpenedSince(events[..|events|-1]))
  }

  lemma {:induction false} TrackEachClient(s: Sys, ids: seq<string>)
    ensures TrackEach(s, ids).c.selected == s.c.selected && TrackEach(s, ids).c.product == s.c.product
    decreases |ids|
  {
    if ids != [] {
      TrackEachClient(Track(s, ids[0]), ids[1..]);
    }
  }

  lemma ClientStep(s: Sys, e: Event)
    requires Possible(s, e)
    ensures var c := Handle(s, e).c;
      && c.selected == (if e.RunSelected? then Some(e.id) else if e.Disconnected? then None else s.c.selected)
      && (c.product <==> !e.Disconnected? && (e.SocketOpened? || s.c.product))
  {
    if e.Summaries? && !s.t.disposed {
      var tombstones := Tombstones(s.t.terminal, e.summaries);
      var desired := Desired(e.summaries, tombstones);
      TrackEachClient(Stop(s.(t := s.t.(terminal := tombstones)), s.t.tracked - Elements(desired)), desired);
    }
  }

  lemma {:induction false} FinalSnoc(s: Sys, events: seq<Event>)
    requires events != [] && Feasible(s, events)
    ensures var before, last := events[..|events|-1], events[|events|-1];
      Feasible(s, before) && Possible(Final(s, before), last) && Final(s, events) == Handle(Final(s, before), last)
    decreases |events|
  {
    if |events| > 1 {
      var rest := events[1..];
      FinalSnoc(Handle(s, events[0]), rest);
      assert events[..|events|-1][1..] == rest[..|rest|-1];
    }
  }

  /** The selection is the run selected last, and the product channel is open exactly if the socket has opened,
      since the last disconnect. */
  lemma {:induction false} ClientFollows(events: seq<Event>)
    requires Feasible(INITIAL, events)
    ensures Final(INITIAL, events).c.selected == LastSelected(events)
    ensures Final(INITIAL, events).c.product <==> OpenedSince(events)
    decreases |events|
  {
    if events != [] {
      var before := events[..|events|-1];
      FinalSnoc(INITIAL, events);
      ClientFollows(before);
      ClientStep(Final(INITIAL, before), events[|events|-1]);
    }
  }

  // ---------- the socket ----------

  /** What makes the client connect: being started, a selection, and a run that enters the tracked set. */
  predicate Connects(s: Sys, e: Event)
    requires Possible(s, e)
  {
    e.Started? || e.RunSelected? || !(Handle(s, e).t.tracked <= s.t.tracked)
  }

  /** The client has connected since the last disconnect; was is whether it had before these events. */
  predicate ConnectedSince(s: Sys, events: seq<Event>, was: bool)
    requires Feasible(s, events)
    decreases |events|
  {
    if events == [] then was
    else
      var e := events[0];
      ConnectedSince(Handle(s, e), events[1..], !e.Disconnected? && (was || Connects(s, e)))
  }

  /** No channel is open without a socket. */
  predicate Joined(s: Sys) {
    s.c.channels != {} ==> s.c.connected
  }

  lemma {:induction false} TrackEachConnects(s: Sys, ids: seq<string>)
    ensures var r := TrackEach(s, ids);
      && (r.c.connected <==> s.c.connected || !(r.t.tracked <= s.t.tracked)) && s.t.tracked <= r.t.tracked
      && r.t.tracked <= s.t.tracked + Elements(ids) && (Joined(s) ==> Joined(r))
    decreases |ids|
  {
    if ids != [] {
      var next := Track(s, ids[0]);
      TrackEachConnects(next, ids[1..]);
      assert Elements(ids) == {ids[0]} + Elements(ids[1..]);
      if ids[0] !in s.t.tracked {
        assert ids[0] in TrackEach(s, ids).t.tracked;
      }
    }
  }

  lemma ConnectionStep(s: Sys, e: Event)
    requires Possible(s, e) && Joined(s)
    ensures Handle(s, e).c.connected <==> !e.Disconnected? && (s.c.connected || Connects(s, e))
    ensures Joined(Handle(s, e))
  {
    if e.Summaries? && !s.t.disposed {
      var tombstones := Tombstones(s.t.terminal, e.summaries);
      var desired := Desired(e.summaries, tombstones);
      var stopped := Stop(s.(t := s.t.(terminal := tombstones)), s.t.tracked - Elements(desired));
      TrackEachConnects(stopped, desired);
    }
  }

  /** Over every run, the client has a socket exactly if it has connected since the last disconnect, and no channel
      is open without one. */
  lemma {:induction false} ConnectionFollows(s: Sys, events: seq<Event>)
    requires Feasible(s, events) && Joined(s)
    ensures Final(s, events).c.connected <==> ConnectedSince(s, events, s.c.connected)
    ensures Joined(Final(s, events))
    decreases |events|
  {
    if events != [] {
      ConnectionStep(s, events[0]);
      ConnectionFollows(Handle(s, events[0]), events[1..]);
    }
  }

  /** An invalidation of a tracked run outside the gap: a round is due if one is under way, else one begins. */
  lemma InvalidationExactly(s: Sys, runs: set<string>, id: string)
    requires id in runs * s.t.tracked && id !in SettlingRuns(s.t)
    ensures var r := Invalidate(s, runs);
      && r.t.tracked == s.t.tracked && r.c == s.c && IsFetching(r.t, id)
      && (id in s.t.inFlight ==> Due(r, id) && r.h.begun[id] == s.h.begun[id])
      && (id !in s.t.inFlight ==> r.h.begun[id] == s.h.begun[id] + 1)
  {
    var ids := runs * s.t.tracked;
    var busy := ids * s.t.inFlight.Keys;
    assert id in s.t.inFlight <==> id in busy;
  }

  /** A connection fetches every tracked run that is not in the gap, and marks it to be fetched once more: the
      store's reconnect and the client's own loop both invalidate it. */
  lemma ConnectionFetchesTwice(s: Sys, id: string)
    requires Inv(s) && id in s.t.tracked && id !in SettlingRuns(s.t)
    ensures var r := Open(s);
      Due(r, id) && r.h.begun[id] == s.h.begun[id] + (if id in s.t.inFlight then 0 else 1)
  {
    assert id in s.t.tracked * s.t.tracked;
    InvalidationExactly(s, s.t.tracked, id);
    var once := Invalidate(s, s.t.tracked);
    NotSettling(once, id);
    assert id in Interested(s.c) * once.t.tracked;
    InvalidationExactly(once, Interested(s.c), id);
  }

  lemma NotSettling(s: Sys, id: string)
    requires IsFetching(s.t, id)
    ensures id !in SettlingRuns(s.t) && id in s.t.inFlight
  {
  }
}
