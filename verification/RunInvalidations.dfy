/** The fate of every invalidation, and of every run that enters the tracked set, over all runs of the tracker. */
module RunInvalidations {
  import opened Wrappers
  import opened RunTracking
  import opened RunTrackingProperties

  // ---------- what a step does to a round that is due ----------

  /** The refresher will go round once more. */
  predicate Due(s: Sys, id: string) {
    IsFetching(s.t, id) && id in s.t.refreshNeeded
  }

  /** The getRun calls for the run that have begun, with one that is due. */
  predicate Answered(begun: nat, s: Sys, id: string) {
    begun < s.h.begun[id] || Due(s, id)
  }

  /** A round that is due stays due until it begins. */
  predicate Honoured(s: Sys, r: Sys, id: string) {
    && s.h.begun[id] <= r.h.begun[id]
    && (Due(s, id) ==> Answered(s.h.begun[id], r, id))
  }

  lemma BeginHonours(s: Sys, ids: set<string>, id: string)
    ensures Honoured(s, BeginFetches(s, ids), id)
    ensures id in ids ==> s.h.begun[id] < BeginFetches(s, ids).h.begun[id]
  {
  }

  lemma InvalidateHonours(s: Sys, runs: set<string>, id: string)
    ensures Honoured(s, Invalidate(s, runs), id)
    ensures id in (runs * s.t.tracked) - SettlingRuns(s.t) ==> Answered(s.h.begun[id], Invalidate(s, runs), id)
  {
    var ids := runs * s.t.tracked;
    var busy := ids * s.t.inFlight.Keys;
    var marked := Mark(s, busy);
    BeginHonours(marked, ids - busy, id);
    if id in ids && id !in SettlingRuns(s.t) {
      assert id in busy ==> Due(marked, id);
    }
  }

  lemma InvalidateSettles(s: Sys, runs: set<string>, id: string)
    requires id in SettlingRuns(s.t)
    ensures var r := Invalidate(s, runs);
      id in SettlingRuns(r.t) && r.h.begun[id] == s.h.begun[id] && r.t.tracked == s.t.tracked
  {
  }

  lemma OpenHonours(s: Sys, id: string)
    ensures Honoured(s, Open(s), id)
    ensures id in s.t.tracked - SettlingRuns(s.t) ==> Answered(s.h.begun[id], Open(s), id)
  {
    var reconnected := Invalidate(s, s.t.tracked);
    InvalidateHonours(s, s.t.tracked, id);
    InvalidateHonours(reconnected, Interested(s.c), id);
    assert s.t.tracked * s.t.tracked == s.t.tracked;
    assert Honoured(reconnected, InvalidatedTwice(s), id);
  }

  lemma {:induction false} TrackEachHonours(s: Sys, ids: seq<string>, id: string)
    ensures Honoured(s, TrackEach(s, ids), id)
    decreases |ids|
  {
    if ids != [] {
      BeginHonours(Enter(s, ids[0]), {ids[0]}, id);
      TrackEachHonours(Track(s, ids[0]), ids[1..], id);
    }
  }

  lemma UpdateHonours(s: Sys, summaries: seq<Summary>, id: string)
    requires Inv(s) && id in UpdateSummaries(s, summaries).t.tracked
    ensures Honoured(s, UpdateSummaries(s, summaries), id)
  {
    if !s.t.disposed {
      var tombstones := Tombstones(s.t.terminal, summaries);
      var desired := Desired(summaries, tombstones);
      var gone := s.t.tracked - Elements(desired);
      UpdateKeeps(s, summaries);
      assert id !in gone;
      TrackEachHonours(Stop(s.(t := s.t.(terminal := tombstones)), gone), desired, id);
    }
  }

  lemma GoOnHonours(s: Sys, run: string, id: string)
    requires id in s.t.tracked
    ensures Honoured(s, GoOn(s, run), id)
  {
    var over := s.(h := s.h.(outstanding := s.h.outstanding - multiset{run}));
    BeginHonours(over, {run}, id);
  }

  lemma ResumeHonours(s: Sys, run: string, result: Option<Projection>, id: string)
    requires id in Resume(s, run, result).t.tracked
    ensures Honoured(s, Resume(s, run, result), id)
  {
    var received := Receive(s, run, result);
    assert id in received.t.tracked;
    assert Honoured(s, received, id);
    GoOnHonours(received, run, id);
  }

  lemma SeedHonours(s: Sys, p: Projection, id: string)
    requires id in Seed(s, p).t.tracked
    ensures Honoured(s, Seed(s, p), id)
  {
  }

  lemma OthersHonour(s: Sys, e: Event, id: string)
    requires Possible(s, e) && (e.Started? || e.SocketLost? || e.RunSelected? || e.Settled? || e.Disconnected?)
    ensures Honoured(s, Handle(s, e), id)
  {
  }

  lemma StepHonours(s: Sys, e: Event, id: string)
    requires Inv(s) && Possible(s, e) && id in Handle(s, e).t.tracked
    ensures Honoured(s, Handle(s, e), id)
  {
    match e
    case Summaries(summaries) => UpdateHonours(s, summaries, id);
    case RunInvalidated(run) => InvalidateHonours(s, {run}, id);
    case SocketOpened => OpenHonours(s, id);
    case Resumed(run, result) => ResumeHonours(s, run, result, id);
    case Seeded(p) => SeedHonours(s, p, id);
    case Disposed =>
    case _ => OthersHonour(s, e, id);
  }

  // ---------- which invalidations are answered ----------

  /** An event that invalidates a tracked run: a change on its channel, or a new connection. */
  predicate Invalidates(s: Sys, e: Event, id: string) {
    id in s.t.tracked && (e == RunInvalidated(id) || e.SocketOpened?)
  }

  predicate StaysTracked(s: Sys, events: seq<Event>, id: string)
    requires Feasible(s, events)
    decreases |events|
  {
    id in s.t.tracked && (events == [] || StaysTracked(Handle(s, events[0]), events[1..], id))
  }

  lemma {:induction false} RunHonours(begun: nat, s: Sys, events: seq<Event>, id: string)
    requires Inv(s) && Feasible(s, events) && StaysTracked(s, events, id)
    requires Answered(begun, s, id) && begun <= s.h.begun[id]
    ensures Answered(begun, Final(s, events), id)
    decreases |events|
  {
    if events != [] {
      StepAnswers(begun, s, events[0], id);
      RunHonours(begun, Handle(s, events[0]), events[1..], id);
    }
  }

  lemma StepAnswers(begun: nat, s: Sys, e: Event, id: string)
    requires Inv(s) && Possible(s, e) && id in Handle(s, e).t.tracked && Answered(begun, s, id)
             && begun <= s.h.begun[id]
    ensures Inv(Handle(s, e)) && Answered(begun, Handle(s, e), id) && begun <= Handle(s, e).h.begun[id]
  {
    var r := Handle(s, e);
    StepKeeps(s, e);
    StepHonours(s, e, id);
    Carried(begun, s, r, id);
  }

  lemma Carried(begun: nat, s: Sys, r: Sys, id: string)
    requires Honoured(s, r, id) && Answered(begun, s, id) && begun <= s.h.begun[id]
    ensures Answered(begun, r, id) && begun <= r.h.begun[id]
  {
  }

  /** In whatever way the run goes on while it stays tracked, a getRun for it has begun since, or its
      refresher is about to go round once more. */
  ghost predicate AlwaysAnswered(s: Sys, e: Event, id: string)
    requires Possible(s, e)
  {
    forall later | Feasible(Handle(s, e), later) && StaysTracked(Handle(s, e), later, id) ::
      Answered(s.h.begun[id], Final(Handle(s, e), later), id)
  }

  /** An invalidation is answered in every continuation exactly when the run's refresher, at the call, is
      not between the exit of its loop and its `finally`; what other runs do is of no account. */
  lemma AnsweredExactly(s: Sys, e: Event, id: string)
    requires Inv(s) && Possible(s, e) && Invalidates(s, e, id)
    ensures AlwaysAnswered(s, e, id) <==> id !in SettlingRuns(s.t)
  {
    if id in SettlingRuns(s.t) {
      NotAlwaysAnswered(s, e, id);
    } else {
      AnsweredAtOnce(s, e, id);
      var next := Handle(s, e);
      forall later | Feasible(next, later) && StaysTracked(next, later, id)
        ensures Answered(s.h.begun[id], Final(next, later), id)
      {
        RunHonours(s.h.begun[id], next, later, id);
      }
    }
  }

  lemma AnsweredAtOnce(s: Sys, e: Event, id: string)
    requires Inv(s) && Possible(s, e) && Invalidates(s, e, id) && id !in SettlingRuns(s.t)
    ensures Inv(Handle(s, e)) && Answered(s.h.begun[id], Handle(s, e), id) && s.h.begun[id] <= Handle(s, e).h.begun[id]
  {
    StepKeeps(s, e);
    if e.SocketOpened? {
      OpenHonours(s, id);
    } else {
      InvalidateHonours(s, {id}, id);
    }
  }

  lemma NotAlwaysAnswered(s: Sys, e: Event, id: string)
    requires Possible(s, e) && Invalidates(s, e, id) && id in SettlingRuns(s.t)
    ensures !AlwaysAnswered(s, e, id)
  {
    LostInTheGap(s, e, id);
    var events, later := [e, Settled(id)], [Settled(id)];
    assert events[1..] == later;
    assert Final(Handle(s, e), later) == Final(s, events);
    OneSettles(Handle(s, e), id);
    assert !Answered(s.h.begun[id], Final(s, events), id);
  }

  lemma OneSettles(s: Sys, id: string)
    requires id in s.t.tracked * SettlingRuns(s.t)
    ensures Feasible(s, [Settled(id)]) && StaysTracked(s, [Settled(id)], id)
  {
    assert [Settled(id)][1..] == [];
  }

  /** An invalidation in that gap is lost: once the `finally` has run, the run is tracked and idle, and
      nothing was fetched. */
  lemma LostInTheGap(s: Sys, e: Event, id: string)
    requires Possible(s, e) && Invalidates(s, e, id) && id in SettlingRuns(s.t)
    ensures Feasible(s, [e, Settled(id)]) && id in Handle(s, e).t.tracked * SettlingRuns(Handle(s, e).t)
    ensures var r := Final(s, [e, Settled(id)]);
      id in r.t.tracked && id !in r.t.inFlight && r.h.begun[id] == s.h.begun[id]
  {
    if e.SocketOpened? {
      InvalidateSettles(s, s.t.tracked, id);
      InvalidateSettles(Invalidate(s, s.t.tracked), Interested(s.c), id);
    } else {
      InvalidateSettles(s, {id}, id);
    }
    TwoEvents(s, e, Settled(id));
  }

  /** A run's first fetch leaves it in that gap. */
  lemma GapIsReached(id: string, revision: nat)
    ensures var events := [Summaries([Summary(id, "running")]), Resumed(id, Some(Projection(id, "running", revision)))];
      Feasible(INITIAL, events) && id in Final(INITIAL, events).t.tracked * SettlingRuns(Final(INITIAL, events).t)
  {
    var listed := [Summary(id, "running")];
    var s := Handle(INITIAL, Summaries(listed));
    assert Tombstones({}, listed) == {};
    assert Desired(listed[1..], {}) == [];
    assert Desired(listed, {}) == [id];
    var idle := Stop(INITIAL, {});
    assert [id][1..] == [];
    assert TrackEach(idle, [id]) == Track(idle, id);
    assert Elements([id]) == {id};
    assert {} - Elements([id]) == {};
    assert INITIAL.(t := INITIAL.t.(terminal := {})) == INITIAL;
    assert s == TrackEach(Stop(INITIAL, {} - Elements([id])), [id]);
    assert s == Track(idle, id);
    assert IsFetching(s.t, id) && id in s.t.tracked && id !in s.t.refreshNeeded;
    TwoEvents(INITIAL, Summaries(listed), Resumed(id, Some(Projection(id, "running", revision))));
  }

  // ---------- when every `finally` runs at once ----------

  /** Every `finally` runs before anything else does. */
  predicate SettlesAtOnce(s: Sys, events: seq<Event>)
    requires Feasible(s, events)
    decreases |events|
  {
    events == [] || ((SettlingRuns(s.t) != {} ==> events[0].Settled?)
                     && SettlesAtOnce(Handle(s, events[0]), events[1..]))
  }

  lemma {:induction false} RunSplits(s: Sys, first: seq<Event>, rest: seq<Event>)
    requires Feasible(s, first + rest)
    ensures Feasible(s, first) && Feasible(Final(s, first), rest)
    ensures Final(s, first + rest) == Final(Final(s, first), rest)
    ensures SettlesAtOnce(s, first + rest) ==> SettlesAtOnce(Final(s, first), rest)
    decreases |first|
  {
    if first == [] {
      assert first + rest == rest;
    } else {
      assert (first + rest)[1..] == first[1..] + rest;
      RunSplits(Handle(s, first[0]), first[1..], rest);
    }
  }

  /** When the run is idle, a getRun for it has begun; until then, if none has, one is due. */
  predicate AnsweredByIdle(begun: nat, s: Sys, id: string) {
    Answered(begun, s, id) && (id !in s.t.inFlight ==> begun < s.h.begun[id])
  }

  /** If loop exit and `finally` are one step, every invalidation in every run from the start is answered:
      whenever the run has stayed tracked since and is idle, a getRun for it has begun since. */
  lemma EveryInvalidationIsAnswered(before: seq<Event>, e: Event, later: seq<Event>, id: string)
    requires Feasible(INITIAL, before + ([e] + later)) && SettlesAtOnce(INITIAL, before + ([e] + later))
    requires Feasible(INITIAL, before) && Possible(Final(INITIAL, before), e)
    requires Feasible(Handle(Final(INITIAL, before), e), later)
    requires Invalidates(Final(INITIAL, before), e, id)
    requires StaysTracked(Handle(Final(INITIAL, before), e), later, id)
    ensures AnsweredByIdle(Final(INITIAL, before).h.begun[id], Final(INITIAL, before + ([e] + later)), id)
  {
    RunSplits(INITIAL, before, [e] + later);
    Reachable(INITIAL, before);
    AnsweredFrom(Final(INITIAL, before), e, later, id);
  }

  lemma AnsweredFrom(s: Sys, e: Event, later: seq<Event>, id: string)
    requires Inv(s) && Possible(s, e) && Invalidates(s, e, id)
    requires Feasible(s, [e] + later) && SettlesAtOnce(s, [e] + later)
    requires Feasible(Handle(s, e), later) && StaysTracked(Handle(s, e), later, id)
    ensures AnsweredByIdle(s.h.begun[id], Final(s, [e] + later), id)
  {
    var events, next := [e] + later, Handle(s, e);
    assert events[0] == e && events[1..] == later;
    assert SettlingRuns(s.t) == {};
    AnsweredAtOnce(s, e, id);
    RunHonours(s.h.begun[id], next, later, id);
    assert Final(s, events) == Final(next, later);
  }

  // ---------- runs that enter the tracked set ----------

  /** What has become of a run's refresher after others, or it, were tracked. */
  lemma {:induction false} TrackEachFetches(s: Sys, ids: seq<string>, id: string)
    ensures var r := TrackEach(s, ids);
      if id in ids && id !in s.t.tracked && id !in s.t.inFlight
      then IsFetching(r.t, id) && r.h.begun[id] == s.h.begun[id] + 1
      else (id in r.t.inFlight <==> id in s.t.inFlight) && (id in s.t.inFlight ==> r.t.inFlight[id] == s.t.inFlight[id])
           && r.h.begun[id] == s.h.begun[id]
    decreases |ids|
  {
    if ids != [] {
      var x, rest := ids[0], ids[1..];
      assert id in ids <==> id == x || id in rest;
      TrackFacts(s, x);
      TrackEachFetches(Track(s, x), rest, id);
    }
  }

  /** A run that enters the tracked set has a getRun outstanding exactly when its old refresher, if any,
      is not between loop exit and `finally`; a new one begins exactly when there is no refresher. */
  lemma NewRunsAreFetchedExactly(s: Sys, summaries: seq<Summary>, id: string)
    requires Inv(s) && id !in s.t.tracked && id in UpdateSummaries(s, summaries).t.tracked
    ensures var r := UpdateSummaries(s, summaries);
      && (r.h.outstanding[id] == 1 <==> id !in SettlingRuns(s.t))
      && r.h.begun[id] == s.h.begun[id] + (if id in s.t.inFlight then 0 else 1)
      && (id in s.t.inFlight ==> id in r.t.inFlight && r.t.inFlight[id] == s.t.inFlight[id])
  {
    var tombstones := Tombstones(s.t.terminal, summaries);
    var desired := Desired(summaries, tombstones);
    var stopped := Stop(s.(t := s.t.(terminal := tombstones)), s.t.tracked - Elements(desired));
    UpdateKeeps(s, summaries);
    assert id in desired;
    TrackEachFetches(stopped, desired, id);
  }

  /** A run that enters the tracked set in the gap ends up tracked and idle, and nothing was fetched for it. */
  lemma TrackedInTheGap(s: Sys, summaries: seq<Summary>, id: string)
    requires Inv(s) && id !in s.t.tracked && id in SettlingRuns(s.t) && id in UpdateSummaries(s, summaries).t.tracked
    ensures Feasible(s, [Summaries(summaries), Settled(id)])
    ensures Unfetched(s, Final(s, [Summaries(summaries), Settled(id)]), id)
  {
    UpdateKeeps(s, summaries);
    NewRunsAreFetchedExactly(s, summaries, id);
    NewRunsAreUncached(s, summaries, id);
    TwoEvents(s, Summaries(summaries), Settled(id));
  }

  /** The run is tracked and idle, no getRun for it has begun since s, and none of its data is cached. */
  predicate Unfetched(s: Sys, r: Sys, id: string) {
    id in r.t.tracked && id !in r.t.inFlight && id !in r.t.projections && r.h.begun[id] == s.h.begun[id]
  }

  lemma {:induction false} TrackEachCaches(s: Sys, ids: seq<string>)
    ensures TrackEach(s, ids).t.projections == s.t.projections
    decreases |ids|
  {
    if ids != [] {
      TrackEachCaches(Track(s, ids[0]), ids[1..]);
    }
  }

  lemma NewRunsAreUncached(s: Sys, summaries: seq<Summary>, id: string)
    requires Inv(s) && id !in s.t.tracked
    ensures id !in UpdateSummaries(s, summaries).t.projections
  {
    if !s.t.disposed {
      var tombstones := Tombstones(s.t.terminal, summaries);
      var desired := Desired(summaries, tombstones);
      TrackEachCaches(Stop(s.(t := s.t.(terminal := tombstones)), s.t.tracked - Elements(desired)), desired);
    }
  }

  /** It happens: the run is untracked while its getRun is outstanding, the getRun ends, and one product update
      tracks the run again before the `finally`. */
  lemma RetrackedInTheGap(s: Sys, id: string, result: Option<Projection>)
    requires Inv(s) && id in s.t.tracked && IsFetching(s.t, id) && (result.Some? ==> result.value.id == id)
    ensures var events := [Summaries([]), Resumed(id, result)] + [Summaries([Summary(id, "running")]), Settled(id)];
      Feasible(s, events) && Unfetched(s, Final(s, events), id)
  {
    var first, last := [Summaries([]), Resumed(id, result)], [Summaries([Summary(id, "running")]), Settled(id)];
    var dropped := UpdateSummaries(s, []);
    Emptied(s, id);
    TwoEvents(s, Summaries([]), Resumed(id, result));
    var late := Resume(dropped, id, result);
    DroppedResult(dropped, id, result);
    ResumeKeeps(dropped, id, result);
    ListedIsTracked(late, id);
    TrackedInTheGap(late, [Summary(id, "running")], id);
    RunJoins(s, first, last);
  }

  lemma DroppedResult(s: Sys, id: string, result: Option<Projection>)
    requires s.t.tracked == {} && IsFetching(s.t, id)
    ensures var r := Resume(s, id, result);
      && r.t.tracked == {} && r.t.terminal == s.t.terminal && r.t.disposed == s.t.disposed
      && id in SettlingRuns(r.t) && r.h.begun == s.h.begun
  {
  }

  lemma ListedIsTracked(s: Sys, id: string)
    requires Inv(s) && !s.t.disposed && id !in s.t.terminal
    ensures id in UpdateSummaries(s, [Summary(id, "running")]).t.tracked
  {
    var listed := [Summary(id, "running")];
    TrackedExactly(s, listed, id);
    assert listed[0] in listed;
  }

  lemma {:induction false} RunJoins(s: Sys, first: seq<Event>, rest: seq<Event>)
    requires Feasible(s, first) && Feasible(Final(s, first), rest)
    ensures Feasible(s, first + rest) && Final(s, first + rest) == Final(Final(s, first), rest)
    decreases |first|
  {
    if first == [] {
      assert first + rest == rest;
    } else {
      assert (first + rest)[1..] == first[1..] + rest;
      RunJoins(Handle(s, first[0]), first[1..], rest);
    }
  }

  /** A product update that lists nothing. */
  lemma Emptied(s: Sys, id: string)
    requires Inv(s) && id in s.t.tracked && IsFetching(s.t, id)
    ensures var r := UpdateSummaries(s, []);
      && Inv(r) && r.t.tracked == {} && r.t.terminal == {} && !r.t.disposed
      && IsFetching(r.t, id) && r.h.begun == s.h.begun
  {
    UpdateKeeps(s, []);
    assert Tombstones(s.t.terminal, []) == {};
  }
}
