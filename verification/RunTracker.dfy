/** The two classes themselves: each synchronous segment is a method whose effect is the transition of the
    same name in RunTracking. */
module RunTracker {
  import opened Wrappers
  import opened RunTracking
  import opened RunTrackingProperties

  class RealtimeClient {
    var socket: bool
    var runChannels: set<string>
    var watchedRunIds: set<string>
    var productChannel: bool
    var selectedRunId: Option<string>

    function State(): Client
      reads this
    {
      Client(socket, runChannels, watchedRunIds, selectedRunId, productChannel)
    }

    constructor ()
      ensures State() == INITIAL.c
    {
      socket, runChannels, watchedRunIds, productChannel, selectedRunId := false, {}, {}, false, None;
    }

    method Connect()
      modifies this
      ensures State() == old(State()).(connected := true)
    {
      if !socket {
        socket := true;
      }
    }

    method Join(id: string)
      modifies this
      ensures State() == old(State()).(channels := if old(socket) then old(runChannels) + {id} else old(runChannels))
    {
      if socket && id !in runChannels {
        runChannels := runChannels + {id};
      }
    }

    method LeaveRun(id: string)
      modifies this
      ensures State() == old(State()).(channels := old(runChannels) - {id})
    {
      runChannels := runChannels - {id};
    }

    method SelectRun(id: string)
      modifies this
      ensures State() == Select(old(State()), id)
    {
      if selectedRunId == Some(id) && id in runChannels {
        return;
      }
      var previous := selectedRunId;
      selectedRunId := Some(id);
      if previous.Some? && previous.value != "" && previous.value !in watchedRunIds {
        LeaveRun(previous.value);
      }
      Connect();
      Join(id);
    }

    method WatchRun(id: string)
      modifies this
      ensures State() == Watch(old(State()), id)
    {
      watchedRunIds := watchedRunIds + {id};
      Connect();
      Join(id);
    }

    /** What the handle returned by WatchRun does. */
    method Release(id: string)
      modifies this
      ensures State() == Unwatch(old(State()), {id})
    {
      watchedRunIds := watchedRunIds - {id};
      if selectedRunId != Some(id) {
        LeaveRun(id);
      }
    }

    method Disconnect()
      modifies this
      ensures State() == RunTracking.Disconnect(old(State()))
    {
      runChannels, productChannel, selectedRunId, socket := {}, false, None, false;
    }

    method JoinProduct()
      modifies this
      ensures State() == old(State()).(product := old(productChannel) || old(socket))
    {
      if socket && !productChannel {
        productChannel := true;
      }
    }
  }

  // ---------- several runs at a time ----------

  lemma StopOneMore(s: Sys, done: set<string>, id: string)
    requires HandleInv(s.t.unwatch, s.h.uses)
    ensures Stop(Stop(s, done), {id}) == Stop(s, done + {id})
  {
    var before, first := done * s.t.unwatch.Keys, {id} * (s.t.unwatch - done).Keys;
    var both := (done + {id}) * s.t.unwatch.Keys;
    assert before + first == both && before !! first;
    UsedOneMore(s.h.uses, s.t.unwatch, before, first);
    assert s.t.unwatch - before == s.t.unwatch - done;
    assert s.t.unwatch - done - {id} == s.t.unwatch - (done + {id});
    assert s.t.projections - done - {id} == s.t.projections - (done + {id});
    assert Unwatch(Unwatch(s.c, before), first) == Unwatch(s.c, both);
  }

  lemma UsedOneMore(uses: seq<nat>, unwatch: map<string, nat>, done: set<string>, more: set<string>)
    requires HandleInv(unwatch, uses) && done + more <= unwatch.Keys && done !! more
    ensures Used(Used(uses, unwatch, done), unwatch - done, more) == Used(uses, unwatch, done + more)
  {
    var now, all := Used(Used(uses, unwatch, done), unwatch - done, more), Used(uses, unwatch, done + more);
    forall n | 0 <= n < |uses| ensures now[n] == all[n] {
      if id :| id in done + more && id in unwatch && unwatch[id] == n {
        assert id in more ==> id in unwatch - done && (unwatch - done)[id] == n;
        assert forall other | other in unwatch && unwatch[other] == n :: other == id;
      }
    }
  }

  lemma Merge(x: set<string>, b: set<string>, i: set<string>, c: set<string>, j: set<string>)
    requires c !! i
    ensures x + b - i + c - j == x + (b + c) - (i + j)
  {
  }

  lemma MergeMaps(m: map<string, Phase>, i: set<string>, j: set<string>)
    ensures m + AllFetching(i) + AllFetching(j) == m + AllFetching(i + j)
  {
  }

  function Refetch(s: Sys, busy: set<string>, idle: set<string>): Sys {
    BeginFetches(Mark(s, busy), idle)
  }

  lemma RefetchOneMore(s: Sys, b: set<string>, i: set<string>, c: set<string>, j: set<string>)
    requires c !! i && i !! j
    ensures Refetch(Refetch(s, b, i), c, j) == Refetch(s, b + c, i + j)
  {
    Merge(s.t.refreshNeeded, b, i, c, j);
    MergeMaps(s.t.inFlight, i, j);
    assert multiset(i) + multiset(j) == multiset(i + j);
  }

  lemma InvalidateOneMore(s: Sys, done: set<string>, id: string)
    requires id !in done
    ensures Invalidate(Invalidate(s, done), {id}) == Invalidate(s, done + {id})
  {
    var ids, next, flight := done * s.t.tracked, {id} * s.t.tracked, s.t.inFlight.Keys;
    var first := Invalidate(s, done);
    assert (done + {id}) * s.t.tracked == ids + next;
    assert first.t.tracked == s.t.tracked && first.t.inFlight.Keys == flight + (ids - ids * flight);
    assert next * first.t.inFlight.Keys == next * flight;
    assert (ids + next) * flight == ids * flight + next * flight;
    assert (ids + next) - (ids + next) * flight == (ids - ids * flight) + (next - next * flight);
    RefetchOneMore(s, ids * flight, ids - ids * flight, next * flight, next - next * flight);
  }

  lemma NothingToDo(s: Sys)
    ensures BeginFetches(s, {}) == s && Mark(s, {}) == s
  {
    assert s.t.inFlight + AllFetching({}) == s.t.inFlight;
  }

  /** Invalidating one run, by cases. */
  lemma InvalidateOne(s: Sys, id: string)
    ensures Invalidate(s, {id}) ==
            if id !in s.t.tracked then s else if id in s.t.inFlight then Mark(s, {id}) else BeginFetches(s, {id})
  {
    var ids := {id} * s.t.tracked;
    var busy := ids * s.t.inFlight.Keys;
    var idle := ids - busy;
    assert Invalidate(s, {id}) == Refetch(s, busy, idle);
    if id !in s.t.tracked {
      assert busy == {} && idle == {};
      NothingToDo(s);
    } else if id in s.t.inFlight {
      assert busy == {id} && idle == {};
      NothingToDo(Mark(s, {id}));
    } else {
      assert busy == {} && idle == {id};
      NothingToDo(s);
    }
  }

  /** Stopping one run: its handle, if it has one, is used once more. */
  lemma StopOne(s: Sys, id: string)
    requires HandleInv(s.t.unwatch, s.h.uses)
    ensures HandleInv(s.t.unwatch - {id}, Stop(s, {id}).h.uses)
    ensures id in s.t.unwatch ==>
              && Stop(s, {id}).h.uses == s.h.uses[s.t.unwatch[id] := s.h.uses[s.t.unwatch[id]] + 1]
              && Stop(s, {id}).c == Unwatch(s.c, {id})
    ensures id !in s.t.unwatch ==> Stop(s, {id}).h.uses == s.h.uses && Stop(s, {id}).c == s.c
  {
    var released := {id} * s.t.unwatch.Keys;
    if id in s.t.unwatch {
      assert released == {id};
    } else {
      assert released == {};
    }
    UsedByOne(s.h.uses, s.t.unwatch, id);
  }

  lemma UsedByOne(uses: seq<nat>, unwatch: map<string, nat>, id: string)
    requires HandleInv(unwatch, uses)
    ensures var now := Used(uses, unwatch, {id} * unwatch.Keys);
      && HandleInv(unwatch - {id}, now)
      && now == if id in unwatch then uses[unwatch[id] := uses[unwatch[id]] + 1] else uses
  {
    var released := {id} * unwatch.Keys;
    UsedExactly(uses, unwatch, released);
    assert unwatch - released == unwatch - {id};
    if id in unwatch {
      assert released == {id};
    } else {
      assert released == {};
    }
  }

  lemma StopNone(s: Sys)
    ensures Stop(s, {}) == s
  {
    assert {} * s.t.unwatch.Keys == {};
    UsedNone(s.h.uses, s.t.unwatch);
  }

  lemma UsedNone(uses: seq<nat>, unwatch: map<string, nat>)
    ensures Used(uses, unwatch, {}) == uses
  {
  }

  lemma InvalidateNone(s: Sys)
    ensures Invalidate(s, {}) == s
  {
    assert {} * s.t.tracked == {};
    NothingToDo(s);
  }

  /** The states that invalidating sets of runs leads to. */
  function Invalidations(s: Sys): set<string> -> Sys {
    (runs: set<string>) => Invalidate(s, runs)
  }

  predicate FollowsOn(after: set<string> -> Sys, done: set<string>, id: string) {
    id !in done ==> Invalidate(after(done), {id}) == after(done + {id})
  }

  /** They can be reached run by run, in any order. */
  ghost predicate OneByOne(after: set<string> -> Sys) {
    forall done: set<string>, id: string :: FollowsOn(after, done, id)
  }

  lemma InvalidationsFollow(s: Sys)
    ensures OneByOne(Invalidations(s))
  {
    forall done: set<string>, id: string ensures FollowsOn(Invalidations(s), done, id) {
      if id !in done {
        InvalidateOneMore(s, done, id);
      }
    }
  }

  // ---------- the tracker ----------

  class ActiveRunTracker {
    const client: RealtimeClient
    var tracked: set<string>
    var terminal: set<string>
    var projections: map<string, Projection>
    var unwatch: map<string, nat>
    var inFlight: map<string, Phase>
    var refreshNeeded: set<string>
    var disposed: bool
    var handles: nat
    ghost var h: History

    ghost function Snapshot(): Sys
      reads this, client
    {
      Sys(client.State(), Tracker(tracked, terminal, projections, unwatch, inFlight, refreshNeeded, disposed), h)
    }

    ghost predicate Valid()
      reads this
    {
      HandleInv(unwatch, h.uses) && tracked == unwatch.Keys && handles == |h.uses|
    }

    constructor (client: RealtimeClient)
      ensures Valid() && this.client == client && Snapshot() == INITIAL.(c := client.State())
    {
      this.client := client;
      tracked, terminal, projections, unwatch, inFlight, refreshNeeded := {}, {}, map[], map[], map[], {};
      disposed, handles := false, 0;
      h := INITIAL.h;
    }

    method StopTracking(id: string)
      requires Valid()
      modifies this, client
      ensures Valid() && Snapshot() == Stop(old(Snapshot()), {id})
    {
      StopOne(Snapshot(), id);
      h := Stop(Snapshot(), {id}).h;
      tracked := tracked - {id};
      refreshNeeded := refreshNeeded - {id};
      projections := projections - {id};
      if id in unwatch {
        client.Release(id);
      }
      unwatch := unwatch - {id};
    }

    /** Up to the first await; the call of getRun is the only effect that is not a field. */
    method Refresh(id: string)
      requires Valid()
      modifies this
      ensures Valid() && Snapshot() == if id in old(inFlight) then old(Snapshot())
                                       else BeginFetches(old(Snapshot()), {id})
    {
      if id in inFlight {
        return;
      }
      refreshNeeded := refreshNeeded - {id};
      inFlight := inFlight[id := Fetching];
      h := BeginFetches(old(Snapshot()), {id}).h;
      assert inFlight == old(inFlight) + AllFetching({id});
    }

    method Invalidate(id: string)
      requires Valid()
      modifies this
      ensures Valid() && Snapshot() == RunTracking.Invalidate(old(Snapshot()), {id})
    {
      InvalidateOne(Snapshot(), id);
      if id !in tracked {
        return;
      }
      if id in inFlight {
        refreshNeeded := refreshNeeded + {id};
        assert Snapshot() == Mark(old(Snapshot()), {id});
        return;
      }
      Refresh(id);
    }

    method Track(id: string)
      requires Valid()
      modifies this, client
      ensures Valid() && Snapshot() == RunTracking.Track(old(Snapshot()), id)
    {
      if id in tracked {
        return;
      }
      EnterHandles(unwatch, h.uses, id);
      tracked := tracked + {id};
      client.WatchRun(id);
      unwatch := unwatch[id := handles];
      handles := handles + 1;
      h := h.(uses := h.uses + [0]);
      assert Snapshot() == Enter(old(Snapshot()), id);
      Refresh(id);
    }

    method UpdateSummaries(summaries: seq<Summary>)
      requires Valid()
      modifies this, client
      ensures Valid() && Snapshot() == RunTracking.UpdateSummaries(old(Snapshot()), summaries)
    {
      if disposed {
        return;
      }
      DropTombstones(summaries);
      var desired := Desired(summaries, terminal);
      StopAll(tracked - Elements(desired));
      ghost var stopped := Snapshot();
      for i := 0 to |desired|
        invariant Valid()
        invariant TrackEach(Snapshot(), desired[i..]) == TrackEach(stopped, desired)
      {
        assert desired[i..][0] == desired[i] && desired[i..][1..] == desired[i + 1..];
        Track(desired[i]);
      }
    }

    method DropTombstones(summaries: seq<Summary>)
      requires Valid()
      modifies this
      ensures Valid()
      ensures var s := old(Snapshot());
              Snapshot() == s.(t := s.t.(terminal := Tombstones(s.t.terminal, summaries)))
    {
      var known := Ids(summaries);
      var rest := terminal;
      while rest != {}
        invariant Valid() && rest <= old(terminal)
        invariant Snapshot() == old(Snapshot()).(t := old(Snapshot()).t.(terminal := terminal))
        invariant terminal == rest + Tombstones(old(terminal) - rest, summaries)
      {
        var id :| id in rest;
        if id !in known || exists x | x in summaries :: x.id == id && !Trackable(x.status) {
          terminal := terminal - {id};
        }
        rest := rest - {id};
      }
    }

    method StopAll(ids: set<string>)
      requires Valid()
      modifies this, client
      ensures Valid() && Snapshot() == Stop(old(Snapshot()), ids)
    {
      var rest := ids;
      StopNone(Snapshot());
      while rest != {}
        invariant Valid() && rest <= ids
        invariant Snapshot() == Stop(old(Snapshot()), ids - rest)
      {
        var id :| id in rest;
        StopOneMore(old(Snapshot()), ids - rest, id);
        StopTracking(id);
        assert ids - (rest - {id}) == ids - rest + {id};
        rest := rest - {id};
      }
      assert ids - {} == ids;
    }

    method Accept(p: Projection)
      requires Valid()
      modifies this, client
      ensures Valid() && Snapshot() == RunTracking.Accept(old(Snapshot()), p)
    {
      if !Trackable(p.status) {
        terminal := terminal + {p.id};
        StopTracking(p.id);
        return;
      }
      projections := projections[p.id := p];
    }

    method Seed(p: Projection)
      requires Valid()
      modifies this, client
      ensures Valid() && Snapshot() == RunTracking.Seed(old(Snapshot()), p)
    {
      if disposed || p.id !in tracked {
        return;
      }
      Accept(p);
    }

    method Suspend()
      requires Valid()
      modifies this
      ensures Valid() && Snapshot() == Handle(old(Snapshot()), SocketLost)
    {
      projections := map[];
    }

    method InvalidateNext(ghost after: set<string> -> Sys, ghost done: set<string>, id: string)
      requires Valid() && id !in done && OneByOne(after) && Snapshot() == after(done)
      modifies this
      ensures Valid() && Snapshot() == after(done + {id})
    {
      assert FollowsOn(after, done, id);
      Invalidate(id);
    }

    method InvalidateEach(runs: set<string>, ghost after: set<string> -> Sys)
      requires Valid() && OneByOne(after) && Snapshot() == after({})
      modifies this
      ensures Valid() && Snapshot() == after(runs)
    {
      var rest := runs;
      ghost var done := {};
      while rest != {}
        invariant Valid() && done !! rest && done + rest == runs
        invariant Snapshot() == after(done)
      {
        var id :| id in rest;
        InvalidateNext(after, done, id);
        rest, done := rest - {id}, done + {id};
      }
      assert done == runs;
    }

    /** The loop of Reconnect, and that of the client's open callback over the runs of interest. */
    method InvalidateAll(runs: set<string>)
      requires Valid()
      modifies this
      ensures Valid() && Snapshot() == RunTracking.Invalidate(old(Snapshot()), runs)
    {
      ghost var s := Snapshot();
      InvalidateNone(s);
      InvalidationsFollow(s);
      InvalidateEach(runs, Invalidations(s));
    }

    method Reconnect()
      requires Valid()
      modifies this
      ensures Valid() && Snapshot() == RunTracking.Invalidate(old(Snapshot()), old(tracked))
    {
      InvalidateAll(tracked);
    }

    /** On open the store reconnects the tracker, then every run of interest is invalidated. */
    method OnOpen()
      requires Valid() && client.socket
      modifies this, client
      ensures Valid() && Snapshot() == Open(old(Snapshot()))
    {
      InvalidateTwice();
      ghost var again := Snapshot();
      client.JoinProduct();
      assert Snapshot() == again.(c := again.c.(product := true));
    }

    method InvalidateTwice()
      requires Valid()
      modifies this
      ensures Valid() && Snapshot() == InvalidatedTwice(old(Snapshot()))
    {
      Reconnect();
      InvalidateAll(Interested(client.State()));
    }

    /** The segment of the refresher after its await. */
    method Resume(id: string, result: Option<Projection>)
      requires Valid() && Possible(Snapshot(), Resumed(id, result))
      modifies this, client
      ensures Valid() && Snapshot() == Handle(old(Snapshot()), Resumed(id, result))
    {
      TakeIn(id, result);
      GoOn(id);
    }

    method TakeIn(id: string, result: Option<Projection>)
      requires Valid()
      modifies this, client
      ensures Valid() && Snapshot() == Receive(old(Snapshot()), id, result) && inFlight == old(inFlight)
    {
      if id in tracked {
        if result.Some? {
          Accept(result.value);
        } else {
          projections := projections - {id};
        }
      }
    }

    method GoOn(id: string)
      requires Valid() && IsFetching(Snapshot().t, id)
      modifies this
      ensures Valid() && Snapshot() == RunTracking.GoOn(old(Snapshot()), id)
    {
      h := RunTracking.GoOn(Snapshot(), id).h;
      if id in tracked && id in refreshNeeded {
        assert inFlight == inFlight + AllFetching({id});
        refreshNeeded := refreshNeeded - {id};
      } else {
        inFlight := inFlight[id := Settling];
      }
    }

    method Settle(id: string)
      requires Valid() && Possible(Snapshot(), Settled(id))
      modifies this
      ensures Valid() && Snapshot() == Handle(old(Snapshot()), Settled(id))
    {
      inFlight := inFlight - {id};
    }

    method Dispose()
      requires Valid()
      modifies this, client
      ensures Valid() && Snapshot() == Handle(old(Snapshot()), Disposed)
    {
      disposed := true;
      ReleaseAll();
      UsedExactly(old(h).uses, unwatch, unwatch.Keys);
      assert unwatch - unwatch.Keys == map[];
      unwatch, tracked, projections, refreshNeeded := map[], {}, map[], {};
    }

    /** Dispose's loop over the release handles. */
    method ReleaseAll()
      requires Valid()
      modifies client, this`h
      ensures client.State() == Unwatch(old(client.State()), unwatch.Keys)
      ensures h == old(h).(uses := Used(old(h).uses, unwatch, unwatch.Keys))
    {
      var rest := unwatch.Keys;
      ghost var c, uses, done := client.State(), h.uses, {};
      UsedNone(uses, unwatch);
      while rest != {}
        invariant done !! rest && done + rest == unwatch.Keys
        invariant client.State() == Unwatch(c, done)
        invariant h == old(h).(uses := Used(uses, unwatch, done))
      {
        var id :| id in rest;
        UsedOneMore(uses, unwatch, done, {id});
        client.Release(id);
        rest, done := rest - {id}, done + {id};
        h := h.(uses := Used(uses, unwatch, done));
      }
      assert done == unwatch.Keys;
    }
  }
}
