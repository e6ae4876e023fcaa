/** Run tracking over realtime channels (client/src/state/active-run-tracker.ts and
    client/src/realtime/client.ts), as transitions of one state: each is a synchronous segment. */
module RunTracking {
  import opened Wrappers

  datatype Summary = Summary(id: string, status: string)

  datatype Projection = Projection(id: string, status: string, revision: nat)

  predicate Trackable(status: string) {
    status !in {"completed", "failed", "cancelled"}
  }

  /** The realtime client: whether a socket exists, the open run channels, and who asked for them. */
  datatype Client = Client(connected: bool, channels: set<string>, watched: set<string>,
                           selected: Option<string>, product: bool)

  /** A refresher is in its loop with a getRun outstanding, or has left the loop while its `finally`
      is still to run. */
  datatype Phase = Fetching | Settling

  datatype Tracker = Tracker(tracked: set<string>, terminal: set<string>, projections: map<string, Projection>,
                             unwatch: map<string, nat>, inFlight: map<string, Phase>, refreshNeeded: set<string>,
                             disposed: bool)

  /** What the code itself does not remember: how often each release handle was invoked, the getRun calls
      begun and those outstanding, and whether the client was ever disconnected. */
  datatype History = History(uses: seq<nat>, begun: multiset<string>, outstanding: multiset<string>, disconnected: bool)

  datatype Sys = Sys(c: Client, t: Tracker, h: History)

  const INITIAL := Sys(Client(false, {}, {}, None, false), Tracker({}, {}, map[], map[], map[], {}, false),
                       History([], multiset{}, multiset{}, false))

  // ---------- the realtime client ----------

  function Selection(c: Client): set<string> {
    if c.selected.Some? then {c.selected.value} else {}
  }

  /** The selection as JavaScript's truthiness sees it. */
  function TruthySelection(c: Client): set<string> {
    Selection(c) - {""}
  }

  function Watch(c: Client, id: string): Client {
    c.(watched := c.watched + {id}, connected := true, channels := c.channels + {id})
  }

  function Unwatch(c: Client, ids: set<string>): Client {
    c.(watched := c.watched - ids, channels := c.channels - (ids - Selection(c)))
  }

  function Select(c: Client, id: string): Client {
    if c.selected == Some(id) && id in c.channels then c
    else c.(selected := Some(id), connected := true,
            channels := c.channels - (TruthySelection(c) - c.watched) + {id})
  }

  function Disconnect(c: Client): Client {
    c.(channels := {}, product := false, selected := None, connected := false)
  }

  function Interested(c: Client): set<string> {
    c.watched + TruthySelection(c)
  }

  // ---------- refreshing ----------

  function AllFetching(ids: set<string>): map<string, Phase> {
    map id | id in ids :: Fetching
  }

  /** The beginning of a getRun for each of the runs. */
  function BeginFetches(s: Sys, ids: set<string>): Sys {
    s.(t := s.t.(refreshNeeded := s.t.refreshNeeded - ids,
                 inFlight := s.t.inFlight + AllFetching(ids)),
       h := s.h.(begun := s.h.begun + multiset(ids), outstanding := s.h.outstanding + multiset(ids)))
  }

  predicate IsFetching(t: Tracker, id: string) {
    id in t.inFlight && t.inFlight[id] == Fetching
  }

  function SettlingRuns(t: Tracker): set<string> {
    set id | id in t.inFlight && t.inFlight[id] == Settling
  }

  /** Runs in flight that are invalidated: they are to be fetched again. */
  function Mark(s: Sys, busy: set<string>): Sys {
    s.(t := s.t.(refreshNeeded := s.t.refreshNeeded + busy))
  }

  /** invalidate() for several runs: those in flight are marked, the others fetched at once. */
  function Invalidate(s: Sys, runs: set<string>): Sys {
    var ids := runs * s.t.tracked;
    var busy := ids * s.t.inFlight.Keys;
    BeginFetches(Mark(s, busy), ids - busy)
  }

  // ---------- tracking ----------

  /** stopTracking() for several runs. */
  function Stop(s: Sys, ids: set<string>): Sys {
    var released := ids * s.t.unwatch.Keys;
    s.(t := s.t.(tracked := s.t.tracked - ids, refreshNeeded := s.t.refreshNeeded - ids,
                 projections := s.t.projections - ids, unwatch := s.t.unwatch - ids),
       c := Unwatch(s.c, released),
       h := s.h.(uses := Used(s.h.uses, s.t.unwatch, released)))
  }

  /** Each handle of a released run is invoked once more. */
  function Used(uses: seq<nat>, unwatch: map<string, nat>, released: set<string>): (r: seq<nat>)
    ensures |r| == |uses|
  {
    seq(|uses|, h requires 0 <= h < |uses| =>
      uses[h] + (if exists id :: id in released && id in unwatch && unwatch[id] == h then 1 else 0))
  }

  /** The run enters the tracked set, with a fresh release handle. */
  function Enter(s: Sys, id: string): Sys {
    s.(t := s.t.(tracked := s.t.tracked + {id}, unwatch := s.t.unwatch[id := |s.h.uses|]),
       c := Watch(s.c, id), h := s.h.(uses := s.h.uses + [0]))
  }

  function Track(s: Sys, id: string): Sys {
    if id in s.t.tracked then s
    else if id in s.t.inFlight then Enter(s, id)
    else BeginFetches(Enter(s, id), {id})
  }

  function TrackEach(s: Sys, ids: seq<string>): Sys
    decreases |ids|
  {
    if ids == [] then s else TrackEach(Track(s, ids[0]), ids[1..])
  }

  function Ids(summaries: seq<Summary>): set<string> {
    set x | x in summaries :: x.id
  }

  function TerminalIds(summaries: seq<Summary>): set<string> {
    set x | x in summaries && !Trackable(x.status) :: x.id
  }

  /** Tombstones survive as long as the product still lists the run as nonterminal. */
  function Tombstones(terminal: set<string>, summaries: seq<Summary>): set<string> {
    terminal * Ids(summaries) - TerminalIds(summaries)
  }

  /** The ids to be tracked, in the order of the summaries. */
  function Desired(summaries: seq<Summary>, tombstones: set<string>): seq<string> {
    if summaries == [] then []
    else (if Trackable(summaries[0].status) && summaries[0].id !in tombstones then [summaries[0].id] else [])
         + Desired(summaries[1..], tombstones)
  }

  function Elements(ids: seq<string>): set<string> {
    set id | id in ids
  }

  function UpdateSummaries(s: Sys, summaries: seq<Summary>): Sys {
    if s.t.disposed then s
    else
      var tombstones := Tombstones(s.t.terminal, summaries);
      var desired := Desired(summaries, tombstones);
      TrackEach(Stop(s.(t := s.t.(terminal := tombstones)), s.t.tracked - Elements(desired)), desired)
  }

  function Accept(s: Sys, p: Projection): Sys {
    if !Trackable(p.status) then Stop(s.(t := s.t.(terminal := s.t.terminal + {p.id})), {p.id})
    else s.(t := s.t.(projections := s.t.projections[p.id := p]))
  }

  function Seed(s: Sys, p: Projection): Sys {
    if s.t.disposed || p.id !in s.t.tracked then s else Accept(s, p)
  }

  function Dispose(s: Sys): Sys {
    s.(t := s.t.(disposed := true, tracked := {}, unwatch := map[], projections := map[], refreshNeeded := {}),
       c := Unwatch(s.c, s.t.unwatch.Keys),
       h := s.h.(uses := Used(s.h.uses, s.t.unwatch, s.t.unwatch.Keys)))
  }

  /** The result of a getRun is taken in, or its failure. */
  function Receive(s: Sys, id: string, result: Option<Projection>): Sys {
    if id !in s.t.tracked then s
    else if result.Some? then Accept(s, result.value)
    else s.(t := s.t.(projections := s.t.projections - {id}))
  }

  /** The getRun is over: the loop goes round, or ends. */
  function GoOn(s: Sys, id: string): Sys {
    var over := s.(h := s.h.(outstanding := s.h.outstanding - multiset{id}));
    if id in s.t.tracked && id in s.t.refreshNeeded then BeginFetches(over, {id})
    else over.(t := s.t.(inFlight := s.t.inFlight[id := Settling]))
  }

  /** The refresher's segment after its await. */
  function Resume(s: Sys, id: string, result: Option<Projection>): Sys {
    GoOn(Receive(s, id, result), id)
  }

  function Settle(s: Sys, id: string): Sys {
    s.(t := s.t.(inFlight := s.t.inFlight - {id}))
  }

  // ---------- events ----------

  datatype Event =
    | Summaries(summaries: seq<Summary>)
    | Seeded(projection: Projection)
    | RunInvalidated(id: string)
    | Started
    | SocketOpened
    | SocketLost
    | RunSelected(id: string)
    | Resumed(id: string, result: Option<Projection>)
    | Settled(id: string)
    | Disposed
    | Disconnected

  /** A resumed refresher was waiting, and getRun(id) returns run id; a `finally` runs after its loop;
      the socket that opens is the one that exists. */
  predicate Possible(s: Sys, e: Event) {
    match e
    case Resumed(id, result) => IsFetching(s.t, id) && (result.Some? ==> result.value.id == id)
    case Settled(id) => id in SettlingRuns(s.t)
    case SocketOpened => s.c.connected
    case _ => true
  }

  /** On open the store reconnects the tracker, then every run of interest is invalidated. */
  function InvalidatedTwice(s: Sys): Sys {
    Invalidate(Invalidate(s, s.t.tracked), Interested(s.c))
  }

  function Open(s: Sys): Sys {
    var again := InvalidatedTwice(s);
    again.(c := again.c.(product := true))
  }

  function Handle(s: Sys, e: Event): Sys
    requires Possible(s, e)
  {
    match e
    case Summaries(summaries) => UpdateSummaries(s, summaries)
    case Seeded(p) => Seed(s, p)
    case RunInvalidated(id) => Invalidate(s, {id})
    case Started => s.(c := s.c.(connected := true))
    case SocketOpened => Open(s)
    case SocketLost => s.(t := s.t.(projections := map[]))
    case RunSelected(id) => s.(c := Select(s.c, id))
    case Resumed(id, result) => Resume(s, id, result)
    case Settled(id) => Settle(s, id)
    case Disposed => Dispose(s)
    case Disconnected => s.(c := Disconnect(s.c), t := s.t.(projections := map[]), h := s.h.(disconnected := true))
  }

  predicate Feasible(s: Sys, events: seq<Event>)
    decreases |events|
  {
    events == [] || (Possible(s, events[0]) && Feasible(Handle(s, events[0]), events[1..]))
  }

  function Final(s: Sys, events: seq<Event>): Sys
    requires Feasible(s, events)
    decreases |events|
  {
    if events == [] then s else Final(Handle(s, events[0]), events[1..])
  }
}
