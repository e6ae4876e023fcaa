/** What the account cell holds after any run: its contents are read off the effects that the run has had. */
module AccountHistory {
  import opened Wrappers
  import opened AccountCell

  /** The accepted mutations of the credential. */
  datatype Effect = Replaced(bytes: string) | Disconnected | Refreshed(name: string)

  /** The kinds of the calls made so far; a call is named by its position. */
  function Called(steps: seq<Step>): seq<Kind> {
    if steps == [] then []
    else
      var before, step := Called(steps[..|steps|-1]), steps[|steps|-1];
      if step.Calling? then before + [step.kind] else before
  }

  /** The mutations so far: a swap when its call enters, a refresh when its label is valid. */
  function Effects(steps: seq<Step>): seq<Effect> {
    if steps == [] then []
    else
      var before, step := Effects(steps[..|steps|-1]), steps[|steps|-1];
      match step
      case Entering(i) =>
        if i >= |Called(steps)| || Called(steps)[i].Use? then before
        else if Called(steps)[i].Replace? then before + [Replaced(Called(steps)[i].bytes)]
        else before + [Disconnected]
      case Refreshing(_, name) => if IsLabel(name) then before + [Refreshed(name)] else before
      case _ => before
  }

  function Name(e: Effect): string {
    match e
    case Replaced(_) => "replace-account"
    case Disconnected => "disconnect"
    case Refreshed(name) => name
  }

  /** The last replacement or disconnection. */
  function LastSwap(effects: seq<Effect>): Option<Effect> {
    if effects == [] then None
    else if effects[|effects|-1].Refreshed? then LastSwap(effects[..|effects|-1])
    else Some(effects[|effects|-1])
  }

  function Swaps(effects: seq<Effect>): nat {
    if effects == [] then 0
    else Swaps(effects[..|effects|-1]) + (if effects[|effects|-1].Refreshed? then 0 else 1)
  }

  /** What the last swap left, or the initial bytes, with each label refreshed since then appended after a colon. */
  function Contents(effects: seq<Effect>, initial: string): string {
    if effects == [] then initial
    else
      match effects[|effects|-1]
      case Replaced(bytes) => bytes
      case Disconnected => ""
      case Refreshed(name) => Contents(effects[..|effects|-1], initial) + ":" + name
  }

  /** The account is signed in unless the last swap was a disconnection. */
  predicate SignedIn(effects: seq<Effect>) {
    LastSwap(effects) != Some(Disconnected)
  }

  predicate Logged(log: seq<string>, effects: seq<Effect>) {
    |log| == |effects| && forall i :: 0 <= i < |effects| ==> log[i] == Name(effects[i])
  }

  predicate Holds(d: CellDisk, effects: seq<Effect>, initial: string) {
    && d.credentialBytes == Contents(effects, initial)
    && d.revision == |effects| && d.generation == 1 + Swaps(effects) && Logged(d.mutationLog, effects)
    && (d.authenticated <==> SignedIn(effects)) && (d.authMethod == "claude.ai" <==> SignedIn(effects))
  }

  lemma LoggedSnoc(log: seq<string>, effects: seq<Effect>)
    requires effects != [] && Logged(log, effects[..|effects|-1])
    ensures Logged(log + [Name(effects[|effects|-1])], effects)
  {
  }

  lemma HoldsRefreshed(d: CellDisk, effects: seq<Effect>, initial: string)
    requires effects != [] && effects[|effects|-1].Refreshed? && Holds(d, effects[..|effects|-1], initial)
    ensures var name := effects[|effects|-1].name;
            Holds(d.(credentialBytes := d.credentialBytes + ":" + name, revision := d.revision + 1,
                     mutationLog := d.mutationLog + [name]),
                  effects, initial)
  {
    LoggedSnoc(d.mutationLog, effects);
  }

  lemma HoldsSwapped(d: CellDisk, effects: seq<Effect>, initial: string, kind: Kind)
    requires effects != [] && !kind.Use? && Holds(d, effects[..|effects|-1], initial)
    requires effects[|effects|-1] == if kind.Replace? then Replaced(kind.bytes) else Disconnected
    ensures Holds(Swap(d, kind), effects, initial)
  {
    LoggedSnoc(d.mutationLog, effects);
    SwapContents(d, kind);
  }

  lemma SwapContents(d: CellDisk, kind: Kind)
    requires !kind.Use?
    ensures var e := Swap(d, kind);
      && e.credentialBytes == (if kind.Replace? then kind.bytes else "")
      && e.revision == d.revision + 1 && e.generation == d.generation + 1
      && e.mutationLog == d.mutationLog + [if kind.Replace? then "replace-account" else "disconnect"]
      && (e.authenticated <==> kind.Replace?) && (e.authMethod == "claude.ai" <==> kind.Replace?)
  {
    assert |"none"| != |"claude.ai"|;
  }

  const SMALL := "abcdefghijklmnopqrstuvwxyz"
  const DIGITS := "0123456789"

  /** A label has 1 to 64 small letters, digits and hyphens. */
  lemma LabelShape(name: string)
    ensures IsLabel(name) <==> 0 < |name| < 65 && forall c :: c in name ==> c in SMALL || c in DIGITS || c == '-'
  {
    assert forall i :: 0 <= i < |name| ==> name[i] in name;
    forall c: char { Ranges(c); }
  }

  lemma Ranges(c: char)
    ensures c in SMALL <==> 'a' <= c <= 'z'
    ensures c in DIGITS <==> '0' <= c <= '9'
  {
  }

  predicate Kinds(s: State, kinds: seq<Kind>) {
    |s.calls| == |kinds| && forall i :: 0 <= i < |kinds| ==> s.calls[i].kind == kinds[i]
  }

  lemma {:induction false} CallsFollow(s: State, steps: seq<Step>, t: State)
    requires Fresh(s) && After(s, steps) == Some(t)
    ensures Kinds(t, Called(steps))
  {
    if steps != [] {
      CallsFollow(s, steps[..|steps|-1], After(s, steps[..|steps|-1]).value);
    }
  }

  /** After every run: the bytes are those of the last swap with the later labels appended, the log names the
      effects in order, the revision counts them, the generation counts the swaps, and the account is signed in
      unless the last swap was a disconnection. */
  lemma {:induction false} ContentsFollow(s: State, steps: seq<Step>, t: State)
    requires Fresh(s) && After(s, steps) == Some(t)
    ensures Holds(t.disk, Effects(steps), s.disk.credentialBytes)
  {
    if steps != [] {
      var before, step := After(s, steps[..|steps|-1]).value, steps[|steps|-1];
      var effects := Effects(steps[..|steps|-1]);
      ContentsFollow(s, steps[..|steps|-1], before);
      CallsFollow(s, steps[..|steps|-1], before);
      match step
      case Calling(_) =>
      case Finishing(_) =>
      case Entering(i) =>
        assert before.calls[i].kind == Called(steps)[i];
        if !before.calls[i].kind.Use? {
          assert Effects(steps)[..|effects|] == effects;
          HoldsSwapped(before.disk, Effects(steps), s.disk.credentialBytes, before.calls[i].kind);
        }
      case Refreshing(_, name) =>
        if IsLabel(name) {
          assert Effects(steps)[..|effects|] == effects;
          HoldsRefreshed(before.disk, Effects(steps), s.disk.credentialBytes);
        }
    }
  }

  /** A use is admitted exactly if its reference is the one to the present account, environment and generation, and
      the account is signed in; entering changes nothing on the disk. */
  lemma AdmissionExactly(s: State, steps: seq<Step>, t: State, i: nat)
    requires Fresh(s) && After(s, steps) == Some(t) && CanEnter(t, i) && t.calls[i].kind.Use?
    ensures EnterIn(t, i).calls[i].phase.admitted <==>
            t.calls[i].kind.reference == ReferenceTo(t.disk) && SignedIn(Effects(steps))
    ensures EnterIn(t, i).disk == t.disk
  {
    ContentsFollow(s, steps, t);
  }
}
