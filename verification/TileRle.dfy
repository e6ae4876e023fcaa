/** GameMaker's run-length tile encoding (client/scripts/sunnyside-example-importer.ts). */
module TileRle {
  import opened Wrappers

  datatype Error = TruncatedRun | TruncatedLiteral | WrongCount(decoded: nat)

  const RUN_LIMIT := 1_000_000

  // ---------- the format ----------

  datatype Run = Repeat(count: nat, cell: int) | Literal(cells: seq<int>) | Bare(cell: int) {
    predicate Valid() {
      match this
      case Repeat(n, _) => 0 < n < RUN_LIMIT
      case Literal(cells) => cells != []
      case Bare(cell) => cell == 0 || cell <= -RUN_LIMIT
    }

    function Numbers(): seq<int> {
      match this
      case Repeat(n, cell) => [-(n as int), cell]
      case Literal(cells) => [|cells|] + cells
      case Bare(cell) => [cell]
    }

    function Cells(): seq<int> {
      match this
      case Repeat(n, cell) => seq(n, _ => cell)
      case Literal(cells) => cells
      case Bare(cell) => [cell]
    }
  }

  predicate AllValid(runs: seq<Run>) {
    forall r :: r in runs ==> r.Valid()
  }

  function Encode(runs: seq<Run>): seq<int> {
    if runs == [] then [] else runs[0].Numbers() + Encode(runs[1..])
  }

  function Expand(runs: seq<Run>): seq<int> {
    if runs == [] then [] else runs[0].Cells() + Expand(runs[1..])
  }

  // ---------- the decoder ----------

  function FirstRun(data: seq<int>): Result<Run, Error>
    requires data != []
  {
    var value := data[0];
    if -RUN_LIMIT < value < 0 then
      if |data| < 2 then Failure(TruncatedRun) else Success(Repeat(-value, data[1]))
    else if value > 0 then
      if |data| <= value then Failure(TruncatedLiteral) else Success(Literal(data[1..1+value]))
    else Success(Bare(value))
  }

  ghost function Join(done: seq<Run>, rest: Result<seq<Run>, Error>): Result<seq<Run>, Error> {
    if rest.Success? then Success(done + rest.value) else rest
  }

  ghost function Parse(data: seq<int>): Result<seq<Run>, Error>
    decreases |data|
  {
    if data == [] then Success([])
    else if FirstRun(data).Failure? then Failure(FirstRun(data).error)
    else
      var first := FirstRun(data).value;
      Join([first], Parse(data[|first.Numbers()|..]))
  }

  /** The body of the decoding loop: the cells of the run that starts the rest of the data, and where it ends. */
  method DecodeRun(data: seq<int>, start: nat, ghost rest: seq<int>)
    returns (cells: seq<int>, index: nat, error: Option<Error>)
    requires start < |data| && rest == data[start..]
    ensures match FirstRun(rest)
            case Failure(e) => error == Some(e)
            case Success(run) => error == None && cells == run.Cells() && index == start + |run.Numbers()|
  {
    cells, error := [], None;
    index := start + 1;
    var value := data[start];
    if -RUN_LIMIT < value < 0 {
      if index >= |data| { return cells, index, Some(TruncatedRun); }
      var repeated := data[index];
      index := index + 1;
      cells := seq(-value, _ => repeated);
    } else if value > 0 {
      if |data| - index < value { return cells, index, Some(TruncatedLiteral); }
      cells := data[index..index+value];
      assert cells == rest[1..1+value];
      index := index + value;
    } else {
      cells := [value];
    }
  }

  /** The decoding loop. */
  method DecodeRuns(data: seq<int>) returns (cells: seq<int>, error: Option<Error>)
    ensures match Parse(data)
            case Failure(e) => error == Some(e)
            case Success(runs) => error == None && cells == Expand(runs)
  {
    cells, error := [], None;
    var index := 0;
    ghost var done, rest, all := [], data, Parse(data);
    assert all.Success? ==> [] + all.value == all.value;
    while index < |data|
      invariant 0 <= index <= |data| && rest == data[index..]
      invariant cells == Expand(done)
      invariant all == Join(done, Parse(rest))
    {
      var run, next, problem := DecodeRun(data, index, rest);
      if problem.Some? { return [], problem; }
      Advance(rest, done);
      ghost var first := FirstRun(rest).value;
      assert rest[|first.Numbers()|..] == data[next..];
      cells, index := cells + run, next;
      done, rest := done + [first], rest[|first.Numbers()|..];
    }
    assert done + [] == done;
  }

  method DecodeTileData(data: seq<int>, expectedCells: nat) returns (r: Result<seq<int>, Error>)
    ensures match Parse(data)
            case Failure(e) => r == Failure(e)
            case Success(runs) =>
              r == if |Expand(runs)| == expectedCells then Success(Expand(runs))
                   else Failure(WrongCount(|Expand(runs)|))
  {
    var cells, error := DecodeRuns(data);
    if error.Some? { return Failure(error.value); }
    if |cells| != expectedCells { return Failure(WrongCount(|cells|)); }
    return Success(cells);
  }

  lemma Advance(rest: seq<int>, done: seq<Run>)
    requires rest != [] && FirstRun(rest).Success?
    ensures var first := FirstRun(rest).value;
            && |first.Numbers()| <= |rest|
            && Join(done, Parse(rest)) == Join(done + [first], Parse(rest[|first.Numbers()|..]))
            && Expand(done + [first]) == Expand(done) + first.Cells()
  {
    var first := FirstRun(rest).value;
    JoinTwice(done, first, Parse(rest[|first.Numbers()|..]));
    ExpandSnoc(done, first);
  }

  lemma JoinTwice(done: seq<Run>, r: Run, rest: Result<seq<Run>, Error>)
    ensures Join(done, Join([r], rest)) == Join(done + [r], rest)
  {
    if rest.Success? {
      assert done + ([r] + rest.value) == done + [r] + rest.value;
    }
  }

  lemma {:induction false} ExpandSnoc(done: seq<Run>, r: Run)
    ensures Expand(done + [r]) == Expand(done) + r.Cells()
    decreases |done|
  {
    if done == [] {
      assert [r][1..] == [] && Expand([r]) == r.Cells() + [];
    } else {
      assert (done + [r])[1..] == done[1..] + [r];
      ExpandSnoc(done[1..], r);
      assert done[0].Cells() + (Expand(done[1..]) + r.Cells()) == Expand(done) + r.Cells();
    }
  }

  // ---------- the decoder is exact ----------

  lemma {:induction false} ParseSound(data: seq<int>)
    requires Parse(data).Success?
    ensures AllValid(Parse(data).value) && Encode(Parse(data).value) == data
    decreases |data|
  {
    if data != [] {
      var first := FirstRun(data).value;
      var width := |first.Numbers()|;
      FirstRunSound(data);
      ParseSound(data[width..]);
      SoundCons(data, first, Parse(data[width..]).value);
    }
  }

  lemma SoundCons(data: seq<int>, first: Run, rest: seq<Run>)
    requires first.Valid() && AllValid(rest) && |first.Numbers()| <= |data|
    requires first.Numbers() == data[..|first.Numbers()|] && Encode(rest) == data[|first.Numbers()|..]
    ensures AllValid([first] + rest) && Encode([first] + rest) == data
  {
    assert ([first] + rest)[1..] == rest;
  }

  lemma FirstRunSound(data: seq<int>)
    requires data != [] && FirstRun(data).Success?
    ensures var first := FirstRun(data).value;
            first.Valid() && |first.Numbers()| <= |data| && first.Numbers() == data[..|first.Numbers()|]
  {
  }

  lemma FirstRunOf(r: Run, rest: seq<int>)
    requires r.Valid()
    ensures FirstRun(r.Numbers() + rest) == Success(r)
    ensures (r.Numbers() + rest)[|r.Numbers()|..] == rest
  {
    var data := r.Numbers() + rest;
    if r.Literal? {
      assert data[1..1+|r.cells|] == r.cells;
    }
  }

  lemma {:induction false} ParseEncode(runs: seq<Run>)
    requires AllValid(runs)
    ensures Parse(Encode(runs)) == Success(runs)
    decreases |runs|
  {
    if runs != [] {
      var r, rest := runs[0], runs[1..];
      assert r.Valid();
      FirstRunOf(r, Encode(rest));
      ParseEncode(rest);
      assert runs == [r] + rest;
    }
  }

  /** The decoder accepts exactly the serialisations of valid run lists, and yields their expansion;
      the run list of a serialisation is unique, so no cell is ever misread as a count. */
  lemma DecodesExactly(data: seq<int>, cells: seq<int>)
    ensures (Parse(data).Success? && Expand(Parse(data).value) == cells) <==>
            exists runs :: AllValid(runs) && Encode(runs) == data && Expand(runs) == cells
    ensures forall a, b :: AllValid(a) && AllValid(b) && Encode(a) == Encode(b) ==> a == b
  {
    forall runs | AllValid(runs) ensures Parse(Encode(runs)) == Success(runs) {
      ParseEncode(runs);
    }
    if Parse(data).Success? && Expand(Parse(data).value) == cells {
      ParseSound(data);
      assert AllValid(Parse(data).value) && Encode(Parse(data).value) == data;
    }
  }

  /** Every cell array has an encoding. */
  lemma EveryArrayHasAnEncoding(cells: seq<int>) returns (runs: seq<Run>)
    ensures AllValid(runs) && Expand(runs) == cells && Parse(Encode(runs)) == Success(runs)
  {
    runs := if cells == [] then [] else [Literal(cells)];
    if cells != [] {
      assert runs[1..] == [] && Expand(runs) == cells + [];
    }
    ParseEncode(runs);
  }
}
