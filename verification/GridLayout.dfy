/**
 The dashboard grid allocator: rows take a whole band of the 24-column grid, graphs are placed left
 to right in bands of height 8, and a graph that does not fit opens the next band.
 */
module GridLayout {

  const COLUMNS: nat := 24

  const GRAPH_HEIGHT: nat := 8

  datatype GridPos = GridPos(h: nat, w: nat, x: nat, y: nat)

  datatype Request = Row | Half | Third

  function Width(r: Request): nat
  {
    match r
    case Row => 24
    case Half => 12
    case Third => 8
  }

  // ---------------------------------------------------------- the specification

  /** The last position handed out. */
  datatype State = State(x: nat, y: nat, w: nat, h: nat)

  const START := State(0, 0, 0, 0)

  /** Columns used in the current band. */
  function Fill(st: State): nat
  {
    st.x + st.w
  }

  function Bottom(st: State): nat
  {
    st.y + st.h
  }

  function PosOf(st: State): GridPos
  {
    GridPos(st.h, st.w, st.x, st.y)
  }

  function Place(st: State, r: Request): State
  {
    match r
    case Row => State(0, Bottom(st), COLUMNS, 1)
    case _ =>
      if Fill(st) + Width(r) > COLUMNS
      then State(0, Bottom(st), Width(r), GRAPH_HEIGHT)
      else State(Fill(st), st.y, Width(r), GRAPH_HEIGHT)
  }

  function After(st: State, rs: seq<Request>): State
  {
    if rs == [] then st else Place(After(st, rs[..|rs| - 1]), rs[|rs| - 1])
  }

  function Positions(rs: seq<Request>): (ps: seq<GridPos>)
    ensures |ps| == |rs|
  {
    if rs == [] then [] else Positions(rs[..|rs| - 1]) + [PosOf(After(START, rs))]
  }

  // -------------------------------------------------------------- the class

  class Layout {
    var x: nat
    var y: nat
    var w: nat
    var h: nat

    ghost function View(): State
      reads this
    {
      State(x, y, w, h)
    }

    constructor ()
      ensures View() == START
    {
      x, y, w, h := 0, 0, 0, 0;
    }

    method NextRow() returns (pos: GridPos)
      modifies this
      ensures View() == Place(old(View()), Row) && pos == PosOf(View())
      ensures pos == GridPos(1, 24, 0, old(y) + old(h))
    {
      y := y + h;
      x := 0;
      w := 24;
      h := 1;
      return GridPos(1, 24, x, y);
    }

    method NextHalfWidthGraph() returns (pos: GridPos)
      modifies this
      ensures View() == Place(old(View()), Half) && pos == PosOf(View())
      ensures if old(x) + old(w) <= 12 then pos == GridPos(8, 12, old(x) + old(w), old(y)) else pos == GridPos(8, 12, 0, old(y) + old(h))
    {
      if x + w > 24 - 12 {
        y := y + h;
        x := 0;
      } else {
        x := x + w;
      }
      h := 8;
      w := 12;
      return GridPos(8, 12, x, y);
    }

    method NextOneThirdWidthGraph() returns (pos: GridPos)
      modifies this
      ensures View() == Place(old(View()), Third) && pos == PosOf(View())
      ensures if old(x) + old(w) <= 16 then pos == GridPos(8, 8, old(x) + old(w), old(y)) else pos == GridPos(8, 8, 0, old(y) + old(h))
    {
      if x + w > 24 - 8 {
        y := y + h;
        x := 0;
      } else {
        x := x + w;
      }
      h := 8;
      w := 8;
      return GridPos(8, 8, x, y);
    }
  }

  ghost predicate HasSize(p: GridPos, r: Request)
  {
    match r
    case Row => p.w == 24 && p.h == 1
    case Half => p.w == 12 && p.h == 8
    case Third => p.w == 8 && p.h == 8
  }

  /** Rows are 24 by 1, half-width graphs 12 by 8, third-width graphs 8 by 8. */
  lemma {:induction false} PositionSizes(rs: seq<Request>, i: nat)
    requires i < |rs|
    ensures HasSize(Positions(rs)[i], rs[i])
  {
    var n := |rs| - 1;
    if i < n { PositionSizes(rs[..n], i); }
  }

  // ---------------------------------------------------------------- safety

  ghost predicate Overlap(p: GridPos, q: GridPos)
  {
    p.x < q.x + q.w && q.x < p.x + p.w && p.y < q.y + q.h && q.y < p.y + p.h
  }

  /** Reading order: top to bottom, then left to right. */
  ghost predicate Precedes(p: GridPos, q: GridPos)
  {
    p.y < q.y || (p.y == q.y && p.x < q.x)
  }

  ghost predicate Regular(st: State)
  {
    Fill(st) <= COLUMNS && (st.h == GRAPH_HEIGHT || (st.h == 1 && Fill(st) == COLUMNS))
  }

  /** Every position handed out is above the current band, or in it and left of the fill. */
  ghost predicate Below(st: State, p: GridPos)
  {
    p.y + p.h <= st.y || (p.y == st.y && p.h == st.h && p.x + p.w <= Fill(st))
  }

  ghost predicate Safe(ps: seq<GridPos>)
  {
    && (forall i :: 0 <= i < |ps| ==> ps[i].w > 0 && ps[i].h > 0 && ps[i].x + ps[i].w <= COLUMNS)
    && (forall i, j :: 0 <= i < j < |ps| ==> !Overlap(ps[i], ps[j]) && Precedes(ps[i], ps[j]))
  }

  ghost predicate AllBelow(st: State, ps: seq<GridPos>)
  {
    forall i :: 0 <= i < |ps| ==> Below(st, ps[i])
  }

  lemma PlaceNew(st: State, r: Request)
    ensures var st' := Place(st, r);
            Regular(st') && st'.w > 0 && Below(st', PosOf(st'))
  {
  }

  lemma PlaceSafe(st: State, r: Request, st': State, ps: seq<GridPos>)
    requires st' == Place(st, r)
    requires Safe(ps) && AllBelow(st, ps) && (ps != [] ==> Regular(st))
    ensures Safe(ps + [PosOf(st')]) && AllBelow(st', ps + [PosOf(st')])
  {
  }

  lemma {:induction false} RunSafe(rs: seq<Request>)
    ensures Safe(Positions(rs)) && AllBelow(After(START, rs), Positions(rs))
    ensures rs != [] ==> Regular(After(START, rs))
  {
    if rs != [] {
      var n := |rs| - 1;
      RunSafe(rs[..n]);
      PlaceNew(After(START, rs[..n]), rs[n]);
      PlaceSafe(After(START, rs[..n]), rs[n], After(START, rs), Positions(rs[..n]));
    }
  }

  /** For every sequence of calls: inside the grid, pairwise disjoint, in reading order. */
  lemma LayoutSafe(rs: seq<Request>)
    ensures Safe(Positions(rs))
  {
    RunSafe(rs);
  }

  // ------------------------------------------------- bands opened by graphs

  /** Bands opened when graphs of the given widths follow a band filled so far. */
  function NewBands(fill: nat, ws: seq<nat>): nat
    decreases |ws|
  {
    if ws == [] then 0
    else if fill + ws[0] > COLUMNS then 1 + NewBands(ws[0], ws[1..])
    else NewBands(fill + ws[0], ws[1..])
  }

  predicate Graphs(rs: seq<Request>)
  {
    forall i :: 0 <= i < |rs| ==> rs[i] != Row
  }

  function Widths(rs: seq<Request>): seq<nat>
  {
    seq(|rs|, i requires 0 <= i < |rs| => Width(rs[i]))
  }

  lemma {:induction false} AfterFirst(st: State, rs: seq<Request>)
    requires rs != []
    ensures After(st, rs) == After(Place(st, rs[0]), rs[1..])
  {
    var n := |rs| - 1;
    if n == 0 {
      assert rs[..0] == [] && rs[1..] == [];
    } else {
      AfterFirst(st, rs[..n]);
      assert rs[..n][1..] == rs[1..][..n - 1];
    }
  }

  /** The height a run of graphs adds is eight per band opened. */
  lemma {:induction false} HeightOfGraphs(st: State, rs: seq<Request>)
    requires Graphs(rs) && Regular(st)
    ensures Bottom(After(st, rs)) == Bottom(st) + GRAPH_HEIGHT * NewBands(Fill(st), Widths(rs))
    decreases |rs|
  {
    if rs != [] {
      AfterFirst(st, rs);
      assert Widths(rs)[1..] == Widths(rs[1..]);
      HeightOfGraphs(Place(st, rs[0]), rs[1..]);
    }
  }

  // ------------------------------------------------------------- optimality

  function Sum(ws: seq<nat>): nat
  {
    if ws == [] then 0 else ws[0] + Sum(ws[1..])
  }

  function Flatten(bands: seq<seq<nat>>): seq<nat>
  {
    if bands == [] then [] else bands[0] + Flatten(bands[1..])
  }

  /** A way to lay the graphs out, in order, in bands that fit the grid. */
  ghost predicate IsCut(bands: seq<seq<nat>>, ws: seq<nat>)
  {
    Flatten(bands) == ws && forall i :: 0 <= i < |bands| ==> Sum(bands[i]) <= COLUMNS
  }

  /** A fuller band never needs fewer new bands, and at most one more. */
  lemma {:induction false} FillMatters(fill: nat, fill': nat, ws: seq<nat>)
    requires fill <= fill' <= COLUMNS
    ensures NewBands(fill, ws) <= NewBands(fill', ws) <= 1 + NewBands(fill, ws)
    decreases |ws|
  {
    if ws != [] {
      var w := ws[0];
      if fill' + w <= COLUMNS {
        FillMatters(fill + w, fill' + w, ws[1..]);
      } else if fill + w <= COLUMNS {
        FillMatters(w, fill + w, ws[1..]);
      }
    }
  }

  /** Against any cut whose first band continues the current one. */
  lemma {:induction false} NoCutIsBetter(fill: nat, ws: seq<nat>, bands: seq<seq<nat>>)
    requires bands != [] && IsCut(bands, ws) && fill + Sum(bands[0]) <= COLUMNS
    ensures NewBands(fill, ws) < |bands|
    decreases |bands|, |ws|
  {
    var first, rest := bands[0], bands[1..];
    if first != [] {
      var shorter := [first[1..]] + rest;
      assert shorter[1..] == rest && Flatten(shorter) == ws[1..];
      forall i | 0 <= i < |shorter| ensures Sum(shorter[i]) <= COLUMNS {
        if i > 0 { assert shorter[i] == bands[i]; }
      }
      NoCutIsBetter(fill + first[0], ws[1..], shorter);
    } else if rest != [] {
      assert Flatten(rest) == ws;
      NoCutIsBetter(0, ws, rest);
      FillMatters(0, fill, ws);
    }
  }

  /** The cut that the layout makes: the first band continues the current one. */
  function GreedyCut(fill: nat, ws: seq<nat>): (bands: seq<seq<nat>>)
    ensures |bands| == 1 + NewBands(fill, ws)
    decreases |ws|
  {
    if ws == [] then [[]]
    else
      var opens := fill + ws[0] > COLUMNS;
      var rest := GreedyCut(if opens then ws[0] else fill + ws[0], ws[1..]);
      var bands := [[ws[0]] + rest[0]] + rest[1..];
      if opens then [[]] + bands else bands
  }

  lemma Prepended(w: nat, rest: seq<seq<nat>>, ws: seq<nat>)
    requires rest != [] && IsCut(rest, ws) && w + Sum(rest[0]) <= COLUMNS
    ensures IsCut([[w] + rest[0]] + rest[1..], [w] + ws)
    ensures Sum([w] + rest[0]) == w + Sum(rest[0])
  {
  }

  lemma EmptyBandFirst(bands: seq<seq<nat>>, ws: seq<nat>)
    requires IsCut(bands, ws)
    ensures IsCut([[]] + bands, ws)
  {
  }

  lemma {:induction false} GreedyCutFits(fill: nat, ws: seq<nat>)
    requires fill <= COLUMNS && forall i :: 0 <= i < |ws| ==> ws[i] <= COLUMNS
    ensures IsCut(GreedyCut(fill, ws), ws) && fill + Sum(GreedyCut(fill, ws)[0]) <= COLUMNS
    decreases |ws|
  {
    if ws != [] {
      var opens := fill + ws[0] > COLUMNS;
      var fill' := if opens then ws[0] else fill + ws[0];
      GreedyCutFits(fill', ws[1..]);
      var rest := GreedyCut(fill', ws[1..]);
      Prepended(ws[0], rest, ws[1..]);
      assert ws == [ws[0]] + ws[1..];
      if opens {
        EmptyBandFirst([[ws[0]] + rest[0]] + rest[1..], ws);
      }
    }
  }

  lemma {:induction false} AfterConcat(st: State, rs: seq<Request>, qs: seq<Request>)
    ensures After(st, rs + qs) == After(After(st, rs), qs)
  {
    if qs == [] {
      assert rs + qs == rs;
    } else {
      assert (rs + qs)[..|rs| + |qs| - 1] == rs + qs[..|qs| - 1];
      AfterConcat(st, rs, qs[..|qs| - 1]);
    }
  }

  /** Where a run of graphs between rows can begin: at the very start or under a row. */
  predicate SectionStart(before: seq<Request>)
  {
    before == [] || before[|before| - 1] == Row
  }

  /** Height added by the graphs that follow. */
  function Height(before: seq<Request>, graphs: seq<Request>): int
  {
    Bottom(After(START, before + graphs)) - Bottom(After(START, before))
  }

  /** At a section start the current band takes no graph: it is a row's, or there is none yet. */
  predicate NoOpenBand(st: State)
  {
    (Fill(st) == COLUMNS && st.h == 1) || (Fill(st) == 0 && st.h == 0)
  }

  lemma HeightFromStart(st: State, graphs: seq<Request>)
    requires NoOpenBand(st) && Graphs(graphs)
    ensures Bottom(After(st, graphs)) == Bottom(st) + GRAPH_HEIGHT * NewBands(COLUMNS, Widths(graphs))
  {
    if graphs != [] {
      AfterFirst(st, graphs);
      HeightOfGraphs(Place(st, graphs[0]), graphs[1..]);
      assert Widths(graphs)[1..] == Widths(graphs[1..]);
    }
  }

  lemma SectionHeight(before: seq<Request>, graphs: seq<Request>)
    requires SectionStart(before) && Graphs(graphs)
    ensures Height(before, graphs) == GRAPH_HEIGHT * NewBands(COLUMNS, Widths(graphs))
  {
    AfterConcat(START, before, graphs);
    HeightFromStart(After(START, before), graphs);
  }

  /**
   Between rows, a run of graphs takes eight times the fewest bands that any division of the run,
   in order, into bands of at most 24 columns has.
   */
  lemma LayoutOptimal(before: seq<Request>, graphs: seq<Request>)
    requires SectionStart(before) && Graphs(graphs)
    ensures forall bands :: IsCut(bands, Widths(graphs)) ==> Height(before, graphs) <= GRAPH_HEIGHT * |bands|
    ensures exists bands :: IsCut(bands, Widths(graphs)) && Height(before, graphs) == GRAPH_HEIGHT * |bands|
  {
    var ws := Widths(graphs);
    SectionHeight(before, graphs);
    forall bands | IsCut(bands, ws) ensures NewBands(COLUMNS, ws) <= |bands| {
      EmptyBandFirst(bands, ws);
      NoCutIsBetter(COLUMNS, ws, [[]] + bands);
    }
    GreedyCutFits(COLUMNS, ws);
    var bands := GreedyCut(COLUMNS, ws);
    assert bands[0] == [];
    assert Flatten(bands) == Flatten(bands[1..]);
    assert IsCut(bands[1..], ws) && |bands[1..]| == NewBands(COLUMNS, ws);
  }

  // ---------------------------------------------------------------- density

  ghost predicate GraphWidths(ws: seq<nat>)
  {
    forall i :: 0 <= i < |ws| ==> ws[i] == 8 || ws[i] == 12
  }

  /** Columns a graph band can be filled to. */
  ghost predicate GraphFill(fill: nat)
  {
    fill == 8 || fill == 12 || fill == 16 || fill == 20 || fill == 24
  }

  lemma PlaceFill(st: State, r: Request)
    requires Fill(st) == 0 || GraphFill(Fill(st))
    ensures GraphFill(Fill(Place(st, r)))
  {
  }

  lemma {:induction false} FillIsRegular(rs: seq<Request>)
    requires rs != []
    ensures GraphFill(Fill(After(START, rs)))
  {
    var n := |rs| - 1;
    if n > 0 { FillIsRegular(rs[..n]); }
    PlaceFill(After(START, rs[..n]), rs[n]);
  }

  /** In every run, a band of graphs that a graph closes is at least two thirds full. */
  lemma ClosedBandsAreFull(rs: seq<Request>, r: Request)
    requires rs != [] && rs[|rs| - 1] != Row && r != Row
    ensures GraphFill(Fill(After(START, rs)))
    ensures After(START, rs + [r]).y != After(START, rs).y ==> Fill(After(START, rs)) >= 16
  {
    assert (rs + [r])[..|rs|] == rs;
    FillIsRegular(rs);
  }

  /** Each band opened after the first has paid for itself with sixteen columns of the one before. */
  lemma {:induction false} BandsPaidFor(fill: nat, ws: seq<nat>)
    requires GraphFill(fill) && GraphWidths(ws)
    ensures 16 * NewBands(fill, ws) + 8 <= fill + Sum(ws)
    decreases |ws|
  {
    if ws != [] {
      BandsPaidFor(if fill + ws[0] > COLUMNS then ws[0] else fill + ws[0], ws[1..]);
    }
  }

  /** Between rows, a non-empty run of graphs of total width W takes a height of at most W/2 + 4. */
  lemma LayoutDense(before: seq<Request>, graphs: seq<Request>)
    requires SectionStart(before) && Graphs(graphs) && graphs != []
    ensures 2 * Height(before, graphs) <= Sum(Widths(graphs)) + 8
  {
    var ws := Widths(graphs);
    SectionHeight(before, graphs);
    assert NewBands(COLUMNS, ws) == 1 + NewBands(ws[0], ws[1..]);
    BandsPaidFor(ws[0], ws[1..]);
  }
}
