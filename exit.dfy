/** `enable_exit`: once the last gold is collected, hidden ladders appear so
    the player can climb off the top of the map. Either the level lists the
    exact cells, or ladders are extended upward from the top of existing
    ladder columns. Every change turns an Empty cell into a HiddenLadder. */
module Exit {
  import opened Common
  import opened Tiles
  import opened World
  import opened StepBase

  /** `t2` differs from `t1` only where an Empty cell became a HiddenLadder. */
  ghost predicate OnlyLadders(t1: seq<seq<Tile>>, t2: seq<seq<Tile>>, width: nat, height: nat)
  {
    IsGrid(t1, width, height) && IsGrid(t2, width, height)
    && forall y, x :: 0 <= y < height && 0 <= x < width ==>
         t2[y][x] == t1[y][x] || (t1[y][x] == Empty && t2[y][x] == HiddenLadder)
  }

  lemma OnlyLaddersTrans(t1: seq<seq<Tile>>, t2: seq<seq<Tile>>, t3: seq<seq<Tile>>, width: nat, height: nat)
    requires OnlyLadders(t1, t2, width, height) && OnlyLadders(t2, t3, width, height)
    ensures OnlyLadders(t1, t3, width, height)
  {
  }

  /** Rows with the same gold cells hold the same gold. */
  lemma {:induction false} SameRowGold(a: seq<Tile>, b: seq<Tile>)
    requires |a| == |b| && forall x :: 0 <= x < |a| ==> (a[x] == Gold <==> b[x] == Gold)
    ensures RowGold(a) == RowGold(b)
    decreases |a|
  {
    if |a| > 0 {
      SameRowGold(a[..|a| - 1], b[..|b| - 1]);
    }
  }

  /** Maps with the same gold cells hold the same gold. */
  lemma {:induction false} SameGoldCount(a: seq<seq<Tile>>, b: seq<seq<Tile>>)
    requires |a| == |b|
    requires forall y :: 0 <= y < |a| ==> |a[y]| == |b[y]|
    requires forall y, x :: 0 <= y < |a| && 0 <= x < |a[y]| ==> (a[y][x] == Gold <==> b[y][x] == Gold)
    ensures GoldCount(a) == GoldCount(b)
    decreases |a|
  {
    if |a| > 0 {
      var n := |a| - 1;
      SameGoldCount(a[..n], b[..n]);
      SameRowGold(a[n], b[n]);
    }
  }

  /** Revealing ladders keeps the world invariant: no gold and no brick
      appears or disappears. */
  lemma LaddersKeepInv(f: WorldFields, t: seq<seq<Tile>>)
    requires Inv(f) && OnlyLadders(f.tiles, t, f.width, f.height)
    ensures Inv(f.(tiles := t)) && GoldCount(t) == GoldCount(f.tiles)
  {
    SameGoldCount(t, f.tiles);
  }

  // ---------------------------------------------------------------------
  // Method 1: the listed cells
  // ---------------------------------------------------------------------

  /** The tiles after revealing the listed cells in order: an in-bounds Empty
      cell becomes a HiddenLadder, anything else stays. */
  function Revealed(tiles: seq<seq<Tile>>, width: nat, height: nat, ps: seq<(nat, nat)>): (r: seq<seq<Tile>>)
    requires IsGrid(tiles, width, height)
    ensures OnlyLadders(tiles, r, width, height)
    decreases |ps|
  {
    if |ps| == 0 then tiles
    else
      var prev := Revealed(tiles, width, height, ps[..|ps| - 1]);
      var x, y := ps[|ps| - 1].0, ps[|ps| - 1].1;
      var next := if y < height && x < width && prev[y][x] == Empty then SetCell(prev, x, y, HiddenLadder) else prev;
      OnlyLaddersTrans(tiles, prev, next, width, height);
      next
  }

  /** Exactly the listed Empty cells become hidden ladders. */
  lemma {:induction false} RevealedCells(tiles: seq<seq<Tile>>, width: nat, height: nat, ps: seq<(nat, nat)>, cx: nat, cy: nat)
    requires IsGrid(tiles, width, height) && cx < width && cy < height
    ensures Revealed(tiles, width, height, ps)[cy][cx]
            == if tiles[cy][cx] == Empty && (cx, cy) in ps then HiddenLadder else tiles[cy][cx]
    decreases |ps|
  {
    if |ps| > 0 {
      var init := ps[..|ps| - 1];
      RevealedCells(tiles, width, height, init, cx, cy);
      assert ps == init + [ps[|ps| - 1]];
    }
  }

  // ---------------------------------------------------------------------
  // Method 2: ladder columns
  // ---------------------------------------------------------------------

  /** The first row at or below `y` whose cell in column `x` is climbable. */
  function FirstClimbableFrom(tiles: seq<seq<Tile>>, width: nat, height: nat, x: nat, y: nat): (r: Option<nat>)
    requires IsGrid(tiles, width, height)
    ensures r.Some? ==> y <= r.value < height && x < width && IsClimbable(tiles[r.value][x])
    ensures forall k :: y <= k < height && x < width && (r.None? || k < r.value) ==> !IsClimbable(tiles[k][x])
    decreases height - y
  {
    if y >= height then None
    else if x < width && IsClimbable(tiles[y][x]) then Some(y)
    else FirstClimbableFrom(tiles, width, height, x, y + 1)
  }

  /** The topmost climbable row of column `x`, if it has one. */
  function TopClimbable(tiles: seq<seq<Tile>>, width: nat, height: nat, x: nat): Option<nat>
    requires IsGrid(tiles, width, height)
  {
    FirstClimbableFrom(tiles, width, height, x, 0)
  }

  /** The columns among 0 .. k-1 that contain a climbable cell, ascending. */
  function AutoColumnsUpTo(tiles: seq<seq<Tile>>, width: nat, height: nat, k: nat): (cols: seq<nat>)
    requires IsGrid(tiles, width, height)
    ensures forall i :: 0 <= i < |cols| ==> cols[i] < k && TopClimbable(tiles, width, height, cols[i]).Some?
    ensures forall x :: 0 <= x < k && TopClimbable(tiles, width, height, x).Some? ==> x in cols
    decreases k
  {
    if k == 0 then []
    else
      AutoColumnsUpTo(tiles, width, height, k - 1)
      + (if TopClimbable(tiles, width, height, k - 1).Some? then [k - 1] else [])
  }

  /** Every column of the map that contains a climbable cell. */
  function AutoColumns(tiles: seq<seq<Tile>>, width: nat, height: nat): seq<nat>
    requires IsGrid(tiles, width, height)
  {
    AutoColumnsUpTo(tiles, width, height, width)
  }

  /** The tiles after filling rows 0 .. k-1 of column `x`: each Empty cell
      becomes a HiddenLadder; also whether any cell was filled. */
  function FillAbove(tiles: seq<seq<Tile>>, width: nat, height: nat, x: nat, k: nat): (r: (seq<seq<Tile>>, bool))
    requires IsGrid(tiles, width, height) && k <= height
    ensures IsGrid(r.0, width, height)
    ensures forall y, c :: 0 <= y < height && 0 <= c < width ==>
      r.0[y][c] == if c == x && y < k && tiles[y][c] == Empty then HiddenLadder else tiles[y][c]
    ensures r.1 <==> x < width && exists y :: 0 <= y < k && tiles[y][x] == Empty
    ensures !r.1 ==> r.0 == tiles
    decreases k
  {
    if k == 0 then (tiles, false)
    else
      var prev := FillAbove(tiles, width, height, x, k - 1);
      if x < width && prev.0[k - 1][x] == Empty then (SetCell(prev.0, x, k - 1, HiddenLadder), true)
      else prev
  }

  /** One column extended: when column `x` has a climbable cell, the Empty
      cells above the topmost one become hidden ladders. */
  function ExtendedColumn(tiles: seq<seq<Tile>>, width: nat, height: nat, x: nat): (r: (seq<seq<Tile>>, bool))
    requires IsGrid(tiles, width, height)
    ensures OnlyLadders(tiles, r.0, width, height)
    ensures !r.1 ==> r.0 == tiles
  {
    match TopClimbable(tiles, width, height, x)
    case None => (tiles, false)
    case Some(ly) => FillAbove(tiles, width, height, x, ly)
  }

  /** The listed columns extended in order; also whether any cell changed. */
  function ExtendedColumns(tiles: seq<seq<Tile>>, width: nat, height: nat, cols: seq<nat>): (r: (seq<seq<Tile>>, bool))
    requires IsGrid(tiles, width, height)
    ensures OnlyLadders(tiles, r.0, width, height)
    ensures !r.1 ==> r.0 == tiles
    decreases |cols|
  {
    if |cols| == 0 then (tiles, false)
    else
      var prev := ExtendedColumns(tiles, width, height, cols[..|cols| - 1]);
      var c := ExtendedColumn(prev.0, width, height, cols[|cols| - 1]);
      OnlyLaddersTrans(tiles, prev.0, c.0, width, height);
      (c.0, prev.1 || c.1)
  }

  /** Filling a column makes every cell above its topmost ladder climbable
      or leaves it as it was when it was not Empty. */
  lemma ExtendedColumnReachesTop(tiles: seq<seq<Tile>>, width: nat, height: nat, x: nat)
    requires IsGrid(tiles, width, height)
    ensures var r := ExtendedColumn(tiles, width, height, x).0;
      match TopClimbable(tiles, width, height, x)
      case None => r == tiles
      case Some(ly) => forall y :: 0 <= y < ly ==> r[y][x] == (if tiles[y][x] == Empty then HiddenLadder else tiles[y][x])
  {
  }

  // ---------------------------------------------------------------------
  // enable_exit
  // ---------------------------------------------------------------------

  /** The world after `enable_exit`. The exit is enabled. With listed
      hidden-ladder cells, exactly the listed Empty cells become hidden
      ladders. Otherwise the level's exit columns (every column with a
      ladder when it lists none) are extended upward; if listed columns
      changed nothing, every column with a ladder is extended instead. Only
      Empty cells change, each into a HiddenLadder. */
  function ExitOpened(f: WorldFields): (r: WorldFields)
    requires Shaped(f)
    ensures r == f.(exitEnabled := true, tiles := r.tiles)
    ensures OnlyLadders(f.tiles, r.tiles, f.width, f.height)
    ensures |f.hiddenLadderPositions| > 0 ==>
      r.tiles == Revealed(f.tiles, f.width, f.height, f.hiddenLadderPositions)
  {
    var w, h := f.width, f.height;
    if |f.hiddenLadderPositions| > 0 then
      f.(exitEnabled := true, tiles := Revealed(f.tiles, w, h, f.hiddenLadderPositions))
    else
      var cols := if |f.exitColumns| == 0 then AutoColumns(f.tiles, w, h) else f.exitColumns;
      var e := ExtendedColumns(f.tiles, w, h, cols);
      if !e.1 && |f.exitColumns| > 0 then
        f.(exitEnabled := true, tiles := ExtendedColumns(e.0, w, h, AutoColumns(e.0, w, h)).0)
      else f.(exitEnabled := true, tiles := e.0)
  }

  lemma ExitOpenedKeepsInv(f: WorldFields)
    requires Inv(f)
    ensures Inv(ExitOpened(f)) && GoldCount(ExitOpened(f).tiles) == GoldCount(f.tiles)
  {
    LaddersKeepInv(f, ExitOpened(f).tiles);
  }

  // ---------------------------------------------------------------------
  // In place
  // ---------------------------------------------------------------------

  /** Method 1, in place. */
  method RevealListed(w: WorldState, ps: seq<(nat, nat)>)
    requires Shaped(w.Fields())
    modifies w
    ensures w.Fields() == old(w.Fields()).(tiles := Revealed(old(w.tiles), old(w.width), old(w.height), ps))
  {
    ghost var f := w.Fields();
    for k := 0 to |ps|
      invariant w.Fields() == f.(tiles := Revealed(f.tiles, f.width, f.height, ps[..k]))
    {
      assert ps[..k + 1][..k] == ps[..k];
      var x, y := ps[k].0, ps[k].1;
      if y < w.height && x < w.width {
        if w.TerrainAt(x, y) == Empty {
          w.SetTile(x, y, HiddenLadder);
        }
      }
    }
    assert ps[..|ps|] == ps;
  }

  /** The topmost climbable row of column `x`, by a downward scan. */
  method TopLadderRow(w: WorldState, x: nat) returns (top: Option<nat>)
    requires Shaped(w.Fields())
    ensures top == TopClimbable(w.tiles, w.width, w.height, x)
  {
    top := None;
    for y := 0 to w.height
      invariant forall k :: 0 <= k < y && x < w.width ==> !IsClimbable(w.tiles[k][x])
    {
      if IsClimbable(w.TerrainAt(x, y)) {
        top := Some(y);
        break;
      }
    }
  }

  /** Every column with a climbable cell, by scanning the columns in order. */
  method AutoDetectColumns(w: WorldState) returns (cols: seq<nat>)
    requires Shaped(w.Fields())
    ensures cols == AutoColumns(w.tiles, w.width, w.height)
  {
    cols := [];
    for x := 0 to w.width
      invariant cols == AutoColumnsUpTo(w.tiles, w.width, w.height, x)
    {
      var top := TopLadderRow(w, x);
      if top.Some? {
        cols := cols + [x];
      }
    }
  }

  /** Rows 0 .. ly-1 of column `x` filled, in place. */
  method FillColumn(w: WorldState, x: nat, ly: nat) returns (placed: bool)
    requires Shaped(w.Fields()) && ly <= w.height
    modifies w
    ensures var r := FillAbove(old(w.tiles), old(w.width), old(w.height), x, ly);
      w.Fields() == old(w.Fields()).(tiles := r.0) && placed == r.1
  {
    ghost var f := w.Fields();
    placed := false;
    for y := 0 to ly
      invariant w.Fields() == f.(tiles := FillAbove(f.tiles, f.width, f.height, x, y).0)
      invariant placed == FillAbove(f.tiles, f.width, f.height, x, y).1
    {
      if w.TerrainAt(x, y) == Empty {
        w.SetTile(x, y, HiddenLadder);
        placed := true;
      }
    }
  }

  /** The listed columns extended in order, in place. */
  method ExtendColumns(w: WorldState, cols: seq<nat>) returns (placedAny: bool)
    requires Shaped(w.Fields())
    modifies w
    ensures var r := ExtendedColumns(old(w.tiles), old(w.width), old(w.height), cols);
      w.Fields() == old(w.Fields()).(tiles := r.0) && placedAny == r.1
  {
    ghost var f := w.Fields();
    placedAny := false;
    for k := 0 to |cols|
      invariant w.Fields() == f.(tiles := ExtendedColumns(f.tiles, f.width, f.height, cols[..k]).0)
      invariant placedAny == ExtendedColumns(f.tiles, f.width, f.height, cols[..k]).1
    {
      assert cols[..k + 1][..k] == cols[..k];
      var top := TopLadderRow(w, cols[k]);
      if top.Some? {
        var placed := FillColumn(w, cols[k], top.value);
        placedAny := placedAny || placed;
      }
    }
    assert cols[..|cols|] == cols;
  }

  /** `enable_exit`, in place. */
  method EnableExit(w: WorldState)
    requires Shaped(w.Fields())
    modifies w
    ensures w.Fields() == ExitOpened(old(w.Fields()))
  {
    w.exitEnabled := true;
    if |w.hiddenLadderPositions| > 0 {
      RevealListed(w, w.hiddenLadderPositions);
      return;
    }
    var columns: seq<nat>;
    if |w.exitColumns| == 0 {
      columns := AutoDetectColumns(w);
    } else {
      columns := w.exitColumns;
    }
    var placedAny := ExtendColumns(w, columns);
    if !placedAny && |w.exitColumns| > 0 {
      var autoColumns := AutoDetectColumns(w);
      placedAny := ExtendColumns(w, autoColumns);
    }
  }
}
