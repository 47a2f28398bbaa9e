/** Small shared vocabulary: an optional value and rectangular grids. */
module Common {

  /** Rust's `Option<T>`. */
  datatype Option<+T> = None | Some(value: T)

  /** `g` has exactly `height` rows of exactly `width` cells (the shape of
      every `Vec<Vec<_>>` grid the game keeps). */
  ghost predicate IsGrid<T>(g: seq<seq<T>>, width: nat, height: nat)
  {
    |g| == height && forall y :: 0 <= y < height ==> |g[y]| == width
  }

  /** `g` with the single cell `(x, y)` replaced by `v`. */
  function SetCell<T>(g: seq<seq<T>>, x: nat, y: nat, v: T): (r: seq<seq<T>>)
    requires y < |g| && x < |g[y]|
    ensures |r| == |g| && |r[y]| == |g[y]| && r[y][x] == v
    ensures forall j :: 0 <= j < |g| && j != y ==> r[j] == g[j]
    ensures forall i :: 0 <= i < |g[y]| && i != x ==> r[y][i] == g[y][i]
  {
    g[y := g[y][x := v]]
  }

  lemma SetCellKeepsGrid<T>(g: seq<seq<T>>, width: nat, height: nat, x: nat, y: nat, v: T)
    requires IsGrid(g, width, height) && x < width && y < height
    ensures IsGrid(SetCell(g, x, y, v), width, height)
  {
  }
}
