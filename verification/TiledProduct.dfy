// The tiled multiply-accumulate (src/xecuda_xmx.cpp, xeXmxMultiplyAccumulate): C += A * B, one
// tile of C at a time, the tiles in any order.
module TiledProduct {
  import opened Division
  import opened Options
  import opened RangeSums
  import opened Values

  const TILE: nat := 32

  // A is m by k, B is k by n and C is m by n, each row by row.
  datatype Shape = Shape(m: nat, k: nat, n: nat)

  datatype Rect = Rect(i0: nat, i1: nat, j0: nat, j1: nat)

  predicate In(q: Rect, r: nat, s: nat) {
    q.i0 <= r < q.i1 && q.j0 <= s < q.j1
  }

  // The first terms of row r of A times column s of B.
  function Cell(a: Vec, b: Vec, d: Shape, r: nat, s: nat, count: nat): real {
    if count == 0 then 0.0 else Cell(a, b, d, r, s, count - 1) + At(a, r * d.k + (count - 1)) * At(b, (count - 1) * d.n + s)
  }

  function EntryOf(c: Vec, d: Shape, r: nat, s: nat): real {
    At(c, r * d.n + s)
  }

  ghost predicate SameTail(was: Vec, now: Vec, from: nat) {
    |was| == |now| && forall x :: from <= x < |was| ==> now[x] == was[x]
  }

  // The entries of the rectangle have had their products added, no others changed.
  ghost predicate AddedIn(was: Vec, now: Vec, a: Vec, b: Vec, d: Shape, q: Rect) {
    && SameTail(was, now, d.m * d.n)
    && forall r: nat, s: nat :: r < d.m && s < d.n ==>
         EntryOf(now, d, r, s) == EntryOf(was, d, r, s) + if In(q, r, s) then Cell(a, b, d, r, s, d.k) else 0.0
  }

  ghost predicate Parts(whole: Rect, p: Rect, q: Rect) {
    forall r: nat, s: nat :: (In(whole, r, s) <==> In(p, r, s) || In(q, r, s)) && !(In(p, r, s) && In(q, r, s))
  }

  lemma AddParts(was: Vec, mid: Vec, now: Vec, a: Vec, b: Vec, d: Shape, p: Rect, q: Rect, whole: Rect)
    requires AddedIn(was, mid, a, b, d, p) && AddedIn(mid, now, a, b, d, q) && Parts(whole, p, q)
    ensures AddedIn(was, now, a, b, d, whole)
  {
  }

  lemma PlacesApart(d: Shape, r: nat, s: nat, u: nat, v: nat)
    requires s < d.n && v < d.n && (r != u || s != v)
    ensures r * d.n + s != u * d.n + v
  {
    if r < u { NextMultiple(r, u, d.n); } else if u < r { NextMultiple(u, r, d.n); }
  }

  lemma PlaceFits(d: Shape, r: nat, s: nat)
    requires r < d.m && s < d.n
    ensures r * d.n + s < d.m * d.n
  {
    NextMultiple(r, d.m, d.n);
  }

  ghost predicate Sized(d: Shape, a: Vec, b: Vec, size: nat) {
    d.m * d.k <= |a| && d.k * d.n <= |b| && d.m * d.n <= size
  }

  method DotCell(a: seq<real>, b: seq<real>, d: Shape, r: nat, s: nat) returns (sum: real)
    requires d.m * d.k <= |a| && d.k * d.n <= |b| && r < d.m && s < d.n
    ensures sum == Cell(a, b, d, r, s, d.k)
  {
    sum := 0.0;
    NextMultiple(r, d.m, d.k);
    for kk := 0 to d.k
      invariant sum == Cell(a, b, d, r, s, kk)
    {
      NextMultiple(kk, d.k, d.n);
      sum := sum + a[r * d.k + kk] * b[kk * d.n + s];
    }
  }

  lemma OneAdded(was: Vec, now: Vec, a: Vec, b: Vec, d: Shape, r: nat, s: nat)
    requires |was| == |now| && d.m * d.n <= |was| && r < d.m && s < d.n && r * d.n + s < |was|
    requires now == was[r * d.n + s := was[r * d.n + s] + Cell(a, b, d, r, s, d.k)]
    ensures AddedIn(was, now, a, b, d, Rect(r, r + 1, s, s + 1))
  {
    PlaceFits(d, r, s);
    forall u: nat, v: nat | u < d.m && v < d.n
      ensures EntryOf(now, d, u, v) == EntryOf(was, d, u, v) + if In(Rect(r, r + 1, s, s + 1), u, v) then Cell(a, b, d, u, v, d.k) else 0.0
    {
      PlaceFits(d, u, v);
      if u != r || v != s { PlacesApart(d, r, s, u, v); }
    }
  }

  method AddCell(a: seq<real>, b: seq<real>, c: array<real>, d: Shape, r: nat, s: nat)
    requires Sized(d, a, b, c.Length) && r < d.m && s < d.n
    modifies c
    ensures AddedIn(old(c[..]), c[..], a, b, d, Rect(r, r + 1, s, s + 1))
  {
    ghost var was := c[..];
    var sum := DotCell(a, b, d, r, s);
    PlaceFits(d, r, s);
    c[r * d.n + s] := c[r * d.n + s] + sum;
    OneAdded(was, c[..], a, b, d, r, s);
  }

  method AddRow(a: seq<real>, b: seq<real>, c: array<real>, d: Shape, r: nat, j: nat, jEnd: nat)
    requires Sized(d, a, b, c.Length) && r < d.m && j <= jEnd <= d.n
    modifies c
    ensures AddedIn(old(c[..]), c[..], a, b, d, Rect(r, r + 1, j, jEnd))
  {
    ghost var was := c[..];
    for jj := j to jEnd
      invariant AddedIn(was, c[..], a, b, d, Rect(r, r + 1, j, jj))
    {
      ghost var mid := c[..];
      AddCell(a, b, c, d, r, jj);
      AddParts(was, mid, c[..], a, b, d, Rect(r, r + 1, j, jj), Rect(r, r + 1, jj, jj + 1), Rect(r, r + 1, j, jj + 1));
    }
  }

  method AddTile(a: seq<real>, b: seq<real>, c: array<real>, d: Shape, q: Rect)
    requires Sized(d, a, b, c.Length) && q.i0 <= q.i1 <= d.m && q.j0 <= q.j1 <= d.n
    modifies c
    ensures AddedIn(old(c[..]), c[..], a, b, d, q)
  {
    ghost var was := c[..];
    for ii := q.i0 to q.i1
      invariant AddedIn(was, c[..], a, b, d, q.(i1 := ii))
    {
      ghost var mid := c[..];
      AddRow(a, b, c, d, ii, q.j0, q.j1);
      AddParts(was, mid, c[..], a, b, d, q.(i1 := ii), Rect(ii, ii + 1, q.j0, q.j1), q.(i1 := ii + 1));
    }
  }

  // ---- all tiles ---------------------------------------------------------------------------------------

  function TilesIn(extent: nat): nat {
    (extent + (TILE - 1)) / TILE
  }

  function Min(x: nat, y: nat): nat {
    if x < y then x else y
  }

  // Tile (x, y) counted row by row.
  function TileRect(d: Shape, t: nat): Rect
    requires d.n > 0
  {
    var i, j := t / TilesIn(d.n) * TILE, t % TilesIn(d.n) * TILE;
    Rect(i, Min(i + TILE, d.m), j, Min(j + TILE, d.n))
  }

  function TileOf(d: Shape, r: nat, s: nat): nat {
    r / TILE * TilesIn(d.n) + s / TILE
  }

  lemma InsideTiles(s: nat, extent: nat)
    requires s < extent
    ensures s / TILE < TilesIn(extent)
  {
  }

  // Each entry lies in one tile.
  lemma TileHolds(d: Shape, t: nat, r: nat, s: nat)
    requires r < d.m && s < d.n
    ensures In(TileRect(d, t), r, s) <==> TileOf(d, r, s) == t
  {
    var w, x, y := TilesIn(d.n), r / TILE, s / TILE;
    InsideTiles(s, d.n);
    DivMod(x, y, w);
    assert t == t / w * w + t % w;
  }

  ghost predicate AddedTiles(was: Vec, now: Vec, a: Vec, b: Vec, d: Shape, tiles: set<nat>) {
    && SameTail(was, now, d.m * d.n)
    && forall r: nat, s: nat :: r < d.m && s < d.n ==>
         EntryOf(now, d, r, s) == EntryOf(was, d, r, s) + if TileOf(d, r, s) in tiles then Cell(a, b, d, r, s, d.k) else 0.0
  }

  lemma TileBelow(d: Shape, r: nat, s: nat)
    requires r < d.m && s < d.n
    ensures TileOf(d, r, s) < TilesIn(d.m) * TilesIn(d.n)
  {
    InsideTiles(r, d.m);
    InsideTiles(s, d.n);
    NextMultiple(r / TILE, TilesIn(d.m), TilesIn(d.n));
  }

  lemma TileAdded(was: Vec, mid: Vec, now: Vec, a: Vec, b: Vec, d: Shape, tiles: set<nat>, t: nat)
    requires d.n > 0 && t !in tiles
    requires AddedTiles(was, mid, a, b, d, tiles) && AddedIn(mid, now, a, b, d, TileRect(d, t))
    ensures AddedTiles(was, now, a, b, d, tiles + {t})
  {
    forall r: nat, s: nat | r < d.m && s < d.n
      ensures EntryOf(now, d, r, s) == EntryOf(was, d, r, s) + if TileOf(d, r, s) in tiles + {t} then Cell(a, b, d, r, s, d.k) else 0.0
    {
      TileHolds(d, t, r, s);
    }
  }

  ghost predicate Schedule(order: seq<nat>, total: nat) {
    && (forall t: nat :: t in order <==> t < total)
    && (forall i, j :: 0 <= i < j < |order| ==> order[i] != order[j])
  }

  // Every entry of C grows by its product.
  ghost predicate Multiplied(was: Vec, now: Vec, a: Vec, b: Vec, d: Shape) {
    && SameTail(was, now, d.m * d.n)
    && forall r: nat, s: nat :: r < d.m && s < d.n ==> EntryOf(now, d, r, s) == EntryOf(was, d, r, s) + Cell(a, b, d, r, s, d.k)
  }

  lemma AllTiles(was: Vec, now: Vec, a: Vec, b: Vec, d: Shape, order: seq<nat>, tiles: set<nat>)
    requires Schedule(order, TilesIn(d.m) * TilesIn(d.n)) && (forall t: nat :: t in tiles <==> t in order)
    requires AddedTiles(was, now, a, b, d, tiles)
    ensures Multiplied(was, now, a, b, d)
  {
    forall r: nat, s: nat | r < d.m && s < d.n
      ensures EntryOf(now, d, r, s) == EntryOf(was, d, r, s) + Cell(a, b, d, r, s, d.k)
    {
      TileBelow(d, r, s);
      assert TileOf(d, r, s) in tiles;
    }
  }

  // Both extents of a tile, cut at the edge of C.
  lemma RectInside(d: Shape, t: nat)
    requires t < TilesIn(d.m) * TilesIn(d.n)
    ensures d.n > 0 && var q := TileRect(d, t); q.i0 <= q.i1 <= d.m && q.j0 <= q.j1 <= d.n
  {
    var w := TilesIn(d.n);
    if t / w >= TilesIn(d.m) { Widen(TilesIn(d.m), t / w, w); }
    BeginsInside(t / w, d.m);
    BeginsInside(t % w, d.n);
  }

  lemma BeginsInside(x: nat, extent: nat)
    requires x < TilesIn(extent)
    ensures x * TILE < extent
  {
  }

  method AddTiles(a: seq<real>, b: seq<real>, c: array<real>, d: Shape, order: seq<nat>)
    requires Sized(d, a, b, c.Length) && Schedule(order, TilesIn(d.m) * TilesIn(d.n))
    modifies c
    ensures Multiplied(old(c[..]), c[..], a, b, d)
  {
    ghost var was, tiles := c[..], {};
    for x := 0 to |order|
      invariant forall t: nat :: t in tiles <==> t in order[..x]
      invariant AddedTiles(was, c[..], a, b, d, tiles)
    {
      ghost var mid := c[..];
      var t := order[x];
      assert t in order;
      RectInside(d, t);
      AddTile(a, b, c, d, TileRect(d, t));
      TileAdded(was, mid, c[..], a, b, d, tiles, t);
      tiles := tiles + {t};
    }
    assert order[..|order|] == order;
    AllTiles(was, c[..], a, b, d, order, tiles);
  }

  datatype Tile = Tile(rows: nat, cols: nat, data: Option<seq<real>>)

  // Both factors are there with their data, so is the data of C, and the inner sizes agree.
  predicate Accepted(a: Option<Tile>, b: Option<Tile>, c: array?<real>) {
    a.Some? && b.Some? && a.value.data.Some? && b.value.data.Some? && c != null && a.value.cols == b.value.rows
  }

  function ShapeOf(a: Tile, b: Tile): Shape {
    Shape(a.rows, a.cols, b.cols)
  }

  // Tiles that are missing, have no data or do not match are refused; else C grows by the
  // product of A and B, whatever the order of the tiles.
  method MultiplyAccumulate(a: Option<Tile>, b: Option<Tile>, c: array?<real>, order: seq<nat>) returns (ok: bool)
    requires Accepted(a, b, c) ==>
               && Sized(ShapeOf(a.value, b.value), a.value.data.value, b.value.data.value, c.Length)
               && Schedule(order, TilesIn(a.value.rows) * TilesIn(b.value.cols))
    modifies c
    ensures ok <==> Accepted(a, b, c)
    ensures !ok && c != null ==> c[..] == old(c[..])
    ensures ok ==> Multiplied(old(c[..]), c[..], a.value.data.value, b.value.data.value, ShapeOf(a.value, b.value))
  {
    if a.None? || b.None? || c == null {
      return false;
    }
    if a.value.data.None? || b.value.data.None? {
      return false;
    }
    if a.value.cols != b.value.rows {
      return false;
    }
    AddTiles(a.value.data.value, b.value.data.value, c, ShapeOf(a.value, b.value), order);
    return true;
  }

  // ---- entries as sums -----------------------------------------------------------------------------------

  lemma {:induction false} CellIsSum(a: Vec, b: Vec, d: Shape, r: nat, s: nat, count: nat, f: nat -> real)
    requires forall x: nat :: f(x) == At(a, r * d.k + x) * At(b, x * d.n + s)
    ensures Cell(a, b, d, r, s, count) == Sum(f, 0, count)
  {
    if count > 0 { CellIsSum(a, b, d, r, s, count - 1, f); }
  }

  // Entry (r, s) of C has grown by the sum of row r of A times column s of B.
  lemma EntryGrows(was: Vec, now: Vec, a: Vec, b: Vec, d: Shape, r: nat, s: nat)
    requires Multiplied(was, now, a, b, d) && Sized(d, a, b, |was|) && r < d.m && s < d.n
    ensures r * d.n + s < |was| == |now|
    ensures now[r * d.n + s] == was[r * d.n + s] + Sum((x: nat) => At(a, r * d.k + x) * At(b, x * d.n + s), 0, d.k)
  {
    PlaceFits(d, r, s);
    CellIsSum(a, b, d, r, s, d.k, (x: nat) => At(a, r * d.k + x) * At(b, x * d.n + s));
    assert EntryOf(now, d, r, s) == EntryOf(was, d, r, s) + Cell(a, b, d, r, s, d.k);
  }
}
