// The kernel launcher (include/xecuda_kernel.h, xeCudaLaunchKernel): one flat loop over all
// threads of all blocks, with 32-bit divisors.
module Launcher {
  import opened Division
  import opened MixedRadix

  const WORD32: nat := 0x1_0000_0000
  const WORD64: nat := 0x1_0000_0000_0000_0000

  datatype Dim3 = Dim3(x: nat, y: nat, z: nat)

  // blockIdx and threadIdx as one call of the kernel sees them.
  datatype Context = Context(bid: Dim3, tid: Dim3)

  function Mul32(a: nat, b: nat): nat {
    (a * b) % WORD32
  }

  function Mul64(a: nat, b: nat): nat {
    (a * b) % WORD64
  }

  // Threads vary fastest, blocks slowest.
  function Radices(grid: Dim3, block: Dim3): seq<nat> {
    [block.x, block.y, block.z, grid.x, grid.y, grid.z]
  }

  function InnerProduct(grid: Dim3, block: Dim3): nat {
    block.x * block.y * block.z * grid.x * grid.y
  }

  predicate AllPositive(grid: Dim3, block: Dim3) {
    grid.x > 0 && grid.y > 0 && grid.z > 0 && block.x > 0 && block.y > 0 && block.z > 0
  }

  // The products that the launcher forms fit their types.
  predicate Small(grid: Dim3, block: Dim3) {
    InnerProduct(grid, block) < WORD32 && InnerProduct(grid, block) * grid.z < WORD64
  }

  ghost predicate Fits(grid: Dim3, block: Dim3) {
    AllPositive(grid, block) && Small(grid, block)
  }

  // The divisors of the flat index, as 32-bit products.
  function Divisor(grid: Dim3, block: Dim3, k: nat): nat
    requires k < 6
  {
    if k == 0 then 1
    else if k == 1 then block.x
    else if k == 2 then Mul32(block.x, block.y)
    else if k == 3 then Mul32(Mul32(block.x, block.y), block.z)
    else if k == 4 then Mul32(Mul32(Mul32(block.x, block.y), block.z), grid.x)
    else Mul32(Mul32(Mul32(Mul32(block.x, block.y), block.z), grid.x), grid.y)
  }

  lemma NoWrap(a: nat, b: nat, rest: nat)
    requires rest > 0 && a * b * rest < WORD32
    ensures Mul32(a, b) == a * b < WORD32
  {
    Widen(1, rest, a * b);
    assert rest * (a * b) == a * b * rest;
  }

  lemma DivisorsExact(grid: Dim3, block: Dim3)
    requires Fits(grid, block)
    ensures Divisor(grid, block, 2) == block.x * block.y
    ensures Divisor(grid, block, 3) == block.x * block.y * block.z
    ensures Divisor(grid, block, 4) == block.x * block.y * block.z * grid.x
    ensures Divisor(grid, block, 5) == InnerProduct(grid, block)
  {
    var a, b, c := block.x * block.y, block.x * block.y * block.z, block.x * block.y * block.z * grid.x;
    NoWrap(c, grid.y, 1);
    PrefixBelow(c, grid.y);
    NoWrap(b, grid.x, 1);
    PrefixBelow(b, grid.x);
    NoWrap(a, block.z, 1);
    PrefixBelow(a, block.z);
    NoWrap(block.x, block.y, 1);
  }

  // Past 32 bits the last divisor wraps: all of them are exact exactly when their largest fits.
  lemma DivisorsExactly(grid: Dim3, block: Dim3)
    requires AllPositive(grid, block) && InnerProduct(grid, block) * grid.z < WORD64
    ensures (Divisor(grid, block, 2) == block.x * block.y && Divisor(grid, block, 3) == block.x * block.y * block.z && Divisor(grid, block, 4) == block.x * block.y * block.z * grid.x && Divisor(grid, block, 5) == InnerProduct(grid, block)) <==> InnerProduct(grid, block) < WORD32
  {
    if InnerProduct(grid, block) < WORD32 { DivisorsExact(grid, block); }
  }

  lemma PrefixBelow(a: nat, b: nat)
    requires b > 0 && a * b < WORD32
    ensures a < WORD32
  {
    Widen(1, b, a);
    assert b * a == a * b;
  }

  lemma PrefixProducts(r: seq<nat>, k: nat)
    requires |r| == 6 && k < 6
    ensures Product(r[..k]) == if k == 0 then 1 else if k == 1 then r[0] else if k == 2 then r[0] * r[1] else if k == 3 then r[0] * r[1] * r[2]
                               else if k == 4 then r[0] * r[1] * r[2] * r[3] else r[0] * r[1] * r[2] * r[3] * r[4]
  {
    if k > 0 {
      PrefixSnoc(r, k - 1);
      if k > 1 { PrefixProducts(r, k - 1); }
    }
    assert r[..0] == [];
  }

  lemma PrefixSnoc(r: seq<nat>, k: nat)
    requires k < |r|
    ensures Product(r[..k + 1]) == Product(r[..k]) * r[k]
  {
    assert r[..k + 1] == r[..k] + [r[k]];
    ProductSnoc(r[..k], r[k]);
  }

  // One coordinate of the loop body.
  function Coordinate(grid: Dim3, block: Dim3, flat: nat, k: nat): nat
    requires k < 6
  {
    if Divisor(grid, block, k) == 0 || Radices(grid, block)[k] == 0 then 0
    else flat / Divisor(grid, block, k) % Radices(grid, block)[k]
  }

  function ContextOf(grid: Dim3, block: Dim3, flat: nat): Context {
    Context(Dim3(Coordinate(grid, block, flat, 3), Coordinate(grid, block, flat, 4), Coordinate(grid, block, flat, 5)),
            Dim3(Coordinate(grid, block, flat, 0), Coordinate(grid, block, flat, 1), Coordinate(grid, block, flat, 2)))
  }

  lemma CoordinateIsDigit(grid: Dim3, block: Dim3, flat: nat, k: nat)
    requires Fits(grid, block) && k < 6
    ensures Coordinate(grid, block, flat, k) == Digits(flat, Radices(grid, block))[k]
  {
    var r := Radices(grid, block);
    DivisorsExact(grid, block);
    PrefixProducts(r, k);
    DigitAt(flat, r, k);
  }

  predicate Valid(grid: Dim3, block: Dim3, c: Context) {
    && c.bid.x < grid.x && c.bid.y < grid.y && c.bid.z < grid.z
    && c.tid.x < block.x && c.tid.y < block.y && c.tid.z < block.z
  }

  function Flat(grid: Dim3, block: Dim3, c: Context): nat {
    Compose([c.tid.x, c.tid.y, c.tid.z, c.bid.x, c.bid.y, c.bid.z], Radices(grid, block))
  }

  function Total(grid: Dim3, block: Dim3): nat {
    Product(Radices(grid, block))
  }

  // Each pair of indices belongs to exactly one flat index below the total.
  lemma ContextsOnce(grid: Dim3, block: Dim3, c: Context)
    requires Fits(grid, block) && Valid(grid, block, c)
    ensures Flat(grid, block, c) < Total(grid, block) && ContextOf(grid, block, Flat(grid, block, c)) == c
  {
    var r := Radices(grid, block);
    var d := [c.tid.x, c.tid.y, c.tid.z, c.bid.x, c.bid.y, c.bid.z];
    DigitsCompose(d, r);
    var n := Flat(grid, block, c);
    CoordinateIsDigit(grid, block, n, 0);
    CoordinateIsDigit(grid, block, n, 1);
    CoordinateIsDigit(grid, block, n, 2);
    CoordinateIsDigit(grid, block, n, 3);
    CoordinateIsDigit(grid, block, n, 4);
    CoordinateIsDigit(grid, block, n, 5);
  }

  lemma FlatOfContext(grid: Dim3, block: Dim3, flat: nat)
    requires Fits(grid, block) && flat < Total(grid, block)
    ensures Valid(grid, block, ContextOf(grid, block, flat)) && Flat(grid, block, ContextOf(grid, block, flat)) == flat
  {
    var r := Radices(grid, block);
    var d := Digits(flat, r);
    DigitsInRange(flat, r);
    ComposeDigits(flat, r);
    CoordinateIsDigit(grid, block, flat, 0);
    CoordinateIsDigit(grid, block, flat, 1);
    CoordinateIsDigit(grid, block, flat, 2);
    CoordinateIsDigit(grid, block, flat, 3);
    CoordinateIsDigit(grid, block, flat, 4);
    CoordinateIsDigit(grid, block, flat, 5);
    assert d == [d[0], d[1], d[2], d[3], d[4], d[5]];
  }

  // ---- the launch -----------------------------------------------------------------------------

  // Some order of all the iterations.
  ghost predicate Schedule(order: seq<nat>, total: nat) {
    && (forall i, j :: 0 <= i < j < |order| ==> order[i] != order[j])
    && (forall i :: 0 <= i < |order| ==> order[i] < total)
    && (forall n: nat :: n < total ==> n in order)
  }

  lemma TotalIsProduct(grid: Dim3, block: Dim3)
    requires Fits(grid, block)
    ensures Total(grid, block) == InnerProduct(grid, block) * grid.z < WORD64
  {
    var r := Radices(grid, block);
    PrefixProducts(r, 5);
    PrefixSnoc(r, 5);
    assert r[..6] == r;
  }

  ghost predicate Called(grid: Dim3, block: Dim3, order: seq<nat>, calls: seq<Context>) {
    |calls| == |order| && forall i :: 0 <= i < |calls| ==> calls[i] == ContextOf(grid, block, order[i])
  }

  lemma CallAt(grid: Dim3, block: Dim3, order: seq<nat>, calls: seq<Context>, k: nat)
    requires Fits(grid, block) && Schedule(order, Total(grid, block)) && Called(grid, block, order, calls) && k < |calls|
    ensures Valid(grid, block, calls[k]) && Flat(grid, block, calls[k]) == order[k]
  {
    FlatOfContext(grid, block, order[k]);
  }

  lemma CallOf(grid: Dim3, block: Dim3, order: seq<nat>, calls: seq<Context>, c: Context)
    requires Fits(grid, block) && Schedule(order, Total(grid, block)) && Called(grid, block, order, calls) && Valid(grid, block, c)
    ensures c in calls
  {
    var n := Flat(grid, block, c);
    ContextsOnce(grid, block, c);
    assert n in order;
    FoundIn(order, calls, n, c, grid, block);
  }

  lemma FoundIn(order: seq<nat>, calls: seq<Context>, n: nat, c: Context, grid: Dim3, block: Dim3)
    requires n in order && Called(grid, block, order, calls) && ContextOf(grid, block, n) == c
    ensures c in calls
  {
    var k :| 0 <= k < |order| && order[k] == n;
    assert calls[k] == c;
  }

  lemma CallsOnce(grid: Dim3, block: Dim3, order: seq<nat>, calls: seq<Context>)
    requires Fits(grid, block) && Schedule(order, Total(grid, block)) && Called(grid, block, order, calls)
    ensures forall k :: 0 <= k < |calls| ==> Valid(grid, block, calls[k])
    ensures forall c :: Valid(grid, block, c) ==> c in calls
    ensures forall i, j :: 0 <= i < j < |calls| ==> calls[i] != calls[j]
  {
    forall k | 0 <= k < |calls| ensures Valid(grid, block, calls[k]) {
      CallAt(grid, block, order, calls, k);
    }
    forall c | Valid(grid, block, c) ensures c in calls {
      CallOf(grid, block, order, calls, c);
    }
    forall i, j | 0 <= i < j < |calls| ensures calls[i] != calls[j] {
      CallAt(grid, block, order, calls, i);
      CallAt(grid, block, order, calls, j);
    }
  }

  // ---- any dimensions ---------------------------------------------------------------------------

  // The bound of the loop, a 64-bit product.
  function TotalThreads(grid: Dim3, block: Dim3): nat {
    Mul64(Mul64(Mul64(Mul64(Mul64(grid.x, grid.y), grid.z), block.x), block.y), block.z)
  }

  lemma NoWrap64(a: nat, b: nat)
    requires b > 0 && a * b < WORD64
    ensures Mul64(a, b) == a * b && a < WORD64
  {
    Widen(1, b, a);
    assert b * a == a * b;
  }

  lemma Threefold(x: nat, a: nat, b: nat, c: nat)
    ensures x * a * b * c == x * (a * b * c)
  {
    assert x * a * b == x * (a * b);
    assert x * (a * b) * c == x * (a * b * c);
  }

  lemma SameProduct(grid: Dim3, block: Dim3)
    ensures InnerProduct(grid, block) * grid.z == grid.x * grid.y * grid.z * block.x * block.y * block.z
  {
    var g, b := grid.x * grid.y * grid.z, block.x * block.y * block.z;
    Threefold(b, grid.x, grid.y, grid.z);
    Threefold(g, block.x, block.y, block.z);
    assert b * g == g * b;
  }

  // The bound does not wrap either.
  lemma TotalThreadsExact(grid: Dim3, block: Dim3)
    requires Fits(grid, block)
    ensures TotalThreads(grid, block) == Total(grid, block)
  {
    TotalIsProduct(grid, block);
    SameProduct(grid, block);
    var c := grid.x * grid.y * grid.z;
    NoWrap64(c * block.x * block.y, block.z);
    NoWrap64(c * block.x, block.y);
    NoWrap64(c, block.x);
    NoWrap64(grid.x * grid.y, grid.z);
    NoWrap64(grid.x, grid.y);
  }

  lemma NoThreads(grid: Dim3, block: Dim3)
    requires !AllPositive(grid, block)
    ensures TotalThreads(grid, block) == 0
  {
    ZeroProduct(grid.x, grid.y);
    ZeroProduct(Mul64(grid.x, grid.y), grid.z);
    ZeroProduct(Mul64(Mul64(grid.x, grid.y), grid.z), block.x);
    ZeroProduct(Mul64(Mul64(Mul64(grid.x, grid.y), grid.z), block.x), block.y);
    ZeroProduct(Mul64(Mul64(Mul64(Mul64(grid.x, grid.y), grid.z), block.x), block.y), block.z);
  }

  lemma ZeroProduct(a: nat, b: nat)
    ensures a == 0 || b == 0 ==> Mul64(a, b) == 0
  {
  }

  const ORIGIN: Context := Context(Dim3(0, 0, 0), Dim3(0, 0, 0))

  // What the launcher calls: one thread is called without the loop.
  ghost predicate Launched(grid: Dim3, block: Dim3, order: seq<nat>, calls: seq<Context>) {
    if TotalThreads(grid, block) <= 1 then calls == [ORIGIN] else Called(grid, block, order, calls)
  }

  // The kernel is called for each pair of indices once, and for nothing else.
  ghost predicate EachOnce(grid: Dim3, block: Dim3, calls: seq<Context>) {
    && (forall k :: 0 <= k < |calls| ==> Valid(grid, block, calls[k]))
    && (forall c :: Valid(grid, block, c) ==> c in calls)
    && (forall i, j :: 0 <= i < j < |calls| ==> calls[i] != calls[j])
  }

  lemma OneThread(grid: Dim3, block: Dim3)
    requires Fits(grid, block) && Total(grid, block) <= 1
    ensures EachOnce(grid, block, [ORIGIN])
  {
    assert Valid(grid, block, ORIGIN);
    ContextsOnce(grid, block, ORIGIN);
    forall c | Valid(grid, block, c) ensures c in [ORIGIN] {
      ContextsOnce(grid, block, c);
    }
  }

  // For sizes whose products fit, each pair is called exactly once precisely if no dimension is
  // empty: an empty launch has no pair, and the launcher calls the kernel all the same.
  lemma CoversExactly(grid: Dim3, block: Dim3, order: seq<nat>, calls: seq<Context>)
    requires Small(grid, block) && Schedule(order, TotalThreads(grid, block)) && Launched(grid, block, order, calls)
    ensures EachOnce(grid, block, calls) <==> AllPositive(grid, block)
  {
    if AllPositive(grid, block) {
      TotalThreadsExact(grid, block);
      if TotalThreads(grid, block) <= 1 { OneThread(grid, block); } else { CallsOnce(grid, block, order, calls); }
    } else {
      NoThreads(grid, block);
      assert !Valid(grid, block, calls[0]);
    }
  }

  // An empty grid runs the kernel once.
  lemma EmptyGridCalls(block: Dim3, calls: seq<Context>)
    requires Launched(Dim3(0, 1, 1), block, [], calls)
    ensures calls == [ORIGIN] && !Valid(Dim3(0, 1, 1), block, ORIGIN)
  {
    NoThreads(Dim3(0, 1, 1), block);
  }

  // In some order of the iterations.  A divisor that wraps to zero is the caller's error.
  method Launch(grid: Dim3, block: Dim3, order: seq<nat>) returns (calls: seq<Context>)
    requires Schedule(order, TotalThreads(grid, block))
    requires TotalThreads(grid, block) > 1 ==> forall k :: 0 <= k < 6 ==> Divisor(grid, block, k) > 0
    ensures Launched(grid, block, order, calls)
    ensures Small(grid, block) ==> (EachOnce(grid, block, calls) <==> AllPositive(grid, block))
  {
    calls := [];
    if TotalThreads(grid, block) <= 1 {
      calls := [ORIGIN];
    } else {
      for k := 0 to |order|
        invariant |calls| == k && forall i :: 0 <= i < k ==> calls[i] == ContextOf(grid, block, order[i])
      {
        calls := calls + [ContextOf(grid, block, order[k])];
      }
    }
    if Small(grid, block) { CoversExactly(grid, block, order, calls); }
  }
}
