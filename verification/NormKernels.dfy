// Kernels that normalise, and those that normalise while they multiply
// (python/xecuda/kernels.py), under every schedule of their work-items.
module NormKernels {
  import opened Division
  import opened Tensors
  import opened Values
  import opened Barriers
  import opened Reduction

  // ---- the reduced inverse root ---------------------------------------------------------------

  // 1 / sqrt(total / n + eps)
  function InvRoot(sqrt: real -> real, eps: real, n: nat, total: real): real {
    Quotient(1.0, sqrt(Quotient(total, n as real) + eps))
  }

  function FirstItem(w: Count, a: Action): (items: seq<Program>)
    ensures |items| == w
  {
    seq(w, (lid: nat) => if lid == 0 then [a] else [])
  }

  function RootAction(dst: Addr, sqrt: real -> real, eps: real, n: nat): Action {
    Action(dst, [LSum(0)], (v: seq<real>) => if |v| == 1 then InvRoot(sqrt, eps, n, v[0]) else 0.0)
  }

  function FirstOwner(dst: Addr): Addr -> int {
    (b: Addr) => if b == dst then 0 else NOBODY
  }

  lemma FirstDisciplined(w: Count, a: Action)
    requires a.dst !in a.srcs
    ensures forall i :: 0 <= i < w ==> Disciplined(FirstItem(w, a)[i], i, FirstOwner(a.dst))
  {
  }

  lemma RootValue(m: Mem, w: Count, dst: Addr, sqrt: real -> real, eps: real, n: nat)
    requires !dst.LSum?
    ensures Get(Sequential(m, FirstItem(w, RootAction(dst, sqrt, eps, n)), 0), dst) == InvRoot(sqrt, eps, n, Get(m, LSum(0)))
  {
    var a := RootAction(dst, sqrt, eps, n);
    FirstDisciplined(w, a);
    OwnerValue(m, FirstItem(w, a), FirstOwner(dst), 0, dst);
    RunOne(m, a);
  }

  // rms_norm_reduce, or add_rms_norm_reduce when fused.
  function ReduceKernel(fused: bool, n: nat, w: Count, sqrt: real -> real, eps: real): (k: Kernel)
    ensures k != []
  {
    Reduce(fused, n, w) + [FirstItem(w, RootAction(OutRms, sqrt, eps, n))]
  }

  lemma OnePhase(items: seq<Program>, m: Mem)
    ensures InOrder(m, [items]) == Sequential(m, items, 0)
    ensures RaceFree(items) ==> PhasesRaceFree([items])
  {
    assert [items][1..] == [];
  }

  // For every length and every power-of-two group, under every schedule, the kernel writes the
  // inverse root of the mean of all the squares.
  lemma ReduceComputes(m: Mem, fused: bool, n: nat, w: Count, sqrt: real -> real, eps: real, trace: seq<Event>)
    requires PowerOfTwo(w)
    requires var k := ReduceKernel(fused, n, w, sqrt, eps); Finishes(k[0], k[1..], trace)
    ensures var k := ReduceKernel(fused, n, w, sqrt, eps); Get(Run(m, k[0], k[1..], trace), OutRms) == InvRoot(sqrt, eps, n, Total(Squares(m, fused, n), n))
  {
    var last := FirstItem(w, RootAction(OutRms, sqrt, eps, n));
    FirstDisciplined(w, RootAction(OutRms, sqrt, eps, n));
    DisciplineIsRaceFree(last, FirstOwner(OutRms));
    ReduceRaceFree(fused, n, w);
    OnePhase(last, InOrder(m, Reduce(fused, n, w)));
    PhasesConcat(Reduce(fused, n, w), [last]);
    AnySchedule(m, ReduceKernel(fused, n, w, sqrt, eps), trace);
    InOrderConcat(m, Reduce(fused, n, w), [last]);
    ReduceSums(m, fused, n, w);
    RootValue(InOrder(m, Reduce(fused, n, w)), w, OutRms, sqrt, eps, n);
  }

  // ---- filling a buffer by strided loops --------------------------------------------------------------

  // What is stored: x itself, x normalised by a given inverse root, x plus the residual
  // normalised, or x normalised by the shared inverse root.
  datatype Fill = Plain | Normed(inv: real) | AddNormed(inv: real) | SharedNormed

  function FillSources(f: Fill, i: nat): seq<Addr> {
    match f
    case Plain => [X(i)]
    case Normed(_) => [X(i), NormW(i)]
    case AddNormed(_) => [X(i), Residual(i), NormW(i)]
    case SharedNormed => [X(i), InvRms, NormW(i)]
  }

  function FillResult(f: Fill, v: seq<real>): real {
    match f
    case Plain => if |v| == 1 then v[0] else 0.0
    case Normed(inv) => if |v| == 2 then v[0] * inv * v[1] else 0.0
    case AddNormed(inv) => if |v| == 3 then (v[0] + v[1]) * inv * v[2] else 0.0
    case SharedNormed => if |v| == 3 then v[0] * v[1] * v[2] else 0.0
  }

  function FillValue(m: Mem, f: Fill, i: nat): real {
    match f
    case Plain => Get(m, X(i))
    case Normed(inv) => Get(m, X(i)) * inv * Get(m, NormW(i))
    case AddNormed(inv) => (Get(m, X(i)) + Get(m, Residual(i))) * inv * Get(m, NormW(i))
    case SharedNormed => Get(m, X(i)) * Get(m, InvRms) * Get(m, NormW(i))
  }

  // Into the output or into local memory.
  function Target(local: bool, i: nat): Addr {
    if local then XLocal(i) else Y(i)
  }

  function Store(local: bool, f: Fill, i: nat): Action {
    Action(Target(local, i), FillSources(f, i), (v: seq<real>) => FillResult(f, v))
  }

  function FillFrom(local: bool, f: Fill, i: nat, n: nat, w: Count): Program
    decreases if i < n then n - i else 0
  {
    if i >= n then [] else [Store(local, f, i)] + FillFrom(local, f, i + w, n, w)
  }

  function FillPhase(local: bool, f: Fill, n: nat, w: Count): (items: seq<Program>)
    ensures |items| == w
  {
    seq(w, (lid: nat) => FillFrom(local, f, lid, n, w))
  }

  function FillOwner(local: bool, w: Count): Addr -> int {
    (b: Addr) => if local && b.XLocal? then b.i % w else if !local && b.Y? then b.i % w else NOBODY
  }

  lemma {:induction false} FillDisciplined(local: bool, f: Fill, i: nat, n: nat, w: Count)
    ensures Disciplined(FillFrom(local, f, i, n, w), i % w, FillOwner(local, w))
    decreases if i < n then n - i else 0
  {
    if i < n {
      FillDisciplined(local, f, i + w, n, w);
      AddDivisor(i, w);
      StoreDisciplined(local, f, i, w);
      DisciplineConcat([Store(local, f, i)], FillFrom(local, f, i + w, n, w), i % w, FillOwner(local, w));
    }
  }

  lemma StoreDisciplined(local: bool, f: Fill, i: nat, w: Count)
    ensures Disciplined([Store(local, f, i)], i % w, FillOwner(local, w))
  {
  }

  lemma FillPhaseDisciplined(local: bool, f: Fill, n: nat, w: Count)
    ensures forall i :: 0 <= i < w ==> Disciplined(FillPhase(local, f, n, w)[i], i, FillOwner(local, w))
  {
    forall i: nat | i < w ensures Disciplined(FillPhase(local, f, n, w)[i], i, FillOwner(local, w)) {
      FillDisciplined(local, f, i, n, w);
      DivMod(0, i, w);
    }
  }

  lemma StoreValue(m: Mem, local: bool, f: Fill, i: nat)
    ensures Get(Exec(m, Store(local, f, i)), Target(local, i)) == FillValue(m, f, i)
  {
  }

  lemma {:induction false} FillSkips(local: bool, f: Fill, i: nat, n: nat, w: Count, k: nat)
    requires k < i
    ensures !Writes(FillFrom(local, f, i, n, w), Target(local, k))
    decreases if i < n then n - i else 0
  {
    if i < n {
      FillSkips(local, f, i + w, n, w, k);
      ConsWrites(Store(local, f, i), FillFrom(local, f, i + w, n, w), Target(local, k));
    }
  }

  lemma ConsWrites(a: Action, p: Program, b: Addr)
    ensures Writes([a] + p, b) <==> a.dst == b || Writes(p, b)
  {
    if Writes(p, b) {
      var k :| 0 <= k < |p| && p[k].dst == b;
      assert ([a] + p)[k + 1].dst == b;
    }
    if a.dst == b { assert ([a] + p)[0].dst == b; }
  }

  // Storing one entry leaves what the others are computed from.
  lemma StoreKeepsInputs(m: Mem, local: bool, f: Fill, i: nat, k: nat)
    ensures FillValue(Exec(m, Store(local, f, i)), f, k) == FillValue(m, f, k)
  {
  }

  lemma {:induction false} FillFromValue(m: Mem, local: bool, f: Fill, i: nat, n: nat, w: Count, k: nat)
    requires i <= k < n && k % w == i % w
    ensures Get(RunProgram(m, FillFrom(local, f, i, n, w)), Target(local, k)) == FillValue(m, f, k)
    decreases n - i
  {
    var next := Exec(m, Store(local, f, i));
    var rest := FillFrom(local, f, i + w, n, w);
    assert FillFrom(local, f, i, n, w)[1..] == rest;
    if k == i {
      StoreValue(m, local, f, i);
      FillSkips(local, f, i + w, n, w, i);
      UnwrittenKept(next, rest, Target(local, i));
    } else {
      AddDivisor(i, w);
      if k < i + w { OtherRemainder(i, k, w); }
      FillFromValue(next, local, f, i + w, n, w, k);
      StoreKeepsInputs(m, local, f, i, k);
    }
  }

  // Every entry is filled, by exactly one item.
  lemma FillPhaseValue(m: Mem, local: bool, f: Fill, n: nat, w: Count, k: nat)
    requires k < n
    ensures Get(Sequential(m, FillPhase(local, f, n, w), 0), Target(local, k)) == FillValue(m, f, k)
  {
    var lid: nat := k % w;
    FillPhaseDisciplined(local, f, n, w);
    OwnerValue(m, FillPhase(local, f, n, w), FillOwner(local, w), lid, Target(local, k));
    DivMod(0, lid, w);
    RemainderBelow(k, w);
    FillFromValue(m, local, f, lid, n, w, k);
  }

  lemma RemainderBelow(k: nat, w: Count)
    ensures k % w <= k
  {
    assert k == k / w * w + k % w;
    Widen(0, k / w, w);
  }

  // ---- rms_norm -------------------------------------------------------------------------------------------

  function RmsNormKernel(n: nat, w: Count, sqrt: real -> real, eps: real): (k: Kernel)
    ensures k != []
  {
    Reduce(false, n, w) + ([FirstItem(w, RootAction(InvRms, sqrt, eps, n))] + [FillPhase(false, SharedNormed, n, w)])
  }

  lemma RmsNormRaceFree(n: nat, w: Count, sqrt: real -> real, eps: real)
    ensures PhasesRaceFree(RmsNormKernel(n, w, sqrt, eps))
  {
    var root, fill := FirstItem(w, RootAction(InvRms, sqrt, eps, n)), FillPhase(false, SharedNormed, n, w);
    ReduceRaceFree(false, n, w);
    FirstDisciplined(w, RootAction(InvRms, sqrt, eps, n));
    DisciplineIsRaceFree(root, FirstOwner(InvRms));
    FillPhaseDisciplined(false, SharedNormed, n, w);
    DisciplineIsRaceFree(fill, FillOwner(false, w));
    assert PhasesRaceFree([root]) && PhasesRaceFree([fill]);
    PhasesConcat([root], [fill]);
    PhasesConcat(Reduce(false, n, w), [root] + [fill]);
  }

  lemma RootKeeps(m: Mem, w: Count, n: nat, sqrt: real -> real, eps: real, b: Addr)
    requires b != InvRms
    ensures Get(Sequential(m, FirstItem(w, RootAction(InvRms, sqrt, eps, n)), 0), b) == Get(m, b)
  {
    FirstDisciplined(w, RootAction(InvRms, sqrt, eps, n));
    NobodyWrites(m, FirstItem(w, RootAction(InvRms, sqrt, eps, n)), FirstOwner(InvRms), b);
  }

  function NormedEntry(m: Mem, n: nat, sqrt: real -> real, eps: real, i: nat): real {
    Get(m, X(i)) * InvRoot(sqrt, eps, n, Total(Squares(m, false, n), n)) * Get(m, NormW(i))
  }

  // Under every schedule each entry is written, with the inverse root of all squares.
  lemma RmsNormComputes(m: Mem, n: nat, w: Count, sqrt: real -> real, eps: real, trace: seq<Event>, i: nat)
    requires PowerOfTwo(w) && i < n
    requires var k := RmsNormKernel(n, w, sqrt, eps); Finishes(k[0], k[1..], trace)
    ensures var k := RmsNormKernel(n, w, sqrt, eps); Get(Run(m, k[0], k[1..], trace), Y(i)) == NormedEntry(m, n, sqrt, eps, i)
  {
    RmsNormRaceFree(n, w, sqrt, eps);
    AnySchedule(m, RmsNormKernel(n, w, sqrt, eps), trace);
    RmsNormInOrder(m, n, w, sqrt, eps, i);
  }

  lemma RmsNormUnfold(m: Mem, n: nat, w: Count, sqrt: real -> real, eps: real)
    ensures InOrder(m, RmsNormKernel(n, w, sqrt, eps))
         == Sequential(Sequential(InOrder(m, Reduce(false, n, w)), FirstItem(w, RootAction(InvRms, sqrt, eps, n)), 0), FillPhase(false, SharedNormed, n, w), 0)
  {
    var root, fill := FirstItem(w, RootAction(InvRms, sqrt, eps, n)), FillPhase(false, SharedNormed, n, w);
    var r := InOrder(m, Reduce(false, n, w));
    InOrderConcat(m, Reduce(false, n, w), [root] + [fill]);
    InOrderConcat(r, [root], [fill]);
    OnePhase(root, r);
    OnePhase(fill, Sequential(r, root, 0));
  }

  lemma RootedInputs(m: Mem, n: nat, w: Count, sqrt: real -> real, eps: real, i: nat)
    requires PowerOfTwo(w)
    ensures FillValue(Sequential(InOrder(m, Reduce(false, n, w)), FirstItem(w, RootAction(InvRms, sqrt, eps, n)), 0), SharedNormed, i)
         == NormedEntry(m, n, sqrt, eps, i)
  {
    var r := InOrder(m, Reduce(false, n, w));
    ReduceSums(m, false, n, w);
    RootValue(r, w, InvRms, sqrt, eps, n);
    RootKeeps(r, w, n, sqrt, eps, X(i));
    RootKeeps(r, w, n, sqrt, eps, NormW(i));
    ReduceKeeps(m, false, n, w, X(i));
    ReduceKeeps(m, false, n, w, NormW(i));
  }

  lemma RmsNormInOrder(m: Mem, n: nat, w: Count, sqrt: real -> real, eps: real, i: nat)
    requires PowerOfTwo(w) && i < n
    ensures Get(InOrder(m, RmsNormKernel(n, w, sqrt, eps)), Y(i)) == NormedEntry(m, n, sqrt, eps, i)
  {
    RmsNormUnfold(m, n, w, sqrt, eps);
    RootedInputs(m, n, w, sqrt, eps, i);
    FillPhaseValue(Sequential(InOrder(m, Reduce(false, n, w)), FirstItem(w, RootAction(InvRms, sqrt, eps, n)), 0), false, SharedNormed, n, w, i);
  }

  // ---- matrix-vector kernels ---------------------------------------------------------------------------------

  // The products of one row: an index into x_local and the dequantised weight, in loop order.
  type Row = seq<(nat, real)>

  function Product(e: (nat, real)): Term {
    Term([XLocal(e.0)], (v: seq<real>) => if |v| == 1 then e.1 * v[0] else 0.0)
  }

  function Products(row: Row): (terms: seq<Term>)
    ensures |terms| == |row|
  {
    seq(|row|, i requires 0 <= i < |row| => Product(row[i]))
  }

  // The item's row is its group's first row plus its number; items past the last row have
  // reached the barrier before they return.
  function RowItem(rows: seq<Row>, first: nat, lid: nat): Program {
    if first + lid >= |rows| then [] else SumInto(Y(first + lid), Acc(lid), Products(rows[first + lid]))
  }

  function RowPhase(rows: seq<Row>, first: nat, w: Count): (items: seq<Program>)
    ensures |items| == w
  {
    seq(w, (lid: nat) => RowItem(rows, first, lid))
  }

  function MatvecKernel(f: Fill, n: nat, rows: seq<Row>, first: nat, w: Count): (k: Kernel)
    ensures k != []
  {
    [FillPhase(true, f, n, w)] + [RowPhase(rows, first, w)]
  }

  function RowOwner(first: nat): Addr -> int {
    (b: Addr) => if b.Acc? then b.lid else if b.Y? && b.i >= first then b.i - first else NOBODY
  }

  lemma ProductsSources(row: Row, lid: int, first: nat)
    ensures ReadsOwn(Products(row), lid, RowOwner(first)) && forall a: Addr :: a.Acc? ==> AvoidsAcc(a, Products(row))
  {
  }

  lemma RowPhaseDisciplined(rows: seq<Row>, first: nat, w: Count)
    ensures forall i :: 0 <= i < w ==> Disciplined(RowPhase(rows, first, w)[i], i, RowOwner(first))
  {
    forall i: nat | i < w ensures Disciplined(RowPhase(rows, first, w)[i], i, RowOwner(first)) {
      if first + i < |rows| {
        ProductsSources(rows[first + i], i, first);
        SumIntoDisciplined(Y(first + i), Acc(i), Products(rows[first + i]), i, RowOwner(first));
      }
    }
  }

  function RowSum(x: nat -> real, row: Row): real {
    if row == [] then 0.0 else row[0].1 * x(row[0].0) + RowSum(x, row[1..])
  }

  function LocalX(m: Mem): nat -> real {
    (i: nat) => Get(m, XLocal(i))
  }

  lemma {:induction false} ProductsSum(m: Mem, row: Row)
    ensures TermSum(m, Products(row)) == RowSum(LocalX(m), row)
  {
    if row != [] {
      ProductsSum(m, row[1..]);
      assert Products(row)[1..] == Products(row[1..]);
    }
  }

  lemma RowPhaseValue(m: Mem, rows: seq<Row>, first: nat, w: Count, lid: nat)
    requires lid < w && first + lid < |rows|
    ensures Get(Sequential(m, RowPhase(rows, first, w), 0), Y(first + lid)) == RowSum(LocalX(m), rows[first + lid])
  {
    var row := rows[first + lid];
    RowPhaseDisciplined(rows, first, w);
    OwnerValue(m, RowPhase(rows, first, w), RowOwner(first), lid, Y(first + lid));
    ProductsSources(row, lid, first);
    SumIntoValue(m, Y(first + lid), Acc(lid), Products(row));
    ProductsSum(m, row);
  }

  lemma MatvecRaceFree(f: Fill, n: nat, rows: seq<Row>, first: nat, w: Count)
    ensures PhasesRaceFree(MatvecKernel(f, n, rows, first, w))
  {
    FillPhaseDisciplined(true, f, n, w);
    DisciplineIsRaceFree(FillPhase(true, f, n, w), FillOwner(true, w));
    RowPhaseDisciplined(rows, first, w);
    DisciplineIsRaceFree(RowPhase(rows, first, w), RowOwner(first));
    assert PhasesRaceFree([RowPhase(rows, first, w)]);
    PhasesCons(FillPhase(true, f, n, w), [RowPhase(rows, first, w)]);
  }

  ghost predicate Within(row: Row, n: nat) {
    forall k :: 0 <= k < |row| ==> row[k].0 < n
  }

  lemma {:induction false} RowSumAgrees(x: nat -> real, y: nat -> real, row: Row, n: nat)
    requires Within(row, n) && forall i: nat :: i < n ==> x(i) == y(i)
    ensures RowSum(x, row) == RowSum(y, row)
  {
    if row != [] {
      assert row[0].0 < n;
      assert forall k :: 0 <= k < |row[1..]| ==> row[1..][k] == row[k + 1];
      RowSumAgrees(x, y, row[1..], n);
    }
  }

  function FillOf(m: Mem, f: Fill): nat -> real {
    (i: nat) => FillValue(m, f, i)
  }

  // Under every schedule each row of the group is the product with the filled vector: local
  // memory is complete before any item reads it.
  lemma MatvecComputes(m: Mem, f: Fill, n: nat, rows: seq<Row>, first: nat, w: Count, trace: seq<Event>, lid: nat)
    requires lid < w && first + lid < |rows| && Within(rows[first + lid], n)
    requires var k := MatvecKernel(f, n, rows, first, w); Finishes(k[0], k[1..], trace)
    ensures var k := MatvecKernel(f, n, rows, first, w); Get(Run(m, k[0], k[1..], trace), Y(first + lid)) == RowSum(FillOf(m, f), rows[first + lid])
  {
    var fill, last := FillPhase(true, f, n, w), RowPhase(rows, first, w);
    MatvecRaceFree(f, n, rows, first, w);
    AnySchedule(m, MatvecKernel(f, n, rows, first, w), trace);
    var s := Sequential(m, fill, 0);
    assert ([fill] + [last])[1..] == [last];
    OnePhase(last, s);
    RowPhaseValue(s, rows, first, w, lid);
    forall i: nat | i < n ensures LocalX(s)(i) == FillOf(m, f)(i) {
      FillPhaseValue(m, true, f, n, w, i);
    }
    RowSumAgrees(LocalX(s), FillOf(m, f), rows[first + lid], n);
  }

  // ---- fused kernels are compositions ------------------------------------------------------------------------------

  // y holds what m's y does, as the input of the next kernel.
  ghost predicate Fed(m: Mem, next: Mem, n: nat) {
    forall i: nat :: i < n ==> Get(next, X(i)) == Get(m, Y(i))
  }

  // The reduction followed by norm_matvec leaves what rms_norm followed by matvec leaves, for
  // every group size and whatever the four schedules.
  lemma NormMatvecIsComposition(m: Mem, next: Mem, n: nat, rows: seq<Row>, first: nat, w: Count, sqrt: real -> real, eps: real,
                                reduce: seq<Event>, fused: seq<Event>, norm: seq<Event>, matvec: seq<Event>, inv: real, lid: nat)
    requires PowerOfTwo(w) && lid < w && first + lid < |rows| && Within(rows[first + lid], n)
    requires var k := ReduceKernel(false, n, w, sqrt, eps); Finishes(k[0], k[1..], reduce) && inv == Get(Run(m, k[0], k[1..], reduce), OutRms)
    requires var k := MatvecKernel(Normed(inv), n, rows, first, w); Finishes(k[0], k[1..], fused)
    requires var k := RmsNormKernel(n, w, sqrt, eps); Finishes(k[0], k[1..], norm) && Fed(Run(m, k[0], k[1..], norm), next, n)
    requires var k := MatvecKernel(Plain, n, rows, first, w); Finishes(k[0], k[1..], matvec)
    ensures var k, l := MatvecKernel(Normed(inv), n, rows, first, w), MatvecKernel(Plain, n, rows, first, w); Get(Run(m, k[0], k[1..], fused), Y(first + lid)) == Get(Run(next, l[0], l[1..], matvec), Y(first + lid))
  {
    ReduceComputes(m, false, n, w, sqrt, eps, reduce);
    NormedEntries(m, next, n, w, sqrt, eps, norm, inv);
    SameFillSameRow(m, next, Normed(inv), n, rows, first, w, fused, matvec, lid);
  }

  lemma NormedEntries(m: Mem, next: Mem, n: nat, w: Count, sqrt: real -> real, eps: real, norm: seq<Event>, inv: real)
    requires PowerOfTwo(w) && inv == InvRoot(sqrt, eps, n, Total(Squares(m, false, n), n))
    requires var k := RmsNormKernel(n, w, sqrt, eps); Finishes(k[0], k[1..], norm) && Fed(Run(m, k[0], k[1..], norm), next, n)
    ensures SameFill(m, Normed(inv), next, n)
  {
    var k := RmsNormKernel(n, w, sqrt, eps);
    var r := Run(m, k[0], k[1..], norm);
    forall i: nat | i < n ensures Get(r, Y(i)) == NormedEntry(m, n, sqrt, eps, i) {
      RmsNormComputes(m, n, w, sqrt, eps, norm, i);
    }
    FedEntries(m, r, next, n, sqrt, eps, inv);
  }

  lemma FedEntries(m: Mem, r: Mem, next: Mem, n: nat, sqrt: real -> real, eps: real, inv: real)
    requires inv == InvRoot(sqrt, eps, n, Total(Squares(m, false, n), n)) && Fed(r, next, n)
    requires forall i: nat :: i < n ==> Get(r, Y(i)) == NormedEntry(m, n, sqrt, eps, i)
    ensures SameFill(m, Normed(inv), next, n)
  {
  }

  // The next kernel's input is what the fused kernel computes for itself.
  ghost predicate SameFill(m: Mem, f: Fill, next: Mem, n: nat) {
    forall i: nat :: i < n ==> FillOf(m, f)(i) == FillOf(next, Plain)(i)
  }

  lemma SameFillSameRow(m: Mem, next: Mem, f: Fill, n: nat, rows: seq<Row>, first: nat, w: Count, fused: seq<Event>, matvec: seq<Event>, lid: nat)
    requires SameFill(m, f, next, n) && lid < w && first + lid < |rows| && Within(rows[first + lid], n)
    requires var k := MatvecKernel(f, n, rows, first, w); Finishes(k[0], k[1..], fused)
    requires var k := MatvecKernel(Plain, n, rows, first, w); Finishes(k[0], k[1..], matvec)
    ensures var k, l := MatvecKernel(f, n, rows, first, w), MatvecKernel(Plain, n, rows, first, w); Get(Run(m, k[0], k[1..], fused), Y(first + lid)) == Get(Run(next, l[0], l[1..], matvec), Y(first + lid))
  {
    MatvecComputes(m, f, n, rows, first, w, fused, lid);
    MatvecComputes(next, Plain, n, rows, first, w, matvec, lid);
    RowSumAgrees(FillOf(m, f), FillOf(next, Plain), rows[first + lid], n);
  }

  // add_norm: one item per entry, when the launch has at least n items.
  function AddNormKernel(inv: real, n: nat, w: Count): (k: Kernel)
    ensures k != []
  {
    [FillPhase(false, AddNormed(inv), n, w)]
  }

  // add_norm_matvec is add_norm followed by matvec, given the same inverse root.
  lemma AddNormMatvecIsComposition(m: Mem, next: Mem, n: nat, rows: seq<Row>, first: nat, w: Count, v: Count, inv: real,
                                   fused: seq<Event>, norm: seq<Event>, matvec: seq<Event>, lid: nat)
    requires lid < w && first + lid < |rows| && Within(rows[first + lid], n)
    requires var k := MatvecKernel(AddNormed(inv), n, rows, first, w); Finishes(k[0], k[1..], fused)
    requires var k := AddNormKernel(inv, n, v); Finishes(k[0], k[1..], norm) && Fed(Run(m, k[0], k[1..], norm), next, n)
    requires var k := MatvecKernel(Plain, n, rows, first, w); Finishes(k[0], k[1..], matvec)
    ensures var k, l := MatvecKernel(AddNormed(inv), n, rows, first, w), MatvecKernel(Plain, n, rows, first, w); Get(Run(m, k[0], k[1..], fused), Y(first + lid)) == Get(Run(next, l[0], l[1..], matvec), Y(first + lid))
  {
    forall i: nat | i < n ensures FillOf(m, AddNormed(inv))(i) == FillOf(next, Plain)(i) {
      AddNormComputes(m, inv, n, v, norm, i);
    }
    SameFillSameRow(m, next, AddNormed(inv), n, rows, first, w, fused, matvec, lid);
  }

  lemma AddNormComputes(m: Mem, inv: real, n: nat, w: Count, trace: seq<Event>, i: nat)
    requires i < n
    requires var k := AddNormKernel(inv, n, w); Finishes(k[0], k[1..], trace)
    ensures var k := AddNormKernel(inv, n, w); Get(Run(m, k[0], k[1..], trace), Y(i)) == FillValue(m, AddNormed(inv), i)
  {
    var fill := FillPhase(false, AddNormed(inv), n, w);
    FillPhaseDisciplined(false, AddNormed(inv), n, w);
    DisciplineIsRaceFree(fill, FillOwner(false, w));
    OnePhase(fill, m);
    AnySchedule(m, AddNormKernel(inv, n, w), trace);
    FillPhaseValue(m, false, AddNormed(inv), n, w, i);
  }
}
