// The reduction kernels (python/xecuda/kernels.py, rms_norm, rms_norm_reduce and
// add_rms_norm_reduce) for any group size that is a power of two.
module Reduction {
  import opened Division
  import opened Tensors
  import opened Values
  import opened Barriers

  // ---- sums over residue classes ------------------------------------------------------------

  function SumFolds(v: Vec, w: Count, n: nat, k: nat): real {
    if k == 0 then 0.0 else SumFolds(v, w, n, k - 1) + Fold(v, w, k - 1, n)
  }

  lemma {:induction false} SumFoldsStep(v: Vec, w: Count, n: nat, k: nat)
    requires n > 0
    ensures SumFolds(v, w, n, k) == SumFolds(v, w, n - 1, k) + if (n - 1) % w < k then At(v, n - 1) else 0.0
  {
    if k > 0 { SumFoldsStep(v, w, n, k - 1); }
  }

  lemma {:induction false} SumFoldsNone(v: Vec, w: Count, k: nat)
    ensures SumFolds(v, w, 0, k) == 0.0
  {
    if k > 0 { SumFoldsNone(v, w, k - 1); }
  }

  // The strided loops of all items visit every index once.
  lemma {:induction false} FoldsAreTotal(v: Vec, w: Count, n: nat)
    ensures SumFolds(v, w, n, w) == Total(v, n)
  {
    if n == 0 {
      SumFoldsNone(v, w, w);
    } else {
      FoldsAreTotal(v, w, n - 1);
      SumFoldsStep(v, w, n, w);
    }
  }

  lemma {:induction false} FoldGap(v: Vec, w: Count, i: nat, k: nat)
    requires i < k <= i + w
    ensures Fold(v, w, i % w, k) == Fold(v, w, i % w, i) + At(v, i)
  {
    if k > i + 1 {
      FoldGap(v, w, i, k - 1);
      OtherRemainder(i, k - 1, w);
    }
  }

  lemma {:induction false} FoldBefore(v: Vec, w: Count, lid: nat, k: nat)
    requires k <= lid < w
    ensures Fold(v, w, lid, k) == 0.0
  {
    if k > 0 { FoldBefore(v, w, lid, k - 1); }
  }

  // ---- the first phase -----------------------------------------------------------------------------

  // The square of entry i of x, or of x plus the residual.
  function Square(fused: bool, i: nat): Term {
    if fused then Term([X(i), Residual(i)], (v: seq<real>) => if |v| == 2 then (v[0] + v[1]) * (v[0] + v[1]) else 0.0)
    else Term([X(i)], (v: seq<real>) => if |v| == 1 then v[0] * v[0] else 0.0)
  }

  function Input(m: Mem, fused: bool, i: nat): real {
    if fused then Get(m, X(i)) + Get(m, Residual(i)) else Get(m, X(i))
  }

  function Squares(m: Mem, fused: bool, n: nat): (v: Vec)
    ensures |v| == n
  {
    seq(n, (i: nat) => Input(m, fused, i) * Input(m, fused, i))
  }

  // for (i = lid; i < n; i += group size)
  function Strided(fused: bool, i: nat, n: nat, w: Count): seq<Term>
    decreases if i < n then n - i else 0
  {
    if i >= n then [] else [Square(fused, i)] + Strided(fused, i + w, n, w)
  }

  lemma SquareValue(m: Mem, fused: bool, i: nat)
    ensures Square(fused, i).f(Load(m, Square(fused, i).srcs)) == Input(m, fused, i) * Input(m, fused, i)
  {
  }

  lemma FirstTerm(m: Mem, fused: bool, i: nat, n: nat, w: Count)
    requires i < n
    ensures TermSum(m, Strided(fused, i, n, w)) == At(Squares(m, fused, n), i) + TermSum(m, Strided(fused, i + w, n, w))
  {
    SquareValue(m, fused, i);
    assert Strided(fused, i, n, w)[1..] == Strided(fused, i + w, n, w);
  }

  lemma {:induction false} StridedSum(m: Mem, fused: bool, i: nat, n: nat, w: Count)
    ensures TermSum(m, Strided(fused, i, n, w)) == Fold(Squares(m, fused, n), w, i % w, n) - Fold(Squares(m, fused, n), w, i % w, if i < n then i else n)
    decreases if i < n then n - i else 0
  {
    if i < n {
      StridedSum(m, fused, i + w, n, w);
      FirstTerm(m, fused, i, n, w);
      FoldGap(Squares(m, fused, n), w, i, if i + w < n then i + w else n);
      AddDivisor(i, w);
    }
  }

  lemma {:induction false} StridedSources(fused: bool, i: nat, n: nat, w: Count, lid: int)
    ensures ReadsOwn(Strided(fused, i, n, w), lid, SumOwner) && forall a: Addr :: a.Acc? ==> AvoidsAcc(a, Strided(fused, i, n, w))
    decreases if i < n then n - i else 0
  {
    if i < n {
      StridedSources(fused, i + w, n, w, lid);
      var p := Strided(fused, i + w, n, w);
      assert Strided(fused, i, n, w) == [Square(fused, i)] + p;
    }
  }

  function SumItem(fused: bool, lid: nat, n: nat, w: Count): Program {
    SumInto(LSum(lid), Acc(lid), Strided(fused, lid, n, w))
  }

  function SumPhase(fused: bool, n: nat, w: Count): (items: seq<Program>)
    ensures |items| == w
  {
    seq(w, (lid: nat) => SumItem(fused, lid, n, w))
  }

  function SumOwner(b: Addr): int {
    if b.Acc? then b.lid else if b.LSum? then b.i else NOBODY
  }

  lemma SumPhaseDisciplined(fused: bool, n: nat, w: Count)
    ensures forall i :: 0 <= i < w ==> Disciplined(SumPhase(fused, n, w)[i], i, SumOwner)
  {
    forall i | 0 <= i < w ensures Disciplined(SumPhase(fused, n, w)[i], i, SumOwner) {
      StridedSources(fused, i, n, w, i);
      SumIntoDisciplined(LSum(i), Acc(i), Strided(fused, i, n, w), i, SumOwner);
    }
  }

  lemma SumItemValue(m: Mem, fused: bool, n: nat, w: Count, lid: nat)
    ensures Get(RunProgram(m, SumItem(fused, lid, n, w)), LSum(lid)) == TermSum(m, Strided(fused, lid, n, w))
  {
    StridedSources(fused, lid, n, w, lid);
    SumIntoValue(m, LSum(lid), Acc(lid), Strided(fused, lid, n, w));
  }

  lemma StridedFromStart(m: Mem, fused: bool, n: nat, w: Count, lid: nat)
    requires lid < w
    ensures TermSum(m, Strided(fused, lid, n, w)) == Fold(Squares(m, fused, n), w, lid, n)
  {
    StridedSum(m, fused, lid, n, w);
    FoldBefore(Squares(m, fused, n), w, lid, if lid < n then lid else n);
    DivMod(0, lid, w);
  }

  lemma SumPhaseValue(m: Mem, fused: bool, n: nat, w: Count, lid: nat)
    requires lid < w
    ensures Get(Sequential(m, SumPhase(fused, n, w), 0), LSum(lid)) == Fold(Squares(m, fused, n), w, lid, n)
  {
    SumPhaseDisciplined(fused, n, w);
    OwnerValue(m, SumPhase(fused, n, w), SumOwner, lid, LSum(lid));
    SumItemValue(m, fused, n, w, lid);
    StridedFromStart(m, fused, n, w, lid);
  }

  // ---- the tree ---------------------------------------------------------------------------------------

  function Halve(lid: nat, s: nat): Program {
    if lid < s then [Action(LSum(lid), [LSum(lid), LSum(lid + s)], (v: seq<real>) => if |v| == 2 then v[0] + v[1] else 0.0)] else []
  }

  function TreePhase(s: nat, w: Count): (items: seq<Program>)
    ensures |items| == w
  {
    seq(w, (lid: nat) => Halve(lid, s))
  }

  function TreePhases(s: nat, w: Count): Kernel {
    if s == 0 then [] else [TreePhase(s, w)] + TreePhases(s / 2, w)
  }

  // In each phase an item owns its entry and the one it adds.
  function TreeOwner(s: nat): Addr -> int {
    (b: Addr) => if b.LSum? && b.i < s then b.i else if b.LSum? && b.i < 2 * s then b.i - s else NOBODY
  }

  lemma TreePhaseDisciplined(s: nat, w: Count)
    ensures forall i :: 0 <= i < w ==> Disciplined(TreePhase(s, w)[i], i, TreeOwner(s))
  {
  }

  function SumFrom(m: Mem, a: nat, k: nat): real {
    if k == 0 then 0.0 else SumFrom(m, a, k - 1) + Get(m, LSum(a + (k - 1)))
  }

  lemma HalveValue(m: Mem, s: nat, w: Count, lid: nat)
    requires lid < s <= w
    ensures Get(Sequential(m, TreePhase(s, w), 0), LSum(lid)) == Get(m, LSum(lid)) + Get(m, LSum(lid + s))
  {
    TreePhaseDisciplined(s, w);
    OwnerValue(m, TreePhase(s, w), TreeOwner(s), lid, LSum(lid));
    RunOne(m, Halve(lid, s)[0]);
  }

  lemma {:induction false} HalvesAdd(m: Mem, n: Mem, s: nat, k: nat)
    requires forall i: nat :: i < k ==> Get(n, LSum(i)) == Get(m, LSum(i)) + Get(m, LSum(i + s))
    ensures SumFrom(n, 0, k) == SumFrom(m, 0, k) + SumFrom(m, s, k)
  {
    if k > 0 { HalvesAdd(m, n, s, k - 1); }
  }

  lemma {:induction false} SplitSum(m: Mem, a: nat, k: nat)
    ensures SumFrom(m, 0, a + k) == SumFrom(m, 0, a) + SumFrom(m, a, k)
  {
    if k > 0 { SplitSum(m, a, k - 1); }
  }

  lemma TreeStep(m: Mem, s: nat, w: Count)
    requires s <= w
    ensures SumFrom(Sequential(m, TreePhase(s, w), 0), 0, s) == SumFrom(m, 0, 2 * s)
  {
    var n := Sequential(m, TreePhase(s, w), 0);
    forall i: nat | i < s ensures Get(n, LSum(i)) == Get(m, LSum(i)) + Get(m, LSum(i + s)) {
      HalveValue(m, s, w, i);
    }
    HalvesAdd(m, n, s, s);
    SplitSum(m, s, s);
  }

  predicate PowerOfTwo(w: nat) {
    w == 1 || (w > 1 && w % 2 == 0 && PowerOfTwo(w / 2))
  }

  lemma {:induction false} TreeSum(m: Mem, s: nat, w: Count)
    requires s <= w && (s == 0 || PowerOfTwo(s))
    ensures Get(InOrder(m, TreePhases(s, w)), LSum(0)) == SumFrom(m, 0, if s == 0 then 1 else 2 * s)
    decreases s
  {
    if s == 0 {
      assert SumFrom(m, 0, 1) == SumFrom(m, 0, 0) + Get(m, LSum(0));
    } else {
      TreeStep(m, s, w);
      TreeSum(Sequential(m, TreePhase(s, w), 0), s / 2, w);
      assert TreePhases(s, w)[1..] == TreePhases(s / 2, w);
    }
  }

  lemma {:induction false} TreeKeeps(m: Mem, s: nat, w: Count, b: Addr)
    requires !b.LSum?
    ensures Get(InOrder(m, TreePhases(s, w)), b) == Get(m, b)
    decreases s
  {
    if s > 0 {
      TreePhaseDisciplined(s, w);
      NobodyWrites(m, TreePhase(s, w), TreeOwner(s), b);
      TreeKeeps(Sequential(m, TreePhase(s, w), 0), s / 2, w, b);
      assert TreePhases(s, w)[1..] == TreePhases(s / 2, w);
    }
  }

  lemma {:induction false} TreeRaceFree(s: nat, w: Count)
    ensures PhasesRaceFree(TreePhases(s, w))
  {
    if s > 0 {
      TreePhaseDisciplined(s, w);
      DisciplineIsRaceFree(TreePhase(s, w), TreeOwner(s));
      TreeRaceFree(s / 2, w);
      PhasesCons(TreePhase(s, w), TreePhases(s / 2, w));
    }
  }

  lemma PhasesCons(first: seq<Program>, rest: Kernel)
    requires RaceFree(first) && PhasesRaceFree(rest)
    ensures PhasesRaceFree([first] + rest)
  {
  }

  lemma PhasesConcat(a: Kernel, b: Kernel)
    requires PhasesRaceFree(a) && PhasesRaceFree(b)
    ensures PhasesRaceFree(a + b)
  {
  }

  lemma {:induction false} InOrderConcat(m: Mem, a: Kernel, b: Kernel)
    ensures InOrder(m, a + b) == InOrder(InOrder(m, a), b)
    decreases |a|
  {
    if a == [] {
      assert a + b == b;
    } else {
      assert (a + b)[1..] == a[1..] + b;
      InOrderConcat(Sequential(m, a[0], 0), a[1..], b);
    }
  }

  lemma {:induction false} FoldsInMemory(m: Mem, v: Vec, w: Count, n: nat, k: nat)
    requires forall i: nat :: i < k ==> Get(m, LSum(i)) == Fold(v, w, i, n)
    ensures SumFrom(m, 0, k) == SumFolds(v, w, n, k)
  {
    if k > 0 { FoldsInMemory(m, v, w, n, k - 1); }
  }

  function Reduce(fused: bool, n: nat, w: Count): (k: Kernel)
    ensures k != []
  {
    [SumPhase(fused, n, w)] + TreePhases(w / 2, w)
  }

  lemma ReduceRaceFree(fused: bool, n: nat, w: Count)
    ensures PhasesRaceFree(Reduce(fused, n, w))
  {
    SumPhaseDisciplined(fused, n, w);
    DisciplineIsRaceFree(SumPhase(fused, n, w), SumOwner);
    TreeRaceFree(w / 2, w);
    PhasesCons(SumPhase(fused, n, w), TreePhases(w / 2, w));
  }

  // After the tree, the first entry holds the sum of all squares, and inputs are as they were.
  lemma ReduceSums(m: Mem, fused: bool, n: nat, w: Count)
    requires PowerOfTwo(w)
    ensures Get(InOrder(m, Reduce(fused, n, w)), LSum(0)) == Total(Squares(m, fused, n), n)
  {
    var v := Squares(m, fused, n);
    var r := Sequential(m, SumPhase(fused, n, w), 0);
    forall i: nat | i < w ensures Get(r, LSum(i)) == Fold(v, w, i, n) {
      SumPhaseValue(m, fused, n, w, i);
    }
    FoldsInMemory(r, v, w, n, w);
    FoldsAreTotal(v, w, n);
    TreeSum(r, w / 2, w);
    assert Reduce(fused, n, w)[1..] == TreePhases(w / 2, w);
  }

  lemma ReduceKeeps(m: Mem, fused: bool, n: nat, w: Count, b: Addr)
    requires !b.LSum? && !b.Acc?
    ensures Get(InOrder(m, Reduce(fused, n, w)), b) == Get(m, b)
  {
    SumPhaseDisciplined(fused, n, w);
    NobodyWrites(m, SumPhase(fused, n, w), SumOwner, b);
    TreeKeeps(Sequential(m, SumPhase(fused, n, w), 0), w / 2, w, b);
    assert Reduce(fused, n, w)[1..] == TreePhases(w / 2, w);
  }
}
