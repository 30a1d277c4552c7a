// The quantised matrix-vector kernels from end to end: under every schedule of a work-group's
// items, each row is the product with the reference's decoding of that row.
module MatvecSchedules {
  import opened Barriers
  import opened RangeSums
  import opened NormKernels
  import HalfFloat
  import Q4 = QuantQ4
  import Q6 = QuantQ6

  // ---- the order in which the loops add products -----------------------------------------------

  // Round l of the inner loop over a group of the given number of lanes of 32 entries at a.
  function Round(v: seq<real>, a: nat, lanes: nat, l: nat): (r: Row)
    ensures |r| == lanes
  {
    seq(lanes, (k: nat) => (a + 32 * k + l, if a + 32 * k + l < |v| then v[a + 32 * k + l] else 0.0))
  }

  function Rounds(v: seq<real>, a: nat, lanes: nat, l: nat): Row {
    if l == 0 then [] else Rounds(v, a, lanes, l - 1) + Round(v, a, lanes, l - 1)
  }

  // All groups of a row of weights v, the first count of them.
  function LoopOrder(v: seq<real>, lanes: nat, count: nat): Row {
    if count == 0 then [] else LoopOrder(v, lanes, count - 1) + Rounds(v, Start(lanes, count - 1), lanes, 32)
  }

  function Start(lanes: nat, group: nat): nat {
    32 * lanes * group
  }

  lemma NextStart(lanes: nat, group: nat)
    ensures Start(lanes, group + 1) == Start(lanes, group) + 32 * lanes && Start(lanes, 0) == 0
  {
  }

  function Terms(v: seq<real>, x: nat -> real): nat -> real {
    (i: nat) => (if i < |v| then v[i] else 0.0) * x(i)
  }

  lemma {:induction false} RowSumConcat(x: nat -> real, p: Row, q: Row)
    ensures RowSum(x, p + q) == RowSum(x, p) + RowSum(x, q)
  {
    if p == [] {
      assert p + q == q;
    } else {
      assert (p + q)[1..] == p[1..] + q;
      RowSumConcat(x, p[1..], q);
    }
  }

  // Sum over the lanes of the first l entries of each.
  function LaneTotal(f: nat -> real, a: nat, lanes: nat, l: nat): real {
    if lanes == 0 then 0.0 else LaneTotal(f, a, lanes - 1, l) + Sum(f, a + 32 * (lanes - 1), l)
  }

  function Across(f: nat -> real, a: nat, lanes: nat, l: nat): real {
    if lanes == 0 then 0.0 else Across(f, a, lanes - 1, l) + f(a + 32 * (lanes - 1) + l)
  }

  lemma {:induction false} NextRound(f: nat -> real, a: nat, lanes: nat, l: nat)
    ensures LaneTotal(f, a, lanes, l + 1) == LaneTotal(f, a, lanes, l) + Across(f, a, lanes, l)
  {
    if lanes > 0 {
      NextRound(f, a, lanes - 1, l);
      SumNext(f, a + 32 * (lanes - 1), l);
    }
  }

  lemma {:induction false} NoRounds(f: nat -> real, a: nat, lanes: nat)
    ensures LaneTotal(f, a, lanes, 0) == 0.0
  {
    if lanes > 0 { NoRounds(f, a, lanes - 1); }
  }

  // Complete lanes make up the group.
  lemma {:induction false} LanesJoin(f: nat -> real, a: nat, lanes: nat)
    ensures LaneTotal(f, a, lanes, 32) == Sum(f, a, 32 * lanes)
  {
    if lanes > 0 {
      LanesJoin(f, a, lanes - 1);
      SumSplit(f, a, 32 * (lanes - 1), 32);
    }
  }

  lemma {:induction false} RoundSum(v: seq<real>, x: nat -> real, a: nat, lanes: nat, l: nat)
    ensures RowSum(x, Round(v, a, lanes, l)) == Across(Terms(v, x), a, lanes, l)
  {
    if lanes == 0 {
      assert Round(v, a, 0, l) == [];
    } else {
      RoundSum(v, x, a, lanes - 1, l);
      var i := a + 32 * (lanes - 1) + l;
      var last: Row := [(i, if i < |v| then v[i] else 0.0)];
      assert Round(v, a, lanes, l) == Round(v, a, lanes - 1, l) + last;
      RowSumConcat(x, Round(v, a, lanes - 1, l), last);
      SingleProduct(v, x, i, last);
    }
  }

  lemma SingleProduct(v: seq<real>, x: nat -> real, i: nat, one: Row)
    requires one == [(i, if i < |v| then v[i] else 0.0)]
    ensures RowSum(x, one) == Terms(v, x)(i)
  {
    assert one[1..] == [];
  }

  lemma {:induction false} RoundsSum(v: seq<real>, x: nat -> real, a: nat, lanes: nat, l: nat)
    ensures RowSum(x, Rounds(v, a, lanes, l)) == LaneTotal(Terms(v, x), a, lanes, l)
  {
    if l == 0 {
      NoRounds(Terms(v, x), a, lanes);
    } else {
      RoundsSum(v, x, a, lanes, l - 1);
      RowSumConcat(x, Rounds(v, a, lanes, l - 1), Round(v, a, lanes, l - 1));
      RoundSum(v, x, a, lanes, l - 1);
      NextRound(Terms(v, x), a, lanes, l - 1);
    }
  }

  lemma GroupSum(v: seq<real>, x: nat -> real, lanes: nat, before: Row, a: nat)
    requires RowSum(x, before) == Sum(Terms(v, x), 0, a)
    ensures RowSum(x, before + Rounds(v, a, lanes, 32)) == Sum(Terms(v, x), 0, a + 32 * lanes)
  {
    RowSumConcat(x, before, Rounds(v, a, lanes, 32));
    RoundsSum(v, x, a, lanes, 32);
    LanesJoin(Terms(v, x), a, lanes);
    SumSplit(Terms(v, x), 0, a, 32 * lanes);
  }

  // However many lanes a round interleaves, the row's products are added once each.
  lemma {:induction false} LoopOrderSum(v: seq<real>, x: nat -> real, lanes: nat, count: nat, size: nat)
    requires size == Start(lanes, count)
    ensures RowSum(x, LoopOrder(v, lanes, count)) == Sum(Terms(v, x), 0, size)
  {
    if count == 0 {
      NextStart(lanes, 0);
    } else {
      NextStart(lanes, count - 1);
      LoopOrderSum(v, x, lanes, count - 1, Start(lanes, count - 1));
      GroupSum(v, x, lanes, LoopOrder(v, lanes, count - 1), Start(lanes, count - 1));
    }
  }

  lemma WithinConcat(p: Row, q: Row, n: nat)
    requires Within(p, n) && Within(q, n)
    ensures Within(p + q, n)
  {
  }

  lemma {:induction false} RoundsWithin(v: seq<real>, a: nat, lanes: nat, l: nat, n: nat)
    requires l <= 32 && a + 32 * lanes <= n
    ensures Within(Rounds(v, a, lanes, l), n)
  {
    if l > 0 {
      RoundsWithin(v, a, lanes, l - 1, n);
      WithinConcat(Rounds(v, a, lanes, l - 1), Round(v, a, lanes, l - 1), n);
    }
  }

  lemma {:induction false} LoopOrderWithin(v: seq<real>, lanes: nat, count: nat, size: nat, n: nat)
    requires size == Start(lanes, count) && size <= n
    ensures Within(LoopOrder(v, lanes, count), n)
  {
    if count > 0 {
      var a := Start(lanes, count - 1);
      NextStart(lanes, count - 1);
      LoopOrderWithin(v, lanes, count - 1, a, n);
      RoundsWithin(v, a, lanes, 32, n);
      WithinConcat(LoopOrder(v, lanes, count - 1), Rounds(v, a, lanes, 32), n);
    }
  }

  // ---- the kernels ----------------------------------------------------------------------------------

  // Groups of 64 as two lanes; halves of 128 as four.
  const Q4_LANES: nat := 2
  const Q6_LANES: nat := 4

  // The product of weights v with the vector that local memory is filled with.
  function Expected(m: Mem, f: Fill, v: seq<real>): real {
    Sum(Terms(v, FillOf(m, f)), 0, |v|)
  }

  lemma RowOfWeights(m: Mem, f: Fill, v: seq<real>, lanes: nat, count: nat, n: nat)
    requires |v| == 32 * lanes * count && |v| <= n
    ensures Within(LoopOrder(v, lanes, count), n)
    ensures RowSum(FillOf(m, f), LoopOrder(v, lanes, count)) == Expected(m, f, v)
  {
    LoopOrderWithin(v, lanes, count, |v|, n);
    LoopOrderSum(v, FillOf(m, f), lanes, count, |v|);
  }

  // Rows of a group of Q4_K rows as the kernel's loops read them.
  function Q4Rows(rows: seq<Q4.Packed>, blocks: nat): (r: seq<Row>)
    requires forall i :: 0 <= i < |rows| ==> Q4.Blocks(rows[i], blocks)
    ensures |r| == |rows|
  {
    seq(|rows|, i requires 0 <= i < |rows| => LoopOrder(Q4.Decoded(HalfFloat.Kernel, rows[i], blocks), Q4_LANES, 4 * blocks))
  }

  // matvec_q4k, norm_matvec_q4k and add_norm_matvec_q4k, by what fills local memory: under every
  // schedule a row of finite blocks gives the product with dequant_q4k of that row.
  lemma MatvecQ4IsReference(m: Mem, f: Fill, n: nat, rows: seq<Q4.Packed>, blocks: nat, first: nat, w: Tensors.Count, trace: seq<Event>, lid: nat)
    requires blocks == n / 256 && (forall i :: 0 <= i < |rows| ==> Q4.Blocks(rows[i], blocks))
    requires lid < w && first + lid < |rows| && Q4.Finite(rows[first + lid], blocks)
    requires var k := MatvecKernel(f, n, Q4Rows(rows, blocks), first, w); Finishes(k[0], k[1..], trace)
    ensures var k := MatvecKernel(f, n, Q4Rows(rows, blocks), first, w); Get(Run(m, k[0], k[1..], trace), Y(first + lid)) == Expected(m, f, Q4.Decoded(Q4.ReferenceNumber, rows[first + lid], blocks))
  {
    hide Q4.Finite, Q4.Blocks, Expected, Run;
    var v := Q4.Decoded(HalfFloat.Kernel, rows[first + lid], blocks);
    Q4.DecodersAgree(rows[first + lid], blocks);
    RowOfWeights(m, f, v, Q4_LANES, 4 * blocks, n);
    MatvecComputes(m, f, n, Q4Rows(rows, blocks), first, w, trace, lid);
  }

  // ---- four accumulators ----------------------------------------------------------------------------

  // matvec_q6k keeps one partial sum for each of the four lanes of a half block and adds them to
  // the row's sum at its end.

  function LaneShare(v: seq<real>, a: nat, lid: nat, k: nat, l: nat): Share {
    var i := a + 32 * k + l;
    Share(Private(lid, k), Product((i, if i < |v| then v[i] else 0.0)))
  }

  function RoundShares(v: seq<real>, a: nat, lid: nat, lanes: nat, l: nat): (s: seq<Share>)
    ensures |s| == lanes
  {
    seq(lanes, (k: nat) => LaneShare(v, a, lid, k, l))
  }

  // The first l rounds of the inner loop.
  function HalfShares(v: seq<real>, a: nat, lid: nat, lanes: nat, l: nat): seq<Share> {
    if l == 0 then [] else HalfShares(v, a, lid, lanes, l - 1) + RoundShares(v, a, lid, lanes, l - 1)
  }

  function ClearParts(lid: nat, lanes: nat): (p: Program)
    ensures |p| == lanes
  {
    seq(lanes, (k: nat) => Clear(Private(lid, k)))
  }

  // sum += s0 + s1 + s2 + s3
  function Gather(lid: nat): Action {
    AddTo(Acc(lid), Term([Private(lid, 0), Private(lid, 1), Private(lid, 2), Private(lid, 3)], (v: seq<real>) => if |v| == 4 then v[0] + v[1] + v[2] + v[3] else 0.0))
  }

  function Half(v: seq<real>, a: nat, lid: nat): Program {
    ClearParts(lid, Q6_LANES) + (AddShares(HalfShares(v, a, lid, Q6_LANES, 32)) + [Gather(lid)])
  }

  function Halves(v: seq<real>, lid: nat, count: nat): Program {
    if count == 0 then [] else Halves(v, lid, count - 1) + Half(v, 128 * (count - 1), lid)
  }

  // The part of the kernel after the barrier, for one item.
  function LaneItem(v: seq<real>, count: nat, lid: nat, dst: Addr): Program {
    [Clear(Acc(lid))] + (Halves(v, lid, count) + [Copy(dst, Acc(lid))])
  }

  function Parts(lid: nat, lanes: nat): set<Addr> {
    set k: nat | k < lanes :: Private(lid, k)
  }

  // ---- what it computes -------------------------------------------------------------------------------

  ghost predicate LocalIs(m: Mem, x: nat -> real) {
    forall i: nat :: Get(m, XLocal(i)) == x(i)
  }

  lemma LaneProduct(m: Mem, v: seq<real>, x: nat -> real, a: nat, lid: nat, k: nat, l: nat)
    requires LocalIs(m, x)
    ensures var t := LaneShare(v, a, lid, k, l).term; t.f(Load(m, t.srcs)) == Terms(v, x)(a + 32 * k + l)
  {
  }

  lemma {:induction false} RoundSharesSum(m: Mem, v: seq<real>, x: nat -> real, a: nat, lid: nat, lanes: nat, l: nat, k: nat)
    requires LocalIs(m, x)
    ensures ShareSum(m, RoundShares(v, a, lid, lanes, l), Private(lid, k)) == if k < lanes then Terms(v, x)(a + 32 * k + l) else 0.0
  {
    if lanes > 0 {
      var last := LaneShare(v, a, lid, lanes - 1, l);
      LaneProduct(m, v, x, a, lid, lanes - 1, l);
      RoundSharesSum(m, v, x, a, lid, lanes - 1, l, k);
      assert RoundShares(v, a, lid, lanes, l) == RoundShares(v, a, lid, lanes - 1, l) + [last];
      ShareSumConcat(m, RoundShares(v, a, lid, lanes - 1, l), [last], Private(lid, k));
      assert [last][1..] == [];
    }
  }

  lemma {:induction false} HalfSharesSum(m: Mem, v: seq<real>, x: nat -> real, a: nat, lid: nat, lanes: nat, l: nat, k: nat)
    requires k < lanes && LocalIs(m, x)
    ensures ShareSum(m, HalfShares(v, a, lid, lanes, l), Private(lid, k)) == Sum(Terms(v, x), a + 32 * k, l)
  {
    if l > 0 {
      HalfSharesSum(m, v, x, a, lid, lanes, l - 1, k);
      RoundSharesSum(m, v, x, a, lid, lanes, l - 1, k);
      ShareSumConcat(m, HalfShares(v, a, lid, lanes, l - 1), RoundShares(v, a, lid, lanes, l - 1), Private(lid, k));
    }
  }

  lemma {:induction false} HalfSharesAmong(v: seq<real>, a: nat, lid: nat, lanes: nat, l: nat)
    ensures Among(HalfShares(v, a, lid, lanes, l), Parts(lid, lanes))
  {
    if l > 0 { HalfSharesAmong(v, a, lid, lanes, l - 1); }
  }

  lemma {:induction false} PartsCleared(m: Mem, lid: nat, lanes: nat, b: Addr)
    ensures Get(RunProgram(m, ClearParts(lid, lanes)), b) == if b in Parts(lid, lanes) then 0.0 else Get(m, b)
  {
    if lanes > 0 {
      var p, last := ClearParts(lid, lanes - 1), Clear(Private(lid, lanes - 1));
      PartsCleared(m, lid, lanes - 1, b);
      assert ClearParts(lid, lanes) == p + [last];
      RunConcat(m, p, [last]);
      RunOne(RunProgram(m, p), last);
    }
  }

  // After clearing and adding, part k holds the sum over its lane and nothing else has changed.
  lemma LanesFilled(m: Mem, v: seq<real>, x: nat -> real, a: nat, lid: nat) returns (n: Mem)
    requires LocalIs(m, x)
    ensures n == RunProgram(RunProgram(m, ClearParts(lid, Q6_LANES)), AddShares(HalfShares(v, a, lid, Q6_LANES, 32)))
    ensures forall k: nat :: k < Q6_LANES ==> Get(n, Private(lid, k)) == Sum(Terms(v, x), a + 32 * k, 32)
    ensures forall b :: b !in Parts(lid, Q6_LANES) ==> Get(n, b) == Get(m, b)
  {
    var c := RunProgram(m, ClearParts(lid, Q6_LANES));
    var s := HalfShares(v, a, lid, Q6_LANES, 32);
    n := RunProgram(c, AddShares(s));
    HalfSharesAmong(v, a, lid, Q6_LANES, 32);
    forall b ensures Get(c, b) == if b in Parts(lid, Q6_LANES) then 0.0 else Get(m, b) { PartsCleared(m, lid, Q6_LANES, b); }
    assert LocalIs(c, x);
    forall k: nat | k < Q6_LANES ensures Get(n, Private(lid, k)) == Sum(Terms(v, x), a + 32 * k, 32) {
      SharesAdded(c, s, Parts(lid, Q6_LANES), Private(lid, k));
      HalfSharesSum(c, v, x, a, lid, Q6_LANES, 32, k);
    }
    forall b | b !in Parts(lid, Q6_LANES) ensures Get(n, b) == Get(m, b) {
      SharesAdded(c, s, Parts(lid, Q6_LANES), b);
      NoShare(c, s, Parts(lid, Q6_LANES), b);
    }
  }

  lemma FourLanes(f: nat -> real, a: nat)
    ensures Sum(f, a, 32) + Sum(f, a + 32, 32) + Sum(f, a + 64, 32) + Sum(f, a + 96, 32) == Sum(f, a, 128)
  {
    SumSplit(f, a, 32, 32);
    SumSplit(f, a, 64, 32);
    SumSplit(f, a, 96, 32);
  }

  lemma Gathered(n: Mem, lid: nat)
    ensures Get(Exec(n, Gather(lid)), Acc(lid)) == Get(n, Acc(lid)) + (Get(n, Private(lid, 0)) + Get(n, Private(lid, 1)) + Get(n, Private(lid, 2)) + Get(n, Private(lid, 3)))
  {
    AddOnce(n, Acc(lid), Term([Private(lid, 0), Private(lid, 1), Private(lid, 2), Private(lid, 3)], (v: seq<real>) => if |v| == 4 then v[0] + v[1] + v[2] + v[3] else 0.0));
  }

  lemma HalfValue(m: Mem, v: seq<real>, x: nat -> real, a: nat, lid: nat)
    requires LocalIs(m, x)
    ensures Get(RunProgram(m, Half(v, a, lid)), Acc(lid)) == Get(m, Acc(lid)) + Sum(Terms(v, x), a, 128)
    ensures LocalIs(RunProgram(m, Half(v, a, lid)), x)
  {
    var clear, add := ClearParts(lid, Q6_LANES), AddShares(HalfShares(v, a, lid, Q6_LANES, 32));
    var n := LanesFilled(m, v, x, a, lid);
    RunConcat(m, clear, add + [Gather(lid)]);
    RunConcat(RunProgram(m, clear), add, [Gather(lid)]);
    RunOne(n, Gather(lid));
    Gathered(n, lid);
    FourLanes(Terms(v, x), a);
  }

  lemma {:induction false} HalvesValue(m: Mem, v: seq<real>, x: nat -> real, lid: nat, count: nat)
    requires LocalIs(m, x)
    ensures Get(RunProgram(m, Halves(v, lid, count)), Acc(lid)) == Get(m, Acc(lid)) + Sum(Terms(v, x), 0, 128 * count)
    ensures LocalIs(RunProgram(m, Halves(v, lid, count)), x)
  {
    if count > 0 {
      var p, h := Halves(v, lid, count - 1), Half(v, 128 * (count - 1), lid);
      HalvesValue(m, v, x, lid, count - 1);
      RunConcat(m, p, h);
      HalfValue(RunProgram(m, p), v, x, 128 * (count - 1), lid);
      SumSplit(Terms(v, x), 0, 128 * (count - 1), 128);
    }
  }

  lemma LaneItemValue(m: Mem, v: seq<real>, x: nat -> real, count: nat, lid: nat, dst: Addr)
    requires LocalIs(m, x)
    ensures Get(RunProgram(m, LaneItem(v, count, lid, dst)), dst) == Sum(Terms(v, x), 0, 128 * count)
  {
    var c, p := Exec(m, Clear(Acc(lid))), Halves(v, lid, count);
    RunConcat(m, [Clear(Acc(lid))], p + [Copy(dst, Acc(lid))]);
    RunOne(m, Clear(Acc(lid)));
    assert LocalIs(c, x);
    RunConcat(c, p, [Copy(dst, Acc(lid))]);
    HalvesValue(c, v, x, lid, count);
    RunOne(RunProgram(c, p), Copy(dst, Acc(lid)));
    CopyValue(RunProgram(c, p), dst, Acc(lid));
  }

  // ---- under every schedule -----------------------------------------------------------------------------

  function LaneOwner(first: nat): Addr -> int {
    (b: Addr) => if b.Acc? || b.Private? then b.lid else if b.Y? && b.i >= first then b.i - first else NOBODY
  }

  lemma {:induction false} HalfSharesOwn(v: seq<real>, a: nat, lid: nat, lanes: nat, l: nat, first: nat)
    ensures SharesOwn(HalfShares(v, a, lid, lanes, l), lid, LaneOwner(first))
  {
    if l > 0 { HalfSharesOwn(v, a, lid, lanes, l - 1, first); }
  }

  lemma HalfDisciplined(v: seq<real>, a: nat, lid: nat, first: nat)
    ensures Disciplined(Half(v, a, lid), lid, LaneOwner(first))
  {
    var s := HalfShares(v, a, lid, Q6_LANES, 32);
    HalfSharesOwn(v, a, lid, Q6_LANES, 32, first);
    AddSharesDisciplined(s, lid, LaneOwner(first));
    DisciplineConcat(AddShares(s), [Gather(lid)], lid, LaneOwner(first));
    DisciplineConcat(ClearParts(lid, Q6_LANES), AddShares(s) + [Gather(lid)], lid, LaneOwner(first));
  }

  lemma {:induction false} HalvesDisciplined(v: seq<real>, lid: nat, count: nat, first: nat)
    ensures Disciplined(Halves(v, lid, count), lid, LaneOwner(first))
  {
    if count > 0 {
      HalvesDisciplined(v, lid, count - 1, first);
      HalfDisciplined(v, 128 * (count - 1), lid, first);
      DisciplineConcat(Halves(v, lid, count - 1), Half(v, 128 * (count - 1), lid), lid, LaneOwner(first));
    }
  }

  lemma LaneItemDisciplined(v: seq<real>, count: nat, lid: nat, first: nat)
    ensures Disciplined(LaneItem(v, count, lid, Y(first + lid)), lid, LaneOwner(first))
  {
    var p, last := Halves(v, lid, count), [Copy(Y(first + lid), Acc(lid))];
    HalvesDisciplined(v, lid, count, first);
    DisciplineConcat(p, last, lid, LaneOwner(first));
    DisciplineConcat([Clear(Acc(lid))], p + last, lid, LaneOwner(first));
  }

  // Items past the last row have reached the barrier before they return.
  function LanePhase(rows: seq<seq<real>>, count: nat, first: nat, w: Tensors.Count): (items: seq<Program>)
    ensures |items| == w
  {
    seq(w, (lid: nat) => if first + lid >= |rows| then [] else LaneItem(rows[first + lid], count, lid, Y(first + lid)))
  }

  lemma LanePhaseDisciplined(rows: seq<seq<real>>, count: nat, first: nat, w: Tensors.Count)
    ensures forall i :: 0 <= i < w ==> Disciplined(LanePhase(rows, count, first, w)[i], i, LaneOwner(first))
  {
    forall i: nat | i < w ensures Disciplined(LanePhase(rows, count, first, w)[i], i, LaneOwner(first)) {
      if first + i < |rows| { LaneItemDisciplined(rows[first + i], count, i, first); }
    }
  }

  function LaneKernel(f: Fill, n: nat, rows: seq<seq<real>>, count: nat, first: nat, w: Tensors.Count): (k: Kernel)
    ensures k != []
  {
    [FillPhase(true, f, n, w)] + [LanePhase(rows, count, first, w)]
  }

  lemma LaneRaceFree(f: Fill, n: nat, rows: seq<seq<real>>, count: nat, first: nat, w: Tensors.Count)
    ensures PhasesRaceFree(LaneKernel(f, n, rows, count, first, w))
  {
    var fill, last := FillPhase(true, f, n, w), LanePhase(rows, count, first, w);
    FillPhaseDisciplined(true, f, n, w);
    DisciplineIsRaceFree(fill, FillOwner(true, w));
    LanePhaseDisciplined(rows, count, first, w);
    DisciplineIsRaceFree(last, LaneOwner(first));
  }

  lemma {:induction false} SumAgrees(f: nat -> real, g: nat -> real, a: nat, k: nat)
    requires forall i: nat :: a <= i < a + k ==> f(i) == g(i)
    ensures Sum(f, a, k) == Sum(g, a, k)
  {
    if k > 0 { SumAgrees(f, g, a, k - 1); }
  }

  lemma TermsAgree(v: seq<real>, x: nat -> real, y: nat -> real)
    requires forall i: nat :: i < |v| ==> x(i) == y(i)
    ensures Sum(Terms(v, x), 0, |v|) == Sum(Terms(v, y), 0, |v|)
  {
    SumAgrees(Terms(v, x), Terms(v, y), 0, |v|);
  }

  lemma LocalFilled(m: Mem, f: Fill, n: nat, w: Tensors.Count, v: seq<real>)
    requires |v| <= n
    ensures Sum(Terms(v, LocalX(Sequential(m, FillPhase(true, f, n, w), 0))), 0, |v|) == Expected(m, f, v)
  {
    var s := Sequential(m, FillPhase(true, f, n, w), 0);
    forall i: nat | i < |v| ensures LocalX(s)(i) == FillOf(m, f)(i) {
      FillPhaseValue(m, true, f, n, w, i);
    }
    TermsAgree(v, LocalX(s), FillOf(m, f));
  }

  lemma LaneComputes(m: Mem, f: Fill, n: nat, rows: seq<seq<real>>, count: nat, first: nat, w: Tensors.Count, trace: seq<Event>, lid: nat)
    requires lid < w && first + lid < |rows| && |rows[first + lid]| == 128 * count <= n
    requires var k := LaneKernel(f, n, rows, count, first, w); Finishes(k[0], k[1..], trace)
    ensures var k := LaneKernel(f, n, rows, count, first, w); Get(Run(m, k[0], k[1..], trace), Y(first + lid)) == Expected(m, f, rows[first + lid])
  {
    hide Terms, RaceFree, PhasesRaceFree, Disciplined;
    var fill, last, v := FillPhase(true, f, n, w), LanePhase(rows, count, first, w), rows[first + lid];
    var s := Sequential(m, fill, 0);
    LaneRaceFree(f, n, rows, count, first, w);
    AnySchedule(m, LaneKernel(f, n, rows, count, first, w), trace);
    assert ([fill] + [last])[1..] == [last];
    OnePhase(last, s);
    LanePhaseDisciplined(rows, count, first, w);
    OwnerValue(s, last, LaneOwner(first), lid, Y(first + lid));
    LaneItemValue(s, v, LocalX(s), count, lid, Y(first + lid));
    LocalFilled(m, f, n, w, v);
  }

  function Q6Rows(rows: seq<Q6.Packed>, blocks: nat): (r: seq<seq<real>>)
    requires forall i :: 0 <= i < |rows| ==> Q6.Blocks(rows[i], blocks)
    ensures |r| == |rows| && forall i :: 0 <= i < |rows| ==> r[i] == Q6.Decoded(HalfFloat.Kernel, rows[i], blocks)
  {
    seq(|rows|, i requires 0 <= i < |rows| => Q6.Decoded(HalfFloat.Kernel, rows[i], blocks))
  }

  lemma MatvecQ6IsReference(m: Mem, f: Fill, n: nat, rows: seq<Q6.Packed>, blocks: nat, first: nat, w: Tensors.Count, trace: seq<Event>, lid: nat)
    requires blocks == n / 256 && (forall i :: 0 <= i < |rows| ==> Q6.Blocks(rows[i], blocks))
    requires lid < w && first + lid < |rows| && Q6.Finite(rows[first + lid], blocks)
    requires var k := LaneKernel(f, n, Q6Rows(rows, blocks), 2 * blocks, first, w); Finishes(k[0], k[1..], trace)
    ensures var k := LaneKernel(f, n, Q6Rows(rows, blocks), 2 * blocks, first, w); Get(Run(m, k[0], k[1..], trace), Y(first + lid)) == Expected(m, f, Q6.Decoded(Q4.ReferenceNumber, rows[first + lid], blocks))
  {
    Q6.DecodersAgree(rows[first + lid], blocks);
    LaneComputes(m, f, n, Q6Rows(rows, blocks), 2 * blocks, first, w, trace, lid);
  }
}
