// The single-pass attention kernel (python/xecuda/kernels.py, gqa_attention) under every schedule
// of its work-items, step by step on shared memory.
module AttentionSchedules {
  import opened Division
  import opened Values
  import opened Softmax
  import opened Attention
  import opened Barriers

  // Private registers of an item.
  const MAX: nat := 0
  const SUM: nat := 1
  const SCORE: nat := 2
  const NEW_MAX: nat := 3
  const RESCALE: nat := 4
  const WEIGHT: nat := 5
  const INVERSE: nat := 6

  // One item: its number, where its query row and its first key row start, and the sizes.
  datatype Task = Task(exp: Exp, lid: nat, q: nat, k: nat, width: nat, count: nat, scale: real, start: real) {
    function Reg(r: nat): Addr {
      Private(lid, r)
    }

    // The key row of round n.
    function Row(n: nat): nat {
      k + n * width
    }
  }

  datatype Given = Given(query: Vec, key: Vec, value: Vec)

  ghost predicate Loaded(m: Mem, g: Given) {
    && (forall i :: 0 <= i < |g.query| ==> Get(m, Query(i)) == g.query[i])
    && (forall i :: 0 <= i < |g.key| ==> Get(m, Key(i)) == g.key[i])
    && (forall i :: 0 <= i < |g.value| ==> Get(m, Value(i)) == g.value[i])
  }

  predicate RowFits(t: Task, g: Given, n: nat) {
    t.q + t.width <= |g.query| && t.Row(n) + t.width <= |g.key| && t.Row(n) + t.width <= |g.value|
  }

  // ---- the program of one item --------------------------------------------------------------------

  function Set(dst: Addr, x: real): Action {
    Action(dst, [], (v: seq<real>) => x)
  }

  function Apply1(dst: Addr, a: Addr, f: real -> real): Action {
    Action(dst, [a], (v: seq<real>) => if |v| == 1 then f(v[0]) else 0.0)
  }

  function Apply2(dst: Addr, a: Addr, b: Addr, f: (real, real) -> real): Action {
    Action(dst, [a, b], (v: seq<real>) => if |v| == 2 then f(v[0], v[1]) else 0.0)
  }

  function Products(q: nat, k: nat, width: nat): (terms: seq<Term>)
    ensures |terms| == width
  {
    seq(width, (d: nat) => Term([Query(q + d), Key(k + d)], (v: seq<real>) => if |v| == 2 then v[0] * v[1] else 0.0))
  }

  function ScaleScore(t: Task): Action {
    Apply1(t.Reg(SCORE), t.Reg(SCORE), (x: real) => x * t.scale)
  }

  // score = 0; score += ... over the row; score *= scale
  function ScoreProgram(t: Task, n: nat): Program {
    SumUp(t.Reg(SCORE), Products(t.q, t.Row(n), t.width)) + [ScaleScore(t)]
  }

  function Larger(a: real, b: real): real {
    if a > b then a else b
  }

  function NewMax(t: Task): Action {
    Apply2(t.Reg(NEW_MAX), t.Reg(MAX), t.Reg(SCORE), (a: real, b: real) => Larger(a, b))
  }

  function Rescale(t: Task): Action {
    Apply2(t.Reg(RESCALE), t.Reg(MAX), t.Reg(NEW_MAX), (a: real, b: real) => t.exp(a - b))
  }

  function Weight(t: Task): Action {
    Apply2(t.Reg(WEIGHT), t.Reg(SCORE), t.Reg(NEW_MAX), (a: real, b: real) => t.exp(a - b))
  }

  // sum_exp = sum_exp * rescale + w
  function NewSum(t: Task): Action {
    Action(t.Reg(SUM), [t.Reg(SUM), t.Reg(RESCALE), t.Reg(WEIGHT)], (v: seq<real>) => if |v| == 3 then v[0] * v[1] + v[2] else 0.0)
  }

  // out = out * rescale + w * value
  function Update(t: Task, n: nat, d: nat): Action {
    Action(Y(t.q + d), [Y(t.q + d), t.Reg(RESCALE), t.Reg(WEIGHT), Value(t.Row(n) + d)], (v: seq<real>) => if |v| == 4 then v[0] * v[1] + v[2] * v[3] else 0.0)
  }

  function UpdateAll(t: Task, n: nat): (p: Program)
    ensures |p| == t.width
  {
    seq(t.width, (d: nat) => Update(t, n, d))
  }

  function Registers(t: Task): Program {
    [NewMax(t), Rescale(t), Weight(t), NewSum(t)]
  }

  function KeepMax(t: Task): Action {
    Copy(t.Reg(MAX), t.Reg(NEW_MAX))
  }

  // What follows the score.
  function Rest(t: Task, n: nat): Program {
    Registers(t) + (UpdateAll(t, n) + [KeepMax(t)])
  }

  function Round(t: Task, n: nat): Program {
    ScoreProgram(t, n) + Rest(t, n)
  }

  function Rounds(t: Task, n: nat): Program {
    if n == 0 then [] else Rounds(t, n - 1) + Round(t, n - 1)
  }

  function ClearEntry(t: Task, d: nat): Action {
    Clear(Y(t.q + d))
  }

  function ClearAll(t: Task): (p: Program)
    ensures |p| == t.width
  {
    seq(t.width, (d: nat) => ClearEntry(t, d))
  }

  function Prologue(t: Task): Program {
    [Set(t.Reg(MAX), t.start), Set(t.Reg(SUM), 0.0)] + ClearAll(t)
  }

  function Invert(t: Task): Action {
    Apply1(t.Reg(INVERSE), t.Reg(SUM), (x: real) => if x > 0.0 then 1.0 / x else 0.0)
  }

  function ScaleEntry(t: Task, d: nat): Action {
    Apply2(Y(t.q + d), Y(t.q + d), t.Reg(INVERSE), (a: real, b: real) => a * b)
  }

  function ScaleAll(t: Task): (p: Program)
    ensures |p| == t.width
  {
    seq(t.width, (d: nat) => ScaleEntry(t, d))
  }

  function ItemProgram(t: Task): Program {
    Prologue(t) + (Rounds(t, t.count) + ([Invert(t)] + ScaleAll(t)))
  }

  // ---- loops over a row ----------------------------------------------------------------------------

  // No action writes what another reads or writes.
  ghost predicate Separate(p: Program) {
    forall i, j :: 0 <= i < |p| && 0 <= j < |p| && i != j ==> p[i].dst != p[j].dst && p[i].dst !in p[j].srcs
  }

  lemma SeparateTail(p: Program)
    requires p != [] && Separate(p)
    ensures Separate(p[1..])
  {
    assert forall i :: 0 <= i < |p[1..]| ==> p[1..][i] == p[i + 1];
  }

  lemma {:induction false} SeparateValue(m: Mem, p: Program, k: nat)
    requires Separate(p) && k < |p|
    ensures Get(RunProgram(m, p), p[k].dst) == p[k].f(Load(m, p[k].srcs))
    decreases |p|
  {
    var n := Exec(m, p[0]);
    assert forall i :: 0 <= i < |p[1..]| ==> p[1..][i] == p[i + 1];
    if k == 0 {
      UnwrittenKept(n, p[1..], p[0].dst);
    } else {
      SeparateTail(p);
      SeparateValue(n, p[1..], k - 1);
      LoadAgrees(n, m, p[k].srcs);
    }
  }

  lemma {:induction false} TermSumConcat(m: Mem, p: seq<Term>, q: seq<Term>)
    ensures TermSum(m, p + q) == TermSum(m, p) + TermSum(m, q)
  {
    if p == [] {
      assert p + q == q;
    } else {
      assert (p + q)[1..] == p[1..] + q;
      TermSumConcat(m, p[1..], q);
    }
  }

  lemma ProductAt(m: Mem, g: Given, q: nat, k: nat, width: nat, d: nat)
    requires Loaded(m, g) && q + width <= |g.query| && k + width <= |g.key| && d < width
    ensures var t := Products(q, k, width)[d]; t.f(Load(m, t.srcs)) == g.query[q + d] * g.key[k + d]
  {
  }

  lemma {:induction false} ProductsSum(m: Mem, g: Given, q: nat, k: nat, width: nat)
    requires Loaded(m, g) && q + width <= |g.query| && k + width <= |g.key|
    ensures TermSum(m, Products(q, k, width)) == DotAt(g.query, q, g.key, k, width)
  {
    hide Loaded;
    if width > 0 {
      var p, last := Products(q, k, width - 1), Products(q, k, width)[width - 1];
      ProductsSum(m, g, q, k, width - 1);
      assert Products(q, k, width) == p + [last];
      TermSumConcat(m, p, [last]);
      assert [last][1..] == [];
      ProductAt(m, g, q, k, width, width - 1);
    }
  }

  // ---- one round -------------------------------------------------------------------------------------

  lemma ScoreValue(m: Mem, g: Given, t: Task, n: nat)
    requires Loaded(m, g) && RowFits(t, g, n)
    ensures Get(RunProgram(m, ScoreProgram(t, n)), t.Reg(SCORE)) == DotAt(g.query, t.q, g.key, t.Row(n), t.width) * t.scale
  {
    hide SumUp, Loaded;
    var sum := SumUp(t.Reg(SCORE), Products(t.q, t.Row(n), t.width));
    RunConcat(m, sum, [ScaleScore(t)]);
    SumUpValue(m, t.Reg(SCORE), Products(t.q, t.Row(n), t.width));
    ProductsSum(m, g, t.q, t.Row(n), t.width);
    RunOne(RunProgram(m, sum), ScaleScore(t));
  }

  lemma ScoreKeeps(m: Mem, t: Task, n: nat, b: Addr)
    requires b != t.Reg(SCORE)
    ensures Get(RunProgram(m, ScoreProgram(t, n)), b) == Get(m, b)
  {
    UnwrittenKept(m, ScoreProgram(t, n), b);
  }

  lemma RunFour(m: Mem, a: Action, b: Action, c: Action, d: Action)
    ensures RunProgram(m, [a, b, c, d]) == Exec(Exec(Exec(Exec(m, a), b), c), d)
  {
    assert [a, b, c, d] == [a] + ([b] + ([c] + [d]));
    RunConcat(m, [a], [b] + ([c] + [d]));
    RunConcat(Exec(m, a), [b], [c] + [d]);
    RunConcat(Exec(Exec(m, a), b), [c], [d]);
    RunOne(m, a);
    RunOne(Exec(m, a), b);
    RunOne(Exec(Exec(m, a), b), c);
    RunOne(Exec(Exec(Exec(m, a), b), c), d);
  }

  // What the registers hold once the score and the maximum so far are known.
  ghost predicate Stepped(m: Mem, n: Mem, t: Task) {
    var most, score := Get(m, t.Reg(MAX)), Get(m, t.Reg(SCORE));
    var next := Larger(most, score);
    && Get(n, t.Reg(NEW_MAX)) == next
    && Get(n, t.Reg(RESCALE)) == t.exp(most - next)
    && Get(n, t.Reg(WEIGHT)) == t.exp(score - next)
    && Get(n, t.Reg(SUM)) == Get(m, t.Reg(SUM)) * t.exp(most - next) + t.exp(score - next)
  }

  lemma RegistersValue(m: Mem, t: Task)
    ensures Stepped(m, RunProgram(m, Registers(t)), t)
  {
    RunFour(m, NewMax(t), Rescale(t), Weight(t), NewSum(t));
    var a := Exec(m, NewMax(t));
    var b := Exec(a, Rescale(t));
    var c := Exec(b, Weight(t));
    assert Get(a, t.Reg(NEW_MAX)) == Larger(Get(m, t.Reg(MAX)), Get(m, t.Reg(SCORE)));
    assert Get(b, t.Reg(RESCALE)) == t.exp(Get(m, t.Reg(MAX)) - Get(a, t.Reg(NEW_MAX)));
    assert Get(c, t.Reg(WEIGHT)) == t.exp(Get(m, t.Reg(SCORE)) - Get(a, t.Reg(NEW_MAX)));
  }

  lemma RegistersKeep(m: Mem, t: Task, b: Addr)
    requires !b.Private?
    ensures Get(RunProgram(m, Registers(t)), b) == Get(m, b)
  {
    UnwrittenKept(m, Registers(t), b);
  }

  lemma UpdatesSeparate(t: Task, n: nat)
    ensures Separate(UpdateAll(t, n))
  {
  }

  lemma UpdateOne(m: Mem, t: Task, n: nat, d: nat)
    ensures Update(t, n, d).f(Load(m, Update(t, n, d).srcs))
         == Get(m, Y(t.q + d)) * Get(m, t.Reg(RESCALE)) + Get(m, t.Reg(WEIGHT)) * Get(m, Value(t.Row(n) + d))
  {
  }

  lemma UpdateValue(m: Mem, t: Task, n: nat, d: nat)
    requires d < t.width
    ensures Get(RunProgram(m, UpdateAll(t, n)), Y(t.q + d))
         == Get(m, Y(t.q + d)) * Get(m, t.Reg(RESCALE)) + Get(m, t.Reg(WEIGHT)) * Get(m, Value(t.Row(n) + d))
  {
    assert UpdateAll(t, n)[d] == Update(t, n, d);
    UpdatesSeparate(t, n);
    SeparateValue(m, UpdateAll(t, n), d);
    UpdateOne(m, t, n, d);
  }

  lemma UpdateKeeps(m: Mem, t: Task, n: nat, b: Addr)
    requires !b.Y?
    ensures Get(RunProgram(m, UpdateAll(t, n)), b) == Get(m, b)
  {
    UnwrittenKept(m, UpdateAll(t, n), b);
  }

  function ScoresOf(g: Given, t: Task): (s: Vec)
    ensures |s| == t.count
  {
    Scores(g.query, t.q, g.key, t.k, t.width, t.count, t.scale)
  }

  function ColumnOf(g: Given, t: Task, d: nat): (c: Vec)
    ensures |c| == t.count
  {
    Column(g.value, t.k, t.width, t.count, d)
  }

  // After n rounds with the maximum most: the sum and the row are those over n scores.
  ghost predicate Holds(m: Mem, g: Given, t: Task, n: nat, most: real) {
    && Loaded(m, g) && Get(m, t.Reg(MAX)) == most
    && Get(m, t.Reg(SUM)) == Mass(t.exp, ScoresOf(g, t), most, n)
    && forall d: nat :: d < t.width ==> Get(m, Y(t.q + d)) == Mixed(t.exp, ScoresOf(g, t), ColumnOf(g, t, d), most, n)
  }

  lemma LoadedKept(m: Mem, n: Mem, g: Given)
    requires Loaded(m, g) && forall b: Addr :: b.Query? || b.Key? || b.Value? ==> Get(n, b) == Get(m, b)
    ensures Loaded(n, g)
  {
  }

  lemma NextScore(g: Given, t: Task, n: nat)
    requires n < t.count
    ensures ScoresOf(g, t)[n] == DotAt(g.query, t.q, g.key, t.Row(n), t.width) * t.scale
  {
    ScoreAt(g.query, t.q, g.key, t.k, t.width, t.count, t.scale, n);
  }

  lemma RestParts(m: Mem, t: Task, n: nat) returns (b: Mem, c: Mem)
    ensures b == RunProgram(m, Registers(t)) && c == RunProgram(b, UpdateAll(t, n)) && RunProgram(m, Rest(t, n)) == Exec(c, KeepMax(t))
  {
    b := RunProgram(m, Registers(t));
    c := RunProgram(b, UpdateAll(t, n));
    RunConcat(m, Registers(t), UpdateAll(t, n) + [KeepMax(t)]);
    RunConcat(b, UpdateAll(t, n), [KeepMax(t)]);
    RunOne(c, KeepMax(t));
  }

  // The registers after a round whose score is known.
  lemma RestRegisters(m: Mem, t: Task, n: nat)
    ensures var most, score := Get(m, t.Reg(MAX)), Get(m, t.Reg(SCORE)); var next := Larger(most, score); Get(RunProgram(m, Rest(t, n)), t.Reg(MAX)) == next && Get(RunProgram(m, Rest(t, n)), t.Reg(SUM)) == Get(m, t.Reg(SUM)) * t.exp(most - next) + t.exp(score - next)
  {
    hide Registers, UpdateAll, Rest;
    var b, c := RestParts(m, t, n);
    RegistersValue(m, t);
    UpdateKeeps(b, t, n, t.Reg(NEW_MAX));
    UpdateKeeps(b, t, n, t.Reg(SUM));
    CopyValue(c, t.Reg(MAX), t.Reg(NEW_MAX));
  }

  lemma RestEntry(m: Mem, t: Task, n: nat, d: nat)
    requires d < t.width
    ensures var most, score := Get(m, t.Reg(MAX)), Get(m, t.Reg(SCORE)); var next := Larger(most, score); Get(RunProgram(m, Rest(t, n)), Y(t.q + d)) == Get(m, Y(t.q + d)) * t.exp(most - next) + t.exp(score - next) * Get(m, Value(t.Row(n) + d))
  {
    hide Registers, UpdateAll, Rest, RunProgram;
    var b, c := RestParts(m, t, n);
    RegistersValue(m, t);
    UpdateValue(b, t, n, d);
    RegistersKeep(m, t, Y(t.q + d));
    RegistersKeep(m, t, Value(t.Row(n) + d));
  }

  lemma RoundSplit(m: Mem, g: Given, t: Task, n: nat) returns (a: Mem)
    requires Loaded(m, g) && RowFits(t, g, n) && n < t.count
    ensures a == RunProgram(m, ScoreProgram(t, n)) && RunProgram(m, Round(t, n)) == RunProgram(a, Rest(t, n))
    ensures Get(a, t.Reg(SCORE)) == ScoresOf(g, t)[n] && Get(a, t.Reg(MAX)) == Get(m, t.Reg(MAX)) && Get(a, t.Reg(SUM)) == Get(m, t.Reg(SUM))
  {
    a := RunProgram(m, ScoreProgram(t, n));
    RunConcat(m, ScoreProgram(t, n), Rest(t, n));
    ScoreValue(m, g, t, n);
    NextScore(g, t, n);
    ScoreKeeps(m, t, n, t.Reg(MAX));
    ScoreKeeps(m, t, n, t.Reg(SUM));
  }

  // The same after the score has been computed.
  lemma RoundRegisters(m: Mem, g: Given, t: Task, n: nat)
    requires Loaded(m, g) && RowFits(t, g, n) && n < t.count
    ensures var most, score := Get(m, t.Reg(MAX)), ScoresOf(g, t)[n]; var next := Larger(most, score); Get(RunProgram(m, Round(t, n)), t.Reg(MAX)) == next && Get(RunProgram(m, Round(t, n)), t.Reg(SUM)) == Get(m, t.Reg(SUM)) * t.exp(most - next) + t.exp(score - next)
  {
    hide Rest, Round, ScoreProgram, RunProgram;
    var a := RoundSplit(m, g, t, n);
    RestRegisters(a, t, n);
  }

  lemma RoundEntry(m: Mem, g: Given, t: Task, n: nat, d: nat)
    requires Loaded(m, g) && RowFits(t, g, n) && n < t.count && d < t.width
    ensures var most, score := Get(m, t.Reg(MAX)), ScoresOf(g, t)[n]; var next := Larger(most, score); Get(RunProgram(m, Round(t, n)), Y(t.q + d)) == Get(m, Y(t.q + d)) * t.exp(most - next) + t.exp(score - next) * g.value[t.Row(n) + d]
  {
    hide Rest, Round, ScoreProgram, RunProgram;
    var a := RoundSplit(m, g, t, n);
    ScoreKeeps(m, t, n, Y(t.q + d));
    ScoreKeeps(m, t, n, Value(t.Row(n) + d));
    RestEntry(a, t, n, d);
  }

  lemma RoundLoads(m: Mem, g: Given, t: Task, n: nat)
    requires Loaded(m, g)
    ensures Loaded(RunProgram(m, Round(t, n)), g)
  {
    forall b: Addr | b.Query? || b.Key? || b.Value? ensures Get(RunProgram(m, Round(t, n)), b) == Get(m, b) {
      UnwrittenKept(m, Round(t, n), b);
    }
    LoadedKept(m, RunProgram(m, Round(t, n)), g);
  }

  lemma EntryHolds(m: Mem, g: Given, t: Task, n: nat, most: real, next: real, d: nat)
    requires ExpLaws(t.exp) && n < t.count && RowFits(t, g, n) && Holds(m, g, t, n, most) && d < t.width && next == Larger(most, ScoresOf(g, t)[n])
    ensures Get(RunProgram(m, Round(t, n)), Y(t.q + d)) == Mixed(t.exp, ScoresOf(g, t), ColumnOf(g, t, d), next, n + 1)
  {
    hide Round, RunProgram, ScoresOf, Loaded;
    RoundEntry(m, g, t, n, d);
    OnlineStep(t.exp, ScoresOf(g, t), ColumnOf(g, t, d), most, next, n);
    assert At(ColumnOf(g, t, d), n) == g.value[t.Row(n) + d];
  }

  lemma RoundKeeps(m: Mem, g: Given, t: Task, n: nat, most: real) returns (next: real)
    requires ExpLaws(t.exp) && n < t.count && RowFits(t, g, n) && Holds(m, g, t, n, most)
    ensures Holds(RunProgram(m, Round(t, n)), g, t, n + 1, next)
  {
    hide Round, RunProgram, ScoresOf, ColumnOf, Loaded;
    var s := ScoresOf(g, t);
    next := Larger(most, s[n]);
    RoundLoads(m, g, t, n);
    RoundRegisters(m, g, t, n);
    OnlineStep(t.exp, s, [], most, next, n);
    forall d: nat | d < t.width ensures Get(RunProgram(m, Round(t, n)), Y(t.q + d)) == Mixed(t.exp, s, ColumnOf(g, t, d), next, n + 1) {
      EntryHolds(m, g, t, n, most, next, d);
    }
  }

  // ---- the whole row -----------------------------------------------------------------------------------

  ghost predicate AllFit(t: Task, g: Given) {
    t.q + t.width <= |g.query| && forall n: nat :: n < t.count ==> RowFits(t, g, n)
  }

  lemma {:induction false} RoundsKeep(m: Mem, g: Given, t: Task, n: nat) returns (most: real)
    requires ExpLaws(t.exp) && n <= t.count && AllFit(t, g) && Holds(m, g, t, 0, t.start)
    ensures Holds(RunProgram(m, Rounds(t, n)), g, t, n, most)
  {
    hide Holds, Round;
    if n == 0 {
      most := t.start;
    } else {
      most := RoundsKeep(m, g, t, n - 1);
      RunConcat(m, Rounds(t, n - 1), Round(t, n - 1));
      most := RoundKeeps(RunProgram(m, Rounds(t, n - 1)), g, t, n - 1, most);
    }
  }

  lemma PrologueSplit(m: Mem, t: Task) returns (a: Mem)
    ensures a == Exec(Exec(m, Set(t.Reg(MAX), t.start)), Set(t.Reg(SUM), 0.0)) && RunProgram(m, Prologue(t)) == RunProgram(a, ClearAll(t))
  {
    var x, y := Set(t.Reg(MAX), t.start), Set(t.Reg(SUM), 0.0);
    a := Exec(Exec(m, x), y);
    assert [x, y] == [x] + [y];
    RunConcat(m, [x, y], ClearAll(t));
    RunConcat(m, [x], [y]);
    RunOne(m, x);
    RunOne(Exec(m, x), y);
  }

  lemma ClearsKeep(m: Mem, t: Task, b: Addr)
    requires !b.Y?
    ensures Get(RunProgram(m, ClearAll(t)), b) == Get(m, b)
  {
    assert forall d: nat :: d < t.width ==> ClearAll(t)[d] == ClearEntry(t, d);
    UnwrittenKept(m, ClearAll(t), b);
  }

  lemma ClearsSeparate(t: Task)
    ensures Separate(ClearAll(t))
  {
    var p := ClearAll(t);
    forall i, j | 0 <= i < |p| && 0 <= j < |p| && i != j ensures p[i].dst != p[j].dst && p[i].dst !in p[j].srcs {
      assert p[i] == ClearEntry(t, i) && p[j] == ClearEntry(t, j);
    }
  }

  lemma PrologueHolds(m: Mem, g: Given, t: Task)
    requires Loaded(m, g)
    ensures Holds(RunProgram(m, Prologue(t)), g, t, 0, t.start)
  {
    var a := PrologueSplit(m, t);
    var n := RunProgram(a, ClearAll(t));
    forall b: Addr | !b.Y? ensures Get(n, b) == Get(a, b) { ClearsKeep(a, t, b); }
    ClearsSeparate(t);
    forall d: nat | d < t.width ensures Get(n, Y(t.q + d)) == Mixed(t.exp, ScoresOf(g, t), ColumnOf(g, t, d), t.start, 0) {
      assert ClearAll(t)[d] == ClearEntry(t, d);
      SeparateValue(a, ClearAll(t), d);
    }
    LoadedKept(m, n, g);
  }

  lemma ScalesSeparate(t: Task)
    ensures Separate(ScaleAll(t))
  {
    var p := ScaleAll(t);
    forall i, j | 0 <= i < |p| && 0 <= j < |p| && i != j ensures p[i].dst != p[j].dst && p[i].dst !in p[j].srcs {
      assert p[i] == ScaleEntry(t, i) && p[j] == ScaleEntry(t, j);
    }
  }

  lemma ScaledEntry(m: Mem, t: Task, d: nat)
    requires d < t.width
    ensures var sum := Get(m, t.Reg(SUM)); Get(RunProgram(m, [Invert(t)] + ScaleAll(t)), Y(t.q + d)) == Get(m, Y(t.q + d)) * if sum > 0.0 then 1.0 / sum else 0.0
  {
    var n := Exec(m, Invert(t));
    RunConcat(m, [Invert(t)], ScaleAll(t));
    RunOne(m, Invert(t));
    ScalesSeparate(t);
    assert ScaleAll(t)[d] == ScaleEntry(t, d);
    SeparateValue(n, ScaleAll(t), d);
  }

  // Run alone, an item leaves the softmax average of its head in its row.
  lemma ItemValue(m: Mem, g: Given, t: Task, d: nat)
    requires ExpLaws(t.exp) && AllFit(t, g) && Loaded(m, g) && d < t.width
    ensures Get(RunProgram(m, ItemProgram(t)), Y(t.q + d)) == Attend(t.exp, ScoresOf(g, t), ColumnOf(g, t, d))
  {
    hide Prologue, Rounds, Invert, ScaleAll, RunProgram, AllFit;
    var last := [Invert(t)] + ScaleAll(t);
    var a := RunProgram(m, Prologue(t));
    var b := RunProgram(a, Rounds(t, t.count));
    RunConcat(m, Prologue(t), Rounds(t, t.count) + last);
    RunConcat(a, Rounds(t, t.count), last);
    PrologueHolds(m, g, t);
    var most := RoundsKeep(a, g, t, t.count);
    ScaledEntry(b, t, d);
    OnlineEnd(t.exp, ScoresOf(g, t), ColumnOf(g, t, d), most, if Get(b, t.Reg(SUM)) > 0.0 then 1.0 / Get(b, t.Reg(SUM)) else 0.0);
  }

  // ---- who owns what ---------------------------------------------------------------------------------

  // Each item its registers and its row.
  function RowOwner(width: nat): Addr -> int {
    (b: Addr) => if b.Private? then b.lid else if b.Y? && width > 0 then b.i / width else NOBODY
  }

  lemma OwnRow(t: Task, d: nat)
    requires t.q == t.lid * t.width && d < t.width
    ensures RowOwner(t.width)(Y(t.q + d)) == t.lid
  {
    DivMod(t.lid, d, t.width);
  }

  lemma UpdatesDisciplined(t: Task, n: nat)
    requires t.q == t.lid * t.width
    ensures Disciplined(UpdateAll(t, n), t.lid, RowOwner(t.width))
  {
    forall d | 0 <= d < t.width ensures UpdateAll(t, n)[d] == Update(t, n, d) && RowOwner(t.width)(UpdateAll(t, n)[d].dst) == t.lid { OwnRow(t, d); }
  }

  lemma ClearsDisciplined(t: Task)
    requires t.q == t.lid * t.width
    ensures Disciplined(ClearAll(t), t.lid, RowOwner(t.width))
  {
    forall d | 0 <= d < t.width ensures ClearAll(t)[d] == ClearEntry(t, d) && RowOwner(t.width)(ClearAll(t)[d].dst) == t.lid { OwnRow(t, d); }
  }

  lemma ScalesDisciplined(t: Task)
    requires t.q == t.lid * t.width
    ensures Disciplined(ScaleAll(t), t.lid, RowOwner(t.width))
  {
    forall d | 0 <= d < t.width ensures ScaleAll(t)[d] == ScaleEntry(t, d) && RowOwner(t.width)(ScaleAll(t)[d].dst) == t.lid { OwnRow(t, d); }
  }

  lemma ScoreDisciplined(t: Task, n: nat)
    ensures Disciplined(ScoreProgram(t, n), t.lid, RowOwner(t.width))
  {
    var p := Products(t.q, t.Row(n), t.width);
    SumUpDisciplined(t.Reg(SCORE), p, t.lid, RowOwner(t.width));
    DisciplineConcat(SumUp(t.Reg(SCORE), p), [ScaleScore(t)], t.lid, RowOwner(t.width));
  }

  lemma RoundDisciplined(t: Task, n: nat)
    requires t.q == t.lid * t.width
    ensures Disciplined(Round(t, n), t.lid, RowOwner(t.width))
  {
    ScoreDisciplined(t, n);
    UpdatesDisciplined(t, n);
    DisciplineConcat(UpdateAll(t, n), [KeepMax(t)], t.lid, RowOwner(t.width));
    DisciplineConcat(Registers(t), UpdateAll(t, n) + [KeepMax(t)], t.lid, RowOwner(t.width));
    DisciplineConcat(ScoreProgram(t, n), Rest(t, n), t.lid, RowOwner(t.width));
  }

  lemma {:induction false} RoundsDisciplined(t: Task, n: nat)
    requires t.q == t.lid * t.width
    ensures Disciplined(Rounds(t, n), t.lid, RowOwner(t.width))
  {
    hide Round, RowOwner;
    if n > 0 {
      RoundsDisciplined(t, n - 1);
      RoundDisciplined(t, n - 1);
      DisciplineConcat(Rounds(t, n - 1), Round(t, n - 1), t.lid, RowOwner(t.width));
    }
  }

  lemma ItemDisciplined(t: Task)
    requires t.q == t.lid * t.width
    ensures Disciplined(ItemProgram(t), t.lid, RowOwner(t.width))
  {
    hide Round, UpdateAll;
    ClearsDisciplined(t);
    DisciplineConcat([Set(t.Reg(MAX), t.start), Set(t.Reg(SUM), 0.0)], ClearAll(t), t.lid, RowOwner(t.width));
    RoundsDisciplined(t, t.count);
    ScalesDisciplined(t);
    DisciplineConcat([Invert(t)], ScaleAll(t), t.lid, RowOwner(t.width));
    DisciplineConcat(Rounds(t, t.count), [Invert(t)] + ScaleAll(t), t.lid, RowOwner(t.width));
    DisciplineConcat(Prologue(t), Rounds(t, t.count) + ([Invert(t)] + ScaleAll(t)), t.lid, RowOwner(t.width));
  }

  // ---- the launch ------------------------------------------------------------------------------------

  // The indices as the kernel computes them.
  function TaskOf(exp: Exp, d: Shape, scale: real, start: real, idx: nat): Task
    requires ShapeOk(d) && idx < Items(d)
  {
    RowsPositive(d, idx);
    Task(exp, idx, RowStart(idx / d.seqQ, d.seqQ, idx % d.seqQ, d.width), KvBase(d, idx), d.width, d.seqKv, scale, start)
  }

  // The grid is a multiple of the group size; items past the last row return at once.
  function Launched(exp: Exp, d: Shape, scale: real, start: real, total: nat): (items: seq<Program>)
    requires ShapeOk(d)
    ensures |items| == total
  {
    seq(total, (idx: nat) => if idx < Items(d) then ItemProgram(TaskOf(exp, d, scale, start, idx)) else [])
  }

  lemma LaunchDisciplined(exp: Exp, d: Shape, scale: real, start: real, total: nat)
    requires ShapeOk(d)
    ensures forall i :: 0 <= i < total ==> Disciplined(Launched(exp, d, scale, start, total)[i], i, RowOwner(d.width))
  {
    forall i: nat | i < total ensures Disciplined(Launched(exp, d, scale, start, total)[i], i, RowOwner(d.width)) {
      if i < Items(d) {
        HeadOf(d, i);
        ItemDisciplined(TaskOf(exp, d, scale, start, i));
      }
    }
  }

  lemma TaskFits(exp: Exp, d: Shape, g: Given, scale: real, start: real, idx: nat)
    requires SizesOk(d, g.query, g.key, g.value, |g.query|) && idx < Items(d)
    ensures AllFit(TaskOf(exp, d, scale, start, idx), g)
  {
    HeadOf(d, idx);
    ItemFits(d, g.query, g.key, g.value, |g.query|, idx);
  }

  // The memory holds the inputs, and the schedule runs every item of the launch to its end.
  ghost predicate Launches(m: Mem, exp: Exp, d: Shape, g: Given, scale: real, start: real, total: nat, schedule: seq<nat>) {
    && ExpLaws(exp) && SizesOk(d, g.query, g.key, g.value, |g.query|) && Loaded(m, g)
    && d.heads * d.seqQ <= total && Completes(Launched(exp, d, scale, start, total), schedule)
  }

  // Entry i of the output after the launch.
  ghost function Written(m: Mem, exp: Exp, d: Shape, g: Given, scale: real, start: real, total: nat, schedule: seq<nat>, i: nat): real
    requires Launches(m, exp, d, g, scale, start, total, schedule)
  {
    Get(Interleave(m, Launched(exp, d, scale, start, total), schedule), Y(i))
  }

  // However the steps of all the items interleave, every row of every head ends as the softmax
  // average over the keys of its head: the value that the sequential run of the kernel leaves.
  lemma AttentionAnySchedule(m: Mem, exp: Exp, d: Shape, g: Given, scale: real, start: real, total: nat, schedule: seq<nat>, idx: nat, j: nat)
    requires Launches(m, exp, d, g, scale, start, total, schedule) && idx < Items(d) && j < d.width
    ensures Written(m, exp, d, g, scale, start, total, schedule, idx * d.width + j) == Attend(exp, Scores(g.query, idx * d.width, g.key, KvBase(d, idx), d.width, d.seqKv, scale), Column(g.value, KvBase(d, idx), d.width, d.seqKv, j))
  {
    hide Loaded, ExpLaws, Scores, Column, Attend, ItemProgram, Completes, RaceFree, AllFit, Interleave, Disciplined, KvBase, Sequential, RunProgram;
    var items, t := Launched(exp, d, scale, start, total), TaskOf(exp, d, scale, start, idx);
    LaunchDisciplined(exp, d, scale, start, total);
    DisciplineIsRaceFree(items, RowOwner(d.width));
    AnyInterleaving(m, items, schedule);
    HeadOf(d, idx);
    OwnRow(t, j);
    OwnerValue(m, items, RowOwner(d.width), idx, Y(idx * d.width + j));
    TaskFits(exp, d, g, scale, start, idx);
    ItemValue(m, g, t, j);
  }

  // Said of one entry of the output: position pos of query head kv * group + i averages over the
  // keys of head kv.
  lemma AttentionMeaning(m: Mem, exp: Exp, d: Shape, g: Given, scale: real, start: real, total: nat, schedule: seq<nat>, idx: nat, kv: nat, group: nat, i: nat, pos: nat, e: nat)
    requires Launches(m, exp, d, g, scale, start, total, schedule) && IsItem(d, idx, kv, group, i, pos) && e < d.width
    ensures AveragesKeys(exp, g.query, g.key, g.value, scale, d.width, d.seqKv, idx * d.width, kv * d.seqKv * d.width, e, Written(m, exp, d, g, scale, start, total, schedule, idx * d.width + e))
  {
    hide Launched, Completes, Loaded, Written, Scores, Column, Attend, KvBase, AveragesKeys;
    ItemIsOne(d, idx, kv, group, i, pos);
    GroupKeys(d, idx, kv, group, i, pos);
    AttentionAnySchedule(m, exp, d, g, scale, start, total, schedule, idx, e);
    AttendAverages(exp, g.query, g.key, g.value, scale, d.width, d.seqKv, idx * d.width, kv * d.seqKv * d.width, e,
                   Written(m, exp, d, g, scale, start, total, schedule, idx * d.width + e));
  }
}
