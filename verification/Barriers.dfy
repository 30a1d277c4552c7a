// Work-items of one group between barriers: every interleaving of race-free programs leaves
// what running the items one after the other leaves.
module Barriers {

  // The buffers that the kernels touch: global query, key, value, x, residual, norm_w, y and the
  // reduced inverse root; local lsum, inv_rms and x_local; and private accumulators of each item.
  datatype Addr =
    | Query(i: nat) | Key(i: nat) | Value(i: nat)
    | X(i: nat) | Residual(i: nat) | NormW(i: nat) | Y(i: nat) | OutRms
    | LSum(i: nat) | InvRms | XLocal(i: nat)
    | Acc(lid: nat) | Private(lid: nat, k: nat)

  type Mem = map<Addr, real>

  function Get(m: Mem, a: Addr): real {
    if a in m then m[a] else 0.0
  }

  // One atomic step: the destination becomes a function of the sources.
  datatype Action = Action(dst: Addr, srcs: seq<Addr>, f: seq<real> -> real)

  type Program = seq<Action>

  function Load(m: Mem, srcs: seq<Addr>): seq<real> {
    seq(|srcs|, i requires 0 <= i < |srcs| => Get(m, srcs[i]))
  }

  function Exec(m: Mem, a: Action): Mem {
    m[a.dst := a.f(Load(m, a.srcs))]
  }

  function RunProgram(m: Mem, p: Program): Mem
    decreases |p|
  {
    if p == [] then m else RunProgram(Exec(m, p[0]), p[1..])
  }

  // ---- independence -----------------------------------------------------------------------------

  predicate Independent(a: Action, b: Action) {
    a.dst != b.dst && a.dst !in b.srcs && b.dst !in a.srcs
  }

  ghost predicate Apart(a: Action, p: Program) {
    forall k :: 0 <= k < |p| ==> Independent(a, p[k])
  }

  // No item writes what another reads or writes.
  ghost predicate RaceFree(items: seq<Program>) {
    forall i, j, k, l :: 0 <= i < |items| && 0 <= j < |items| && i != j && 0 <= k < |items[i]| && 0 <= l < |items[j]| ==>
      Independent(items[i][k], items[j][l])
  }

  lemma ExecCommutes(m: Mem, a: Action, b: Action)
    requires Independent(a, b)
    ensures Exec(Exec(m, a), b) == Exec(Exec(m, b), a)
  {
    assert Load(Exec(m, a), b.srcs) == Load(m, b.srcs);
    assert Load(Exec(m, b), a.srcs) == Load(m, a.srcs);
  }

  lemma {:induction false} ExecPasses(m: Mem, a: Action, p: Program)
    requires Apart(a, p)
    ensures RunProgram(Exec(m, a), p) == Exec(RunProgram(m, p), a)
    decreases |p|
  {
    if p != [] {
      assert Independent(a, p[0]);
      ExecCommutes(m, a, p[0]);
      ExecPasses(Exec(m, p[0]), a, p[1..]);
    }
  }

  // ---- interleavings --------------------------------------------------------------------------------

  function Sequential(m: Mem, items: seq<Program>, k: nat): Mem
    requires k <= |items|
    decreases |items| - k
  {
    if k == |items| then m else Sequential(RunProgram(m, items[k]), items, k + 1)
  }

  // A schedule names the item that takes each step; it ends when every item has.
  predicate Completes(items: seq<Program>, schedule: seq<nat>)
    decreases |schedule|
  {
    if schedule == [] then forall i :: 0 <= i < |items| ==> items[i] == []
    else
      && schedule[0] < |items| && items[schedule[0]] != []
      && Completes(items[schedule[0] := items[schedule[0]][1..]], schedule[1..])
  }

  function Interleave(m: Mem, items: seq<Program>, schedule: seq<nat>): Mem
    requires Completes(items, schedule)
    decreases |schedule|
  {
    if schedule == [] then m
    else
      var i := schedule[0];
      Interleave(Exec(m, items[i][0]), items[i := items[i][1..]], schedule[1..])
  }

  // Whatever the order, as long as every item takes all of its steps.
  lemma {:induction false} CompletesExactly(items: seq<Program>, schedule: seq<nat>)
    ensures Completes(items, schedule) <==>
              (forall k :: 0 <= k < |schedule| ==> schedule[k] < |items|) && forall i :: 0 <= i < |items| ==> multiset(schedule)[i] == |items[i]|
    decreases |schedule|
  {
    if schedule != [] {
      var i, rest := schedule[0], schedule[1..];
      assert schedule == [i] + rest;
      if i < |items| && items[i] != [] {
        CompletesExactly(items[i := items[i][1..]], rest);
        assert forall k :: 0 <= k < |rest| ==> rest[k] == schedule[k + 1];
      }
    }
  }

  lemma {:induction false} SequentialDone(m: Mem, items: seq<Program>, k: nat)
    requires k <= |items| && forall i :: 0 <= i < |items| ==> items[i] == []
    ensures Sequential(m, items, k) == m
    decreases |items| - k
  {
    if k < |items| { SequentialDone(m, items, k + 1); }
  }

  // The first step of item i may be taken before everything the items before it do.
  lemma {:induction false} StepFirst(m: Mem, items: seq<Program>, i: nat, k: nat)
    requires RaceFree(items) && k <= i < |items| && items[i] != []
    ensures Sequential(Exec(m, items[i][0]), items[i := items[i][1..]], k) == Sequential(m, items, k)
    decreases i - k
  {
    var a, rest := items[i][0], items[i := items[i][1..]];
    if k == i {
      SequentialTail(RunProgram(m, items[i]), items, rest, k + 1);
    } else {
      assert Apart(a, items[k]);
      ExecPasses(m, a, items[k]);
      StepFirst(RunProgram(m, items[k]), items, i, k + 1);
    }
  }

  lemma {:induction false} SequentialTail(m: Mem, items: seq<Program>, rest: seq<Program>, k: nat)
    requires |items| == |rest| && k <= |items| && forall j :: k <= j < |items| ==> items[j] == rest[j]
    ensures Sequential(m, items, k) == Sequential(m, rest, k)
    decreases |items| - k
  {
    if k < |items| { SequentialTail(RunProgram(m, items[k]), items, rest, k + 1); }
  }

  lemma StepKeepsRaceFree(items: seq<Program>, i: nat)
    requires RaceFree(items) && i < |items| && items[i] != []
    ensures RaceFree(items[i := items[i][1..]])
  {
    var rest := items[i := items[i][1..]];
    forall x, y, k, l | 0 <= x < |rest| && 0 <= y < |rest| && x != y && 0 <= k < |rest[x]| && 0 <= l < |rest[y]|
      ensures Independent(rest[x][k], rest[y][l])
    {
      assert rest[x][k] == items[x][if x == i then k + 1 else k];
      assert rest[y][l] == items[y][if y == i then l + 1 else l];
    }
  }

  lemma {:induction false} AnyInterleaving(m: Mem, items: seq<Program>, schedule: seq<nat>)
    requires RaceFree(items) && Completes(items, schedule)
    ensures Interleave(m, items, schedule) == Sequential(m, items, 0)
    decreases |schedule|
  {
    if schedule == [] {
      SequentialDone(m, items, 0);
    } else {
      var i := schedule[0];
      StepKeepsRaceFree(items, i);
      AnyInterleaving(Exec(m, items[i][0]), items[i := items[i][1..]], schedule[1..]);
      StepFirst(m, items, i, 0);
    }
  }

  // ---- kernels: phases separated by barriers ------------------------------------------------------------

  // An event is a step of one item, or the release of a barrier that every item has reached.
  datatype Event = Step(lid: nat) | Barrier

  type Kernel = seq<seq<Program>>

  predicate Allowed(items: seq<Program>, later: Kernel, e: Event) {
    match e
    case Step(lid) => lid < |items| && items[lid] != []
    case Barrier => later != [] && forall i :: 0 <= i < |items| ==> items[i] == []
  }

  predicate Finishes(items: seq<Program>, later: Kernel, trace: seq<Event>)
    decreases |trace|
  {
    if trace == [] then later == [] && forall i :: 0 <= i < |items| ==> items[i] == []
    else
      && Allowed(items, later, trace[0])
      && match trace[0]
         case Step(lid) => Finishes(items[lid := items[lid][1..]], later, trace[1..])
         case Barrier => Finishes(later[0], later[1..], trace[1..])
  }

  function Steps(schedule: seq<nat>): (trace: seq<Event>)
    ensures |trace| == |schedule|
  {
    seq(|schedule|, i requires 0 <= i < |schedule| => Step(schedule[i]))
  }

  // The items of a phase may take their steps in any order; then the barrier is released.
  lemma {:induction false} AnyPhaseOrder(items: seq<Program>, later: Kernel, schedule: seq<nat>, rest: seq<Event>)
    requires Completes(items, schedule)
    requires if later == [] then rest == [] else rest != [] && rest[0] == Barrier && Finishes(later[0], later[1..], rest[1..])
    ensures Finishes(items, later, Steps(schedule) + rest)
    decreases |schedule|
  {
    var trace := Steps(schedule) + rest;
    if schedule == [] {
      assert trace == rest;
    } else {
      AnyPhaseOrder(items[schedule[0] := items[schedule[0]][1..]], later, schedule[1..], rest);
      assert trace[0] == Step(schedule[0]) && trace[1..] == Steps(schedule[1..]) + rest;
    }
  }

  function Run(m: Mem, items: seq<Program>, later: Kernel, trace: seq<Event>): Mem
    requires Finishes(items, later, trace)
    decreases |trace|
  {
    if trace == [] then m
    else
      match trace[0]
      case Step(lid) => Run(Exec(m, items[lid][0]), items[lid := items[lid][1..]], later, trace[1..])
      case Barrier => Run(m, later[0], later[1..], trace[1..])
  }

  // Phase after phase, item after item.
  function InOrder(m: Mem, phases: Kernel): Mem
    decreases |phases|
  {
    if phases == [] then m else InOrder(Sequential(m, phases[0], 0), phases[1..])
  }

  ghost predicate PhasesRaceFree(phases: Kernel) {
    forall p :: 0 <= p < |phases| ==> RaceFree(phases[p])
  }

  lemma {:induction false} RunIsInOrder(m: Mem, items: seq<Program>, later: Kernel, trace: seq<Event>)
    requires RaceFree(items) && PhasesRaceFree(later) && Finishes(items, later, trace)
    ensures Run(m, items, later, trace) == InOrder(Sequential(m, items, 0), later)
    decreases |trace|
  {
    if trace == [] {
      SequentialDone(m, items, 0);
    } else {
      match trace[0]
      case Step(lid) =>
        StepKeepsRaceFree(items, lid);
        RunIsInOrder(Exec(m, items[lid][0]), items[lid := items[lid][1..]], later, trace[1..]);
        StepFirst(m, items, lid, 0);
      case Barrier =>
        SequentialDone(m, items, 0);
        assert RaceFree(later[0]);
        assert forall p :: 0 <= p < |later[1..]| ==> later[1..][p] == later[p + 1];
        RunIsInOrder(m, later[0], later[1..], trace[1..]);
    }
  }

  // Whatever the schedule, a kernel whose phases are race-free computes one result.
  lemma AnySchedule(m: Mem, phases: Kernel, trace: seq<Event>)
    requires phases != [] && PhasesRaceFree(phases) && Finishes(phases[0], phases[1..], trace)
    ensures Run(m, phases[0], phases[1..], trace) == InOrder(m, phases)
  {
    assert RaceFree(phases[0]);
    assert forall p :: 0 <= p < |phases[1..]| ==> phases[1..][p] == phases[p + 1];
    RunIsInOrder(m, phases[0], phases[1..], trace);
  }

  // ---- what one item leaves behind -------------------------------------------------------------------------

  ghost predicate Writes(p: Program, b: Addr) {
    exists k :: 0 <= k < |p| && p[k].dst == b
  }

  ghost predicate Touches(p: Program, b: Addr) {
    exists k :: 0 <= k < |p| && (p[k].dst == b || b in p[k].srcs)
  }

  lemma {:induction false} UnwrittenKept(m: Mem, p: Program, b: Addr)
    requires !Writes(p, b)
    ensures Get(RunProgram(m, p), b) == Get(m, b)
    decreases |p|
  {
    if p != [] {
      assert p[0].dst != b;
      assert forall k :: 0 <= k < |p[1..]| ==> p[1..][k] == p[k + 1];
      UnwrittenKept(Exec(m, p[0]), p[1..], b);
    }
  }

  ghost predicate AgreeOn(m: Mem, n: Mem, p: Program) {
    forall b :: Touches(p, b) ==> Get(m, b) == Get(n, b)
  }

  lemma LoadAgrees(m: Mem, n: Mem, srcs: seq<Addr>)
    requires forall b :: b in srcs ==> Get(m, b) == Get(n, b)
    ensures Load(m, srcs) == Load(n, srcs)
  {
  }

  // A program's results depend on what it touches only.
  lemma {:induction false} RunAgrees(m: Mem, n: Mem, p: Program, b: Addr)
    requires AgreeOn(m, n, p) && Get(m, b) == Get(n, b)
    ensures Get(RunProgram(m, p), b) == Get(RunProgram(n, p), b)
    decreases |p|
  {
    if p != [] {
      StepAgrees(m, n, p, b);
      RunAgrees(Exec(m, p[0]), Exec(n, p[0]), p[1..], b);
    }
  }

  lemma StepAgrees(m: Mem, n: Mem, p: Program, b: Addr)
    requires p != [] && AgreeOn(m, n, p) && Get(m, b) == Get(n, b)
    ensures AgreeOn(Exec(m, p[0]), Exec(n, p[0]), p[1..]) && Get(Exec(m, p[0]), b) == Get(Exec(n, p[0]), b)
  {
    forall c | c in p[0].srcs ensures Get(m, c) == Get(n, c) { assert Touches(p, c); }
    LoadAgrees(m, n, p[0].srcs);
    forall c | Touches(p[1..], c) ensures Get(Exec(m, p[0]), c) == Get(Exec(n, p[0]), c) {
      TailTouches(p, c);
      assert Get(m, c) == Get(n, c);
    }
  }

  lemma TailTouches(p: Program, c: Addr)
    requires p != [] && Touches(p[1..], c)
    ensures Touches(p, c)
  {
    var k :| 0 <= k < |p[1..]| && (p[1..][k].dst == c || c in p[1..][k].srcs);
    assert p[k + 1] == p[1..][k];
  }

  // No item from k on writes b.
  lemma {:induction false} SequentialKeeps(m: Mem, items: seq<Program>, k: nat, b: Addr)
    requires k <= |items| && forall j :: k <= j < |items| ==> !Writes(items[j], b)
    ensures Get(Sequential(m, items, k), b) == Get(m, b)
    decreases |items| - k
  {
    if k < |items| {
      UnwrittenKept(m, items[k], b);
      SequentialKeeps(RunProgram(m, items[k]), items, k + 1, b);
    }
  }

  // What item i writes to b, only it writes, and it computes from what was there at the start.
  lemma {:induction false} OwnedValue(m: Mem, items: seq<Program>, k: nat, i: nat, b: Addr)
    requires RaceFree(items) && k <= i < |items|
    requires forall j :: 0 <= j < |items| && j != i ==> !Writes(items[j], b)
    ensures Get(Sequential(m, items, k), b) == Get(RunProgram(m, items[i]), b)
    decreases i - k
  {
    if k == i {
      SequentialKeeps(RunProgram(m, items[i]), items, i + 1, b);
    } else {
      var n := RunProgram(m, items[k]);
      forall c | Touches(items[i], c) ensures Get(m, c) == Get(n, c) {
        TouchedElsewhere(items, k, i, c);
        UnwrittenKept(m, items[k], c);
      }
      UnwrittenKept(m, items[k], b);
      RunAgrees(m, n, items[i], b);
      OwnedValue(n, items, k + 1, i, b);
    }
  }

  lemma TouchedElsewhere(items: seq<Program>, k: nat, i: nat, c: Addr)
    requires RaceFree(items) && k < |items| && i < |items| && k != i && Touches(items[i], c)
    ensures !Writes(items[k], c)
  {
    var l :| 0 <= l < |items[i]| && (items[i][l].dst == c || c in items[i][l].srcs);
    forall x | 0 <= x < |items[k]| ensures items[k][x].dst != c {
      assert Independent(items[k][x], items[i][l]);
    }
  }

  // ---- who owns an address during a phase ---------------------------------------------------------------------

  const NOBODY := -1

  // Every item writes only addresses it owns and reads only those or ones that nobody owns.
  ghost predicate Disciplined(p: Program, i: nat, owner: Addr -> int) {
    forall k :: 0 <= k < |p| ==> owner(p[k].dst) == i && forall b :: b in p[k].srcs ==> owner(b) == i || owner(b) == NOBODY
  }

  lemma DisciplineIsRaceFree(items: seq<Program>, owner: Addr -> int)
    requires forall i :: 0 <= i < |items| ==> Disciplined(items[i], i, owner)
    ensures RaceFree(items)
  {
    forall i, j, k, l | 0 <= i < |items| && 0 <= j < |items| && i != j && 0 <= k < |items[i]| && 0 <= l < |items[j]|
      ensures Independent(items[i][k], items[j][l])
    {
      assert Disciplined(items[i], i, owner) && Disciplined(items[j], j, owner);
    }
  }

  lemma DisciplineConcat(p: Program, q: Program, i: nat, owner: Addr -> int)
    requires Disciplined(p, i, owner) && Disciplined(q, i, owner)
    ensures Disciplined(p + q, i, owner)
  {
  }

  // An address with another owner is not written.
  lemma OwnersWrite(p: Program, i: nat, owner: Addr -> int, b: Addr)
    requires Disciplined(p, i, owner) && owner(b) != i
    ensures !Writes(p, b)
  {
  }

  // The value at an address that item i owns, after the phase.
  lemma OwnerValue(m: Mem, items: seq<Program>, owner: Addr -> int, i: nat, b: Addr)
    requires (forall j :: 0 <= j < |items| ==> Disciplined(items[j], j, owner)) && i < |items| && owner(b) == i
    ensures Get(Sequential(m, items, 0), b) == Get(RunProgram(m, items[i]), b)
  {
    DisciplineIsRaceFree(items, owner);
    forall j | 0 <= j < |items| && j != i ensures !Writes(items[j], b) {
      OwnersWrite(items[j], j, owner, b);
    }
    OwnedValue(m, items, 0, i, b);
  }

  lemma NobodyWrites(m: Mem, items: seq<Program>, owner: Addr -> int, b: Addr)
    requires (forall j :: 0 <= j < |items| ==> Disciplined(items[j], j, owner)) && owner(b) == NOBODY
    ensures Get(Sequential(m, items, 0), b) == Get(m, b)
  {
    forall j | 0 <= j < |items| ensures !Writes(items[j], b) {
      OwnersWrite(items[j], j, owner, b);
    }
    SequentialKeeps(m, items, 0, b);
  }

  lemma {:induction false} RunConcat(m: Mem, p: Program, q: Program)
    ensures RunProgram(m, p + q) == RunProgram(RunProgram(m, p), q)
    decreases |p|
  {
    if p == [] {
      assert p + q == q;
    } else {
      assert (p + q)[1..] == p[1..] + q;
      RunConcat(Exec(m, p[0]), p[1..], q);
    }
  }

  // ---- accumulating loops -----------------------------------------------------------------------------------------

  datatype Term = Term(srcs: seq<Addr>, f: seq<real> -> real)

  function AddTo(acc: Addr, t: Term): Action {
    Action(acc, [acc] + t.srcs, (v: seq<real>) => if |v| > 0 then v[0] + t.f(v[1..]) else 0.0)
  }

  function AddAll(acc: Addr, terms: seq<Term>): (p: Program)
    ensures |p| == |terms|
  {
    seq(|terms|, i requires 0 <= i < |terms| => AddTo(acc, terms[i]))
  }

  function TermSum(m: Mem, terms: seq<Term>): real {
    if terms == [] then 0.0 else terms[0].f(Load(m, terms[0].srcs)) + TermSum(m, terms[1..])
  }

  function Clear(acc: Addr): Action {
    Action(acc, [], (v: seq<real>) => 0.0)
  }

  function Copy(dst: Addr, src: Addr): Action {
    Action(dst, [src], (v: seq<real>) => if |v| > 0 then v[0] else 0.0)
  }

  ghost predicate AvoidsAcc(acc: Addr, terms: seq<Term>) {
    forall k :: 0 <= k < |terms| ==> acc !in terms[k].srcs
  }

  lemma AddOnce(m: Mem, acc: Addr, t: Term)
    requires acc !in t.srcs
    ensures Get(Exec(m, AddTo(acc, t)), acc) == Get(m, acc) + t.f(Load(m, t.srcs))
  {
    var v := Load(m, [acc] + t.srcs);
    assert v[1..] == Load(m, t.srcs);
  }

  lemma {:induction false} SumUnmoved(m: Mem, acc: Addr, x: real, terms: seq<Term>)
    requires AvoidsAcc(acc, terms)
    ensures TermSum(m[acc := x], terms) == TermSum(m, terms)
  {
    if terms != [] {
      assert acc !in terms[0].srcs;
      LoadAgrees(m[acc := x], m, terms[0].srcs);
      assert forall k :: 0 <= k < |terms[1..]| ==> terms[1..][k] == terms[k + 1];
      SumUnmoved(m, acc, x, terms[1..]);
    }
  }

  lemma {:induction false} Accumulated(m: Mem, acc: Addr, terms: seq<Term>)
    requires AvoidsAcc(acc, terms)
    ensures Get(RunProgram(m, AddAll(acc, terms)), acc) == Get(m, acc) + TermSum(m, terms)
    decreases |terms|
  {
    if terms != [] {
      var n := Exec(m, AddTo(acc, terms[0]));
      assert acc !in terms[0].srcs;
      AddOnce(m, acc, terms[0]);
      assert AddAll(acc, terms)[1..] == AddAll(acc, terms[1..]);
      assert forall k :: 0 <= k < |terms[1..]| ==> terms[1..][k] == terms[k + 1];
      Accumulated(n, acc, terms[1..]);
      SumUnmoved(m, acc, Get(n, acc), terms[1..]);
    }
  }

  // float sum = 0; sum += ... for each term
  function SumUp(acc: Addr, terms: seq<Term>): Program {
    [Clear(acc)] + AddAll(acc, terms)
  }

  lemma SumUpValue(m: Mem, acc: Addr, terms: seq<Term>)
    requires AvoidsAcc(acc, terms)
    ensures Get(RunProgram(m, SumUp(acc, terms)), acc) == TermSum(m, terms)
  {
    RunConcat(m, [Clear(acc)], AddAll(acc, terms));
    RunOne(m, Clear(acc));
    Accumulated(Exec(m, Clear(acc)), acc, terms);
    SumUnmoved(m, acc, 0.0, terms);
  }

  // The sum, then dst = sum.
  function SumInto(dst: Addr, acc: Addr, terms: seq<Term>): Program {
    SumUp(acc, terms) + [Copy(dst, acc)]
  }

  lemma SumIntoValue(m: Mem, dst: Addr, acc: Addr, terms: seq<Term>)
    requires AvoidsAcc(acc, terms) && dst != acc
    ensures Get(RunProgram(m, SumInto(dst, acc, terms)), dst) == TermSum(m, terms)
  {
    RunConcat(m, SumUp(acc, terms), [Copy(dst, acc)]);
    SumUpValue(m, acc, terms);
    var r := RunProgram(m, SumUp(acc, terms));
    RunOne(r, Copy(dst, acc));
    CopyValue(r, dst, acc);
  }

  lemma RunOne(m: Mem, a: Action)
    ensures RunProgram(m, [a]) == Exec(m, a)
  {
    assert [a][1..] == [];
  }

  lemma CopyValue(m: Mem, dst: Addr, src: Addr)
    ensures Get(Exec(m, Copy(dst, src)), dst) == Get(m, src)
  {
  }

  ghost predicate ReadsOwn(terms: seq<Term>, i: int, owner: Addr -> int) {
    forall k :: 0 <= k < |terms| ==> forall b :: b in terms[k].srcs ==> owner(b) == NOBODY || owner(b) == i
  }

  lemma SumUpDisciplined(acc: Addr, terms: seq<Term>, i: nat, owner: Addr -> int)
    requires owner(acc) == i && ReadsOwn(terms, i, owner)
    ensures Disciplined(SumUp(acc, terms), i, owner)
  {
    var p := AddAll(acc, terms);
    forall k | 0 <= k < |p| ensures owner(p[k].dst) == i && forall b :: b in p[k].srcs ==> owner(b) == i || owner(b) == NOBODY {
      assert p[k] == AddTo(acc, terms[k]);
    }
    DisciplineConcat([Clear(acc)], p, i, owner);
  }

  lemma SumIntoDisciplined(dst: Addr, acc: Addr, terms: seq<Term>, i: nat, owner: Addr -> int)
    requires owner(dst) == i && owner(acc) == i
    requires ReadsOwn(terms, i, owner)
    ensures Disciplined(SumInto(dst, acc, terms), i, owner)
  {
    SumUpDisciplined(acc, terms, i, owner);
    DisciplineConcat(SumUp(acc, terms), [Copy(dst, acc)], i, owner);
  }

  // ---- several accumulators ---------------------------------------------------------------------------------------

  // One addition of a loop that adds to several accumulators in turn.
  datatype Share = Share(acc: Addr, term: Term)

  function AddShares(shares: seq<Share>): (p: Program)
    ensures |p| == |shares|
  {
    seq(|shares|, i requires 0 <= i < |shares| => AddTo(shares[i].acc, shares[i].term))
  }

  // What is added to a.
  function ShareSum(m: Mem, shares: seq<Share>, a: Addr): real {
    if shares == [] then 0.0
    else (if shares[0].acc == a then shares[0].term.f(Load(m, shares[0].term.srcs)) else 0.0) + ShareSum(m, shares[1..], a)
  }

  ghost predicate Among(shares: seq<Share>, accs: set<Addr>) {
    forall k :: 0 <= k < |shares| ==> shares[k].acc in accs && forall b :: b in shares[k].term.srcs ==> b !in accs
  }

  lemma AmongTail(shares: seq<Share>, accs: set<Addr>)
    requires shares != [] && Among(shares, accs)
    ensures Among(shares[1..], accs)
  {
    assert forall k :: 0 <= k < |shares[1..]| ==> shares[1..][k] == shares[k + 1];
  }

  lemma {:induction false} SharesUnmoved(m: Mem, n: Mem, shares: seq<Share>, accs: set<Addr>, a: Addr)
    requires Among(shares, accs) && forall b :: b !in accs ==> Get(m, b) == Get(n, b)
    ensures ShareSum(m, shares, a) == ShareSum(n, shares, a)
  {
    if shares != [] {
      LoadAgrees(m, n, shares[0].term.srcs);
      AmongTail(shares, accs);
      SharesUnmoved(m, n, shares[1..], accs, a);
    }
  }

  // Whatever the order of the additions, every accumulator grows by its own.
  lemma {:induction false} SharesAdded(m: Mem, shares: seq<Share>, accs: set<Addr>, a: Addr)
    requires Among(shares, accs)
    ensures Get(RunProgram(m, AddShares(shares)), a) == Get(m, a) + ShareSum(m, shares, a)
    decreases |shares|
  {
    if shares != [] {
      var acc, t := shares[0].acc, shares[0].term;
      var n := Exec(m, AddTo(acc, t));
      AddOnce(m, acc, t);
      assert AddShares(shares)[1..] == AddShares(shares[1..]);
      AmongTail(shares, accs);
      SharesUnmoved(m, n, shares[1..], accs, a);
      SharesAdded(n, shares[1..], accs, a);
    }
  }

  lemma {:induction false} NoShare(m: Mem, shares: seq<Share>, accs: set<Addr>, a: Addr)
    requires Among(shares, accs) && a !in accs
    ensures ShareSum(m, shares, a) == 0.0
  {
    if shares != [] {
      AmongTail(shares, accs);
      NoShare(m, shares[1..], accs, a);
    }
  }

  lemma {:induction false} ShareSumConcat(m: Mem, p: seq<Share>, q: seq<Share>, a: Addr)
    ensures ShareSum(m, p + q, a) == ShareSum(m, p, a) + ShareSum(m, q, a)
  {
    if p == [] {
      assert p + q == q;
    } else {
      assert (p + q)[1..] == p[1..] + q;
      ShareSumConcat(m, p[1..], q, a);
    }
  }

  ghost predicate SharesOwn(shares: seq<Share>, i: int, owner: Addr -> int) {
    forall k :: 0 <= k < |shares| ==>
      && owner(shares[k].acc) == i
      && forall b :: b in shares[k].term.srcs ==> owner(b) == NOBODY || owner(b) == i
  }

  lemma AddSharesDisciplined(shares: seq<Share>, i: nat, owner: Addr -> int)
    requires SharesOwn(shares, i, owner)
    ensures Disciplined(AddShares(shares), i, owner)
  {
  }
}
