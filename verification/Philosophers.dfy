/** The asymmetric dining philosophers: n processes over n binary semaphores,
    one step for each sem_wait and each sem_post. */
module Philosophers {
  import opened Sums

  /** Where a philosopher is: before the first sem_wait, between the two waits,
      holding both sticks, and between the two posts. */
  datatype Pc = Thinking | HasFirst | Eating | PostedOwn

  datatype State = State(sticks: seq<nat>, pcs: seq<Pc>)

  function Right(i: nat, n: nat): (r: nat)
    requires i < n
    ensures r < n && (r == i + 1 || (r == 0 && i + 1 == n))
  {
    (i + 1) % n
  }

  function Left(k: nat, n: nat): (r: nat)
    requires k < n
    ensures r < n && Right(r, n) == k
  {
    if k == 0 then n - 1 else k - 1
  }

  /** Philosopher 0 takes its right stick first, everybody else its own. */
  function First(i: nat, n: nat): nat
    requires i < n
  {
    if i == 0 then Right(i, n) else i
  }

  function Second(i: nat, n: nat): nat
    requires i < n
  {
    if i == 0 then i else Right(i, n)
  }

  function Init(n: nat): State {
    State(seq(n, _ => 1), seq(n, _ => Thinking))
  }

  predicate WellFormed(s: State) {
    |s.sticks| == |s.pcs|
  }

  /** A philosopher is stuck only in a sem_wait on a semaphore whose value is 0. */
  predicate CanStep(s: State, i: nat)
    requires WellFormed(s)
  {
    var n := |s.pcs|;
    i < n &&
    (s.pcs[i] == Thinking ==> s.sticks[First(i, n)] > 0) &&
    (s.pcs[i] == HasFirst ==> s.sticks[Second(i, n)] > 0)
  }

  function Step(s: State, i: nat): (r: State)
    requires WellFormed(s) && CanStep(s, i)
    ensures WellFormed(r) && |r.pcs| == |s.pcs|
  {
    var n := |s.pcs|;
    match s.pcs[i]
    case Thinking =>
      var k := First(i, n);
      State(s.sticks[k := s.sticks[k] - 1], s.pcs[i := HasFirst])
    case HasFirst =>
      var k := Second(i, n);
      State(s.sticks[k := s.sticks[k] - 1], s.pcs[i := Eating])
    case Eating =>
      State(s.sticks[i := s.sticks[i] + 1], s.pcs[i := PostedOwn])
    case PostedOwn =>
      var k := Right(i, n);
      State(s.sticks[k := s.sticks[k] + 1], s.pcs[i := Thinking])
  }

  /** Two waits take one stick each and two posts put them back: philosopher 0 takes the stick to its
      right first, everybody else their own, and all post their own first. */
  lemma StepTakesAndPosts(s: State, i: nat)
    requires WellFormed(s) && CanStep(s, i)
    ensures var n, r := |s.pcs|, Step(s, i);
            var next := if i == n - 1 then 0 else i + 1;
            var k := match s.pcs[i]
                     case Thinking => if i == 0 then next else i
                     case HasFirst => if i == 0 then i else next
                     case Eating => i
                     case PostedOwn => next;
            && r.sticks[k] == s.sticks[k] + (if s.pcs[i].Thinking? || s.pcs[i].HasFirst? then -1 else 1)
            && (forall j: nat :: j < n && j != k ==> r.sticks[j] == s.sticks[j])
            && (forall j: nat :: j < n && j != i ==> r.pcs[j] == s.pcs[j])
  {
  }

  // ---------- runs ----------

  /** A schedule names the philosopher that moves at each step. */
  predicate Valid(s: State, sched: seq<nat>)
    requires WellFormed(s)
    decreases |sched|
  {
    sched == [] || (CanStep(s, sched[0]) && Valid(Step(s, sched[0]), sched[1..]))
  }

  function Exec(s: State, sched: seq<nat>): (r: State)
    requires WellFormed(s) && Valid(s, sched)
    ensures WellFormed(r) && |r.pcs| == |s.pcs|
    decreases |sched|
  {
    if sched == [] then s else Exec(Step(s, sched[0]), sched[1..])
  }

  /** The number of meals completed: steps that post the second stick back. */
  function Meals(s: State, sched: seq<nat>): nat
    requires WellFormed(s) && Valid(s, sched)
    decreases |sched|
  {
    if sched == [] then 0
    else (if s.pcs[sched[0]] == PostedOwn then 1 else 0) + Meals(Step(s, sched[0]), sched[1..])
  }

  // ---------- stick conservation ----------

  predicate Holds(s: State, i: nat, k: nat)
    requires i < |s.pcs|
  {
    var n := |s.pcs|;
    match s.pcs[i]
    case Thinking => false
    case HasFirst => k == First(i, n)
    case Eating => k == i || k == Right(i, n)
    case PostedOwn => k == Right(i, n)
  }

  function Bit(b: bool): nat { if b then 1 else 0 }

  ghost predicate Accounted(s: State, k: nat)
    requires WellFormed(s) && k < |s.pcs|
  {
    s.sticks[k] + Bit(Holds(s, k, k)) + Bit(Holds(s, Left(k, |s.pcs|), k)) == 1
  }

  /** Every stick is on the table or in the hands of exactly one of its two neighbours. */
  ghost predicate Inv(s: State) {
    WellFormed(s) && |s.pcs| >= 2 &&
    forall k: nat :: k < |s.pcs| ==> Accounted(s, k)
  }

  lemma InitInv(n: nat)
    requires n >= 2
    ensures Inv(Init(n))
  {
  }

  lemma StepKeepsInv(s: State, i: nat)
    requires Inv(s) && CanStep(s, i)
    ensures Inv(Step(s, i))
  {
    var n, r := |s.pcs|, Step(s, i);
    forall k: nat | k < n ensures Accounted(r, k) {
      assert Accounted(s, k);
    }
  }

  lemma {:induction false} RunKeepsInv(s: State, sched: seq<nat>)
    requires Inv(s) && Valid(s, sched)
    ensures Inv(Exec(s, sched))
    decreases |sched|
  {
    if sched == [] {
    } else {
      StepKeepsInv(s, sched[0]);
      RunKeepsInv(Step(s, sched[0]), sched[1..]);
    }
  }

  ghost function Holders(s: State, k: nat): set<nat> {
    set i: nat | i < |s.pcs| && Holds(s, i, k)
  }

  /** In every reachable state a stick's semaphore value plus the number of its holders is 1,
      and only the two philosophers beside it can be holding it. */
  lemma StickConservation(n: nat, sched: seq<nat>, k: nat)
    requires n >= 2 && k < n && Valid(Init(n), sched)
    ensures var s := Exec(Init(n), sched);
            s.sticks[k] + |Holders(s, k)| == 1 && Holders(s, k) <= {k, Left(k, n)}
  {
    InitInv(n);
    RunKeepsInv(Init(n), sched);
    var s := Exec(Init(n), sched);
    assert Accounted(s, k);
    var l := Left(k, n);
    if Holds(s, k, k) {
      assert Holders(s, k) == {k};
    } else if Holds(s, l, k) {
      assert Holders(s, k) == {l};
    } else {
      assert Holders(s, k) == {};
    }
  }

  /** Neighbours never eat at the same time. */
  lemma NeighboursExclude(s: State, i: nat)
    requires Inv(s) && i < |s.pcs| && s.pcs[i] == Eating
    ensures s.pcs[Right(i, |s.pcs|)] != Eating && s.pcs[Left(i, |s.pcs|)] != Eating
  {
    assert Accounted(s, i);
    assert Accounted(s, Right(i, |s.pcs|));
    assert Left(Right(i, |s.pcs|), |s.pcs|) == i;
  }

  ghost function Eaters(s: State): set<nat> {
    set i: nat | i < |s.pcs| && s.pcs[i] == Eating
  }

  lemma {:induction false} RightIsInjective(xs: set<nat>, n: nat)
    requires forall x :: x in xs ==> x < n
    ensures |set x | x in xs :: Right(x, n)| == |xs|
    decreases |xs|
  {
    var ys := set x | x in xs :: Right(x, n);
    if xs == {} {
      assert ys == {};
    } else {
      var x :| x in xs;
      RightIsInjective(xs - {x}, n);
      var zs := set y | y in xs - {x} :: Right(y, n);
      assert Right(x, n) !in zs;
      assert ys == zs + {Right(x, n)};
    }
  }

  lemma {:induction false} BelowHasSize(xs: set<nat>, n: nat)
    requires forall x :: x in xs ==> x < n
    ensures |xs| <= n
  {
    if n == 0 {
      assert xs == {};
    } else {
      BelowHasSize(xs - {n - 1}, n - 1);
    }
  }

  /** At most half of the philosophers eat at once. */
  lemma AtMostHalfEat(n: nat, sched: seq<nat>)
    requires n >= 2 && Valid(Init(n), sched)
    ensures 2 * |Eaters(Exec(Init(n), sched))| <= n
  {
    InitInv(n);
    RunKeepsInv(Init(n), sched);
    var s := Exec(Init(n), sched);
    var es := Eaters(s);
    var rs := set x | x in es :: Right(x, n);
    RightIsInjective(es, n);
    forall i | i in es ensures i !in rs {
      NeighboursExclude(s, i);
    }
    BelowHasSize(es + rs, n);
    assert es !! rs;
    assert |es + rs| == |es| + |rs|;
  }

  // ---------- no deadlock ----------

  /** The order 1 < 2 < ... < n-1 < 0 in which every philosopher picks up its sticks. */
  function Rank(k: nat, n: nat): nat
    requires k < n
  {
    if k == 0 then n - 1 else k - 1
  }

  lemma FirstBelowSecond(i: nat, n: nat)
    requires n >= 2 && i < n
    ensures Rank(First(i, n), n) < Rank(Second(i, n), n)
  {
  }

  /** Follow the holders upwards in the stick order: from a philosopher that is not thinking,
      the chain of waits ends in one that can move. */
  lemma {:induction false} ChaseHolder(s: State, i: nat) returns (j: nat)
    requires Inv(s) && i < |s.pcs| && s.pcs[i] != Thinking
    ensures CanStep(s, j) && s.pcs[j] != Thinking
    decreases |s.pcs| - Rank(First(i, |s.pcs|), |s.pcs|)
  {
    var n := |s.pcs|;
    if CanStep(s, i) {
      return i;
    }
    var k := Second(i, n);
    assert Accounted(s, k);
    var h := if Holds(s, k, k) then k else Left(k, n);
    assert Holds(s, h, k) && h != i;
    if s.pcs[h] == HasFirst {
      FirstBelowSecond(i, n);
      j := ChaseHolder(s, h);
    } else {
      j := h;
    }
  }

  ghost predicate SomeBusy(s: State) {
    exists i: nat :: i < |s.pcs| && s.pcs[i] != Thinking
  }

  lemma AllThinkingAllFree(s: State)
    requires Inv(s) && !SomeBusy(s)
    ensures s == Init(|s.pcs|)
  {
    var n := |s.pcs|;
    forall k: nat | k < n ensures s.sticks[k] == 1 && s.pcs[k] == Thinking {
      assert Accounted(s, k);
    }
    assert s.sticks == Init(n).sticks && s.pcs == Init(n).pcs;
  }

  ghost predicate SomeoneCanMove(s: State)
    requires WellFormed(s)
  {
    exists i: nat :: CanStep(s, i)
  }

  /** For every n >= 2 and every reachable state somebody can move, and if anybody is not
      thinking then somebody who is not thinking can move. */
  lemma NoDeadlock(n: nat, sched: seq<nat>)
    requires n >= 2 && Valid(Init(n), sched)
    ensures var s := Exec(Init(n), sched);
            SomeoneCanMove(s) &&
            (SomeBusy(s) ==> exists i: nat :: CanStep(s, i) && s.pcs[i] != Thinking)
  {
    InitInv(n);
    RunKeepsInv(Init(n), sched);
    var s := Exec(Init(n), sched);
    if SomeBusy(s) {
      var i: nat :| i < n && s.pcs[i] != Thinking;
      var j := ChaseHolder(s, i);
    } else {
      AllThinkingAllFree(s);
      var host: nat := 0;
      assert CanStep(s, host);
    }
  }

  /** The program with one philosopher: after its first sem_wait nobody ever moves again. */
  lemma SinglePhilosopherDeadlocks()
    ensures Valid(Init(1), [0]) && !SomeoneCanMove(Exec(Init(1), [0]))
  {
    var s := Init(1);
    assert Valid(Step(s, 0), []);
    assert [0][1..] == [];
    assert Exec(s, [0]) == Step(s, 0);
  }

  /** A single philosopher waits twice for the same stick, so the guarantee holds
      exactly for two or more. */
  lemma NoDeadlockExactlyFromTwo(n: nat)
    requires n >= 1
    ensures (forall sched :: Valid(Init(n), sched) ==> SomeoneCanMove(Exec(Init(n), sched))) <==> n >= 2
  {
    if n >= 2 {
      forall sched | Valid(Init(n), sched) ensures SomeoneCanMove(Exec(Init(n), sched)) {
        NoDeadlock(n, sched);
      }
    } else {
      SinglePhilosopherDeadlocks();
    }
  }

  // ---------- progress ----------

  function Progress(pc: Pc): int {
    match pc case Thinking => 0 case HasFirst => 1 case Eating => 2 case PostedOwn => 3
  }

  function Remaining(pc: Pc): int {
    match pc case Thinking => 0 case HasFirst => 3 case Eating => 2 case PostedOwn => 1
  }

  /** Every meal costs exactly four steps; what is left over is the progress of unfinished meals. */
  lemma {:induction false} MealsCostFourSteps(s: State, sched: seq<nat>)
    requires WellFormed(s) && Valid(s, sched)
    ensures |sched| == 4 * Meals(s, sched) + Sum(Exec(s, sched).pcs, Progress) - Sum(s.pcs, Progress)
    decreases |sched|
  {
    if sched == [] {
    } else {
      var i, r := sched[0], Step(s, sched[0]);
      SumUpdate(s.pcs, Progress, i, r.pcs[i]);
      MealsCostFourSteps(r, sched[1..]);
    }
  }

  /** From any state at all, a run that completes fewer than m meals is shorter than 3n + 4m steps. */
  lemma LongRunsServeMeals(s: State, sched: seq<nat>, m: nat)
    requires WellFormed(s) && Valid(s, sched)
    requires |sched| >= 3 * |s.pcs| + 4 * m
    ensures Meals(s, sched) >= m
  {
    MealsCostFourSteps(s, sched);
    SumBounds(s.pcs, Progress, 0, 3);
    SumBounds(Exec(s, sched).pcs, Progress, 0, 3);
  }

  ghost function Prefix(f: nat -> nat, k: nat): (r: seq<nat>)
    ensures |r| == k && forall i :: 0 <= i < k ==> r[i] == f(i)
  {
    seq<nat>(k, i requires 0 <= i => f(i))
  }

  ghost predicate ServesAtLeast(s: State, f: nat -> nat, m: nat)
    requires WellFormed(s)
  {
    exists k: nat :: Valid(s, Prefix(f, k)) && Meals(s, Prefix(f, k)) >= m
  }

  /** Every infinite run, however unfair, completes infinitely many meals. */
  lemma InfiniteRunsServeForever(s: State, f: nat -> nat)
    requires WellFormed(s)
    requires forall k: nat :: Valid(s, Prefix(f, k))
    ensures forall m: nat :: ServesAtLeast(s, f, m)
  {
    forall m: nat ensures ServesAtLeast(s, f, m) {
      var k := 3 * |s.pcs| + 4 * m;
      LongRunsServeMeals(s, Prefix(f, k), m);
    }
  }

  lemma {:induction false} Concatenate(s: State, a: seq<nat>, b: seq<nat>)
    requires WellFormed(s) && Valid(s, a) && Valid(Exec(s, a), b)
    ensures Valid(s, a + b) && Exec(s, a + b) == Exec(Exec(s, a), b)
    decreases |a|
  {
    hide Step, CanStep;
    if a == [] {
      assert a + b == b;
    } else {
      Concatenate(Step(s, a[0]), a[1..], b);
      assert (a + b)[1..] == a[1..] + b;
    }
  }

  lemma OneStep(s: State, i: nat)
    requires WellFormed(s) && CanStep(s, i)
    ensures Valid(s, [i]) && Exec(s, [i]) == Step(s, i)
  {
    assert [i][1..] == [];
  }

  /** The table can always be cleared: everybody at it finishes without anybody new sitting down. */
  lemma {:induction false} ClearTable(s: State) returns (sched: seq<nat>)
    requires Inv(s)
    ensures Valid(s, sched) && Exec(s, sched) == Init(|s.pcs|)
    decreases Sum(s.pcs, Remaining)
  {
    SumBounds(s.pcs, Remaining, 0, 3);
    if SomeBusy(s) {
      var i: nat :| i < |s.pcs| && s.pcs[i] != Thinking;
      var j := ChaseHolder(s, i);
      var r := Step(s, j);
      StepKeepsInv(s, j);
      SumUpdate(s.pcs, Remaining, j, r.pcs[j]);
      SumBounds(r.pcs, Remaining, 0, 3);
      var rest := ClearTable(r);
      OneStep(s, j);
      Concatenate(s, [j], rest);
      sched := [j] + rest;
    } else {
      AllThinkingAllFree(s);
      sched := [];
    }
  }

  ghost predicate CanReachEating(s: State, i: nat)
    requires WellFormed(s) && i < |s.pcs|
  {
    exists more :: Valid(s, more) && Exec(s, more).pcs[i] == Eating
  }

  /** Nobody is ever shut out: from every reachable state every philosopher can still come to eat. */
  lemma EverybodyCanEat(n: nat, sched: seq<nat>, i: nat)
    requires n >= 2 && i < n && Valid(Init(n), sched)
    ensures CanReachEating(Exec(Init(n), sched), i)
  {
    InitInv(n);
    RunKeepsInv(Init(n), sched);
    var s := Exec(Init(n), sched);
    var clear := ClearTable(s);
    var t0 := Init(n);
    OneStep(t0, i);
    var t1 := Step(t0, i);
    FirstBelowSecond(i, n);
    OneStep(t1, i);
    Concatenate(t0, [i], [i]);
    Concatenate(s, clear, [i] + [i]);
    assert Exec(s, clear + ([i] + [i])).pcs[i] == Eating;
  }

  // ---------- the shared table, updated in place ----------

  /** The semaphores in shared memory and the program counter of every philosopher process. */
  class Table {
    const sticks: array<nat>
    const pcs: array<Pc>

    ghost predicate Ready()
      reads this
    {
      sticks.Length == pcs.Length
    }

    ghost function Snapshot(): State
      reads this, sticks, pcs
    {
      State(sticks[..], pcs[..])
    }

    constructor (n: nat)
      ensures Ready() && Snapshot() == Init(n) && fresh(sticks) && fresh(pcs)
      ensures sticks.Length == n && forall k :: 0 <= k < n ==> sticks[k] == 1 && pcs[k] == Thinking
    {
      sticks := new nat[n](_ => 1);
      pcs := new Pc[n](_ => Thinking);
    }

    /** sem_wait: false when the caller has to stay where it is. */
    method SemWait(k: nat) returns (passed: bool)
      requires k < sticks.Length
      modifies sticks
      ensures passed <==> old(sticks[k]) > 0
      ensures sticks[..] == if passed then old(sticks[..])[k := old(sticks[k]) - 1] else old(sticks[..])
    {
      passed := sticks[k] > 0;
      if passed {
        sticks[k] := sticks[k] - 1;
      }
    }

    method SemPost(k: nat)
      requires k < sticks.Length
      modifies sticks
      ensures sticks[..] == old(sticks[..])[k := old(sticks[k]) + 1]
    {
      sticks[k] := sticks[k] + 1;
    }

    /** One atomic step of process id, following its program text. Only a wait on a semaphore that
        is 0 keeps it where it is: the first wait is on its own stick, or on the next one for process
        0, and the second wait on the other of the two. */
    method Advance(id: nat) returns (moved: bool)
      requires Ready() && id < pcs.Length
      modifies sticks, pcs
      ensures Ready()
      ensures moved == CanStep(old(Snapshot()), id)
      ensures Snapshot() == if moved then Step(old(Snapshot()), id) else old(Snapshot())
      ensures old(pcs[id]) == Thinking ==>
        (moved <==> old(sticks[if id == 0 then (id + 1) % sticks.Length else id]) > 0)
      ensures old(pcs[id]) == HasFirst ==>
        (moved <==> old(sticks[if id == 0 then id else (id + 1) % sticks.Length]) > 0)
      ensures old(pcs[id]) == Eating || old(pcs[id]) == PostedOwn ==> moved
    {
      var n := pcs.Length;
      moved := true;
      match pcs[id] {
        case Thinking =>
          moved := SemWait(if id == 0 then (id + 1) % n else id);
          if moved { pcs[id] := HasFirst; }
        case HasFirst =>
          moved := SemWait(if id == 0 then id else (id + 1) % n);
          if moved { pcs[id] := Eating; }
        case Eating =>
          SemPost(id);
          pcs[id] := PostedOwn;
        case PostedOwn =>
          SemPost((id + 1) % n);
          pcs[id] := Thinking;
      }
    }
  }
}
