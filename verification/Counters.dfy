/** Threads incrementing one integer under a lock. The increment is a separate read and write; the
    lock is a test-and-set flag, a mutex or a binary semaphore, used through one contract. */
module Counters {
  import opened Sums

  datatype Lock =
    | TestAndSet(flag: bool)
    | Mutex(held: bool, owner: nat)
    | Semaphore(value: nat)

  predicate IsFree(l: Lock) {
    match l
    case TestAndSet(flag) => !flag
    case Mutex(held, _) => !held
    case Semaphore(value) => value > 0
  }

  /** A freshly initialised lock: flag clear, mutex unlocked, semaphore at 1. */
  predicate IsNew(l: Lock) {
    IsFree(l) && (l.Semaphore? ==> l.value == 1)
  }

  /** One attempt to take the lock. Test-and-set writes the flag and looks at its old value; the
      other two leave a lock that is not free alone. */
  function TryAcquire(l: Lock, t: nat): (r: (Lock, bool)) {
    match l
    case TestAndSet(flag) => (TestAndSet(true), !flag)
    case Mutex(held, owner) => if held then (l, false) else (Mutex(true, t), true)
    case Semaphore(value) => if value > 0 then (Semaphore(value - 1), true) else (l, false)
  }

  function Release(l: Lock): Lock {
    match l
    case TestAndSet(_) => TestAndSet(false)
    case Mutex(_, owner) => Mutex(false, owner)
    case Semaphore(value) => Semaphore(value + 1)
  }

  /** Whether the lock may be in the hands of thread t. */
  predicate HeldBy(l: Lock, t: nat) {
    match l
    case TestAndSet(flag) => flag
    case Mutex(held, owner) => held && owner == t
    case Semaphore(value) => value == 0
  }

  predicate Sound(l: Lock) {
    l.Semaphore? ==> l.value <= 1
  }

  /** The contract all three locks meet: a thread is admitted exactly when the lock is free, an attempt
      on a taken lock changes nothing, and the holder's release frees it. */
  lemma LockContract(l: Lock, t: nat)
    requires Sound(l)
    ensures TryAcquire(l, t).1 <==> IsFree(l)
    ensures !TryAcquire(l, t).1 ==> TryAcquire(l, t).0 == l
    ensures TryAcquire(l, t).1 ==> Sound(TryAcquire(l, t).0) && HeldBy(TryAcquire(l, t).0, t)
    ensures HeldBy(l, t) ==> !IsFree(l) && Sound(Release(l)) && IsFree(Release(l))
  {
  }

  // ---------- the threads ----------

  /** Before taking the lock, before the read, between the read and the write, before the release. */
  datatype Pc = Trying | Locked | Loaded(copy: int) | Stored

  /** A thread with the number of calls of inc it has completed. */
  datatype Thread = Thread(done: nat, pc: Pc)

  datatype State = State(value: int, lock: Lock, threads: seq<Thread>, rounds: nat)

  function Init(value: int, lock: Lock, threads: nat, rounds: nat): State {
    State(value, lock, seq(threads, _ => Thread(0, Trying)), rounds)
  }

  predicate Finished(s: State, th: Thread) {
    th.pc == Trying && th.done >= s.rounds
  }

  predicate Enabled(s: State, t: nat) {
    t < |s.threads| && !Finished(s, s.threads[t])
  }

  /** A step that only finds the lock taken. */
  predicate Spins(s: State, t: nat)
    requires t < |s.threads|
  {
    s.threads[t].pc == Trying && !IsFree(s.lock)
  }

  function Step(s: State, t: nat): (r: State)
    requires Enabled(s, t)
    ensures |r.threads| == |s.threads| && r.rounds == s.rounds
  {
    var th := s.threads[t];
    match th.pc
    case Trying =>
      var (l, got) := TryAcquire(s.lock, t);
      s.(lock := l, threads := s.threads[t := th.(pc := if got then Locked else Trying)])
    case Locked => s.(threads := s.threads[t := th.(pc := Loaded(s.value))])
    case Loaded(copy) => s.(value := copy + 1, threads := s.threads[t := th.(pc := Stored)])
    case Stored => s.(lock := Release(s.lock), threads := s.threads[t := Thread(th.done + 1, Trying)])
  }

  predicate Valid(s: State, sched: seq<nat>)
    decreases |sched|
  {
    sched == [] || (Enabled(s, sched[0]) && Valid(Step(s, sched[0]), sched[1..]))
  }

  function Exec(s: State, sched: seq<nat>): (r: State)
    requires Valid(s, sched)
    ensures |r.threads| == |s.threads| && r.rounds == s.rounds
    decreases |sched|
  {
    if sched == [] then s else Exec(Step(s, sched[0]), sched[1..])
  }

  // ---------- no update is lost ----------

  predicate InSection(th: Thread) {
    th.pc != Trying
  }

  /** Increments of a thread that have reached the integer. */
  function Written(th: Thread): int {
    th.done + if th.pc == Stored then 1 else 0
  }

  ghost predicate Exclusion(s: State) {
    && Sound(s.lock)
    && (forall t: nat :: t < |s.threads| && InSection(s.threads[t]) ==> HeldBy(s.lock, t))
    && (forall t: nat, u: nat :: t < u < |s.threads| ==> !(InSection(s.threads[t]) && InSection(s.threads[u])))
    && ((forall t: nat :: t < |s.threads| ==> !InSection(s.threads[t])) ==> IsFree(s.lock))
  }

  ghost predicate Inv(s: State, value0: int) {
    && Exclusion(s)
    && s.value == value0 + Sum(s.threads, Written)
    && (forall t: nat :: t < |s.threads| && s.threads[t].pc.Loaded? ==> s.threads[t].pc.copy == s.value)
    && (forall t: nat :: t < |s.threads| ==>
          s.threads[t].done <= s.rounds && (InSection(s.threads[t]) ==> s.threads[t].done < s.rounds))
  }

  lemma StepKeepsExclusion(s: State, t: nat)
    requires Exclusion(s) && Enabled(s, t)
    ensures Exclusion(Step(s, t))
  {
    LockContract(s.lock, t);
    var r := Step(s, t);
    if s.threads[t].pc == Trying && !IsFree(s.lock) {
      assert r.threads == s.threads;
    } else if s.threads[t].pc == Trying {
      forall u: nat | u < |s.threads| ensures !InSection(s.threads[u]) {
        LockContract(s.lock, u);
      }
      assert InSection(r.threads[t]);
    }
  }

  lemma StepKeepsInv(s: State, t: nat, value0: int)
    requires Inv(s, value0) && Enabled(s, t)
    ensures Inv(Step(s, t), value0)
  {
    StepKeepsExclusion(s, t);
    SumUpdate(s.threads, Written, t, Step(s, t).threads[t]);
  }

  lemma {:induction false} RunKeepsInv(s: State, sched: seq<nat>, value0: int)
    requires Inv(s, value0) && Valid(s, sched)
    ensures Inv(Exec(s, sched), value0)
    decreases |sched|
  {
    if sched == [] {
    } else {
      StepKeepsInv(s, sched[0], value0);
      RunKeepsInv(Step(s, sched[0]), sched[1..], value0);
    }
  }

  lemma {:induction false} NothingWrittenAtFirst(n: nat)
    ensures Sum(seq(n, _ => Thread(0, Trying)), Written) == 0
  {
    if n == 0 {
    } else {
      NothingWrittenAtFirst(n - 1);
      assert seq(n, _ => Thread(0, Trying))[1..] == seq(n - 1, _ => Thread(0, Trying));
    }
  }

  ghost predicate AllFinished(s: State) {
    forall t: nat :: t < |s.threads| ==> Finished(s, s.threads[t])
  }

  /** For any new lock of the three kinds, any number of threads and rounds and every interleaving:
      at most one thread is between lock and unlock, the integer is the initial value plus the
      increments written, and when all threads have finished it is the initial value plus
      threads times rounds. */
  lemma NoUpdateIsLost(value0: int, lock: Lock, threads: nat, rounds: nat, sched: seq<nat>)
    requires IsNew(lock) && Valid(Init(value0, lock, threads, rounds), sched)
    ensures var s := Exec(Init(value0, lock, threads, rounds), sched);
            && (forall t: nat, u: nat :: t < u < threads ==> !(InSection(s.threads[t]) && InSection(s.threads[u])))
            && s.value == value0 + Sum(s.threads, Written)
            && (AllFinished(s) ==> s.value == value0 + threads * rounds)
  {
    var s0 := Init(value0, lock, threads, rounds);
    NothingWrittenAtFirst(threads);
    RunKeepsInv(s0, sched, value0);
    var s := Exec(s0, sched);
    if AllFinished(s) {
      SumBounds(s.threads, Written, rounds, rounds);
    }
  }

  // ---------- what a semaphore that admits two threads loses ----------

  /** In every run the integer is the initial value plus the increments written. */
  ghost predicate UpdatesCounted(value0: int, lock: Lock, threads: nat, rounds: nat) {
    forall sched :: Valid(Init(value0, lock, threads, rounds), sched) ==>
      var s := Exec(Init(value0, lock, threads, rounds), sched);
      s.value == value0 + Sum(s.threads, Written)
  }

  lemma {:induction false} NobodyEnters(s: State, sched: seq<nat>)
    requires s.lock == Semaphore(0) && Valid(s, sched)
    requires forall t: nat :: t < |s.threads| ==> s.threads[t].pc == Trying
    ensures Exec(s, sched) == s
    decreases |sched|
  {
    if sched == [] {
    } else {
      assert Step(s, sched[0]).threads == s.threads;
      NobodyEnters(s, sched[1..]);
    }
  }

  lemma StepFirst(s: State, t: nat, rest: seq<nat>)
    requires Enabled(s, t) && Valid(Step(s, t), rest)
    ensures Valid(s, [t] + rest) && Exec(s, [t] + rest) == Exec(Step(s, t), rest)
  {
    assert ([t] + rest)[1..] == rest;
  }

  /** Two threads inside together read the same value, and one of their writes is lost. */
  lemma TwoInsideLoseOne(value0: int, v: nat, threads: nat, rounds: nat) returns (sched: seq<nat>)
    requires v >= 2 && threads >= 2 && rounds >= 1
    ensures var s0 := Init(value0, Semaphore(v), threads, rounds);
            Valid(s0, sched) && Exec(s0, sched).value == value0 + 1 && Sum(Exec(s0, sched).threads, Written) == 2
  {
    var s0 := Init(value0, Semaphore(v), threads, rounds);
    var s1 := Step(s0, 0);
    var s2 := Step(s1, 1);
    var s3 := Step(s2, 0);
    var s4 := Step(s3, 1);
    var s5 := Step(s4, 0);
    var s6 := Step(s5, 1);
    StepFirst(s5, 1, []);
    StepFirst(s4, 0, [1] + []);
    StepFirst(s3, 1, [0] + ([1] + []));
    StepFirst(s2, 0, [1] + ([0] + ([1] + [])));
    StepFirst(s1, 1, [0] + ([1] + ([0] + ([1] + []))));
    StepFirst(s0, 0, [1] + ([0] + ([1] + ([0] + ([1] + [])))));
    sched := [0] + ([1] + ([0] + ([1] + ([0] + ([1] + [])))));
    var stored := Thread(0, Stored);
    assert s6.threads == s0.threads[0 := stored][1 := stored];
    NothingWrittenAtFirst(threads);
    SumUpdate(s0.threads, Written, 0, stored);
    SumUpdate(s0.threads[0 := stored], Written, 1, stored);
  }

  /** A semaphore keeps the increments of two or more threads exactly when it starts at 1 or, letting
      nobody in, at 0. */
  lemma SemaphoreCountsExactly(value0: int, v: nat, threads: nat, rounds: nat)
    requires threads >= 2 && rounds >= 1
    ensures UpdatesCounted(value0, Semaphore(v), threads, rounds) <==> v <= 1
  {
    var s0 := Init(value0, Semaphore(v), threads, rounds);
    if v >= 2 {
      var sched := TwoInsideLoseOne(value0, v, threads, rounds);
    } else {
      forall sched | Valid(s0, sched)
        ensures Exec(s0, sched).value == value0 + Sum(Exec(s0, sched).threads, Written)
      {
        if v == 0 {
          NobodyEnters(s0, sched);
          NothingWrittenAtFirst(threads);
        } else {
          NoUpdateIsLost(value0, Semaphore(v), threads, rounds, sched);
        }
      }
    }
  }

  // ---------- everybody finishes ----------

  function Progress(th: Thread): int {
    4 * th.done +
    match th.pc case Trying => 0 case Locked => 1 case Loaded(_) => 2 case Stored => 3
  }

  /** The steps of a run other than finding the lock taken. */
  function Work(s: State, sched: seq<nat>): nat
    requires Valid(s, sched)
    decreases |sched|
  {
    if sched == [] then 0
    else (if Spins(s, sched[0]) then 0 else 1) + Work(Step(s, sched[0]), sched[1..])
  }

  lemma {:induction false} WorkIsProgress(s: State, sched: seq<nat>)
    requires Sound(s.lock) && Valid(s, sched) && Inv(s, s.value - Sum(s.threads, Written))
    ensures Work(s, sched) == Sum(Exec(s, sched).threads, Progress) - Sum(s.threads, Progress)
    decreases |sched|
  {
    if sched == [] {
    } else {
      var t, r := sched[0], Step(s, sched[0]);
      LockContract(s.lock, t);
      SumUpdate(s.threads, Progress, t, r.threads[t]);
      StepKeepsInv(s, t, s.value - Sum(s.threads, Written));
      WorkIsProgress(r, sched[1..]);
    }
  }

  lemma NoProgressAtFirst(s: State)
    requires forall t: nat :: t < |s.threads| ==> s.threads[t] == Thread(0, Trying)
    ensures Sum(s.threads, Progress) == 0
  {
    SumBounds(s.threads, Progress, 0, 0);
  }

  lemma ProgressIsBounded(s: State, value0: int)
    requires Inv(s, value0)
    ensures Sum(s.threads, Progress) <= 4 * s.rounds * |s.threads|
  {
    SumBounds(s.threads, Progress, 0, 4 * s.rounds);
  }

  ghost predicate SomeoneProgresses(s: State) {
    exists t: nat :: Enabled(s, t) && !Spins(s, t)
  }

  lemma NotStuck(s: State, value0: int)
    requires Inv(s, value0) && !AllFinished(s)
    ensures SomeoneProgresses(s)
  {
    if t: nat :| t < |s.threads| && InSection(s.threads[t]) {
      assert Enabled(s, t);
    } else {
      var t: nat :| t < |s.threads| && !Finished(s, s.threads[t]);
      assert Enabled(s, t);
    }
  }

  /** Every run makes at most four steps for each increment besides spinning, and until all threads
      have finished some thread can make one. */
  lemma EverybodyFinishes(value0: int, lock: Lock, threads: nat, rounds: nat, sched: seq<nat>)
    requires IsNew(lock) && Valid(Init(value0, lock, threads, rounds), sched)
    ensures Work(Init(value0, lock, threads, rounds), sched) <= 4 * rounds * threads
    ensures var s := Exec(Init(value0, lock, threads, rounds), sched);
            AllFinished(s) || SomeoneProgresses(s)
  {
    var s0 := Init(value0, lock, threads, rounds);
    NothingWrittenAtFirst(threads);
    RunKeepsInv(s0, sched, value0);
    var s := Exec(s0, sched);
    WorkIsProgress(s0, sched);
    NoProgressAtFirst(s0);
    ProgressIsBounded(s, value0);
    if !AllFinished(s) {
      NotStuck(s, value0);
    }
  }

  // ---------- the shared integer ----------

  /** The shared Integer and the threads inside increment, updated in place. */
  class Integer {
    var innerValue: int
    var lock: Lock
    var threads: seq<Thread>
    const rounds: nat

    ghost function Snapshot(): State
      reads this
    {
      State(innerValue, lock, threads, rounds)
    }

    constructor (value: int, lock: Lock, threadCount: nat, rounds: nat)
      ensures Snapshot() == Init(value, lock, threadCount, rounds)
    {
      innerValue := value;
      this.lock := lock;
      threads := seq(threadCount, _ => Thread(0, Trying));
      this.rounds := rounds;
    }

    /** One step of thread t inside inc, at any point unless it has made all its calls. */
    method Inc(t: nat)
      requires t < |threads| && (threads[t].pc == Trying ==> threads[t].done < rounds)
      modifies this
      ensures Enabled(old(Snapshot()), t) && Snapshot() == Step(old(Snapshot()), t)
    {
      var th := threads[t];
      match th.pc {
        case Trying =>
          var got := Acquire(t);
          if got {
            th := th.(pc := Locked);
          }
        case Locked =>
          th := th.(pc := Loaded(innerValue));
        case Loaded(copy) =>
          innerValue := copy + 1;
          th := th.(pc := Stored);
        case Stored =>
          lock := Release(lock);
          th := Thread(th.done + 1, Trying);
      }
      threads := threads[t := th];
    }

    /** One attempt at the lock, by its kind. */
    method Acquire(t: nat) returns (got: bool)
      modifies this`lock
      ensures (lock, got) == TryAcquire(old(lock), t)
    {
      match lock {
        case TestAndSet(flag) =>
          got := !flag;
          lock := TestAndSet(true);
        case Mutex(held, _) =>
          got := !held;
          if got {
            lock := Mutex(true, t);
          }
        case Semaphore(value) =>
          got := value > 0;
          if got {
            lock := Semaphore(value - 1);
          }
      }
    }
  }
}
