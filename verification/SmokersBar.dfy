/** The smokers' bar: a bartender process hands one token to three smoker processes through
    semaphores, and at end of input shuts them down with SIGTERM and one last post each. */
module SmokersBar {
  import opened Options

  /** Where a smoker process is. Starting is before its signal handler is installed; InWait is
      blocked inside sem_wait; Interrupted is after sem_wait returned EINTR; from Masked to Posted
      SIGTERM is blocked. */
  datatype SmokerPc =
    | Starting | AtWait | InWait | Interrupted | Got | Checked | Masked | Printed | Posted
    | Unmasked | Exited

  /** A smoker with its own semaphore, its pending SIGTERM and its terminate_flag. */
  datatype Smoker = Smoker(pc: SmokerPc, sem: nat, pending: bool, flag: bool)

  datatype MainPc =
    | Reading | Serving(k: nat) | AwaitToken
    | Killing(k: nat) | Waking(k: nat) | Reaping(k: nat) | Done

  /** The last two fields are history: the input read so far, and whether a smoker has failed to
      print while orders were being served. */
  datatype State = State(
    smokers: seq<Smoker>, bar: nat, main: MainPc, input: string, output: string,
    consumed: string, jammed: bool)

  /** FailPrint is a putchar that fails: the smoker reports it and exits. */
  datatype Action = Main | Smoke(k: nat) | FailPrint(k: nat) | Deliver(k: nat)

  function Order(ch: char): Option<nat> {
    match ch
    case 't' => Some(0)
    case 'p' => Some(1)
    case 'm' => Some(2)
    case _ => None
  }

  function Letter(k: nat): char {
    if k == 0 then 'T' else if k == 1 then 'P' else 'M'
  }

  function Init(input: string): State {
    State(seq(3, _ => Smoker(Starting, 0, false, false)), 0, Reading, input, "", "", false)
  }

  /** The program counters of main and the number of smokers stay in range. */
  predicate WellFormed(s: State) {
    |s.smokers| == 3 &&
    match s.main
    case Serving(k) => k < 3
    case Killing(k) => k < 3
    case Waking(k) => k < 3
    case Reaping(k) => k < 3
    case _ => true
  }

  predicate SignalBlocked(pc: SmokerPc) {
    pc == Masked || pc == Printed || pc == Posted
  }

  predicate Enabled(s: State, a: Action)
    requires WellFormed(s)
  {
    match a
    case Main =>
      (match s.main
       case AwaitToken => s.bar > 0
       case Reaping(k) => s.smokers[k].pc == Exited
       case Done => false
       case _ => true)
    case Smoke(k) =>
      k < 3 && s.smokers[k].pc != Exited && (s.smokers[k].pc == InWait ==> s.smokers[k].sem > 0)
    case FailPrint(k) => k < 3 && s.smokers[k].pc == Masked
    case Deliver(k) =>
      k < 3 && s.smokers[k].pending && s.smokers[k].pc != Exited && !SignalBlocked(s.smokers[k].pc)
  }

  function Post(s: State, k: nat): seq<Smoker>
    requires WellFormed(s) && k < 3
  {
    s.smokers[k := s.smokers[k].(sem := s.smokers[k].sem + 1)]
  }

  function Kill(s: State, k: nat): seq<Smoker>
    requires WellFormed(s) && k < 3
  {
    s.smokers[k := s.smokers[k].(pending := s.smokers[k].pc != Exited)]
  }

  function MainNext(s: State): State
    requires WellFormed(s) && Enabled(s, Main)
  {
    match s.main
    case Reading =>
      if s.input == "" then s.(main := Killing(0))
      else
        var ch := s.input[0];
        s.(input := s.input[1..], consumed := s.consumed + [ch],
           main := if Order(ch).Some? then Serving(Order(ch).value) else Reading)
    case Serving(k) => s.(smokers := Post(s, k), main := AwaitToken)
    case AwaitToken => s.(bar := s.bar - 1, main := Reading)
    case Killing(k) => s.(smokers := Kill(s, k), main := if k < 2 then Killing(k + 1) else Waking(0))
    case Waking(k) => s.(smokers := Post(s, k), main := if k < 2 then Waking(k + 1) else Reaping(0))
    case Reaping(k) => s.(main := if k < 2 then Reaping(k + 1) else Done)
  }

  /** What a step of smoker k changes in the smoker itself. Unblocking the signal delivers a
      pending SIGTERM before sigprocmask returns. */
  function SmokerNext(m: Smoker): Smoker {
    match m.pc
    case Starting => m.(pc := AtWait)
    case AtWait => if m.sem > 0 then m.(pc := Got, sem := m.sem - 1) else m.(pc := InWait)
    case InWait => if m.sem > 0 then m.(pc := Got, sem := m.sem - 1) else m
    case Interrupted => m.(pc := if m.flag then Exited else AtWait)
    case Got => m.(pc := if m.flag then Exited else Checked)
    case Checked => m.(pc := Masked)
    case Masked => m.(pc := Printed)
    case Printed => m.(pc := Posted)
    case Posted => m.(pc := Unmasked, flag := m.flag || m.pending, pending := false)
    case Unmasked => m.(pc := if m.flag then Exited else AtWait)
    case Exited => m
  }

  /** The handler runs; before it is installed SIGTERM ends the process, and inside sem_wait it
      makes the call return EINTR. */
  function SmokerSignalled(m: Smoker): Smoker {
    match m.pc
    case Starting => m.(pc := Exited, pending := false)
    case InWait => m.(pc := Interrupted, flag := true, pending := false)
    case _ => m.(flag := true, pending := false)
  }

  predicate Serves(s: State) {
    s.main.Reading? || s.main.Serving? || s.main.AwaitToken?
  }

  function Next(s: State, a: Action): (r: State)
    requires WellFormed(s) && Enabled(s, a)
    ensures WellFormed(r)
  {
    match a
    case Main => MainNext(s)
    case Smoke(k) =>
      var m := s.smokers[k];
      s.(smokers := s.smokers[k := SmokerNext(m)],
         output := if m.pc == Masked then s.output + [Letter(k)] else s.output,
         bar := if m.pc == Printed then s.bar + 1 else s.bar)
    case FailPrint(k) =>
      s.(smokers := s.smokers[k := s.smokers[k].(pc := Exited)], jammed := s.jammed || Serves(s))
    case Deliver(k) => s.(smokers := s.smokers[k := SmokerSignalled(s.smokers[k])])
  }

  // ---------- runs ----------

  predicate Valid(s: State, acts: seq<Action>)
    requires WellFormed(s)
    decreases |acts|
  {
    acts == [] || (Enabled(s, acts[0]) && Valid(Next(s, acts[0]), acts[1..]))
  }

  function Exec(s: State, acts: seq<Action>): (r: State)
    requires WellFormed(s) && Valid(s, acts)
    ensures WellFormed(r)
    decreases |acts|
  {
    if acts == [] then s else Exec(Next(s, acts[0]), acts[1..])
  }

  // ---------- the token ----------

  predicate InSection(pc: SmokerPc) {
    pc == Got || pc == Checked || pc == Masked || pc == Printed
  }

  /** Tokens on a smoker's semaphore or in its hands. */
  function Tokens(m: Smoker): nat {
    m.sem + if InSection(m.pc) then 1 else 0
  }

  /** Until end of input there is exactly one token: with the bartender, on one of the four
      semaphores, or with one smoker. */
  ghost predicate OneToken(s: State)
    requires WellFormed(s)
  {
    Tokens(s.smokers[0]) + Tokens(s.smokers[1]) + Tokens(s.smokers[2]) + s.bar +
    (if s.main == AwaitToken then 0 else 1) == 1
  }

  /** The letters ordered by a piece of input. */
  function Image(input: string): string {
    if input == "" then ""
    else Image(input[..|input| - 1]) +
         (var o := Order(input[|input| - 1]); if o.Some? then [Letter(o.value)] else "")
  }

  /** Each of the three orders adds its own capital letter to the image, and nothing else does. */
  lemma ImageOfOrders(input: string, ch: char)
    ensures Image("") == ""
    ensures Image(input + [ch]) ==
            Image(input) + if ch == 't' then "T" else if ch == 'p' then "P" else if ch == 'm' then "M" else ""
  {
    assert (input + [ch])[..|input|] == input;
  }

  /** The letter that smoker k has been asked for and not printed yet. */
  function OwedBy(m: Smoker, k: nat): string {
    if m.sem > 0 || m.pc == Got || m.pc == Checked || m.pc == Masked then [Letter(k)] else ""
  }

  function Owed(s: State): string
    requires WellFormed(s)
  {
    OwedBy(s.smokers[0], 0) + OwedBy(s.smokers[1], 1) + OwedBy(s.smokers[2], 2) +
    (if s.main.Serving? then [Letter(s.main.k)] else "")
  }

  /** A smoker that has not been signalled. */
  predicate Undisturbed(m: Smoker) {
    !m.pending && !m.flag && m.pc != Exited && m.pc != Interrupted
  }

  ghost predicate ServingInv(s: State)
    requires WellFormed(s)
  {
    && OneToken(s)
    && (forall k: nat :: k < 3 ==> Undisturbed(s.smokers[k]))
    && Image(s.consumed) == s.output + Owed(s)
  }

  /** The output is the image of the input consumed without at most its last letter, and complete
      when the bartender is about to read. */
  ghost predicate OutputInStep(s: State) {
    && s.output <= Image(s.consumed) && |Image(s.consumed)| <= |s.output| + 1
    && (s.main == Reading ==> s.output == Image(s.consumed))
  }

  predicate JammedWith(m: Smoker) {
    Tokens(m) == 0 && !m.pending && !m.flag && m.pc != Interrupted
  }

  /** A smoker that failed to print has taken the token with it: the bartender waits for it, and
      nobody has been signalled. */
  ghost predicate JamInv(s: State)
    requires WellFormed(s)
  {
    && s.main == AwaitToken && s.bar == 0
    && (forall k: nat :: k < 3 ==> JammedWith(s.smokers[k]))
    && OutputInStep(s)
  }

  // ---------- the shutdown ----------

  predicate Killed(main: MainPc, k: nat) {
    match main
    case Killing(j) => k < j
    case Waking(_) => true
    case Reaping(_) => true
    case Done => true
    case _ => false
  }

  predicate Woken(main: MainPc, k: nat) {
    match main
    case Waking(j) => k < j
    case Reaping(_) => true
    case Done => true
    case _ => false
  }

  predicate Reaped(main: MainPc, k: nat) {
    match main
    case Reaping(j) => k < j
    case Done => true
    case _ => false
  }

  /** Once smoker k has been killed it has its signal pending or its flag set; once it has been
      posted, either the post is still there or the smoker will not come back to sem_wait. */
  predicate ShutdownOf(main: MainPc, m: Smoker, k: nat) {
    && (!Killed(main, k) ==> Undisturbed(m))
    && (Killed(main, k) ==> m.pending || m.flag || m.pc == Exited)
    && (m.pc == Interrupted ==> m.flag)
    && (!Woken(main, k) ==> Tokens(m) == 0)
    && (Woken(main, k) ==>
          (m.sem == 1 && !InSection(m.pc)) ||
          (m.sem == 0 && (InSection(m.pc) || m.pc == Posted || m.pc == Exited || (m.pc == Unmasked && m.flag))))
    && (Reaped(main, k) ==> m.pc == Exited)
  }

  /** Smokers that main still has to post. */
  function Unposted(main: MainPc): int {
    match main
    case Killing(_) => 3
    case Waking(k) => 3 - k
    case _ => 0
  }

  /** The tokens there are and the ones still to come are three at most. */
  ghost predicate FewTokens(s: State)
    requires WellFormed(s)
  {
    s.bar + Tokens(s.smokers[0]) + Tokens(s.smokers[1]) + Tokens(s.smokers[2]) + Unposted(s.main) <= 3
  }

  ghost predicate ShutdownInv(s: State)
    requires WellFormed(s)
  {
    && (forall k: nat :: k < 3 ==> ShutdownOf(s.main, s.smokers[k], k))
    && Image(s.consumed) <= s.output
    && (!Woken(s.main, 0) ==> s.output == Image(s.consumed))
    && s.input == "" && !s.jammed
    && FewTokens(s)
  }

  ghost predicate Inv(s: State) {
    && WellFormed(s)
    && (Serves(s) && !s.jammed ==> ServingInv(s))
    && (Serves(s) && s.jammed ==> JamInv(s))
    && (!Serves(s) ==> ShutdownInv(s))
  }

  lemma InitInv(input: string)
    ensures Inv(Init(input))
  {
  }

  lemma NothingOwed(m: Smoker, k: nat)
    requires Tokens(m) == 0
    ensures OwedBy(m, k) == ""
  {
  }

  lemma EndOfInputKeepsInv(s: State)
    requires Inv(s) && s.main == Reading && s.input == ""
    ensures Inv(MainNext(s))
  {
    assert Owed(s) == "";
    forall k: nat | k < 3 ensures ShutdownOf(Killing(0), s.smokers[k], k) {
      assert Tokens(s.smokers[k]) == 0 && Undisturbed(s.smokers[k]);
    }
  }

  lemma ReadKeepsInv(s: State)
    requires Inv(s) && s.main == Reading && s.input != ""
    ensures Inv(MainNext(s))
  {
    var r := MainNext(s);
    assert r.consumed[..|s.consumed|] == s.consumed;
    NothingOwed(s.smokers[0], 0);
    NothingOwed(s.smokers[1], 1);
    NothingOwed(s.smokers[2], 2);
    assert r.output == Image(s.consumed);
  }

  lemma ServingMainKeepsInv(s: State)
    requires Inv(s) && Enabled(s, Main) && Serves(s) && s.main != Reading
    ensures Inv(MainNext(s))
  {
    assert !s.jammed;
  }

  lemma KillKeepsInv(s: State)
    requires Inv(s) && s.main.Killing?
    ensures Inv(MainNext(s))
  {
    var r := MainNext(s);
    forall k: nat | k < 3 ensures ShutdownOf(r.main, r.smokers[k], k) {
      assert ShutdownOf(s.main, s.smokers[k], k);
    }
  }

  lemma WakeKeepsInv(s: State)
    requires Inv(s) && Enabled(s, Main) && !Serves(s) && !s.main.Killing?
    ensures Inv(MainNext(s))
  {
    var r := MainNext(s);
    forall k: nat | k < 3 ensures ShutdownOf(r.main, r.smokers[k], k) {
      assert ShutdownOf(s.main, s.smokers[k], k);
    }
  }

  lemma MainKeepsInv(s: State)
    requires Inv(s) && Enabled(s, Main)
    ensures Inv(MainNext(s))
  {
    if s.main == Reading {
      if s.input == "" {
        EndOfInputKeepsInv(s);
      } else {
        ReadKeepsInv(s);
      }
    } else if Serves(s) {
      ServingMainKeepsInv(s);
    } else if s.main.Killing? {
      KillKeepsInv(s);
    } else {
      WakeKeepsInv(s);
    }
  }

  lemma SmokerKeepsTokens(m: Smoker)
    requires Undisturbed(m) && (m.pc == InWait ==> m.sem > 0)
    ensures Tokens(SmokerNext(m)) + (if m.pc == Printed then 1 else 0) == Tokens(m)
    ensures Undisturbed(SmokerNext(m))
  {
  }

  lemma SmokeKeepsToken(s: State, k: nat)
    requires WellFormed(s) && OneToken(s) && Serves(s) && Enabled(s, Smoke(k))
    requires forall j: nat :: j < 3 ==> Undisturbed(s.smokers[j])
    ensures OneToken(Next(s, Smoke(k)))
    ensures forall j: nat :: j < 3 ==> Undisturbed(Next(s, Smoke(k)).smokers[j])
  {
    SmokerKeepsTokens(s.smokers[k]);
  }

  lemma SmokeKeepsOwed(s: State, k: nat)
    requires WellFormed(s) && ServingInv(s) && Serves(s) && Enabled(s, Smoke(k))
    ensures var r := Next(s, Smoke(k)); s.output + Owed(s) == r.output + Owed(r)
  {
    var r := Next(s, Smoke(k));
    if Tokens(s.smokers[k]) > 0 {
      if k != 0 { NothingOwed(s.smokers[0], 0); }
      if k != 1 { NothingOwed(s.smokers[1], 1); }
      if k != 2 { NothingOwed(s.smokers[2], 2); }
      assert Owed(s) == OwedBy(s.smokers[k], k);
      assert Owed(r) == OwedBy(r.smokers[k], k);
    } else {
      NothingOwed(s.smokers[k], k);
      NothingOwed(r.smokers[k], k);
      assert Owed(s) == Owed(r);
    }
  }

  lemma SmokeKeepsServing(s: State, k: nat)
    requires WellFormed(s) && ServingInv(s) && Serves(s) && Enabled(s, Smoke(k))
    ensures ServingInv(Next(s, Smoke(k)))
  {
    SmokeKeepsToken(s, k);
    SmokeKeepsOwed(s, k);
  }

  lemma SmokerMakesNoTokens(m: Smoker)
    requires m.pc == InWait ==> m.sem > 0
    ensures Tokens(SmokerNext(m)) + (if m.pc == Printed then 1 else 0) <= Tokens(m)
  {
  }

  lemma SmokeKeepsFewTokens(s: State, k: nat)
    requires WellFormed(s) && FewTokens(s) && Enabled(s, Smoke(k))
    ensures FewTokens(Next(s, Smoke(k)))
  {
    SmokerMakesNoTokens(s.smokers[k]);
  }

  lemma SmokerKeepsShutdown(main: MainPc, m: Smoker, k: nat)
    requires ShutdownOf(main, m, k) && (m.pc == InWait ==> m.sem > 0)
    ensures ShutdownOf(main, SmokerNext(m), k)
  {
  }

  /** Every step of a smoker keeps the promise of the shutdown: its last post is still there or it
      will not wait again. */
  lemma SmokeKeepsShutdown(s: State, k: nat)
    requires WellFormed(s) && ShutdownInv(s) && Enabled(s, Smoke(k))
    ensures ShutdownInv(Next(s, Smoke(k)))
  {
    assert ShutdownOf(s.main, s.smokers[k], k);
    SmokerKeepsShutdown(s.main, s.smokers[k], k);
    SmokeKeepsFewTokens(s, k);
  }

  lemma SmokeKeepsJam(s: State, k: nat)
    requires WellFormed(s) && JamInv(s) && Enabled(s, Smoke(k))
    ensures JamInv(Next(s, Smoke(k)))
  {
    assert JammedWith(s.smokers[k]);
  }

  lemma SmokeKeepsInv(s: State, k: nat)
    requires Inv(s) && Enabled(s, Smoke(k))
    ensures Inv(Next(s, Smoke(k)))
  {
    if !Serves(s) {
      SmokeKeepsShutdown(s, k);
    } else if s.jammed {
      SmokeKeepsJam(s, k);
    } else {
      SmokeKeepsServing(s, k);
    }
  }

  /** The failure takes the only token and leaves exactly the smoker's own letter unprinted. */
  lemma FailPrintJams(s: State, k: nat)
    requires WellFormed(s) && ServingInv(s) && Serves(s) && Enabled(s, FailPrint(k))
    ensures JamInv(Next(s, FailPrint(k)))
  {
    if k != 0 { NothingOwed(s.smokers[0], 0); }
    if k != 1 { NothingOwed(s.smokers[1], 1); }
    if k != 2 { NothingOwed(s.smokers[2], 2); }
    assert Owed(s) == [Letter(k)];
  }

  lemma FailPrintKeepsShutdown(s: State, k: nat)
    requires WellFormed(s) && ShutdownInv(s) && !Serves(s) && Enabled(s, FailPrint(k))
    ensures ShutdownInv(Next(s, FailPrint(k)))
  {
    assert ShutdownOf(s.main, s.smokers[k], k);
  }

  lemma FailPrintKeepsInv(s: State, k: nat)
    requires Inv(s) && Enabled(s, FailPrint(k))
    ensures Inv(Next(s, FailPrint(k)))
  {
    assert JamInv(s) ==> JammedWith(s.smokers[k]);
    if Serves(s) {
      FailPrintJams(s, k);
    } else {
      FailPrintKeepsShutdown(s, k);
    }
  }

  lemma SignalKeepsShutdown(main: MainPc, m: Smoker, k: nat)
    requires ShutdownOf(main, m, k) && m.pending && m.pc != Exited && !SignalBlocked(m.pc)
    ensures ShutdownOf(main, SmokerSignalled(m), k) && Tokens(SmokerSignalled(m)) == Tokens(m)
  {
  }

  lemma DeliverKeepsInv(s: State, k: nat)
    requires Inv(s) && Enabled(s, Deliver(k))
    ensures Inv(Next(s, Deliver(k)))
  {
    assert JamInv(s) ==> JammedWith(s.smokers[k]);
    assert ShutdownOf(s.main, s.smokers[k], k);
    SignalKeepsShutdown(s.main, s.smokers[k], k);
  }

  lemma StepKeepsInv(s: State, a: Action)
    requires Inv(s) && Enabled(s, a)
    ensures Inv(Next(s, a))
  {
    match a
    case Main => MainKeepsInv(s);
    case Smoke(k) => SmokeKeepsInv(s, k);
    case FailPrint(k) => FailPrintKeepsInv(s, k);
    case Deliver(k) => DeliverKeepsInv(s, k);
  }

  lemma {:induction false} RunKeepsInv(s: State, acts: seq<Action>)
    requires Inv(s) && Valid(s, acts)
    ensures Inv(Exec(s, acts))
    decreases |acts|
  {
    if acts == [] {
    } else {
      StepKeepsInv(s, acts[0]);
      RunKeepsInv(Next(s, acts[0]), acts[1..]);
    }
  }

  // ---------- what is printed while orders are served ----------

  lemma StepConsumesInOrder(s: State, a: Action)
    requires WellFormed(s) && Enabled(s, a)
    ensures Next(s, a).consumed + Next(s, a).input == s.consumed + s.input
  {
    if a == Main && s.main == Reading && s.input != "" {
      assert s.consumed + s.input == (s.consumed + [s.input[0]]) + s.input[1..];
    }
  }

  lemma {:induction false} InputIsConsumedInOrder(s: State, acts: seq<Action>)
    requires WellFormed(s) && Valid(s, acts)
    ensures Exec(s, acts).consumed + Exec(s, acts).input == s.consumed + s.input
    decreases |acts|
  {
    if acts == [] {
    } else {
      StepConsumesInOrder(s, acts[0]);
      InputIsConsumedInOrder(Next(s, acts[0]), acts[1..]);
    }
  }

  lemma Reachable(input: string, acts: seq<Action>) returns (s: State)
    requires Valid(Init(input), acts)
    ensures s == Exec(Init(input), acts) && Inv(s) && s.consumed + s.input == input
  {
    InitInv(input);
    RunKeepsInv(Init(input), acts);
    InputIsConsumedInOrder(Init(input), acts);
    s := Exec(Init(input), acts);
  }

  lemma ServingOutputInStep(s: State)
    requires WellFormed(s) && ServingInv(s)
    ensures OutputInStep(s)
  {
    var k := if Tokens(s.smokers[0]) > 0 then 0 else if Tokens(s.smokers[1]) > 0 then 1 else 2;
    if k != 0 { NothingOwed(s.smokers[0], 0); }
    if k != 1 { NothingOwed(s.smokers[1], 1); }
    if k != 2 { NothingOwed(s.smokers[2], 2); }
  }

  /** In every reachable state before end of input the output is the image of the input consumed
      so far without at most its last letter; when the bartender is about to read, nothing is
      missing, so at end of input the output is exactly the image of the whole input. */
  lemma OutputFollowsOrders(input: string, acts: seq<Action>)
    requires Valid(Init(input), acts) && Serves(Exec(Init(input), acts))
    ensures var s := Exec(Init(input), acts);
            && s.consumed + s.input == input
            && OutputInStep(s)
            && (s.main == Reading && s.input == "" ==> s.output == Image(input))
  {
    var s := Reachable(input, acts);
    if !s.jammed {
      ServingOutputInStep(s);
    }
    if s.input == "" {
      assert s.consumed == input;
    }
  }

  /** At most one smoker is smoking, and none while the bartender is reading. */
  ghost predicate SmokingApart(s: State)
    requires WellFormed(s)
  {
    && (forall j: nat, k: nat :: j < k < 3 ==> !(InSection(s.smokers[j].pc) && InSection(s.smokers[k].pc)))
    && (s.main == Reading ==> forall k: nat :: k < 3 ==> !InSection(s.smokers[k].pc))
  }

  lemma TokenKeepsApart(s: State)
    requires WellFormed(s) && (OneToken(s) || JamInv(s))
    ensures SmokingApart(s)
  {
    assert forall k: nat :: k < 3 && InSection(s.smokers[k].pc) ==> Tokens(s.smokers[k]) > 0;
  }

  lemma OneSmokerAtATime(input: string, acts: seq<Action>)
    requires Valid(Init(input), acts) && Serves(Exec(Init(input), acts))
    ensures SmokingApart(Exec(Init(input), acts))
  {
    var s := Reachable(input, acts);
    TokenKeepsApart(s);
  }

  // ---------- every run ends with everybody gone ----------

  function SmokerWork(m: Smoker): nat {
    9 * m.sem + (if m.pending then 1 else 0) +
    match m.pc
    case Got => 10
    case Checked => 9
    case Masked => 8
    case Printed => 7
    case Posted => 5
    case Unmasked => 4
    case Starting => 4
    case AtWait => 3
    case InWait => 2
    case Interrupted => 1
    case Exited => 0
  }

  function MainWork(s: State): nat
    requires WellFormed(s)
  {
    match s.main
    case Reading => 40 + 11 * |s.input|
    case Serving(_) => 50 + 11 * |s.input|
    case AwaitToken => 40 + 11 * |s.input|
    case Killing(k) => 33 + 2 * (3 - k)
    case Waking(k) => 3 + 10 * (3 - k)
    case Reaping(k) => 3 - k
    case Done => 0
  }

  function SmokersWork(smokers: seq<Smoker>): nat
    requires |smokers| == 3
  {
    SmokerWork(smokers[0]) + SmokerWork(smokers[1]) + SmokerWork(smokers[2])
  }

  function Work(s: State): nat
    requires WellFormed(s)
  {
    SmokersWork(s.smokers) + s.bar + MainWork(s)
  }

  lemma SmokerDoesWork(m: Smoker)
    requires m.pc != Exited && (m.pc == InWait ==> m.sem > 0) && (m.pc == Interrupted ==> m.flag)
    ensures SmokerWork(SmokerNext(m)) + (if m.pc == Printed then 1 else 0) < SmokerWork(m)
    ensures SmokerWork(m.(pc := Exited)) < SmokerWork(m)
  {
  }

  lemma SignalDoesWork(m: Smoker)
    requires m.pc != Exited && m.pending
    ensures SmokerWork(SmokerSignalled(m)) < SmokerWork(m)
  {
  }

  lemma ServingMainDoesWork(s: State)
    requires WellFormed(s) && Enabled(s, Main) && Serves(s)
    ensures Work(MainNext(s)) < Work(s)
  {
  }

  lemma WorkOfUpdate(smokers: seq<Smoker>, k: nat, m: Smoker)
    requires |smokers| == 3 && k < 3
    ensures SmokersWork(smokers[k := m]) == SmokersWork(smokers) - SmokerWork(smokers[k]) + SmokerWork(m)
  {
    hide SmokerWork;
  }

  lemma ShutdownMainDoesWork(s: State)
    requires WellFormed(s) && Enabled(s, Main) && !Serves(s)
    ensures Work(MainNext(s)) < Work(s)
  {
    hide SmokersWork;
    match s.main
    case Killing(k) => WorkOfUpdate(s.smokers, k, Kill(s, k)[k]);
    case Waking(k) => WorkOfUpdate(s.smokers, k, Post(s, k)[k]);
    case _ =>
  }

  lemma StepDoesWork(s: State, a: Action)
    requires Inv(s) && Enabled(s, a)
    ensures Work(Next(s, a)) < Work(s)
  {
    if a == Main {
      if Serves(s) {
        ServingMainDoesWork(s);
      } else {
        ShutdownMainDoesWork(s);
      }
    } else {
      var m := s.smokers[a.k];
      assert if Serves(s) then m.pc != Interrupted else ShutdownOf(s.main, m, a.k);
      hide SmokerWork, SmokersWork;
      if a.Deliver? {
        SignalDoesWork(m);
        WorkOfUpdate(s.smokers, a.k, SmokerSignalled(m));
      } else {
        SmokerDoesWork(m);
        WorkOfUpdate(s.smokers, a.k, if a.Smoke? then SmokerNext(m) else m.(pc := Exited));
      }
    }
  }

  lemma {:induction false} RunDoesWork(s: State, acts: seq<Action>)
    requires Inv(s) && Valid(s, acts)
    ensures |acts| + Work(Exec(s, acts)) <= Work(s)
    decreases |acts|
  {
    if acts == [] {
    } else {
      StepKeepsInv(s, acts[0]);
      StepDoesWork(s, acts[0]);
      RunDoesWork(Next(s, acts[0]), acts[1..]);
    }
  }

  ghost predicate Stopped(s: State)
    requires WellFormed(s)
  {
    forall a :: !Enabled(s, a)
  }

  ghost predicate Finished(s: State)
    requires WellFormed(s)
  {
    s.main == Done && forall k: nat :: k < 3 ==> s.smokers[k].pc == Exited
  }

  /** While orders are served, whoever has the token can move. */
  lemma ServingNeverStops(s: State)
    requires Inv(s) && Serves(s) && !s.jammed
    ensures !Stopped(s)
  {
    if s.main != AwaitToken || s.bar > 0 {
      assert Enabled(s, Main);
    } else {
      var k := if Tokens(s.smokers[0]) > 0 then 0 else if Tokens(s.smokers[1]) > 0 then 1 else 2;
      assert Enabled(s, Smoke(k));
    }
  }

  /** During the shutdown main moves on until it waits for a smoker, and then that smoker can move. */
  lemma ShutdownNeverStops(s: State)
    requires Inv(s) && !Serves(s) && s.main != Done
    ensures !Stopped(s)
  {
    if s.main.Reaping? && s.smokers[s.main.k].pc != Exited {
      var k := s.main.k;
      assert ShutdownOf(s.main, s.smokers[k], k);
      assert Enabled(s, Smoke(k));
    } else {
      assert Enabled(s, Main);
    }
  }

  lemma DoneIsFinished(s: State)
    requires Inv(s) && s.main == Done
    ensures Finished(s)
  {
    assert forall k: nat :: k < 3 ==> ShutdownOf(s.main, s.smokers[k], k);
  }

  /** A run that stops has finished, unless a failed print has left the bartender waiting. */
  lemma StopsFinishedOrJammed(s: State)
    requires Inv(s) && Stopped(s)
    ensures if s.jammed then s.main == AwaitToken
            else Finished(s) && Image(s.consumed) <= s.output && s.input == ""
  {
    if Serves(s) && !s.jammed {
      ServingNeverStops(s);
    } else if !Serves(s) {
      if s.main != Done { ShutdownNeverStops(s); }
      DoneIsFinished(s);
    }
  }

  /** For every input and under every interleaving of the processes, the kills, the posts, the
      signal deliveries and failing prints, a run has at most 52 + 11|input| steps. When it stops,
      every smoker has exited and main has returned exactly if no print failed while orders were
      served; then the output starts with the image of the whole input. Otherwise the bartender
      waits for the token forever. */
  lemma EveryRunShutsDown(input: string, acts: seq<Action>)
    requires Valid(Init(input), acts)
    ensures |acts| <= 52 + 11 * |input|
    ensures var s := Exec(Init(input), acts);
            Stopped(s) ==>
              (Finished(s) <==> !s.jammed) &&
              if s.jammed then s.main == AwaitToken else Image(input) <= s.output
  {
    InitInv(input);
    RunDoesWork(Init(input), acts);
    var s := Reachable(input, acts);
    if Stopped(s) {
      StopsFinishedOrJammed(s);
      if !s.jammed {
        assert s.consumed == input;
      }
    }
  }

  /** No semaphore ever exceeds 3, so no sem_post can fail by overflow. */
  lemma SemaphoresStaySmall(input: string, acts: seq<Action>)
    requires Valid(Init(input), acts)
    ensures var s := Exec(Init(input), acts);
            s.bar <= 3 && forall k: nat :: k < 3 ==> s.smokers[k].sem <= 1
  {
    var s := Reachable(input, acts);
    forall k: nat | k < 3 ensures s.smokers[k].sem <= 1 {
      if !Serves(s) {
        assert ShutdownOf(s.main, s.smokers[k], k);
      } else if s.jammed {
        assert JammedWith(s.smokers[k]);
      }
    }
  }

  // ---------- what is printed during the shutdown ----------

  /** Smokers that will print without looking at the flag again. */
  function Committed(m: Smoker): nat {
    if m.pc == Checked || m.pc == Masked then 1 else 0
  }

  function CommittedAll(s: State): nat
    requires WellFormed(s)
  {
    Committed(s.smokers[0]) + Committed(s.smokers[1]) + Committed(s.smokers[2])
  }

  /** One when the step is a smoker finding its flag clear after taking a token. */
  function IsPass(s: State, a: Action): nat
    requires WellFormed(s) && Enabled(s, a)
  {
    if a.Smoke? && s.smokers[a.k].pc == Got && !s.smokers[a.k].flag then 1 else 0
  }

  function Passes(s: State, acts: seq<Action>): nat
    requires WellFormed(s) && Valid(s, acts)
    decreases |acts|
  {
    if acts == [] then 0
    else IsPass(s, acts[0]) + Passes(Next(s, acts[0]), acts[1..])
  }

  function FailedPrints(acts: seq<Action>): nat {
    if acts == [] then 0 else (if acts[0].FailPrint? then 1 else 0) + FailedPrints(acts[1..])
  }

  lemma CommittedOfUpdate(s: State, k: nat, m: Smoker)
    requires WellFormed(s) && k < 3
    ensures CommittedAll(s.(smokers := s.smokers[k := m])) ==
            CommittedAll(s) - Committed(s.smokers[k]) + Committed(m)
  {
  }

  lemma MainPrintsNothing(s: State)
    requires WellFormed(s) && Enabled(s, Main)
    ensures MainNext(s).output == s.output && CommittedAll(MainNext(s)) == CommittedAll(s)
  {
  }

  lemma StepPrints(s: State, a: Action)
    requires WellFormed(s) && Enabled(s, a)
    ensures s.output <= Next(s, a).output
    ensures |Next(s, a).output| + CommittedAll(Next(s, a)) + (if a.FailPrint? then 1 else 0) ==
            |s.output| + CommittedAll(s) + IsPass(s, a)
  {
    if a == Main {
      MainPrintsNothing(s);
    } else {
      CommittedOfUpdate(s, a.k, Next(s, a).smokers[a.k]);
    }
  }

  lemma {:induction false} PassesPrint(s: State, acts: seq<Action>)
    requires WellFormed(s) && Valid(s, acts)
    ensures s.output <= Exec(s, acts).output
    ensures |Exec(s, acts).output| + CommittedAll(Exec(s, acts)) + FailedPrints(acts) ==
            |s.output| + CommittedAll(s) + Passes(s, acts)
    decreases |acts|
  {
    if acts == [] {
    } else {
      StepPrints(s, acts[0]);
      PassesPrint(Next(s, acts[0]), acts[1..]);
    }
  }

  /** Letters that smoker k may still print during the shutdown. */
  function Spare(main: MainPc, m: Smoker, k: nat): nat {
    if !Woken(main, k) || m.sem > 0 || m.pc == Got || m.pc == Checked || m.pc == Masked then 1 else 0
  }

  lemma SpareOfSmoker(main: MainPc, m: Smoker, k: nat)
    requires ShutdownOf(main, m, k)
    ensures Spare(main, SmokerNext(m), k) + (if m.pc == Masked then 1 else 0) <= Spare(main, m, k)
  {
  }

  lemma PrintCounts(output: string, ch: char, k: nat)
    ensures multiset(output + [ch])[Letter(k)] == multiset(output)[Letter(k)] + if ch == Letter(k) then 1 else 0
  {
  }

  lemma SpareSmoke(s: State, j: nat, k: nat)
    requires Inv(s) && !Serves(s) && Enabled(s, Smoke(j)) && k < 3
    ensures var r := Next(s, Smoke(j));
            multiset(r.output)[Letter(k)] + Spare(r.main, r.smokers[k], k)
            <= multiset(s.output)[Letter(k)] + Spare(s.main, s.smokers[k], k)
  {
    assert ShutdownOf(s.main, s.smokers[k], k);
    SpareOfSmoker(s.main, s.smokers[k], k);
    PrintCounts(s.output, Letter(j), k);
  }

  lemma SpareMain(s: State, k: nat)
    requires Inv(s) && !Serves(s) && Enabled(s, Main) && k < 3
    ensures Spare(MainNext(s).main, MainNext(s).smokers[k], k) <= Spare(s.main, s.smokers[k], k)
  {
    assert ShutdownOf(s.main, s.smokers[k], k);
  }

  lemma SpareStep(s: State, a: Action, k: nat)
    requires Inv(s) && !Serves(s) && Enabled(s, a) && k < 3
    ensures !Serves(Next(s, a))
    ensures multiset(Next(s, a).output)[Letter(k)] + Spare(Next(s, a).main, Next(s, a).smokers[k], k)
            <= multiset(s.output)[Letter(k)] + Spare(s.main, s.smokers[k], k)
  {
    match a
    case Main => SpareMain(s, k);
    case Smoke(j) => SpareSmoke(s, j, k);
    case FailPrint(_) =>
    case Deliver(_) =>
  }

  /** After end of input each smoker prints at most one letter more. */
  lemma {:induction false} AtMostOneLetterEach(s: State, acts: seq<Action>, k: nat)
    requires Inv(s) && !Serves(s) && Valid(s, acts) && k < 3
    ensures !Serves(Exec(s, acts))
    ensures multiset(Exec(s, acts).output)[Letter(k)] + Spare(Exec(s, acts).main, Exec(s, acts).smokers[k], k)
            <= multiset(s.output)[Letter(k)] + Spare(s.main, s.smokers[k], k)
    decreases |acts|
  {
    if acts == [] {
    } else {
      var r := Next(s, acts[0]);
      StepKeepsInv(s, acts[0]);
      SpareStep(s, acts[0], k);
      AtMostOneLetterEach(r, acts[1..], k);
    }
  }

  /** From the moment the bartender sees end of input, a complete shutdown adds one letter for every
      time a smoker finds its flag clear after taking its last post and does not fail to print, and
      at most one for each smoker. */
  lemma ShutdownAdds(s: State, acts: seq<Action>)
    requires Inv(s) && s.main == Killing(0) && Valid(s, acts) && Stopped(Exec(s, acts))
    ensures var e := Exec(s, acts);
            && s.output <= e.output && |e.output| + FailedPrints(acts) == |s.output| + Passes(s, acts)
            && forall k: nat :: k < 3 ==>
                 multiset(e.output)[Letter(k)] <= multiset(s.output)[Letter(k)] + 1
  {
    var e := Exec(s, acts);
    RunKeepsInv(s, acts);
    StopsFinishedOrJammed(e);
    PassesPrint(s, acts);
    assert forall k: nat :: k < 3 ==> ShutdownOf(s.main, s.smokers[k], k);
    forall k: nat | k < 3 ensures multiset(e.output)[Letter(k)] <= multiset(s.output)[Letter(k)] + 1 {
      AtMostOneLetterEach(s, acts, k);
    }
  }

  lemma {:induction false} Extend(s: State, acts: seq<Action>, a: Action)
    requires WellFormed(s) && Valid(s, acts) && Enabled(Exec(s, acts), a)
    ensures Valid(s, acts + [a]) && Exec(s, acts + [a]) == Next(Exec(s, acts), a)
    decreases |acts|
  {
    hide Next, Enabled;
    if acts == [] {
      assert acts + [a] == [a] && [a][1..] == [];
    } else {
      assert (acts + [a])[0] == acts[0] && (acts + [a])[1..] == acts[1..] + [a];
      Extend(Next(s, acts[0]), acts[1..], a);
    }
  }

  /** Any run can be carried on until nothing can move. */
  lemma {:induction false} CarryOn(s: State, acts: seq<Action>) returns (all: seq<Action>)
    requires Inv(s) && Valid(s, acts)
    ensures Valid(s, all) && Stopped(Exec(s, all)) && Exec(s, acts).output <= Exec(s, all).output
    ensures Exec(s, acts).jammed ==> Exec(s, all).jammed
    decreases Work(Exec(s, acts))
  {
    var e := Exec(s, acts);
    RunKeepsInv(s, acts);
    if a :| Enabled(e, a) {
      StepKeepsInv(e, a);
      StepDoesWork(e, a);
      StepPrints(e, a);
      Extend(s, acts, a);
      all := CarryOn(s, acts + [a]);
    } else {
      all := acts;
    }
  }

  // ---------- the section in which SIGTERM is blocked ----------

  /** Between the two sigprocmask calls no handler runs: the flag stays as it is and a pending signal
      stays pending, whatever anybody does, until the smoker unblocks the signal, and then a pending
      one is delivered at once. Only a failing print leaves the section before that. */
  lemma SignalWaitsForUnblocking(s: State, a: Action, k: nat)
    requires WellFormed(s) && Enabled(s, a) && k < 3
    requires s.smokers[k].pc in {Masked, Printed, Posted}
    ensures var m, r := s.smokers[k], Next(s, a).smokers[k];
            if m.pc == Posted && a == Smoke(k) then
              r.pc == Unmasked && !r.pending && r.flag == (m.flag || m.pending)
            else
              && (r.pc in {Masked, Printed, Posted} || (m.pc == Masked && a == FailPrint(k)))
              && r.flag == m.flag && (m.pending ==> r.pending)
  {
  }

  /** A smoker that sits in sem_wait, or has no handler yet, needs no post to go away: once its signal
      is pending it can exit on its own, and prints nothing. */
  lemma SignalAloneStopsAWaiter(s: State, k: nat) returns (acts: seq<Action>)
    requires WellFormed(s) && k < 3 && s.smokers[k].pending && s.smokers[k].pc in {Starting, InWait}
    ensures Valid(s, acts) && Exec(s, acts).smokers[k].pc == Exited && Exec(s, acts).output == s.output
    ensures Exec(s, acts).smokers[k].sem == s.smokers[k].sem
  {
    Extend(s, [], Deliver(k));
    acts := [] + [Deliver(k)];
    if s.smokers[k].pc == InWait {
      Extend(s, acts, Smoke(k));
      acts := acts + [Smoke(k)];
    }
  }

  // ---------- when the shutdown prints nothing ----------

  /** A smoker that will not print on its last post: its flag is set, it has exited, or its SIGTERM
      is pending in the section where the signal is blocked and will be delivered at its end. */
  predicate Silenced(m: Smoker) {
    m.flag || m.pc == Exited || (m.pending && m.pc == Posted)
  }

  /** Silenced, and not already past the flag test. */
  predicate Silent(m: Smoker) {
    Silenced(m) && m.pc != Checked && m.pc != Masked
  }

  ghost predicate AllSilent(s: State)
    requires WellFormed(s)
  {
    forall k: nat :: k < 3 ==> Silent(s.smokers[k])
  }

  lemma SilentSmokerStays(m: Smoker)
    requires Silent(m)
    ensures Silent(SmokerNext(m)) && (m.pending && !SignalBlocked(m.pc) ==> Silent(SmokerSignalled(m)))
  {
  }

  lemma SilenceStep(s: State, a: Action)
    requires WellFormed(s) && AllSilent(s) && Enabled(s, a) && !Serves(s) && !s.main.Killing?
    ensures var r := Next(s, a);
            AllSilent(r) && r.output == s.output && !Serves(r) && !r.main.Killing?
  {
    if a != Main {
      assert Silent(s.smokers[a.k]);
      SilentSmokerStays(s.smokers[a.k]);
    }
  }

  lemma {:induction false} SilencePrintsNothing(s: State, acts: seq<Action>)
    requires WellFormed(s) && AllSilent(s) && !Serves(s) && !s.main.Killing? && Valid(s, acts)
    ensures Exec(s, acts).output == s.output
    decreases |acts|
  {
    if acts == [] {
    } else {
      SilenceStep(s, acts[0]);
      SilencePrintsNothing(Next(s, acts[0]), acts[1..]);
    }
  }

  /** How far a smoker is from printing when it runs alone with a post to take. */
  function StepsToPrint(pc: SmokerPc): nat {
    match pc
    case Starting => 6
    case Unmasked => 6
    case AtWait => 5
    case InWait => 5
    case Got => 4
    case Checked => 3
    case Masked => 2
    case _ => 0
  }

  predicate CanPrint(m: Smoker) {
    && StepsToPrint(m.pc) > 0
    && (StepsToPrint(m.pc) >= 4 ==> !m.flag)
    && (StepsToPrint(m.pc) >= 5 ==> m.sem > 0)
  }

  lemma {:induction false} PrintAlone(s: State, acts: seq<Action>, k: nat) returns (all: seq<Action>)
    requires WellFormed(s) && Valid(s, acts) && k < 3 && CanPrint(Exec(s, acts).smokers[k])
    ensures Valid(s, all) && |Exec(s, all).output| > |Exec(s, acts).output|
    decreases StepsToPrint(Exec(s, acts).smokers[k].pc)
  {
    Extend(s, acts, Smoke(k));
    all := acts + [Smoke(k)];
    if Exec(s, acts).smokers[k].pc == Masked {
    } else {
      all := PrintAlone(s, all, k);
    }
  }

  /** The bartender's last posts, up to the one for smoker k. */
  lemma {:induction false} WakeUpTo(s: State, acts: seq<Action>, k: nat) returns (all: seq<Action>)
    requires WellFormed(s) && Valid(s, acts) && Exec(s, acts).main.Waking? && Exec(s, acts).main.k <= k < 3
    ensures Valid(s, all) && Exec(s, all).output == Exec(s, acts).output
    ensures Exec(s, all).smokers[k] ==
            Exec(s, acts).smokers[k].(sem := Exec(s, acts).smokers[k].sem + 1)
    decreases k - Exec(s, acts).main.k
  {
    Extend(s, acts, Main);
    all := acts + [Main];
    if Exec(s, acts).main.k == k {
    } else {
      all := WakeUpTo(s, all, k);
    }
  }

  /** A smoker that is not silenced before its last post can print on it. */
  lemma UnsilencedCanPrint(s: State, k: nat) returns (after: seq<Action>)
    requires Inv(s) && s.main == Waking(0) && k < 3 && !Silenced(s.smokers[k])
    ensures Valid(s, after) && Stopped(Exec(s, after)) && |Exec(s, after).output| > |s.output|
  {
    assert ShutdownOf(s.main, s.smokers[k], k);
    var acts := WakeUpTo(s, [], k);
    acts := PrintAlone(s, acts, k);
    after := CarryOn(s, acts);
  }

  /** In every reachable state in which all kills have been sent and no last post has been given:
      every way to finish leaves exactly the image of the input as output, exactly when every
      smoker's flag is set, or it has exited, or its signal is pending while it is blocked. */
  lemma FinalOutputExactly(input: string, before: seq<Action>, s: State)
    requires Valid(Init(input), before) && s == Exec(Init(input), before) && s.main == Waking(0)
    ensures (forall after :: Valid(s, after) && Stopped(Exec(s, after)) ==> Exec(s, after).output == Image(input)) <==>
            (forall k: nat :: k < 3 ==> Silenced(s.smokers[k]))
  {
    var r := Reachable(input, before);
    assert s.consumed == input && s.output == Image(input);
    if k: nat :| k < 3 && !Silenced(s.smokers[k]) {
      var after := UnsilencedCanPrint(s, k);
    } else {
      assert forall k: nat :: k < 3 ==> ShutdownOf(s.main, s.smokers[k], k);
      forall after | Valid(s, after) && Stopped(Exec(s, after)) ensures Exec(s, after).output == Image(input) {
        SilencePrintsNothing(s, after);
      }
    }
  }

  /** With no input: the first smoker waits, everybody has been killed, and the first smoker has
      its last post with its SIGTERM still pending. */
  lemma PostBeforeSignal() returns (acts: seq<Action>)
    ensures Valid(Init(""), acts)
    ensures var t := Smoker(Starting, 0, true, false);
            Exec(Init(""), acts) == State([Smoker(AtWait, 1, true, false), t, t], 0, Waking(1), "", "", "", false)
  {
    var s := Init("");
    acts := [Smoke(0)];
    Extend(s, [], Smoke(0));
    assert [] + [Smoke(0)] == acts;
    Extend(s, acts, Main);
    Extend(s, acts + [Main], Main);
    acts := acts + [Main] + [Main];
    Extend(s, acts, Main);
    Extend(s, acts + [Main], Main);
    acts := acts + [Main] + [Main];
    Extend(s, acts, Main);
    acts := acts + [Main];
  }

  /** The extra letter is real: with no input at all, a smoker that takes its last post while its
      SIGTERM is still pending prints a letter nobody ordered. */
  lemma ShutdownCanPrint() returns (acts: seq<Action>)
    ensures Valid(Init(""), acts) && Stopped(Exec(Init(""), acts)) && Exec(Init(""), acts).output != Image("")
  {
    var s := Init("");
    acts := PostBeforeSignal();
    Extend(s, acts, Smoke(0));
    Extend(s, acts + [Smoke(0)], Smoke(0));
    acts := acts + [Smoke(0)] + [Smoke(0)];
    Extend(s, acts, Smoke(0));
    Extend(s, acts + [Smoke(0)], Smoke(0));
    acts := acts + [Smoke(0)] + [Smoke(0)];
    assert Exec(s, acts).output == "T";
    InitInv("");
    acts := CarryOn(s, acts);
  }

  /** With one order and a smoker that fails to print it, the bar never closes. */
  lemma FailedPrintJamsTheBar() returns (acts: seq<Action>)
    ensures Valid(Init("t"), acts) && Stopped(Exec(Init("t"), acts)) && !Finished(Exec(Init("t"), acts))
  {
    var s := Init("t");
    acts := [Smoke(0)];
    Extend(s, [], Smoke(0));
    assert [] + [Smoke(0)] == acts;
    Extend(s, acts, Main);
    Extend(s, acts + [Main], Main);
    acts := acts + [Main] + [Main];
    Extend(s, acts, Smoke(0));
    Extend(s, acts + [Smoke(0)], Smoke(0));
    acts := acts + [Smoke(0)] + [Smoke(0)];
    Extend(s, acts, Smoke(0));
    Extend(s, acts + [Smoke(0)], FailPrint(0));
    acts := acts + [Smoke(0)] + [FailPrint(0)];
    InitInv("t");
    acts := CarryOn(s, acts);
    EveryRunShutsDown("t", acts);
  }

  // ---------- the processes ----------

  /** The semaphores, process states and standard streams, updated in place. Each method is one
      atomic step of the text it is named after. */
  class Bar {
    var smokers: seq<Smoker>
    var bartenderSem: nat
    var main: MainPc
    var stdin: string
    var stdout: string
    ghost var consumed: string
    ghost var jammed: bool

    ghost function Snapshot(): State
      reads this
    {
      State(smokers, bartenderSem, main, stdin, stdout, consumed, jammed)
    }

    constructor (input: string)
      ensures Snapshot() == Init(input)
      ensures smokers == [Smoker(Starting, 0, false, false), Smoker(Starting, 0, false, false),
                          Smoker(Starting, 0, false, false)]
      ensures bartenderSem == 0 && main == Reading && stdin == input && stdout == ""
    {
      smokers := seq(3, _ => Smoker(Starting, 0, false, false));
      bartenderSem, main := 0, Reading;
      stdin, stdout, consumed, jammed := input, "", "", false;
    }

    /** The body of smoker. Only a wait on a semaphore that is 0 holds it up. */
    method RunSmoker(k: nat)
      requires WellFormed(Snapshot()) && k < 3 && smokers[k].pc != Exited
      requires smokers[k].pc == InWait ==> smokers[k].sem > 0
      modifies this
      ensures Enabled(old(Snapshot()), Smoke(k)) && Snapshot() == Next(old(Snapshot()), Smoke(k))
      ensures old(smokers[k].pc) in {AtWait, InWait} && old(smokers[k].sem) > 0 ==>
        smokers[k].pc == Got && smokers[k].sem == old(smokers[k].sem) - 1
      ensures stdout == old(stdout) +
        if old(smokers[k].pc) == Masked then [if k == 0 then 'T' else if k == 1 then 'P' else 'M'] else ""
    {
      var m := smokers[k];
      match m.pc {
        case Starting =>
          m := m.(pc := AtWait);
        case AtWait =>
          if m.sem > 0 {
            m := m.(sem := m.sem - 1, pc := Got);
          } else {
            m := m.(pc := InWait);
          }
        case InWait =>
          m := m.(sem := m.sem - 1, pc := Got);
        case Interrupted =>
          m := m.(pc := if m.flag then Exited else AtWait);
        case Got =>
          m := m.(pc := if m.flag then Exited else Checked);
        case Checked =>
          m := m.(pc := Masked);
        case Masked =>
          stdout := stdout + [Letter(k)];
          m := m.(pc := Printed);
        case Printed =>
          bartenderSem := bartenderSem + 1;
          m := m.(pc := Posted);
        case Posted =>
          if m.pending {
            m := m.(flag := true, pending := false);
          }
          m := m.(pc := Unmasked);
        case Unmasked =>
          m := m.(pc := if m.flag then Exited else AtWait);
      }
      smokers := smokers[k := m];
    }

    /** The branch of smoker in which putchar fails: it exits without posting the bartender. */
    method FailPutchar(k: nat)
      requires WellFormed(Snapshot()) && k < 3 && smokers[k].pc == Masked
      modifies this
      ensures Enabled(old(Snapshot()), FailPrint(k)) && Snapshot() == Next(old(Snapshot()), FailPrint(k))
      ensures smokers[k].pc == Exited && bartenderSem == old(bartenderSem) && stdout == old(stdout)
    {
      jammed := jammed || main.Reading? || main.Serving? || main.AwaitToken?;
      smokers := smokers[k := smokers[k].(pc := Exited)];
    }

    /** The delivery of SIGTERM to smoker k, at any point outside the section that blocks it. A smoker
        without a handler dies of it; otherwise the flag is set, and a blocked wait returns. */
    method HandleSigterm(k: nat)
      requires WellFormed(Snapshot()) && k < 3 && smokers[k].pending
      requires smokers[k].pc !in {Masked, Printed, Posted, Exited}
      modifies this
      ensures Enabled(old(Snapshot()), Deliver(k)) && Snapshot() == Next(old(Snapshot()), Deliver(k))
      ensures !smokers[k].pending && smokers[k].sem == old(smokers[k].sem)
      ensures if old(smokers[k].pc) == Starting then smokers[k].pc == Exited
              else smokers[k].flag &&
                   smokers[k].pc == if old(smokers[k].pc) == InWait then Interrupted else old(smokers[k].pc)
    {
      var m := smokers[k].(pending := false);
      if m.pc == Starting {
        m := m.(pc := Exited);
      } else {
        m := m.(flag := true);
        if m.pc == InWait {
          m := m.(pc := Interrupted);
        }
      }
      smokers := smokers[k := m];
    }

    /** The body of main: the bartender's loop and the shutdown. Only the wait for the token and the
        waits for the children hold it up. */
    method RunMain()
      requires WellFormed(Snapshot()) && main != Done
      requires main == AwaitToken ==> bartenderSem > 0
      requires main.Reaping? ==> smokers[main.k].pc == Exited
      modifies this
      ensures Enabled(old(Snapshot()), Main) && Snapshot() == Next(old(Snapshot()), Main)
      ensures old(main) == Reading && old(stdin) != "" ==>
        main == match old(stdin)[0]
                case 't' => Serving(0)
                case 'p' => Serving(1)
                case 'm' => Serving(2)
                case _ => Reading
    {
      match main {
        case Reading =>
          if |stdin| == 0 {
            main := Killing(0);
          } else {
            var ch := stdin[0];
            stdin, consumed := stdin[1..], consumed + [ch];
            if ch == 't' {
              main := Serving(0);
            } else if ch == 'p' {
              main := Serving(1);
            } else if ch == 'm' {
              main := Serving(2);
            }
          }
        case Serving(k) =>
          smokers := smokers[k := smokers[k].(sem := smokers[k].sem + 1)];
          main := AwaitToken;
        case AwaitToken =>
          bartenderSem := bartenderSem - 1;
          main := Reading;
        case Killing(k) =>
          smokers := smokers[k := smokers[k].(pending := smokers[k].pc != Exited)];
          main := if k < 2 then Killing(k + 1) else Waking(0);
        case Waking(k) =>
          smokers := smokers[k := smokers[k].(sem := smokers[k].sem + 1)];
          main := if k < 2 then Waking(k + 1) else Reaping(0);
        case Reaping(k) =>
          main := if k < 2 then Reaping(k + 1) else Done;
      }
    }
  }
}
