/** Concurrent clients of the bank. Every call runs as single steps: lock the mutex, read or write
    one account, unlock. */
module BankConcurrency {
  import opened Bank
  import opened Options
  import opened Sums

  /** How far a call inside the mutex has come. Check walks the first pass of a bulk call, Load and
      Store its second pass; the other pairs are the reads and writes of a call on one or two
      accounts; Leave is before the unlock. */
  datatype Phase =
    | Start
    | ReadSecond(first: Account)
    | LoadFirst | StoreFirst(loaded: Account) | LoadSecond | StoreSecond(loaded: Account)
    | Check(i: nat) | Load(i: nat) | Store(i: nat, loaded: Account)
    | Write(seen: Account)
    | Leave(reply: Reply)

  datatype Config = Config(accounts: seq<Account>, phase: Phase)

  predicate PhaseFits(op: Op, accounts: seq<Account>, ph: Phase) {
    match ph
    case Start => true
    case Leave(_) => true
    case Check(i) => (op.DepositAll? || op.WithdrawAll?) && i <= |accounts|
    case Load(i) => (op.DepositAll? || op.WithdrawAll?) && i <= |accounts|
    case Store(i, _) => (op.DepositAll? || op.WithdrawAll?) && i < |accounts|
    case Write(_) =>
      (op.Freeze? || op.Unfreeze? || op.SetMinBalance? || op.SetMaxBalance?) && Exists(accounts, op.a)
    case _ => op.Transfer? && Exists(accounts, op.a) && Exists(accounts, op.b)
  }

  /** The amount a bulk call adds to each account. */
  function BulkAmount(op: Op): int
    requires op.DepositAll? || op.WithdrawAll?
  {
    if op.DepositAll? then op.x else -op.x
  }

  predicate BulkRefuses(op: Op, acc: Account)
    requires op.DepositAll? || op.WithdrawAll?
  {
    acc.frozen ||
    if op.DepositAll? then acc.balance + op.x > acc.maxBalance else acc.balance - op.x < acc.minBalance
  }

  /** The first step after locking: check the arguments and read the first account. */
  function Begin(op: Op, accounts: seq<Account>): Phase {
    match op
    case DepositAll(_) => Check(0)
    case WithdrawAll(_) => Check(0)
    case Transfer(a, b, x) =>
      if !Exists(accounts, a) || !Exists(accounts, b) || x <= 0 then Leave(Oops)
      else ReadSecond(accounts[a])
    case _ =>
      if !Exists(accounts, op.a) then Leave(Oops)
      else
        var acc := accounts[op.a];
        match op
        case GetBalance(_) => Leave(Number(acc.balance))
        case GetMinBalance(_) => Leave(Number(acc.minBalance))
        case GetMaxBalance(_) => Leave(Number(acc.maxBalance))
        case SetMinBalance(_, x) =>
          if x > acc.maxBalance || acc.balance < x then Leave(Oops) else Write(acc)
        case SetMaxBalance(_, x) =>
          if x < acc.minBalance || acc.balance > x then Leave(Oops) else Write(acc)
        case _ => Write(acc)
  }

  function Written(op: Op, acc: Account): Account
    requires op.Freeze? || op.Unfreeze? || op.SetMinBalance? || op.SetMaxBalance?
  {
    match op
    case Freeze(_) => acc.(frozen := true)
    case Unfreeze(_) => acc.(frozen := false)
    case SetMinBalance(_, x) => acc.(minBalance := x)
    case SetMaxBalance(_, x) => acc.(maxBalance := x)
  }

  /** One step inside the mutex: it reads or writes at most one account. */
  function MicroStep(op: Op, accounts: seq<Account>, ph: Phase): (r: Config)
    requires PhaseFits(op, accounts, ph) && !ph.Leave?
    ensures |r.accounts| == |accounts| && PhaseFits(op, r.accounts, r.phase)
  {
    match ph
    case Start => Config(accounts, Begin(op, accounts))
    case ReadSecond(first) =>
      var second := accounts[op.b];
      if first.frozen || second.frozen || first.balance - op.x < first.minBalance ||
         second.balance + op.x > second.maxBalance
      then Config(accounts, Leave(Oops))
      else Config(accounts, LoadFirst)
    case LoadFirst => Config(accounts, StoreFirst(accounts[op.a]))
    case StoreFirst(acc) => Config(accounts[op.a := AddTo(acc, -op.x)], LoadSecond)
    case LoadSecond => Config(accounts, StoreSecond(accounts[op.b]))
    case StoreSecond(acc) => Config(accounts[op.b := AddTo(acc, op.x)], Leave(Done))
    case Check(i) =>
      if i == |accounts| then Config(accounts, Load(0))
      else if BulkRefuses(op, accounts[i]) then Config(accounts, Leave(Oops))
      else Config(accounts, Check(i + 1))
    case Load(i) =>
      if i == |accounts| then Config(accounts, Leave(Done))
      else Config(accounts, Store(i, accounts[i]))
    case Store(i, acc) => Config(accounts[i := AddTo(acc, BulkAmount(op))], Load(i + 1))
    case Write(acc) => Config(accounts[op.a := Written(op, acc)], Leave(Done))
  }

  /** A step inside the mutex writes one account at most. */
  lemma OneAccountPerStep(op: Op, accounts: seq<Account>, ph: Phase)
    requires PhaseFits(op, accounts, ph) && !ph.Leave?
    ensures var after := MicroStep(op, accounts, ph).accounts;
            forall i, j :: 0 <= i < j < |accounts| ==> after[i] == accounts[i] || after[j] == accounts[j]
  {
  }

  function StepsLeft(op: Op, n: nat, ph: Phase): int {
    match ph
    case Start => 3 * n + 10
    case Check(i) => 3 * n + 5 - i
    case Load(i) => 2 * (n - i) + 2
    case Store(i, _) => 2 * (n - i) + 1
    case ReadSecond(_) => 5
    case LoadFirst => 4
    case StoreFirst(_) => 3
    case LoadSecond => 2
    case StoreSecond(_) => 1
    case Write(_) => 1
    case Leave(_) => 0
  }

  lemma MicroStepCounts(op: Op, accounts: seq<Account>, ph: Phase)
    requires PhaseFits(op, accounts, ph) && !ph.Leave?
    ensures 0 <= StepsLeft(op, |accounts|, MicroStep(op, accounts, ph).phase) < StepsLeft(op, |accounts|, ph)
  {
  }

  /** The outcome of the rest of a call when nobody interferes. */
  function Finish(op: Op, accounts: seq<Account>, ph: Phase): (r: Result)
    requires PhaseFits(op, accounts, ph)
    decreases StepsLeft(op, |accounts|, ph)
  {
    if ph.Leave? then Result(accounts, ph.reply)
    else
      MicroStepCounts(op, accounts, ph);
      var c := MicroStep(op, accounts, ph);
      Finish(op, c.accounts, c.phase)
  }

  // ---------- one call alone does what Apply says ----------

  lemma UpdateOneMore(accounts: seq<Account>, i: nat, x: int)
    requires i < |accounts|
    ensures var after := accounts[i := AddTo(accounts[i], x)];
            after[..i + 1] + AddToAll(after[i + 1..], x) == accounts[..i] + AddToAll(accounts[i..], x)
  {
  }

  lemma {:induction false} SecondPass(op: Op, accounts: seq<Account>, i: nat)
    requires (op.DepositAll? || op.WithdrawAll?) && i <= |accounts|
    ensures Finish(op, accounts, Load(i)) ==
            Result(accounts[..i] + AddToAll(accounts[i..], BulkAmount(op)), Done)
    decreases |accounts| - i
  {
    if i < |accounts| {
      var x := BulkAmount(op);
      var after := accounts[i := AddTo(accounts[i], x)];
      assert Finish(op, accounts, Load(i)) == Finish(op, accounts, Store(i, accounts[i]))
          == Finish(op, after, Load(i + 1));
      SecondPass(op, after, i + 1);
      UpdateOneMore(accounts, i, x);
    } else {
      assert accounts[..i] + AddToAll(accounts[i..], BulkAmount(op)) == accounts;
    }
  }

  lemma AcceptsUnlessRefused(op: Op, accounts: seq<Account>)
    requires op.DepositAll? || op.WithdrawAll?
    ensures Accepts(op, accounts) <==> forall i :: 0 <= i < |accounts| ==> !BulkRefuses(op, accounts[i])
  {
    forall i | 0 <= i < |accounts|
      ensures BulkRefuses(op, accounts[i]) <==>
              if op.DepositAll? then !CanReceive(accounts[i], op.x) else !CanTake(accounts[i], op.x)
    {
    }
  }

  lemma {:induction false} FirstPass(op: Op, accounts: seq<Account>, i: nat)
    requires (op.DepositAll? || op.WithdrawAll?) && i <= |accounts|
    requires forall j :: 0 <= j < i ==> !BulkRefuses(op, accounts[j])
    ensures Finish(op, accounts, Check(i)) == Apply(op, accounts)
    decreases |accounts| - i
  {
    if i == |accounts| {
      assert Finish(op, accounts, Check(i)) == Finish(op, accounts, Load(0));
      SecondPass(op, accounts, 0);
      assert accounts[..0] + AddToAll(accounts[0..], BulkAmount(op)) == AddToAll(accounts, BulkAmount(op));
      assert Accepts(op, accounts) by { AcceptsUnlessRefused(op, accounts); }
    } else if BulkRefuses(op, accounts[i]) {
      AcceptsUnlessRefused(op, accounts);
      assert Finish(op, accounts, Check(i)) == Finish(op, accounts, Leave(Oops));
    } else {
      FirstPass(op, accounts, i + 1);
    }
  }

  lemma TransferAlone(op: Op, accounts: seq<Account>)
    requires op.Transfer?
    ensures Finish(op, accounts, Start) == Apply(op, accounts)
  {
    var ph := Begin(op, accounts);
    assert Finish(op, accounts, Start) == Finish(op, accounts, ph);
    if ph.ReadSecond? && Accepts(op, accounts) {
      var taken := accounts[op.a := AddTo(accounts[op.a], -op.x)];
      var given := taken[op.b := AddTo(taken[op.b], op.x)];
      assert Finish(op, accounts, ph) == Finish(op, accounts, LoadFirst)
          == Finish(op, accounts, StoreFirst(accounts[op.a]));
      assert Finish(op, accounts, StoreFirst(accounts[op.a])) == Finish(op, taken, LoadSecond)
          == Finish(op, taken, StoreSecond(taken[op.b]));
      assert Finish(op, taken, StoreSecond(taken[op.b])) == Finish(op, given, Leave(Done));
    } else if ph.ReadSecond? {
      assert MicroStep(op, accounts, ph) == Config(accounts, Leave(Oops));
      assert Finish(op, accounts, ph) == Finish(op, accounts, Leave(Oops));
    }
  }

  /** Both passes of the bulk calls and all reads and writes of the others add up to the
      all-or-nothing effect. */
  lemma CallAlone(op: Op, accounts: seq<Account>)
    ensures Finish(op, accounts, Start) == Apply(op, accounts)
  {
    var ph := Begin(op, accounts);
    assert Finish(op, accounts, Start) == Finish(op, accounts, ph);
    if op.DepositAll? || op.WithdrawAll? {
      FirstPass(op, accounts, 0);
    } else if op.Transfer? {
      TransferAlone(op, accounts);
    } else if ph.Write? {
      var after := accounts[op.a := Written(op, accounts[op.a])];
      assert Finish(op, accounts, ph) == Finish(op, after, Leave(Done));
    }
  }

  // ---------- many clients ----------

  /** A client: outside the bank, waiting for the mutex, inside it, or with its reply. The ticket is
      history: the position of its call in the order in which the mutex was taken. */
  datatype Client =
    | Outside
    | Calling(op: Op)
    | Inside(op: Op, ticket: nat, phase: Phase)
    | Answered(op: Op, ticket: nat, reply: Reply)

  /** initial, log and replies are history: the accounts at the beginning, the calls in lock order,
      and the replies in unlock order. */
  datatype System = System(
    accounts: seq<Account>, mutex: Option<nat>, clients: seq<Client>,
    initial: seq<Account>, log: seq<Op>, replies: seq<Reply>)

  datatype Action = Invoke(c: nat, op: Op) | Lock(c: nat) | Proceed(c: nat) | Unlock(c: nat) | Return(c: nat)

  function Boot(accounts: seq<Account>, clients: nat): System {
    System(accounts, None, seq(clients, _ => Outside), accounts, [], [])
  }

  predicate Enabled(s: System, a: Action) {
    a.c < |s.clients| &&
    var cl := s.clients[a.c];
    match a
    case Invoke(_, _) => cl.Outside?
    case Lock(_) => cl.Calling? && s.mutex == None
    case Proceed(_) => cl.Inside? && !cl.phase.Leave? && PhaseFits(cl.op, s.accounts, cl.phase)
    case Unlock(_) => cl.Inside? && cl.phase.Leave?
    case Return(_) => cl.Answered?
  }

  function Next(s: System, a: Action): System
    requires Enabled(s, a)
  {
    var cl := s.clients[a.c];
    match a
    case Invoke(c, op) => s.(clients := s.clients[c := Calling(op)])
    case Lock(c) =>
      s.(clients := s.clients[c := Inside(cl.op, |s.log|, Start)], mutex := Some(c), log := s.log + [cl.op])
    case Proceed(c) =>
      var r := MicroStep(cl.op, s.accounts, cl.phase);
      s.(clients := s.clients[c := cl.(phase := r.phase)], accounts := r.accounts)
    case Unlock(c) =>
      s.(clients := s.clients[c := Answered(cl.op, cl.ticket, cl.phase.reply)], mutex := None,
         replies := s.replies + [cl.phase.reply])
    case Return(c) => s.(clients := s.clients[c := Outside])
  }

  predicate Valid(s: System, acts: seq<Action>)
    decreases |acts|
  {
    acts == [] || (Enabled(s, acts[0]) && Valid(Next(s, acts[0]), acts[1..]))
  }

  function Exec(s: System, acts: seq<Action>): System
    requires Valid(s, acts)
    decreases |acts|
  {
    if acts == [] then s else Exec(Next(s, acts[0]), acts[1..])
  }

  ghost predicate Exclusion(s: System) {
    && (forall c: nat :: c < |s.clients| ==> (s.clients[c].Inside? <==> s.mutex == Some(c)))
    && (s.mutex.Some? ==> s.mutex.value < |s.clients|)
  }

  /** What a client that has been answered was told is what the log says. */
  ghost predicate Told(s: System, cl: Client) {
    cl.Answered? ==>
      cl.ticket < |s.replies| && cl.ticket < |s.log| && s.log[cl.ticket] == cl.op && s.replies[cl.ticket] == cl.reply
  }

  /** With the mutex free, the bank has done exactly the calls of the log, one after the other. */
  ghost predicate Settled(s: System) {
    s.accounts == Replay(s.initial, s.log) && s.replies == Replies(s.initial, s.log)
  }

  /** With a call inside, its remaining steps alone lead to the effect of the whole call on the
      accounts the earlier calls left behind. */
  ghost predicate InProgress(s: System, cl: Client)
    requires cl.Inside? && |s.log| > 0
  {
    var before := Replay(s.initial, s.log[..|s.log| - 1]);
    && PhaseFits(cl.op, s.accounts, cl.phase)
    && Finish(cl.op, s.accounts, cl.phase) == Apply(cl.op, before)
    && s.replies == Replies(s.initial, s.log[..|s.log| - 1])
  }

  ghost predicate Inv(s: System) {
    && Exclusion(s)
    && (forall c: nat :: c < |s.clients| ==> Told(s, s.clients[c]))
    && (s.mutex == None ==> Settled(s))
    && (s.mutex.Some? ==>
          var cl := s.clients[s.mutex.value];
          |s.log| > 0 && cl.ticket == |s.log| - 1 && s.log[cl.ticket] == cl.op && InProgress(s, cl))
  }

  lemma LockKeepsInv(s: System, c: nat)
    requires Inv(s) && Enabled(s, Lock(c))
    ensures Inv(Next(s, Lock(c)))
  {
    var r := Next(s, Lock(c));
    assert r.log[..|r.log| - 1] == s.log;
    CallAlone(s.clients[c].op, s.accounts);
    forall d: nat | d < |r.clients| ensures Told(r, r.clients[d]) {
      assert Told(s, s.clients[d]);
    }
  }

  lemma ProceedKeepsInv(s: System, c: nat)
    requires Inv(s) && Enabled(s, Proceed(c))
    ensures Inv(Next(s, Proceed(c)))
  {
    var r := Next(s, Proceed(c));
    forall d: nat | d < |r.clients| ensures Told(r, r.clients[d]) {
      assert Told(s, s.clients[d]);
    }
  }

  lemma UnlockKeepsInv(s: System, c: nat)
    requires Inv(s) && Enabled(s, Unlock(c))
    ensures Inv(Next(s, Unlock(c)))
  {
    var r := Next(s, Unlock(c));
    forall d: nat | d < |r.clients| ensures Told(r, r.clients[d]) {
      assert Told(s, s.clients[d]);
    }
  }

  lemma OutsideKeepsInv(s: System, a: Action)
    requires Inv(s) && Enabled(s, a) && (a.Invoke? || a.Return?)
    ensures Inv(Next(s, a))
  {
    hide Replay, Replies, Finish, Apply;
    var r := Next(s, a);
    forall d: nat | d < |r.clients| ensures Told(r, r.clients[d]) {
      assert Told(s, s.clients[d]);
    }
  }

  lemma StepKeepsInv(s: System, a: Action)
    requires Inv(s) && Enabled(s, a)
    ensures Inv(Next(s, a))
  {
    hide Inv;
    match a
    case Lock(c) => LockKeepsInv(s, c);
    case Proceed(c) => ProceedKeepsInv(s, c);
    case Unlock(c) => UnlockKeepsInv(s, c);
    case _ => OutsideKeepsInv(s, a);
  }

  lemma {:induction false} RunKeepsInv(s: System, acts: seq<Action>)
    requires Inv(s) && Valid(s, acts)
    ensures Inv(Exec(s, acts)) && Exec(s, acts).initial == s.initial
    decreases |acts|
  {
    if acts == [] {
    } else {
      StepKeepsInv(s, acts[0]);
      RunKeepsInv(Next(s, acts[0]), acts[1..]);
    }
  }

  /** The replies given so far are those of the first calls of the log. */
  lemma RepliesFollowTheLog(s: System)
    requires Inv(s)
    ensures s.replies <= Replies(s.initial, s.log)
  {
    hide Finish, Apply, MicroStep, Told;
  }

  /** Every interleaving of the clients' steps gives the accounts and the replies of running the
      atomic calls one by one in the order in which they took the mutex, and tells every client
      the reply of its own call. */
  lemma InterleavingsAreSerializable(accounts: seq<Account>, clients: nat, acts: seq<Action>)
    requires Valid(Boot(accounts, clients), acts)
    ensures var s := Exec(Boot(accounts, clients), acts);
            && (s.mutex == None ==>
                  s.accounts == Replay(accounts, s.log) && s.replies == Replies(accounts, s.log))
            && (forall c: nat :: c < |s.clients| && s.clients[c].Answered? ==>
                  var cl := s.clients[c];
                  cl.ticket < |s.log| && s.log[cl.ticket] == cl.op &&
                  cl.reply == Replies(accounts, s.log)[cl.ticket])
  {
    RunKeepsInv(Boot(accounts, clients), acts);
    hide Replay, Replies, InProgress;
    var s := Exec(Boot(accounts, clients), acts);
    RepliesFollowTheLog(s);
    forall c: nat | c < |s.clients| && s.clients[c].Answered?
      ensures s.clients[c].ticket < |s.log| && s.log[s.clients[c].ticket] == s.clients[c].op &&
              s.clients[c].reply == Replies(accounts, s.log)[s.clients[c].ticket]
    {
      assert Told(s, s.clients[c]);
    }
  }

  /** The last call that client c has made. */
  function LastAsked(acts: seq<Action>, c: nat): Option<Op> {
    if acts == [] then None
    else
      var last := acts[|acts| - 1];
      if last.Invoke? && last.c == c then Some(last.op) else LastAsked(acts[..|acts| - 1], c)
  }

  lemma {:induction false} SplitLast(s: System, acts: seq<Action>)
    requires Valid(s, acts) && acts != []
    ensures var before, last := acts[..|acts| - 1], acts[|acts| - 1];
            Valid(s, before) && Enabled(Exec(s, before), last) && Exec(s, acts) == Next(Exec(s, before), last)
    decreases |acts|
  {
    if |acts| > 1 {
      SplitLast(Next(s, acts[0]), acts[1..]);
      assert acts[..|acts| - 1][1..] == acts[1..][..|acts| - 2];
    } else {
      assert acts[1..] == [];
    }
  }

  /** The call that a client waits for, runs or has been answered is the one it made last. */
  lemma {:induction false} ClientsKeepTheirCall(accounts: seq<Account>, clients: nat, acts: seq<Action>, c: nat)
    requires Valid(Boot(accounts, clients), acts)
    ensures var s := Exec(Boot(accounts, clients), acts);
            && |s.clients| == clients
            && (c < clients && !s.clients[c].Outside? ==> LastAsked(acts, c) == Some(s.clients[c].op))
    decreases |acts|
  {
    if acts == [] {
    } else {
      SplitLast(Boot(accounts, clients), acts);
      ClientsKeepTheirCall(accounts, clients, acts[..|acts| - 1], c);
    }
  }

  function AsksFor(a: Action, op: Op): nat {
    if a.Invoke? && a.op == op then 1 else 0
  }

  /** How often a call has been made. */
  function TimesAsked(acts: seq<Action>, op: Op): nat {
    if acts == [] then 0 else AsksFor(acts[0], op) + TimesAsked(acts[1..], op)
  }

  /** A client that still waits for the mutex to make this call. */
  ghost function WaitsWith(op: Op): Client -> int {
    cl => if cl == Calling(op) then 1 else 0
  }

  ghost function CallsSeen(s: System, op: Op): int {
    multiset(s.log)[op] + Sum(s.clients, WaitsWith(op))
  }

  lemma StepLogs(s: System, a: Action, op: Op)
    requires Enabled(s, a)
    ensures CallsSeen(Next(s, a), op) == CallsSeen(s, op) + AsksFor(a, op)
  {
    hide MicroStep;
    SumUpdate(s.clients, WaitsWith(op), a.c, Next(s, a).clients[a.c]);
  }

  lemma {:induction false} RunLogs(s: System, acts: seq<Action>, op: Op)
    requires Valid(s, acts)
    ensures CallsSeen(Exec(s, acts), op) == CallsSeen(s, op) + TimesAsked(acts, op)
    decreases |acts|
  {
    if acts == [] {
    } else {
      StepLogs(s, acts[0], op);
      RunLogs(Next(s, acts[0]), acts[1..], op);
    }
  }

  /** The serial order holds every call made exactly once, except those that still wait for the mutex. */
  lemma EveryCallOnce(accounts: seq<Account>, clients: nat, acts: seq<Action>, op: Op)
    requires Valid(Boot(accounts, clients), acts)
    ensures var s := Exec(Boot(accounts, clients), acts);
            TimesAsked(acts, op) == multiset(s.log)[op] + Sum(s.clients, WaitsWith(op))
  {
    SumBounds(Boot(accounts, clients).clients, WaitsWith(op), 0, 0);
    RunLogs(Boot(accounts, clients), acts, op);
  }

  /** A call that has taken the mutex has a ticket from the floor on. */
  predicate TicketFrom(cl: Client, floor: nat) {
    cl.Inside? || cl.Answered? ==> cl.ticket >= floor
  }

  lemma {:induction false} LaterCallsComeLater(s: System, acts: seq<Action>, d: nat, floor: nat)
    requires Valid(s, acts) && d < |s.clients| && TicketFrom(s.clients[d], floor) && floor <= |s.log|
    ensures |Exec(s, acts).clients| == |s.clients| && s.log <= Exec(s, acts).log
    ensures TicketFrom(Exec(s, acts).clients[d], floor)
    decreases |acts|
  {
    if acts == [] {
    } else {
      var r := Next(s, acts[0]);
      assert s.log <= r.log && |r.clients| == |s.clients|;
      LaterCallsComeLater(r, acts[1..], d, floor);
    }
  }

  /** The serial order respects real time: if client c has its reply while client d has not called
      yet, every later call of d comes after the call of c in the order of the log. */
  lemma SerialOrderIsRealTime(accounts: seq<Account>, clients: nat, before: seq<Action>, after: seq<Action>,
                              c: nat, d: nat)
    requires Valid(Boot(accounts, clients), before)
    requires var s := Exec(Boot(accounts, clients), before);
             Valid(s, after) && c < |s.clients| && d < |s.clients| &&
             s.clients[c].Answered? && s.clients[d].Outside?
    ensures var s := Exec(Boot(accounts, clients), before);
            var e := Exec(s, after);
            && s.log <= e.log && d < |e.clients|
            && (e.clients[d].Inside? || e.clients[d].Answered? ==> s.clients[c].ticket < e.clients[d].ticket)
  {
    RunKeepsInv(Boot(accounts, clients), before);
    var s := Exec(Boot(accounts, clients), before);
    assert Told(s, s.clients[c]);
    LaterCallsComeLater(s, after, d, |s.log|);
  }

  // ---------- progress ----------

  predicate IsWork(a: Action) {
    a.Lock? || a.Proceed? || a.Unlock?
  }

  function WorkOf(a: Action): nat {
    if IsWork(a) then 1 else 0
  }

  /** The steps taken by calls under way. */
  function Work(acts: seq<Action>): nat {
    if acts == [] then 0 else WorkOf(acts[0]) + Work(acts[1..])
  }

  function Invocations(acts: seq<Action>): nat {
    if acts == [] then 0 else (if acts[0].Invoke? then 1 else 0) + Invocations(acts[1..])
  }

  function WorkLeft(cl: Client, n: nat): int {
    match cl
    case Calling(_) => 3 * n + 12
    case Inside(op, _, ph) => 1 + StepsLeft(op, n, ph)
    case _ => 0
  }

  ghost function WorkIn(n: nat): Client -> int {
    cl => WorkLeft(cl, n)
  }

  /** The steps that the invocations of a run pay for. */
  function Granted(acts: seq<Action>, n: nat): nat {
    if acts == [] then 0 else (if acts[0].Invoke? then 3 * n + 12 else 0) + Granted(acts[1..], n)
  }

  lemma {:induction false} GrantedPerInvocation(acts: seq<Action>, n: nat)
    ensures Granted(acts, n) == (3 * n + 12) * Invocations(acts)
  {
    if acts == [] {
    } else {
      var m := Invocations(acts[1..]);
      GrantedPerInvocation(acts[1..], n);
      assert (3 * n + 12) * (m + 1) == (3 * n + 12) * m + (3 * n + 12);
    }
  }

  lemma StepDoesWork(s: System, a: Action)
    requires Enabled(s, a)
    ensures |Next(s, a).accounts| == |s.accounts|
    ensures WorkOf(a) + Sum(Next(s, a).clients, WorkIn(|s.accounts|))
            <= Sum(s.clients, WorkIn(|s.accounts|)) + if a.Invoke? then 3 * |s.accounts| + 12 else 0
  {
    var n, cl, after := |s.accounts|, s.clients[a.c], Next(s, a).clients[a.c];
    SumUpdate(s.clients, WorkIn(n), a.c, after);
    if a.Proceed? {
      MicroStepCounts(cl.op, s.accounts, cl.phase);
    }
  }

  lemma {:induction false} WorkIsBounded(s: System, acts: seq<Action>)
    requires Valid(s, acts)
    ensures Work(acts) + Sum(Exec(s, acts).clients, WorkIn(|s.accounts|))
            <= Sum(s.clients, WorkIn(|s.accounts|)) + Granted(acts, |s.accounts|)
    ensures |Exec(s, acts).accounts| == |s.accounts|
    decreases |acts|
  {
    if acts == [] {
    } else {
      StepDoesWork(s, acts[0]);
      WorkIsBounded(Next(s, acts[0]), acts[1..]);
    }
  }

  lemma WorkLeftNonNegative(s: System)
    requires Inv(s)
    ensures 0 <= Sum(s.clients, WorkIn(|s.accounts|))
  {
    var n := |s.accounts|;
    forall c | 0 <= c < |s.clients| ensures 0 <= WorkIn(n)(s.clients[c]) {
      assert s.clients[c].Inside? ==> s.mutex == Some(c);
    }
    SumNonNegative(s.clients, WorkIn(n));
  }

  lemma NoWorkAtFirst(accounts: seq<Account>, clients: nat)
    ensures Sum(Boot(accounts, clients).clients, WorkIn(|accounts|)) == 0
  {
    SumBounds(Boot(accounts, clients).clients, WorkIn(|accounts|), 0, 0);
  }

  /** A call that waits for the mutex or is inside it. */
  ghost predicate CallUnderWay(s: System) {
    exists c: nat :: c < |s.clients| && (s.clients[c].Calling? || s.clients[c].Inside?)
  }

  /** The client inside the mutex can always take its next step. */
  lemma HolderCanMove(s: System)
    requires Inv(s) && s.mutex.Some?
    ensures var c := s.mutex.value;
            c < |s.clients| && s.clients[c].Inside? && (Enabled(s, Proceed(c)) || Enabled(s, Unlock(c)))
  {
  }

  /** In every reachable state only the mutex holds a client up: outside it can make any call, inside
      it can always take its next step or leave, with its reply it can return, and it can lock
      exactly when nobody is inside. */
  lemma OnlyTheMutexBlocks(accounts: seq<Account>, clients: nat, acts: seq<Action>, c: nat)
    requires Valid(Boot(accounts, clients), acts) && c < |Exec(Boot(accounts, clients), acts).clients|
    ensures var s := Exec(Boot(accounts, clients), acts);
            match s.clients[c]
            case Outside => forall op :: Enabled(s, Invoke(c, op))
            case Calling(_) => Enabled(s, Lock(c)) <==> forall d: nat :: d < |s.clients| ==> !s.clients[d].Inside?
            case Inside(_, _, _) => Enabled(s, Proceed(c)) || Enabled(s, Unlock(c))
            case Answered(_, _, _) => Enabled(s, Return(c))
  {
    RunKeepsInv(Boot(accounts, clients), acts);
    var s := Exec(Boot(accounts, clients), acts);
    assert s.mutex.Some? ==> s.clients[s.mutex.value].Inside?;
    if s.clients[c].Inside? {
      HolderCanMove(s);
    }
  }

  lemma SomeCallMoves(s: System)
    requires Inv(s) && CallUnderWay(s)
    ensures exists a :: IsWork(a) && Enabled(s, a)
  {
    var c: nat :| c < |s.clients| && (s.clients[c].Calling? || s.clients[c].Inside?);
    if s.mutex == None {
      assert Enabled(s, Lock(c));
    } else {
      HolderCanMove(s);
    }
  }

  lemma WorkPerInvocation(accounts: seq<Account>, clients: nat, acts: seq<Action>)
    requires Valid(Boot(accounts, clients), acts) && Inv(Exec(Boot(accounts, clients), acts))
    ensures Work(acts) <= (3 * |accounts| + 12) * Invocations(acts)
  {
    hide Inv;
    WorkIsBounded(Boot(accounts, clients), acts);
    WorkLeftNonNegative(Exec(Boot(accounts, clients), acts));
    NoWorkAtFirst(accounts, clients);
    GrantedPerInvocation(acts, |accounts|);
  }

  /** Whatever the interleaving, the calls take at most 3n + 12 steps for each invocation on n
      accounts, and while any call is under way one of them can take its next step. */
  lemma CallsMakeProgress(accounts: seq<Account>, clients: nat, acts: seq<Action>)
    requires Valid(Boot(accounts, clients), acts)
    ensures Work(acts) <= (3 * |accounts| + 12) * Invocations(acts)
    ensures var s := Exec(Boot(accounts, clients), acts);
            CallUnderWay(s) ==> exists a :: IsWork(a) && Enabled(s, a)
  {
    RunKeepsInv(Boot(accounts, clients), acts);
    WorkPerInvocation(accounts, clients, acts);
    var s := Exec(Boot(accounts, clients), acts);
    if CallUnderWay(s) {
      SomeCallMoves(s);
    }
  }

  // ---------- what a call knows about the accounts it is about to change ----------

  ghost predicate Ready(op: Op, accounts: seq<Account>, ph: Phase)
    requires PhaseFits(op, accounts, ph)
  {
    match ph
    case ReadSecond(first) => op.x > 0 && first == accounts[op.a]
    case LoadFirst => op.x > 0 && CanTake(accounts[op.a], op.x) && CanReceive(accounts[op.b], op.x)
    case StoreFirst(acc) =>
      op.x > 0 && acc == accounts[op.a] && CanTake(acc, op.x) && CanReceive(accounts[op.b], op.x)
    case LoadSecond => op.x > 0 && CanReceive(accounts[op.b], op.x)
    case StoreSecond(acc) => op.x > 0 && acc == accounts[op.b] && CanReceive(acc, op.x)
    case Check(i) => forall j :: 0 <= j < i ==> !BulkRefuses(op, accounts[j])
    case Load(i) => forall j :: i <= j < |accounts| ==> !BulkRefuses(op, accounts[j])
    case Store(i, acc) => acc == accounts[i] && forall j :: i <= j < |accounts| ==> !BulkRefuses(op, accounts[j])
    case Write(acc) =>
      acc == accounts[op.a] &&
      (op.SetMinBalance? ==> op.x <= acc.balance) && (op.SetMaxBalance? ==> acc.balance <= op.x)
    case _ => true
  }

  lemma MicroStepKeepsReady(op: Op, accounts: seq<Account>, ph: Phase)
    requires PhaseFits(op, accounts, ph) && !ph.Leave? && Ready(op, accounts, ph)
    ensures var r := MicroStep(op, accounts, ph); Ready(op, r.accounts, r.phase)
  {
  }

  ghost predicate Prepared(s: System, cl: Client) {
    cl.Inside? ==> PhaseFits(cl.op, s.accounts, cl.phase) && Ready(cl.op, s.accounts, cl.phase)
  }

  ghost predicate AllPrepared(s: System) {
    forall c: nat :: c < |s.clients| ==> Prepared(s, s.clients[c])
  }

  lemma StepKeepsPrepared(s: System, a: Action)
    requires Exclusion(s) && AllPrepared(s) && Enabled(s, a)
    ensures AllPrepared(Next(s, a))
  {
    var r := Next(s, a);
    assert Prepared(s, s.clients[a.c]);
    if a.Proceed? {
      MicroStepKeepsReady(s.clients[a.c].op, s.accounts, s.clients[a.c].phase);
    }
    forall c: nat | c < |r.clients| ensures Prepared(r, r.clients[c]) {
      assert Prepared(s, s.clients[c]);
    }
  }

  lemma {:induction false} RunKeepsPrepared(s: System, acts: seq<Action>)
    requires Inv(s) && AllPrepared(s) && Valid(s, acts)
    ensures Inv(Exec(s, acts)) && AllPrepared(Exec(s, acts))
    decreases |acts|
  {
    if acts == [] {
    } else {
      StepKeepsInv(s, acts[0]);
      StepKeepsPrepared(s, acts[0]);
      RunKeepsPrepared(Next(s, acts[0]), acts[1..]);
    }
  }

  // ---------- frozen accounts at every step ----------

  /** The step that writes the unfreezing of account i. */
  predicate Unfreezes(s: System, a: Action, i: nat)
    requires Enabled(s, a)
  {
    a.Proceed? && s.clients[a.c].op == Unfreeze(i) && s.clients[a.c].phase.Write?
  }

  predicate NeverUnfreezes(s: System, acts: seq<Action>, i: nat)
    requires Valid(s, acts)
    decreases |acts|
  {
    acts == [] || (!Unfreezes(s, acts[0], i) && NeverUnfreezes(Next(s, acts[0]), acts[1..], i))
  }

  lemma MicroStepKeepsFrozen(op: Op, accounts: seq<Account>, ph: Phase, i: nat)
    requires PhaseFits(op, accounts, ph) && !ph.Leave? && Ready(op, accounts, ph)
    requires i < |accounts| && accounts[i].frozen && !(op == Unfreeze(i) && ph.Write?)
    ensures var after := MicroStep(op, accounts, ph).accounts[i];
            after.frozen && after.balance == accounts[i].balance
  {
  }

  lemma {:induction false} RunKeepsFrozen(s: System, acts: seq<Action>, i: nat)
    requires Inv(s) && AllPrepared(s) && Valid(s, acts) && NeverUnfreezes(s, acts, i)
    requires i < |s.accounts| && s.accounts[i].frozen
    ensures var e := Exec(s, acts);
            i < |e.accounts| && e.accounts[i].frozen && e.accounts[i].balance == s.accounts[i].balance
    decreases |acts|
  {
    if acts == [] {
    } else {
      var a := acts[0];
      assert Prepared(s, s.clients[a.c]);
      if a.Proceed? {
        MicroStepKeepsFrozen(s.clients[a.c].op, s.accounts, s.clients[a.c].phase, i);
      }
      StepKeepsInv(s, a);
      StepKeepsPrepared(s, a);
      RunKeepsFrozen(Next(s, a), acts[1..], i);
    }
  }

  /** From any state of any interleaving, a frozen account keeps its balance at every single step,
      also in the middle of a call, until the step that writes its unfreezing. */
  lemma FrozenBalanceAtEveryStep(accounts: seq<Account>, clients: nat, before: seq<Action>, after: seq<Action>, i: nat)
    requires Valid(Boot(accounts, clients), before)
    requires var s := Exec(Boot(accounts, clients), before);
             Valid(s, after) && NeverUnfreezes(s, after, i) && i < |s.accounts| && s.accounts[i].frozen
    ensures var s := Exec(Boot(accounts, clients), before);
            var e := Exec(s, after);
            i < |e.accounts| && e.accounts[i].frozen && e.accounts[i].balance == s.accounts[i].balance
  {
    RunKeepsPrepared(Boot(accounts, clients), before);
    RunKeepsFrozen(Exec(Boot(accounts, clients), before), after, i);
  }

  // ---------- limits at every step ----------

  lemma MicroStepKeepsLimits(op: Op, accounts: seq<Account>, ph: Phase)
    requires PhaseFits(op, accounts, ph) && !ph.Leave? && NoNegativeBulk(op)
    requires InLimits(accounts) && Ready(op, accounts, ph)
    ensures InLimits(MicroStep(op, accounts, ph).accounts)
  {
  }

  ghost predicate Asked(cl: Client, asked: Op -> bool) {
    cl.Calling? || cl.Inside? ==> asked(cl.op)
  }

  /** Limits hold in the middle of a call as well, and every call under way is one of those asked for. */
  ghost predicate Orderly(s: System, asked: Op -> bool) {
    && Inv(s) && AllPrepared(s) && InLimits(s.accounts)
    && (forall c: nat :: c < |s.clients| ==> Asked(s.clients[c], asked))
  }

  ghost predicate OnlyAsked(acts: seq<Action>, asked: Op -> bool) {
    forall i :: 0 <= i < |acts| && acts[i].Invoke? ==> asked(acts[i].op)
  }

  lemma StepKeepsOrder(s: System, a: Action, asked: Op -> bool)
    requires Orderly(s, asked) && Enabled(s, a) && (a.Invoke? ==> asked(a.op))
    requires forall op :: asked(op) ==> NoNegativeBulk(op)
    ensures Orderly(Next(s, a), asked)
  {
    var r := Next(s, a);
    StepKeepsInv(s, a);
    StepKeepsPrepared(s, a);
    assert Prepared(s, s.clients[a.c]) && Asked(s.clients[a.c], asked);
    if a.Proceed? {
      MicroStepKeepsLimits(s.clients[a.c].op, s.accounts, s.clients[a.c].phase);
    }
    forall c: nat | c < |r.clients| ensures Asked(r.clients[c], asked) {
      assert Asked(s.clients[c], asked);
    }
  }

  lemma {:induction false} RunKeepsOrder(s: System, acts: seq<Action>, asked: Op -> bool)
    requires Orderly(s, asked) && Valid(s, acts) && OnlyAsked(acts, asked)
    requires forall op :: asked(op) ==> NoNegativeBulk(op)
    ensures Orderly(Exec(s, acts), asked)
    decreases |acts|
  {
    if acts == [] {
    } else {
      assert OnlyAsked([acts[0]], asked);
      StepKeepsOrder(s, acts[0], asked);
      RunKeepsOrder(Next(s, acts[0]), acts[1..], asked);
    }
  }

  /** From init_bank, without negative bulk amounts, every balance is within its limits at every
      single step of every interleaving, also while a call is half done. */
  lemma LimitsHoldAtEveryStep(n: nat, maxBalance: int, clients: nat, acts: seq<Action>)
    requires maxBalance >= 0 && Valid(Boot(Bank.Init(n, maxBalance), clients), acts)
    requires OnlyAsked(acts, NoNegativeBulk)
    ensures InLimits(Exec(Boot(Bank.Init(n, maxBalance), clients), acts).accounts)
  {
    RunKeepsOrder(Boot(Bank.Init(n, maxBalance), clients), acts, NoNegativeBulk);
  }

  // ---------- 32-bit arithmetic at every step ----------

  /** The sums and differences that the next step inside the mutex computes. */
  function Computed(op: Op, accounts: seq<Account>, ph: Phase): seq<int>
    requires PhaseFits(op, accounts, ph)
  {
    match ph
    case ReadSecond(first) => [first.balance - op.x, accounts[op.b].balance + op.x]
    case StoreFirst(acc) => [acc.balance - op.x]
    case StoreSecond(acc) => [acc.balance + op.x]
    case Check(i) =>
      if i == |accounts| then []
      else if op.DepositAll? then [accounts[i].balance + op.x]
      else [accounts[i].balance - op.x]
    case Store(_, acc) => [acc.balance + BulkAmount(op)]
    case _ => []
  }

  ghost predicate Fits(s: System, cl: Client) {
    cl.Inside? ==>
      && PhaseFits(cl.op, s.accounts, cl.phase)
      && forall v :: v in Computed(cl.op, s.accounts, cl.phase) ==> INT_MIN <= v <= INT_MAX
  }

  ghost predicate AllFit(s: System) {
    forall c: nat :: c < |s.clients| ==> Fits(s, s.clients[c])
  }

  ghost function Small(limit: int, most: int): Op -> bool {
    op => SmallArguments(op, limit, most)
  }

  lemma ComputedFits(op: Op, accounts: seq<Account>, ph: Phase, limit: int, most: int)
    requires PhaseFits(op, accounts, ph) && Ready(op, accounts, ph) && SmallArguments(op, limit, most)
    requires InLimits(accounts) && SmallLimits(accounts, limit) && limit + most <= INT_MAX + 1
    ensures forall v :: v in Computed(op, accounts, ph) ==> INT_MIN <= v <= INT_MAX
  {
  }

  lemma MicroStepKeepsSmallLimits(op: Op, accounts: seq<Account>, ph: Phase, limit: int, most: int)
    requires PhaseFits(op, accounts, ph) && !ph.Leave? && SmallArguments(op, limit, most)
    requires SmallLimits(accounts, limit) && Ready(op, accounts, ph)
    ensures SmallLimits(MicroStep(op, accounts, ph).accounts, limit)
  {
  }

  lemma {:induction false} RunKeepsSmallLimits(s: System, acts: seq<Action>, limit: int, most: int)
    requires Orderly(s, Small(limit, most)) && SmallLimits(s.accounts, limit)
    requires Valid(s, acts) && OnlyAsked(acts, Small(limit, most))
    ensures SmallLimits(Exec(s, acts).accounts, limit)
    decreases |acts|
  {
    if acts == [] {
    } else {
      var a := acts[0];
      assert Prepared(s, s.clients[a.c]) && Asked(s.clients[a.c], Small(limit, most));
      if a.Proceed? {
        MicroStepKeepsSmallLimits(s.clients[a.c].op, s.accounts, s.clients[a.c].phase, limit, most);
      }
      StepKeepsOrder(s, a, Small(limit, most));
      RunKeepsSmallLimits(Next(s, a), acts[1..], limit, most);
    }
  }

  lemma SmallRunsFit(n: nat, maxBalance: int, clients: nat, acts: seq<Action>, limit: int, most: int)
    requires 0 <= maxBalance < limit && Valid(Boot(Bank.Init(n, maxBalance), clients), acts)
    requires OnlyAsked(acts, Small(limit, most)) && limit + most <= INT_MAX + 1
    ensures AllFit(Exec(Boot(Bank.Init(n, maxBalance), clients), acts))
  {
    var s0 := Boot(Bank.Init(n, maxBalance), clients);
    RunKeepsOrder(s0, acts, Small(limit, most));
    RunKeepsSmallLimits(s0, acts, limit, most);
    var s := Exec(s0, acts);
    forall c: nat | c < |s.clients| ensures Fits(s, s.clients[c]) {
      assert Prepared(s, s.clients[c]) && Asked(s.clients[c], Small(limit, most));
      if s.clients[c].Inside? {
        ComputedFits(s.clients[c].op, s.accounts, s.clients[c].phase, limit, most);
      }
    }
  }

  lemma StepFirst(s: System, a: Action, rest: seq<Action>)
    requires Enabled(s, a) && Valid(Next(s, a), rest)
    ensures Valid(s, [a] + rest) && Exec(s, [a] + rest) == Exec(Next(s, a), rest)
  {
    assert ([a] + rest)[1..] == rest;
  }

  lemma {:induction false} Concat(s: System, before: seq<Action>, after: seq<Action>)
    requires Valid(s, before) && Valid(Exec(s, before), after)
    ensures Valid(s, before + after) && Exec(s, before + after) == Exec(Exec(s, before), after)
    decreases |before|
  {
    hide Next, Enabled;
    if before == [] {
      assert before + after == after;
    } else {
      assert (before + after)[1..] == before[1..] + after;
      Concat(Next(s, before[0]), before[1..], after);
    }
  }

  /** Client 0 is outside and nobody holds the mutex. */
  predicate Free(s: System) {
    |s.clients| > 0 && s.clients[0] == Outside && s.mutex == None
  }

  /** Client 0 runs the rest of its call alone and returns. */
  lemma {:induction false} LeaveAlone(s: System) returns (acts: seq<Action>)
    requires |s.clients| > 0 && s.clients[0].Inside?
    requires PhaseFits(s.clients[0].op, s.accounts, s.clients[0].phase)
    ensures Valid(s, acts) && (forall i :: 0 <= i < |acts| ==> !acts[i].Invoke?)
    ensures var cl := s.clients[0];
            Free(Exec(s, acts)) && Exec(s, acts).accounts == Finish(cl.op, s.accounts, cl.phase).accounts
    decreases StepsLeft(s.clients[0].op, |s.accounts|, s.clients[0].phase)
  {
    var cl := s.clients[0];
    if cl.phase.Leave? {
      acts := [Unlock(0), Return(0)];
      assert Exec(s, acts) == Next(Next(s, Unlock(0)), Return(0));
    } else {
      MicroStepCounts(cl.op, s.accounts, cl.phase);
      var rest := LeaveAlone(Next(s, Proceed(0)));
      StepFirst(s, Proceed(0), rest);
      acts := [Proceed(0)] + rest;
    }
  }

  /** Client 0 makes one whole call while nobody else moves. */
  lemma WholeCall(s: System, op: Op) returns (acts: seq<Action>)
    requires Free(s)
    ensures Valid(s, acts) && (forall i :: 0 <= i < |acts| && acts[i].Invoke? ==> acts[i].op == op)
    ensures Free(Exec(s, acts)) && Exec(s, acts).accounts == Apply(op, s.accounts).accounts
  {
    var called := Next(s, Invoke(0, op));
    var inside := Next(called, Lock(0));
    var rest := LeaveAlone(inside);
    CallAlone(op, s.accounts);
    acts := [Invoke(0, op)] + ([Lock(0)] + rest);
    StepFirst(called, Lock(0), rest);
    StepFirst(s, Invoke(0, op), [Lock(0)] + rest);
  }

  /** A bank whose n accounts all hold the same balance. */
  function Level(n: nat, balance: int, maxBalance: int): seq<Account> {
    seq(n, _ => Account(balance, 0, maxBalance, false))
  }

  lemma DepositOne(n: nat, balance: int, maxBalance: int)
    requires balance < maxBalance
    ensures Apply(DepositAll(1), Level(n, balance, maxBalance)).accounts == Level(n, balance + 1, maxBalance)
  {
    assert AddToAll(Level(n, balance, maxBalance), 1) == Level(n, balance + 1, maxBalance);
  }

  lemma {:induction false} FillUp(s: System, n: nat, balance: int, maxBalance: int) returns (acts: seq<Action>)
    requires Free(s) && s.accounts == Level(n, balance, maxBalance) && balance <= maxBalance
    ensures Valid(s, acts) && (forall i :: 0 <= i < |acts| && acts[i].Invoke? ==> acts[i].op == DepositAll(1))
    ensures Free(Exec(s, acts)) && Exec(s, acts).accounts == Level(n, maxBalance, maxBalance)
    decreases maxBalance - balance
  {
    if balance == maxBalance {
      acts := [];
    } else {
      var call := WholeCall(s, DepositAll(1));
      DepositOne(n, balance, maxBalance);
      var rest := FillUp(Exec(s, call), n, balance + 1, maxBalance);
      Concat(s, call, rest);
      acts := call + rest;
    }
  }

  /** A deposit takes the mutex and is about to check the first account. */
  lemma DepositBegins(s: System, x: int) returns (acts: seq<Action>)
    requires Free(s) && s.accounts != []
    ensures Valid(s, acts) && (forall i :: 0 <= i < |acts| && acts[i].Invoke? ==> acts[i].op == DepositAll(x))
    ensures AllFit(Exec(s, acts)) ==> s.accounts[0].balance + x <= INT_MAX
  {
    var called := Next(s, Invoke(0, DepositAll(x)));
    var inside := Next(called, Lock(0));
    var e := Next(inside, Proceed(0));
    StepFirst(inside, Proceed(0), []);
    StepFirst(called, Lock(0), [Proceed(0)] + []);
    acts := [Invoke(0, DepositAll(x))] + ([Lock(0)] + ([Proceed(0)] + []));
    StepFirst(s, acts[0], acts[1..]);
    assert Exec(s, acts) == e;
    assert AllFit(e) ==> Fits(e, e.clients[0]);
    assert s.accounts[0].balance + x in Computed(DepositAll(x), e.accounts, Check(0));
  }

  /** Fill every account to the largest maximum allowed, then deposit the largest amount allowed. */
  lemma OverflowingRun(n: nat, clients: nat, limit: int, most: int) returns (acts: seq<Action>)
    requires n >= 1 && clients >= 1 && limit >= 1 && most >= 1 && limit + most > INT_MAX + 1
    ensures Valid(Boot(Bank.Init(n, limit - 1), clients), acts) && OnlyAsked(acts, Small(limit, most))
    ensures !AllFit(Exec(Boot(Bank.Init(n, limit - 1), clients), acts))
  {
    var s0 := Boot(Bank.Init(n, limit - 1), clients);
    var fill := FillUp(s0, n, 0, limit - 1);
    var full := Exec(s0, fill);
    var start := DepositBegins(full, most);
    Concat(s0, fill, start);
    acts := fill + start;
  }

  /** No interleaving of calls with limits in [-limit, limit) and amounts up to most ever computes a
      sum or difference outside the range of a 32-bit int. */
  ghost predicate NeverOverflows(n: nat, clients: nat, limit: int, most: int) {
    forall maxBalance, acts ::
      0 <= maxBalance < limit && Valid(Boot(Bank.Init(n, maxBalance), clients), acts) &&
      OnlyAsked(acts, Small(limit, most)) ==>
        AllFit(Exec(Boot(Bank.Init(n, maxBalance), clients), acts))
  }

  /** The program's 32-bit arithmetic is safe at every step of every run exactly when the two bounds
      add up to at most 2^31. */
  lemma NoOverflowExactly(n: nat, clients: nat, limit: int, most: int)
    requires n >= 1 && clients >= 1 && limit >= 1 && most >= 1
    ensures NeverOverflows(n, clients, limit, most) <==> limit + most <= INT_MAX + 1
  {
    if limit + most <= INT_MAX + 1 {
      forall maxBalance, acts | 0 <= maxBalance < limit && Valid(Boot(Bank.Init(n, maxBalance), clients), acts) &&
                                OnlyAsked(acts, Small(limit, most))
        ensures AllFit(Exec(Boot(Bank.Init(n, maxBalance), clients), acts))
      {
        SmallRunsFit(n, maxBalance, clients, acts, limit, most);
      }
    } else {
      var acts := OverflowingRun(n, clients, limit, most);
    }
  }

  // ---------- the books ----------

  /** What sequences of calls keep, concurrent clients keep: whenever the mutex is free the balances
      are within their limits and the total is the net flow of the replies given. */
  lemma ConcurrentClientsKeepTheBooks(n: nat, maxBalance: int, clients: nat, acts: seq<Action>)
    requires maxBalance >= 0 && Valid(Boot(Bank.Init(n, maxBalance), clients), acts)
    requires var s := Exec(Boot(Bank.Init(n, maxBalance), clients), acts);
             s.mutex == None && forall i :: 0 <= i < |s.log| ==> NoNegativeBulk(s.log[i])
    ensures var s := Exec(Boot(Bank.Init(n, maxBalance), clients), acts);
            |s.replies| == |s.log| && InLimits(s.accounts) &&
            Total(s.accounts) == NetFlow(s.log, s.replies, n)
  {
    var accounts := Bank.Init(n, maxBalance);
    InterleavingsAreSerializable(accounts, clients, acts);
    var s := Exec(Boot(accounts, clients), acts);
    RunsKeepLimits(n, maxBalance, s.log);
    MoneyIsNetFlow(n, maxBalance, s.log);
  }
}
