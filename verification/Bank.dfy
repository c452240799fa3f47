/** The transparent bank: what each call does to the shared accounts, the object that does it in
    place, and what every sequence of calls keeps. */
module Bank {
  import opened Sums

  datatype Account = Account(balance: int, minBalance: int, maxBalance: int, frozen: bool)

  datatype Op =
    | GetBalance(a: int) | GetMinBalance(a: int) | GetMaxBalance(a: int)
    | Freeze(a: int) | Unfreeze(a: int)
    | Transfer(a: int, b: int, x: int)
    | DepositAll(x: int) | WithdrawAll(x: int)
    | SetMinBalance(a: int, x: int) | SetMaxBalance(a: int, x: int)

  /** The reply strings: a number, "done" or "oops". */
  datatype Reply = Number(n: int) | Done | Oops

  datatype Result = Result(accounts: seq<Account>, reply: Reply)

  function Init(n: nat, maxBalance: int): seq<Account> {
    seq(n, _ => Account(0, 0, maxBalance, false))
  }

  predicate Exists(accounts: seq<Account>, a: int) {
    0 <= a < |accounts|
  }

  function AddTo(acc: Account, x: int): Account {
    acc.(balance := acc.balance + x)
  }

  function AddToAll(accounts: seq<Account>, x: int): seq<Account> {
    seq(|accounts|, i requires 0 <= i < |accounts| => AddTo(accounts[i], x))
  }

  predicate CanTake(acc: Account, x: int) {
    !acc.frozen && acc.minBalance <= acc.balance - x
  }

  predicate CanReceive(acc: Account, x: int) {
    !acc.frozen && acc.balance + x <= acc.maxBalance
  }

  predicate Accepts(op: Op, accounts: seq<Account>) {
    match op
    case Transfer(a, b, x) =>
      Exists(accounts, a) && Exists(accounts, b) && x > 0 &&
      CanTake(accounts[a], x) && CanReceive(accounts[b], x)
    case DepositAll(x) => forall i :: 0 <= i < |accounts| ==> CanReceive(accounts[i], x)
    case WithdrawAll(x) => forall i :: 0 <= i < |accounts| ==> CanTake(accounts[i], x)
    case SetMinBalance(a, x) =>
      Exists(accounts, a) && x <= accounts[a].maxBalance && x <= accounts[a].balance
    case SetMaxBalance(a, x) =>
      Exists(accounts, a) && accounts[a].minBalance <= x && accounts[a].balance <= x
    case _ => Exists(accounts, op.a)
  }

  /** The effect of one call: all or nothing. */
  function Apply(op: Op, accounts: seq<Account>): (r: Result)
    ensures |r.accounts| == |accounts|
    ensures r.reply == Oops <==> !Accepts(op, accounts)
    ensures r.reply != Done ==> r.accounts == accounts
  {
    if !Accepts(op, accounts) then Result(accounts, Oops)
    else
      match op
      case GetBalance(a) => Result(accounts, Number(accounts[a].balance))
      case GetMinBalance(a) => Result(accounts, Number(accounts[a].minBalance))
      case GetMaxBalance(a) => Result(accounts, Number(accounts[a].maxBalance))
      case Freeze(a) => Result(accounts[a := accounts[a].(frozen := true)], Done)
      case Unfreeze(a) => Result(accounts[a := accounts[a].(frozen := false)], Done)
      case Transfer(a, b, x) =>
        var taken := accounts[a := AddTo(accounts[a], -x)];
        Result(taken[b := AddTo(taken[b], x)], Done)
      case DepositAll(x) => Result(AddToAll(accounts, x), Done)
      case WithdrawAll(x) => Result(AddToAll(accounts, -x), Done)
      case SetMinBalance(a, x) => Result(accounts[a := accounts[a].(minBalance := x)], Done)
      case SetMaxBalance(a, x) => Result(accounts[a := accounts[a].(maxBalance := x)], Done)
  }

  // ---------- what the calls promise, account by account ----------

  /** A transfer moves exactly its amount when every condition holds, and otherwise nothing. */
  lemma TransferMoves(a: int, b: int, x: int, accounts: seq<Account>)
    ensures var r := Apply(Transfer(a, b, x), accounts);
            && (r.reply == Done <==>
                  0 <= a < |accounts| && 0 <= b < |accounts| && x > 0 &&
                  !accounts[a].frozen && !accounts[b].frozen &&
                  accounts[a].minBalance <= accounts[a].balance - x &&
                  accounts[b].balance + x <= accounts[b].maxBalance)
            && (r.reply == Done && a == b ==> r.accounts == accounts)
            && (r.reply == Done && a != b ==>
                  && r.accounts[a] == accounts[a].(balance := accounts[a].balance - x)
                  && r.accounts[b] == accounts[b].(balance := accounts[b].balance + x)
                  && forall i :: 0 <= i < |accounts| && i != a && i != b ==> r.accounts[i] == accounts[i])
            && (r.reply != Done ==> r.reply == Oops && r.accounts == accounts)
  {
  }

  ghost predicate AllChangeBy(before: seq<Account>, after: seq<Account>, x: int) {
    && |after| == |before|
    && forall i :: 0 <= i < |before| ==> after[i] == before[i].(balance := before[i].balance + x)
  }

  /** A bulk call reaches every account or none. */
  lemma BulkCallsReachAll(x: int, accounts: seq<Account>)
    ensures var r := Apply(DepositAll(x), accounts);
            && (r.reply == Done <==>
                  forall i :: 0 <= i < |accounts| ==>
                    !accounts[i].frozen && accounts[i].balance + x <= accounts[i].maxBalance)
            && (r.reply == Done ==> AllChangeBy(accounts, r.accounts, x))
            && (r.reply != Done ==> r.reply == Oops && r.accounts == accounts)
    ensures var r := Apply(WithdrawAll(x), accounts);
            && (r.reply == Done <==>
                  forall i :: 0 <= i < |accounts| ==>
                    !accounts[i].frozen && accounts[i].minBalance <= accounts[i].balance - x)
            && (r.reply == Done ==> AllChangeBy(accounts, r.accounts, -x))
            && (r.reply != Done ==> r.reply == Oops && r.accounts == accounts)
  {
    assert forall i :: 0 <= i < |accounts| ==>
      (CanReceive(accounts[i], x) <==> !accounts[i].frozen && accounts[i].balance + x <= accounts[i].maxBalance);
    assert forall i :: 0 <= i < |accounts| ==>
      (CanTake(accounts[i], x) <==> !accounts[i].frozen && accounts[i].minBalance <= accounts[i].balance - x);
  }

  /** A call that names an account that does not exist is refused and changes nothing. */
  lemma MissingAccountIsRefused(op: Op, accounts: seq<Account>)
    requires !op.DepositAll? && !op.WithdrawAll?
    requires !(0 <= op.a < |accounts|) || (op.Transfer? && !(0 <= op.b < |accounts|))
    ensures Apply(op, accounts) == Result(accounts, Oops)
  {
  }

  /** A reading call reports its field of an existing account and changes nothing. */
  lemma ReadersReport(a: int, accounts: seq<Account>)
    requires 0 <= a < |accounts|
    ensures Apply(GetBalance(a), accounts) == Result(accounts, Number(accounts[a].balance))
    ensures Apply(GetMinBalance(a), accounts) == Result(accounts, Number(accounts[a].minBalance))
    ensures Apply(GetMaxBalance(a), accounts) == Result(accounts, Number(accounts[a].maxBalance))
  {
  }

  /** Accounts other than a are as they were, and a has these fields. */
  ghost predicate OnlyOneIs(before: seq<Account>, after: seq<Account>, a: int, acc: Account) {
    && 0 <= a < |before| == |after| && after[a] == acc
    && forall i :: 0 <= i < |before| && i != a ==> after[i] == before[i]
  }

  /** A setting call changes its one field of one account, exactly when its conditions hold. */
  lemma SettersStore(a: int, x: int, accounts: seq<Account>)
    requires 0 <= a < |accounts|
    ensures var acc := accounts[a];
            var freeze, unfreeze := Apply(Freeze(a), accounts), Apply(Unfreeze(a), accounts);
            && freeze.reply == Done && unfreeze.reply == Done
            && OnlyOneIs(accounts, freeze.accounts, a, Account(acc.balance, acc.minBalance, acc.maxBalance, true))
            && OnlyOneIs(accounts, unfreeze.accounts, a, Account(acc.balance, acc.minBalance, acc.maxBalance, false))
    ensures var acc, r := accounts[a], Apply(SetMinBalance(a, x), accounts);
            if x > acc.maxBalance || acc.balance < x then r == Result(accounts, Oops)
            else r.reply == Done &&
                 OnlyOneIs(accounts, r.accounts, a, Account(acc.balance, x, acc.maxBalance, acc.frozen))
    ensures var acc, r := accounts[a], Apply(SetMaxBalance(a, x), accounts);
            if x < acc.minBalance || acc.balance > x then r == Result(accounts, Oops)
            else r.reply == Done &&
                 OnlyOneIs(accounts, r.accounts, a, Account(acc.balance, acc.minBalance, x, acc.frozen))
  {
  }

  // ---------- the shared memory, updated in place ----------

  class Memory {
    const accounts: array<Account>

    /** init_bank. */
    constructor (n: nat, maxBalance: int)
      ensures accounts[..] == Init(n, maxBalance) && fresh(accounts)
      ensures forall i :: 0 <= i < n ==> Init(n, maxBalance)[i] == Account(0, 0, maxBalance, false)
    {
      var a := new Account[n](_ => Account(0, 0, maxBalance, false));
      accounts := a;
    }

    method GetBalance(a: int) returns (reply: Reply)
      ensures Result(accounts[..], reply) == Apply(Op.GetBalance(a), accounts[..])
    {
      if a < 0 || a >= accounts.Length { return Oops; }
      return Number(accounts[a].balance);
    }

    method GetMinBalance(a: int) returns (reply: Reply)
      ensures Result(accounts[..], reply) == Apply(Op.GetMinBalance(a), accounts[..])
    {
      if a < 0 || a >= accounts.Length { return Oops; }
      return Number(accounts[a].minBalance);
    }

    method GetMaxBalance(a: int) returns (reply: Reply)
      ensures Result(accounts[..], reply) == Apply(Op.GetMaxBalance(a), accounts[..])
    {
      if a < 0 || a >= accounts.Length { return Oops; }
      return Number(accounts[a].maxBalance);
    }

    method FreezeAccount(a: int) returns (reply: Reply)
      modifies accounts
      ensures Result(accounts[..], reply) == Apply(Freeze(a), old(accounts[..]))
    {
      if a < 0 || a >= accounts.Length { return Oops; }
      accounts[a] := accounts[a].(frozen := true);
      return Done;
    }

    method UnfreezeAccount(a: int) returns (reply: Reply)
      modifies accounts
      ensures Result(accounts[..], reply) == Apply(Unfreeze(a), old(accounts[..]))
    {
      if a < 0 || a >= accounts.Length { return Oops; }
      accounts[a] := accounts[a].(frozen := false);
      return Done;
    }

    method TransferAmount(a: int, b: int, x: int) returns (reply: Reply)
      modifies accounts
      ensures Result(accounts[..], reply) == Apply(Transfer(a, b, x), old(accounts[..]))
    {
      var ok := !(a < 0 || a >= accounts.Length || b < 0 || b >= accounts.Length || x <= 0 ||
                  accounts[a].frozen || accounts[b].frozen ||
                  accounts[a].balance - x < accounts[a].minBalance ||
                  accounts[b].balance + x > accounts[b].maxBalance);
      if ok {
        accounts[a] := accounts[a].(balance := accounts[a].balance - x);
        accounts[b] := accounts[b].(balance := accounts[b].balance + x);
      }
      return if ok then Done else Oops;
    }

    method DepositAll(x: int) returns (reply: Reply)
      modifies accounts
      ensures Result(accounts[..], reply) == Apply(Op.DepositAll(x), old(accounts[..]))
    {
      var i := 0;
      while i < accounts.Length
        invariant 0 <= i <= accounts.Length
        invariant forall j :: 0 <= j < i ==> CanReceive(accounts[j], x)
        invariant accounts[..] == old(accounts[..])
      {
        if accounts[i].frozen || accounts[i].balance + x > accounts[i].maxBalance {
          assert !CanReceive(accounts[..][i], x);
          return Oops;
        }
        i := i + 1;
      }
      i := 0;
      while i < accounts.Length
        invariant 0 <= i <= accounts.Length
        invariant forall j :: 0 <= j < accounts.Length ==>
          accounts[j] == if j < i then AddTo(old(accounts[j]), x) else old(accounts[j])
      {
        accounts[i] := accounts[i].(balance := accounts[i].balance + x);
        i := i + 1;
      }
      assert accounts[..] == AddToAll(old(accounts[..]), x);
      return Done;
    }

    method WithdrawAll(x: int) returns (reply: Reply)
      modifies accounts
      ensures Result(accounts[..], reply) == Apply(Op.WithdrawAll(x), old(accounts[..]))
    {
      var i := 0;
      while i < accounts.Length
        invariant 0 <= i <= accounts.Length
        invariant forall j :: 0 <= j < i ==> CanTake(accounts[j], x)
        invariant accounts[..] == old(accounts[..])
      {
        if accounts[i].frozen || accounts[i].balance - x < accounts[i].minBalance {
          assert !CanTake(accounts[..][i], x);
          return Oops;
        }
        i := i + 1;
      }
      i := 0;
      while i < accounts.Length
        invariant 0 <= i <= accounts.Length
        invariant forall j :: 0 <= j < accounts.Length ==>
          accounts[j] == if j < i then AddTo(old(accounts[j]), -x) else old(accounts[j])
      {
        accounts[i] := accounts[i].(balance := accounts[i].balance - x);
        i := i + 1;
      }
      assert accounts[..] == AddToAll(old(accounts[..]), -x);
      return Done;
    }

    method SetMinBalance(a: int, x: int) returns (reply: Reply)
      modifies accounts
      ensures Result(accounts[..], reply) == Apply(Op.SetMinBalance(a, x), old(accounts[..]))
    {
      var ok := !(a < 0 || a >= accounts.Length || x > accounts[a].maxBalance || accounts[a].balance < x);
      if ok {
        accounts[a] := accounts[a].(minBalance := x);
      }
      return if ok then Done else Oops;
    }

    method SetMaxBalance(a: int, x: int) returns (reply: Reply)
      modifies accounts
      ensures Result(accounts[..], reply) == Apply(Op.SetMaxBalance(a, x), old(accounts[..]))
    {
      var ok := !(a < 0 || a >= accounts.Length || x < accounts[a].minBalance || accounts[a].balance > x);
      if ok {
        accounts[a] := accounts[a].(maxBalance := x);
      }
      return if ok then Done else Oops;
    }
  }

  // ---------- sequences of calls ----------

  function Replay(accounts: seq<Account>, ops: seq<Op>): (r: seq<Account>)
    ensures |r| == |accounts|
  {
    if ops == [] then accounts
    else Apply(ops[|ops| - 1], Replay(accounts, ops[..|ops| - 1])).accounts
  }

  function Replies(accounts: seq<Account>, ops: seq<Op>): (r: seq<Reply>)
    ensures |r| == |ops|
  {
    if ops == [] then []
    else
      Replies(accounts, ops[..|ops| - 1]) +
      [Apply(ops[|ops| - 1], Replay(accounts, ops[..|ops| - 1])).reply]
  }

  // ---------- balances stay within their limits ----------

  predicate InLimits(accounts: seq<Account>) {
    forall i :: 0 <= i < |accounts| ==> accounts[i].minBalance <= accounts[i].balance <= accounts[i].maxBalance
  }

  /** Neither bulk call checks the sign of its amount. */
  predicate NoNegativeBulk(op: Op) {
    op.DepositAll? || op.WithdrawAll? ==> op.x >= 0
  }

  lemma CallKeepsLimits(op: Op, accounts: seq<Account>)
    requires InLimits(accounts) && NoNegativeBulk(op)
    ensures InLimits(Apply(op, accounts).accounts)
  {
  }

  /** A deposit or a withdrawal of a negative amount takes an account of zeros out of its limits. */
  lemma NegativeBulkBreaksLimits()
    ensures var bank := [Account(0, 0, 0, false)];
            && InLimits(bank)
            && !InLimits(Apply(DepositAll(-1), bank).accounts)
            && !InLimits(Apply(WithdrawAll(-1), bank).accounts)
  {
    var bank := [Account(0, 0, 0, false)];
    assert Apply(DepositAll(-1), bank).accounts[0].balance == -1;
    assert Apply(WithdrawAll(-1), bank).accounts[0].balance == 1;
  }

  /** The call that undoes an accepted movement of money. */
  function Opposite(op: Op): Op
    requires op.Transfer? || op.DepositAll? || op.WithdrawAll?
  {
    match op
    case Transfer(a, b, x) => Transfer(b, a, x)
    case DepositAll(x) => WithdrawAll(x)
    case WithdrawAll(x) => DepositAll(x)
  }

  /** In a bank within its limits every accepted movement of money can be taken back: the opposite
      call is accepted and restores every account. */
  lemma OppositeRestores(op: Op, accounts: seq<Account>)
    requires op.Transfer? || op.DepositAll? || op.WithdrawAll?
    requires InLimits(accounts) && Apply(op, accounts).reply == Done
    ensures Apply(Opposite(op), Apply(op, accounts).accounts) == Result(accounts, Done)
  {
    var r := Apply(op, accounts).accounts;
    match op
    case Transfer(a, b, x) =>
      TransferMoves(a, b, x, accounts);
      TransferMoves(b, a, x, r);
    case DepositAll(x) =>
      BulkCallsReachAll(x, accounts);
      BulkCallsReachAll(x, r);
    case WithdrawAll(x) =>
      BulkCallsReachAll(x, accounts);
      BulkCallsReachAll(x, r);
  }

  ghost predicate AlwaysKeepsLimits(op: Op, n: nat) {
    forall accounts :: |accounts| == n && InLimits(accounts) ==> InLimits(Apply(op, accounts).accounts)
  }

  /** A call keeps every balance within its limits, whatever the accounts of a non-empty bank are,
      exactly when it is not a bulk call with a negative amount. */
  lemma KeepsLimitsExactly(op: Op, n: nat)
    requires n >= 1
    ensures AlwaysKeepsLimits(op, n) <==> NoNegativeBulk(op)
  {
    if NoNegativeBulk(op) {
      forall accounts | |accounts| == n && InLimits(accounts) ensures InLimits(Apply(op, accounts).accounts) {
        CallKeepsLimits(op, accounts);
      }
    } else {
      var zeros := seq(n, _ => Account(0, 0, 0, false));
      var after := Apply(op, zeros).accounts;
      assert after[0].balance != 0;
      assert !InLimits(after);
    }
  }

  /** From init_bank every sequence of calls without a negative bulk amount keeps all limits. */
  lemma {:induction false} RunsKeepLimits(n: nat, maxBalance: int, ops: seq<Op>)
    requires maxBalance >= 0
    requires forall i :: 0 <= i < |ops| ==> NoNegativeBulk(ops[i])
    ensures InLimits(Replay(Init(n, maxBalance), ops))
  {
    if ops == [] {
    } else {
      var rest := ops[..|ops| - 1];
      RunsKeepLimits(n, maxBalance, rest);
      CallKeepsLimits(ops[|ops| - 1], Replay(Init(n, maxBalance), rest));
    }
  }

  ghost predicate AllRunsInLimits(n: nat, maxBalance: int) {
    forall ops :: (forall i :: 0 <= i < |ops| ==> NoNegativeBulk(ops[i])) ==>
      InLimits(Replay(Init(n, maxBalance), ops))
  }

  /** A bank with accounts starts within its limits, and stays there, exactly when init_bank is
      given a maximum that is not negative. */
  lemma RunsKeepLimitsExactly(n: nat, maxBalance: int)
    requires n >= 1
    ensures AllRunsInLimits(n, maxBalance) <==> maxBalance >= 0
  {
    if maxBalance >= 0 {
      forall ops: seq<Op> | forall i :: 0 <= i < |ops| ==> NoNegativeBulk(ops[i])
        ensures InLimits(Replay(Init(n, maxBalance), ops))
      {
        RunsKeepLimits(n, maxBalance, ops);
      }
    } else {
      assert Replay(Init(n, maxBalance), [])[0].maxBalance < 0;
      assert !InLimits(Replay(Init(n, maxBalance), []));
    }
  }

  // ---------- the range of 32-bit arithmetic ----------

  const INT_MIN: int := -0x8000_0000
  const INT_MAX: int := 0x7fff_ffff

  /** Limits in [-limit, limit) and amounts up to most. */
  predicate SmallArguments(op: Op, limit: int, most: int) {
    match op
    case Transfer(_, _, x) => x <= most
    case DepositAll(x) => 0 <= x <= most
    case WithdrawAll(x) => 0 <= x <= most
    case SetMinBalance(_, x) => -limit <= x < limit
    case SetMaxBalance(_, x) => -limit <= x < limit
    case _ => true
  }

  predicate SmallLimits(accounts: seq<Account>, limit: int) {
    forall i :: 0 <= i < |accounts| ==> -limit <= accounts[i].minBalance && accounts[i].maxBalance < limit
  }

  // ---------- conservation of money ----------

  function Balance(acc: Account): int { acc.balance }

  ghost function Total(accounts: seq<Account>): int {
    Sum(accounts, Balance)
  }

  /** What one call adds to the total of a bank of n accounts. */
  function Flow(op: Op, reply: Reply, n: nat): int {
    if reply == Done && op.DepositAll? then n * op.x
    else if reply == Done && op.WithdrawAll? then -(n * op.x)
    else 0
  }

  lemma {:induction false} AddingToAll(accounts: seq<Account>, x: int)
    ensures Total(AddToAll(accounts, x)) == Total(accounts) + |accounts| * x
  {
    if accounts == [] {
    } else {
      AddingToAll(accounts[1..], x);
      assert AddToAll(accounts, x)[1..] == AddToAll(accounts[1..], x);
      assert |accounts| * x == (|accounts| - 1) * x + x;
    }
  }

  lemma TransferConserves(op: Op, accounts: seq<Account>)
    requires op.Transfer? && Accepts(op, accounts)
    ensures Total(Apply(op, accounts).accounts) == Total(accounts)
  {
    var taken := accounts[op.a := AddTo(accounts[op.a], -op.x)];
    SumUpdate(accounts, Balance, op.a, taken[op.a]);
    SumUpdate(taken, Balance, op.b, AddTo(taken[op.b], op.x));
  }

  lemma SettingConserves(op: Op, accounts: seq<Account>)
    requires op.Freeze? || op.Unfreeze? || op.SetMinBalance? || op.SetMaxBalance?
    requires Accepts(op, accounts)
    ensures Total(Apply(op, accounts).accounts) == Total(accounts)
  {
    SumUpdate(accounts, Balance, op.a, Apply(op, accounts).accounts[op.a]);
  }

  lemma BulkConserves(op: Op, accounts: seq<Account>)
    requires op.DepositAll? || op.WithdrawAll?
    requires Accepts(op, accounts)
    ensures Total(Apply(op, accounts).accounts) == Total(accounts) + Flow(op, Done, |accounts|)
  {
    if op.DepositAll? {
      AddingToAll(accounts, op.x);
    } else {
      AddingToAll(accounts, -op.x);
      assert |accounts| * -op.x == -(|accounts| * op.x);
    }
  }

  /** A call changes the total by its flow: a transfer, even from an account to itself, by nothing. */
  lemma CallConservesMoney(op: Op, accounts: seq<Account>)
    ensures var r := Apply(op, accounts);
            Total(r.accounts) == Total(accounts) + Flow(op, r.reply, |accounts|)
  {
    if Accepts(op, accounts) {
      if op.Transfer? {
        TransferConserves(op, accounts);
      } else if op.DepositAll? || op.WithdrawAll? {
        BulkConserves(op, accounts);
      } else if op.Freeze? || op.Unfreeze? || op.SetMinBalance? || op.SetMaxBalance? {
        SettingConserves(op, accounts);
      }
    }
  }

  /** The sum of all successful deposits minus all successful withdrawals. */
  function NetFlow(ops: seq<Op>, replies: seq<Reply>, n: nat): int
    requires |ops| == |replies|
  {
    if ops == [] then 0
    else
      NetFlow(ops[..|ops| - 1], replies[..|ops| - 1], n) + Flow(ops[|ops| - 1], replies[|ops| - 1], n)
  }

  lemma NewBankIsEmpty(n: nat, maxBalance: int)
    ensures Total(Init(n, maxBalance)) == 0
  {
    SumBounds(Init(n, maxBalance), Balance, 0, 0);
  }

  /** Over every sequence of calls the total changes by exactly n times the accepted bulk amounts;
      transfers, including those from an account to itself, and refused calls change nothing. */
  lemma {:induction false} RunsConserveMoney(accounts: seq<Account>, ops: seq<Op>)
    ensures Total(Replay(accounts, ops)) == Total(accounts) + NetFlow(ops, Replies(accounts, ops), |accounts|)
  {
    if ops == [] {
    } else {
      var rest := ops[..|ops| - 1];
      RunsConserveMoney(accounts, rest);
      CallConservesMoney(ops[|ops| - 1], Replay(accounts, rest));
      assert Replies(accounts, ops)[..|ops| - 1] == Replies(accounts, rest);
    }
  }

  /** The money in a bank is what init_bank started with, nothing, plus all accepted deposits minus
      all accepted withdrawals. */
  lemma MoneyIsNetFlow(n: nat, maxBalance: int, ops: seq<Op>)
    ensures Total(Replay(Init(n, maxBalance), ops)) == NetFlow(ops, Replies(Init(n, maxBalance), ops), n)
  {
    NewBankIsEmpty(n, maxBalance);
    RunsConserveMoney(Init(n, maxBalance), ops);
  }

  // ---------- frozen accounts ----------

  /** A frozen account stays frozen with the same balance over every sequence of calls, on any
      account, that does not unfreeze it. */
  lemma {:induction false} FrozenBalanceIsConstant(accounts: seq<Account>, ops: seq<Op>, a: nat)
    requires a < |accounts| && accounts[a].frozen
    requires forall i :: 0 <= i < |ops| ==> ops[i] != Unfreeze(a)
    ensures Replay(accounts, ops)[a].frozen && Replay(accounts, ops)[a].balance == accounts[a].balance
  {
    if ops == [] {
    } else {
      FrozenBalanceIsConstant(accounts, ops[..|ops| - 1], a);
    }
  }
}
