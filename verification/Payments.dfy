/** Who gains and who loses what in each operation, and that nobody else does. */
module Payments {
  import opened ChainTypes
  import opened VoteTally
  import opened ProxyForest
  import TallySteps
  import opened Economics
  import opened Ledger
  import opened EscrowLife

  function Shares(s: State, b: Name): int {
    if b in s.tally.accounts then s.tally.accounts[b].vesting else 0
  }

  /** Balances change by `coins` and vesting shares by `shares`, account by account. */
  ghost predicate Moves(s: State, r: State, coins: Name -> int, shares: Name -> int) {
    forall b {:trigger Balance(r, b)} {:trigger Shares(r, b)} ::
      Balance(r, b) == Balance(s, b) + coins(b) && Shares(r, b) == Shares(s, b) + shares(b)
  }

  function Nothing(): Name -> int {
    (_: Name) => 0
  }

  function Only(a: Name, amount: int): Name -> int {
    (b: Name) => if b == a then amount else 0
  }

  /** From one account to another, which may be the same. */
  function FromTo(from: Name, to: Name, amount: int): Name -> int {
    (b: Name) => (if b == to then amount else 0) - (if b == from then amount else 0)
  }

  lemma AdjustBalanceMoves(s: State, p: Params, a: Name, delta: int)
    requires p.config.interestBlocks > 0 && AdjustBalance(s, p, a, delta).Some?
    ensures var r := AdjustBalance(s, p, a, delta).value;
      Moves(s, r, Only(a, delta), Nothing()) && r == s.(tally := r.tally) && Balance(r, a) >= 0 && a in s.tally.accounts
  {
    hide AdjustOne, TurnsLeft;
  }

  lemma MovesTwice(s: State, m: State, r: State, f: Name -> int, g: Name -> int, h: Name -> int, i: Name -> int,
                   j: Name -> int, k: Name -> int)
    requires Moves(s, m, f, g) && Moves(m, r, h, i)
    requires forall b {:trigger j(b)} :: j(b) == f(b) + h(b)
    requires forall b {:trigger k(b)} :: k(b) == g(b) + i(b)
    ensures Moves(s, r, j, k)
  {
    hide Balance, Shares;
    forall b
      ensures Balance(r, b) == Balance(s, b) + j(b) && Shares(r, b) == Shares(s, b) + k(b)
    {
      assert Balance(m, b) == Balance(s, b) + f(b);
    }
  }

  /** A transfer takes from the sender, who has enough, and gives to the receiver. */
  lemma TransferMoves(s: State, p: Params, from: Name, to: Name, amount: int)
    requires p.config.interestBlocks > 0
    ensures var t := Transfer(s, p, from, to, amount);
      && (t.Some? ==>
        amount > 0 && Balance(s, from) >= amount && Moves(s, t.value, FromTo(from, to, amount), Nothing()))
      && (t.Some? ==> t.value == s.(tally := t.value.tally))
  {
    hide AdjustBalance;
    if Transfer(s, p, from, to, amount).Some? {
      var m := AdjustBalance(s, p, from, -amount).value;
      AdjustBalanceMoves(s, p, from, -amount);
      AdjustBalanceMoves(m, p, to, amount);
      MovesTwice(s, m, Transfer(s, p, from, to, amount).value, Only(from, -amount), Nothing(), Only(to, amount),
        Nothing(), FromTo(from, to, amount), Nothing());
    }
  }

  lemma VestMoves(s: State, a: Name, delta: int)
    requires Vest(s, a, delta).Some?
    ensures var r := Vest(s, a, delta).value;
      Moves(s, r, Only(a, -delta), Only(a, delta)) && r.totalVesting == s.totalVesting + delta
  {}

  /** Vesting takes coins from the sender and gives as many shares to the receiver, to whom the votes go. */
  lemma TransferToVestingMoves(s: State, p: Params, from: Name, to: Name, amount: int)
    requires p.config.interestBlocks > 0 && TransferToVesting(s, p, from, to, amount).Some?
    ensures var r, receiver := TransferToVesting(s, p, from, to, amount).value, if to == SELF then from else to;
      && amount > 0 && Moves(s, r, Only(from, -amount), Only(receiver, amount))
      && r == s.(tally := r.tally, totalVesting := s.totalVesting + amount)
  {
    hide AdjustBalance;
    var r, receiver := TransferToVesting(s, p, from, to, amount).value, if to == SELF then from else to;
    if receiver == from {
      VestMoves(s, from, amount);
    } else {
      var m := AdjustBalance(s, p, from, -amount).value;
      var n := AdjustBalance(m, p, receiver, amount).value;
      AdjustBalanceMoves(s, p, from, -amount);
      AdjustBalanceMoves(m, p, receiver, amount);
      MovesTwice(s, m, n, Only(from, -amount), Nothing(), Only(receiver, amount), Nothing(),
        FromTo(from, receiver, amount), Nothing());
      VestMoves(n, receiver, amount);
      MovesTwice(s, n, r, FromTo(from, receiver, amount), Nothing(), Only(receiver, -amount), Only(receiver, amount),
                 Only(from, -amount), Only(receiver, amount));
    }
  }

  /** A fee comes from the payer alone, leaves circulation and goes into the pools. */
  lemma PayFeeMoves(s: State, p: Params, a: Name, fee: int)
    requires Sound(p.config) && PayFee(s, p, a, fee).Some?
    ensures var r := PayFee(s, p, a, fee).value;
      && fee >= 0 && Moves(s, r, Only(a, -fee), Nothing())
      && r.supply == s.supply - fee && Pools(r.econ) == Pools(s.econ) + fee
      && r == s.(tally := r.tally, supply := r.supply, econ := r.econ)
  {
    hide AdjustBalance, AddFee;
    AddFeeConserves(s.econ, p.config, fee);
    if fee > 0 {
      var m := AdjustBalance(s, p, a, -fee).value;
      AdjustBalanceMoves(s, p, a, -fee);
      SameTallyMoves(s, m, PayFee(s, p, a, fee).value, Only(a, -fee), Nothing());
    }
  }

  lemma SameTallyMoves(s: State, m: State, r: State, f: Name -> int, g: Name -> int)
    requires Moves(s, m, f, g) && m.tally.accounts == r.tally.accounts
    ensures Moves(s, r, f, g)
  {
    forall b
      ensures Balance(r, b) == Balance(s, b) + f(b) && Shares(r, b) == Shares(s, b) + g(b)
    {
      assert Balance(m, b) == Balance(r, b) && Shares(m, b) == Shares(r, b);
    }
  }

  lemma NewAccountMoves(s: State, name: Name)
    requires name !in s.tally.accounts
    ensures Moves(s, s.(tally := TallySteps.WithAccount(s.tally, name)), Nothing(), Nothing())
  {}

  /** Creating an account takes the offered fee from the creator; what exceeds the required fee is the new
      account's first balance. */
  lemma CreateAccountMoves(s: State, p: Params, creator: Name, name: Name, fee: int, required: nat)
    requires Sound(p.config) && CreateAccount(s, p, creator, name, fee, required).Some?
    ensures var r := CreateAccount(s, p, creator, name, fee, required).value;
      && name !in s.tally.accounts && name in r.tally.accounts && fee >= required
      && Moves(s, r, (b: Name) => (if b == name then fee - required else 0) - (if b == creator then fee else 0),
        Nothing())
      && r.supply == s.supply - required && Pools(r.econ) == Pools(s.econ) + required
  {
    hide AdjustBalance, PayFee, TallySteps.WithAccount;
    var r := CreateAccount(s, p, creator, name, fee, required).value;
    var s1 := s.(tally := TallySteps.WithAccount(s.tally, name));
    var due: int := required;
    NewAccountMoves(s, name);
    Named(s.tally, name);
    PayFeeMoves(s1, p, creator, required);
    var s2 := PayFee(s1, p, creator, required).value;
    FeeKeepsNames(s1, p, creator, required);
    MovesTwice(s, s1, s2, Nothing(), Nothing(), Only(creator, -due), Nothing(), Only(creator, -due), Nothing());
    var net := (b: Name) => (if b == name then fee - required else 0) - (if b == creator then fee else 0);
    if fee == required {
      SameMoves(s, s2, Only(creator, -due), net, Nothing());
    } else {
      var extra := fee - required;
      var s3 := AdjustBalance(s2, p, name, extra).value;
      AdjustBalanceMoves(s2, p, name, extra);
      AdjustBalanceMoves(s3, p, creator, -extra);
      BalanceKeepsNames(s2, p, name, extra);
      BalanceKeepsNames(s3, p, creator, -extra);
      MovesTwice(s2, s3, r, Only(name, extra), Nothing(), Only(creator, -extra), Nothing(),
        FromTo(creator, name, extra), Nothing());
      MovesTwice(s, s2, r, Only(creator, -due), Nothing(), FromTo(creator, name, extra), Nothing(), net, Nothing());
    }
  }

  lemma SameMoves(s: State, r: State, f: Name -> int, g: Name -> int, h: Name -> int)
    requires Moves(s, r, f, h) && forall b {:trigger g(b)} :: f(b) == g(b)
    ensures Moves(s, r, g, h)
  {}

  lemma Named(t: Tally, name: Name)
    ensures name in TallySteps.WithAccount(t, name).accounts
  {}

  lemma BalanceKeepsNames(s: State, p: Params, a: Name, delta: int)
    requires p.config.interestBlocks > 0 && AdjustBalance(s, p, a, delta).Some?
    ensures AdjustBalance(s, p, a, delta).value.tally.accounts.Keys == s.tally.accounts.Keys
  {
    hide AdjustOne;
  }

  lemma FeeKeepsNames(s: State, p: Params, a: Name, fee: int)
    requires p.config.interestBlocks > 0 && PayFee(s, p, a, fee).Some?
    ensures PayFee(s, p, a, fee).value.tally.accounts.Keys == s.tally.accounts.Keys
  {
    hide AdjustBalance, AddFee;
    if fee > 0 {
      BalanceKeepsNames(s, p, a, -fee);
    }
  }

  /** A promotion payment is at most what was asked for and what is not locked. */
  lemma PayPromotionMoves(s: State, p: Params, to: Name, amount: int)
    requires Sound(p.config) && PayPromotion(s, p, to, amount).Some?
    ensures var r := PayPromotion(s, p, to, amount).value;
      var paid := s.econ.promotion - r.econ.promotion;
      && Available(s.econ, p.config, s.head).Some? && 0 < paid == Min(Available(s.econ, p.config, s.head).value, amount)
      && Moves(s, r, Only(to, paid), Nothing()) && r.supply == s.supply + paid
  {
    hide AdjustBalance, Available;
    var w := WithdrawPromotion(s.econ, p.config, amount, s.head).value;
    AdjustBalanceMoves(s.(econ := w.0), p, to, w.1);
    var m := AdjustBalance(s.(econ := w.0), p, to, w.1).value;
    SameTallyMoves(s.(econ := w.0), m, PayPromotion(s, p, to, amount).value, Only(to, w.1), Nothing());
    SameStart(s, s.(econ := w.0), PayPromotion(s, p, to, amount).value, Only(to, w.1), Nothing());
  }

  lemma SameStart(s: State, m: State, r: State, f: Name -> int, g: Name -> int)
    requires Moves(m, r, f, g) && m.tally.accounts == s.tally.accounts
    ensures Moves(s, r, f, g)
  {
    forall b
      ensures Balance(r, b) == Balance(s, b) + f(b) && Shares(r, b) == Shares(s, b) + g(b)
    {
      assert Balance(m, b) == Balance(s, b) && Shares(m, b) == Shares(s, b);
    }
  }

  /** The producer alone is rewarded, in vesting shares, out of the mining pools. */
  lemma PayProducerMoves(s: State, p: Params, producer: Name)
    requires Sound(p.config) && NonNegative(s.econ) && PayProducer(s, p, producer).Some?
    ensures var r := PayProducer(s, p, producer).value;
      var reward := Pools(s.econ) - Pools(r.econ);
      && reward >= 0 && Moves(s, r, Nothing(), Only(producer, reward))
      && r.supply == s.supply + reward && r.totalVesting == s.totalVesting + reward
  {
    hide AdjustOne, TurnsLeft, WithdrawMining;
    var nominator := match s.tally.x.witnesses[producer].role
      case Timeshare => s.timeshareWeight
      case Top => s.topWeight
      case Unscheduled => 0;
    WithdrawMiningConserves(s.econ, p.config, s.head, nominator, s.payFactor);
  }

  /** A due conversion turns shares of one account into as many coins of it. */
  lemma ConvertVestingMoves(s: State, a: Name)
    requires ConvertVesting(s, a).Some?
    ensures var r := ConvertVesting(s, a).value;
      var amount := s.totalVesting - r.totalVesting;
      && Moves(s, r, Only(a, amount), Only(a, -amount)) && amount <= Shares(s, a)
      && r.tally.accounts[a].power.withdrawn == s.tally.accounts[a].power.withdrawn + amount
  {}

  /** Clearing empties the null account and takes what it held out of the supply. */
  lemma ClearNullMoves(s: State, p: Params)
    requires p.config.interestBlocks > 0 && ClearNull(s, p).Some? && Balance(s, NULL_ACCOUNT) >= 0
      && Shares(s, NULL_ACCOUNT) >= 0
    ensures var r := ClearNull(s, p).value;
      && Balance(r, NULL_ACCOUNT) == 0 && Shares(r, NULL_ACCOUNT) == 0
      && Moves(s, r, Only(NULL_ACCOUNT, -Balance(s, NULL_ACCOUNT)), Only(NULL_ACCOUNT, -Shares(s, NULL_ACCOUNT)))
      && r.supply == s.supply - Balance(s, NULL_ACCOUNT) - Shares(s, NULL_ACCOUNT) && r.econ == s.econ
  {
    hide AdjustOne, TurnsLeft;
  }
}
