/** Inputs at which the code does not keep a promise; the exact conditions are with the parts they concern. */
module Failures {
  import opened ChainTypes
  import opened BlockIds
  import ForkDatabase
  import Switch = ForkSwitch
  import Slots
  import Sync
  import opened VoteTally
  import opened Sums
  import opened ProxyForest
  import ProxyChange
  import FromScratch
  import Economics
  import Ledger
  import LedgerInvariants
  import LedgerSteps
  import LedgerRuns
  import Irreversible
  import IrreversibleLog
  import LogRuns
  import Interests
  import EscrowLife
  import Payments

  // ----- fork switches that end on neither branch -----

  /** Rules for examples: a block's content says how far it raises the last irreversible block, and whether
      it then throws. */
  function Reached(c: Switch.Chain, b: BlockId): nat
    requires b.BlockId?
  {
    var lib := match b.content case 7 => Num(b) - 1 case 8 => Num(b) case 9 => Num(b) - 2 case _ => 0;
    if lib > c.lib then lib else c.lib
  }

  predicate Accepts(c: Switch.Chain, b: BlockId) {
    b.BlockId? && b.previous == c.head && c.lib <= Num(c.head)
  }

  function ExampleApply(c: Switch.Chain, b: BlockId): Option<Switch.Chain> {
    if Accepts(c, b) && b.content < 8 then Some(Switch.Chain(b, Reached(c, b), 0)) else None
  }

  function ExampleLeft(c: Switch.Chain, b: BlockId): Switch.Chain {
    if Accepts(c, b) then Switch.Chain(b, Reached(c, b), 1) else c
  }

  predicate ExampleTrims(c: Switch.Chain, b: BlockId) {
    Accepts(c, b)
  }

  const RULES: Switch.Rules := Switch.Rules(ExampleApply, ExampleLeft, ExampleTrims)

  lemma ExampleLawful()
    ensures Switch.Lawful(RULES)
  {}

  const A: BlockId := BlockId(NoBlock, 0)
  const B: BlockId := BlockId(A, 0)
  const X: BlockId := BlockId(NoBlock, 1)
  const Y: BlockId := BlockId(X, 1)
  const GENESIS: Switch.Chain := Switch.Chain(NoBlock, 0, 0)

  /** A fork database whose head x is the first block of the new branch. */
  ghost predicate Offers(index: seq<ForkDatabase.ForkItem>, x: ForkDatabase.ForkItem, xs: seq<ForkDatabase.ForkItem>,
                         ys: seq<ForkDatabase.ForkItem>, first: seq<BlockId>, second: seq<BlockId>) {
    && second != [] && ForkDatabase.WellFormed(ForkDatabase.AliveIn(index, x))
    && Switch.Found(index, x, second[0], xs, ys)
    && xs[0] == x && Switch.Ids(xs) == first && Switch.Ids(ys) == second
  }

  /** The switch fails and leaves the chain at r, which is not where it was. */
  ghost predicate EndsAt(undo: seq<Switch.Chain>, c: Switch.Chain, index: seq<ForkDatabase.ForkItem>,
                         x: ForkDatabase.ForkItem,
                         xs: seq<ForkDatabase.ForkItem>, ys: seq<ForkDatabase.ForkItem>, r: Switch.Chain) {
    && Switch.Lawful(RULES) && Switch.History(RULES, undo + [c]) && ys != [] && |ys| <= Num(x.id)
    && Switch.SwitchedAs(RULES, undo, c, index, x, xs, ys, Switch.Threw, r) && r != c
  }

  lemma EndsSo(undo: seq<Switch.Chain>, c: Switch.Chain, index: seq<ForkDatabase.ForkItem>, x: ForkDatabase.ForkItem,
               xs: seq<ForkDatabase.ForkItem>, ys: seq<ForkDatabase.ForkItem>, r: Switch.Chain)
    requires Switch.Lawful(RULES) && Switch.History(RULES, undo + [c]) && (undo != [] ==> Num(undo[0].head) >= c.lib)
    requires Offers(index, x, xs, ys, Switch.Ids(xs), Switch.Ids(ys)) && Switch.Fork(Switch.Ids(xs), Switch.Ids(ys))
    requires ys[0].id == c.head && |xs| == |ys| + 1 && |ys| <= Num(x.id) && x.id.BlockId? && x.id.previous != c.head
      && r != c
    requires Switch.Ends(RULES, undo, c, Switch.Ids(xs), Switch.Ids(ys),
      ForkDatabase.Depth(ForkDatabase.Held(index), x),
      Switch.DepthOld(RULES, undo, Switch.Ids(xs), |ys|, index, x.id, ys[0]), false, r)
    ensures EndsAt(undo, c, index, x, xs, ys, r)
  {
    hide Num, Switch.Lawful, Switch.History, Switch.Ends, Switch.AllOrNothing, Switch.Settles, Switch.DepthOld,
      ForkDatabase.Depth, Switch.Ids, Switch.Found;
    var depthNew := ForkDatabase.Depth(ForkDatabase.Held(index), x);
    var depthOld := Switch.DepthOld(RULES, undo, Switch.Ids(xs), |ys|, index, x.id, ys[0]);
    Switch.AllOrNothingIff(RULES, undo, c, Switch.Ids(xs), Switch.Ids(ys), depthNew, depthOld, false, r);
    Switch.Overtaken(RULES, undo, c, index, x, xs, ys, depthNew);
  }

  /** If the branches part at genesis, the fork database can be popped along both, and not beyond. */
  lemma GenesisDepths(undo: seq<Switch.Chain>, index: seq<ForkDatabase.ForkItem>, x: ForkDatabase.ForkItem,
                      xs: seq<ForkDatabase.ForkItem>, ys: seq<ForkDatabase.ForkItem>, first: seq<BlockId>,
                        second: seq<BlockId>)
    requires Offers(index, x, xs, ys, first, second) && |xs| == |ys| + 1 == |undo| + 1 && undo[0] == GENESIS
    requires Switch.Branch(first) && Switch.Parent(first) == NoBlock && Num(x.id) == |xs|
      && Num(ForkDatabase.Last(ys).id) == 1
    requires Switch.Replay(RULES, GENESIS, first).None? && Switch.Stop(RULES, GENESIS, first).2.lib <= 1
    ensures ForkDatabase.Depth(ForkDatabase.Held(index), x) >= |ys|
    ensures Switch.DepthOld(RULES, undo, first, |ys|, index, x.id, ys[0]) == |ys| - 1
  {
    hide Num, Switch.Replay, Switch.Stop, ForkDatabase.Depth, ForkDatabase.Nearest, Switch.Floor, Switch.Remaining;
    ExampleLawful();
    Switch.HeadPops(index, x, xs);
    Switch.FloorLow(RULES, GENESIS, first, 1, 1);
    Switch.OldDepth(RULES, undo, index, x, xs, ys, second[0]);
    GenesisNotHeld(index, x, ForkDatabase.Last(ys));
  }

  lemma GenesisNotHeld(index: seq<ForkDatabase.ForkItem>, x: ForkDatabase.ForkItem, y: ForkDatabase.ForkItem)
    requires ForkDatabase.WellFormed(ForkDatabase.AliveIn(index, x)) && y in ForkDatabase.AliveIn(index, x)
      && Num(y.id) == 1
    ensures y.prev == null || y.prev !in index
  {
    if y.prev != null && y.prev in index {
      HeldParent(index, x, y);
    }
  }

  lemma HeldParent(index: seq<ForkDatabase.ForkItem>, x: ForkDatabase.ForkItem, y: ForkDatabase.ForkItem)
    requires ForkDatabase.WellFormed(ForkDatabase.AliveIn(index, x)) && y in ForkDatabase.AliveIn(index, x)
    requires y.prev != null && y.prev in index
    ensures Num(y.id) >= 2
  {
    assert ForkDatabase.Linked(y);
    assert y.prev in ForkDatabase.AliveIn(index, x) && ForkDatabase.Linked(y.prev);
  }

  /** A branch from below the undo history: block 2 has made block 1 irreversible, and a branch of three blocks from
      genesis ends at the oldest state, that after block 1. */
  lemma BranchBelowHistory(index: seq<ForkDatabase.ForkItem>, x: ForkDatabase.ForkItem, xs: seq<ForkDatabase.ForkItem>,
                           ys: seq<ForkDatabase.ForkItem>)
    requires Offers(index, x, xs, ys, [BlockId(Y, 1), Y, X], [BlockId(A, 7), A])
    ensures var c1, c2 := Switch.Chain(A, 0, 0), Switch.Chain(BlockId(A, 7), 1, 0);
      && RULES.apply(GENESIS, A) == Some(c1) && RULES.apply(c1, c2.head) == Some(c2)
      && EndsAt(Switch.Commit([GENESIS, c1], c2.lib), c2, index, x, xs, ys, c1)
  {
    ExampleLawful();
    Switch.HeadPops(index, x, xs);
    assert x.id == Switch.Ids(xs)[0] == BlockId(Y, 1) && ys[0].id == Switch.Ids(ys)[0];
    assert Num(A) == 1 && Num(BlockId(A, 7)) == 2 && Num(X) == 1 && Num(Y) == 2 && Num(BlockId(Y, 1)) == 3;
    assert [GENESIS, Switch.Chain(A, 0, 0)][1..] == [Switch.Chain(A, 0, 0)];
    EndsSo([Switch.Chain(A, 0, 0)], Switch.Chain(BlockId(A, 7), 1, 0), index, x, xs, ys, Switch.Chain(A, 0, 0));
  }

  /** The old branch of two blocks from genesis. */
  lemma OldBranch()
    ensures Switch.History(RULES, [GENESIS, Switch.Chain(A, 0, 0)] + [Switch.Chain(B, 0, 0)])
  {}

  /** The third block of the new branch throws after it has made the first one irreversible: the chain stays there. */
  lemma ThrowingBlockCommits(index: seq<ForkDatabase.ForkItem>, x: ForkDatabase.ForkItem,
                             xs: seq<ForkDatabase.ForkItem>,
                             ys: seq<ForkDatabase.ForkItem>)
    requires Offers(index, x, xs, ys, [BlockId(Y, 9), Y, X], [B, A])
    ensures EndsAt([GENESIS, Switch.Chain(A, 0, 0)], Switch.Chain(B, 0, 0), index, x, xs, ys, Switch.Chain(X, 0, 0))
  {
    StopsAtThird(BlockId(Y, 9), Y, 0, 1);
    ThreeAgainstTwo(index, x, xs, ys, BlockId(Y, 9), Y, 0);
  }

  /** The third block throws, and the second, which applied, has made the first one irreversible. */
  lemma AppliedBlockCommits(index: seq<ForkDatabase.ForkItem>, x: ForkDatabase.ForkItem, xs: seq<ForkDatabase.ForkItem>,
                            ys: seq<ForkDatabase.ForkItem>)
    requires Offers(index, x, xs, ys, [BlockId(BlockId(X, 7), 9), BlockId(X, 7), X], [B, A])
    ensures EndsAt([GENESIS, Switch.Chain(A, 0, 0)], Switch.Chain(B, 0, 0), index, x, xs, ys, Switch.Chain(X, 0, 0))
  {
    var raiser := BlockId(X, 7);
    StopsAtThird(BlockId(raiser, 9), raiser, 1, 1);
    ThreeAgainstTwo(index, x, xs, ys, BlockId(raiser, 9), raiser, 1);
  }

  lemma ThreeAgainstTwo(index: seq<ForkDatabase.ForkItem>, x: ForkDatabase.ForkItem, xs: seq<ForkDatabase.ForkItem>,
                        ys: seq<ForkDatabase.ForkItem>, z: BlockId, y: BlockId, lib: nat)
    requires z.BlockId? && z.previous == y && y.BlockId? && y.previous == X
      && Offers(index, x, xs, ys, [z, y, X], [B, A])
    requires Switch.Replay(RULES, GENESIS, [z, y, X]).None?
    requires Switch.Stop(RULES, GENESIS, [z, y, X]) == (2, Switch.Chain(y, lib, 0), Switch.Chain(z, 1, 1))
    ensures EndsAt([GENESIS, Switch.Chain(A, 0, 0)], Switch.Chain(B, 0, 0), index, x, xs, ys, Switch.Chain(X, 0, 0))
  {
    hide ForkDatabase.Depth, Switch.DepthOld, Switch.Stop, ForkDatabase.Nearest, ForkDatabase.Path;
    ExampleLawful();
    OldBranch();
    var undo, c, first := [GENESIS, Switch.Chain(A, 0, 0)], Switch.Chain(B, 0, 0), [z, y, X];
    assert Num(A) == 1 && Num(B) == 2 && Num(X) == 1 && Num(y) == 2 && Num(z) == 3;
    GenesisDepths(undo, index, x, xs, ys, first, [B, A]);
    assert first[2..] == [X];
    assert Switch.Replay(RULES, GENESIS, [X]) == Some(Switch.Chain(X, 0, 0));
    EndsSo(undo, c, index, x, xs, ys, Switch.Chain(X, 0, 0));
  }

  lemma StopsAtThird(z: BlockId, y: BlockId, libBefore: nat, libAfter: nat)
    requires z.BlockId? && z.previous == y && y.BlockId? && y.previous == X && y.content < 8 && z.content == 9
    requires libBefore == (if y.content == 7 then 1 else 0) && libAfter == 1
    ensures Switch.Replay(RULES, GENESIS, [z, y, X]).None?
    ensures Switch.Stop(RULES, GENESIS, [z, y, X]) == (2, Switch.Chain(y, libBefore, 0), Switch.Chain(z, libAfter, 1))
  {
    var ids := [z, y, X];
    assert ids[1..] == [y, X] && [y, X][1..] == [X] && [X][1..] == [];
    assert Num(X) == 1 && Num(y) == 2 && Num(z) == 3;
    assert Switch.Replay(RULES, GENESIS, [X]) == Some(Switch.Chain(X, 0, 0));
    assert Switch.Replay(RULES, GENESIS, [y, X]) == Some(Switch.Chain(y, libBefore, 0));
    assert Switch.Applied(RULES, GENESIS, ids) == 2;
  }

  /** A fork from genesis with nothing irreversible: the fork database cannot be popped below block 1, so when the
      last block of the new branch throws the chain stays on the block before. */
  lemma GenesisForkSticks(index: seq<ForkDatabase.ForkItem>, x: ForkDatabase.ForkItem, xs: seq<ForkDatabase.ForkItem>,
                          ys: seq<ForkDatabase.ForkItem>)
    requires Offers(index, x, xs, ys, [BlockId(X, 9), X], [A])
    ensures EndsAt([GENESIS], Switch.Chain(A, 0, 0), index, x, xs, ys, Switch.Chain(X, 0, 0))
  {
    hide ForkDatabase.Depth, Switch.DepthOld, Switch.Stop, ForkDatabase.Nearest, ForkDatabase.Path;
    ExampleLawful();
    var first, z := [BlockId(X, 9), X], BlockId(X, 9);
    assert Num(A) == 1 && Num(X) == 1 && Num(z) == 2;
    StopsAtSecond();
    GenesisDepths([GENESIS], index, x, xs, ys, first, [A]);
    assert first[1..] == [X];
    assert Switch.Replay(RULES, GENESIS, [X]) == Some(Switch.Chain(X, 0, 0));
    EndsSo([GENESIS], Switch.Chain(A, 0, 0), index, x, xs, ys, Switch.Chain(X, 0, 0));
  }

  lemma StopsAtSecond()
    ensures var z := BlockId(X, 9);
      && Switch.Replay(RULES, GENESIS, [z, X]).None?
      && Switch.Stop(RULES, GENESIS, [z, X]) == (1, Switch.Chain(X, 0, 0), Switch.Chain(z, 0, 1))
  {
    var ids, z := [BlockId(X, 9), X], BlockId(X, 9);
    assert ids[1..] == [X] && [X][1..] == [];
    assert Num(X) == 1 && Num(z) == 2;
    assert Switch.Replay(RULES, GENESIS, [X]) == Some(Switch.Chain(X, 0, 0));
    assert Switch.Applied(RULES, GENESIS, ids) == 1;
  }

  /** A block that throws after it has made itself irreversible stays half-applied. */
  lemma HalfAppliedBlockStays()
    ensures var c, b := Switch.Chain(A, 0, 0), BlockId(A, 8);
      Switch.Lawful(RULES) && Switch.Extends(RULES, c, b, Switch.Threw, Switch.Chain(b, 2, 1))
        && Switch.Chain(b, 2, 1) != c
  {
    ExampleLawful();
    assert Num(BlockId(A, 8)) == 2;
  }

  // ----- the first block can shift the schedule -----

  /** Intervals of three seconds from a genesis at second 4: a first block at second 9 moves second 13 from the
      third slot to the second, counted from the same start. */
  lemma FirstBlockShifts()
    ensures var c := Slots.Clock(0, 4, 0);
      var d := Slots.Tick(c, 3, 9);
      && Slots.InTurn(c, 3, 9) && Slots.SlotAt(d, 3, 13) > 0
      && d.aslot + Slots.SlotAt(d, 3, 13) == 2 && c.aslot + Slots.SlotAt(c, 3, 13) == 3
  {}

  // ----- a block reported missing is lost -----

  const ITEM: Sync.ItemId := Sync.ItemId(1, 7)
  const EMPTY: Sync.Net := Sync.Net(map[], {}, [])
  const OWING: Sync.Peer := Sync.NEW_PEER.(needSync := true, toGet := [ITEM])

  /** One peer offers block 1, is asked for it, and does not have it. */
  lemma ReportedMissingIsLost()
    ensures var es := [Sync.Connect(1), Sync.Start(1, []), Sync.Inventory(1, [ITEM], 0, {}, true), Sync.Fetch([1], 1),
      Sync.Missing(1, ITEM, true)];
      Sync.SyncOk(EMPTY) && Sync.Lost(Sync.AfterAll(EMPTY, es), ITEM)
  {
    var es := [Sync.Connect(1), Sync.Start(1, []), Sync.Inventory(1, [ITEM], 0, {}, true), Sync.Fetch([1], 1),
      Sync.Missing(1, ITEM, true)];
    var n1 := Sync.Happens(EMPTY, es[0]);
    var n2 := Sync.Happens(n1, es[1]);
    var n3 := Sync.Happens(n2, es[2]);
    assert n3 == Sync.Net(map[1 := OWING], {}, []);
    AskedFor();
    var n4 := Sync.Happens(n3, es[3]);
    var n5 := Sync.Happens(n4, es[4]);
    assert es[0..] == es && es[5..] == [];
    OneEvent(EMPTY, es, 0);
    OneEvent(n1, es, 1);
    OneEvent(n2, es, 2);
    OneEvent(n3, es, 3);
    OneEvent(n4, es, 4);
    assert Sync.AfterAll(n5, es[5..]) == n5;
  }

  lemma AskedFor()
    ensures Sync.Fetched(Sync.Net(map[1 := OWING], {}, []), [1], 1)
      == Sync.Net(map[1 := OWING.(requested := {ITEM})], {ITEM}, [])
  {
    var n := Sync.Net(map[1 := OWING], {}, []);
    var items := Sync.Picked(n.peers[1].toGet, 0, n.active + Sync.ItemsOf(n.received), [], 1);
    assert items == [ITEM] && Sync.ItemsOf(items) == {ITEM};
    var m := Sync.Request(n, 1, items);
    assert m == Sync.Net(map[1 := OWING.(requested := {ITEM})], {ITEM}, []);
    assert [1][1..] == [] && Sync.Fetched(m, [], 1) == m;
  }

  lemma OneEvent(n: Sync.Net, es: seq<Sync.Event>, i: nat)
    requires i < |es|
    ensures Sync.AfterAll(n, es[i..]) == Sync.AfterAll(Sync.Happens(n, es[i]), es[i + 1..])
  {
    hide Sync.Happens;
    assert es[i..][1..] == es[i + 1..];
  }

  // ----- recalculating votes doubles proxied amounts -----

  const PAIR: seq<LedgerRuns.Founder> := [LedgerRuns.Founder(2, 5), LedgerRuns.Founder(3, 0)]

  /** An account with five coins that has set a proxy: its proxy is credited with ten. */
  lemma RecalculationDoubles()
    ensures var t := ProxyChange.SetProxy(LedgerRuns.Founded(PAIR), 2, 3);
      && t.Some? && Exact(t.value)
      && Proxied(t.value.x, 3, 0) == 5 && Proxied(FromScratch.Recalculated(t.value).x, 3, 0) == 10
      && !SlotsExact(FromScratch.Recalculated(t.value))
  {
    hide Acyclic, VotersAreRoots, VotesExact, LedgerRuns.Founded, ProxyChange.SetProxy, FromScratch.Resend,
      FundsBelow, Hop;
    LedgerRuns.FoundedGood(PAIR);
    var t0 := LedgerRuns.Founded(PAIR);
    FoundedPair(PAIR[0], PAIR[1]);
    assert PAIR == [PAIR[0], PAIR[1]];
    ProxyAccepted(t0);
    ProxyChange.SetProxyKeepsExact(t0, 2, 3);
    var t := ProxyChange.SetProxy(t0, 2, 3).value;
    FiveBelow(t);
    FromScratch.ResendSlots(t.ids, t.accounts, t.e, FromScratch.ZeroVotes(t.x), 3, 0);
    assert Proxied(FromScratch.ZeroVotes(t.x), 3, 0) == Proxied(t.x, 3, 0);
  }

  /** Genesis with two accounts. */
  lemma FoundedPair(f: LedgerRuns.Founder, h: LedgerRuns.Founder)
    requires f.name != h.name
    ensures var t := LedgerRuns.Founded([f, h]);
      && t.ids == [f.name, h.name] && t.accounts.Keys == {f.name, h.name}
      && t.e.proxy == map[f.name := SELF, h.name := SELF]
      && t.accounts[f.name].balance == f.balance && t.accounts[f.name].vesting == 0
      && t.accounts[h.name].balance == h.balance && t.accounts[h.name].vesting == 0
    ensures LedgerRuns.FoundersTotal([f, h]) == f.balance + h.balance
  {
    assert [f, h][..1] == [f] && [f][..0] == [];
    var none: seq<LedgerRuns.Founder> := [];
    assert LedgerRuns.Founded(none) == Tally([], map[], Electors(map[], {}, 0), Index(map[], map[]))
      && LedgerRuns.FoundersTotal(none) == 0;
    var one := LedgerRuns.Founded([f]);
    assert one.ids == [f.name] && one.accounts.Keys == {f.name} && one.e.proxy == map[f.name := SELF];
    assert one.accounts[f.name].balance == f.balance && one.accounts[f.name].vesting == 0;
    assert LedgerRuns.FoundersTotal([f]) == f.balance;
  }

  lemma ProxyAccepted(t: Tally)
    requires t.accounts.Keys == {2, 3} && t.e.proxy == map[2 := SELF, 3 := SELF]
    ensures var r := ProxyChange.SetProxy(t, 2, 3);
      && r.Some? && r.value.ids == t.ids && r.value.e.proxy == map[2 := 3, 3 := SELF] && r.value.accounts.Keys == {2, 3}
      && Total(r.value.accounts[2]) == Total(t.accounts[2]) && Total(r.value.accounts[3]) == Total(t.accounts[3])
  {
    hide AdjustAll;
  }

  lemma FiveBelow(t: Tally)
    requires t.ids == [2, 3] && t.accounts.Keys == {2, 3} && t.e.proxy == map[2 := 3, 3 := SELF]
      && Total(t.accounts[2]) == 5
    ensures FundsBelow(t.ids, t.accounts, t.e.proxy, 1, 3) == 5
  {
    var f := FundsAt(t.accounts, t.e.proxy, 1, 3);
    assert Hop(t.e.proxy, 2, 1) == 3 && Hop(t.e.proxy, 3, 1) == SELF;
    assert f(2) == 5 && f(3) == 0;
    assert t.ids[1..] == [3] && [3][1..] == [];
    assert Sum([3], f) == 0 && Sum(t.ids, f) == 5;
  }

  // ----- the check of invariants fails after a burn -----

  /** Genesis creates the null account empty. One transfer to it, and clearing it, makes the fourth assertion fail. */
  lemma BurnFailsCheck(p: Ledger.Params, totalSupply: int)
    requires Economics.Sound(p.config) && p.config.coinbaseBlocks < TWO_128 && 5 <= totalSupply < Economics.TWO_64
    ensures var g := LedgerRuns.Genesis(p, [LedgerRuns.Founder(NULL_ACCOUNT, 0), LedgerRuns.Founder(2, 5)], 2, 7,
      totalSupply, 0, 0);
      !LedgerRuns.Validates(LedgerRuns.After(g, p, [Ledger.TransferStep(2, NULL_ACCOUNT, 5), Ledger.ClearStep]),
        totalSupply)
  {
    hide LedgerInvariants.Good, LedgerRuns.Validates, LedgerRuns.Genesis, Ledger.Transfer, Ledger.ClearNull,
      Ledger.Cleared;
    var founders := [LedgerRuns.Founder(NULL_ACCOUNT, 0), LedgerRuns.Founder(2, 5)];
    var steps := [Ledger.TransferStep(2, NULL_ACCOUNT, 5), Ledger.ClearStep];
    var g := LedgerRuns.Genesis(p, founders, 2, 7, totalSupply, 0, 0);
    FoundedPair(founders[0], founders[1]);
    LedgerRuns.GenesisGood(p, founders, 2, 7, totalSupply, 0, 0);
    Burned(p, totalSupply);
    var s1 := Ledger.Transfer(g, p, 2, NULL_ACCOUNT, 5).value;
    LedgerSteps.GoodIsPlayable(g, p);
    LedgerSteps.StepConserves(g, p, steps[0]);
    LedgerSteps.GoodIsPlayable(s1, p);
    TwoSteps(g, s1, p, steps[0], steps[1]);
    LedgerRuns.CheckHoldsIff(p, founders, 2, 7, totalSupply, 0, 0, steps);
  }

  lemma TwoSteps(s: Ledger.State, t: Ledger.State, p: Ledger.Params, a: Ledger.Step, b: Ledger.Step)
    requires Ledger.Playable(s, p) && Ledger.Apply(s, p, a) == Some(t) && Ledger.Playable(t, p)
      && Ledger.Apply(t, p, b).Some?
    ensures LedgerRuns.LostIn(s, p, [a, b]) == LedgerSteps.Lost(s, a) + LedgerSteps.Lost(t, b)
  {
    hide Ledger.Apply, Ledger.Playable, LedgerSteps.Lost;
    assert [a, b][1..] == [b] && [b][1..] == [];
    assert LedgerRuns.Next(s, p, a) == t;
    var none: seq<Ledger.Step> := [];
    assert LedgerRuns.LostIn(LedgerRuns.Next(t, p, b), p, none) == 0;
    assert LedgerRuns.LostIn(t, p, [b]) == LedgerSteps.Lost(t, b);
  }

  /** In the example the transfer and the clearing succeed, and five coins are burned. */
  lemma Burned(p: Ledger.Params, totalSupply: int)
    requires Economics.Sound(p.config)
    ensures var g := LedgerRuns.Genesis(p, [LedgerRuns.Founder(NULL_ACCOUNT, 0), LedgerRuns.Founder(2, 5)], 2, 7,
      totalSupply, 0, 0);
      var t := Ledger.Transfer(g, p, 2, NULL_ACCOUNT, 5);
      && t.Some? && Ledger.ClearNull(t.value, p).Some? && Ledger.Cleared(t.value) == 5
  {
    hide AdjustOne, Ledger.TurnsLeft, Economics.Initial, LedgerRuns.Founded, LedgerRuns.FoundersTotal;
    var founders := [LedgerRuns.Founder(NULL_ACCOUNT, 0), LedgerRuns.Founder(2, 5)];
    FoundedPair(founders[0], founders[1]);
    var g := LedgerRuns.Genesis(p, founders, 2, 7, totalSupply, 0, 0);
    assert g.supply == 5;
    var t := Ledger.Transfer(g, p, 2, NULL_ACCOUNT, 5);
    assert t.Some?;
    assert t.value.tally.accounts[NULL_ACCOUNT].balance == 5 && t.value.tally.accounts[NULL_ACCOUNT].vesting == 0
      && t.value.supply == 5;
  }

  // ----- paying interest throws -----

  const TRIO: seq<LedgerRuns.Founder> :=
    [LedgerRuns.Founder(3, 0), LedgerRuns.Founder(NULL_ACCOUNT, 0), LedgerRuns.Founder(2, 5)]

  /** n rounds from block h on: a block, and the interest of the accounts whose turn it is. */
  function Rounds(h: nat, n: nat): seq<Ledger.Step>
    decreases n
  {
    if n == 0 then [] else [Ledger.BlockStep(h + 1), Ledger.InterestStep] + Rounds(h + 1, n - 1)
  }

  /** The last turn of account 0 in which interest is not yet paid. */
  function LastFree(p: Ledger.Params): nat
    requires p.config.interestBlocks > 0
  {
    p.config.interestDelay - p.config.interestDelay % p.config.interestBlocks
  }

  function SendThere(): Ledger.Step {
    Ledger.TransferStep(2, 3, 5)
  }

  function SendBack(): Ledger.Step {
    Ledger.TransferStep(3, 2, 5)
  }

  /**
   For every period and delay, from a genesis: five coins are sent to an account right after its last turn without
   interest, and back one block later. After all the other rounds of the period its considered holding is
   negative, and its turn throws.
   */
  lemma InterestThrows(p: Ledger.Params, totalSupply: int)
    requires Economics.Sound(p.config) && p.config.coinbaseBlocks < TWO_128 && 5 <= totalSupply < Economics.TWO_64
    requires p.config.interestBlocks >= 2
    ensures var g, h := LedgerRuns.Genesis(p, TRIO, 2, 7, totalSupply, 0, 0), LastFree(p);
      var s := LedgerRuns.After(g, p, Rounds(0, h));
      var t := LedgerRuns.After(LedgerRuns.Next(s, p, SendThere()), p, Rounds(h, 1));
      var rest := Rounds(h + 1, p.config.interestBlocks - 2) + [Ledger.BlockStep(h + p.config.interestBlocks)];
      var r := LedgerRuns.After(LedgerRuns.Next(t, p, SendBack()), p, rest);
      && LedgerInvariants.Good(r, p) && r.head == h + p.config.interestBlocks
      && Interests.Holding(r, 3) == -5 * (p.config.interestBlocks - 1) && Ledger.ProcessInterests(r, p).None?
  {
    hide LedgerInvariants.Good, LedgerRuns.Genesis, Ledger.Transfer, Ledger.ProcessInterests, LedgerRuns.After,
      LedgerRuns.Next, Rounds, Interests.Untouched, Ledger.TurnsLeft, LastFree;
    var g, h := LedgerRuns.Genesis(p, TRIO, 2, 7, totalSupply, 0, 0), LastFree(p);
    FoundedTrio(p, totalSupply);
    LastFreeIsTurn(p);
    LedgerRuns.GenesisGood(p, TRIO, 2, 7, totalSupply, 0, 0);
    FreeRounds(g, p, 0, h);
    var s := LedgerRuns.After(g, p, Rounds(0, h));
    Sent(s, p, 2, 3, h);
    var s1 := LedgerRuns.Next(s, p, SendThere());
    OneRound(s1, p, h);
    TurnsApart(h, 1, p.config.interestBlocks);
    var t := LedgerRuns.After(s1, p, Rounds(h, 1));
    Sent(t, p, 3, 2, h + 1);
    var t1 := LedgerRuns.Next(t, p, SendBack());
    var rest := Rounds(h + 1, p.config.interestBlocks - 2) + [Ledger.BlockStep(h + p.config.interestBlocks)];
    WaitingRounds(t1, p, h + 1, p.config.interestBlocks - 2);
    Interests.DepositInTurnThrows(s, p, 3, 2, 5, Rounds(h, 1), rest, 0);
    Interests.HoldingStays(t1, p, rest, 3);
  }

  /** A good state of the three accounts after block h. */
  ghost predicate Trio(s: Ledger.State, p: Ledger.Params, h: nat) {
    && LedgerInvariants.Good(s, p) && s.head == h == s.time && s.tally.ids == [3, NULL_ACCOUNT, 2]
    && s.tally.accounts.Keys == {3, NULL_ACCOUNT, 2} && s.tally.accounts[3].id == 0
  }

  /** Account 3 has never had anything, and account 2 has five coins. */
  ghost predicate Untapped(s: Ledger.State)
    requires s.tally.accounts.Keys == {3, NULL_ACCOUNT, 2}
  {
    Total(s.tally.accounts[3]) == 0 && Interests.Holding(s, 3) == 0 && EscrowLife.Balance(s, 3) == 0
      && EscrowLife.Balance(s, 2) == 5
  }

  lemma Sent(s: Ledger.State, p: Ledger.Params, from: Name, to: Name, h: nat)
    requires Trio(s, p, h) && {from, to} == {2, 3} && EscrowLife.Balance(s, from) >= 5
    ensures Ledger.Transfer(s, p, from, to, 5).Some?
    ensures var r := LedgerRuns.Next(s, p, Ledger.TransferStep(from, to, 5));
      Trio(r, p, h) && r == Ledger.Transfer(s, p, from, to, 5).value && EscrowLife.Balance(r, to) >= 5
  {
    hide LedgerInvariants.Good, Ledger.Transfer, Ledger.TurnsLeft, LedgerRuns.Next;
    Interests.GoodAccounts(s, p, from, to);
    Interests.TransferHolding(s, p, from, to, 5);
    TransferNext(s, p, from, to, 5);
  }

  /** One round: the three accounts stay as they are, but for those whose turn it is. */
  lemma OneRound(s: Ledger.State, p: Ledger.Params, h: nat)
    requires Trio(s, p, h)
    ensures p.config.interestBlocks > 0
    ensures var m := LedgerRuns.Next(s, p, Ledger.BlockStep(h + 1));
      var r := LedgerRuns.Next(m, p, Ledger.InterestStep);
      && LedgerRuns.After(s, p, Rounds(h, 1)) == r
      && Trio(m, p, h + 1) && Trio(r, p, h + 1)
      && ((h + 1) % p.config.interestBlocks != 0 ==> r.tally.accounts[3] == s.tally.accounts[3])
      && (h + 1 <= p.config.interestDelay && Untapped(s) ==> Untapped(r))
  {
    hide LedgerInvariants.Good, Ledger.InterestFrom, LedgerRuns.Next;
    BlockNext(s, p, h + 1);
    var m := LedgerRuns.Next(s, p, Ledger.BlockStep(h + 1));
    InterestNext(m, p);
    TwoNext(s, p, Ledger.BlockStep(h + 1), Ledger.InterestStep);
    assert Rounds(h + 1, 0) == [];
    assert Rounds(h, 1) == [Ledger.BlockStep(h + 1), Ledger.InterestStep];
  }

  lemma TwoNext(s: Ledger.State, p: Ledger.Params, a: Ledger.Step, b: Ledger.Step)
    ensures LedgerRuns.After(s, p, [a, b]) == LedgerRuns.Next(LedgerRuns.Next(s, p, a), p, b)
  {
    hide LedgerRuns.Next;
    assert [a, b][1..] == [b] && [b][1..] == [];
    assert LedgerRuns.After(LedgerRuns.Next(LedgerRuns.Next(s, p, a), p, b), p, [])
      == LedgerRuns.Next(LedgerRuns.Next(s, p, a), p, b);
  }

  /** Interest for the three accounts, whether it throws or not. */
  lemma InterestNext(s: Ledger.State, p: Ledger.Params)
    requires LedgerInvariants.Good(s, p) && s.tally.ids == [3, NULL_ACCOUNT, 2]
    requires s.tally.accounts.Keys == {3, NULL_ACCOUNT, 2}
    ensures p.config.interestBlocks > 0
    ensures var r := LedgerRuns.Next(s, p, Ledger.InterestStep);
      && LedgerInvariants.Good(r, p) && r.head == s.head && r.time == s.time && r.tally.ids == s.tally.ids
      && r.tally.accounts.Keys == s.tally.accounts.Keys && r.tally.accounts[3].id == s.tally.accounts[3].id
      && (s.head % p.config.interestBlocks != 0 ==> r.tally.accounts[3] == s.tally.accounts[3])
      && (s.head <= p.config.interestDelay && Untapped(s) ==>
            Untapped(r) && r.tally.accounts[3] == s.tally.accounts[3])
  {
    hide LedgerInvariants.Good, Ledger.InterestFrom;
    GoodIsSound(s, p);
    LedgerSteps.GoodIsPlayable(s, p);
    var start := s.head % p.config.interestBlocks;
    if Ledger.ProcessInterests(s, p).Some? {
      LedgerSteps.ProcessInterestsConserves(s, p);
      Interests.InterestKeepsNames(s, p, start, 0);
      if start != 0 {
        OneTurn(p.config.interestBlocks, start);
        Interests.InterestKeepsHolding(s, p, start, 0, 3);
      }
    }
    if s.head <= p.config.interestDelay {
      Interests.EarlyInterest(s, p, start, 0, 3);
      Interests.EarlyInterest(s, p, start, 0, 2);
    }
  }

  lemma OneTurn(stride: nat, start: nat)
    requires 0 < start < stride
    ensures !Interests.InBatch([3, NULL_ACCOUNT, 2], stride, start, 3)
  {
    assert !Interests.InBatch([3, NULL_ACCOUNT, 2], stride, start + stride, 3);
  }

  /** While no interest is paid, the account stays without anything. */
  lemma {:induction false} FreeRounds(s: Ledger.State, p: Ledger.Params, h: nat, n: nat)
    requires Trio(s, p, h) && Untapped(s) && h + n <= p.config.interestDelay
    ensures var r := LedgerRuns.After(s, p, Rounds(h, n)); Trio(r, p, h + n) && Untapped(r)
    decreases n
  {
    hide Trio, LedgerRuns.Next;
    if n > 0 {
      OneRound(s, p, h);
      var r := LedgerRuns.After(s, p, Rounds(h, 1));
      FreeRounds(r, p, h + 1, n - 1);
      FirstRound(s, p, h, n, []);
    } else {
      assert Rounds(h, 0) == [];
    }
  }

  lemma FirstRound(s: Ledger.State, p: Ledger.Params, h: nat, n: nat, more: seq<Ledger.Step>)
    requires n > 0
    ensures var m := LedgerRuns.Next(s, p, Ledger.BlockStep(h + 1));
      var r := LedgerRuns.Next(m, p, Ledger.InterestStep);
      && LedgerRuns.After(s, p, Rounds(h, n) + more) == LedgerRuns.After(r, p, Rounds(h + 1, n - 1) + more)
      && LedgerRuns.After(s, p, Rounds(h, n)) == LedgerRuns.After(r, p, Rounds(h + 1, n - 1))
      && (p.config.interestBlocks > 0 ==>
            !Interests.InBatch(m.tally.ids, p.config.interestBlocks, m.head % p.config.interestBlocks, 3) ==>
              Interests.Untouched(r, p, Rounds(h + 1, n - 1) + more, 3) ==>
                Interests.Untouched(s, p, Rounds(h, n) + more, 3))
  {
    hide LedgerRuns.Next, Ledger.Apply, Ledger.Playable;
    var tail := [Ledger.InterestStep] + Rounds(h + 1, n - 1);
    assert Rounds(h, n) == [Ledger.BlockStep(h + 1)] + tail;
    assert Rounds(h, n)[1..] == tail && tail[1..] == Rounds(h + 1, n - 1);
    assert (Rounds(h, n) + more)[1..] == tail + more && (tail + more)[1..] == Rounds(h + 1, n - 1) + more;
  }

  /** The rounds up to the account's next turn do not touch it. */
  lemma {:induction false} WaitingRounds(s: Ledger.State, p: Ledger.Params, h: nat, n: nat)
    requires Trio(s, p, h) && p.config.interestBlocks > 0
    requires h % p.config.interestBlocks == p.config.interestBlocks - 1 - n
    ensures var rest := Rounds(h, n) + [Ledger.BlockStep(h + n + 1)];
      Trio(LedgerRuns.After(s, p, rest), p, h + n + 1) && Interests.Untouched(s, p, rest, 3)
    decreases n
  {
    hide LedgerInvariants.Good, LedgerRuns.Next, Ledger.Apply, Ledger.Playable;
    var rest := Rounds(h, n) + [Ledger.BlockStep(h + n + 1)];
    if n == 0 {
      assert rest == [Ledger.BlockStep(h + 1)] && rest[1..] == [];
      BlockNext(s, p, h + 1);
    } else {
      OneRound(s, p, h);
      TurnsApart(h, 1, p.config.interestBlocks);
      OneTurn(p.config.interestBlocks, (h + 1) % p.config.interestBlocks);
      FirstRound(s, p, h, n, [Ledger.BlockStep(h + n + 1)]);
      WaitingRounds(LedgerRuns.After(s, p, Rounds(h, 1)), p, h + 1, n - 1);
    }
  }

  lemma TurnsApart(h: nat, n: nat, period: nat)
    requires period > 0 && h % period + n < period
    ensures (h + n) % period == h % period + n
  {
    Economics.ModUnique(h + n, period, h / period, h % period + n);
  }

  lemma LastFreeIsTurn(p: Ledger.Params)
    requires p.config.interestBlocks > 0
    ensures LastFree(p) <= p.config.interestDelay < LastFree(p) + p.config.interestBlocks
    ensures LastFree(p) % p.config.interestBlocks == 0
      && (LastFree(p) + p.config.interestBlocks) % p.config.interestBlocks == 0
  {
    var delay, period := p.config.interestDelay, p.config.interestBlocks;
    Economics.ModUnique(LastFree(p), period, delay / period, 0);
    Economics.ModUnique(LastFree(p) + period, period, delay / period + 1, 0);
  }

  lemma TransferNext(s: Ledger.State, p: Ledger.Params, from: Name, to: Name, amount: int)
    requires LedgerInvariants.Good(s, p) && Ledger.Transfer(s, p, from, to, amount).Some?
    ensures var r := Ledger.Transfer(s, p, from, to, amount).value;
      && LedgerRuns.Next(s, p, Ledger.TransferStep(from, to, amount)) == r && LedgerInvariants.Good(r, p)
      && r.time == s.time && r.head == s.head && r.tally.ids == s.tally.ids
  {
    hide LedgerInvariants.Good, Ledger.Transfer;
    LedgerSteps.GoodIsPlayable(s, p);
    LedgerSteps.TransferConserves(s, p, from, to, amount);
    GoodIsSound(s, p);
    Payments.TransferMoves(s, p, from, to, amount);
    TransferKeepsIds(s, p, from, to, amount);
  }

  lemma GoodIsSound(s: Ledger.State, p: Ledger.Params)
    requires LedgerInvariants.Good(s, p)
    ensures Economics.Sound(p.config)
  {}

  lemma TransferKeepsIds(s: Ledger.State, p: Ledger.Params, from: Name, to: Name, amount: int)
    requires p.config.interestBlocks > 0 && Ledger.Transfer(s, p, from, to, amount).Some?
    ensures Ledger.Transfer(s, p, from, to, amount).value.tally.ids == s.tally.ids
  {
    hide AdjustOne, Ledger.TurnsLeft;
  }

  lemma BlockNext(s: Ledger.State, p: Ledger.Params, time: nat)
    requires LedgerInvariants.Good(s, p) && s.time < time
    ensures p.config.interestBlocks > 0
    ensures var r := Ledger.NextBlock(s, p, time);
      && r.Some? && LedgerRuns.Next(s, p, Ledger.BlockStep(time)) == r.value && LedgerInvariants.Good(r.value, p)
      && r.value.time == time && r.value.head == s.head + 1 && r.value.tally == s.tally
  {
    hide LedgerInvariants.Good, Economics.RecordBlock;
    GoodIsSound(s, p);
    LedgerSteps.GoodIsPlayable(s, p);
    LedgerSteps.NextBlockConserves(s, p, time);
  }

  lemma FoundedTrio(p: Ledger.Params, totalSupply: int)
    requires Economics.Sound(p.config)
    ensures LedgerRuns.FoundersTotal(TRIO) == 5 && LedgerRuns.Legal(TRIO)
    ensures var g := LedgerRuns.Genesis(p, TRIO, 2, 7, totalSupply, 0, 0);
      && g.tally.ids == [3, NULL_ACCOUNT, 2] && g.tally.accounts.Keys == {3, NULL_ACCOUNT, 2} && g.head == 0
      && g.time == 0
      && g.tally.accounts[3].id == 0 && g.tally.accounts[3].holdings == 0 && g.tally.accounts[3].balance == 0
      && Total(g.tally.accounts[3]) == 0
      && g.tally.accounts[2].balance == 5
  {
    hide Economics.Initial;
    var none: seq<LedgerRuns.Founder> := [];
    assert TRIO[..2] == [TRIO[0], TRIO[1]] && TRIO[..2][..1] == [TRIO[0]] && [TRIO[0]][..0] == none;
    assert LedgerRuns.Founded(none) == Tally([], map[], Electors(map[], {}, 0), Index(map[], map[]))
      && LedgerRuns.FoundersTotal(none) == 0;
    var one := LedgerRuns.Founded([TRIO[0]]);
    assert one.ids == [3] && one.accounts.Keys == {3} && one.accounts[3].id == 0 && one.accounts[3].holdings == 0
      && one.accounts[3].balance == 0 && Total(one.accounts[3]) == 0;
    assert LedgerRuns.FoundersTotal([TRIO[0]]) == 0;
    var two := LedgerRuns.Founded(TRIO[..2]);
    assert two.ids == [3, NULL_ACCOUNT] && two.accounts.Keys == {3, NULL_ACCOUNT} && two.accounts[3] == one.accounts[3];
    assert LedgerRuns.FoundersTotal(TRIO[..2]) == 0;
  }

  // ----- a switch that the log does not survive -----

  const TWO_WITNESSES: seq<Name> := [2, 3]

  /** Blocks of two witnesses; their content tells who produced them. */
  function Producers(id: BlockId): Irreversible.Produced {
    Irreversible.Produced(if id.BlockId? && id.content == 2 then 2 else 3, TWO_WITNESSES)
  }

  function StateAfter(c: Irreversible.Config, id: BlockId): Irreversible.Progress {
    Irreversible.StateAt(c, Producers, TWO_WITNESSES, id)
  }

  /** From any block on, once votes decide: one witness alone produces two blocks, and these make none of them
      irreversible. Both take turns on a branch of three, which makes its second block irreversible. The
      node gives up on it: it looks for that number and finds a block on each branch. */
  lemma SwitchMissesBlock(c: Irreversible.Config, root: BlockId, n: LogRuns.Node)
    requires Num(root) >= c.startVoting && n.head == root && n.logged <= Num(root) && Num(n.cursor) <= Num(root)
    requires root.BlockId? ==> root in n.ids
    ensures var libs := IrreversibleLog.LibsOf(c, Producers, TWO_WITNESSES);
      var old1, new1 := BlockId(root, 3), BlockId(root, 1);
      var new2 := BlockId(new1, 2);
      && LogRuns.Rising(libs)
      && var m := LogRuns.Run(libs, n, [old1, BlockId(old1, 3), new1, new2]);
        m.Some? && LogRuns.Fate(libs, m.value, BlockId(new2, 1)).Missing?
  {
    hide Irreversible.StateAt, LogRuns.Run;
    OneProduces(c, root);
    BothProduce(c, root);
    IrreversibleLog.LibsRise(c, Producers, TWO_WITNESSES);
    Misses(IrreversibleLog.LibsOf(c, Producers, TWO_WITNESSES), root, n);
  }

  /** Three blocks against two, of which the third makes the second irreversible. */
  lemma Misses(libs: LogRuns.Libs, root: BlockId, n: LogRuns.Node)
    requires LogRuns.Rising(libs) && n.head == root && n.logged <= Num(root) && Num(n.cursor) <= Num(root)
    requires root.BlockId? ==> root in n.ids
    requires libs(BlockId(BlockId(root, 3), 3)) <= Num(root)
      && libs(BlockId(BlockId(BlockId(root, 1), 2), 1)) >= Num(root) + 2
    ensures var old1, new1 := BlockId(root, 3), BlockId(root, 1);
      var new2 := BlockId(new1, 2);
      var m := LogRuns.Run(libs, n, [old1, BlockId(old1, 3), new1, new2]);
      m.Some? && LogRuns.Fate(libs, m.value, BlockId(new2, 1)).Missing?
  {
    hide LogRuns.Fate, LogRuns.Next, LogRuns.Run, LogRuns.Leaves;
    var old1, new1 := BlockId(root, 3), BlockId(root, 1);
    var old2, new2 := BlockId(old1, 3), BlockId(new1, 2);
    assert libs(old1) <= libs(old2);
    GoesOn(libs, n, old1);
    var n1 := LogRuns.Next(libs, n, old1);
    GoesOn(libs, n1, old2);
    var n2 := LogRuns.Next(libs, n1, old2);
    IsStored(libs, n2, new1);
    var n3 := LogRuns.Next(libs, n2, new1);
    IsStored(libs, n3, new2);
    var n4 := LogRuns.Next(libs, n3, new2);
    FourBlocks(libs, n, [old1, old2, new1, new2]);
    LeavesTwo(root);
    IsMissing(libs, n4, BlockId(new2, 1));
  }

  lemma LeavesTwo(root: BlockId)
    ensures LogRuns.Leaves(BlockId(BlockId(root, 3), 3), BlockId(BlockId(BlockId(root, 1), 2), 1)) == 2
  {
    assert LogRuns.Leaves(root, BlockId(root, 1)) == 0;
    assert LogRuns.Leaves(BlockId(root, 3), BlockId(BlockId(root, 1), 2)) == 1;
  }

  lemma IsMissing(libs: LogRuns.Libs, n: LogRuns.Node, b: BlockId)
    requires b.BlockId? && b.previous.BlockId? && b.previous in n.ids && n.cursor == n.head && b.previous != n.head
    requires Num(b) == Num(n.head) + 1 && LogRuns.Leaves(n.head, b) == 2 && n.logged + 2 <= Num(n.head)
    requires libs(b) > Num(b) - 2
    ensures LogRuns.Fate(libs, n, b).Missing?
  {
    hide LogRuns.Leaves;
  }

  lemma GoesOn(libs: LogRuns.Libs, n: LogRuns.Node, b: BlockId)
    requires LogRuns.Rising(libs) && b.BlockId? && n.head == b.previous && Num(n.cursor) <= Num(n.head)
    requires n.head.BlockId? ==> n.head in n.ids
    ensures LogRuns.Fate(libs, n, b).Extended?
    ensures var m := LogRuns.Next(libs, n, b);
      && m.head == m.cursor == b && b in m.ids && m.logged == ForkDatabase.Greatest(n.logged, libs(b))
      && m.span == Num(b) - libs(b) + 1 && forall id {:trigger id in m.ids} ::
        id in n.ids && Num(id) + 1 >= libs(b) ==> id in m.ids
  {}

  lemma IsStored(libs: LogRuns.Libs, n: LogRuns.Node, b: BlockId)
    requires LogRuns.Rising(libs) && b.BlockId? && b.previous != n.head && Num(b) <= Num(n.head) && n.cursor == n.head
    requires (b.previous.BlockId? ==> b.previous in n.ids) && Num(b) + n.span > Num(n.head)
    ensures LogRuns.Fate(libs, n, b).Stored? && LogRuns.Next(libs, n, b) == n.(ids := n.ids + {b})
  {}

  lemma FourBlocks(libs: LogRuns.Libs, n: LogRuns.Node, bs: seq<BlockId>)
    requires LogRuns.Rising(libs) && |bs| == 4 && LogRuns.Blocks(bs)
    requires var n1 := LogRuns.Next(libs, n, bs[0]);
      var n2 := LogRuns.Next(libs, n1, bs[1]);
      var n3 := LogRuns.Next(libs, n2, bs[2]);
      && !LogRuns.GivesUp(libs, n, bs[0]) && !LogRuns.GivesUp(libs, n1, bs[1])
      && !LogRuns.GivesUp(libs, n2, bs[2]) && !LogRuns.GivesUp(libs, n3, bs[3])
    ensures var n1 := LogRuns.Next(libs, n, bs[0]);
      var n2 := LogRuns.Next(libs, n1, bs[1]);
      var n3 := LogRuns.Next(libs, n2, bs[2]);
      LogRuns.Run(libs, n, bs) == Some(LogRuns.Next(libs, n3, bs[3]))
  {
    hide LogRuns.Next, LogRuns.GivesUp;
    assert bs[..0] == [] && bs[..1][..0] == [] && bs[..2][..1] == bs[..1] && bs[..3][..2] == bs[..2];
    var n1 := LogRuns.Next(libs, n, bs[0]);
    var n2 := LogRuns.Next(libs, n1, bs[1]);
    assert LogRuns.Run(libs, n, bs[..0]) == Some(n);
    assert LogRuns.Run(libs, n, bs[..1]) == Some(n1);
    assert LogRuns.Run(libs, n, bs[..2]) == Some(n2);
    assert LogRuns.Run(libs, n, bs[..3]) == Some(LogRuns.Next(libs, n2, bs[2]));
  }

  lemma OneProduces(c: Irreversible.Config, root: BlockId)
    requires Num(root) >= c.startVoting
    ensures StateAfter(c, BlockId(BlockId(root, 3), 3)).lib <= Num(root)
  {
    hide StateAfter;
    var old1 := BlockId(root, 3);
    SaneState(c, root);
    NextState(c, old1);
    NextState(c, BlockId(old1, 3));
  }

  lemma BothProduce(c: Irreversible.Config, root: BlockId)
    requires Num(root) >= c.startVoting
    ensures Irreversible.StateAt(c, Producers, TWO_WITNESSES,
      BlockId(BlockId(BlockId(root, 1), 2), 1)).lib >= Num(root) + 2
  {
    hide Irreversible.StateAt;
    var new2 := BlockId(BlockId(root, 1), 2);
    NextState(c, new2);
    NextState(c, BlockId(new2, 1));
  }

  lemma SaneState(c: Irreversible.Config, b: BlockId)
    ensures var p := StateAfter(c, b); p.lib <= Num(b) && forall w {:trigger Confirms(p, w)} :: Confirms(p, w) <= Num(b)
  {
    hide Irreversible.StateAt;
    Irreversible.StateSane(c, Producers, TWO_WITNESSES, b);
  }

  function Confirms(p: Irreversible.Progress, w: Name): nat {
    if w in p.confirmed then p.confirmed[w] else 0
  }

  /** With two witnesses the lower of their last confirmed blocks becomes irreversible. */
  lemma NextState(c: Irreversible.Config, b: BlockId)
    requires b.BlockId? && Num(b) >= c.startVoting
    ensures var p, q := StateAfter(c, b.previous), StateAfter(c, b);
      && (forall w {:trigger Confirms(q, w)} ::
        Confirms(q, w) == if w == Producers(b).producer then Num(b) else Confirms(p, w))
      && var least := if Confirms(q, 2) < Confirms(q, 3) then Confirms(q, 2) else Confirms(q, 3);
        q.lib == if least > p.lib then least else p.lib
  {
    hide Num;
    var p, q := StateAfter(c, b.previous), StateAfter(c, b);
    Irreversible.StateSane(c, Producers, TWO_WITNESSES, b.previous);
    Irreversible.StateSane(c, Producers, TWO_WITNESSES, b);
    ScheduledTwo(c, b.previous);
    var m := p.(head := p.head + 1, confirmed := q.confirmed);
    assert Irreversible.Confirmed(m) == [Confirms(q, 2), Confirms(q, 3)];
    LeastOfTwo(Confirms(q, 2), Confirms(q, 3));
  }

  lemma ScheduledTwo(c: Irreversible.Config, b: BlockId)
    ensures StateAfter(c, b).scheduled == TWO_WITNESSES
  {
    hide Irreversible.Raised;
  }

  lemma LeastOfTwo(x: nat, y: nat)
    ensures Irreversible.Candidate([x, y]) == if x < y then x else y
  {
    assert [x, y][1..] == [y] && [y][1..] == [];
    assert Irreversible.Ascending([y]) == [y];
  }
}
