/**
 Checking authorities: a threshold over signed keys and over accounts whose own active authority is met. The
 check goes down a bounded number of levels and remembers the accounts it has approved.
 */
module Authority {
  import opened ChainTypes

  type Key = nat

  /** The name that counts as approved from the start. */
  const TEMP: Name := 2

  datatype Authority = Authority(threshold: nat, keys: seq<(Key, nat)>, accounts: seq<(Name, nat)>)

  /** What checks depend on and never change: active authorities, the keys that can sign, the depth bound. */
  datatype World = World(active: Name -> Authority, signed: set<Key>, max: nat)

  /** What checks leave behind: keys they used and accounts they approved. */
  datatype Seen = Seen(used: set<Key>, approved: set<Name>)

  // ----- the check as the program does it -----

  /** The keys from index i on; stops as soon as the threshold is reached. */
  function CheckKeys(w: World, s: Seen, a: Authority, i: nat, total: nat): (bool, nat, Seen)
    decreases |a.keys| - i
  {
    if i >= |a.keys| then (false, total, s)
    else
      var (k, weight) := a.keys[i];
      if k !in w.signed then CheckKeys(w, s, a, i + 1, total)
      else
        var t := s.(used := s.used + {k});
        if total + weight >= a.threshold then (true, total + weight, t)
        else CheckKeys(w, t, a, i + 1, total + weight)
  }

  /** The accounts from index i on. */
  function CheckAccounts(w: World, s: Seen, a: Authority, depth: nat, i: nat, total: nat): (bool, Seen)
    requires depth <= w.max
    decreases w.max - depth, 0, |a.accounts| - i
  {
    if i >= |a.accounts| then (total >= a.threshold, s)
    else
      var (b, weight) := a.accounts[i];
      if b in s.approved then
        if total + weight >= a.threshold then (true, s)
        else CheckAccounts(w, s, a, depth, i + 1, total + weight)
      else if depth == w.max then CheckAccounts(w, s, a, depth, i + 1, total)
      else
        var (ok, t) := Check(w, s, w.active(b), depth + 1);
        if !ok then CheckAccounts(w, t, a, depth, i + 1, total)
        else
          var u := t.(approved := t.approved + {b});
          if total + weight >= a.threshold then (true, u)
          else CheckAccounts(w, u, a, depth, i + 1, total + weight)
  }

  function Check(w: World, s: Seen, a: Authority, depth: nat): (bool, Seen)
    requires depth <= w.max
    decreases w.max - depth, 1, 0
  {
    var (done, total, t) := CheckKeys(w, s, a, 0, 0);
    if done then (true, t) else CheckAccounts(w, t, a, depth, 0, total)
  }

  // ----- the check without memory -----

  function KeyWeight(signed: set<Key>, keys: seq<(Key, nat)>): nat {
    if keys == [] then 0
    else (if keys[0].0 in signed then keys[0].1 else 0) + KeyWeight(signed, keys[1..])
  }

  /** An approval tree of height at most n for an account. */
  ghost predicate Approves(w: World, b: Name, n: nat)
    decreases n, 0, 0
  {
    b == TEMP || (n > 0 && Meets(w, w.active(b), n - 1))
  }

  ghost function AccountWeight(w: World, accounts: seq<(Name, nat)>, n: nat): nat
    decreases n, 1, |accounts|
  {
    if accounts == [] then 0
    else (if Approves(w, accounts[0].0, n) then accounts[0].1 else 0) + AccountWeight(w, accounts[1..], n)
  }

  /** The weights of signed keys and of accounts with an approval tree reach the threshold. */
  ghost predicate Meets(w: World, a: Authority, n: nat)
    decreases n, 2, 0
  {
    KeyWeight(w.signed, a.keys) + AccountWeight(w, a.accounts, n) >= a.threshold
  }

  // ----- if the bounded check without memory accepts, so does the program -----

  lemma {:induction false} KeysTotal(w: World, s: Seen, a: Authority, i: nat, total: nat)
    requires i <= |a.keys|
    ensures var (done, t, u) := CheckKeys(w, s, a, i, total);
      && u.approved == s.approved
      && (if done then a.threshold <= t <= total + KeyWeight(w.signed, a.keys[i..])
          else t == total + KeyWeight(w.signed, a.keys[i..]))
    decreases |a.keys| - i
  {
    if i < |a.keys| {
      assert a.keys[i..][1..] == a.keys[i + 1..];
      var (k, weight) := a.keys[i];
      if k !in w.signed {
        KeysTotal(w, s, a, i + 1, total);
      } else {
        KeysTotal(w, s.(used := s.used + {k}), a, i + 1, total + weight);
      }
    }
  }

  lemma {:induction false} AcceptsAccounts(w: World, s: Seen, a: Authority, depth: nat, i: nat, total: nat)
    requires depth <= w.max && TEMP in s.approved && i <= |a.accounts|
    requires total + AccountWeight(w, a.accounts[i..], w.max - depth) >= a.threshold
    ensures CheckAccounts(w, s, a, depth, i, total).0
    decreases w.max - depth, 0, |a.accounts| - i
  {
    if i < |a.accounts| {
      assert a.accounts[i..][1..] == a.accounts[i + 1..];
      var (b, weight) := a.accounts[i];
      var n := w.max - depth;
      if b in s.approved {
        if total + weight < a.threshold {
          AcceptsAccounts(w, s, a, depth, i + 1, total + weight);
        }
      } else if depth == w.max {
        AcceptsAccounts(w, s, a, depth, i + 1, total);
      } else {
        ApprovedGrows(w, s, w.active(b), depth + 1);
        if Meets(w, w.active(b), n - 1) {
          Accepts(w, s, w.active(b), depth + 1);
        }
        var (ok, t) := Check(w, s, w.active(b), depth + 1);
        if !ok {
          AcceptsAccounts(w, t, a, depth, i + 1, total);
        } else if total + weight < a.threshold {
          AcceptsAccounts(w, t.(approved := t.approved + {b}), a, depth, i + 1, total + weight);
        }
      }
    }
  }

  /** Whatever it has approved before, the program accepts what the bounded check without memory accepts. */
  lemma {:induction false} Accepts(w: World, s: Seen, a: Authority, depth: nat)
    requires depth <= w.max && TEMP in s.approved && Meets(w, a, w.max - depth)
    ensures Check(w, s, a, depth).0
    decreases w.max - depth, 1, 0
  {
    KeysTotal(w, s, a, 0, 0);
    assert a.keys[0..] == a.keys && a.accounts[0..] == a.accounts;
    var (done, total, t) := CheckKeys(w, s, a, 0, 0);
    if !done {
      AcceptsAccounts(w, t, a, depth, 0, total);
    }
  }

  ghost predicate Grows(w: World, s: Seen, t: Seen) {
    s.used <= t.used <= s.used + w.signed && s.approved <= t.approved
  }

  lemma {:induction false} KeysGrow(w: World, s: Seen, a: Authority, i: nat, total: nat)
    ensures Grows(w, s, CheckKeys(w, s, a, i, total).2)
    decreases |a.keys| - i
  {
    if i < |a.keys| {
      var (k, weight) := a.keys[i];
      if k !in w.signed {
        KeysGrow(w, s, a, i + 1, total);
      } else {
        KeysGrow(w, s.(used := s.used + {k}), a, i + 1, total + weight);
      }
    }
  }

  lemma {:induction false} AccountsGrow(w: World, s: Seen, a: Authority, depth: nat, i: nat, total: nat)
    requires depth <= w.max
    ensures Grows(w, s, CheckAccounts(w, s, a, depth, i, total).1)
    decreases w.max - depth, 0, |a.accounts| - i
  {
    if i < |a.accounts| {
      var (b, weight) := a.accounts[i];
      if b in s.approved {
        AccountsGrow(w, s, a, depth, i + 1, total + weight);
      } else if depth == w.max {
        AccountsGrow(w, s, a, depth, i + 1, total);
      } else {
        ApprovedGrows(w, s, w.active(b), depth + 1);
        var (ok, t) := Check(w, s, w.active(b), depth + 1);
        if !ok {
          AccountsGrow(w, t, a, depth, i + 1, total);
        } else {
          AccountsGrow(w, t.(approved := t.approved + {b}), a, depth, i + 1, total + weight);
        }
      }
    }
  }

  /** Checks never forget a key or an account. */
  lemma {:induction false} ApprovedGrows(w: World, s: Seen, a: Authority, depth: nat)
    requires depth <= w.max
    ensures Grows(w, s, Check(w, s, a, depth).1)
    decreases w.max - depth, 1, 0
  {
    KeysGrow(w, s, a, 0, 0);
    var (done, total, t) := CheckKeys(w, s, a, 0, 0);
    if !done {
      AccountsGrow(w, t, a, depth, 0, total);
    }
  }

  // ----- if the program accepts, an approval tree exists -----

  lemma {:induction false} TallerWeight(w: World, accounts: seq<(Name, nat)>, n: nat, m: nat)
    requires n <= m
    ensures AccountWeight(w, accounts, n) <= AccountWeight(w, accounts, m)
    decreases n, 1, |accounts|
  {
    if accounts != [] {
      if Approves(w, accounts[0].0, n) {
        TallerTree(w, accounts[0].0, n, m);
      }
      TallerWeight(w, accounts[1..], n, m);
    }
  }

  lemma {:induction false} TallerTree(w: World, b: Name, n: nat, m: nat)
    requires n <= m && Approves(w, b, n)
    ensures Approves(w, b, m)
    decreases n, 0, 0
  {
    if b != TEMP {
      TallerWeight(w, w.active(b).accounts, n - 1, m - 1);
    }
  }

  /** Every approved account has an approval tree of height at most n. */
  ghost predicate Justified(w: World, approved: set<Name>, n: nat) {
    forall b {:trigger b in approved} :: b in approved ==> Approves(w, b, n)
  }

  ghost predicate HasTrees(w: World, approved: set<Name>) {
    exists n: nat :: Justified(w, approved, n)
  }

  lemma JustifiedTaller(w: World, approved: set<Name>, n: nat, m: nat)
    requires Justified(w, approved, n) && n <= m
    ensures Justified(w, approved, m)
  {
    hide Approves;
    forall b | b in approved
      ensures Approves(w, b, m)
    {
      TallerTree(w, b, n, m);
    }
  }

  /** The weight of the approved accounts among these. */
  function ApprovedWeight(approved: set<Name>, accounts: seq<(Name, nat)>): nat {
    if accounts == [] then 0
    else (if accounts[0].0 in approved then accounts[0].1 else 0) + ApprovedWeight(approved, accounts[1..])
  }

  /** At the depth bound an authority is met exactly if the weights of its keys that sign or can sign and of its
      accounts that are already approved add up to its threshold; no account is approved then. */
  lemma AtBoundIff(w: World, s: Seen, a: Authority)
    ensures Check(w, s, a, w.max).0
      <==> KeyWeight(w.signed, a.keys) + ApprovedWeight(s.approved, a.accounts) >= a.threshold
    ensures Check(w, s, a, w.max).1.approved == s.approved
  {
    KeysTotal(w, s, a, 0, 0);
    var (done, total, t) := CheckKeys(w, s, a, 0, 0);
    assert a.keys[0..] == a.keys && a.accounts[0..] == a.accounts;
    if !done {
      ApprovedOnly(w, t, a, 0, total);
    }
  }

  lemma {:induction false} ApprovedOnly(w: World, s: Seen, a: Authority, i: nat, total: nat)
    requires i <= |a.accounts|
    ensures var r := CheckAccounts(w, s, a, w.max, i, total);
      && r.1 == s && (r.0 <==> total + ApprovedWeight(s.approved, a.accounts[i..]) >= a.threshold)
    decreases |a.accounts| - i
  {
    if i < |a.accounts| {
      WeightStep(s.approved, a.accounts, i);
      var (b, weight) := a.accounts[i];
      if b in s.approved {
        if total + weight < a.threshold {
          ApprovedOnly(w, s, a, i + 1, total + weight);
        }
      } else {
        ApprovedOnly(w, s, a, i + 1, total);
      }
    }
  }

  lemma {:induction false} ApprovedWeightBound(w: World, approved: set<Name>, accounts: seq<(Name, nat)>, n: nat)
    requires Justified(w, approved, n)
    ensures ApprovedWeight(approved, accounts) <= AccountWeight(w, accounts, n)
    decreases |accounts|
  {
    if accounts != [] {
      ApprovedWeightBound(w, approved, accounts[1..], n);
    }
  }

  /** What the check of accounts approves has trees, and what it counts is approved in the end. */
  lemma {:induction false} AccountsJustified(w: World, s: Seen, a: Authority, depth: nat, i: nat, total: nat, n: nat)
    requires depth <= w.max && i <= |a.accounts| && Justified(w, s.approved, n)
    ensures var r := CheckAccounts(w, s, a, depth, i, total);
      && HasTrees(w, r.1.approved)
      && (r.0 ==> total + ApprovedWeight(r.1.approved, a.accounts[i..]) >= a.threshold)
    decreases w.max - depth, 0, |a.accounts| - i
  {
    hide Justified, Approves, ApprovedWeight;
    var r := CheckAccounts(w, s, a, depth, i, total);
    assert HasTrees(w, s.approved);
    if i == |a.accounts| {
      assert r == (total >= a.threshold, s);
    } else {
      WeightStep(r.1.approved, a.accounts, i);
      var (b, weight) := a.accounts[i];
      if b in s.approved {
        if total + weight < a.threshold {
          assert r == CheckAccounts(w, s, a, depth, i + 1, total + weight);
          AccountsGrow(w, s, a, depth, i + 1, total + weight);
          AccountsJustified(w, s, a, depth, i + 1, total + weight, n);
        } else {
          assert r == (true, s);
        }
      } else if depth == w.max {
        assert r == CheckAccounts(w, s, a, depth, i + 1, total);
        AccountsJustified(w, s, a, depth, i + 1, total, n);
      } else {
        var (ok, t) := Check(w, s, w.active(b), depth + 1);
        CheckJustified(w, s, w.active(b), depth + 1, n);
        if !ok {
          assert r == CheckAccounts(w, t, a, depth, i + 1, total);
          var m: nat :| Justified(w, t.approved, m);
          AccountsJustified(w, t, a, depth, i + 1, total, m);
        } else {
          var u := t.(approved := t.approved + {b});
          var m: nat :| Justified(w, t.approved, m) && Meets(w, w.active(b), m);
          Approved(w, t.approved, b, m);
          if total + weight < a.threshold {
            assert r == CheckAccounts(w, u, a, depth, i + 1, total + weight);
            AccountsGrow(w, u, a, depth, i + 1, total + weight);
            AccountsJustified(w, u, a, depth, i + 1, total + weight, m + 1);
          } else {
            assert r == (true, u) && HasTrees(w, u.approved);
          }
        }
      }
    }
  }

  lemma WeightStep(approved: set<Name>, accounts: seq<(Name, nat)>, i: nat)
    requires i < |accounts|
    ensures ApprovedWeight(approved, accounts[i..])
         == (if accounts[i].0 in approved then accounts[i].1 else 0) + ApprovedWeight(approved, accounts[i + 1..])
  {
    assert accounts[i..][1..] == accounts[i + 1..];
  }

  lemma Approved(w: World, approved: set<Name>, b: Name, m: nat)
    requires Justified(w, approved, m) && Meets(w, w.active(b), m)
    ensures Justified(w, approved + {b}, m + 1)
  {
    hide Meets;
    JustifiedTaller(w, approved, m, m + 1);
    assert Approves(w, b, m + 1);
  }

  /** If the program accepts, a finite approval tree exists, for the authority and for all it has approved. */
  lemma {:induction false} CheckJustified(w: World, s: Seen, a: Authority, depth: nat, n: nat)
    requires depth <= w.max && Justified(w, s.approved, n)
    ensures var (ok, t) := Check(w, s, a, depth);
      exists m: nat :: Justified(w, t.approved, m) && (ok ==> Meets(w, a, m))
    decreases w.max - depth, 1, 0
  {
    hide Justified, Approves;
    KeysTotal(w, s, a, 0, 0);
    assert a.keys[0..] == a.keys && a.accounts[0..] == a.accounts;
    var (done, total, t) := CheckKeys(w, s, a, 0, 0);
    if done {
      assert Justified(w, t.approved, n) && Meets(w, a, n);
    } else {
      AccountsJustified(w, t, a, depth, 0, total, n);
      var (ok, u) := CheckAccounts(w, t, a, depth, 0, total);
      var m: nat :| Justified(w, u.approved, m);
      ApprovedWeightBound(w, u.approved, a.accounts, m);
      assert Check(w, s, a, depth) == (ok, u);
      assert Justified(w, u.approved, m) && (ok ==> Meets(w, a, m));
    }
  }

  // ----- sequences of checks -----

  datatype Request = ByAuthority(authority: Authority) | ByAccount(name: Name)

  function CheckRequest(w: World, s: Seen, r: Request): (bool, Seen) {
    match r
    case ByAuthority(a) => Check(w, s, a, 0)
    case ByAccount(b) => if b in s.approved then (true, s) else Check(w, s, w.active(b), 0)
  }

  function CheckAll(w: World, s: Seen, rs: seq<Request>): (seq<bool>, Seen)
    decreases |rs|
  {
    if rs == [] then ([], s)
    else
      var (ok, t) := CheckRequest(w, s, rs[0]);
      var (oks, u) := CheckAll(w, t, rs[1..]);
      ([ok] + oks, u)
  }

  const FRESH: Seen := Seen({}, {TEMP})

  ghost predicate Granted(w: World, r: Request, n: nat) {
    match r
    case ByAuthority(a) => Meets(w, a, n)
    case ByAccount(b) => Approves(w, b, n)
  }

  /** What the bounded check without memory accepts. */
  ghost predicate WithinDepth(w: World, r: Request) {
    match r
    case ByAuthority(a) => Meets(w, a, w.max)
    case ByAccount(b) => b == TEMP || Meets(w, w.active(b), w.max)
  }

  /** In every sequence of checks each answer lies between the bounded check and the existence of a tree. */
  lemma {:induction false} AnswersBetween(w: World, s: Seen, rs: seq<Request>, i: nat, n: nat)
    requires i < |rs| && TEMP in s.approved && Justified(w, s.approved, n)
    ensures |CheckAll(w, s, rs).0| == |rs|
    ensures WithinDepth(w, rs[i]) ==> CheckAll(w, s, rs).0[i]
    ensures CheckAll(w, s, rs).0[i] ==> exists m: nat :: Granted(w, rs[i], m)
    decreases |rs|
  {
    hide Check, Justified;
    var (ok, t) := CheckRequest(w, s, rs[0]);
    RequestJustified(w, s, rs[0], n);
    AnswerCount(w, t, rs[1..]);
    if i == 0 {
      if WithinDepth(w, rs[0]) {
        RequestAccepts(w, s, rs[0]);
      }
    } else {
      var m: nat :| Justified(w, t.approved, m) && (ok ==> exists k: nat :: Granted(w, rs[0], k));
      AnswersBetween(w, t, rs[1..], i - 1, m);
    }
  }

  lemma {:induction false} AnswerCount(w: World, s: Seen, rs: seq<Request>)
    ensures |CheckAll(w, s, rs).0| == |rs|
    decreases |rs|
  {
    if rs != [] {
      AnswerCount(w, CheckRequest(w, s, rs[0]).1, rs[1..]);
    }
  }

  lemma RequestAccepts(w: World, s: Seen, r: Request)
    requires TEMP in s.approved && WithinDepth(w, r)
    ensures CheckRequest(w, s, r).0
  {
    hide Check, Meets;
    match r
    case ByAuthority(a) => Accepts(w, s, a, 0);
    case ByAccount(b) => if b !in s.approved { Accepts(w, s, w.active(b), 0); }
  }

  lemma RequestJustified(w: World, s: Seen, r: Request, n: nat)
    requires TEMP in s.approved && Justified(w, s.approved, n)
    ensures var (ok, t) := CheckRequest(w, s, r);
      && TEMP in t.approved
      && exists m: nat :: Justified(w, t.approved, m) && (ok ==> exists k: nat :: Granted(w, r, k))
  {
    hide Check, Meets;
    match r
    case ByAuthority(a) =>
      CheckJustified(w, s, a, 0, n);
      ApprovedGrows(w, s, a, 0);
      var m: nat :| Justified(w, Check(w, s, a, 0).1.approved, m) && (Check(w, s, a, 0).0 ==> Meets(w, a, m));
      assert Check(w, s, a, 0).0 ==> Granted(w, r, m);
    case ByAccount(b) =>
      if b in s.approved {
        assert Granted(w, r, n);
      } else {
        CheckJustified(w, s, w.active(b), 0, n);
        ApprovedGrows(w, s, w.active(b), 0);
        var c := Check(w, s, w.active(b), 0);
        var m: nat :| Justified(w, c.1.approved, m) && (c.0 ==> Meets(w, w.active(b), m));
        assert c.0 ==> Granted(w, r, m + 1);
      }
  }

  // ----- replaying with fewer keys -----

  /** v differs from w only in keys that signed but were not used. */
  ghost predicate Narrows(w: World, v: World, used: set<Key>) {
    v.active == w.active && v.max == w.max && used <= v.signed <= w.signed
  }

  lemma {:induction false} KeysReplay(w: World, v: World, s: Seen, t: Seen, a: Authority, i: nat, total: nat)
    requires s.approved == t.approved && Narrows(w, v, CheckKeys(w, s, a, i, total).2.used)
    ensures var (x, y) := (CheckKeys(w, s, a, i, total), CheckKeys(v, t, a, i, total));
      x.0 == y.0 && x.1 == y.1 && x.2.approved == y.2.approved
    decreases |a.keys| - i
  {
    if i < |a.keys| {
      var (k, weight) := a.keys[i];
      if k !in w.signed {
        KeysReplay(w, v, s, t, a, i + 1, total);
      } else {
        var s', t' := s.(used := s.used + {k}), t.(used := t.used + {k});
        KeysGrow(w, s', a, i + 1, total + weight);
        if total + weight < a.threshold {
          KeysReplay(w, v, s', t', a, i + 1, total + weight);
        }
      }
    }
  }

  lemma {:induction false} AccountsReplay(w: World, v: World, s: Seen, t: Seen, a: Authority, depth: nat, i: nat,
                                          total: nat)
    requires depth <= w.max && s.approved == t.approved && Narrows(w, v, CheckAccounts(w, s, a, depth, i, total).1.used)
    ensures var (x, y) := (CheckAccounts(w, s, a, depth, i, total), CheckAccounts(v, t, a, depth, i, total));
      x.0 == y.0 && x.1.approved == y.1.approved
    decreases w.max - depth, 0, |a.accounts| - i
  {
    if i < |a.accounts| {
      var (b, weight) := a.accounts[i];
      if b in s.approved {
        if total + weight < a.threshold {
          AccountsReplay(w, v, s, t, a, depth, i + 1, total + weight);
        }
      } else if depth == w.max {
        AccountsReplay(w, v, s, t, a, depth, i + 1, total);
      } else {
        var (ok, s') := Check(w, s, w.active(b), depth + 1);
        var (ok', t') := Check(v, t, v.active(b), depth + 1);
        if !ok {
          AccountsGrow(w, s', a, depth, i + 1, total);
          CheckReplay(w, v, s, t, w.active(b), depth + 1);
          AccountsReplay(w, v, s', t', a, depth, i + 1, total);
        } else {
          var s'', t'' := s'.(approved := s'.approved + {b}), t'.(approved := t'.approved + {b});
          AccountsGrow(w, s'', a, depth, i + 1, total + weight);
          CheckReplay(w, v, s, t, w.active(b), depth + 1);
          if total + weight < a.threshold {
            AccountsReplay(w, v, s'', t'', a, depth, i + 1, total + weight);
          }
        }
      }
    }
  }

  lemma {:induction false} CheckReplay(w: World, v: World, s: Seen, t: Seen, a: Authority, depth: nat)
    requires depth <= w.max && s.approved == t.approved && Narrows(w, v, Check(w, s, a, depth).1.used)
    ensures var (x, y) := (Check(w, s, a, depth), Check(v, t, a, depth));
      x.0 == y.0 && x.1.approved == y.1.approved
    decreases w.max - depth, 1, 0
  {
    var (done, total, s') := CheckKeys(w, s, a, 0, 0);
    if !done {
      AccountsGrow(w, s', a, depth, 0, total);
    }
    KeysReplay(w, v, s, t, a, 0, 0);
    if !done {
      AccountsReplay(w, v, s', CheckKeys(v, t, a, 0, 0).2, a, depth, 0, total);
    }
  }

  lemma {:induction false} AllGrow(w: World, s: Seen, rs: seq<Request>)
    ensures Grows(w, s, CheckAll(w, s, rs).1)
    decreases |rs|
  {
    hide Check;
    if rs != [] {
      RequestGrows(w, s, rs[0]);
      AllGrow(w, CheckRequest(w, s, rs[0]).1, rs[1..]);
    }
  }

  lemma RequestGrows(w: World, s: Seen, r: Request)
    ensures Grows(w, s, CheckRequest(w, s, r).1)
  {
    hide Check;
    match r
    case ByAuthority(a) => ApprovedGrows(w, s, a, 0);
    case ByAccount(b) => ApprovedGrows(w, s, w.active(b), 0);
  }

  /** Any keys that include all used ones give the same answers and approvals: unused signatures do nothing. */
  lemma {:induction false} ReplayAgrees(w: World, v: World, s: Seen, t: Seen, rs: seq<Request>)
    requires s.approved == t.approved && Narrows(w, v, CheckAll(w, s, rs).1.used)
    ensures CheckAll(v, t, rs).0 == CheckAll(w, s, rs).0
    ensures CheckAll(v, t, rs).1.approved == CheckAll(w, s, rs).1.approved
    decreases |rs|
  {
    hide Check;
    if rs != [] {
      var (ok, s') := CheckRequest(w, s, rs[0]);
      AllGrow(w, s', rs[1..]);
      RequestReplays(w, v, s, t, rs[0]);
      ReplayAgrees(w, v, s', CheckRequest(v, t, rs[0]).1, rs[1..]);
    }
  }

  /** A fresh check with only the keys that the first one used gives the same answers and approvals. */
  lemma UsedKeysSuffice(w: World, rs: seq<Request>)
    ensures var (answers, seen) := CheckAll(w, FRESH, rs);
      var (again, seen') := CheckAll(w.(signed := seen.used), FRESH, rs);
      again == answers && seen'.approved == seen.approved
  {
    hide CheckRequest;
    AllGrow(w, FRESH, rs);
    ReplayAgrees(w, w.(signed := CheckAll(w, FRESH, rs).1.used), FRESH, FRESH, rs);
  }

  lemma RequestReplays(w: World, v: World, s: Seen, t: Seen, r: Request)
    requires s.approved == t.approved && Narrows(w, v, CheckRequest(w, s, r).1.used)
    ensures CheckRequest(w, s, r).0 == CheckRequest(v, t, r).0
    ensures CheckRequest(w, s, r).1.approved == CheckRequest(v, t, r).1.approved
  {
    hide Check;
    match r
    case ByAuthority(a) => CheckReplay(w, v, s, t, a, 0);
    case ByAccount(b) =>
      if b !in s.approved {
        CheckReplay(w, v, s, t, w.active(b), 0);
      }
  }

  // ----- the object that checks -----

  function UsedKeys(provided: map<Key, bool>): set<Key> {
    set k | k in provided && provided[k]
  }

  class SignState {
    const active: Name -> Authority
    const available: set<Key>
    const max: nat
    var provided: map<Key, bool>
    var approved: set<Name>

    function TheWorld(): World
      reads this
    {
      World(active, provided.Keys + available, max)
    }

    function TheSeen(): Seen
      reads this
    {
      Seen(UsedKeys(provided), approved)
    }

    constructor (signatures: set<Key>, active: Name -> Authority, keys: set<Key>, max: nat)
      ensures TheWorld() == World(active, signatures + keys, max) && TheSeen() == FRESH
      ensures provided.Keys == signatures && available == keys
    {
      this.active, this.available, this.max := active, keys, max;
      provided, approved := map k | k in signatures :: false, {TEMP};
    }

    /** Whether there is a signature for the key or one can be made; a key that is asked for counts as used. */
    method SignedBy(k: Key) returns (ok: bool)
      modifies this`provided
      ensures ok <==> k in old(TheWorld()).signed
      ensures TheWorld() == old(TheWorld())
      ensures TheSeen() == if ok then old(TheSeen()).(used := old(TheSeen()).used + {k}) else old(TheSeen())
    {
      if k !in provided {
        if k in available {
          provided := provided[k := true];
          assert provided.Keys + available == old(provided).Keys + available;
          return true;
        }
        return false;
      }
      provided := provided[k := true];
      assert provided.Keys == old(provided).Keys;
      return true;
    }

    method CheckAuthority(a: Authority, depth: nat) returns (ok: bool)
      requires depth <= max
      modifies this`provided, this`approved
      ensures TheWorld() == old(TheWorld())
      ensures (ok, TheSeen()) == Check(old(TheWorld()), old(TheSeen()), a, depth)
      decreases max - depth
    {
      var total: nat, i := 0, 0;
      while i < |a.keys|
        invariant 0 <= i <= |a.keys| && TheWorld() == old(TheWorld())
        invariant CheckKeys(old(TheWorld()), old(TheSeen()), a, 0, 0)
          == CheckKeys(old(TheWorld()), TheSeen(), a, i, total)
      {
        var signed := SignedBy(a.keys[i].0);
        if signed {
          total := total + a.keys[i].1;
          if total >= a.threshold {
            return true;
          }
        }
        i := i + 1;
      }
      ghost var seen, t := TheSeen(), total;
      i := 0;
      while i < |a.accounts|
        invariant 0 <= i <= |a.accounts| && TheWorld() == old(TheWorld())
        invariant CheckAccounts(old(TheWorld()), seen, a, depth, 0, t)
          == CheckAccounts(old(TheWorld()), TheSeen(), a, depth, i, total)
      {
        var (b, weight) := a.accounts[i];
        if b !in approved {
          if depth < max {
            var met := CheckAuthority(active(b), depth + 1);
            if met {
              approved := approved + {b};
              total := total + weight;
              if total >= a.threshold {
                return true;
              }
            }
          }
        } else {
          total := total + weight;
          if total >= a.threshold {
            return true;
          }
        }
        i := i + 1;
      }
      return total >= a.threshold;
    }

    method CheckAccount(b: Name) returns (ok: bool)
      modifies this`provided, this`approved
      ensures TheWorld() == old(TheWorld())
      ensures (ok, TheSeen()) == CheckRequest(old(TheWorld()), old(TheSeen()), ByAccount(b))
    {
      if b in approved {
        return true;
      }
      ok := CheckAuthority(active(b), 0);
    }

    /** Drops the signatures that no check used; tells whether there were any. */
    method RemoveUnusedSignatures() returns (some: bool)
      modifies this`provided
      ensures provided == map k | k in old(provided) && old(provided)[k] :: true
      ensures some <==> exists k :: k in old(provided) && !old(provided)[k]
    {
      var todo, unused := provided.Keys, {};
      while todo != {}
        invariant todo <= provided.Keys && provided == old(provided)
        invariant unused == set k | k in provided && k !in todo && !provided[k]
      {
        var k :| k in todo;
        if !provided[k] {
          unused := unused + {k};
        }
        todo := todo - {k};
      }
      some := unused != {};
      assert some ==> exists k :: k in unused;
      todo := unused;
      while todo != {}
        invariant todo <= unused && provided == old(provided) - (unused - todo)
      {
        var k :| k in todo;
        provided := provided - {k};
        todo := todo - {k};
      }
    }
  }
}
