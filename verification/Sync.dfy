/**
 Bookkeeping of block synchronization: which blocks each peer has offered, which are outstanding at which
 peer, and the set of all blocks asked for. Every message handler is one step.
 */
module Sync {
  import opened ChainTypes

  type PeerId = nat

  datatype ItemId = ItemId(num: nat, hash: nat)

  datatype Peer = Peer(
    connected: bool,
    toGet: seq<ItemId>,
    requested: set<ItemId>,
    processing: set<ItemId>,
    needSync: bool,
    inhibited: bool,
    busy: bool,
    asked: Option<seq<ItemId>>,
    unfetched: nat)

  const NEW_PEER: Peer := Peer(true, [], {}, {}, false, false, false, None, 0)

  datatype Net = Net(peers: map<PeerId, Peer>, active: set<ItemId>, received: seq<ItemId>)

  predicate Idle(x: Peer) {
    !x.busy && x.requested == {} && x.asked.None?
  }

  // ----- the invariant -----

  ghost predicate Consecutive(ids: seq<ItemId>) {
    forall i {:trigger ids[i]} :: 0 <= i < |ids| ==> ids[i].num == ids[0].num + i
  }

  /** Each peer's list is consecutive and what it owes is in the table of requests. */
  ghost predicate PeerOk(x: Peer, active: set<ItemId>) {
    Consecutive(x.toGet) && x.requested <= active
  }

  ghost predicate SyncOk(n: Net) {
    && (forall p {:trigger n.peers[p]} :: p in n.peers ==> PeerOk(n.peers[p], n.active))
    && (forall p, q {:trigger n.peers[p], n.peers[q]} :: p in n.peers && q in n.peers && p != q ==>
          n.peers[p].requested !! n.peers[q].requested)
  }

  // ----- asking for blocks -----

  /** Up to `most` blocks (at least one) of the list, without those excluded. */
  function Picked(ids: seq<ItemId>, i: nat, excluded: set<ItemId>, picked: seq<ItemId>, most: nat): seq<ItemId>
    decreases |ids| - i
  {
    if i >= |ids| then picked
    else if ids[i] in excluded || ids[i] in picked then Picked(ids, i + 1, excluded, picked, most)
    else if |picked| + 1 >= most then picked + [ids[i]]
    else Picked(ids, i + 1, excluded, picked + [ids[i]], most)
  }

  predicate MayAsk(x: Peer) {
    x.connected && x.needSync && Idle(x) && !x.inhibited
  }

  function ItemsOf(ids: seq<ItemId>): set<ItemId> {
    set id | id in ids
  }

  function Request(n: Net, p: PeerId, items: seq<ItemId>): Net
    requires p in n.peers
  {
    n.(active := n.active + ItemsOf(items),
       peers := n.peers[p := n.peers[p].(requested := n.peers[p].requested + ItemsOf(items))])
  }

  /** One iteration of the fetch loop over the peers in some order, peer by peer. */
  function Fetched(n: Net, order: seq<PeerId>, most: nat): Net
    decreases |order|
  {
    if order == [] then n
    else
      var p := order[0];
      var m := if p in n.peers && MayAsk(n.peers[p])
               then Request(n, p, Picked(n.peers[p].toGet, 0, n.active + ItemsOf(n.received), [], most))
               else n;
      Fetched(m, order[1..], most)
  }

  // ----- hearing what a peer has -----

  /** The peer's list after a list of offered blocks; `known` are the blocks this node has. */
  function Spliced(toGet: seq<ItemId>, offered: seq<ItemId>, known: set<ItemId>, firstElsewhere: bool): seq<ItemId> {
    if offered == [] then toGet
    else if toGet == [] then if firstElsewhere then offered else Unknown(offered, known)
    else
      var kept := CutAfter(toGet, offered[0]);
      if kept == [] then offered[1..] else kept[..|kept| - 1] + offered
  }

  /** Without the known blocks at the front. */
  function Unknown(ids: seq<ItemId>, known: set<ItemId>): seq<ItemId> {
    if ids != [] && ids[0] in known then Unknown(ids[1..], known) else ids
  }

  /** The list up to the last occurrence of an id; empty if there is none. */
  function CutAfter(ids: seq<ItemId>, id: ItemId): seq<ItemId>
    decreases |ids|
  {
    if ids != [] && ids[|ids| - 1] != id then CutAfter(ids[..|ids| - 1], id) else ids
  }

  /** A valid answer is consecutive and starts in the synopsis, or at block 1 if that was empty. */
  ghost predicate ValidAnswer(synopsis: seq<ItemId>, offered: seq<ItemId>) {
    offered == []
    || (Consecutive(offered) && if synopsis == [] then offered[0].num == 1 else offered[0] in synopsis)
  }

  ghost predicate FirstElsewhere(n: Net, p: PeerId, id: ItemId) {
    exists q :: q in n.peers && q != p && n.peers[q].connected && n.peers[q].toGet != [] && n.peers[q].toGet[0] == id
  }

  predicate UpToDate(x: Peer, offered: seq<ItemId>, remaining: nat, known: set<ItemId>) {
    remaining == 0 && (offered == [] || (|offered| == 1 && offered[0] in known)) && x.toGet == [] && x.unfetched == 0
  }

  /** `plausible` is the check of the last offered block's time. */
  ghost function Heard(n: Net, p: PeerId, offered: seq<ItemId>, remaining: nat, known: set<ItemId>,
                       plausible: bool): Net {
    if p !in n.peers || n.peers[p].asked.None? then n
    else
      var x := n.peers[p];
      if !ValidAnswer(x.asked.value, offered) then n.(peers := n.peers[p := x.(connected := false)])
      else if UpToDate(x, offered, remaining, known)
        then n.(peers := n.peers[p := x.(asked := None, needSync := false)])
      else
        var toGet := Spliced(x.toGet, offered, known, offered != [] && FirstElsewhere(n, p, offered[0]));
        n.(peers := n.peers[p := x.(asked := None, toGet := toGet, unfetched := remaining,
          connected := x.connected && plausible)])
  }

  // ----- receiving and processing blocks -----

  function Received(n: Net, p: PeerId, id: ItemId): Net {
    if p !in n.peers then n
    else
      var x := n.peers[p];
      if id in x.requested then
        Net(n.peers[p := x.(requested := x.requested - {id})], n.active - {id}, [id] + n.received)
      else n.(peers := n.peers[p := x.(connected := false)])
  }

  function NotAvailable(n: Net, p: PeerId, id: ItemId, needsUs: bool): Net {
    if p !in n.peers || id !in n.peers[p].requested then n
    else
      var x := n.peers[p];
      n.(peers := n.peers[p := x.(requested := x.requested - {id},
                                  inhibited := x.inhibited || needsUs,
                                  connected := x.connected && needsUs)])
  }

  function Closed(n: Net, p: PeerId): Net {
    if p !in n.peers then n
    else n.(peers := n.peers - {p}, active := n.active - n.peers[p].requested)
  }

  /** A peer whose next block this is drops it from its list. */
  function Advanced(x: Peer, id: ItemId): Peer {
    if IsNext(x, id)
    then x.(toGet := x.toGet[1..], processing := x.processing + {id})
    else x
  }

  predicate IsNext(x: Peer, id: ItemId) {
    x.connected && x.toGet != [] && x.toGet[0] == id
  }

  /** A received block that is next at some peer goes to the chain, or is dropped again if that has seen it. */
  ghost function Processed(n: Net, id: ItemId, seen: bool): Net {
    if id !in n.received || forall p {:trigger n.peers[p]} :: p in n.peers ==> !IsNext(n.peers[p], id) then n
    else
      n.(peers := map p | p in n.peers ::
           var x := Advanced(n.peers[p], id); if seen then x.(processing := x.processing - {id}) else x,
         received := if seen then n.received else Without(n.received, id))
  }

  function Without(ids: seq<ItemId>, id: ItemId): seq<ItemId> {
    if ids == [] then [] else if ids[0] == id then ids[1..] else [ids[0]] + Without(ids[1..], id)
  }

  /** The block was handled; peers that offered it are told, inhibited or dropped. */
  function Handled(n: Net, id: ItemId, inhibit: bool, drop: set<PeerId>): Net {
    n.(peers := map p | p in n.peers ::
         n.peers[p].(processing := n.peers[p].processing - {id},
                     inhibited := n.peers[p].inhibited || (inhibit && id in n.peers[p].processing),
                     connected := n.peers[p].connected && p !in drop))
  }

  function Started(n: Net, p: PeerId, synopsis: seq<ItemId>): Net {
    if p !in n.peers then n
    else n.(peers := n.peers[p := n.peers[p].(toGet := [], unfetched := 0, needSync := true, inhibited := false,
      asked := Some(synopsis))])
  }

  function Asked(n: Net, p: PeerId, synopsis: seq<ItemId>): Net {
    if p !in n.peers then n else n.(peers := n.peers[p := n.peers[p].(asked := Some(synopsis))])
  }

  datatype Event =
    | Fetch(order: seq<PeerId>, most: nat)
    | Inventory(peer: PeerId, offered: seq<ItemId>, remaining: nat, known: set<ItemId>, plausible: bool)
    | Block(peer: PeerId, id: ItemId)
    | Missing(peer: PeerId, id: ItemId, needsUs: bool)
    | Close(peer: PeerId)
    | Disconnect(peer: PeerId)
    | Connect(peer: PeerId)
    | Process(id: ItemId, seen: bool)
    | Handle(id: ItemId, inhibit: bool, drop: set<PeerId>)
    | Start(peer: PeerId, synopsis: seq<ItemId>)
    | Ask(peer: PeerId, synopsis: seq<ItemId>)

  ghost function Happens(n: Net, e: Event): Net {
    match e
    case Fetch(order, most) => Fetched(n, order, most)
    case Inventory(p, offered, remaining, known, plausible) => Heard(n, p, offered, remaining, known, plausible)
    case Block(p, id) => Received(n, p, id)
    case Missing(p, id, needsUs) => NotAvailable(n, p, id, needsUs)
    case Close(p) => Closed(n, p)
    case Disconnect(p) => if p in n.peers then n.(peers := n.peers[p := n.peers[p].(connected := false)]) else n
    case Connect(p) => if p in n.peers then n else n.(peers := n.peers[p := NEW_PEER])
    case Process(id, seen) => Processed(n, id, seen)
    case Handle(id, inhibit, drop) => Handled(n, id, inhibit, drop)
    case Start(p, synopsis) => Started(n, p, synopsis)
    case Ask(p, synopsis) => Asked(n, p, synopsis)
  }

  // ----- which blocks are asked for -----

  /** The picked blocks are, each once, the first ones of the list that are not excluded; there are `most`
      of them, or one if that is zero, or all there are. */
  ghost predicate FirstOnes(ids: seq<ItemId>, n: nat, excluded: set<ItemId>, picked: seq<ItemId>, most: nat) {
    && n <= |ids|
    && (forall i, j {:trigger picked[i], picked[j]} :: 0 <= i < j < |picked| ==> picked[i] != picked[j])
    && (forall id {:trigger id in picked} :: id in picked <==> id in ids[..n] && id !in excluded)
    && |picked| <= AtLeastOne(most)
    && (n < |ids| ==> |picked| == AtLeastOne(most))
  }

  function AtLeastOne(most: nat): nat {
    if most == 0 then 1 else most
  }

  lemma {:induction false} PickedFrom(ids: seq<ItemId>, i: nat, excluded: set<ItemId>, picked: seq<ItemId>, most: nat)
    returns (n: nat)
    requires i <= |ids| && |picked| < AtLeastOne(most)
    requires forall j, k {:trigger picked[j], picked[k]} :: 0 <= j < k < |picked| ==> picked[j] != picked[k]
    requires forall id {:trigger id in picked} :: id in picked <==> id in ids[..i] && id !in excluded
    ensures FirstOnes(ids, n, excluded, Picked(ids, i, excluded, picked, most), most)
    decreases |ids| - i
  {
    if i >= |ids| {
      n := i;
    } else {
      assert ids[..i + 1] == ids[..i] + [ids[i]];
      if ids[i] in excluded || ids[i] in picked {
        n := PickedFrom(ids, i + 1, excluded, picked, most);
      } else if |picked| + 1 >= most {
        n := i + 1;
      } else {
        n := PickedFrom(ids, i + 1, excluded, picked + [ids[i]], most);
      }
    }
  }

  lemma PickedIs(ids: seq<ItemId>, excluded: set<ItemId>, most: nat) returns (n: nat)
    ensures FirstOnes(ids, n, excluded, Picked(ids, 0, excluded, [], most), most)
  {
    n := PickedFrom(ids, 0, excluded, [], most);
  }

  /** What an iteration of the fetch loop does for one peer: if it is connected, idle, not inhibited and offers blocks
      this node needs, it is asked for some of these, unless all of them are already asked for or received. */
  ghost predicate Served(x: Peer, y: Peer, n: Net, r: Net, most: nat) {
    if x.connected && x.needSync && !x.busy && x.requested == {} && x.asked.None? && !x.inhibited then
      && y == x.(requested := y.requested) && |y.requested| <= AtLeastOne(most)
      && (forall id {:trigger id in y.requested} :: id in y.requested ==>
            id in x.toGet && id !in n.active && id !in n.received && id in r.active)
      && (y.requested == {} ==> forall id {:trigger id in x.toGet} ::
        id in x.toGet ==> id in r.active || id in r.received)
    else y == x
  }

  lemma {:induction false} ItemCount(ids: seq<ItemId>)
    ensures |ItemsOf(ids)| <= |ids|
  {
    if ids == [] {
      assert ItemsOf(ids) == {};
    } else {
      ItemCount(ids[1..]);
      assert ItemsOf(ids) == ItemsOf(ids[1..]) + {ids[0]};
    }
  }

  lemma NoItems(ids: seq<ItemId>)
    ensures ids != [] ==> ids[0] in ItemsOf(ids)
  {}

  lemma RequestServes(n: Net, p: PeerId, most: nat)
    requires p in n.peers && MayAsk(n.peers[p])
    ensures var items := Picked(n.peers[p].toGet, 0, n.active + ItemsOf(n.received), [], most);
      var r := Request(n, p, items);
      && Served(n.peers[p], r.peers[p], n, r, most) && r.received == n.received && n.active <= r.active
      && r.peers == n.peers[p := r.peers[p]]
  {
    hide Picked;
    var items := Picked(n.peers[p].toGet, 0, n.active + ItemsOf(n.received), [], most);
    var k := PickedIs(n.peers[p].toGet, n.active + ItemsOf(n.received), most);
    ItemCount(items);
    var r := Request(n, p, items);
    assert r.peers[p].requested == ItemsOf(items);
    NoItems(items);
    if items == [] {
      assert n.peers[p].toGet[..k] == n.peers[p].toGet;
      forall id | id in n.peers[p].toGet
        ensures id in r.active || id in r.received
      {
        assert id !in items;
      }
    }
  }

  lemma ServedLater(x: Peer, y: Peer, n: Net, m: Net, r: Net, most: nat)
    requires Served(x, y, m, r, most) && n.active <= m.active && n.received == m.received
    ensures Served(x, y, n, r, most)
  {}

  lemma ServedBefore(x: Peer, y: Peer, n: Net, m: Net, r: Net, most: nat)
    requires Served(x, y, n, m, most) && m.active <= r.active && r.received == m.received
    ensures Served(x, y, n, r, most)
  {}

  lemma {:induction false} FetchedServes(n: Net, order: seq<PeerId>, most: nat, p: PeerId)
    requires p in n.peers && forall i, j {:trigger order[i], order[j]} :: 0 <= i < j < |order| ==> order[i] != order[j]
    ensures var r := Fetched(n, order, most);
      && p in r.peers && n.active <= r.active && r.received == n.received
      && if p in order then Served(n.peers[p], r.peers[p], n, r, most) else r.peers[p] == n.peers[p]
    decreases |order|
  {
    hide Picked, Served, MayAsk, ItemsOf;
    if order != [] {
      var q := order[0];
      var items := if q in n.peers && MayAsk(n.peers[q]) then
        Picked(n.peers[q].toGet, 0, n.active + ItemsOf(n.received), [], most) else [];
      var m := if q in n.peers && MayAsk(n.peers[q]) then Request(n, q, items) else n;
      var r := Fetched(m, order[1..], most);
      if q in n.peers && MayAsk(n.peers[q]) {
        RequestServes(n, q, most);
      } else if q == p {
        NotServed(n.peers[p], n, r, most);
      }
      assert forall i {:trigger order[1..][i]} ::
        0 <= i < |order| - 1 ==> order[1..][i] == order[i + 1] && order[i + 1] != q;
      FetchedServes(m, order[1..], most, p);
      if q == p {
        if q in n.peers && MayAsk(n.peers[q]) {
          ServedBefore(n.peers[p], m.peers[p], n, m, r, most);
        }
      } else if p in order[1..] {
        ServedLater(n.peers[p], r.peers[p], n, m, r, most);
      }
    }
  }

  lemma NotServed(x: Peer, n: Net, r: Net, most: nat)
    requires !MayAsk(x)
    ensures Served(x, x, n, r, most)
  {}

  // ----- what a peer's list becomes -----

  /** An offered list goes behind the last place where its first block is; if that is nowhere, its first block is
      dropped and it replaces the list. A peer without a list gets it whole if another one is about to fetch its first
      block, and else from the first block on that this node does not have. */
  lemma SplicedIs(toGet: seq<ItemId>, offered: seq<ItemId>, known: set<ItemId>, elsewhere: bool)
    ensures var r := Spliced(toGet, offered, known, elsewhere);
      && (offered == [] ==> r == toGet)
      && (offered != [] && toGet != [] && offered[0] !in toGet ==> r == offered[1..])
      && (forall j {:trigger toGet[j]} :: 0 <= j < |toGet| && offered != [] ==>
            toGet[j] == offered[0] && offered[0] !in toGet[j + 1..] ==> r == toGet[..j] + offered)
      && (offered != [] && toGet == [] && elsewhere ==> r == offered)
      && (offered != [] && toGet == [] && !elsewhere ==>
            && |r| <= |offered| && r == offered[|offered| - |r|..] && (r != [] ==> r[0] !in known)
            && forall i {:trigger offered[i]} :: 0 <= i < |offered| - |r| ==> offered[i] in known)
  {
    if offered != [] {
      UnknownIs(offered, known);
      if offered[0] !in toGet {
        CutAfterNone(toGet, offered[0]);
      }
      forall j | 0 <= j < |toGet| && toGet[j] == offered[0] && offered[0] !in toGet[j + 1..]
        ensures CutAfter(toGet, offered[0]) == toGet[..j + 1]
      {
        CutAfterLast(toGet, offered[0], j);
      }
    }
  }

  lemma {:induction false} UnknownIs(ids: seq<ItemId>, known: set<ItemId>)
    ensures var r := Unknown(ids, known);
      && |r| <= |ids| && r == ids[|ids| - |r|..] && (r != [] ==> r[0] !in known)
      && forall i {:trigger ids[i]} :: 0 <= i < |ids| - |r| ==> ids[i] in known
    decreases |ids|
  {
    if ids != [] && ids[0] in known {
      UnknownIs(ids[1..], known);
      assert forall i {:trigger ids[i]} :: 0 < i < |ids| ==> ids[i] == ids[1..][i - 1];
    }
  }

  lemma {:induction false} CutAfterNone(ids: seq<ItemId>, id: ItemId)
    requires id !in ids
    ensures CutAfter(ids, id) == []
    decreases |ids|
  {
    if ids != [] {
      CutAfterNone(ids[..|ids| - 1], id);
    }
  }

  lemma {:induction false} CutAfterLast(ids: seq<ItemId>, id: ItemId, j: nat)
    requires j < |ids| && ids[j] == id && id !in ids[j + 1..]
    ensures CutAfter(ids, id) == ids[..j + 1]
    decreases |ids|
  {
    var n := |ids| - 1;
    if j < n {
      assert ids[n] == ids[j + 1..][n - j - 1];
      assert ids[j + 1..n] <= ids[j + 1..];
      assert ids[..n][j + 1..] == ids[j + 1..n];
      CutAfterLast(ids[..n], id, j);
      assert ids[..n][..j + 1] == ids[..j + 1];
    }
  }

  lemma AnswerFitsIff(synopsis: seq<ItemId>, offered: seq<ItemId>)
    ensures ValidAnswer(synopsis, offered) <==>
      offered == []
      || ((forall i {:trigger offered[i]} :: 0 <= i < |offered| ==> offered[i].num == offered[0].num + i)
          && if synopsis == [] then offered[0].num == 1 else offered[0] in synopsis)
  {}

  /** An answer that does not fit the question costs the peer its connection. One that has nothing new for a peer
      without a list ends the synchronization with it. Any other is spliced into its list,
        and the peer is dropped if the
      last block cannot be in time. */
  lemma HeardIs(n: Net, p: PeerId, offered: seq<ItemId>, remaining: nat, known: set<ItemId>, plausible: bool)
    requires p in n.peers && n.peers[p].asked.Some?
    ensures var r := Heard(n, p, offered, remaining, known, plausible);
      var x, y := n.peers[p], r.peers[p];
      var fits := ValidAnswer(x.asked.value, offered);
      var nothingNew := remaining == 0 && x.unfetched == 0 && x.toGet == []
        && (offered == [] || (|offered| == 1 && offered[0] in known));
      && r == n.(peers := n.peers[p := y])
      && y == x.(connected := y.connected, asked := y.asked, needSync := y.needSync, toGet := y.toGet,
        unfetched := y.unfetched)
      && (y.connected <==> x.connected && fits && (plausible || nothingNew))
      && (y.asked == if fits then None else x.asked)
      && (y.needSync <==> x.needSync && !(fits && nothingNew))
      && (y.unfetched == if fits then remaining else x.unfetched)
      && (y.toGet == if !fits || nothingNew then x.toGet
                     else Spliced(x.toGet, offered, known, offered != [] && FirstElsewhere(n, p, offered[0])))
  {
    hide Spliced, ValidAnswer, FirstElsewhere;
  }

  /** A block that was not asked for costs the peer its connection; one that was is taken off its list of requests. */
  lemma ReceivedIs(n: Net, p: PeerId, id: ItemId)
    requires p in n.peers
    ensures var r, x := Received(n, p, id), n.peers[p];
      && r.peers == n.peers[p := if id in x.requested then x.(requested := x.requested - {id})
        else x.(connected := false)]
      && r.received == if id in x.requested then [id] + n.received else n.received
  {}

  /** A peer that does not have a block is not asked for it again; it is inhibited if it needs blocks from this node,
      and else dropped. */
  lemma MissingIs(n: Net, p: PeerId, id: ItemId, needsUs: bool)
    requires p in n.peers && id in n.peers[p].requested
    ensures var r, x := NotAvailable(n, p, id, needsUs), n.peers[p];
      && r.active == n.active && r.received == n.received
      && r.peers == n.peers[p := if needsUs then x.(requested := x.requested - {id}, inhibited := true)
                                 else x.(requested := x.requested - {id}, connected := false)]
  {}

  /** A received block that is next at some peer is dropped from the lists of all peers at which it is next; unless the
      chain has seen it, these wait for the result. */
  lemma ProcessedIs(n: Net, id: ItemId, seen: bool, p: PeerId)
    requires p in n.peers && id in n.received
    ensures var r, x := Processed(n, id, seen), n.peers[p];
      var next := x.connected && x.toGet != [] && x.toGet[0] == id;
      && p in r.peers
      && (next ==> r.peers[p] == x.(toGet := x.toGet[1..],
            processing := if seen then x.processing - {id} else x.processing + {id}))
      && (!next ==> r.peers[p] == x || (seen && r.peers[p] == x.(processing := x.processing - {id})))
  {}

  /** When a block was handled no peer waits for it any more; those that waited may be inhibited, and peers dropped. */
  lemma HandledIs(n: Net, id: ItemId, inhibit: bool, drop: set<PeerId>, p: PeerId)
    requires p in n.peers
    ensures var r, x := Handled(n, id, inhibit, drop), n.peers[p];
      && r.active == n.active && r.received == n.received && p in r.peers
      && r.peers[p] == x.(processing := x.processing - {id},
           inhibited := if inhibit && id in x.processing then true else x.inhibited,
           connected := if p in drop then false else x.connected)
  {}

  // ----- what enters and leaves the table of requests -----

  /** A block leaves the table of requests exactly when it arrives from a peer that was asked for it, or such a peer's
      connection is closed. */
  lemma LeavesTableIff(n: Net, e: Event, id: ItemId)
    requires id in n.active
    ensures id !in Happens(n, e).active <==>
      || (e.Block? && e.id == id && e.peer in n.peers && id in n.peers[e.peer].requested)
      || (e.Close? && e.peer in n.peers && id in n.peers[e.peer].requested)
    ensures e.Block? && id !in Happens(n, e).active ==> id in Happens(n, e).received
  {
    if e.Fetch? {
      FetchedGrows(n, e.order, e.most);
    }
  }

  lemma {:induction false} FetchedGrows(n: Net, order: seq<PeerId>, most: nat)
    ensures n.active <= Fetched(n, order, most).active && Fetched(n, order, most).received == n.received
    decreases |order|
  {
    hide Picked, MayAsk;
    if order != [] {
      var p := order[0];
      var m := if p in n.peers && MayAsk(n.peers[p])
               then Request(n, p, Picked(n.peers[p].toGet, 0, n.active + ItemsOf(n.received), [], most))
               else n;
      FetchedGrows(m, order[1..], most);
    }
  }

  /** It enters only by a fetch. A received block leaves the list of received ones exactly when it is next at some peer
      and the chain has not seen it. */
  lemma EntersTableOnly(n: Net, e: Event, id: ItemId)
    ensures id !in n.active && id in Happens(n, e).active ==> e.Fetch?
    ensures multiset(Happens(n, e).received)[id] < multiset(n.received)[id] <==>
      && e.Process? && e.id == id && !e.seen && id in n.received
      && exists p :: p in n.peers && n.peers[p].connected && n.peers[p].toGet != [] && n.peers[p].toGet[0] == id
  {
    hide Picked, MayAsk, Fetched, Heard, Handled, Started, Asked, Processed, Without;
    if e.Fetch? {
      FetchedGrows(n, e.order, e.most);
    } else if e.Process? {
      ProcessedTakesOne(n, e.id, e.seen, id);
    } else {
      OthersKeepReceived(n, e);
    }
  }

  lemma OthersKeepReceived(n: Net, e: Event)
    requires !e.Fetch? && !e.Process?
    ensures Happens(n, e).active <= n.active
    ensures Happens(n, e).received == n.received || (e.Block? && Happens(n, e).received == [e.id] + n.received)
  {
    hide Spliced, ValidAnswer, FirstElsewhere, UpToDate;
  }

  lemma ProcessedTakesOne(n: Net, taken: ItemId, seen: bool, id: ItemId)
    ensures Processed(n, taken, seen).active == n.active
    ensures multiset(Processed(n, taken, seen).received)[id] < multiset(n.received)[id] <==>
      && taken == id && !seen && id in n.received
      && exists p :: p in n.peers && n.peers[p].connected && n.peers[p].toGet != [] && n.peers[p].toGet[0] == id
  {
    WithoutOne(n.received, taken);
  }

  lemma {:induction false} WithoutOne(ids: seq<ItemId>, id: ItemId)
    ensures multiset(Without(ids, id)) == multiset(ids) - multiset{id}
    decreases |ids|
  {
    if ids != [] {
      assert ids == [ids[0]] + ids[1..];
      if ids[0] != id {
        WithoutOne(ids[1..], id);
      }
    }
  }

  // ----- every event keeps the invariant -----

  lemma {:induction false} PickedFresh(ids: seq<ItemId>, i: nat, excluded: set<ItemId>, picked: seq<ItemId>, most: nat)
    requires ItemsOf(picked) !! excluded
    ensures ItemsOf(Picked(ids, i, excluded, picked, most)) !! excluded
    decreases |ids| - i
  {
    if i < |ids| {
      if ids[i] in excluded || ids[i] in picked {
        PickedFresh(ids, i + 1, excluded, picked, most);
      } else if |picked| + 1 < most {
        PickedFresh(ids, i + 1, excluded, picked + [ids[i]], most);
      }
    }
  }

  lemma RequestOk(n: Net, p: PeerId, items: seq<ItemId>)
    requires SyncOk(n) && p in n.peers && ItemsOf(items) !! n.active
    ensures SyncOk(Request(n, p, items))
  {
    hide Consecutive, ItemsOf;
  }

  lemma {:induction false} FetchedOk(n: Net, order: seq<PeerId>, most: nat)
    requires SyncOk(n)
    ensures SyncOk(Fetched(n, order, most))
    decreases |order|
  {
    hide SyncOk, Picked;
    if order != [] {
      var p := order[0];
      if p in n.peers && MayAsk(n.peers[p]) {
        var excluded := n.active + ItemsOf(n.received);
        PickedFresh(n.peers[p].toGet, 0, excluded, [], most);
        var items := Picked(n.peers[p].toGet, 0, excluded, [], most);
        RequestOk(n, p, items);
        FetchedOk(Request(n, p, items), order[1..], most);
      } else {
        FetchedOk(n, order[1..], most);
      }
    }
  }

  lemma {:induction false} UnknownConsecutive(ids: seq<ItemId>, known: set<ItemId>)
    requires Consecutive(ids)
    ensures Consecutive(Unknown(ids, known))
    decreases |ids|
  {
    if ids != [] && ids[0] in known {
      TailConsecutive(ids);
      UnknownConsecutive(ids[1..], known);
    }
  }

  lemma TailConsecutive(ids: seq<ItemId>)
    requires Consecutive(ids) && ids != []
    ensures Consecutive(ids[1..])
  {
    forall i | 0 <= i < |ids| - 1
      ensures ids[1..][i].num == ids[1..][0].num + i
    {
      assert ids[1..][i] == ids[i + 1] && ids[1..][0] == ids[1];
    }
  }

  lemma {:induction false} CutAfterIsPrefix(ids: seq<ItemId>, id: ItemId)
    ensures var r := CutAfter(ids, id);
      |r| <= |ids| && r == ids[..|r|] && (r != [] ==> r[|r| - 1] == id)
    decreases |ids|
  {
    if ids != [] && ids[|ids| - 1] != id {
      CutAfterIsPrefix(ids[..|ids| - 1], id);
    }
  }

  /** Splicing an offered list into a peer's list keeps it consecutive, whatever fork the peer is on. */
  lemma SplicedConsecutive(toGet: seq<ItemId>, offered: seq<ItemId>, known: set<ItemId>, firstElsewhere: bool)
    requires Consecutive(toGet) && Consecutive(offered)
    ensures Consecutive(Spliced(toGet, offered, known, firstElsewhere))
  {
    if offered != [] {
      UnknownConsecutive(offered, known);
      CutAfterIsPrefix(toGet, offered[0]);
      TailConsecutive(offered);
    }
  }

  lemma OnePeerOk(n: Net, p: PeerId, x: Peer)
    requires SyncOk(n) && p in n.peers && Consecutive(x.toGet) && x.requested <= n.peers[p].requested
    ensures SyncOk(n.(peers := n.peers[p := x]))
  {
    hide Consecutive;
  }

  lemma ReceivedOk(n: Net, p: PeerId, id: ItemId)
    requires SyncOk(n)
    ensures SyncOk(Received(n, p, id))
  {
    hide Consecutive;
    var m := Received(n, p, id);
    forall q | q in m.peers
      ensures PeerOk(m.peers[q], m.active)
    {
      assert PeerOk(n.peers[q], n.active);
      if q != p && p in n.peers && id in n.peers[p].requested {
        assert n.peers[p].requested !! n.peers[q].requested;
      }
    }
  }

  lemma ClosedOk(n: Net, p: PeerId)
    requires SyncOk(n)
    ensures SyncOk(Closed(n, p))
  {
    hide Consecutive;
    var m := Closed(n, p);
    forall q | q in m.peers
      ensures PeerOk(m.peers[q], m.active)
    {
      assert PeerOk(n.peers[q], n.active);
      if p in n.peers {
        assert p != q ==> n.peers[p].requested !! n.peers[q].requested;
      }
    }
  }

  lemma ProcessedOk(n: Net, id: ItemId, seen: bool)
    requires SyncOk(n)
    ensures SyncOk(Processed(n, id, seen))
  {
    hide Consecutive;
    var m := Processed(n, id, seen);
    forall q | q in m.peers
      ensures PeerOk(m.peers[q], m.active)
    {
      assert PeerOk(n.peers[q], n.active);
      if n.peers[q].toGet != [] {
        TailConsecutive(n.peers[q].toGet);
      }
    }
  }

  /** Whatever happens next, lists stay consecutive and every outstanding block stays at one peer and in the table. */
  lemma EventKeepsOk(n: Net, e: Event)
    requires SyncOk(n)
    ensures SyncOk(Happens(n, e))
  {
    hide Consecutive, Spliced, Fetched, Received, Closed, Processed, ValidAnswer, FirstElsewhere;
    match e
    case Fetch(order, most) => FetchedOk(n, order, most);
    case Inventory(p, offered, remaining, known, plausible) => HeardOk(n, p, offered, remaining, known, plausible);
    case Block(p, id) => ReceivedOk(n, p, id);
    case Close(p) => ClosedOk(n, p);
    case Process(id, seen) => ProcessedOk(n, id, seen);
    case Connect(p) => NewPeerOk(n, p);
    case Handle(id, inhibit, drop) => HandledOk(n, id, inhibit, drop);
    case Start(p, synopsis) => StartedOk(n, p, synopsis);
    case _ =>
  }

  lemma HeardOk(n: Net, p: PeerId, offered: seq<ItemId>, remaining: nat, known: set<ItemId>, plausible: bool)
    requires SyncOk(n)
    ensures SyncOk(Heard(n, p, offered, remaining, known, plausible))
  {
    hide Consecutive, Spliced, FirstElsewhere;
    if p in n.peers && n.peers[p].asked.Some? {
      var x := n.peers[p];
      assert PeerOk(x, n.active);
      OnePeerOk(n, p, x.(connected := false));
      OnePeerOk(n, p, x.(asked := None, needSync := false));
      if ValidAnswer(x.asked.value, offered) {
        var first := offered != [] && FirstElsewhere(n, p, offered[0]);
        NothingConsecutive();
        SplicedConsecutive(x.toGet, offered, known, first);
        OnePeerOk(n, p, x.(asked := None, toGet := Spliced(x.toGet, offered, known, first), unfetched := remaining,
          connected := x.connected && plausible));
      }
    }
  }

  lemma NothingConsecutive()
    ensures Consecutive([])
  {}

  lemma NewPeerOk(n: Net, p: PeerId)
    requires SyncOk(n)
    ensures SyncOk(Happens(n, Connect(p)))
  {}

  lemma HandledOk(n: Net, id: ItemId, inhibit: bool, drop: set<PeerId>)
    requires SyncOk(n)
    ensures SyncOk(Handled(n, id, inhibit, drop))
  {
    hide Consecutive;
    var m := Handled(n, id, inhibit, drop);
    forall q | q in m.peers
      ensures PeerOk(m.peers[q], m.active)
    {
      assert PeerOk(n.peers[q], n.active);
    }
  }

  lemma StartedOk(n: Net, p: PeerId, synopsis: seq<ItemId>)
    requires SyncOk(n)
    ensures SyncOk(Started(n, p, synopsis))
  {
    if p in n.peers {
      OnePeerOk(n, p, n.peers[p].(toGet := [], unfetched := 0, needSync := true, inhibited := false,
        asked := Some(synopsis)));
    }
  }

  ghost function AfterAll(n: Net, es: seq<Event>): Net
    decreases |es|
  {
    if es == [] then n else AfterAll(Happens(n, es[0]), es[1..])
  }

  /** In every interleaving of handlers, from a node without peers. */
  lemma {:induction false} AlwaysOk(n: Net, es: seq<Event>)
    requires SyncOk(n)
    ensures SyncOk(AfterAll(n, es))
    decreases |es|
  {
    if es != [] {
      EventKeepsOk(n, es[0]);
      AlwaysOk(Happens(n, es[0]), es[1..]);
    }
  }

  // ----- requests that nobody answers -----

  ghost predicate OutstandingAt(n: Net, p: PeerId, id: ItemId) {
    p in n.peers && id in n.peers[p].requested
  }

  /** In the table of requests, but outstanding at no peer. */
  ghost predicate Lost(n: Net, id: ItemId) {
    id in n.active && forall p {:trigger n.peers[p]} :: p in n.peers ==> id !in n.peers[p].requested
  }

  lemma {:induction false} FetchedLost(n: Net, order: seq<PeerId>, most: nat, id: ItemId)
    requires Lost(n, id)
    ensures Lost(Fetched(n, order, most), id)
    decreases |order|
  {
    hide Picked;
    if order != [] {
      var p := order[0];
      if p in n.peers && MayAsk(n.peers[p]) {
        var excluded := n.active + ItemsOf(n.received);
        PickedFresh(n.peers[p].toGet, 0, excluded, [], most);
        FetchedLost(Request(n, p, Picked(n.peers[p].toGet, 0, excluded, [], most)), order[1..], most, id);
      } else {
        FetchedLost(n, order[1..], most, id);
      }
    }
  }

  lemma EventKeepsLost(n: Net, e: Event, id: ItemId)
    requires Lost(n, id)
    ensures Lost(Happens(n, e), id)
  {
    hide Fetched, Spliced, ValidAnswer, FirstElsewhere, UpToDate;
    if e.Fetch? {
      FetchedLost(n, e.order, e.most, id);
    }
  }

  /** A lost block is never asked for again, in any continuation. */
  lemma {:induction false} LostForever(n: Net, es: seq<Event>, id: ItemId)
    requires Lost(n, id)
    ensures Lost(AfterAll(n, es), id)
    decreases |es|
  {
    if es != [] {
      EventKeepsLost(n, es[0], id);
      LostForever(Happens(n, es[0]), es[1..], id);
    }
  }

  /** A block becomes lost exactly when the peer that it is outstanding at says it does not have it. */
  lemma LostIff(n: Net, e: Event, id: ItemId)
    requires SyncOk(n) && !Lost(n, id)
    ensures Lost(Happens(n, e), id) <==> e.Missing? && e.id == id && OutstandingAt(n, e.peer, id)
  {
    hide Fetched, Spliced, ValidAnswer, FirstElsewhere, UpToDate, Consecutive;
    if e.Fetch? {
      FetchedNotLost(n, e.order, e.most, id);
    } else if id in n.active {
      var p :| p in n.peers && id in n.peers[p].requested;
      StaysOutstanding(n, e, id, p);
    } else {
      NotActive(n, e, id);
    }
  }

  lemma NotActive(n: Net, e: Event, id: ItemId)
    requires SyncOk(n) && id !in n.active && !e.Fetch?
    ensures id !in Happens(n, e).active
  {
    hide Spliced, ValidAnswer, FirstElsewhere, UpToDate, Consecutive;
  }

  lemma StaysOutstanding(n: Net, e: Event, id: ItemId, p: PeerId)
    requires SyncOk(n) && id in n.active && OutstandingAt(n, p, id) && !e.Fetch?
    ensures var m := Happens(n, e);
      if e.Missing? && e.peer == p && e.id == id then Lost(m, id)
      else OutstandingAt(m, p, id) || id !in m.active
  {
    hide Spliced, ValidAnswer, FirstElsewhere, UpToDate, Consecutive;
    if e.Missing? && e.peer == p && e.id == id {
      forall q | q in n.peers && q != p
        ensures id !in n.peers[q].requested
      {
        assert n.peers[p].requested !! n.peers[q].requested;
      }
    }
  }

  lemma {:induction false} FetchedNotLost(n: Net, order: seq<PeerId>, most: nat, id: ItemId)
    requires !Lost(n, id)
    ensures !Lost(Fetched(n, order, most), id)
    decreases |order|
  {
    hide Picked;
    if order != [] {
      var p := order[0];
      if p in n.peers && MayAsk(n.peers[p]) {
        var m := Request(n, p, Picked(n.peers[p].toGet, 0, n.active + ItemsOf(n.received), [], most));
        if id in n.active {
          var q :| q in n.peers && id in n.peers[q].requested;
          assert id in m.peers[q].requested;
        } else if id in m.active {
          assert id in m.peers[p].requested;
        }
        FetchedNotLost(m, order[1..], most, id);
      } else {
        FetchedNotLost(n, order[1..], most, id);
      }
    }
  }

  // ----- the node -----

  type Plan = seq<(PeerId, seq<ItemId>)>

  /** All requests of a plan made. */
  function Planned(n: Net, plan: Plan): Net
    decreases |plan|
  {
    if plan == [] then n
    else
      var m := Planned(n, plan[..|plan| - 1]);
      var (p, items) := plan[|plan| - 1];
      if p in m.peers then Request(m, p, items) else m
  }

  ghost function PlannedItems(plan: Plan): set<ItemId>
    decreases |plan|
  {
    if plan == [] then {} else PlannedItems(plan[..|plan| - 1]) + ItemsOf(plan[|plan| - 1].1)
  }

  ghost predicate Targets(plan: Plan, ps: seq<PeerId>) {
    forall i {:trigger plan[i]} :: 0 <= i < |plan| ==> plan[i].0 in ps
  }

  ghost predicate IsPlan(n: Net, plan: Plan) {
    forall i {:trigger plan[i]} :: 0 <= i < |plan| ==> plan[i].0 in n.peers
  }

  /** A plan changes the table by its items, and no peer that it does not ask. */
  lemma {:induction false} PlannedKeeps(n: Net, plan: Plan, ps: seq<PeerId>, q: PeerId)
    requires IsPlan(n, plan) && Targets(plan, ps) && q !in ps
    ensures var m := Planned(n, plan);
      && m.peers.Keys == n.peers.Keys && m.received == n.received && m.active == n.active + PlannedItems(plan)
      && (q in n.peers ==> m.peers[q] == n.peers[q])
    decreases |plan|
  {
    hide ItemsOf;
    if plan != [] {
      PlannedKeeps(n, plan[..|plan| - 1], ps, q);
    }
  }

  lemma PlanGrows(n: Net, plan: Plan, p: PeerId, items: seq<ItemId>)
    requires IsPlan(n, plan) && p in Planned(n, plan).peers
    ensures Planned(n, plan + [(p, items)]) == Request(Planned(n, plan), p, items)
    ensures PlannedItems(plan + [(p, items)]) == PlannedItems(plan) + ItemsOf(items)
  {
    assert (plan + [(p, items)])[..|plan|] == plan;
  }

  lemma RequestNothing(n: Net, p: PeerId)
    requires p in n.peers
    ensures Request(n, p, []) == n && ItemsOf([]) == {}
  {
    assert n.active + ItemsOf([]) == n.active;
    assert n.peers[p].requested + ItemsOf([]) == n.peers[p].requested;
    assert n.peers[p := n.peers[p]] == n.peers;
  }

  class Node {
    var peers: map<PeerId, Peer>
    var active: set<ItemId>
    var received: seq<ItemId>

    function View(): Net
      reads this
    {
      Net(peers, active, received)
    }

    constructor ()
      ensures View() == Net(map[], {}, []) && SyncOk(View())
    {
      peers, active, received := map[], {}, [];
    }

    /** Chooses blocks to ask one peer for, leaving out those received, scheduled or outstanding. */
    method Choose(x: Peer, scheduled: set<ItemId>, most: nat) returns (items: seq<ItemId>, after: set<ItemId>)
      ensures items == Picked(x.toGet, 0, active + scheduled + ItemsOf(received), [], most)
      ensures after == scheduled + ItemsOf(items)
    {
      ghost var excluded := active + scheduled + ItemsOf(received);
      items, after := [], scheduled;
      var i := 0;
      while i < |x.toGet|
        invariant 0 <= i <= |x.toGet| && after == scheduled + ItemsOf(items)
        invariant Picked(x.toGet, 0, excluded, [], most) == Picked(x.toGet, i, excluded, items, most)
      {
        var id := x.toGet[i];
        if id !in received && id !in after && id !in active {
          items, after := items + [id], after + {id};
          if |items| >= most {
            break;
          }
        }
        i := i + 1;
      }
    }

    /** One iteration of the fetch loop: first all choices, then all requests. */
    method FetchSyncItems(order: seq<PeerId>, most: nat)
      requires forall i, j :: 0 <= i < j < |order| ==> order[i] != order[j]
      modifies this`peers, this`active
      ensures View() == Fetched(old(View()), order, most)
    {
      hide Picked, ItemsOf, Request, Fetched;
      ghost var n := View();
      var plan := PlanRequests(order, most);
      var j := 0;
      while j < |plan|
        invariant 0 <= j <= |plan| && View() == Planned(n, plan[..j])
      {
        PlannedKeeps(n, plan[..j], order, Absent(order));
        assert plan[..j + 1][..j] == plan[..j];
        RequestFrom(plan[j].0, plan[j].1);
        j := j + 1;
      }
      assert plan[..j] == plan;
    }

    /** Chooses for all peers, before anything is requested. */
    method PlanRequests(order: seq<PeerId>, most: nat) returns (plan: Plan)
      requires forall i, j :: 0 <= i < j < |order| ==> order[i] != order[j]
      ensures IsPlan(View(), plan) && Targets(plan, order) && Fetched(View(), order, most) == Planned(View(), plan)
    {
      hide Picked, ItemsOf, Request;
      ghost var n := View();
      plan := [];
      var scheduled: set<ItemId> := {};
      var i := 0;
      assert order[0..] == order;
      while i < |order|
        invariant 0 <= i <= |order| && IsPlan(n, plan)
        invariant scheduled == PlannedItems(plan) && Targets(plan, order[..i])
        invariant Fetched(n, order, most) == Fetched(Planned(n, plan), order[i..], most)
      {
        var p := order[i];
        PlannedKeeps(n, plan, order[..i], p);
        if p in peers && MayAsk(peers[p]) {
          var items;
          items, scheduled := Choose(peers[p], scheduled, most);
          PlanGrows(n, plan, p, items);
          if items != [] {
            plan := plan + [(p, items)];
          } else {
            RequestNothing(Planned(n, plan), p);
          }
        }
        assert order[i..][1..] == order[i + 1..];
        i := i + 1;
      }
      assert order[i..] == [] && order[..i] == order;
    }

    method RequestFrom(p: PeerId, items: seq<ItemId>)
      requires p in peers
      modifies this`peers, this`active
      ensures View() == Request(old(View()), p, items)
    {
      var i := 0;
      assert ItemsOf(items[..0]) == {};
      while i < |items|
        invariant 0 <= i <= |items| && received == old(received) && active == old(active) + ItemsOf(items[..i])
        invariant p in peers && peers[p] == old(peers[p]).(requested := old(peers[p]).requested + ItemsOf(items[..i]))
        invariant peers == old(peers)[p := peers[p]]
      {
        ItemsGrow(items, i);
        active := active + {items[i]};
        peers := peers[p := peers[p].(requested := peers[p].requested + {items[i]})];
        i := i + 1;
      }
      assert items[..i] == items;
    }

    /** Splices what a peer offers into its list, or drops a peer whose answer is not valid. */
    method OnInventory(p: PeerId, offered: seq<ItemId>, remaining: nat, known: set<ItemId>, plausible: bool)
      modifies this`peers
      ensures View() == Heard(old(View()), p, offered, remaining, known, plausible)
    {
      if p !in peers || peers[p].asked.None? {
        return;
      }
      var x := peers[p];
      var valid := CheckAnswer(x.asked.value, offered);
      if !valid {
        peers := peers[p := x.(connected := false)];
        return;
      }
      if UpToDate(x, offered, remaining, known) {
        peers := peers[p := x.(asked := None, needSync := false)];
        return;
      }
      var elsewhere := false;
      if offered != [] {
        elsewhere := IsFirstElsewhere(p, offered[0]);
      }
      var toGet := Splice(x.toGet, offered, known, elsewhere);
      peers := peers[p := x.(asked := None, toGet := toGet, unfetched := remaining,
        connected := x.connected && plausible)];
    }

    method CheckAnswer(synopsis: seq<ItemId>, offered: seq<ItemId>) returns (valid: bool)
      ensures valid <==> ValidAnswer(synopsis, offered)
    {
      if offered == [] {
        return true;
      }
      var i := 1;
      while i < |offered|
        invariant 1 <= i <= |offered| && forall j {:trigger offered[j]} ::
          0 <= j < i ==> offered[j].num == offered[0].num + j
      {
        if offered[i].num != offered[0].num + i {
          return false;
        }
        i := i + 1;
      }
      return if synopsis == [] then offered[0].num == 1 else offered[0] in synopsis;
    }

    method IsFirstElsewhere(p: PeerId, id: ItemId) returns (found: bool)
      ensures found <==> FirstElsewhere(View(), p, id)
    {
      var todo := peers.Keys;
      while todo != {}
        invariant todo <= peers.Keys
        invariant forall q {:trigger peers[q]} :: q in peers && q !in todo && q != p ==> !IsNext(peers[q], id)
      {
        var q :| q in todo;
        if q != p && peers[q].connected && peers[q].toGet != [] && peers[q].toGet[0] == id {
          return true;
        }
        todo := todo - {q};
      }
      return false;
    }

    method Splice(toGet: seq<ItemId>, offered: seq<ItemId>, known: set<ItemId>, elsewhere: bool)
      returns (r: seq<ItemId>)
      ensures r == Spliced(toGet, offered, known, elsewhere)
    {
      var list, items := toGet, offered;
      if items != [] && list == [] {
        if !elsewhere {
          while items != [] && items[0] in known
            invariant Unknown(offered, known) == Unknown(items, known)
            decreases |items|
          {
            items := items[1..];
          }
        }
      } else if items != [] {
        while list != []
          invariant CutAfter(toGet, items[0]) == CutAfter(list, items[0])
          decreases |list|
        {
          if items[0] != list[|list| - 1] {
            list := list[..|list| - 1];
          } else {
            break;
          }
        }
        if list == [] {
          items := items[1..];
        } else {
          list := list[..|list| - 1];
        }
      }
      return list + items;
    }

    /** A closed connection gives up all its outstanding requests. */
    method OnClosed(p: PeerId)
      modifies this`peers, this`active
      ensures View() == Closed(old(View()), p)
    {
      if p !in peers {
        return;
      }
      var todo := peers[p].requested;
      while todo != {}
        invariant p in peers && peers == old(peers) && received == old(received)
        invariant todo <= peers[p].requested && active == old(active) - (peers[p].requested - todo)
      {
        var id :| id in todo;
        active := active - {id};
        todo := todo - {id};
      }
      peers := peers - {p};
    }
  }

  lemma ItemsGrow(items: seq<ItemId>, i: nat)
    requires i < |items|
    ensures ItemsOf(items[..i + 1]) == ItemsOf(items[..i]) + {items[i]}
  {
    assert items[..i + 1] == items[..i] + [items[i]];
  }

  ghost function Absent(ps: seq<PeerId>): (q: PeerId)
    ensures forall p {:trigger p in ps} :: p in ps ==> p < q
    decreases |ps|
  {
    if ps == [] then 0
    else
      var q := Absent(ps[..|ps| - 1]);
      var last := ps[|ps| - 1];
      assert ps == ps[..|ps| - 1] + [last];
      if last < q then q else last + 1
  }

  // ----- the synopsis -----

  /** The first number from `low` on at which a walk to `high` that halves the distance reaches `first`. */
  function FirstProbe(low: nat, high: nat, first: nat): nat
    requires first <= high && low <= high
    decreases high - low
  {
    if low >= first then low else FirstProbe(HalfOn(low, high), high, first)
  }

  function HalfOn(low: nat, high: nat): nat
    requires low <= high
  {
    low + (high - low + 2) / 2
  }

  lemma HalfWay(low: nat, high: nat)
    requires low <= high
    ensures var next := HalfOn(low, high);
      low < next && high + 1 - next == (high + 1 - low) / 2 && (next > high <==> low == high)
  {}

  lemma ProbeNext(low: nat, high: nat, first: nat)
    requires first <= high && low <= high
    ensures if low >= first then FirstProbe(low, high, first) == low
            else HalfOn(low, high) <= high && FirstProbe(low, high, first) == FirstProbe(HalfOn(low, high), high, first)
  {}

  /** How many blocks of the list there are from this one on. */
  function Ahead(toGet: seq<ItemId>, id: ItemId): int {
    if toGet == [] then 0 else toGet[|toGet| - 1].num - id.num + 1
  }

  /** The synopsis goes on from the base with offered blocks in ascending order, at half the distance each time. */
  ghost predicate GoesOn(toGet: seq<ItemId>, base: seq<ItemId>, synopsis: seq<ItemId>) {
    && |base| <= |synopsis| && synopsis[..|base|] == base
    && (forall i {:trigger synopsis[i]} :: |base| <= i < |synopsis| ==> synopsis[i] in toGet)
    && (forall i, j {:trigger synopsis[i], synopsis[j]} ::
          |base| <= i < j < |synopsis| ==> synopsis[i].num < synopsis[j].num)
    && (forall i, j {:trigger synopsis[i], synopsis[j]} :: |base| <= i && j == i + 1 && j < |synopsis| ==>
          Ahead(toGet, synopsis[j]) == Ahead(toGet, synopsis[i]) / 2)
  }

  lemma GoesFurther(toGet: seq<ItemId>, base: seq<ItemId>, synopsis: seq<ItemId>, id: ItemId)
    requires GoesOn(toGet, base, synopsis) && id in toGet
    requires |synopsis| > |base| ==>
      var last := synopsis[|synopsis| - 1]; last.num < id.num && Ahead(toGet, id) == Ahead(toGet, last) / 2
    ensures GoesOn(toGet, base, synopsis + [id])
  {
    hide Ahead;
  }

  lemma NumberAt(toGet: seq<ItemId>, i: nat)
    requires Consecutive(toGet) && i < |toGet|
    ensures toGet[i].num == toGet[0].num + i
  {}

  /**
   Completes a synopsis of this node's chain by the blocks a peer has offered, halving the distance each time.
   The last offered block always comes last, if the synopsis starts no higher than that.
   */
  method CreateSynopsis(base: seq<ItemId>, toGet: seq<ItemId>) returns (synopsis: seq<ItemId>)
    requires Consecutive(toGet)
    requires toGet != [] ==> (if base == [] then 1 else base[0].num) <= toGet[|toGet| - 1].num
    ensures toGet == [] ==> synopsis == base
    ensures GoesOn(toGet, base, synopsis)
    ensures toGet != [] ==>
      && |synopsis| > |base| && synopsis[|synopsis| - 1] == toGet[|toGet| - 1]
      && synopsis[|base|].num
        == FirstProbe(if base == [] then 1 else base[0].num, toGet[|toGet| - 1].num, toGet[0].num)
  {
    synopsis := base;
    assert GoesOn(toGet, base, synopsis);
    hide GoesOn, HalfOn, FirstProbe, Ahead, Consecutive, Walking;
    if toGet != [] {
      NumberAt(toGet, |toGet| - 1);
      var first := toGet[0].num;
      var high := first + |toGet| - 1;
      var low := if synopsis == [] then 1 else synopsis[0].num;
      ghost var start := low;
      var more := true;
      WalkStarts(toGet, base, low, high);
      while more
        invariant Walking(toGet, base, synopsis, start, low, high) && (more <==> low <= high)
        decreases high + 1 - low
      {
        HalfWay(low, high);
        if low >= first {
          NumberAt(toGet, low - first);
          WalkAdds(toGet, base, synopsis, start, low, high);
          synopsis := synopsis + [toGet[low - first]];
        } else {
          WalkSkips(toGet, base, synopsis, start, low, high);
        }
        low := HalfOn(low, high);
        more := low <= high;
      }
      WalkEnds(toGet, base, synopsis, start, low, high);
    }
  }

  /** Where the walk stands: before the first block to add, or at half the distance of the last one from the end. */
  ghost predicate Walking(toGet: seq<ItemId>, base: seq<ItemId>, synopsis: seq<ItemId>, start: nat, low: nat, high: nat)
    requires toGet != []
  {
    && GoesOn(toGet, base, synopsis) && |base| <= |synopsis| && toGet[0].num <= high && start <= high
    && if |synopsis| == |base| then low <= high
    && FirstProbe(low, high, toGet[0].num) == FirstProbe(start, high, toGet[0].num)
       else
         && synopsis[|base|].num == FirstProbe(start, high, toGet[0].num)
         && synopsis[|synopsis| - 1].num < low
         && high + 1 - low == (high + 1 - synopsis[|synopsis| - 1].num) / 2
         && (low > high ==> synopsis[|synopsis| - 1] == toGet[|toGet| - 1])
  }

  lemma WalkStarts(toGet: seq<ItemId>, base: seq<ItemId>, low: nat, high: nat)
    requires toGet != [] && toGet[0].num <= high && low <= high && GoesOn(toGet, base, base)
    ensures Walking(toGet, base, base, low, low, high)
  {}

  lemma AddedIsListed(toGet: seq<ItemId>, base: seq<ItemId>, synopsis: seq<ItemId>)
    requires GoesOn(toGet, base, synopsis) && |synopsis| > |base| && toGet != [] && Consecutive(toGet)
    ensures synopsis[|synopsis| - 1].num >= toGet[0].num
  {
    assert synopsis[|synopsis| - 1] in toGet;
  }

  lemma WalkSkips(toGet: seq<ItemId>, base: seq<ItemId>, synopsis: seq<ItemId>, start: nat, low: nat, high: nat)
    requires toGet != [] && low < toGet[0].num <= high == toGet[|toGet| - 1].num && Consecutive(toGet)
    requires Walking(toGet, base, synopsis, start, low, high)
    ensures Walking(toGet, base, synopsis, start, HalfOn(low, high), high)
  {
    ProbeNext(low, high, toGet[0].num);
    if |synopsis| > |base| {
      AddedIsListed(toGet, base, synopsis);
    }
  }

  lemma WalkAdds(toGet: seq<ItemId>, base: seq<ItemId>, synopsis: seq<ItemId>, start: nat, low: nat, high: nat)
    requires toGet != [] && toGet[0].num <= low <= high == toGet[|toGet| - 1].num == toGet[0].num + |toGet| - 1
    requires toGet[low - toGet[0].num].num == low && Walking(toGet, base, synopsis, start, low, high)
    ensures Walking(toGet, base, synopsis + [toGet[low - toGet[0].num]], start, HalfOn(low, high), high)
  {
    hide GoesOn;
    HalfWay(low, high);
    ProbeNext(low, high, toGet[0].num);
    GoesFurther(toGet, base, synopsis, toGet[low - toGet[0].num]);
  }

  lemma WalkEnds(toGet: seq<ItemId>, base: seq<ItemId>, synopsis: seq<ItemId>, start: nat, low: nat, high: nat)
    requires toGet != [] && low > high && Walking(toGet, base, synopsis, start, low, high)
    ensures GoesOn(toGet, base, synopsis) && |synopsis| > |base| && toGet[0].num <= high && start <= high
    ensures synopsis[|base|].num == FirstProbe(start, high, toGet[0].num)
    ensures synopsis[|synopsis| - 1] == toGet[|toGet| - 1]
  {}
}
