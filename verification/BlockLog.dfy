/**
 The block log: an append-only file of self-delimiting blocks, each followed by the position of its first
 byte, and an index file that holds these positions only.
 */
module BlockLog {
  import opened ChainTypes

  type Byte = x: int | 0 <= x < 256

  const WIDTH: nat := 8
  const NPOS: nat := 0x1_0000_0000_0000_0000 - 1

  datatype Result<T> = Ok(value: T) | Thrown

  // ----- positions as eight bytes, the least significant first -----

  function Power(k: nat): nat {
    if k == 0 then 1 else 256 * Power(k - 1)
  }

  function Digits(n: nat, k: nat): (s: seq<Byte>)
    ensures |s| == k
  {
    if k == 0 then [] else [n % 256] + Digits(n / 256, k - 1)
  }

  function Number(s: seq<Byte>): nat {
    if s == [] then 0 else s[0] + 256 * Number(s[1..])
  }

  lemma {:induction false} DigitsRoundTrip(n: nat, k: nat)
    requires n < Power(k)
    ensures Number(Digits(n, k)) == n
    decreases k
  {
    if k > 0 {
      assert Digits(n, k)[1..] == Digits(n / 256, k - 1);
      DigitsRoundTrip(n / 256, k - 1);
    }
  }

  function Encoded(pos: nat): (s: seq<Byte>)
    ensures |s| == WIDTH
  {
    Digits(pos, WIDTH)
  }

  /** The position stored at an offset; None beyond the end of the file. */
  function PositionAt(s: seq<Byte>, at: int): Option<nat> {
    if at < 0 || at + WIDTH > |s| then None else Some(Number(s[at..at + WIDTH]))
  }

  lemma ReadsEncoded(before: seq<Byte>, pos: nat, after: seq<Byte>)
    requires pos <= NPOS
    ensures PositionAt(before + Encoded(pos) + after, |before|) == Some(pos)
  {
    var s := before + Encoded(pos) + after;
    assert s[|before|..|before| + WIDTH] == Encoded(pos);
    assert Power(8) == NPOS + 1 by {
      assert Power(1) == 256 && Power(2) == 65536 && Power(4) == 65536 * 65536;
    }
    DigitsRoundTrip(pos, WIDTH);
  }

  // ----- the codec of blocks -----

  /** A block's number, and all else that is in it as one opaque value. */
  datatype Block = Block(num: nat, content: nat)

  datatype Codec = Codec(
    pack: Block -> seq<Byte>,
    unpack: (seq<Byte>, nat) -> Option<(Block, nat)>)
  {
    /** Unpacking at the place of a packed block gives the block and the place behind it. */
    ghost predicate Exact() {
      && (forall b: Block, before: seq<Byte>, after: seq<Byte> {:trigger unpack(before + pack(b) + after, |before|)} ::
            unpack(before + pack(b) + after, |before|) == Some((b, |before| + |pack(b)|)))
      && (forall s: seq<Byte>, at: nat {:trigger unpack(s, at)} ::
            unpack(s, at).Some? ==> at <= unpack(s, at).value.1 <= |s|)
    }
  }

  // ----- an exact codec exists: two numbers, each as that many ones and a zero -----

  function Unary(n: nat): (s: seq<Byte>)
    ensures |s| == n + 1 && s[n] == 0 && forall i {:trigger s[i]} :: 0 <= i < n ==> s[i] == 1
  {
    seq(n, _ => 1) + [0]
  }

  function Ones(s: seq<Byte>, at: nat): (n: nat)
    ensures at <= |s| ==> at + n <= |s|
    decreases |s| - at
  {
    if at < |s| && s[at] == 1 then 1 + Ones(s, at + 1) else 0
  }

  lemma {:induction false} OnesAre(s: seq<Byte>, at: nat, n: nat)
    requires at + n < |s| && s[at + n] == 0 && forall i {:trigger s[i]} :: at <= i < at + n ==> s[i] == 1
    ensures Ones(s, at) == n
    decreases n
  {
    if n > 0 {
      OnesAre(s, at + 1, n - 1);
    }
  }

  function UnaryPack(b: Block): seq<Byte> {
    Unary(b.num) + Unary(b.content)
  }

  function UnaryUnpack(s: seq<Byte>, at: nat): Option<(Block, nat)> {
    if at + Ones(s, at) >= |s| then None
    else
      var middle := at + Ones(s, at) + 1;
      if middle + Ones(s, middle) >= |s| then None
      else Some((Block(Ones(s, at), Ones(s, middle)), middle + Ones(s, middle) + 1))
  }

  lemma ExactCodecExists()
    ensures Codec(UnaryPack, UnaryUnpack).Exact()
  {
    forall b: Block, before: seq<Byte>, after: seq<Byte>
      ensures UnaryUnpack(before + UnaryPack(b) + after, |before|) == Some((b, |before| + |UnaryPack(b)|))
    {
      var s, at := before + UnaryPack(b) + after, |before|;
      var middle := at + b.num + 1;
      assert s[at..middle] == Unary(b.num) && s[middle..middle + b.content + 1] == Unary(b.content);
      assert forall i {:trigger s[i]} :: at <= i < middle ==> s[i] == s[at..middle][i - at];
      assert forall i {:trigger s[i]} ::
        middle <= i <= middle + b.content ==> s[i] == s[middle..middle + b.content + 1][i - middle];
      OnesAre(s, at, b.num);
      OnesAre(s, middle, b.content);
    }
  }

  // ----- the two files for a list of blocks -----

  function File(c: Codec, bs: seq<Block>): seq<Byte>
    decreases |bs|
  {
    if bs == [] then []
    else
      var s := File(c, bs[..|bs| - 1]);
      s + c.pack(bs[|bs| - 1]) + Encoded(|s|)
  }

  /** Where the k-th block starts. */
  function Start(c: Codec, bs: seq<Block>, k: nat): nat
    requires k <= |bs|
  {
    |File(c, bs[..k])|
  }

  /** The index of the first m blocks. */
  function IndexFile(c: Codec, bs: seq<Block>, m: nat): (s: seq<Byte>)
    requires m <= |bs|
    ensures |s| == WIDTH * m
  {
    if m == 0 then [] else IndexFile(c, bs, m - 1) + Encoded(Start(c, bs, m - 1))
  }

  ghost predicate Numbered(bs: seq<Block>) {
    forall k {:trigger bs[k]} :: 0 <= k < |bs| ==> bs[k].num == k + 1
  }

  /** The file of the first k blocks is the beginning of the file. */
  lemma {:induction false} FilePrefix(c: Codec, bs: seq<Block>, k: nat)
    requires k <= |bs|
    ensures Start(c, bs, k) <= |File(c, bs)| && File(c, bs)[..Start(c, bs, k)] == File(c, bs[..k])
    decreases |bs|
  {
    if k == |bs| {
      assert bs[..k] == bs;
    } else {
      FilePrefix(c, bs[..|bs| - 1], k);
      assert bs[..|bs| - 1][..k] == bs[..k];
    }
  }

  lemma FileSplit(c: Codec, bs: seq<Block>, k: nat)
    requires k < |bs|
    ensures exists after :: File(c, bs) == File(c, bs[..k]) + c.pack(bs[k]) + Encoded(Start(c, bs, k)) + after
  {
    FilePrefix(c, bs, k + 1);
    assert bs[..k + 1][..k] == bs[..k];
    var after := File(c, bs)[Start(c, bs, k + 1)..];
    assert File(c, bs) == File(c, bs[..k + 1]) + after;
  }

  lemma StartNext(c: Codec, bs: seq<Block>, k: nat)
    requires k < |bs|
    ensures Start(c, bs, k + 1) == Start(c, bs, k) + |c.pack(bs[k])| + WIDTH <= |File(c, bs)|
  {
    assert bs[..k + 1][..k] == bs[..k];
    FileSplit(c, bs, k);
  }

  lemma {:induction false} StartsIncrease(c: Codec, bs: seq<Block>, j: nat, k: nat)
    requires j < k <= |bs|
    ensures Start(c, bs, j) < Start(c, bs, k) <= |File(c, bs)|
    decreases k
  {
    StartNext(c, bs, k - 1);
    if j < k - 1 {
      StartsIncrease(c, bs, j, k - 1);
    }
  }

  /** Reading at the start of the k-th block gives that block, its position, and the start of the next. */
  lemma ReadsBlock(c: Codec, bs: seq<Block>, k: nat)
    requires c.Exact() && k < |bs| && |File(c, bs)| <= NPOS
    ensures var pos := Start(c, bs, k); var end := pos + |c.pack(bs[k])|;
      && c.unpack(File(c, bs), pos) == Some((bs[k], end))
      && PositionAt(File(c, bs), end) == Some(pos)
      && Start(c, bs, k + 1) == end + WIDTH <= |File(c, bs)|
  {
    hide File, PositionAt, Number, Digits;
    FileSplit(c, bs, k);
    StartNext(c, bs, k);
    ReadsPieces(c, File(c, bs[..k]), bs[k], Start(c, bs, k), File(c, bs));
  }

  lemma ReadsAt(c: Codec, bs: seq<Block>, pos: nat)
    requires c.Exact() && |File(c, bs)| <= NPOS
    ensures forall k {:trigger Start(c, bs, k)} :: 0 <= k < |bs| && pos == Start(c, bs, k) ==>
      var u := c.unpack(File(c, bs), pos);
      u.Some? && u.value.0 == bs[k] && u.value.1 + WIDTH == Start(c, bs, k + 1)
  {
    hide File, PositionAt, Start;
    forall k {:trigger Start(c, bs, k)} | 0 <= k < |bs| && pos == Start(c, bs, k)
      ensures var u := c.unpack(File(c, bs), pos);
        u.Some? && u.value.0 == bs[k] && u.value.1 + WIDTH == Start(c, bs, k + 1)
    {
      ReadsBlock(c, bs, k);
    }
  }

  lemma ReadsPieces(c: Codec, before: seq<Byte>, b: Block, pos: nat, s: seq<Byte>)
    requires c.Exact() && pos <= NPOS && exists after :: s == before + c.pack(b) + Encoded(pos) + after
    ensures c.unpack(s, |before|) == Some((b, |before| + |c.pack(b)|))
    ensures PositionAt(s, |before| + |c.pack(b)|) == Some(pos)
  {
    hide PositionAt, Number, Digits;
    var packed := c.pack(b);
    var after :| s == before + packed + Encoded(pos) + after;
    assert s == before + packed + (Encoded(pos) + after);
    assert s == (before + packed) + Encoded(pos) + after;
    ReadsEncoded(before + packed, pos, after);
  }

  lemma {:induction false} ReadsIndex(c: Codec, bs: seq<Block>, m: nat, k: nat)
    requires k < m <= |bs| && |File(c, bs)| <= NPOS
    ensures PositionAt(IndexFile(c, bs, m), WIDTH * k) == Some(Start(c, bs, k))
    decreases m
  {
    var before, last := IndexFile(c, bs, m - 1), Encoded(Start(c, bs, m - 1));
    if k == m - 1 {
      StartsIncrease(c, bs, k, m);
      ReadsEncoded(before, Start(c, bs, k), []);
      assert before + last + [] == IndexFile(c, bs, m);
    } else {
      ReadsIndex(c, bs, m - 1, k);
      assert IndexFile(c, bs, m)[WIDTH * k..WIDTH * k + WIDTH] == before[WIDTH * k..WIDTH * k + WIDTH];
    }
  }

  /** The last eight bytes of either file are the position of the last block it knows. */
  lemma LastPositions(c: Codec, bs: seq<Block>, m: nat)
    requires c.Exact() && 0 < m <= |bs| && |File(c, bs)| <= NPOS
    ensures PositionAt(File(c, bs), |File(c, bs)| - WIDTH) == Some(Start(c, bs, |bs| - 1))
    ensures PositionAt(IndexFile(c, bs, m), |IndexFile(c, bs, m)| - WIDTH) == Some(Start(c, bs, m - 1))
  {
    assert bs[..|bs|] == bs;
    ReadsBlock(c, bs, |bs| - 1);
    ReadsIndex(c, bs, m, m - 1);
  }

  lemma {:induction false} IndexOfPrefix(c: Codec, bs: seq<Block>, b: Block, m: nat)
    requires m <= |bs|
    ensures IndexFile(c, bs + [b], m) == IndexFile(c, bs, m)
    decreases m
  {
    if m > 0 {
      IndexOfPrefix(c, bs, b, m - 1);
      assert (bs + [b])[..m - 1] == bs[..m - 1];
    }
  }

  /** Blocks read one after the other, from an offset to the end of the file. */
  function Chained(c: Codec, s: seq<Byte>, pos: nat): Option<seq<Block>>
    decreases |s| - pos
  {
    if pos >= |s| then Some([])
    else
      var (b, end) :- c.unpack(s, pos);
      if end + WIDTH <= pos then None
      else
        var rest :- Chained(c, s, end + WIDTH);
        Some([b] + rest)
  }

  /** Chained reading from the start of the k-th block visits all later blocks in order. */
  lemma {:induction false} ChainedVisitsAll(c: Codec, bs: seq<Block>, k: nat)
    requires c.Exact() && k <= |bs| && |File(c, bs)| <= NPOS
    ensures Chained(c, File(c, bs), Start(c, bs, k)) == Some(bs[k..])
    decreases |bs| - k
  {
    if k == |bs| {
      assert bs[..k] == bs;
    } else {
      ReadsBlock(c, bs, k);
      ChainedVisitsAll(c, bs, k + 1);
      assert bs[k..] == [bs[k]] + bs[k + 1..];
    }
  }

  lemma NoBlocks(c: Codec, bs: seq<Block>)
    ensures Start(c, bs, 0) == 0
  {}

  lemma FileEmptyIff(c: Codec, bs: seq<Block>)
    ensures File(c, bs) == [] <==> bs == []
  {}

  /** The index ends with the position of the log's last block. */
  ghost predicate Kept(c: Codec, bs: seq<Block>, index: seq<Byte>) {
    bs != [] && PositionAt(index, |index| - WIDTH) == Some(Start(c, bs, |bs| - 1))
  }

  /** Among the whole-entry prefixes of the index only the full index ends with the last position. */
  lemma PrefixKept(c: Codec, bs: seq<Block>, index: seq<Byte>)
    requires c.Exact() && |File(c, bs)| <= NPOS
    ensures forall m | 0 <= m <= |bs| && index == IndexFile(c, bs, m) :: Kept(c, bs, index) <==> m == |bs| > 0
  {
    hide File, Number, Digits;
    forall m | 0 <= m <= |bs| && index == IndexFile(c, bs, m)
      ensures Kept(c, bs, index) <==> m == |bs| > 0
    {
      if m > 0 {
        LastPositions(c, bs, m);
        if m < |bs| {
          StartsIncrease(c, bs, m - 1, |bs| - 1);
        }
      }
    }
  }

  // ----- the log object -----

  class Log {
    const codec: Codec
    var blocks: seq<Byte>
    var index: seq<Byte>
    var head: Option<Block>

    /** The log holds exactly these blocks and its index is complete. */
    ghost predicate Holds(bs: seq<Block>)
      reads this
    {
      && codec.Exact() && Numbered(bs)
      && blocks == File(codec, bs)
      && index == IndexFile(codec, bs, |bs|)
      && head == (if bs == [] then None else Some(bs[|bs| - 1]))
    }

    /** Files as an earlier run left them. */
    constructor (c: Codec, blocks: seq<Byte>, index: seq<Byte>)
      ensures codec == c && this.blocks == blocks && this.index == index && head == None
    {
      codec, this.blocks, this.index, head := c, blocks, index, None;
    }

    /** Adds the block that comes next; any other number throws and changes nothing. */
    method Append(b: Block, ghost bs: seq<Block>) returns (pos: Result<nat>)
      requires Holds(bs) && |blocks| + |codec.pack(b)| + WIDTH <= NPOS && b.num >= 1
      modifies this`blocks, this`index, this`head
      ensures b.num == |bs| + 1 ==> pos == Ok(old(|blocks|)) && Holds(bs + [b])
      ensures b.num != |bs| + 1 ==> pos == Thrown && blocks == old(blocks) && index == old(index) && head == old(head)
    {
      var at := |blocks|;
      if |index| != WIDTH * (b.num - 1) {
        return Thrown;
      }
      blocks := blocks + codec.pack(b);
      blocks := blocks + Encoded(at);
      index := index + Encoded(at);
      head := Some(b);
      IndexOfPrefix(codec, bs, b, |bs|);
      assert (bs + [b])[..|bs|] == bs;
      return Ok(at);
    }

    /** The log file holds exactly these blocks; the index may be anything. */
    ghost predicate Stores(bs: seq<Block>)
      reads this
    {
      codec.Exact() && blocks == File(codec, bs) && |blocks| <= NPOS
    }

    /** At the start of a block: that block and the start of the next one. Throws where no block can be read. */
    method ReadBlock(pos: nat, ghost bs: seq<Block>) returns (r: Result<(Block, nat)>)
      ensures Stores(bs) ==> forall k {:trigger Start(codec, bs, k)} :: 0 <= k < |bs| && pos == Start(codec, bs, k) ==>
        r.Ok? && r.value.0 == bs[k] && r.value.1 == Start(codec, bs, k + 1)
      ensures r.Thrown? <==> codec.unpack(blocks, pos).None?
    {
      hide File, PositionAt, Start;
      if Stores(bs) {
        ReadsAt(codec, bs, pos);
      }
      var u := codec.unpack(blocks, pos);
      match u {
        case None => return Thrown;
        case Some((b, end)) => return Ok((b, end + WIDTH));
      }
    }

    /** Where block n starts; npos if there is no such block. Throws where the index is too short. */
    method GetBlockPos(n: nat, ghost bs: seq<Block>) returns (r: Result<nat>)
      ensures Holds(bs) && |blocks| <= NPOS ==> r == Ok(if 1 <= n <= |bs| then Start(codec, bs, n - 1) else NPOS)
      ensures r.Thrown? <==> head.Some? && 0 < n <= head.value.num && WIDTH * n > |index|
    {
      hide File, IndexFile, Number;
      if Holds(bs) && |blocks| <= NPOS && 1 <= n <= |bs| {
        ReadsIndex(codec, bs, |bs|, n - 1);
      }
      if head.None? || n > head.value.num || n == 0 {
        return Ok(NPOS);
      }
      var pos := PositionAt(index, WIDTH * (n - 1));
      return if pos.None? then Thrown else Ok(pos.value);
    }

    /** The n-th block if there is one, and nothing otherwise. */
    method ReadBlockByNum(n: nat, ghost bs: seq<Block>) returns (r: Result<Option<Block>>)
      requires Holds(bs) && |blocks| <= NPOS
      ensures r == Ok(if 1 <= n <= |bs| then Some(bs[n - 1]) else None)
    {
      hide File, IndexFile, PositionAt;
      if 1 <= n <= |bs| {
        ReadsIndex(codec, bs, |bs|, n - 1);
        ReadsBlock(codec, bs, n - 1);
        StartsIncrease(codec, bs, n - 1, n);
      }
      var pos := GetBlockPos(n, bs);
      if pos.Thrown? {
        return Thrown;
      }
      if pos.value == NPOS {
        return Ok(None);
      }
      var read := ReadBlock(pos.value, bs);
      if read.Thrown? || read.value.0.num != n {
        return Thrown;
      }
      return Ok(Some(read.value.0));
    }

    method ReadHead(ghost bs: seq<Block>) returns (r: Result<Block>)
      requires codec.Exact() && bs != [] && blocks == File(codec, bs) && |blocks| <= NPOS
      ensures r == Ok(bs[|bs| - 1])
    {
      hide File, IndexFile, PositionAt;
      LastPositions(codec, bs, |bs|);
      ReadsBlock(codec, bs, |bs| - 1);
      var pos := PositionAt(blocks, |blocks| - WIDTH);
      if pos.None? {
        return Thrown;
      }
      var read := ReadBlock(pos.value, bs);
      return if read.Thrown? then Thrown else Ok(read.value.0);
    }

    /** Rebuilds the index by a scan: complete, except that the index of a one-block log comes out empty. */
    method ConstructIndex(ghost bs: seq<Block>) returns (ok: bool)
      requires codec.Exact() && bs != [] && blocks == File(codec, bs) && |blocks| <= NPOS
      modifies this`index
      ensures ok && index == if |bs| == 1 then [] else IndexFile(codec, bs, |bs|)
    {
      hide File, PositionAt, Number, Digits;
      index := [];
      NoBlocks(codec, bs);
      LastPositions(codec, bs, |bs|);
      var last := PositionAt(blocks, |blocks| - WIDTH);
      if last.None? {
        return false;
      }
      var pos, end, at := 0, last.value, 0;
      ghost var k := 0;
      while pos < end
        invariant 0 <= k <= |bs| && at == Start(codec, bs, k) && index == IndexFile(codec, bs, k)
        invariant pos == if k == 0 then 0 else Start(codec, bs, k - 1)
        invariant |bs| == 1 ==> k == 0
        decreases |blocks| - at
      {
        ReadsBlock(codec, bs, k);
        var u := codec.unpack(blocks, at);
        if u.None? {
          return false;
        }
        var p := PositionAt(blocks, u.value.1);
        if p.None? {
          return false;
        }
        pos, at := p.value, u.value.1 + WIDTH;
        index := index + Encoded(pos);
        k := k + 1;
      }
      if k > 0 && k < |bs| {
        StartsIncrease(codec, bs, k - 1, |bs| - 1);
      }
      if k == 0 && |bs| > 1 {
        StartsIncrease(codec, bs, 0, |bs| - 1);
      }
      return true;
    }

    /**
     What opening does to the index of a log that holds bs, whatever the index file holds: an index that ends
     with the log's last position is kept, a file of one to seven bytes throws, any other index is rebuilt.
     So from every whole-entry prefix of the index the full index results, unless there is one block and the
     prefix is empty.
     */
    method Open(ghost bs: seq<Block>) returns (ok: bool)
      requires codec.Exact() && Numbered(bs) && blocks == File(codec, bs) && |blocks| <= NPOS && head == None
      modifies this`index, this`head
      ensures ok <==> bs == [] || old(index) == [] || |old(index)| >= WIDTH
      ensures ok && Kept(codec, bs, old(index)) ==> index == old(index)
      ensures ok && !Kept(codec, bs, old(index)) ==> index == if |bs| == 1 then [] else IndexFile(codec, bs, |bs|)
      ensures ok ==> head == if bs == [] then None else Some(bs[|bs| - 1])
      ensures forall m | 0 <= m <= |bs| && old(index) == IndexFile(codec, bs, m) ::
        ok && (Holds(bs) <==> !(|bs| == 1 && m == 0))
    {
      hide File, Number, Digits;
      PrefixKept(codec, bs, index);
      FileEmptyIff(codec, bs);
      if |blocks| > 0 {
        var h := ReadHead(bs);
        head := Some(h.value);
        if |index| > 0 {
          LastPositions(codec, bs, |bs|);
          var blockPos := PositionAt(blocks, |blocks| - WIDTH);
          var indexPos := PositionAt(index, |index| - WIDTH);
          if indexPos.None? {
            return false;
          }
          if blockPos.value < indexPos.value {
            ok := ConstructIndex(bs);
          } else if blockPos.value > indexPos.value {
            ok := ConstructIndex(bs);
          } else {
            ok := true;
          }
        } else {
          ok := ConstructIndex(bs);
        }
      } else if |index| > 0 {
        index := [];
        ok := true;
      } else {
        ok := true;
      }
    }
  }
}
