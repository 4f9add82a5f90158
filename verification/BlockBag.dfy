/** The bags of records of common/recordmgr/blockbag.h: linked lists of blocks, each an array of records. */
module BlockBags {
  import opened ProbingSet

  const BLOCK_SIZE: nat := 256

  // ---------------------------------------------------------------- bags as values

  /** What the blocks hold, from the head block to the tail, each in the order of its array. */
  type Bag = seq<seq<Record>>

  /** Only the head block may be, and always is, short of full. */
  predicate BagShape(c: Bag)
  {
    0 < |c| && |c[0]| < BLOCK_SIZE && forall i :: 0 < i < |c| ==> |c[i]| == BLOCK_SIZE
  }

  function Total(c: Bag): multiset<Record>
  {
    if c == [] then multiset{} else multiset(c[0]) + Total(c[1..])
  }

  function Added(c: Bag, obj: Record): Bag
    requires BagShape(c)
  {
    var d := c[0 := c[0] + [obj]];
    if |d[0]| == BLOCK_SIZE then [[]] + d else d
  }

  /** Without an empty head block that has a successor. */
  function Trimmed(c: Bag): Bag
    requires 0 < |c|
  {
    if |c[0]| == 0 && |c| > 1 then c[1..] else c
  }

  predicate NonEmpty(c: Bag)
    requires 0 < |c|
  {
    |c| > 1 || |c[0]| > 0
  }

  /** The record that `remove` returns, and the bag it leaves. */
  function Top(c: Bag): Record
    requires 0 < |c| && NonEmpty(c) && BagShape(c)
  {
    var d := Trimmed(c);
    d[0][|d[0]| - 1]
  }

  function Popped(c: Bag): Bag
    requires 0 < |c| && NonEmpty(c) && BagShape(c)
  {
    var d := Trimmed(c);
    d[0 := d[0][..|d[0]| - 1]]
  }

  lemma AddedKeeps(c: Bag, obj: Record)
    requires BagShape(c)
    ensures BagShape(Added(c, obj)) && Total(Added(c, obj)) == Total(c) + multiset{obj}
  {
    var d := c[0 := c[0] + [obj]];
    assert d[1..] == c[1..];
    assert ([[]] + d)[1..] == d;
  }

  lemma TrimmedKeeps(c: Bag)
    requires 0 < |c|
    ensures Total(Trimmed(c)) == Total(c)
  {
  }

  lemma SplitLast(s: seq<Record>)
    requires 0 < |s|
    ensures multiset(s) == multiset(s[..|s| - 1]) + multiset{s[|s| - 1]}
  {
    assert s == s[..|s| - 1] + [s[|s| - 1]];
  }

  lemma PoppedKeeps(c: Bag)
    requires 0 < |c| && NonEmpty(c) && BagShape(c)
    ensures BagShape(Popped(c)) && Total(c) == Total(Popped(c)) + multiset{Top(c)}
  {
    var d := Trimmed(c);
    TrimmedKeeps(c);
    SplitLast(d[0]);
    assert Popped(c)[1..] == d[1..];
  }

  lemma {:induction false} TotalUpdate(c: Bag, i: nat, b: seq<Record>)
    requires i < |c|
    ensures Total(c[i := b]) + multiset(c[i]) == Total(c) + multiset(b)
  {
    if i == 0 {
      assert c[i := b][1..] == c[1..];
    } else {
      TotalUpdate(c[1..], i - 1, b);
      assert c[i := b][1..] == c[1..][i - 1 := b] && c[1..][i - 1] == c[i];
      var first, t, u := multiset(c[0]), Total(c[1..]), Total(c[1..][i - 1 := b]);
      assert Total(c[i := b]) == first + u && Total(c) == first + t;
      hide Total;
      assert (first + u) + multiset(c[i]) == first + (u + multiset(c[i]));
    }
  }

  lemma Regroup(a: multiset<Record>, b: multiset<Record>, c: multiset<Record>)
    ensures (a + b) + c == a + (b + c)
  {
  }

  lemma TotalFirst(c: Bag)
    requires 0 < |c|
    ensures Total(c) == multiset(c[0]) + Total(c[1..])
  {
  }

  lemma {:induction false} TotalConcat(c: Bag, d: Bag)
    ensures Total(c + d) == Total(c) + Total(d)
  {
    if c == [] {
      assert c + d == d;
    } else {
      var first, rest, all := multiset(c[0]), c[1..], c + d;
      assert all[0] == c[0] && all[1..] == rest + d;
      TotalFirst(all);
      TotalFirst(c);
      hide Total;
      TotalConcat(rest, d);
      Regroup(first, Total(rest), Total(d));
    }
  }

  /** Erasing the `ix`-th record of block `k` when the head block is not empty: in the head block its last record
      takes the place, in any other block the last record of the head block does. */
  function WithoutAt(d: Bag, k: nat, ix: nat): Bag
    requires k < |d| && 0 < |d[0]| && ix < |d[k]|
  {
    var h := d[0];
    if k == 0 then d[0 := h[ix := h[|h| - 1]][..|h| - 1]]
    else d[0 := h[..|h| - 1]][k := d[k][ix := h[|h| - 1]]]
  }

  /** The bag without its `ix`-th record of block `i`. An empty head block goes first. */
  function Without(c: Bag, i: nat, ix: nat): Bag
    requires BagShape(c) && i < |c| && ix < |c[i]|
  {
    WithoutAt(Trimmed(c), if |c[0]| == 0 then i - 1 else i, ix)
  }

  lemma ReplacedAt(s: seq<Record>, ix: nat, r: Record)
    requires ix < |s|
    ensures multiset(s[ix := r]) + multiset{s[ix]} == multiset(s) + multiset{r}
  {
    assert s == s[..ix] + [s[ix]] + s[ix + 1..];
    assert s[ix := r] == s[..ix] + [r] + s[ix + 1..];
  }

  lemma Cancel(a: multiset<Record>, b: multiset<Record>, c: multiset<Record>)
    requires a + c == b + c
    ensures a == b
  {
    forall r | r in a || r in b ensures a[r] == b[r] { assert (a + c)[r] == (b + c)[r]; }
  }

  lemma WithoutHead(d: Bag, ix: nat)
    requires 0 < |d| && ix < |d[0]|
    ensures var h := d[0]; Total(d) == Total(d[0 := h[ix := h[|h| - 1]][..|h| - 1]]) + multiset{h[ix]}
  {
    var h := d[0];
    var last := h[|h| - 1];
    var t := h[ix := last];
    var front := t[..|h| - 1];
    ReplacedAt(h, ix, last);
    SplitLast(t);
    assert t[|t| - 1] == last;
    assert multiset(h) == multiset(front) + multiset{h[ix]} by {
      assert (multiset(front) + multiset{h[ix]}) + multiset{last} == multiset(h) + multiset{last};
      Cancel(multiset(front) + multiset{h[ix]}, multiset(h), multiset{last});
    }
    assert d[0 := front][1..] == d[1..];
  }

  lemma Juggle(d: multiset<Record>, e: multiset<Record>, f: multiset<Record>, m: multiset<Record>, b: multiset<Record>, last: Record, x: Record)
    requires d == e + multiset{last} && f + m == e + b && b + multiset{x} == m + multiset{last}
    ensures d == f + multiset{x}
  {
    forall r: Record ensures d[r] == (f + multiset{x})[r] {
      assert (f + m)[r] == (e + b)[r] && (b + multiset{x})[r] == (m + multiset{last})[r] && d[r] == (e + multiset{last})[r];
    }
  }

  lemma PoppedHead(d: Bag)
    requires 0 < |d| && 0 < |d[0]|
    ensures var h := d[0]; Total(d) == Total(d[0 := h[..|h| - 1]]) + multiset{h[|h| - 1]}
  {
    var h := d[0];
    SplitLast(h);
    assert d[0 := h[..|h| - 1]][1..] == d[1..];
  }

  lemma WithoutOther(d: Bag, k: nat, ix: nat)
    requires 0 < k < |d| && 0 < |d[0]| && ix < |d[k]|
    ensures var h := d[0]; Total(d) == Total(d[0 := h[..|h| - 1]][k := d[k][ix := h[|h| - 1]]]) + multiset{d[k][ix]}
  {
    var h := d[0];
    var last := h[|h| - 1];
    var b: seq<Record> := d[k][ix := last];
    var e := d[0 := h[..|h| - 1]];
    hide Total;
    PoppedHead(d);
    TotalUpdate(e, k, b);
    ReplacedAt(d[k], ix, last);
    Juggle(Total(d), Total(e), Total(e[k := b]), multiset(d[k]), multiset(b), last, d[k][ix]);
  }

  lemma WithoutShape(c: Bag, i: nat, ix: nat)
    requires BagShape(c) && i < |c| && ix < |c[i]|
    ensures BagShape(Without(c, i, ix))
    ensures var k := if |c[0]| == 0 then i - 1 else i; 0 <= k < |Trimmed(c)| && Trimmed(c)[k] == c[i] && 0 < |Trimmed(c)[0]|
  {
  }

  lemma WithoutAtKeeps(d: Bag, k: nat, ix: nat)
    requires k < |d| && 0 < |d[0]| && ix < |d[k]|
    ensures Total(d) == Total(WithoutAt(d, k, ix)) + multiset{d[k][ix]}
  {
    hide Total;
    if k == 0 { WithoutHead(d, ix); } else { WithoutOther(d, k, ix); }
  }

  /** Erasing loses exactly the erased record. */
  lemma WithoutKeeps(c: Bag, i: nat, ix: nat)
    requires BagShape(c) && i < |c| && ix < |c[i]|
    ensures BagShape(Without(c, i, ix)) && Total(c) == Total(Without(c, i, ix)) + multiset{c[i][ix]}
  {
    WithoutShape(c, i, ix);
    TrimmedKeeps(c);
    hide Total, Trimmed, BagShape, WithoutAt;
    WithoutAtKeeps(Trimmed(c), if |c[0]| == 0 then i - 1 else i, ix);
  }

  /** Taking out the second block, or appending one, or moving the blocks after position `p` to another bag. */
  lemma SecondOut(c: Bag)
    requires BagShape(c) && 2 < |c|
    ensures BagShape([c[0]] + c[2..]) && Total(c) == Total([c[0]] + c[2..]) + multiset(c[1])
  {
    assert ([c[0]] + c[2..])[1..] == c[2..] == c[1..][1..];
  }

  lemma BlockIn(c: Bag, b: seq<Record>)
    requires BagShape(c) && |b| == BLOCK_SIZE
    ensures BagShape(c + [b]) && Total(c + [b]) == Total(c) + multiset(b)
  {
    TotalConcat(c, [b]);
    assert [b][1..] == [];
  }

  lemma Moved(c: Bag, other: Bag, p: nat)
    requires BagShape(c) && BagShape(other) && p < |other|
    ensures BagShape(c + other[p + 1..]) && BagShape(other[..p + 1])
    ensures Total(c + other[p + 1..]) + Total(other[..p + 1]) == Total(c) + Total(other)
  {
    TotalConcat(c, other[p + 1..]);
    TotalConcat(other[..p + 1], other[p + 1..]);
    assert other == other[..p + 1] + other[p + 1..];
  }

  // ---------------------------------------------------------------- blocks

  class Block {
    const data: array<Record>
    var size: nat
    var next: Block?

    ghost predicate Valid()
      reads this
    {
      data.Length == BLOCK_SIZE && size <= BLOCK_SIZE
    }

    ghost function Items(): seq<Record>
      reads this, data
      requires Valid()
    {
      data[..size]
    }

    constructor (next: Block?)
      ensures Valid() && fresh(data) && Items() == [] && this.next == next
    {
      data := new Record[BLOCK_SIZE](i => 1);
      size := 0;
      this.next := next;
    }

    method Push(obj: Record)
      requires Valid() && size < BLOCK_SIZE
      modifies this`size, data
      ensures Valid() && Items() == old(Items()) + [obj]
    {
      data[size] := obj;
      size := size + 1;
    }

    method Pop() returns (obj: Record)
      requires Valid() && 0 < size
      modifies this`size
      ensures Valid() && Items() == old(Items())[..old(size) - 1] && obj == old(Items())[old(size) - 1]
    {
      size := size - 1;
      obj := data[size];
    }

    method Replace(ix: nat, obj: Record)
      requires Valid() && ix < size
      modifies data
      ensures Valid() && Items() == old(Items())[ix := obj]
    {
      data[ix] := obj;
    }

    /** Overwrites the record by the last one, which is dropped. */
    method Erase(ix: nat)
      requires Valid() && ix < size
      modifies this`size, data
      ensures Valid() && Items() == old(Items())[ix := old(Items())[old(size) - 1]][..old(size) - 1]
    {
      if ix != size - 1 { data[ix] := data[size - 1]; }
      size := size - 1;
    }
  }

  // ---------------------------------------------------------------- chains of blocks

  ghost predicate AllValid(blocks: seq<Block>)
    reads blocks
  {
    forall b :: b in blocks ==> b.Valid()
  }

  predicate Separate(blocks: seq<Block>)
  {
    forall i, j :: 0 <= i < j < |blocks| ==> blocks[i] != blocks[j] && blocks[i].data != blocks[j].data
  }

  /** Each block links to the one after it, and the last one to `end`. */
  ghost predicate ChainTo(blocks: seq<Block>, end: Block?)
    reads blocks
  {
    forall i {:trigger blocks[i].next} :: 0 <= i < |blocks| ==> blocks[i].next == if i + 1 < |blocks| then blocks[i + 1] else end
  }

  ghost predicate Linked(blocks: seq<Block>)
    reads blocks
  {
    0 < |blocks| && AllValid(blocks) && Separate(blocks) && ChainTo(blocks, null)
  }


  ghost function ItemsOf(blocks: seq<Block>): (c: Bag)
    reads blocks, set b | b in blocks :: b.data
    requires AllValid(blocks)
    ensures |c| == |blocks| && forall i :: 0 <= i < |blocks| ==> c[i] == blocks[i].Items()
  {
    if blocks == [] then [] else ItemsOf(blocks[..|blocks| - 1]) + [blocks[|blocks| - 1].Items()]
  }

  /** Only the head block is, and always is, short of full. */
  ghost predicate Sizes(blocks: seq<Block>)
    reads blocks
  {
    0 < |blocks| && blocks[0].size < BLOCK_SIZE && forall i :: 0 < i < |blocks| ==> blocks[i].size == BLOCK_SIZE
  }

  lemma ShapeOf(blocks: seq<Block>)
    requires 0 < |blocks| && AllValid(blocks)
    ensures Sizes(blocks) <==> BagShape(ItemsOf(blocks))
  {
    forall i | 0 <= i < |blocks| ensures |ItemsOf(blocks)[i]| == blocks[i].size {
      assert ItemsOf(blocks)[i] == blocks[i].Items();
    }
  }

  lemma JoinChains(a: seq<Block>, b: seq<Block>, end: Block?)
    requires 0 < |b| && ChainTo(a, b[0]) && ChainTo(b, end)
    ensures ChainTo(a + b, end)
  {
    var c := a + b;
    forall i {:trigger c[i].next} | 0 <= i < |c| ensures c[i].next == if i + 1 < |c| then c[i + 1] else end {
      if i < |a| { assert a[i].next == if i + 1 < |a| then a[i + 1] else b[0]; }
      else { assert b[i - |a|].next == if i - |a| + 1 < |b| then b[i - |a| + 1] else end; }
    }
  }

  lemma SplitChain(c: seq<Block>, k: nat, end: Block?)
    requires k < |c| && ChainTo(c, end)
    ensures ChainTo(c[..k], c[k]) && ChainTo(c[k..], end)
  {
    forall i {:trigger c[k..][i].next} | 0 <= i < |c| - k ensures c[k..][i].next == if i + 1 < |c| - k then c[k..][i + 1] else end {
      assert c[i + k].next == if i + k + 1 < |c| then c[i + k + 1] else end;
    }
    forall i {:trigger c[..k][i].next} | 0 <= i < k ensures c[..k][i].next == if i + 1 < k then c[..k][i + 1] else c[k] {
      assert c[i].next == c[i + 1];
    }
  }

  lemma Prepended(b: Block, blocks: seq<Block>)
    requires Linked(blocks) && b.Valid() && b.next == blocks[0]
    requires forall a :: a in blocks ==> a != b && a.data != b.data
    ensures Linked([b] + blocks) && ItemsOf([b] + blocks) == [b.Items()] + ItemsOf(blocks)
  {
    JoinChains([b], blocks, null);
    hide ChainTo;
  }

  lemma SubSeparate(blocks: seq<Block>, i: nat, j: nat)
    requires i <= j <= |blocks| && Separate(blocks)
    ensures Separate(blocks[i..j])
  {
    var sub := blocks[i..j];
    forall a, b | 0 <= a < b < |sub| ensures sub[a] != sub[b] && sub[a].data != sub[b].data {
      assert sub[a] == blocks[i + a] && sub[b] == blocks[i + b];
    }
  }

  lemma SubItems(blocks: seq<Block>, i: nat, j: nat)
    requires i <= j <= |blocks| && AllValid(blocks)
    ensures AllValid(blocks[i..j]) && ItemsOf(blocks[i..j]) == ItemsOf(blocks)[i..j]
  {
    var sub, c := blocks[i..j], ItemsOf(blocks);
    forall b | b in sub ensures b.Valid() { assert b in blocks; }
    forall a | 0 <= a < |sub| ensures sub[a].Items() == c[i..j][a] { assert sub[a] == blocks[i + a]; }
    FromItems(sub, c[i..j]);
  }

  /** Part of a list, if its chain ends. */
  lemma SubList(blocks: seq<Block>, i: nat, j: nat)
    requires i < j <= |blocks| && AllValid(blocks) && Separate(blocks) && ChainTo(blocks[i..j], null)
    ensures Linked(blocks[i..j]) && ItemsOf(blocks[i..j]) == ItemsOf(blocks)[i..j]
  {
    hide ChainTo, Separate, AllValid;
    SubSeparate(blocks, i, j);
    SubItems(blocks, i, j);
  }

  lemma JoinItems(a: seq<Block>, b: seq<Block>)
    requires AllValid(a) && AllValid(b)
    ensures AllValid(a + b) && ItemsOf(a + b) == ItemsOf(a) + ItemsOf(b)
  {
    assert forall k :: 0 <= k < |a| ==> (a + b)[k] == a[k];
    assert forall k :: 0 <= k < |b| ==> (a + b)[|a| + k] == b[k];
  }

  lemma SpliceSeparate(blocks: seq<Block>)
    requires 2 < |blocks| && Separate(blocks)
    ensures Separate([blocks[0]] + blocks[2..])
  {
    var bs := [blocks[0]] + blocks[2..];
    assert forall i :: 0 <= i < |bs| ==> bs[i] == blocks[if i == 0 then 0 else i + 1];
  }

  lemma SpliceItems(blocks: seq<Block>)
    requires 2 < |blocks| && AllValid(blocks)
    ensures AllValid([blocks[0]] + blocks[2..])
    ensures ItemsOf([blocks[0]] + blocks[2..]) == [ItemsOf(blocks)[0]] + ItemsOf(blocks)[2..]
  {
    var bs, c := [blocks[0]] + blocks[2..], ItemsOf(blocks);
    var d := [c[0]] + c[2..];
    forall i | 0 <= i < |bs| ensures bs[i] in blocks && bs[i].Items() == d[i] {
      assert bs[i] == blocks[if i == 0 then 0 else i + 1];
    }
    FromItems(bs, d);
  }

  lemma Spliced(blocks: seq<Block>)
    requires 2 < |blocks| && AllValid(blocks) && Separate(blocks) && blocks[0].next == blocks[2] && ChainTo(blocks[2..], null)
    ensures Linked([blocks[0]] + blocks[2..]) && ItemsOf([blocks[0]] + blocks[2..]) == [ItemsOf(blocks)[0]] + ItemsOf(blocks)[2..]
  {
    assert ChainTo([blocks[0]], blocks[2]);
    JoinChains([blocks[0]], blocks[2..], null);
    hide ChainTo, Separate, AllValid;
    SpliceSeparate(blocks);
    SpliceItems(blocks);
  }

  /** Two lists, the first linked to the second. */
  lemma Joined(a: seq<Block>, b: seq<Block>)
    requires 0 < |b| && AllValid(a) && ChainTo(a, b[0]) && Separate(a + b) && Linked(b)
    ensures Linked(a + b) && ItemsOf(a + b) == ItemsOf(a) + ItemsOf(b)
  {
    hide ChainTo, Separate, AllValid;
    JoinChains(a, b, null);
    JoinItems(a, b);
  }

  /** The first block of the second list is neither in the first list nor among the rest. */
  lemma NotIn(a: seq<Block>, b: seq<Block>)
    requires 0 < |b| && Separate(a + b)
    ensures forall x :: x in a + b[1..] ==> x != b[0] && x.data != b[0].data
  {
    forall i | 0 <= i < |a + b[1..]| ensures (a + b[1..])[i] != b[0] && (a + b[1..])[i].data != b[0].data {
      assert (a + b[1..])[i] == (a + b)[if i < |a| then i else i + 1] && (a + b)[|a|] == b[0];
    }
  }

  lemma MiddleOut(a: seq<Block>, b: seq<Block>, k: nat)
    requires k <= |b| && Separate(a + b)
    ensures Separate(a + b[k..])
  {
    assert forall i :: 0 <= i < |a + b[k..]| ==> (a + b[k..])[i] == (a + b)[if i < |a| then i else i + k];
  }

  lemma Apart(a: seq<Block>, b: seq<Block>)
    requires Separate(a + b)
    ensures forall x, y :: x in a && y in b ==> x != y && x.data != y.data
  {
    forall i, j | 0 <= i < |a| && 0 <= j < |b| ensures a[i] != b[j] && a[i].data != b[j].data {
      assert (a + b)[i] == a[i] && (a + b)[|a| + j] == b[j];
    }
  }

  lemma AppendBlocks(a: seq<Block>, b: seq<Block>)
    requires Separate(a) && Separate(b) && forall x, y :: x in a && y in b ==> x != y && x.data != y.data
    ensures Separate(a + b)
  {
  }

  lemma OneBlock(b: Block)
    requires b.Valid() && b.next == null
    ensures Linked([b]) && ItemsOf([b]) == [b.Items()]
  {
  }

  // ---------------------------------------------------------------- the bag

  class BlockBag {
    var head: Block
    var tail: Block
    var sizeInBlocks: nat
    ghost var blocks: seq<Block>

    ghost predicate Valid()
      reads this, blocks
    {
      Linked(blocks) && head == blocks[0] && tail == blocks[|blocks| - 1] && sizeInBlocks == |blocks| && Sizes(blocks)
    }

    ghost function Contents(): (c: Bag)
      reads this, blocks, set b | b in blocks :: b.data
      requires Linked(blocks)
      ensures BagShape(c) <==> Sizes(blocks)
    {
      ShapeOf(blocks);
      ItemsOf(blocks)
    }

    constructor ()
      ensures Valid() && Contents() == [[]] && forall b :: b in blocks ==> fresh(b) && fresh(b.data)
    {
      var b := new Block(null);
      head, tail, sizeInBlocks, blocks := b, b, 1, [b];
    }

    method IsEmpty() returns (empty: bool)
      requires Valid()
      ensures empty <==> !NonEmpty(Contents())
    {
      assert blocks[0].next == if 1 < |blocks| then blocks[1] else null;
      assert ItemsOf(blocks)[0] == head.Items();
      empty := head.next == null && head.size == 0;
    }

    /** Blocks of this bag are old ones, or newly allocated. */
    twostate predicate Grown()
      reads this
    {
      forall b :: b in blocks ==> b in old(blocks) || (fresh(b) && fresh(b.data))
    }

    method PushHead(obj: Record)
      requires Linked(blocks) && head == blocks[0] && head.size < BLOCK_SIZE
      modifies head`size, head.data
      ensures Linked(blocks) && Contents() == old(Contents())[0 := old(Contents())[0] + [obj]]
    {
      head.Push(obj);
    }

    method PrependBlock()
      requires Linked(blocks) && head == blocks[0]
      modifies this`head, this`sizeInBlocks, this`blocks
      ensures Linked(blocks) && head == blocks[0] && sizeInBlocks == old(sizeInBlocks) + 1
      ensures |blocks| == |old(blocks)| + 1 && blocks[1..] == old(blocks) && fresh(head) && fresh(head.data)
      ensures Contents() == [[]] + old(Contents())
    {
      var b := new Block(head);
      Prepended(b, blocks);
      head := b;
      sizeInBlocks := sizeInBlocks + 1;
      blocks := [b] + blocks;
    }

    lemma HeadItems()
      requires Linked(blocks) && head == blocks[0]
      ensures |Contents()| == |blocks| && Contents()[0] == head.Items() && |Contents()[0]| == head.size
      ensures head.next == if 1 < |blocks| then blocks[1] else null
    {
      assert ItemsOf(blocks)[0] == blocks[0].Items();
      assert blocks[0].next == if 1 < |blocks| then blocks[1] else null;
    }

    method Add(obj: Record)
      requires Valid()
      modifies this`head, this`sizeInBlocks, this`blocks, head`size, head.data
      ensures Valid() && Grown() && Contents() == Added(old(Contents()), obj)
    {
      ghost var c := Contents();
      AddedKeeps(c, obj);
      HeadItems();
      PushHead(obj);
      HeadItems();
      hide ChainTo, Separate, AllValid, Total;
      if head.size == BLOCK_SIZE { PrependBlock(); }
      assert Contents() == Added(c, obj);
    }

    /** Erase a record of the head block, inside the block. */
    method EraseIn(ix: nat)
      requires Linked(blocks) && head == blocks[0] && ix < head.size
      modifies head`size, head.data
      ensures Linked(blocks) && ix < |old(Contents())[0]|
      ensures var h := old(Contents())[0]; Contents() == old(Contents())[0 := h[ix := h[|h| - 1]][..|h| - 1]]
    {
      HeadItems();
      head.Erase(ix);
    }

    method ReplaceIn(ghost at: nat, curr: Block, ix: nat, obj: Record)
      requires Linked(blocks) && at < |blocks| && curr == blocks[at] && ix < curr.size
      modifies curr.data
      ensures Linked(blocks) && ix < |old(Contents())[at]|
      ensures var b: seq<Record> := old(Contents())[at]; Contents() == old(Contents())[at := b[ix := obj]]
    {
      assert Contents()[at] == curr.Items();
      curr.Replace(ix, obj);
    }

    /** Drop an empty head block that has a successor. */
    method Trim()
      requires Linked(blocks) && head == blocks[0] && head.size == 0 && 1 < |blocks| && sizeInBlocks == |blocks|
      modifies this`head, this`sizeInBlocks, this`blocks
      ensures Linked(blocks) && head == blocks[0] && blocks == old(blocks)[1..] && sizeInBlocks == |blocks|
      ensures Contents() == old(Contents())[1..]
    {
      HeadItems();
      SplitChain(blocks, 1, null);
      SubList(blocks, 1, |blocks|);
      assert blocks[1..|blocks|] == blocks[1..];
      head := head.next;
      sizeInBlocks := sizeInBlocks - 1;
      blocks := blocks[1..];
    }

    method PopHead() returns (obj: Record)
      requires Linked(blocks) && head == blocks[0] && 0 < head.size
      modifies head`size
      ensures Linked(blocks) && 0 < |old(Contents())[0]|
      ensures Contents() == old(Contents())[0 := old(Contents())[0][..|old(Contents())[0]| - 1]]
      ensures obj == old(Contents())[0][|old(Contents())[0]| - 1]
    {
      HeadItems();
      obj := head.Pop();
    }

    method Remove() returns (obj: Record)
      requires Valid() && NonEmpty(Contents())
      modifies this`head, this`sizeInBlocks, this`blocks, blocks
      ensures Valid() && Grown() && obj == old(Top(Contents())) && Contents() == Popped(old(Contents()))
    {
      ghost var c := Contents();
      PoppedKeeps(c);
      HeadItems();
      hide ChainTo, Separate, AllValid, Total;
      if head.size == 0 {
        Trim();
        HeadItems();
        assert Contents() == Trimmed(c);
      }
      obj := PopHead();
      assert Contents() == Popped(c);
    }

    /** Erase one record: from the head block, or by moving a record of the head block into its place. */
    method EraseTrimmed(curr: Block, ix: nat, ghost at: nat) returns (moved: bool)
      requires Linked(blocks) && head == blocks[0] && 0 < head.size && at < |blocks| && curr == blocks[at] && ix < curr.size
      modifies head`size, head.data, curr.data
      ensures Linked(blocks) && 0 < |old(Contents())[0]| && ix < |old(Contents())[at]|
      ensures Contents() == WithoutAt(old(Contents()), at, ix) && (moved <==> at != 0)
    {
      assert at != 0 ==> head != curr by { assert Separate(blocks); }
      HeadItems();
      assert Contents()[at] == curr.Items();
      if curr == head {
        EraseIn(ix);
        moved := false;
      } else {
        hide Separate, ChainTo;
        var obj := PopHead();
        assert Contents()[at] == curr.Items();
        ReplaceIn(at, curr, ix, obj);
        moved := true;
      }
    }

    lemma ValidAgain()
      requires Linked(blocks) && head == blocks[0] && tail == blocks[|blocks| - 1] && sizeInBlocks == |blocks| && BagShape(Contents())
      ensures Valid()
    {
    }

    /** Drop the head block if it is empty and has a successor. */
    method TrimIfEmpty()
      requires Valid() && NonEmpty(Contents())
      modifies this`head, this`sizeInBlocks, this`blocks
      ensures Linked(blocks) && head == blocks[0] && tail == blocks[|blocks| - 1] && sizeInBlocks == |blocks| && 0 < head.size
      ensures blocks == if |old(Contents())[0]| == 0 then old(blocks)[1..] else old(blocks)
      ensures Contents() == Trimmed(old(Contents()))
    {
      HeadItems();
      if head.size == 0 { Trim(); }
      HeadItems();
    }

    method EraseAfterTrim(curr: Block, ix: nat, ghost at: nat) returns (moved: bool)
      requires Linked(blocks) && head == blocks[0] && tail == blocks[|blocks| - 1] && sizeInBlocks == |blocks| && 0 < head.size
      requires at < |blocks| && curr == blocks[at] && ix < curr.size && 0 < |Contents()[0]| && ix < |Contents()[at]|
      requires BagShape(WithoutAt(Contents(), at, ix))
      modifies head`size, head.data, curr.data
      ensures Valid() && Contents() == WithoutAt(old(Contents()), at, ix) && (moved <==> at != 0)
    {
      moved := EraseTrimmed(curr, ix, at);
      ValidAgain();
    }

    method Erase(curr: Block, ix: nat, ghost i: nat) returns (moved: bool)
      requires Valid() && i < |blocks| && curr == blocks[i] && ix < curr.size
      modifies this`head, this`sizeInBlocks, this`blocks, blocks, set b | b in blocks :: b.data
      ensures ix < |old(Contents())[i]| && blocks == if |old(Contents())[0]| == 0 then old(blocks)[1..] else old(blocks)
      ensures Valid() && Contents() == Without(old(Contents()), i, ix)
      ensures moved <==> i > 0 && !(i == 1 && |old(Contents())[0]| == 0)
    {
      ghost var c := Contents();
      assert c[i] == curr.Items();
      ghost var at := if |c[0]| == 0 then i - 1 else i;
      WithoutKeeps(c, i, ix);
      TrimIfEmpty();
      assert curr == blocks[at];
      assert 0 < |Contents()[0]| && ix < |Contents()[at]|;
      moved := EraseAfterTrim(curr, ix, at);
    }

    /** The bag's fields after its list has changed at the tail. */
    method Rebuilt(ghost bs: seq<Block>, newTail: Block, size: nat)
      requires Linked(bs) && head == bs[0] && newTail == bs[|bs| - 1] && size == |bs| && BagShape(ItemsOf(bs))
      modifies this`tail, this`sizeInBlocks, this`blocks
      ensures Valid() && blocks == bs && Contents() == old(ItemsOf(bs))
    {
      ShapeOf(bs);
      tail, sizeInBlocks, blocks := newTail, size, bs;
    }

    /** Take the block after the head out of the chain. */
    method Bypass(second: Block)
      requires Linked(blocks) && head == blocks[0] && 2 < |blocks| && second == blocks[1]
      modifies head`next, second`next
      ensures AllValid(blocks) && blocks[0].next == blocks[2] && ChainTo(blocks[2..], null) && second.next == null
      ensures ItemsOf(blocks) == old(ItemsOf(blocks))
    {
      ghost var c, rest := ItemsOf(blocks), blocks[2..];
      SplitChain(blocks, 2, null);
      assert blocks[1].next == blocks[2];
      assert forall i :: 0 <= i < |rest| ==> rest[i] == blocks[i + 2] && rest[i] != head && rest[i] != second;
      head.next := second.next;
      second.next := null;
      assert ChainTo(rest, null);
      FromItems(blocks, c);
    }

    /** Unlink the block after the head. */
    method Unlink(second: Block)
      requires Linked(blocks) && head == blocks[0] && 2 < |blocks| && second == blocks[1]
      modifies this`blocks, head`next, second`next
      ensures blocks == [old(blocks)[0]] + old(blocks)[2..] && Linked(blocks) && second.next == null
      ensures Contents() == [old(Contents())[0]] + old(Contents())[2..]
    {
      hide ChainTo, Separate, AllValid;
      Bypass(second);
      Spliced(blocks);
      blocks := [blocks[0]] + blocks[2..];
    }

    /** The block after the head, if another one follows it. */
    method SecondOfThree() returns (b: Block?)
      requires Linked(blocks) && head == blocks[0]
      ensures b == if |blocks| > 2 then blocks[1] else null
    {
      HeadItems();
      b := head.next;
      if b != null {
        assert blocks[1].next == if 2 < |blocks| then blocks[2] else null;
        if b.next == null { b := null; }
      }
    }

    method TakeSecond(second: Block)
      requires Valid() && 2 < |blocks| && second == blocks[1]
      modifies this`tail, this`sizeInBlocks, this`blocks, head`next, second`next
      ensures Valid() && Contents() == [old(Contents())[0]] + old(Contents())[2..] && blocks == [old(blocks)[0]] + old(blocks)[2..]
      ensures second.next == null
    {
      hide ChainTo, Separate, Total, Sizes, AllValid;
      ghost var c := Contents();
      SecondOut(c);
      Unlink(second);
      Rebuilt(blocks, tail, sizeInBlocks - 1);
    }

    /** The full block after the head, if another one follows it. */
    method RemoveFullBlock() returns (b: Block?)
      requires Valid()
      modifies this`tail, this`sizeInBlocks, this`blocks, blocks
      ensures Valid() && (b == null <==> |old(blocks)| <= 2)
      ensures b == null ==> blocks == old(blocks) && Contents() == old(Contents())
      ensures b != null ==> Contents() == [old(Contents())[0]] + old(Contents())[2..] && blocks == [old(blocks)[0]] + old(blocks)[2..]
      ensures b != null ==> b == old(blocks)[1] && b.Valid() && b.next == null && b.Items() == old(Contents())[1] && |b.Items()| == BLOCK_SIZE
    {
      b := SecondOfThree();
      if b != null {
        ghost var items := b.Items();
        assert Contents()[1] == items && |items| == BLOCK_SIZE && b.Valid();
        hide ChainTo, Separate;
        TakeSecond(b);
        assert b.Items() == items && b.Valid();
      }
    }

    method AddFullBlock(b: Block)
      requires Valid() && b.Valid() && |b.Items()| == BLOCK_SIZE && b.next == null
      requires forall a :: a in blocks ==> a != b && a.data != b.data
      modifies this`tail, this`sizeInBlocks, this`blocks, tail`next
      ensures Valid() && blocks == old(blocks) + [b] && Contents() == old(Contents()) + [b.Items()]
    {
      ghost var bs := blocks;
      BlockIn(Contents(), b.Items());
      OneBlock(b);
      AppendBlocks(bs, [b]);
      assert tail !in [b];
      hide Separate, AllValid, ChainTo, Total;
      Relink(bs, null, tail, b);
      Joined(bs, [b]);
      Rebuilt(bs + [b], b, sizeInBlocks + 1);
    }

    lemma Parts(p: nat)
      requires Valid() && p + 1 < |blocks|
      ensures var prefix, suffix := blocks[..p + 1], blocks[p + 1..];
              && Linked(suffix) && ItemsOf(suffix) == Contents()[p + 1..]
              && AllValid(prefix) && Separate(prefix) && ChainTo(prefix, suffix[0]) && ItemsOf(prefix) == Contents()[..p + 1]
              && blocks[p].next == suffix[0]
    {
      SplitChain(blocks, p + 1, null);
      SubItems(blocks, 0, p + 1);
      SubSeparate(blocks, 0, p + 1);
      SubList(blocks, p + 1, |blocks|);
      assert blocks[0..p + 1] == blocks[..p + 1] && blocks[p + 1..|blocks|] == blocks[p + 1..];
      assert blocks[p].next == blocks[p + 1];
      hide Separate, AllValid, ChainTo;
    }

    /** Move all blocks after `predecessor`, the `p`-th block of the other bag, to the end of this one. */
    method AppendMoveFullBlocks(other: BlockBag, predecessor: Block, ghost p: nat)
      requires Valid() && other.Valid() && this != other && p < |other.blocks| && predecessor == other.blocks[p]
      requires Separate(blocks + other.blocks)
      modifies this`tail, this`sizeInBlocks, this`blocks, other`tail, other`sizeInBlocks, other`blocks, tail`next, predecessor`next
      ensures Valid() && other.Valid()
      ensures blocks == old(blocks) + old(other.blocks)[p + 1..] && other.blocks == old(other.blocks)[..p + 1]
      ensures Contents() == old(Contents()) + old(other.Contents())[p + 1..] && other.Contents() == old(other.Contents())[..p + 1]
    {
      assert other.blocks[p].next == if p + 1 < |other.blocks| then other.blocks[p + 1] else null;
      if predecessor.next == null {
        LastOne(other.blocks, p);
        LastOne(other.Contents(), p);
        return;
      }
      MoveRest(other, predecessor, p);
    }

    /** The blocks of the two bags that are about to be linked or unlinked. */
    lemma Ends(other: BlockBag, p: nat)
      requires 0 < |blocks| && p + 1 < |other.blocks| && tail == blocks[|blocks| - 1] && Separate(blocks + other.blocks)
      ensures var prefix, suffix := other.blocks[..p + 1], other.blocks[p + 1..];
              && Separate(blocks + suffix) && tail !in prefix && tail !in suffix
              && other.blocks[p] !in blocks && other.blocks[p] !in suffix && other.blocks[p] == prefix[|prefix| - 1]
    {
      MiddleOut(blocks, other.blocks, p + 1);
      Apart(blocks, other.blocks);
      SubSeparate(blocks + other.blocks, |blocks|, |blocks| + |other.blocks|);
      assert (blocks + other.blocks)[|blocks|..|blocks| + |other.blocks|] == other.blocks;
      assert tail in blocks && other.blocks[p] in other.blocks;
    }

    method MoveRest(other: BlockBag, predecessor: Block, ghost p: nat)
      requires Valid() && other.Valid() && this != other && p + 1 < |other.blocks| && predecessor == other.blocks[p]
      requires Separate(blocks + other.blocks)
      modifies this`tail, this`sizeInBlocks, this`blocks, other`tail, other`sizeInBlocks, other`blocks, tail`next, predecessor`next
      ensures Valid() && other.Valid()
      ensures blocks == old(blocks) + old(other.blocks)[p + 1..] && other.blocks == old(other.blocks)[..p + 1]
      ensures Contents() == old(Contents()) + old(other.Contents())[p + 1..] && other.Contents() == old(other.Contents())[..p + 1]
    {
      hide Separate, AllValid, ChainTo, Total, BagShape, Sizes;
      ghost var prefix, suffix := other.blocks[..p + 1], other.blocks[p + 1..];
      Moved(Contents(), other.Contents(), p);
      other.Parts(p);
      Ends(other, p);
      ghost var whole := blocks + suffix;
      assert other.head == prefix[0] && other.tail == suffix[|suffix| - 1];
      hide Linked;
      Splice(blocks, prefix, suffix, tail, predecessor);
      Finish(other, predecessor, prefix, whole);
    }

    /** Recount both lists. */
    method Finish(other: BlockBag, predecessor: Block, ghost prefix: seq<Block>, ghost whole: seq<Block>)
      requires this != other && Linked(whole) && Linked(prefix) && head == whole[0] && other.head == prefix[0]
      requires other.tail == whole[|whole| - 1] && predecessor == prefix[|prefix| - 1]
      requires BagShape(ItemsOf(whole)) && BagShape(ItemsOf(prefix))
      modifies this`tail, this`sizeInBlocks, this`blocks, other`tail, other`sizeInBlocks, other`blocks
      ensures Valid() && blocks == whole && Contents() == old(ItemsOf(whole))
      ensures other.Valid() && other.blocks == prefix && other.Contents() == old(ItemsOf(prefix))
    {
      hide ChainTo, Separate, AllValid, BagShape;
      var n := CountBlocks(head, whole);
      var m := CountBlocks(other.head, prefix);
      Refit(other, other.tail, n, predecessor, m, prefix, whole);
    }

    method Refit(other: BlockBag, last: Block, n: nat, predecessor: Block, m: nat, ghost prefix: seq<Block>, ghost whole: seq<Block>)
      requires this != other && Linked(whole) && Linked(prefix) && head == whole[0] && other.head == prefix[0]
      requires last == whole[|whole| - 1] && predecessor == prefix[|prefix| - 1] && n == |whole| && m == |prefix|
      requires BagShape(ItemsOf(whole)) && BagShape(ItemsOf(prefix))
      modifies this`tail, this`sizeInBlocks, this`blocks, other`tail, other`sizeInBlocks, other`blocks
      ensures Valid() && blocks == whole && Contents() == old(ItemsOf(whole))
      ensures other.Valid() && other.blocks == prefix && other.Contents() == old(ItemsOf(prefix))
    {
      hide ChainTo, Separate, AllValid, BagShape;
      ghost var c := ItemsOf(whole);
      other.Rebuilt(prefix, predecessor, m);
      assert ItemsOf(whole) == c;
      Rebuilt(whole, last, n);
    }

    /** Take the last record of a list of one block. */
    method PopOnly() returns (obj: Record)
      requires Valid() && |blocks| == 1 && 0 < head.size
      modifies head`size
      ensures Valid() && Total(old(Contents())) == Total(Contents()) + multiset{obj} && head.size == old(head.size) - 1
    {
      HeadItems();
      ghost var c := Contents();
      PoppedKeeps(c);
      obj := PopHead();
      assert Contents() == Popped(c) && obj == Top(c);
      HeadItems();
      ValidAgain();
    }

    /** Bags that share no block: the other one has only its head block left. */
    ghost predicate Feeds(other: BlockBag)
      reads this, blocks, other, other.blocks
    {
      && Valid() && other.Valid() && this != other && |other.blocks| == 1
      && forall b :: b in blocks ==> b != other.head && b.data != other.head.data
    }

    method MoveOne(other: BlockBag)
      requires Feeds(other) && 0 < other.head.size
      modifies this`head, this`sizeInBlocks, this`blocks, head`size, head.data, other.head`size
      ensures Feeds(other) && other.blocks == old(other.blocks) && other.head.size == old(other.head.size) - 1
      ensures head == old(head) || (fresh(head) && fresh(head.data))
      ensures Together(other) == old(Together(other))
    {
      ghost var c, d := Contents(), other.Contents();
      var obj := other.PopOnly();
      assert Contents() == c;
      AddedKeeps(c, obj);
      ghost var e := other.Contents();
      Add(obj);
      assert other.Contents() == e;
    }

    method NothingLeft() returns (empty: bool)
      requires Valid() && |blocks| == 1
      ensures (empty <==> head.size == 0) && (empty <==> !NonEmpty(Contents()))
    {
      HeadItems();
      empty := IsEmpty();
    }

    ghost function Together(other: BlockBag): multiset<Record>
      reads this, blocks, other, other.blocks, (set b | b in blocks :: b.data), set b | b in other.blocks :: b.data
      requires Valid() && other.Valid()
    {
      Total(Contents()) + Total(other.Contents())
    }

    /** Move what is left, record by record. */
    method MoveRecords(other: BlockBag)
      requires Feeds(other)
      modifies this`head, this`sizeInBlocks, this`blocks, head`size, head.data, other.head`size
      ensures Feeds(other) && !NonEmpty(other.Contents()) && Together(other) == old(Together(other))
    {
      hide Total, Separate, ChainTo, AllValid, Sizes, BagShape;
      var empty := other.NothingLeft();
      while !empty
        invariant Feeds(other) && other.blocks == old(other.blocks) && (empty <==> !NonEmpty(other.Contents())) && (empty <==> other.head.size == 0)
        invariant head == old(head) || (fresh(head) && fresh(head.data))
        invariant Together(other) == old(Together(other))
        decreases other.head.size
      {
        MoveOne(other);
        empty := other.NothingLeft();
      }
    }

    /** Everything in the other bag moves to this one; no record is lost or duplicated. */
    method AppendMoveAll(other: BlockBag)
      requires Valid() && other.Valid() && this != other && Separate(blocks + other.blocks)
      modifies this, other, tail`next, other.head`next, head`size, head.data, other.head`size
      ensures Valid() && other.Valid() && !NonEmpty(other.Contents()) && Together(other) == old(Together(other))
    {
      ghost var c, d := Contents(), other.Contents();
      Moved(c, d, 0);
      hide Total, Separate, ChainTo, AllValid, Sizes, BagShape;
      ghost var all := Total(c) + Total(d);
      AppendHeads(other);
      hide Linked;
      assert Together(other) == all;
      MoveRecords(other);
    }

    lemma NowFeeds(other: BlockBag, bs: seq<Block>, theirs: seq<Block>)
      requires Valid() && other.Valid() && this != other && 0 < |theirs| && Separate(bs + theirs)
      requires blocks == bs + theirs[1..] && other.blocks == theirs[..1]
      ensures Feeds(other)
    {
      NotIn(bs, theirs);
    }

    method AppendHeads(other: BlockBag)
      requires Valid() && other.Valid() && this != other && Separate(blocks + other.blocks)
      modifies this`tail, this`sizeInBlocks, this`blocks, other`tail, other`sizeInBlocks, other`blocks, tail`next, other.head`next
      ensures Feeds(other)
      ensures Contents() == old(Contents()) + old(other.Contents())[1..] && other.Contents() == old(other.Contents())[..1]
    {
      ghost var bs, theirs := blocks, other.blocks;
      hide Separate, ChainTo, AllValid, BagShape, Sizes;
      AppendMoveFullBlocks(other, other.head, 0);
      hide Linked;
      NowFeeds(other, bs, theirs);
    }
  }

  /** Take the list `suffix` from behind `predecessor` and put it behind `last`. */
  method Splice(ghost bs: seq<Block>, ghost prefix: seq<Block>, ghost suffix: seq<Block>, last: Block, predecessor: Block)
    requires Linked(bs) && last == bs[|bs| - 1] && Linked(suffix) && Separate(bs + suffix)
    requires 0 < |prefix| && AllValid(prefix) && Separate(prefix) && ChainTo(prefix, suffix[0])
    requires predecessor == prefix[|prefix| - 1] && predecessor.next == suffix[0]
    requires last !in prefix && last !in suffix && predecessor !in bs && predecessor !in suffix
    modifies last`next, predecessor`next
    ensures Linked(bs + suffix) && ItemsOf(bs + suffix) == old(ItemsOf(bs)) + old(ItemsOf(suffix))
    ensures Linked(prefix) && ItemsOf(prefix) == old(ItemsOf(prefix))
  {
    ghost var c, d, e := ItemsOf(bs), ItemsOf(suffix), ItemsOf(prefix);
    Relink(bs, null, last, predecessor.next);
    assert AllValid(prefix) && ChainTo(prefix, suffix[0]) && Linked(suffix);
    Relink(prefix, suffix[0], predecessor, null);
    assert AllValid(bs) && ChainTo(bs, suffix[0]) && Linked(suffix);
    assert forall i :: 0 <= i < |bs| ==> bs[i].Items() == c[i];
    assert forall i :: 0 <= i < |suffix| ==> suffix[i].Items() == d[i];
    assert forall i :: 0 <= i < |prefix| ==> prefix[i].Items() == e[i];
    FromItems(bs, c);
    FromItems(suffix, d);
    FromItems(prefix, e);
    hide Separate, AllValid, ChainTo;
    Joined(bs, suffix);
  }

  lemma FromItems(bs: seq<Block>, c: Bag)
    requires AllValid(bs) && |c| == |bs| && forall i :: 0 <= i < |bs| ==> bs[i].Items() == c[i]
    ensures ItemsOf(bs) == c
  {
  }

  lemma LastOne<T>(s: seq<T>, p: nat)
    requires p + 1 == |s|
    ensures s[p + 1..] == [] && s[..p + 1] == s
  {
  }

  /** computeSizeInBlocks: walk the list. */
  method CountBlocks(head: Block, ghost blocks: seq<Block>) returns (result: nat)
    requires Linked(blocks) && head == blocks[0]
    ensures result == |blocks|
  {
    result := 0;
    var curr: Block? := head;
    while curr != null
      invariant result <= |blocks| && curr == if result < |blocks| then blocks[result] else null
      decreases |blocks| - result
    {
      assert blocks[result].next == if result + 1 < |blocks| then blocks[result + 1] else null;
      result := result + 1;
      curr := curr.next;
    }
  }

  /** Link the last block of a list to another one, or to nothing. */
  method Relink(ghost bs: seq<Block>, ghost e: Block?, last: Block, b: Block?)
    requires 0 < |bs| && last == bs[|bs| - 1] && AllValid(bs) && Separate(bs) && ChainTo(bs, e)
    modifies last`next
    ensures AllValid(bs) && ChainTo(bs, b) && ItemsOf(bs) == old(ItemsOf(bs))
  {
    assert forall i {:trigger bs[i].next} :: 0 <= i < |bs| - 1 ==> bs[i] != last && bs[i].next == bs[i + 1];
    last.next := b;
  }
}
