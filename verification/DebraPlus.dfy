/** The rotation of DEBRA+ (common/recordmgr/reclaimer_debraplus.h): records that some thread has announced are
    swapped to the front of the bag, and the blocks behind them are handed to the pool. */
module DebraPlus {
  import opened ProbingSet
  import opened BlockBags

  const SCAN_THRESHOLD: nat := 4

  // ---------------------------------------------------------------- iterator positions, on values

  /** A block and an index in it. Iteration goes through each block from its last record down; the end is one
      block past the last. */
  datatype Pos = Pos(b: nat, ix: int)

  predicate At(c: Bag, p: Pos) { p.b < |c| && 0 <= p.ix < |c[p.b]| }

  predicate IsEnd(c: Bag, p: Pos) { p.b == |c| && p.ix == -1 }

  function Get(c: Bag, p: Pos): Record
    requires At(c, p)
  {
    c[p.b][p.ix]
  }

  predicate Before(p: Pos, q: Pos) { p.b < q.b || (p.b == q.b && p.ix > q.ix) }

  function Succ(c: Bag, p: Pos): Pos
    requires p.b < |c|
  {
    if p.ix > 0 then Pos(p.b, p.ix - 1) else Pos(p.b + 1, if p.b + 1 < |c| then |c[p.b + 1]| - 1 else -1)
  }

  lemma SuccNext(c: Bag, p: Pos)
    requires BagShape(c) && p.b < |c| && 0 <= p.ix <= |c[p.b]|
    ensures At(c, Succ(c, p)) || IsEnd(c, Succ(c, p))
    ensures Before(p, Succ(c, p))
    ensures forall q :: At(c, q) ==> (Before(q, Succ(c, p)) <==> Before(q, p) || q == p)
  {
  }

  /** Everything before `next` is announced, everything between `next` and `it` is not. */
  ghost predicate Partitioned(c: Bag, next: Pos, it: Pos, hazards: set<Record>)
  {
    && (At(c, next) || IsEnd(c, next)) && (At(c, it) || IsEnd(c, it)) && !Before(it, next)
    && (forall p {:trigger Get(c, p)} :: At(c, p) && Before(p, next) ==> Get(c, p) in hazards)
    && (forall p {:trigger Get(c, p)} :: At(c, p) && !Before(p, next) && Before(p, it) ==> Get(c, p) !in hazards)
  }

  function Put(c: Bag, p: Pos, r: Record): Bag
    requires At(c, p)
  {
    var b: seq<Record> := c[p.b][p.ix := r];
    c[p.b := b]
  }

  /** `it.swap(nextswap)`. */
  function Swapped(c: Bag, n: Pos, i: Pos): Bag
    requires At(c, n) && At(c, i)
  {
    Put(Put(c, n, Get(c, i)), i, Get(c, n))
  }

  lemma PutAt(c: Bag, p: Pos, r: Record, q: Pos)
    requires At(c, p)
    ensures At(Put(c, p, r), q) <==> At(c, q)
    ensures At(c, q) ==> Get(Put(c, p, r), q) == if q == p then r else Get(c, q)
    ensures |Put(c, p, r)| == |c|
  {
  }

  lemma SwappedAt(c: Bag, n: Pos, i: Pos, q: Pos)
    requires At(c, n) && At(c, i)
    ensures |Swapped(c, n, i)| == |c| && (At(Swapped(c, n, i), q) <==> At(c, q))
    ensures At(c, q) ==> Get(Swapped(c, n, i), q) == if q == i then Get(c, n) else if q == n then Get(c, i) else Get(c, q)
  {
    var d := Put(c, n, Get(c, i));
    PutAt(c, n, Get(c, i), i);
    PutAt(c, n, Get(c, i), q);
    PutAt(d, i, Get(c, n), q);
  }

  lemma PutTotal(c: Bag, p: Pos, r: Record)
    requires At(c, p)
    ensures Total(Put(c, p, r)) + multiset{Get(c, p)} == Total(c) + multiset{r}
  {
    var b: seq<Record> := c[p.b][p.ix := r];
    TotalUpdate(c, p.b, b);
    ReplacedAt(c[p.b], p.ix, r);
    var t, u, m, n := Total(c), Total(Put(c, p, r)), multiset(c[p.b]), multiset(b);
    hide Total;
    forall x: Record ensures (u + multiset{Get(c, p)})[x] == (t + multiset{r})[x] {
      assert (u + m)[x] == (t + n)[x] && (n + multiset{Get(c, p)})[x] == (m + multiset{r})[x];
    }
  }

  /** Swapping loses and duplicates nothing. */
  lemma SwappedTotal(c: Bag, n: Pos, i: Pos)
    requires At(c, n) && At(c, i)
    ensures Total(Swapped(c, n, i)) == Total(c)
  {
    var d := Put(c, n, Get(c, i));
    PutAt(c, n, Get(c, i), i);
    PutTotal(c, n, Get(c, i));
    PutTotal(d, i, Get(c, n));
    var t, u, v := Total(c), Total(d), Total(Swapped(c, n, i));
    var x, y := Get(c, n), Get(c, i);
    hide Total;
    assert Get(d, i) == y;
    forall r: Record ensures v[r] == t[r] {
      assert (u + multiset{x})[r] == (t + multiset{y})[r] && (v + multiset{y})[r] == (u + multiset{x})[r];
    }
  }

  lemma SwappedShape(c: Bag, n: Pos, i: Pos)
    requires At(c, n) && At(c, i) && BagShape(c)
    ensures BagShape(Swapped(c, n, i)) && forall p: Pos :: p.b < |c| ==> Succ(Swapped(c, n, i), p) == Succ(c, p)
  {
  }

  lemma StartPartitioned(c: Bag, hazards: set<Record>)
    requires BagShape(c)
    ensures var p := Succ(c, Pos(0, |c[0]|)); Partitioned(c, p, p, hazards)
  {
    SuccNext(c, Pos(0, |c[0]|));
  }

  lemma PassOver(c: Bag, next: Pos, it: Pos, hazards: set<Record>)
    requires BagShape(c) && Partitioned(c, next, it, hazards) && At(c, it) && Get(c, it) !in hazards
    ensures Partitioned(c, next, Succ(c, it), hazards)
  {
    SuccNext(c, it);
  }

  lemma NextIsAt(c: Bag, next: Pos, it: Pos, hazards: set<Record>)
    requires Partitioned(c, next, it, hazards) && At(c, it)
    ensures At(c, next)
  {
  }

  lemma SwapIn(c: Bag, next: Pos, it: Pos, hazards: set<Record>)
    requires BagShape(c) && Partitioned(c, next, it, hazards) && At(c, it) && At(c, next) && Get(c, it) in hazards
    ensures Partitioned(Swapped(c, next, it), Succ(c, next), Succ(c, it), hazards)
  {
    var d := Swapped(c, next, it);
    SuccNext(c, it);
    SuccNext(c, next);
    forall p ensures At(d, p) <==> At(c, p) { SwappedAt(c, next, it, p); }
    forall p | At(d, p) && Before(p, Succ(c, next)) ensures Get(d, p) in hazards { SwappedAt(c, next, it, p); }
    forall p | At(d, p) && !Before(p, Succ(c, next)) && Before(p, Succ(c, it)) ensures Get(d, p) !in hazards {
      SwappedAt(c, next, it, p);
    }
    SwappedAt(c, next, it, next);
  }

  /** After the pass, no announced record is behind the block in which `next` stands. */
  lemma RestUnannounced(c: Bag, next: Pos, it: Pos, hazards: set<Record>)
    requires Partitioned(c, next, it, hazards) && IsEnd(c, it)
    ensures Divided(c, next, hazards)
  {
    forall b, k | next.b < b < |c| && 0 <= k < |c[b]| ensures c[b][k] !in hazards { assert Get(c, Pos(b, k)) !in hazards; }
  }

  // ---------------------------------------------------------------- the iterators

  /** A blockbag_iterator: the current block and the index in it. */
  ghost predicate StandsAt(bag: BlockBag, curr: Block?, ix: int, p: Pos)
    reads bag
  {
    ix == p.ix && p.b <= |bag.blocks| && curr == if p.b < |bag.blocks| then bag.blocks[p.b] else null
  }

  /** `it++`. */
  method Advance(bag: BlockBag, curr: Block, ix: int, ghost p: Pos) returns (curr': Block?, ix': int)
    requires Linked(bag.blocks) && p.b < |bag.blocks| && StandsAt(bag, curr, ix, p) && 0 <= ix <= curr.size
    ensures StandsAt(bag, curr', ix', Succ(bag.Contents(), p))
  {
    assert bag.blocks[p.b].next == if p.b + 1 < |bag.blocks| then bag.blocks[p.b + 1] else null;
    curr', ix' := curr, ix - 1;
    if ix' < 0 {
      curr' := curr.next;
      if curr' != null { assert bag.Contents()[p.b + 1] == curr'.Items(); }
      ix' := if curr' != null then curr'.size - 1 else -1;
    }
  }

  /** `begin()`. */
  method Begin(bag: BlockBag) returns (curr: Block?, ix: int)
    requires bag.Valid()
    ensures StandsAt(bag, curr, ix, Succ(bag.Contents(), Pos(0, |bag.Contents()[0]|)))
  {
    bag.HeadItems();
    curr, ix := Advance(bag, bag.head, bag.head.size, Pos(0, bag.head.size));
  }

  method Peek(bag: BlockBag, curr: Block, ix: int, ghost p: Pos) returns (r: Record)
    requires Linked(bag.blocks) && StandsAt(bag, curr, ix, p) && At(bag.Contents(), p)
    ensures 0 <= ix < curr.size && r == Get(bag.Contents(), p)
  {
    Reached(bag, curr, ix, p);
    r := curr.data[ix];
  }

  method Replace(bag: BlockBag, curr: Block, ix: int, ghost p: Pos, r: Record)
    requires bag.Valid() && StandsAt(bag, curr, ix, p) && At(bag.Contents(), p)
    modifies curr.data
    ensures bag.Valid() && bag.Contents() == Put(old(bag.Contents()), p, r)
  {
    Reached(bag, curr, ix, p);
    bag.ReplaceIn(p.b, curr, ix, r);
  }

  /** `it.swap(next)`. */
  method Swap(bag: BlockBag, ncurr: Block, nix: int, ghost n: Pos, curr: Block, ix: int, ghost i: Pos)
    requires bag.Valid() && At(bag.Contents(), n) && At(bag.Contents(), i)
    requires StandsAt(bag, ncurr, nix, n) && StandsAt(bag, curr, ix, i)
    modifies ncurr.data, curr.data
    ensures bag.Valid() && bag.Contents() == Swapped(old(bag.Contents()), n, i)
  {
    ghost var c := bag.Contents();
    var temp := Peek(bag, ncurr, nix, n);
    var r := Peek(bag, curr, ix, i);
    PutAt(c, n, r, i);
    Replace(bag, ncurr, nix, n, r);
    Replace(bag, curr, ix, i, temp);
  }

  // ---------------------------------------------------------------- the pass

  /** What the pass keeps. */
  ghost predicate Passing(bag: BlockBag, curr: Block?, ix: int, it: Pos, ncurr: Block?, nix: int, next: Pos, hazards: set<Record>, all: multiset<Record>)
    reads bag, bag.blocks, set b | b in bag.blocks :: b.data
  {
    && bag.Valid() && StandsAt(bag, curr, ix, it) && StandsAt(bag, ncurr, nix, next)
    && Partitioned(bag.Contents(), next, it, hazards) && Total(bag.Contents()) == all
  }

  /** The record at `it` is announced: it goes to `next`. */
  method MoveToFront(bag: BlockBag, curr: Block, ix: int, ghost it: Pos, ncurr: Block?, nix: int, ghost next: Pos,
                     ghost hazards: set<Record>, ghost all: multiset<Record>)
    returns (ncurr': Block?, nix': int)
    requires Passing(bag, curr, ix, it, ncurr, nix, next, hazards, all) && At(bag.Contents(), it) && Get(bag.Contents(), it) in hazards
    modifies set b | b in bag.blocks :: b.data
    ensures bag.Valid() && bag.blocks == old(bag.blocks) && StandsAt(bag, curr, ix, it) && 0 <= ix <= curr.size
    ensures next.b < |bag.Contents()| && StandsAt(bag, ncurr', nix', Succ(bag.Contents(), next))
    ensures it.b < |bag.Contents()| && Partitioned(bag.Contents(), Succ(bag.Contents(), next), Succ(bag.Contents(), it), hazards)
    ensures Total(bag.Contents()) == all
  {
    hide Total, Partitioned, BagShape, Sizes, Separate, ChainTo, AllValid;
    ghost var c := bag.Contents();
    NextIsAt(c, next, it, hazards);
    SwapIn(c, next, it, hazards);
    SwappedShape(c, next, it);
    SwappedTotal(c, next, it);
    Swap(bag, ncurr, nix, next, curr, ix, it);
    SwappedAt(c, next, it, next);
    SwappedAt(c, next, it, it);
    Reached(bag, curr, ix, it);
    Reached(bag, ncurr, nix, next);
    ncurr', nix' := Advance(bag, ncurr, nix, next);
  }

  lemma Reached(bag: BlockBag, curr: Block, ix: int, p: Pos)
    requires Linked(bag.blocks) && StandsAt(bag, curr, ix, p) && At(bag.Contents(), p)
    ensures curr.Valid() && 0 <= ix < curr.size && bag.Contents()[p.b] == curr.Items()
  {
    hide BagShape, Sizes;
    assert bag.Contents() == ItemsOf(bag.blocks);
    assert curr == bag.blocks[p.b] && |curr.Items()| == curr.size;
  }

  /** An announced record: it goes to the front, and both iterators move on. */
  method VisitAnnounced(bag: BlockBag, curr: Block, ix: int, ghost it: Pos, ncurr: Block?, nix: int, ghost next: Pos,
                        ghost hazards: set<Record>, ghost all: multiset<Record>)
    returns (curr': Block?, ix': int, ncurr': Block?, nix': int)
    requires Passing(bag, curr, ix, it, ncurr, nix, next, hazards, all) && At(bag.Contents(), it) && Get(bag.Contents(), it) in hazards
    modifies set b | b in bag.blocks :: b.data
    ensures bag.blocks == old(bag.blocks) && it.b < |bag.blocks| && next.b < |bag.blocks| && Linked(bag.blocks)
    ensures Passing(bag, curr', ix', Succ(bag.Contents(), it), ncurr', nix', Succ(bag.Contents(), next), hazards, all)
  {
    hide Total, Partitioned, Succ, Linked, Sizes;
    ncurr', nix' := MoveToFront(bag, curr, ix, it, ncurr, nix, next, hazards, all);
    ghost var c := bag.Contents();
    assert bag.Valid() && Total(c) == all && Partitioned(c, Succ(c, next), Succ(c, it), hazards);
    curr', ix' := Advance(bag, curr, ix, it);
  }

  /** Any other record stays. */
  method VisitOther(bag: BlockBag, curr: Block, ix: int, ghost it: Pos, ghost ncurr: Block?, ghost nix: int, ghost next: Pos,
                    ghost hazards: set<Record>, ghost all: multiset<Record>)
    returns (curr': Block?, ix': int)
    requires Passing(bag, curr, ix, it, ncurr, nix, next, hazards, all) && At(bag.Contents(), it) && Get(bag.Contents(), it) !in hazards
    ensures it.b < |bag.blocks| && Passing(bag, curr', ix', Succ(bag.Contents(), it), ncurr, nix, next, hazards, all)
  {
    Reached(bag, curr, ix, it);
    PassOver(bag.Contents(), next, it, hazards);
    curr', ix' := Advance(bag, curr, ix, it);
  }

  lemma ItIsAt(bag: BlockBag, curr: Block, ix: int, it: Pos, ncurr: Block?, nix: int, next: Pos, hazards: set<Record>, all: multiset<Record>)
    requires Passing(bag, curr, ix, it, ncurr, nix, next, hazards, all)
    ensures At(bag.Contents(), it)
  {
  }

  /** One round of the loop. */
  method Visit(bag: BlockBag, comparing: HashSet, curr: Block, ix: int, ghost it: Pos, ncurr: Block?, nix: int, ghost next: Pos,
               ghost hazards: set<Record>, ghost all: multiset<Record>)
    returns (curr': Block?, ix': int, ncurr': Block?, nix': int, ghost next': Pos)
    requires Passing(bag, curr, ix, it, ncurr, nix, next, hazards, all)
    requires comparing.Valid() && comparing.count < comparing.keys.Length && comparing.Contents() == hazards
    modifies set b | b in bag.blocks :: b.data
    ensures bag.blocks == old(bag.blocks) && it.b < |bag.blocks| && Linked(bag.blocks)
    ensures Passing(bag, curr', ix', Succ(bag.Contents(), it), ncurr', nix', next', hazards, all)
  {
    ItIsAt(bag, curr, ix, it, ncurr, nix, next, hazards, all);
    var r := Peek(bag, curr, ix, it);
    var found := comparing.Contains(r);
    if found {
      curr', ix', ncurr', nix' := VisitAnnounced(bag, curr, ix, it, ncurr, nix, next, hazards, all);
      next' := Succ(bag.Contents(), next);
    } else {
      curr', ix' := VisitOther(bag, curr, ix, it, ncurr, nix, next, hazards, all);
      ncurr', nix', next' := ncurr, nix, next;
    }
  }

  /** The records and the table of the comparison set are different arrays. */
  predicate Unshared(blocks: seq<Block>, comparing: HashSet)
  {
    forall b :: b in blocks ==> (b.data as object) != (comparing.keys as object)
  }

  /** Swap all announced records to the front. `next` is the first position that is not announced. */
  method Partition(bag: BlockBag, comparing: HashSet) returns (ncurr: Block?, ghost next: Pos)
    requires bag.Valid() && comparing.Valid() && comparing.count < comparing.keys.Length && Unshared(bag.blocks, comparing)
    modifies set b | b in bag.blocks :: b.data
    ensures bag.Valid() && bag.blocks == old(bag.blocks) && Total(bag.Contents()) == old(Total(bag.Contents()))
    ensures StandsAt(bag, ncurr, next.ix, next)
    ensures comparing.Valid() && comparing.Contents() == old(comparing.Contents()) && Divided(bag.Contents(), next, comparing.Contents())
  {
    ghost var hazards, all := comparing.Contents(), Total(bag.Contents());
    hide Total, Partitioned, Divided;
    StartPartitioned(bag.Contents(), hazards);
    ghost var it := Succ(bag.Contents(), Pos(0, |bag.Contents()[0]|));
    next := it;
    var curr, ix := Begin(bag);
    var nix: int;
    ncurr, nix := curr, ix;
    while curr != null
      invariant Passing(bag, curr, ix, it, ncurr, nix, next, hazards, all) && bag.blocks == old(bag.blocks)
      invariant comparing.Valid() && comparing.Contents() == hazards
      decreases |bag.blocks| - it.b, it.ix
    {
      curr, ix, ncurr, nix, next := Visit(bag, comparing, curr, ix, it, ncurr, nix, next, hazards, all);
      it := Succ(bag.Contents(), it);
    }
    AtEnd(bag, ix, it, ncurr, nix, next, hazards, all);
  }

  lemma AtEnd(bag: BlockBag, ix: int, it: Pos, ncurr: Block?, nix: int, next: Pos, hazards: set<Record>, all: multiset<Record>)
    requires Passing(bag, null, ix, it, ncurr, nix, next, hazards, all)
    ensures Divided(bag.Contents(), next, hazards) && StandsAt(bag, ncurr, next.ix, next)
  {
    RestUnannounced(bag.Contents(), next, it, hazards);
  }

  /** What the pass achieves: what is before `next` is announced, and what is in a later block than it is not. */
  ghost predicate Divided(c: Bag, next: Pos, hazards: set<Record>)
  {
    && (forall p {:trigger Get(c, p)} :: At(c, p) && Before(p, next) ==> Get(c, p) in hazards)
    && (forall b, k :: next.b < b < |c| && 0 <= k < |c[b]| ==> c[b][k] !in hazards)
  }

  /** From the `n`-th block on, nothing is announced. */
  predicate NoneFrom(c: Bag, n: nat, hazards: set<Record>)
  {
    forall b, k :: n <= b < |c| && 0 <= k < |c[b]| ==> c[b][k] !in hazards
  }

  lemma Behind(c: Bag, d: Bag, p: nat, next: Pos, hazards: set<Record>)
    requires BagShape(c) && BagShape(d) && p < |d| && next.b == p && Divided(d, next, hazards)
    ensures NoneFrom(c + d[p + 1..], |c|, hazards)
    ensures Total(c + d[p + 1..]) + Total(d[..p + 1]) == Total(c) + Total(d)
  {
    Moved(c, d, p);
    hide Total;
    var e := c + d[p + 1..];
    forall b, k | |c| <= b < |e| && 0 <= k < |e[b]| ensures e[b][k] !in hazards {
      assert e[b] == d[p + 1 + b - |c|];
    }
  }

  ghost predicate Disjoint(freeable: BlockBag, freeBag: BlockBag, comparing: HashSet)
    reads freeable, freeable.blocks, freeBag, freeBag.blocks, comparing, comparing.keys
  {
    && freeable.Valid() && freeBag.Valid() && freeable != freeBag && Separate(freeBag.blocks + freeable.blocks)
    && comparing.Valid() && comparing.count < comparing.keys.Length && Unshared(freeable.blocks, comparing)
  }

  /** The pass leaves the pool's bag alone. */
  method PartitionBeside(freeable: BlockBag, freeBag: BlockBag, comparing: HashSet) returns (curr: Block?, ghost next: Pos)
    requires Disjoint(freeable, freeBag, comparing)
    modifies set b | b in freeable.blocks :: b.data
    ensures Disjoint(freeable, freeBag, comparing) && StandsAt(freeable, curr, next.ix, next)
    ensures freeBag.Contents() == old(freeBag.Contents()) && comparing.Contents() == old(comparing.Contents())
    ensures freeable.blocks == old(freeable.blocks) && Total(freeable.Contents()) == old(Total(freeable.Contents()))
    ensures Divided(freeable.Contents(), next, comparing.Contents())
  {
    ghost var c := freeBag.Contents();
    Apart(freeBag.blocks, freeable.blocks);
    hide Total, Divided, Separate, ChainTo, Table, Elements;
    curr, next := Partition(freeable, comparing);
    forall i | 0 <= i < |c| ensures freeBag.blocks[i].Items() == c[i] {
      assert freeBag.blocks[i] in freeBag.blocks;
    }
    FromItems(freeBag.blocks, c);
  }

  /** The blocks of a partitioned bag that stay: up to the one in which the first unannounced record stands. */
  function Kept(c: Bag, next: Pos): nat { if next.b < |c| then next.b + 1 else |c| }

  /** Of the partitioned bag `parted` those blocks are left, and the others have come behind `before`. */
  predicate HandedOver(parted: Bag, next: Pos, left: Bag, before: Bag, given: Bag)
  {
    left == parted[..Kept(parted, next)] && given == before + parted[Kept(parted, next)..]
  }

  /** Hand over the blocks behind `curr`, and only those. */
  method HandOver(freeable: BlockBag, freeBag: BlockBag, comparing: HashSet, curr: Block, ghost next: Pos)
    requires Disjoint(freeable, freeBag, comparing) && StandsAt(freeable, curr, next.ix, next) && next.b < |freeable.blocks|
    requires Divided(freeable.Contents(), next, comparing.Contents())
    modifies freeBag, freeable, freeBag.tail`next, curr`next
    ensures freeable.Valid() && freeBag.Valid() && comparing.Contents() == old(comparing.Contents())
    ensures freeBag.Contents() == old(freeBag.Contents()) + old(freeable.Contents())[next.b + 1..]
    ensures freeable.Contents() == old(freeable.Contents())[..next.b + 1]
    ensures NoneFrom(freeBag.Contents(), |old(freeBag.Contents())|, comparing.Contents())
    ensures Total(freeBag.Contents()) + Total(freeable.Contents()) == old(Total(freeBag.Contents()) + Total(freeable.Contents()))
  {
    Behind(freeBag.Contents(), freeable.Contents(), next.b, next, comparing.Contents());
    hide Total, Divided, NoneFrom, Separate, BagShape, Sizes;
    freeBag.AppendMoveFullBlocks(freeable, curr, next.b);
  }

  /** The freeing part of `rotateEpochBags`: a bag that has become large enough is partitioned, `parted` being the
      result, and exactly the blocks behind the one in which the first unannounced record stands go to the pool.
      No announced record is among them, the rest of the pool's bag is as before, and no record is lost or
      duplicated. */
  method FreeBehind(freeable: BlockBag, freeBag: BlockBag, comparing: HashSet) returns (ghost parted: Bag, ghost next: Pos)
    requires Disjoint(freeable, freeBag, comparing)
    modifies freeBag, freeable, freeBag.tail`next, freeable.blocks, set b | b in freeable.blocks :: b.data
    ensures freeable.Valid() && freeBag.Valid() && comparing.Contents() == old(comparing.Contents())
    ensures old(freeable.sizeInBlocks) < SCAN_THRESHOLD ==>
              freeable.Contents() == old(freeable.Contents()) && freeBag.Contents() == old(freeBag.Contents())
    ensures old(freeable.sizeInBlocks) >= SCAN_THRESHOLD ==>
              && Total(parted) == old(Total(freeable.Contents())) && Divided(parted, next, comparing.Contents())
              && HandedOver(parted, next, freeable.Contents(), old(freeBag.Contents()), freeBag.Contents())
    ensures NoneFrom(freeBag.Contents(), |old(freeBag.Contents())|, comparing.Contents())
    ensures Total(freeBag.Contents()) + Total(freeable.Contents()) == old(Total(freeBag.Contents()) + Total(freeable.Contents()))
  {
    parted, next := [], Pos(0, 0);
    if freeable.sizeInBlocks >= SCAN_THRESHOLD {
      hide Total, Divided, Separate, BagShape, Sizes;
      var curr;
      curr, next := PartitionBeside(freeable, freeBag, comparing);
      parted := freeable.Contents();
      if curr != null {
        assert curr in freeable.blocks;
        HandOver(freeable, freeBag, comparing, curr, next);
      }
    }
  }
}
