/** When no transaction is running: the list in memory is the committed list, and counting its nodes gives
    the initial size plus the inserts minus the removes of committed transactions. */
module ListSize {
  import opened Basics
  import opened ListHeap
  import opened Transactions
  import opened TxInvariant
  import opened SerialOrder
  import opened TxEveryRun
  import opened TxMachine
  import opened Serializability

  predicate Over(pc: Pc) { pc.NotStarted? || pc.Committed? || pc.Aborted? }

  predicate Quiescent(s: State) { forall i :: 0 <= i < |s.txs| ==> Over(s.txs[i].pc) }

  /** The list in memory: every node as `h` says, unlocked. */
  predicate InMemory(sh: Shared, h: Heap)
  {
    forall n :: n in h ==>
      && n in sh.mem && n in sh.stamp && sh.mem[n].lock.None? && Matches(sh.mem[n], h[n], sh.stamp[n])
  }

  /** ... and as far as links go. */
  predicate LinksInMemory(sh: Shared, h: Heap)
  {
    forall n :: n in h ==> n in sh.mem && sh.mem[n].lock.None? && sh.mem[n].next == h[n].next
  }

  lemma OverHoldsNothing(sh: Shared, x: Tx, i: nat)
    requires TxBase(sh, x, i) && Over(x.pc)
    ensures x.d.held == {}
  {
  }

  lemma QuiescentUnlocked(s: State, n: Node)
    requires BaseInv(s) && Quiescent(s) && n in s.sh.committed
    ensures n in s.sh.mem && s.sh.mem[n].lock.None? && s.sh.mem[n].next == s.sh.committed[n].next
  {
    assert NodeBase(s.sh, n);
    hide NewsApart, NodeBase, Membership;
    if s.sh.mem[n].lock.Some? {
      var i := s.sh.mem[n].lock.value;
      assert TxBase(s.sh, s.txs[i], i);
      OverHoldsNothing(s.sh, s.txs[i], i);
      assert false;
    }
    UnlockedLink(s.sh, n);
  }

  lemma UnlockedLink(sh: Shared, n: Node)
    requires NodeBase(sh, n) && sh.mem[n].lock.None?
    ensures sh.mem[n].next == sh.committed[n].next
  {
  }

  /** In every run, stale copies or not: with nothing running, memory holds the committed links and no lock. */
  lemma QuiescentLinks(tr: seq<State>, k: nat)
    requires Run(tr) && k < |tr| && Quiescent(tr[k])
    ensures LinksInMemory(tr[k].sh, tr[k].sh.committed)
  {
    EveryRun(tr, k);
    var sh := tr[k].sh;
    hide BaseInv, Quiescent;
    forall n | n in sh.committed ensures n in sh.mem && sh.mem[n].lock.None? && sh.mem[n].next == sh.committed[n].next {
      QuiescentUnlocked(tr[k], n);
    }
  }

  lemma NodeAsInv(s: State, n: Node)
    requires StateInv(s) && n in s.sh.committed
    ensures NodeInv(s.sh, n)
  {
    hide TxsInv, OrderInv, WellFormed, BaseInv;
  }

  /** Without a stale link committed, all of the list in memory is as committed: write-back, in whatever order, has
      made it so. */
  lemma QuiescentMemory(tr: seq<State>, k: nat)
    requires Run(tr) && k < |tr| && Faithful(tr[k]) && Quiescent(tr[k])
    ensures InMemory(tr[k].sh, tr[k].sh.committed)
  {
    RunKeeps(tr, k);
    QuiescentLinks(tr, k);
    var sh := tr[k].sh;
    hide StateInv, Quiescent;
    forall n | n in sh.committed
      ensures n in sh.mem && n in sh.stamp && sh.mem[n].lock.None? && Matches(sh.mem[n], sh.committed[n], sh.stamp[n])
    {
      NodeAsInv(tr[k], n);
    }
  }

  // ---------------------------------------------------------------- the list one finds by following links

  function Successor(path: seq<Node>, k: nat): Option<Node> { if k + 1 < |path| then Some(path[k + 1]) else None }

  /** Each node of `path` links to the next one, and the last to nothing. */
  predicate Linked(mem: map<Node, MemNode>, path: seq<Node>)
  {
    forall k {:trigger path[k]} {:trigger Successor(path, k)} :: 0 <= k < |path| ==> path[k] in mem && mem[path[k]].next == Successor(path, k)
  }

  /** `path` is what one visits in memory from the head to the end. */
  predicate IsList(mem: map<Node, MemNode>, path: seq<Node>)
  {
    0 < |path| && path[0] == HEAD && Linked(mem, path)
  }

  function KeysOf(path: seq<Node>): set<nat> { set n | n in path :: n.key }

  /** The keys on the list, without the head's. */
  function PathKeys(path: seq<Node>): set<nat>
    requires 0 < |path|
  {
    KeysOf(path[1..])
  }

  lemma {:induction false} SamePrefix(mem: map<Node, MemNode>, a: seq<Node>, b: seq<Node>, k: nat)
    requires IsList(mem, a) && IsList(mem, b) && k < |a|
    ensures k < |b| && a[k] == b[k]
  {
    if k > 0 {
      SamePrefix(mem, a, b, k - 1);
      assert Successor(a, k - 1) == Successor(b, k - 1);
    }
  }

  /** There is at most one such path. */
  lemma ListUnique(mem: map<Node, MemNode>, a: seq<Node>, b: seq<Node>)
    requires IsList(mem, a) && IsList(mem, b)
    ensures a == b
  {
    SamePrefix(mem, a, b, |a| - 1);
    SamePrefix(mem, b, a, |b| - 1);
    forall j | 0 <= j < |a| ensures a[j] == b[j] { SamePrefix(mem, a, b, j); }
  }

  /** The head's key and the stored keys, from `bound` on. */
  function AtLeast(h: Heap, bound: nat): set<nat>
  {
    set x | x in Keys(h) + {MIN_KEY} && bound <= x
  }

  lemma AtLeastNext(h: Heap, c: Node)
    requires WellFormed(h) && Live(h, c)
    ensures h[c].next.Some? ==> Live(h, h[c].next.value)
    ensures AtLeast(h, c.key) == {c.key} + if h[c].next.Some? then AtLeast(h, h[c].next.value.key) else {}
    ensures h[c].next.Some? ==> c.key < h[c].next.value.key
  {
    assert LinkOk(h, c);
    assert c != HEAD ==> c.key in Keys(h);
    forall x | x in AtLeast(h, c.key) && x != c.key ensures h[c].next.Some? && h[c].next.value.key <= x {
      var m :| m in h && Live(h, m) && m != HEAD && m.key == x;
    }
    if h[c].next.Some? { assert h[c].next.value != HEAD ==> h[c].next.value.key in Keys(h); }
  }

  predicate Sorted(path: seq<Node>) { forall j, k :: 0 <= j < k < |path| ==> path[j].key < path[k].key }

  lemma Prepended(mem: map<Node, MemNode>, c: Node, rest: seq<Node>)
    requires 0 < |rest| && Linked(mem, rest) && c in mem && mem[c].next == Some(rest[0])
    ensures Linked(mem, [c] + rest) && KeysOf([c] + rest) == {c.key} + KeysOf(rest)
  {
    var path := [c] + rest;
    forall k | 0 <= k < |path| ensures path[k] in mem && mem[path[k]].next == Successor(path, k) {
      if k > 0 { assert path[k] == rest[k - 1] && Successor(path, k) == Successor(rest, k - 1); }
    }
    forall n | n in {c} + (set m | m in rest) ensures n in path { assert n in rest ==> n in path; }
  }

  lemma PrependedSorted(c: Node, rest: seq<Node>)
    requires 0 < |rest| && Sorted(rest) && c.key < rest[0].key
    ensures Sorted([c] + rest)
  {
  }

  lemma {:induction false} ListFrom(sh: Shared, h: Heap, c: Node) returns (path: seq<Node>)
    requires WellFormed(h) && LinksInMemory(sh, h) && Live(h, c)
    ensures 0 < |path| == |AtLeast(h, c.key)| && path[0] == c && Linked(sh.mem, path)
    ensures KeysOf(path) == AtLeast(h, c.key) && Sorted(path) && forall n :: n in path ==> Live(h, n)
    decreases AtLeast(h, c.key)
  {
    AtLeastNext(h, c);
    assert c in sh.mem && sh.mem[c].next == h[c].next;
    hide WellFormed, LinkOk, Keys, LinksInMemory;
    if h[c].next == None {
      path := [c];
      hide AtLeast;
      assert KeysOf(path) == {c.key};
    } else {
      var d := h[c].next.value;
      assert c.key !in AtLeast(h, d.key);
      assert AtLeast(h, d.key) < AtLeast(h, c.key);
      hide AtLeast, Linked, KeysOf, Live, Sorted;
      var rest := ListFrom(sh, h, d);
      path := [c] + rest;
      Prepended(sh.mem, c, rest);
      PrependedSorted(c, rest);
    }
  }

  /** A well-formed list in memory is visited from end to end: every key once, nothing else. */
  lemma ListInMemory(sh: Shared, h: Heap) returns (path: seq<Node>)
    requires WellFormed(h) && LinksInMemory(sh, h)
    ensures IsList(sh.mem, path) && PathKeys(path) == Keys(h) && |path| == |Keys(h)| + 1
    ensures Sorted(path) && forall n :: n in path <==> Live(h, n)
  {
    path := ListFrom(sh, h, HEAD);
    assert MIN_KEY !in Keys(h);
    assert AtLeast(h, MIN_KEY) == Keys(h) + {MIN_KEY};
    assert |Keys(h) + {MIN_KEY}| == |Keys(h)| + 1;
    forall n | Live(h, n) ensures n in path {
      assert n.key in AtLeast(h, MIN_KEY);
      var m :| m in path && m.key == n.key;
    }
    hide WellFormed, Keys, LinksInMemory, Linked, Sorted;
    HeadOnce(path);
    assert PathKeys(path) == KeysOf(path) - {MIN_KEY};
  }

  /** The list one finds in memory is, in ascending order, the live nodes of `h`. */
  ghost predicate FoundInMemory(mem: map<Node, MemNode>, h: Heap)
  {
    exists path :: IsList(mem, path) && Sorted(path) && forall n :: n in path <==> Live(h, n)
  }

  predicate Valued(h: Heap) { forall n :: n in h && Live(h, n) ==> h[n].has }

  /** With its links in memory, a heap whose live nodes have values is a well-formed list exactly if its live nodes
      are what one finds from the head, in order. */
  lemma FoundExactly(sh: Shared, h: Heap)
    requires LinksInMemory(sh, h) && Valued(h)
    ensures WellFormed(h) <==> FoundInMemory(sh.mem, h)
  {
    if WellFormed(h) { var path := ListInMemory(sh, h); }
    if FoundInMemory(sh.mem, h) {
      var path :| IsList(sh.mem, path) && Sorted(path) && forall n :: n in path <==> Live(h, n);
      FoundIsList(sh, h, path);
    }
  }

  lemma FoundLink(h: Heap, path: seq<Node>, k: nat)
    requires Sorted(path) && k < |path| && (forall n :: n in path <==> Live(h, n))
    requires Live(h, path[k]) && h[path[k]].next == Successor(path, k)
    ensures LinkOk(h, path[k])
  {
    forall m | Live(h, m) ensures m.key <= path[k].key || (k + 1 < |path| && path[k + 1].key <= m.key) {
      var j :| 0 <= j < |path| && path[j] == m;
    }
    if k + 1 < |path| { assert path[k + 1] in path; }
  }

  lemma FoundIsList(sh: Shared, h: Heap, path: seq<Node>)
    requires LinksInMemory(sh, h) && Valued(h)
    requires IsList(sh.mem, path) && Sorted(path) && forall n :: n in path <==> Live(h, n)
    ensures WellFormed(h)
  {
    hide LinkOk;
    assert HEAD in path;
    forall n | Live(h, n) ensures LinkOk(h, n) && (n != HEAD ==> MIN_KEY < n.key) {
      var k :| 0 <= k < |path| && path[k] == n;
      FoundLink(h, path, k);
    }
    hide IsList, LinksInMemory;
    forall m, n | Live(h, m) && Live(h, n) && m.key == n.key ensures m == n {
      var j :| 0 <= j < |path| && path[j] == m;
      var k :| 0 <= k < |path| && path[k] == n;
    }
  }

  /** As many nodes as keys, so no key, and not the head's, comes twice. */
  lemma HeadOnce(path: seq<Node>)
    requires 0 < |path| == |KeysOf(path)| && path[0] == HEAD
    ensures MIN_KEY !in PathKeys(path) && KeysOf(path) == PathKeys(path) + {MIN_KEY}
  {
    assert path == [HEAD] + path[1..];
    forall n | n in path ensures n == HEAD || n in path[1..] {}
    KeysOfSize(path[1..]);
    assert KeysOf(path) == PathKeys(path) + {MIN_KEY};
  }

  lemma {:induction false} KeysOfSize(path: seq<Node>)
    ensures |KeysOf(path)| <= |path|
  {
    if path != [] {
      var front, last := path[..|path| - 1], path[|path| - 1];
      KeysOfSize(front);
      forall n | n in path ensures n in front || n == last {}
      assert KeysOf(path) <= KeysOf(front) + {last.key};
      SubsetSize(KeysOf(path), KeysOf(front) + {last.key});
    }
  }

  /** LinkedList.get_size: follow the links from the head. */
  method GetSize(mem: map<Node, MemNode>, ghost path: seq<Node>) returns (size: nat)
    requires IsList(mem, path)
    ensures size == |path| - 1
  {
    var cur := Some(HEAD);
    var res: nat := 0;
    while cur.Some?
      invariant res <= |path|
      invariant cur == if res < |path| then Some(path[res]) else None
      decreases |path| - res
    {
      assert mem[path[res]].next == Successor(path, res);
      res := res + 1;
      cur := mem[cur.value].next;
    }
    size := res - 1;
  }

  // ---------------------------------------------------------------- what the counters of the workers say

  /** What one operation counts for: a put that found nothing adds one, a remove that found the key takes
      one away. */
  function Weight(e: Event): int
  {
    match e.kind
    case Get => 0
    case Put => if e.result then 0 else 1
    case Remove => if e.result then -1 else 0
  }

  function Net(log: seq<Event>): int
  {
    if log == [] then 0 else Net(log[..|log| - 1]) + Weight(log[|log| - 1])
  }

  lemma {:induction false} NetConcat(a: seq<Event>, b: seq<Event>)
    ensures Net(a + b) == Net(a) + Net(b)
  {
    if b == [] {
      assert a + b == a;
    } else {
      NetConcat(a, b[..|b| - 1]);
      assert (a + b)[..|a + b| - 1] == a + b[..|b| - 1];
    }
  }

  /** A log that a set of keys explains changes the size of the set by its net count. */
  lemma {:induction false} ExplainedSize(keys: set<nat>, log: seq<Event>)
    requires Explains(keys, log)
    ensures |After(keys, log)| == |keys| + Net(log)
  {
    if log != [] {
      ExplainedSize(keys, log[..|log| - 1]);
    }
  }

  /** The committed transactions' net counts added up, thread by thread; aborted ones count nothing. */
  function CommittedNet(txs: seq<Tx>, n: nat): int
    requires n <= |txs|
  {
    if n == 0 then 0 else CommittedNet(txs, n - 1) + if txs[n - 1].pc.Committed? then Net(txs[n - 1].d.log) else 0
  }

  // ---------------------------------------------------------------- adding up in any order

  function Sum(f: seq<int>): int
  {
    if f == [] then 0 else Sum(f[..|f| - 1]) + f[|f| - 1]
  }

  function SumAlong(f: seq<int>, ids: seq<nat>): int
    requires forall k :: 0 <= k < |ids| ==> ids[k] < |f|
  {
    if ids == [] then 0 else SumAlong(f, ids[..|ids| - 1]) + f[ids[|ids| - 1]]
  }

  lemma {:induction false} SumClear(f: seq<int>, j: nat)
    requires j < |f|
    ensures Sum(f[j := 0]) == Sum(f) - f[j]
  {
    var g := f[j := 0];
    if j == |f| - 1 {
      assert g[..|f| - 1] == f[..|f| - 1];
    } else {
      SumClear(f[..|f| - 1], j);
      assert g[..|f| - 1] == f[..|f| - 1][j := 0];
    }
  }

  lemma {:induction false} SumZero(f: seq<int>)
    requires forall k :: 0 <= k < |f| ==> f[k] == 0
    ensures Sum(f) == 0
  {
    if f != [] { SumZero(f[..|f| - 1]); }
  }

  lemma {:induction false} SumAlongClear(f: seq<int>, ids: seq<nat>, j: nat)
    requires forall k :: 0 <= k < |ids| ==> ids[k] < |f| && ids[k] != j
    requires j < |f|
    ensures SumAlong(f[j := 0], ids) == SumAlong(f, ids)
  {
    if ids != [] { SumAlongClear(f, ids[..|ids| - 1], j); }
  }

  lemma {:induction false} SumInAnyOrder(f: seq<int>, ids: seq<nat>)
    requires forall k :: 0 <= k < |ids| ==> ids[k] < |f|
    requires forall j, k :: 0 <= j < k < |ids| ==> ids[j] != ids[k]
    requires forall i: nat :: i < |f| && f[i] != 0 ==> i in ids
    ensures SumAlong(f, ids) == Sum(f)
    decreases |ids|
  {
    if ids == [] {
      SumZero(f);
    } else {
      var rest, j := ids[..|ids| - 1], ids[|ids| - 1];
      SumClear(f, j);
      SumAlongClear(f, rest, j);
      SumInAnyOrder(f[j := 0], rest);
    }
  }

  function NetOf(x: Tx): int { if x.pc.Committed? then Net(x.d.log) else 0 }

  lemma {:induction false} CommittedNetIs(txs: seq<Tx>, n: nat)
    requires n <= |txs|
    ensures CommittedNet(txs, n) == Sum(seq(n, i requires 0 <= i < n => NetOf(txs[i])))
  {
    var f := seq(n, i requires 0 <= i < n => NetOf(txs[i]));
    if n > 0 {
      CommittedNetIs(txs, n - 1);
      assert f[..n - 1] == seq(n - 1, i requires 0 <= i < n - 1 => NetOf(txs[i]));
    }
  }

  lemma {:induction false} LogsNet(txs: seq<Tx>, ids: seq<nat>, f: seq<int>)
    requires |f| == |txs| && forall k :: 0 <= k < |ids| ==> ids[k] < |txs| && f[ids[k]] == Net(txs[ids[k]].d.log)
    ensures Net(Logs(txs, ids)) == SumAlong(f, ids)
  {
    if ids != [] {
      LogsNet(txs, ids[..|ids| - 1], f);
      NetConcat(Logs(txs, ids[..|ids| - 1]), txs[ids[|ids| - 1]].d.log);
    }
  }

  lemma SerialNet(s: State, ids: seq<nat>, initial: set<nat>, final: set<nat>)
    requires Quiescent(s) && Serializes(s.txs, ids, initial, final)
    ensures Net(Logs(s.txs, ids)) == CommittedNet(s.txs, |s.txs|)
  {
    var n := |s.txs|;
    var f := seq(n, i requires 0 <= i < n => NetOf(s.txs[i]));
    hide Explains, After;
    forall k | 0 <= k < |ids| ensures f[ids[k]] == Net(s.txs[ids[k]].d.log) { assert ids[k] in ids; }
    LogsNet(s.txs, ids, f);
    SumInAnyOrder(f, ids);
    CommittedNetIs(s.txs, n);
  }

  // ---------------------------------------------------------------- one key at a time

  /** How often the log added the key, less how often it removed it. */
  function KeyNet(log: seq<Event>, key: nat): int
  {
    if log == [] then 0
    else KeyNet(log[..|log| - 1], key) + if log[|log| - 1].key == key then Weight(log[|log| - 1]) else 0
  }

  lemma {:induction false} KeyNetConcat(a: seq<Event>, b: seq<Event>, key: nat)
    ensures KeyNet(a + b, key) == KeyNet(a, key) + KeyNet(b, key)
  {
    if b == [] {
      assert a + b == a;
    } else {
      KeyNetConcat(a, b[..|b| - 1], key);
      assert (a + b)[..|a + b| - 1] == a + b[..|b| - 1];
    }
  }

  lemma {:induction false} ExplainedKey(keys: set<nat>, log: seq<Event>, key: nat)
    requires Explains(keys, log)
    ensures key in After(keys, log) <==> KeyNet(log, key) + (if key in keys then 1 else 0) == 1
    ensures key !in After(keys, log) <==> KeyNet(log, key) + (if key in keys then 1 else 0) == 0
  {
    if log != [] { ExplainedKey(keys, log[..|log| - 1], key); }
  }

  lemma {:induction false} LogsKeyNet(txs: seq<Tx>, ids: seq<nat>, f: seq<int>, key: nat)
    requires |f| == |txs| && forall k :: 0 <= k < |ids| ==> ids[k] < |txs| && f[ids[k]] == KeyNet(txs[ids[k]].d.log, key)
    ensures KeyNet(Logs(txs, ids), key) == SumAlong(f, ids)
  {
    if ids != [] {
      LogsKeyNet(txs, ids[..|ids| - 1], f, key);
      KeyNetConcat(Logs(txs, ids[..|ids| - 1]), txs[ids[|ids| - 1]].d.log, key);
    }
  }

  function KeyNetOf(x: Tx, key: nat): int { if Decided(x.pc) then KeyNet(x.d.log, key) else 0 }

  lemma SerialKeyNet(txs: seq<Tx>, ids: seq<nat>, initial: set<nat>, final: set<nat>, key: nat)
    requires Serializes(txs, ids, initial, final)
    ensures KeyNet(Logs(txs, ids), key) == Sum(seq(|txs|, i requires 0 <= i < |txs| => KeyNetOf(txs[i], key)))
  {
    var f := seq(|txs|, i requires 0 <= i < |txs| => KeyNetOf(txs[i], key));
    hide Explains, After;
    forall k | 0 <= k < |ids| ensures f[ids[k]] == KeyNet(txs[ids[k]].d.log, key) { assert ids[k] in ids; }
    LogsKeyNet(txs, ids, f, key);
    SumInAnyOrder(f, ids);
  }

  /** Whatever order explains the results, the keys at the end are the same. */
  lemma FinalKeysUnique(txs: seq<Tx>, a: seq<nat>, b: seq<nat>, initial: set<nat>, finalA: set<nat>, finalB: set<nat>)
    requires Serializes(txs, a, initial, finalA) && Serializes(txs, b, initial, finalB)
    ensures finalA == finalB
  {
    forall key ensures key in finalA <==> key in finalB {
      SerialKeyNet(txs, a, initial, finalA, key);
      SerialKeyNet(txs, b, initial, finalB, key);
      ExplainedKey(initial, Logs(txs, a), key);
      ExplainedKey(initial, Logs(txs, b), key);
    }
  }

  // ---------------------------------------------------------------- the list at the end

  lemma SizeFormula(tr: seq<State>, k: nat)
    requires Run(tr) && k < |tr| && Faithful(tr[k]) && Quiescent(tr[k])
    ensures WellFormed(tr[k].sh.committed)
    ensures |Keys(tr[k].sh.committed)| == |Keys(tr[0].sh.committed)| + CommittedNet(tr[k].txs, |tr[k].txs|)
  {
    SerialIdsSerialize(tr, k);
    var s := tr[k];
    assert WellFormed(s.sh.committed);
    var ids := SerialIds(s, |s.order|);
    hide StateInv, WellFormed, Quiescent, CommittedNet, Net, Run, Faithful;
    SerialNet(s, ids, Keys(tr[0].sh.committed), Keys(s.sh.committed));
    ExplainedSize(Keys(tr[0].sh.committed), Logs(s.txs, ids));
  }

  /** Once no transaction is running, the list found in memory holds exactly the keys that the committed
      transactions, run one after another, leave of the initial ones. */
  lemma FinalList(tr: seq<State>, k: nat) returns (path: seq<Node>)
    requires Run(tr) && k < |tr| && Faithful(tr[k]) && Quiescent(tr[k])
    ensures IsList(tr[k].sh.mem, path)
    ensures exists ids :: Serializes(tr[k].txs, ids, Keys(tr[0].sh.committed), PathKeys(path))
    ensures |PathKeys(path)| == |path| - 1 == |Keys(tr[0].sh.committed)| + CommittedNet(tr[k].txs, |tr[k].txs|)
  {
    SizeFormula(tr, k);
    QuiescentMemory(tr, k);
    SerialIdsSerialize(tr, k);
    hide StateInv, Run, Faithful, Quiescent, WellFormed, Serializes, Matches, IsList, PathKeys;
    path := ListInMemory(tr[k].sh, tr[k].sh.committed);
  }

  /** Size conservation: once no transaction is running, `get_size` returns the initial size plus all
      committed null-returning puts minus all committed non-null removes. */
  method SizeIsConserved(ghost tr: seq<State>, ghost k: nat, mem: map<Node, MemNode>) returns (size: nat)
    requires Run(tr) && k < |tr| && Faithful(tr[k]) && Quiescent(tr[k]) && mem == tr[k].sh.mem
    ensures size == |Keys(tr[0].sh.committed)| + CommittedNet(tr[k].txs, |tr[k].txs|)
  {
    ghost var path := FinalList(tr, k);
    size := GetSize(mem, path);
  }
}
