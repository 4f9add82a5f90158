/** One thread's view of the list during a transaction: the write set over the shared nodes, and TXend.

    The list, the local storage and the local transaction record of one thread, updated in place as the
    operations do. Other threads are at a standstill, but may have left nodes locked or too new; an
    operation that meets one aborts. */
module Overlay {
  import opened Basics
  import opened ListHeap

  // ---------------------------------------------------------------- the specification: a map

  datatype Op = GetOp(key: nat) | PutOp(key: nat, val: int) | RemoveOp(key: nat)

  function Lookup(m: map<nat, int>, key: nat): Option<int> { if key in m then Some(m[key]) else None }

  function Updated(m: map<nat, int>, op: Op): map<nat, int>
  {
    match op
    case GetOp(_) => m
    case PutOp(key, val) => m[key := val]
    case RemoveOp(key) => m - {key}
  }

  /** What an operation returns; of `put`, whether it is null. */
  predicate Returns(m: map<nat, int>, op: Op, r: Option<int>)
  {
    if op.PutOp? then r.Some? <==> op.key in m else r == Lookup(m, op.key)
  }

  function Effects(m: map<nat, int>, ops: seq<Op>): map<nat, int>
  {
    if ops == [] then m else Updated(Effects(m, ops[..|ops| - 1]), ops[|ops| - 1])
  }

  predicate AllReturn(m: map<nat, int>, ops: seq<Op>, rs: seq<Option<int>>)
  {
    |rs| == |ops| && forall i :: 0 <= i < |ops| ==> Returns(Effects(m, ops[..i]), ops[i], rs[i])
  }

  lemma NoneYet(m: map<nat, int>)
    ensures AllReturn(m, [], []) && Effects(m, []) == m
  {
  }

  lemma OneMore(m: map<nat, int>, ops: seq<Op>, rs: seq<Option<int>>, op: Op, r: Option<int>)
    requires AllReturn(m, ops, rs) && Returns(Effects(m, ops), op, r)
    ensures AllReturn(m, ops + [op], rs + [r]) && Effects(m, ops + [op]) == Updated(Effects(m, ops), op)
  {
    var ops', rs' := ops + [op], rs + [r];
    assert ops'[..|ops|] == ops;
    forall i | 0 <= i < |ops'| ensures Returns(Effects(m, ops'[..i]), ops'[i], rs'[i]) {
      if i < |ops| { assert ops'[..i] == ops[..i]; }
    }
  }

  // ---------------------------------------------------------------- nodes and write elements

  class LNode {
    const key: nat
    var val: Option<int>
    var next: LNode?
    var locked: bool
    var deleted: bool
    var version: nat

    constructor (key: nat, val: int, next: LNode?)
      ensures this.key == key && this.val == Some(val) && this.next == next && !locked && !deleted && version == 0
    {
      this.key, this.val, this.next := key, Some(val), next;
      locked, deleted, version := false, false, 0;
    }

    method TryLock() returns (ok: bool)
      modifies this`locked
      ensures locked && (ok <==> !old(locked))
    {
      ok := !locked;
      locked := true;
    }

    method Unlock()
      requires locked
      modifies this`locked
      ensures !locked
    {
      locked := false;
    }
  }

  datatype WriteElement = WriteElement(next: LNode?, deleted: bool, val: Option<int>)

  type WriteSet = map<LNode, WriteElement>

  function NextOf(ws: WriteSet, n: LNode): LNode?
    reads n`next
  {
    if n in ws then ws[n].next else n.next
  }

  function ValOf(ws: WriteSet, n: LNode): Option<int>
    reads n`val
  {
    if n in ws then ws[n].val else n.val
  }

  function DeadOf(ws: WriteSet, n: LNode): bool
    reads n`deleted
  {
    if n in ws then ws[n].deleted else n.deleted
  }

  // ---------------------------------------------------------------- a list under a write set

  function Succ(path: seq<LNode>, i: nat): LNode? { if i + 1 < |path| then path[i + 1] else null }

  ghost predicate Ascending(path: seq<LNode>)
  {
    forall i, j :: 0 <= i < j < |path| ==> path[i].key < path[j].key
  }

  predicate LinkAt(ws: WriteSet, path: seq<LNode>, i: nat)
    requires i < |path|
    reads {path[i]}`next, {path[i]}`deleted
  {
    !DeadOf(ws, path[i]) && NextOf(ws, path[i]) == Succ(path, i)
  }

  /** `path` holds exactly the nodes of `all` that are not deleted, each linking to the next. */
  ghost predicate Links(ws: WriteSet, all: set<LNode>, path: seq<LNode>)
    reads all`next, all`deleted
  {
    && (forall i :: 0 <= i < |path| ==> path[i] in all)
    && (forall i {:trigger LinkAt(ws, path, i)} :: 0 <= i < |path| ==> LinkAt(ws, path, i))
    && (forall n :: n in all && !DeadOf(ws, n) ==> n in path)
  }

  /** `path[i]` is the last node with a smaller key than `key`. */
  predicate Before(path: seq<LNode>, i: nat, key: nat)
  {
    i < |path| && path[i].key < key && (i + 1 < |path| ==> key <= path[i + 1].key)
  }

  predicate HasKey(path: seq<LNode>, k: nat) { exists i :: 0 < i < |path| && path[i].key == k }

  predicate ValueAt(ws: WriteSet, path: seq<LNode>, m: map<nat, int>, i: nat)
    requires i < |path|
    reads {path[i]}`val
  {
    path[i].key in m && ValOf(ws, path[i]) == Some(m[path[i].key])
  }

  /** `m` maps the keys after the head's to their values. */
  ghost predicate Holds(ws: WriteSet, all: set<LNode>, path: seq<LNode>, m: map<nat, int>)
    requires forall i :: 0 <= i < |path| ==> path[i] in all
    reads all`val
  {
    && (forall i {:trigger ValueAt(ws, path, m, i)} :: 0 < i < |path| ==> ValueAt(ws, path, m, i))
    && (forall k :: k in m ==> HasKey(path, k))
  }

  /** The nodes of `all` under the write set are a sorted list from the head that stands for the map `m`. */
  ghost predicate IsList(head: LNode, ws: WriteSet, all: set<LNode>, path: seq<LNode>, m: map<nat, int>)
    reads all`next, all`deleted, all`val
  {
    && 0 < |path| && path[0] == head
    && Ascending(path) && Links(ws, all, path) && Holds(ws, all, path, m)
  }

  /** The place found for a key decides whether it is in the map. */
  lemma PlaceDecides(head: LNode, ws: WriteSet, all: set<LNode>, path: seq<LNode>, m: map<nat, int>, i: nat, key: nat)
    requires IsList(head, ws, all, path, m) && i < |path| && path[i].key < key
    requires i + 1 < |path| ==> key <= path[i + 1].key
    ensures key in m <==> i + 1 < |path| && path[i + 1].key == key
    ensures key in m ==> ValOf(ws, path[i + 1]) == Some(m[key])
  {
    if key in m {
      assert HasKey(path, key);
      var j :| 0 < j < |path| && path[j].key == key;
      assert j > i;
      assert ValueAt(ws, path, m, i + 1);
    }
    if i + 1 < |path| && path[i + 1].key == key { assert ValueAt(ws, path, m, i + 1); }
  }

  function Spliced(path: seq<LNode>, i: nat, n: LNode): seq<LNode>
    requires i < |path|
  {
    path[..i + 1] + [n] + path[i + 1..]
  }

  lemma SplicedAt(path: seq<LNode>, i: nat, n: LNode)
    requires i < |path|
    ensures |Spliced(path, i, n)| == |path| + 1
    ensures forall j :: 0 <= j <= |path| ==> Spliced(path, i, n)[j] == if j <= i then path[j] else if j == i + 1 then n else path[j - 1]
  {
  }

  function InsertedSet(ws: WriteSet, p: LNode, n: LNode): WriteSet
    reads p`val
  {
    ws[p := WriteElement(n, false, ValOf(ws, p))]
  }

  /** A new node behind `path[i]`. */
  lemma InsertedList(head: LNode, ws: WriteSet, all: set<LNode>, path: seq<LNode>, m: map<nat, int>, i: nat, n: LNode, v: int)
    requires IsList(head, ws, all, path, m) && i < |path| && n !in all && n !in ws
    requires n.next == Succ(path, i) && !n.deleted && n.val == Some(v)
    requires path[i].key < n.key && (i + 1 < |path| ==> n.key < path[i + 1].key)
    ensures IsList(head, InsertedSet(ws, path[i], n), all + {n}, Spliced(path, i, n), m[n.key := v])
  {
    SplicedAt(path, i, n);
    hide Spliced, InsertedSet, HasKey;
    SplicedLinks(ws, all, path, i, n);
    SplicedAll(ws, all, path, i, n);
    hide Links;
    SplicedValues(ws, all, path, m, i, n, v);
    SplicedKeys(ws, all, path, m, i, n, v);
    hide Holds;
  }

  lemma SplicedLinks(ws: WriteSet, all: set<LNode>, path: seq<LNode>, i: nat, n: LNode)
    requires Links(ws, all, path) && Ascending(path) && i < |path| && n !in all && n !in ws && n.next == Succ(path, i) && !n.deleted
    ensures var ws', path' := InsertedSet(ws, path[i], n), Spliced(path, i, n);
            forall j {:trigger LinkAt(ws', path', j)} :: 0 <= j < |path'| ==> path'[j] in all + {n} && LinkAt(ws', path', j)
  {
    var ws', path' := InsertedSet(ws, path[i], n), Spliced(path, i, n);
    SplicedAt(path, i, n);
    hide Spliced;
    forall j | 0 <= j < |path'| ensures path'[j] in all + {n} && LinkAt(ws', path', j) {
      if j < i {
        assert LinkAt(ws, path, j) && path[j].key < path[i].key;
      } else if j > i + 1 {
        assert LinkAt(ws, path, j - 1) && path[i].key < path[j - 1].key;
      }
    }
  }

  lemma SplicedAll(ws: WriteSet, all: set<LNode>, path: seq<LNode>, i: nat, n: LNode)
    requires Links(ws, all, path) && i < |path| && n !in all
    ensures forall x :: x in all + {n} && !DeadOf(InsertedSet(ws, path[i], n), x) ==> x in Spliced(path, i, n)
  {
    var path' := Spliced(path, i, n);
    SplicedAt(path, i, n);
    hide Spliced;
    forall x | x in all + {n} && !DeadOf(InsertedSet(ws, path[i], n), x) ensures x in path' {
      if x == n { assert path'[i + 1] == n; }
      else {
        var j :| 0 <= j < |path| && path[j] == x;
        assert path'[if j <= i then j else j + 1] == x;
      }
    }
  }

  lemma SplicedValues(ws: WriteSet, all: set<LNode>, path: seq<LNode>, m: map<nat, int>, i: nat, n: LNode, v: int)
    requires (forall j :: 0 <= j < |path| ==> path[j] in all) && Holds(ws, all, path, m) && Ascending(path)
    requires i < |path| && n !in all && n !in ws && n.val == Some(v)
    requires path[i].key < n.key && (i + 1 < |path| ==> n.key < path[i + 1].key)
    ensures var ws', path', m' := InsertedSet(ws, path[i], n), Spliced(path, i, n), m[n.key := v];
            forall j {:trigger ValueAt(ws', path', m', j)} :: 0 < j < |path'| ==> ValueAt(ws', path', m', j)
  {
    var ws', path', m' := InsertedSet(ws, path[i], n), Spliced(path, i, n), m[n.key := v];
    SplicedAt(path, i, n);
    hide Spliced;
    forall j | 0 < j < |path'| ensures ValueAt(ws', path', m', j) {
      if j <= i { assert ValueAt(ws, path, m, j) && path[j].key <= path[i].key; }
      else if j > i + 1 { assert ValueAt(ws, path, m, j - 1) && path[i + 1].key <= path[j - 1].key; }
    }
  }

  lemma SplicedKeys(ws: WriteSet, all: set<LNode>, path: seq<LNode>, m: map<nat, int>, i: nat, n: LNode, v: int)
    requires (forall j :: 0 <= j < |path| ==> path[j] in all) && Holds(ws, all, path, m) && i < |path|
    ensures forall k :: k in m[n.key := v] ==> HasKey(Spliced(path, i, n), k)
  {
    var path' := Spliced(path, i, n);
    SplicedAt(path, i, n);
    hide Spliced;
    forall k | k in m[n.key := v] ensures HasKey(path', k) {
      if k == n.key { assert path'[i + 1].key == k; }
      else {
        assert HasKey(path, k);
        var j :| 0 < j < |path| && path[j].key == k;
        assert path'[if j <= i then j else j + 1].key == k;
      }
    }
  }

  function Cut(path: seq<LNode>, i: nat): seq<LNode>
    requires i + 1 < |path|
  {
    path[..i + 1] + path[i + 2..]
  }

  lemma CutAt(path: seq<LNode>, i: nat)
    requires i + 1 < |path|
    ensures |Cut(path, i)| == |path| - 1
    ensures forall j :: 0 <= j < |path| - 1 ==> Cut(path, i)[j] == path[if j <= i then j else j + 1]
  {
  }

  function UnlinkedSet(ws: WriteSet, path: seq<LNode>, i: nat): WriteSet
    requires i + 1 < |path|
    reads {path[i], path[i + 1]}`val
  {
    ws[path[i] := WriteElement(Succ(path, i + 1), false, ValOf(ws, path[i]))][path[i + 1] := WriteElement(null, true, ValOf(ws, path[i + 1]))]
  }

  /** The node behind `path[i]` unlinked and marked. */
  lemma RemovedList(head: LNode, ws: WriteSet, all: set<LNode>, path: seq<LNode>, m: map<nat, int>, i: nat)
    requires IsList(head, ws, all, path, m) && i + 1 < |path|
    ensures IsList(head, UnlinkedSet(ws, path, i), all, Cut(path, i), m - {path[i + 1].key})
  {
    CutAt(path, i);
    hide Cut, UnlinkedSet, HasKey;
    CutLinks(ws, all, path, i);
    CutAll(ws, all, path, i);
    hide Links;
    CutValues(ws, all, path, m, i);
    CutKeys(ws, all, path, m, i);
    hide Holds;
  }

  lemma CutLinks(ws: WriteSet, all: set<LNode>, path: seq<LNode>, i: nat)
    requires Links(ws, all, path) && Ascending(path) && i + 1 < |path|
    ensures var ws', path' := UnlinkedSet(ws, path, i), Cut(path, i);
            forall j {:trigger LinkAt(ws', path', j)} :: 0 <= j < |path'| ==> path'[j] in all && LinkAt(ws', path', j)
  {
    var ws', path' := UnlinkedSet(ws, path, i), Cut(path, i);
    CutAt(path, i);
    hide Cut;
    forall j | 0 <= j < |path'| ensures path'[j] in all && LinkAt(ws', path', j) {
      var k := if j <= i then j else j + 1;
      assert LinkAt(ws, path, k) && path[k].key != path[i + 1].key;
      assert k != i ==> path[k].key != path[i].key;
    }
  }

  lemma CutAll(ws: WriteSet, all: set<LNode>, path: seq<LNode>, i: nat)
    requires Links(ws, all, path) && i + 1 < |path|
    ensures forall x :: x in all && !DeadOf(UnlinkedSet(ws, path, i), x) ==> x in Cut(path, i)
  {
    var path' := Cut(path, i);
    CutAt(path, i);
    hide Cut;
    forall x | x in all && !DeadOf(UnlinkedSet(ws, path, i), x) ensures x in path' {
      assert path[i] in path && x != path[i + 1];
      var j :| 0 <= j < |path| && path[j] == x;
      assert path'[if j <= i then j else j - 1] == x;
    }
  }

  lemma CutValues(ws: WriteSet, all: set<LNode>, path: seq<LNode>, m: map<nat, int>, i: nat)
    requires (forall j :: 0 <= j < |path| ==> path[j] in all) && Holds(ws, all, path, m) && Ascending(path) && i + 1 < |path|
    ensures var ws', path', m' := UnlinkedSet(ws, path, i), Cut(path, i), m - {path[i + 1].key};
            forall j {:trigger ValueAt(ws', path', m', j)} :: 0 < j < |path'| ==> ValueAt(ws', path', m', j)
  {
    var ws', path', m' := UnlinkedSet(ws, path, i), Cut(path, i), m - {path[i + 1].key};
    CutAt(path, i);
    hide Cut;
    forall j | 0 < j < |path'| ensures ValueAt(ws', path', m', j) {
      var k := if j <= i then j else j + 1;
      assert ValueAt(ws, path, m, k) && path[k].key != path[i + 1].key;
      assert k != i ==> path[k].key != path[i].key;
    }
  }

  lemma CutKeys(ws: WriteSet, all: set<LNode>, path: seq<LNode>, m: map<nat, int>, i: nat)
    requires (forall j :: 0 <= j < |path| ==> path[j] in all) && Holds(ws, all, path, m) && i + 1 < |path|
    ensures forall k :: k in m - {path[i + 1].key} ==> HasKey(Cut(path, i), k)
  {
    var path' := Cut(path, i);
    CutAt(path, i);
    hide Cut;
    forall k | k in m - {path[i + 1].key} ensures HasKey(path', k) {
      assert HasKey(path, k);
      var j :| 0 < j < |path| && path[j].key == k;
      assert path'[if j <= i then j else j - 1].key == k;
    }
  }

  /** A new value for the node `path[i]`. */
  lemma OverwrittenList(head: LNode, ws: WriteSet, all: set<LNode>, path: seq<LNode>, m: map<nat, int>, i: nat, v: int)
    requires IsList(head, ws, all, path, m) && 0 < i < |path|
    ensures IsList(head, ws[path[i] := WriteElement(NextOf(ws, path[i]), false, Some(v))], all, path, m[path[i].key := v])
  {
    var ws', m' := ws[path[i] := WriteElement(NextOf(ws, path[i]), false, Some(v))], m[path[i].key := v];
    assert Links(ws', all, path) by { OverwrittenLinks(ws, all, path, i, v); }
    forall j | 0 < j < |path| ensures ValueAt(ws', path, m', j) {
      assert ValueAt(ws, path, m, j);
      assert j != i ==> path[j].key != path[i].key;
    }
    forall k | k in m' ensures HasKey(path, k) {
      if k == path[i].key { assert path[i].key == k; } else { assert HasKey(path, k); }
    }
  }

  lemma OverwrittenLinks(ws: WriteSet, all: set<LNode>, path: seq<LNode>, i: nat, v: int)
    requires Links(ws, all, path) && i < |path|
    ensures Links(ws[path[i] := WriteElement(NextOf(ws, path[i]), false, Some(v))], all, path)
  {
    var ws' := ws[path[i] := WriteElement(NextOf(ws, path[i]), false, Some(v))];
    forall j | 0 <= j < |path| ensures LinkAt(ws', path, j) { assert LinkAt(ws, path, j); }
  }

  // ---------------------------------------------------------------- bookkeeping

  /** The write set stays inside the read set, and both inside the nodes there are. */
  ghost predicate Books(head: LNode, index: set<LNode>, nodes: set<LNode>, news: set<LNode>, adds: seq<LNode>, ws: WriteSet, rs: set<LNode>,
                        indexRemove: seq<LNode>, readOnly: bool)
  {
    && head in index && index <= nodes && news !! nodes && (forall n :: n in news ==> n in adds) && (forall n :: n in adds ==> n in news)
    && ws.Keys <= rs && rs <= nodes + news
    && head.key == MIN_KEY && head !in indexRemove && (forall n :: n in nodes + news && n != head ==> MIN_KEY < n.key)
    && (readOnly ==> ws == map[] && news == {} && indexRemove == [])
    && (forall n :: n in ws ==> ws[n].deleted || ws[n].val.Some?)
  }

  ghost predicate Contained(all: set<LNode>, news: set<LNode>, written: set<LNode>)
    reads all`deleted, all`val, news`deleted, news`locked, news`version
  {
    && (forall n :: n in written && n in all ==> !n.deleted)
    && (forall n :: n in all && !n.deleted ==> n.val.Some?)
    && (forall n :: n in news ==> !n.deleted && !n.locked && n.version == 0)
  }

  lemma BooksInserted(head: LNode, index: set<LNode>, nodes: set<LNode>, news: set<LNode>, adds: seq<LNode>, ws: WriteSet, rs: set<LNode>,
                      indexRemove: seq<LNode>, p: LNode, e: WriteElement, n: LNode)
    requires Books(head, index, nodes, news, adds, ws, rs, indexRemove, false) && p in nodes + news && n !in nodes + news && MIN_KEY < n.key
    requires e.deleted || e.val.Some?
    ensures Books(head, index, nodes, news + {n}, adds + [n], ws[p := e], rs + {p}, indexRemove, false)
  {
  }

  lemma BooksWritten(head: LNode, index: set<LNode>, nodes: set<LNode>, news: set<LNode>, adds: seq<LNode>, ws: WriteSet, rs: set<LNode>,
                     indexRemove: seq<LNode>, p: LNode, e: WriteElement)
    requires Books(head, index, nodes, news, adds, ws, rs, indexRemove, false) && p in nodes + news && (e.deleted || e.val.Some?)
    ensures Books(head, index, nodes, news, adds, ws[p := e], rs + {p}, indexRemove, false)
  {
  }

  lemma ContainedWritten(all: set<LNode>, news: set<LNode>, ws: WriteSet, p: LNode, e: WriteElement)
    requires Contained(all, news, ws.Keys) && p in all && !p.deleted
    ensures Contained(all, news, ws[p := e].Keys)
  {
  }

  lemma ContainedInserted(all: set<LNode>, news: set<LNode>, ws: WriteSet, n: LNode)
    requires Contained(all, news, ws.Keys) && !n.deleted && n.val.Some? && !n.locked && n.version == 0
    ensures Contained(all + {n}, news + {n}, ws.Keys)
  {
  }

  // ---------------------------------------------------------------- the transaction

  class Transaction {
    const head: LNode
    var gvc: nat
    /** The nodes the index may return. */
    var index: set<LNode>
    // the local transaction record
    var running: bool
    var readVersion: nat
    var readOnly: bool
    // the local storage
    var writeSet: WriteSet
    var readSet: set<LNode>
    var indexAdd: seq<LNode>
    var indexRemove: seq<LNode>
    /** The shared nodes and the transaction's own; what the shared ones hold; and what the transaction sees. */
    ghost var nodes: set<LNode>
    ghost var news: set<LNode>
    ghost var base: seq<LNode>
    ghost var stored: map<nat, int>
    ghost var path: seq<LNode>
    ghost var contents: map<nat, int>

    ghost function All(): set<LNode>
      reads `news, `nodes
    {
      nodes + news
    }

    ghost predicate Valid()
      reads `index, `nodes, `writeSet, `readSet, `indexAdd, `indexRemove, `readOnly, `news, `base, `stored, `path, `contents, nodes, news
    {
      && Books(head, index, nodes, news, indexAdd, writeSet, readSet, indexRemove, readOnly)
      && Contained(All(), news, writeSet.Keys)
      && IsList(head, writeSet, All(), path, contents)
      && IsList(head, map[], nodes, base, stored)
    }

    /** An empty list, and no transaction. */
    constructor ()
      ensures Valid() && !running && stored == contents == map[] && gvc == 0
      ensures nodes == {head} && fresh(nodes) && Quiet() && writeSet == map[] && news == {}
    {
      var h := new LNode(MIN_KEY, 0, null);
      head, gvc, index := h, 0, {h};
      running, readVersion, readOnly := false, 0, true;
      writeSet, readSet, indexAdd, indexRemove := map[], {}, [], [];
      nodes, news, base, stored, path, contents := {h}, {}, [h], map[], [h], map[];
      new;
      assert LinkAt(writeSet, path, 0) && LinkAt(map[], base, 0);
    }

    /** Some shared node is locked, or newer than the read version. */
    ghost predicate Disturbed()
      reads `nodes, `readVersion, nodes
    {
      exists n :: n in nodes && (n.locked || n.version > readVersion)
    }

    lemma OnPath(i: nat)
      requires Valid() && i < |path|
      ensures path[i] in All() && !DeadOf(writeSet, path[i]) && NextOf(writeSet, path[i]) == Succ(path, i)
      ensures Succ(path, i) != null ==> Succ(path, i) in All() && path[i].key < path[i + 1].key
      ensures i == 0 ==> path[i] == head
    {
      assert LinkAt(writeSet, path, i);
      hide Holds;
    }

    lemma Reached(n: LNode) returns (i: nat)
      requires Valid() && n in All() && !DeadOf(writeSet, n)
      ensures i < |path| && path[i] == n
    {
      hide Holds;
      i :| 0 <= i < |path| && path[i] == n;
    }

    lemma HeadFirst()
      requires Valid()
      ensures 0 < |path| && path[0] == head && !DeadOf(writeSet, head) && head in All()
    {
      assert LinkAt(writeSet, path, 0);
      hide Holds;
    }

    method Begin()
      requires Valid() && !running
      modifies this`running, this`readVersion
      ensures Valid() && running && readVersion == gvc
    {
      hide Valid;
      running := true;
      readVersion := gvc;
    }

    method GetPred(key: nat) returns (aborted: bool, pred: LNode, ghost i: nat)
      requires Valid() && running && MIN_KEY < key
      modifies this`running
      ensures running == !aborted && (aborted ==> Disturbed())
      ensures !aborted ==> i < |path| && path[i] == pred && pred.key < key
    {
      HeadFirst();
      hide IsList, Contained, Books;
      i := 0;
      pred :| pred in index && pred.key < key;
      while true
        invariant running && pred in index && pred.key < key
        decreases pred.key
      {
        if pred.locked || pred.version > readVersion {
          running := false;
          return true, pred, 0;
        }
        if (pred in writeSet && writeSet[pred].deleted) || pred.deleted {
          var bound := pred.key;
          assert pred != head;
          pred :| pred in index && pred.key < bound;
        } else {
          i := Reached(pred);
          return false, pred, i;
        }
      }
    }

    method GetNext(n: LNode, ghost i: nat) returns (aborted: bool, next: LNode?)
      requires Valid() && running && i < |path| && path[i] == n
      modifies this`running
      ensures running == !aborted && (aborted ==> Disturbed())
      ensures !aborted ==> next == Succ(path, i)
    {
      OnPath(i);
      hide IsList;
      if n in writeSet { return false, writeSet[n].next; }
      aborted, next := n.locked, null;
      if !aborted {
        next := n.next;
        aborted := n.locked || n.version > readVersion || (next != null && (next.locked || next.version > readVersion));
      }
      if aborted { running := false; }
    }

    /** `path[i]` is the last node with a smaller key. */
    ghost predicate Place(i: nat, key: nat, pred: LNode, next: LNode?)
      reads `path
    {
      i < |path| && path[i] == pred && pred.key < key && next == Succ(path, i) && (next != null ==> key <= next.key)
    }

    method FindNode(key: nat) returns (aborted: bool, found: bool, pred: LNode, next: LNode?, ghost i: nat)
      requires Valid() && running && MIN_KEY < key
      modifies this`running
      ensures running == !aborted && (aborted ==> Disturbed())
      ensures !aborted ==> Place(i, key, pred, next) && (found <==> next != null && next.key == key)
    {
      hide Valid;
      found, next := false, null;
      aborted, pred, i := GetPred(key);
      if aborted { return; }
      aborted, next := GetNext(pred, i);
      while !aborted && next != null && next.key < key
        invariant running == !aborted && (aborted ==> Disturbed())
        invariant i < |path| && path[i] == pred && pred.key < key && (!aborted ==> next == Succ(path, i))
        decreases |path| - i, !aborted
      {
        pred, i := next, i + 1;
        aborted, next := GetNext(pred, i);
      }
      found := next != null && next.key == key;
    }

    lemma Decides(i: nat, key: nat, pred: LNode, next: LNode?)
      requires Valid() && Place(i, key, pred, next)
      ensures key in contents <==> next != null && next.key == key
      ensures key in contents ==> ValOf(writeSet, next) == Some(contents[key])
      ensures pred in All() && (next != null ==> next in All() && path[i + 1] == next && next.val.Some? && !next.deleted)
    {
      PlaceDecides(head, writeSet, All(), path, contents, i, key);
      OnPath(i);
      if next != null { OnPath(i + 1); }
      hide Holds, Ascending;
    }

    lemma BooksUpdating()
      requires Books(head, index, nodes, news, indexAdd, writeSet, readSet, indexRemove, readOnly)
      ensures Books(head, index, nodes, news, indexAdd, writeSet, readSet, indexRemove, false)
    {
    }

    lemma BooksRead(n: LNode)
      requires Books(head, index, nodes, news, indexAdd, writeSet, readSet, indexRemove, readOnly) && n in All()
      ensures Books(head, index, nodes, news, indexAdd, writeSet, readSet + {n}, indexRemove, readOnly)
    {
    }

    method AddToReadSet(n: LNode)
      requires Valid() && n in All()
      modifies this`readSet
      ensures Valid() && readSet == old(readSet) + {n}
    {
      hide IsList, Contained, Books;
      BooksRead(n);
      readSet := readSet + {n};
    }

    method Update()
      requires Valid()
      modifies this`readOnly
      ensures Valid() && !readOnly
    {
      hide IsList, Contained, Books;
      BooksUpdating();
      readOnly := false;
    }

    /** The predecessor of the key has entered the read set, and no other node. */
    ghost predicate ReadsPred(key: nat, rs: set<LNode>)
      reads `path, `readSet
    {
      exists i: nat :: Before(path, i, key) && readSet == rs + {path[i]}
    }

    method Get(key: nat) returns (aborted: bool, result: Option<int>)
      requires Valid() && running && MIN_KEY < key
      modifies this`running, this`readSet
      ensures Valid() && running == !aborted && (aborted ==> Disturbed())
      ensures !aborted ==> result == if key in contents then Some(contents[key]) else None
      ensures if aborted then readSet == old(readSet) else ReadsPred(key, old(readSet))
    {
      hide IsList, Contained, Books;
      var found, pred, next;
      ghost var i;
      aborted, found, pred, next, i := FindNode(key);
      if aborted { return true, None; }
      Decides(i, key, pred, next);
      AddToReadSet(pred);
      assert Before(path, i, key);
      result := None;
      if found { result := ValOf(writeSet, next); }
    }

    /** The local storage changes. */
    method Record(ws: WriteSet, rs: set<LNode>, adds: seq<LNode>, removes: seq<LNode>,
                  ghost own: set<LNode>, ghost p: seq<LNode>, ghost m: map<nat, int>)
      modifies this`writeSet, this`readSet, this`indexAdd, this`indexRemove, this`news, this`path, this`contents
      ensures writeSet == ws && readSet == rs && indexAdd == adds && indexRemove == removes && news == own && path == p && contents == m
    {
      writeSet, readSet, indexAdd, indexRemove := ws, rs, adds, removes;
      news, path, contents := own, p, m;
    }

    /** `put` of a key that is there. */
    method Overwrite(next: LNode, val: int, ghost i: nat)
      requires Valid() && 0 < i < |path| && path[i] == next && !readOnly
      modifies this`writeSet, this`readSet, this`indexAdd, this`indexRemove, this`news, this`path, this`contents
      ensures Valid() && contents == old(contents)[next.key := val] && news == old(news) && path == old(path)
      ensures next in writeSet && writeSet[next].val == Some(val) && writeSet.Keys == old(writeSet).Keys + {next}
      ensures readSet == old(readSet) + {next} && indexAdd == old(indexAdd) && indexRemove == old(indexRemove)
    {
      hide IsList, Books, Contained;
      OnPath(i);
      NotDeleted(next);
      OverwrittenList(head, writeSet, All(), path, contents, i, val);
      var e := if next in writeSet then WriteElement(writeSet[next].next, writeSet[next].deleted, Some(val))
               else WriteElement(next.next, false, Some(val));
      BooksWritten(head, index, nodes, news, indexAdd, writeSet, readSet, indexRemove, next, e);
      ContainedWritten(All(), news, writeSet, next, e);
      Record(writeSet[next := e], readSet + {next}, indexAdd, indexRemove, news, path, contents[next.key := val]);
    }

    /** The new node, and the write element that links it. */
    method NewNode(key: nat, val: int, pred: LNode, next: LNode?, ghost i: nat) returns (n: LNode, e: WriteElement)
      requires Valid() && Place(i, key, pred, next) && (next != null ==> key < next.key) && MIN_KEY < key && !readOnly
      ensures fresh(n) && n.key == key && n.val == Some(val) && Valid() && n !in All() && n !in writeSet && n != pred
      ensures IsList(head, writeSet[pred := e], All() + {n}, Spliced(path, i, n), contents[key := val])
      ensures Books(head, index, nodes, news + {n}, indexAdd + [n], writeSet[pred := e], readSet + {pred}, indexRemove, false)
      ensures Contained(All() + {n}, news + {n}, writeSet[pred := e].Keys)
    {
      OnPath(i);
      WrittenKnown();
      NotDeleted(pred);
      hide IsList, Spliced, Books, Contained, LinkAt, DeadOf, NextOf, ValOf;
      n := new LNode(key, val, next);
      e := WriteElement(n, false, ValOf(writeSet, pred));
      Inserting(pred, e, n, val, i, All());
    }

    /** `put` of a key that is not there. */
    method Insert(key: nat, val: int, pred: LNode, next: LNode?, ghost i: nat)
      requires Valid() && Place(i, key, pred, next) && (next != null ==> key < next.key) && MIN_KEY < key && !readOnly
      modifies this`writeSet, this`readSet, this`indexAdd, this`indexRemove, this`news, this`path, this`contents
      ensures Valid() && contents == old(contents)[key := val]
      ensures fresh(news - old(news))
      ensures exists n :: n in news - old(news) && n in path && n.key == key && n.val == Some(val) && n !in writeSet && indexAdd == old(indexAdd) + [n]
      ensures writeSet.Keys == old(writeSet).Keys + {pred} && readSet == old(readSet) + {pred} && indexRemove == old(indexRemove)
    {
      hide IsList, Spliced, Books, Contained;
      var n, e := NewNode(key, val, pred, next, i);
      assert All() + {n} == nodes + (news + {n});
      Record(writeSet[pred := e], readSet + {pred}, indexAdd + [n], indexRemove, news + {n}, Spliced(path, i, n), contents[key := val]);
      SplicedAt(old(path), i, n);
      assert path[i + 1] == n;
    }

    lemma Inserting(pred: LNode, e: WriteElement, n: LNode, val: int, i: nat, all: set<LNode>)
      requires IsList(head, writeSet, all, path, contents) && Books(head, index, nodes, news, indexAdd, writeSet, readSet, indexRemove, false)
      requires Contained(all, news, writeSet.Keys) && all == nodes + news && n !in all && n !in writeSet
      requires i < |path| && path[i] == pred && pred in all && !pred.deleted && ValOf(writeSet, pred).Some? && e == WriteElement(n, false, ValOf(writeSet, pred))
      requires n.next == Succ(path, i) && pred.key < n.key && (i + 1 < |path| ==> n.key < path[i + 1].key) && MIN_KEY < n.key
      requires !n.deleted && n.val == Some(val) && !n.locked && n.version == 0
      ensures IsList(head, writeSet[pred := e], all + {n}, Spliced(path, i, n), contents[n.key := val])
      ensures Books(head, index, nodes, news + {n}, indexAdd + [n], writeSet[pred := e], readSet + {pred}, indexRemove, false)
      ensures Contained(all + {n}, news + {n}, writeSet[pred := e].Keys)
    {
      hide IsList, Spliced, Books, Contained;
      InsertedList(head, writeSet, all, path, contents, i, n, val);
      BooksInserted(head, index, nodes, news, indexAdd, writeSet, readSet, indexRemove, pred, e, n);
      ContainedInserted(all, news, writeSet, n);
      ContainedWritten(all + {n}, news + {n}, writeSet, pred, e);
    }

    lemma WrittenKnown()
      requires Valid()
      ensures writeSet.Keys <= All()
    {
    }

    /** The node of the key has its value in the write set, and is in the read set; no other node has entered them. */
    ghost predicate Overwrites(key: nat, val: int, p: seq<LNode>, ws: WriteSet, rs: set<LNode>)
      reads `path, `writeSet, `readSet
    {
      path == p && exists n :: n in p && n.key == key && writeSet.Keys == ws.Keys + {n} && writeSet[n].val == Some(val) && readSet == rs + {n}
    }

    /** A new node has the key and the value, and is to be added to the index; its predecessor has entered the write set
        and the read set. */
    ghost predicate Inserts(key: nat, val: int, p: seq<LNode>, ws: WriteSet, rs: set<LNode>, adds: seq<LNode>, own: set<LNode>)
      reads `path, `writeSet, `readSet, `indexAdd, `news, news`val
    {
      && (exists n :: n in news - own && n in path && n.key == key && n.val == Some(val) && n !in writeSet && indexAdd == adds + [n])
      && exists i: nat :: Before(p, i, key) && writeSet.Keys == ws.Keys + {p[i]} && readSet == rs + {p[i]}
    }

    /** The result says whether the key was there, but it is the value in memory: the key's previous value if and
        only if the transaction has not put another one before. */
    method Put(key: nat, val: int) returns (aborted: bool, result: Option<int>)
      requires Valid() && running && MIN_KEY < key
      modifies this`running, this`readOnly, this`writeSet, this`readSet, this`indexAdd, this`indexRemove, this`news, this`path, this`contents
      ensures Valid() && running == !aborted && fresh(news - old(news))
      ensures aborted ==> Disturbed() && contents == old(contents)
      ensures !aborted ==> contents == old(contents)[key := val] && (result.Some? <==> key in old(contents))
      ensures result.Some? ==> exists n :: n in old(path) && n.key == key && result == old(n.val) && (
                result == Lookup(old(contents), key) <==> n !in old(writeSet) || old(writeSet)[n].val == old(n.val))
      ensures !aborted ==> !readOnly && indexRemove == old(indexRemove)
      ensures !aborted && key in old(contents) ==> Overwrites(key, val, old(path), old(writeSet), old(readSet)) && indexAdd == old(indexAdd)
      ensures !aborted && key !in old(contents) ==> Inserts(key, val, old(path), old(writeSet), old(readSet), old(indexAdd), old(news))
    {
      hide Valid, Disturbed;
      Update();
      var found, pred, next;
      ghost var i;
      aborted, found, pred, next, i := FindNode(key);
      if aborted { return true, None; }
      Decides(i, key, pred, next);
      assert Before(path, i, key);
      if found {
        OnPath(i + 1);
        Overwrite(next, val, i + 1);
        result := next.val;
      } else {
        Insert(key, val, pred, next, i);
        result := None;
      }
    }

    /** The write elements that unlink a node. */
    method UnlinkElements(pred: LNode, next: LNode, after: LNode?, ghost i: nat) returns (e: WriteElement, f: WriteElement)
      requires Valid() && i + 1 < |path| && path[i] == pred && path[i + 1] == next && after == Succ(path, i + 1) && pred in readSet && !readOnly
      ensures f.val == ValOf(writeSet, next)
      ensures IsList(head, writeSet[pred := e][next := f], All(), Cut(path, i), contents - {next.key})
      ensures Books(head, index, nodes, news, indexAdd, writeSet[pred := e][next := f], readSet + {next}, indexRemove + [next], false)
      ensures Contained(All(), news, writeSet[pred := e][next := f].Keys)
    {
      OnPath(i);
      OnPath(i + 1);
      HeadFirst();
      hide IsList, Cut, Books, Contained;
      e, f := WriteElement(after, false, ValOf(writeSet, pred)), WriteElement(null, true, ValOf(writeSet, next));
      Unlinking(pred, e, next, f, i);
    }

    method UnlinkNext(pred: LNode, next: LNode, after: LNode?, ghost i: nat) returns (val: Option<int>)
      requires Valid() && i + 1 < |path| && path[i] == pred && path[i + 1] == next && after == Succ(path, i + 1) && pred in readSet && !readOnly
      modifies this`writeSet, this`readSet, this`indexAdd, this`indexRemove, this`news, this`path, this`contents
      ensures Valid() && contents == old(contents) - {next.key} && val == old(ValOf(writeSet, next)) && news == old(news)
      ensures writeSet.Keys == old(writeSet).Keys + {pred, next} && readSet == old(readSet) + {next}
      ensures indexAdd == old(indexAdd) && indexRemove == old(indexRemove) + [next]
    {
      hide IsList, Cut, Books, Contained;
      var e, f := UnlinkElements(pred, next, after, i);
      val := f.val;
      Record(writeSet[pred := e][next := f], readSet + {next}, indexAdd, indexRemove + [next], news, Cut(path, i), contents - {next.key});
    }

    lemma Unlinking(pred: LNode, e: WriteElement, next: LNode, f: WriteElement, i: nat)
      requires Valid() && i + 1 < |path| && path[i] == pred && path[i + 1] == next && pred in readSet && !readOnly && next != head
      requires pred in All() && next in All() && !DeadOf(writeSet, pred) && !DeadOf(writeSet, next)
      requires e == WriteElement(Succ(path, i + 1), false, ValOf(writeSet, pred)) && f == WriteElement(null, true, ValOf(writeSet, next))
      ensures IsList(head, writeSet[pred := e][next := f], All(), Cut(path, i), contents - {next.key})
      ensures Books(head, index, nodes, news, indexAdd, writeSet[pred := e][next := f], readSet + {next}, indexRemove + [next], false)
      ensures Contained(All(), news, writeSet[pred := e][next := f].Keys)
    {
      NotDeleted(pred);
      NotDeleted(next);
      hide IsList, Cut, Books, Contained;
      RemovedList(head, writeSet, All(), path, contents, i);
      BooksUnlinked(pred, e, next, f);
      ContainedWritten(All(), news, writeSet, pred, e);
      ContainedWritten(All(), news, writeSet[pred := e], next, f);
    }

    lemma NotDeleted(n: LNode)
      requires Books(head, index, nodes, news, indexAdd, writeSet, readSet, indexRemove, readOnly)
      requires Contained(All(), news, writeSet.Keys) && n in All() && !DeadOf(writeSet, n)
      ensures !n.deleted && n.val.Some? && ValOf(writeSet, n).Some?
    {
    }

    lemma BooksUnlinked(p: LNode, e: WriteElement, q: LNode, f: WriteElement)
      requires Books(head, index, nodes, news, indexAdd, writeSet, readSet, indexRemove, false) && p in readSet && q in All() && q != head
      requires (e.deleted || e.val.Some?) && (f.deleted || f.val.Some?)
      ensures Books(head, index, nodes, news, indexAdd, writeSet[p := e][q := f], readSet + {q}, indexRemove + [q], false)
    {
    }

    /** The key's node and its predecessor have entered the write set and the read set, and the node is to be taken out
        of the index. */
    ghost predicate Unlinks(key: nat, p: seq<LNode>, ws: WriteSet, rs: set<LNode>, removes: seq<LNode>)
      reads `writeSet, `readSet, `indexRemove
    {
      exists i: nat :: Before(p, i, key) && i + 1 < |p| && p[i + 1].key == key
        && writeSet.Keys == ws.Keys + {p[i], p[i + 1]} && readSet == rs + {p[i], p[i + 1]} && indexRemove == removes + [p[i + 1]]
    }

    method Remove(key: nat) returns (aborted: bool, result: Option<int>)
      requires Valid() && running && MIN_KEY < key
      modifies this`running, this`readOnly, this`writeSet, this`readSet, this`indexAdd, this`indexRemove, this`news, this`path, this`contents
      ensures Valid() && running == !aborted && news == old(news)
      ensures aborted ==> Disturbed() && contents == old(contents)
      ensures !aborted ==> contents == old(contents) - {key}
      ensures !aborted ==> result == if key in old(contents) then Some(old(contents)[key]) else None
      ensures !aborted ==> !readOnly && indexAdd == old(indexAdd)
      ensures !aborted && key in old(contents) ==> Unlinks(key, old(path), old(writeSet), old(readSet), old(indexRemove))
      ensures !aborted && key !in old(contents) ==>
                path == old(path) && ReadsPred(key, old(readSet)) && writeSet == old(writeSet) && indexRemove == old(indexRemove)
    {
      hide Valid, Disturbed;
      Update();
      var found, pred, next;
      ghost var i;
      aborted, found, pred, next, i := FindNode(key);
      if aborted { return true, None; }
      Decides(i, key, pred, next);
      AddToReadSet(pred);
      assert Before(path, i, key);
      result := None;
      if found {
        var after;
        aborted, after := GetNext(next, i + 1);
        if aborted { return; }
        result := UnlinkNext(pred, next, after, i);
      }
    }

    // -------------------------------------------------------------- TXend

    /** Exactly when TXend commits. */
    ghost predicate CanCommit()
      reads this, writeSet.Keys, readSet
    {
      && (forall n :: n in writeSet ==> !n.locked)
      && (forall n :: n in readSet ==> (n in writeSet || !n.locked) && n.version <= readVersion)
    }

    method LockWriteSet() returns (ok: bool, locked: set<LNode>)
      modifies writeSet.Keys`locked
      ensures ok <==> forall n :: n in writeSet ==> !old(n.locked)
      ensures locked <= writeSet.Keys && (ok ==> locked == writeSet.Keys)
      ensures forall n :: n in writeSet ==> (n in locked ==> !old(n.locked)) && n.locked == (n in locked || old(n.locked))
    {
      var todo := writeSet.Keys;
      locked, ok := {}, true;
      while todo != {} && ok
        invariant locked !! todo && locked + todo == writeSet.Keys
        invariant forall n :: n in writeSet ==> (n in locked ==> !old(n.locked)) && n.locked == (n in locked || old(n.locked))
        invariant !ok ==> exists n :: n in writeSet && old(n.locked)
        decreases todo, ok
      {
        var n :| n in todo;
        ok := n.TryLock();
        if ok { locked, todo := locked + {n}, todo - {n}; }
      }
    }

    method Validate(locked: set<LNode>) returns (ok: bool)
      ensures ok <==> forall n :: n in readSet ==> (n in locked || !n.locked) && n.version <= readVersion
    {
      var todo := readSet;
      ok := true;
      while todo != {} && ok
        invariant todo <= readSet
        invariant ok ==> forall n :: n in readSet - todo ==> (n in locked || !n.locked) && n.version <= readVersion
        invariant !ok ==> exists n :: n in readSet && !((n in locked || !n.locked) && n.version <= readVersion)
        decreases todo, ok
      {
        var n :| n in todo;
        ok := !((n !in locked && n.locked) || n.version > readVersion);
        todo := todo - {n};
      }
    }

    method WriteBack(writeVersion: nat)
      requires forall n :: n in writeSet ==> !n.deleted
      modifies writeSet.Keys
      ensures forall n :: n in writeSet ==>
                n.next == writeSet[n].next && n.deleted == writeSet[n].deleted && n.version == writeVersion && n.locked == old(n.locked)
                && n.val == if writeSet[n].deleted then None else writeSet[n].val
    {
      var todo := writeSet.Keys;
      while todo != {}
        invariant todo <= writeSet.Keys
        invariant forall n :: n in todo ==> !n.deleted && n.locked == old(n.locked)
        invariant forall n :: n in writeSet && n !in todo ==>
                    n.next == writeSet[n].next && n.deleted == writeSet[n].deleted && n.version == writeVersion && n.locked == old(n.locked)
                    && n.val == if writeSet[n].deleted then None else writeSet[n].val
        decreases todo
      {
        var n :| n in todo;
        var we := writeSet[n];
        n.next := we.next;
        n.val := we.val;
        if we.deleted {
          n.deleted := true;
          n.val := None;
        }
        n.version := writeVersion;
        todo := todo - {n};
      }
    }

    method UnlockAll(locked: set<LNode>)
      requires forall n :: n in locked ==> n.locked
      modifies locked`locked
      ensures forall n :: n in locked ==> !n.locked
    {
      var todo := locked;
      while todo != {}
        invariant todo <= locked && forall n :: n in locked ==> n.locked == (n in todo)
        decreases todo
      {
        var n :| n in todo;
        n.Unlock();
        todo := todo - {n};
      }
    }

    method LockAndValidate() returns (ok: bool, locked: set<LNode>)
      modifies writeSet.Keys`locked
      ensures ok <==> old(running && CanCommit())
      ensures locked <= writeSet.Keys
      ensures forall n :: n in writeSet ==> (n in locked ==> !old(n.locked)) && n.locked == (n in locked || old(n.locked))
    {
      ok, locked := running, {};
      if ok { ok, locked := LockWriteSet(); }
      if ok { ok := Validate(locked); }
    }

    /** Write-back, in any order, makes the nodes in memory the list that the transaction saw. */
    method Install(writeVersion: nat)
      requires Books(head, index, nodes, news, indexAdd, writeSet, readSet, indexRemove, readOnly)
      requires Contained(All(), {}, writeSet.Keys) && IsList(head, writeSet, All(), path, contents)
      modifies writeSet.Keys
      ensures IsList(head, map[], All(), path, contents) && Contained(All(), {}, {})
      ensures forall n :: n in writeSet ==> n.version == writeVersion && n.locked == old(n.locked)
    {
      assert forall n :: n in writeSet ==> n in All() && !n.deleted;
      assert forall i :: 0 <= i < |path| ==> LinkAt(writeSet, path, i);
      assert forall i :: 0 < i < |path| ==> ValueAt(writeSet, path, contents, i);
      WriteBack(writeVersion);
      forall i | 0 <= i < |path| ensures LinkAt(map[], path, i) {
        assert old(LinkAt(writeSet, path, i));
      }
      forall i | 0 < i < |path| ensures ValueAt(map[], path, contents, i) {
        assert old(LinkAt(writeSet, path, i)) && old(ValueAt(writeSet, path, contents, i));
      }
      forall n | n in All() && !DeadOf(map[], n) ensures n in path { assert !old(DeadOf(writeSet, n)); }
    }

    /** The clock and the write-back. */
    method Apply()
      requires Books(head, index, nodes, news, indexAdd, writeSet, readSet, indexRemove, readOnly)
      requires Contained(All(), {}, writeSet.Keys) && IsList(head, writeSet, All(), path, contents)
      modifies this`gvc, writeSet.Keys
      ensures IsList(head, map[], All(), path, contents) && Contained(All(), {}, {})
      ensures gvc == old(gvc) + if readOnly then 0 else 1
      ensures forall n :: n in writeSet ==> n.version == gvc && n.locked == old(n.locked)
    {
      if readOnly {
        assert writeSet == map[];
      } else {
        gvc := gvc + 1;
        hide IsList, Contained;
        Install(gvc);
      }
    }

    /** The index after the nodes of a committed transaction have been added and removed. */
    function NewIndex(ix: set<LNode>, adds: seq<LNode>, removes: seq<LNode>): set<LNode>
    {
      (ix + set n | n in adds) - set n | n in removes
    }

    method UpdateIndex()
      requires Books(head, index, nodes, news, indexAdd, writeSet, readSet, indexRemove, readOnly)
      modifies this`index
      ensures head in index && index <= All() && head.key == MIN_KEY && forall n :: n in All() && n != head ==> MIN_KEY < n.key
      ensures index == NewIndex(old(index), indexAdd, indexRemove)
    {
      if !readOnly { index := (index + set n | n in indexAdd) - set n | n in indexRemove; }
    }

    /** Nothing is left of the transaction. */
    ghost predicate Forgotten()
      reads this
    {
      readSet == {} && indexAdd == [] && indexRemove == [] && news == {}
    }

    /** The transaction is over, and this is the shared list. */
    method Settle(ghost all: set<LNode>, ghost p: seq<LNode>, ghost m: map<nat, int>)
      requires IsList(head, map[], all, p, m) && Contained(all, {}, {})
      requires head in index && index <= all && head.key == MIN_KEY && forall n :: n in all && n != head ==> MIN_KEY < n.key
      modifies this`running, this`readOnly, this`writeSet, this`readSet, this`indexAdd, this`indexRemove,
               this`nodes, this`news, this`base, this`stored, this`path, this`contents
      ensures Valid() && !running && writeSet == map[] && readOnly
      ensures nodes == all && base == path == p && stored == contents == m && Forgotten()
    {
      assert Books(head, index, all, {}, [], map[], {}, [], true);
      var none: WriteSet := map[];
      assert none.Keys == {} && all + {} == all;
      hide IsList, Contained, Books;
      Cleanup(all, p, m);
    }

    lemma Parts()
      requires Valid()
      ensures Contained(All(), {}, writeSet.Keys) && Contained(nodes, {}, {})
      ensures Books(head, index, nodes, news, indexAdd, writeSet, readSet, indexRemove, readOnly)
      ensures IsList(head, writeSet, All(), path, contents) && IsList(head, map[], nodes, base, stored)
      ensures head.key == MIN_KEY && head in index && index <= nodes && forall n :: n in nodes && n != head ==> MIN_KEY < n.key
    {
      hide IsList;
    }

    /** TXend commits exactly if the transaction has not aborted and, in its write set, no node was locked and,
        in its read set, no node outside the write set was locked and none is newer than the read version. Then the
        shared list is the list the transaction saw; otherwise it is what it was. No lock stays behind. */
    method End() returns (committed: bool)
      requires Valid()
      modifies this, writeSet.Keys
      ensures Valid() && !running && writeSet == map[] && readOnly && contents == stored
      ensures committed <==> old(running && CanCommit())
      ensures committed ==> stored == old(contents) && nodes == old(All()) && gvc == old(gvc) + if old(readOnly) then 0 else 1
      ensures committed ==> forall n :: n in old(writeSet) ==> n.version == gvc
      ensures !committed ==> stored == old(stored) && nodes == old(nodes) && gvc == old(gvc)
      ensures !committed ==> forall n :: n in old(writeSet) ==>
                n.next == old(n.next) && n.val == old(n.val) && n.deleted == old(n.deleted) && n.version == old(n.version)
      ensures forall n :: n in old(writeSet) ==> n.locked == old(n.locked)
      ensures index == if committed then NewIndex(old(index), old(indexAdd), old(indexRemove)) else old(index)
      ensures Forgotten()
    {
      Parts();
      hide IsList, Contained, Books, CanCommit;
      var locked;
      committed, locked := LockAndValidate();
      if committed { Commit(locked); } else { Abort(locked); }
    }

    method Commit(locked: set<LNode>)
      requires Books(head, index, nodes, news, indexAdd, writeSet, readSet, indexRemove, readOnly)
      requires Contained(All(), {}, writeSet.Keys) && IsList(head, writeSet, All(), path, contents)
      requires locked <= writeSet.Keys && forall n :: n in locked ==> n.locked
      modifies this, writeSet.Keys
      ensures Valid() && !running && writeSet == map[] && readOnly && contents == stored
      ensures stored == old(contents) && nodes == old(All()) && gvc == old(gvc) + if old(readOnly) then 0 else 1
      ensures forall n :: n in old(writeSet) ==> n.version == gvc && n.locked == (old(n.locked) && n !in locked)
      ensures index == NewIndex(old(index), old(indexAdd), old(indexRemove)) && Forgotten()
    {
      hide IsList, Contained, Books;
      Apply();
      UnlockAll(locked);
      UpdateIndex();
      Settle(All(), path, contents);
    }

    method Abort(locked: set<LNode>)
      requires Contained(nodes, {}, {}) && IsList(head, map[], nodes, base, stored)
      requires head in index && index <= nodes && head.key == MIN_KEY && forall n :: n in nodes && n != head ==> MIN_KEY < n.key
      requires forall n :: n in locked ==> n.locked
      modifies this, locked`locked
      ensures Valid() && !running && writeSet == map[] && readOnly && contents == stored
      ensures stored == old(stored) && nodes == old(nodes) && gvc == old(gvc)
      ensures forall n :: n in locked ==> !n.locked
      ensures index == old(index) && Forgotten()
    {
      hide IsList, Contained;
      UnlockAll(locked);
      Settle(nodes, base, stored);
    }

    method Cleanup(ghost all: set<LNode>, ghost p: seq<LNode>, ghost m: map<nat, int>)
      modifies this`running, this`readOnly, this`writeSet, this`readSet, this`indexAdd, this`indexRemove,
               this`nodes, this`news, this`base, this`stored, this`path, this`contents
      ensures writeSet == map[] && readSet == {} && indexAdd == [] && indexRemove == [] && !running && readOnly
      ensures nodes == all && news == {} && base == path == p && stored == contents == m
    {
      writeSet, readSet, indexAdd, indexRemove, running, readOnly := map[], {}, [], [], false, true;
      nodes, news, base, stored, path, contents := all, {}, p, m, p, m;
    }

    /** A transaction that has been aborted is forgotten. */
    method HandleAbort()
      requires Valid()
      modifies this
      ensures Valid() && !running && writeSet == map[] && stored == contents == old(stored) && nodes == old(nodes) && gvc == old(gvc)
      ensures Forgotten() && readOnly && index == old(index)
    {
      Parts();
      hide IsList, Contained;
      Settle(nodes, base, stored);
    }

    /** Nobody else is in the way. */
    ghost predicate Quiet()
      reads `nodes, `gvc, nodes
    {
      forall n :: n in nodes ==> !n.locked && n.version <= gvc
    }

    method Step(op: Op) returns (aborted: bool, result: Option<int>)
      requires Valid() && running && MIN_KEY < op.key
      modifies this`running, this`readOnly, this`writeSet, this`readSet, this`indexAdd, this`indexRemove, this`news, this`path, this`contents
      ensures Valid() && running == !aborted && fresh(news - old(news)) && (aborted ==> Disturbed())
      ensures !aborted ==> contents == Updated(old(contents), op) && Returns(old(contents), op, result)
    {
      match op
      case GetOp(key) => aborted, result := Get(key);
      case PutOp(key, val) => aborted, result := Put(key, val);
      case RemoveOp(key) => aborted, result := Remove(key);
    }

    method Operations(ops: seq<Op>) returns (aborted: bool, results: seq<Option<int>>)
      requires Valid() && !running && news == {} && contents == stored && forall op :: op in ops ==> MIN_KEY < op.key
      modifies this`running, this`readVersion, this`readOnly, this`writeSet, this`readSet, this`indexAdd, this`indexRemove,
               this`news, this`path, this`contents
      ensures Valid() && running == !aborted && fresh(news) && readVersion == gvc
      ensures !aborted ==> AllReturn(stored, ops, results) && contents == Effects(stored, ops)
      ensures aborted ==> Disturbed()
    {
      hide Valid, Updated, Returns, Disturbed, AllReturn;
      Begin();
      results, aborted := [], false;
      var i := 0;
      assert ops[..0] == [];
      NoneYet(stored);
      while i < |ops| && !aborted
        invariant Valid() && running == !aborted && i <= |ops| && fresh(news) && readVersion == gvc
        invariant !aborted ==> AllReturn(stored, ops[..i], results) && contents == Effects(stored, ops[..i])
        invariant aborted ==> Disturbed()
        decreases |ops| - i, !aborted
      {
        var r;
        aborted, r := Step(ops[i]);
        if !aborted {
          OneMore(stored, ops[..i], results, ops[i], r);
          assert ops[..i + 1] == ops[..i] + [ops[i]];
          results, i := results + [r], i + 1;
        }
      }
      assert ops[..|ops|] == ops;
    }

    lemma QuietCommits()
      requires Valid() && Quiet() && readVersion == gvc
      ensures !Disturbed() && CanCommit()
      ensures forall n :: n in news ==> !n.locked && n.version == 0
    {
      hide IsList;
    }

    method Finish(aborted: bool) returns (committed: bool)
      requires Valid() && readVersion == gvc && running == !aborted && (aborted ==> Disturbed())
      modifies this, writeSet.Keys
      ensures Valid() && !running && writeSet == map[] && contents == stored
      ensures committed ==> !aborted && stored == old(contents)
      ensures !committed ==> stored == old(stored)
      ensures old(Quiet()) ==> committed && Quiet()
    {
      if Quiet() { QuietCommits(); }
      hide Valid, CanCommit, Disturbed;
      if aborted {
        committed := false;
        HandleAbort();
      } else {
        committed := End();
        assert old(Quiet()) ==> Quiet();
      }
    }

    /** One transaction. If it commits, its operations returned what they return on a map, and the shared list is
        that map after them; if not, the shared list is what it was. With nobody in the way it commits. */
    method Execute(ops: seq<Op>) returns (committed: bool, results: seq<Option<int>>)
      requires Valid() && !running && news == {} && contents == stored && forall op :: op in ops ==> MIN_KEY < op.key
      modifies this, nodes
      ensures Valid() && !running && writeSet == map[] && contents == stored
      ensures committed ==> AllReturn(old(stored), ops, results) && stored == Effects(old(stored), ops)
      ensures !committed ==> stored == old(stored)
      ensures old(Quiet()) ==> committed && Quiet()
    {
      var aborted;
      aborted, results := Operations(ops);
      WrittenKnown();
      hide Valid;
      committed := Finish(aborted);
    }

    /** The value that a second `put` of a key returns is the one from before the transaction, not the one that its
        first `put` gave the key. */
    method PutTwice(key: nat, first: int, second: int) returns (aborted: bool, result: Option<int>)
      requires Valid() && !running && writeSet == map[] && MIN_KEY < key && key in contents
      modifies this`running, this`readVersion, this`readOnly, this`writeSet, this`readSet, this`indexAdd, this`indexRemove,
               this`news, this`path, this`contents
      ensures Valid() && readVersion == gvc && (aborted ==> Disturbed())
      ensures !aborted ==> result == Some(old(contents)[key]) && contents == old(contents)[key := second]
    {
      hide IsList, Contained, Books, Overwrites, Inserts, Disturbed;
      Begin();
      ghost var p, ws, rs := path, writeSet, readSet;
      aborted, result := Put(key, first);
      if !aborted {
        assert result == Some(old(contents)[key]);
        ghost var n := Overwritten(key, first, p, ws, rs);
        OneNodeOfKey(key);
        assert result == n.val;
        hide Valid;
        aborted, result := Put(key, second);
      }
    }

    lemma Overwritten(key: nat, val: int, p: seq<LNode>, ws: WriteSet, rs: set<LNode>) returns (n: LNode)
      requires Overwrites(key, val, p, ws, rs)
      ensures n in path && path == p && n.key == key && n in writeSet && writeSet[n].val == Some(val)
    {
      n :| n in p && n.key == key && writeSet.Keys == ws.Keys + {n} && writeSet[n].val == Some(val) && readSet == rs + {n};
    }

    lemma NotDisturbed()
      requires Quiet() && readVersion == gvc
      ensures !Disturbed()
    {
    }

    lemma OneNodeOfKey(key: nat)
      requires Valid()
      ensures forall m, n :: m in path && n in path && m.key == n.key == key ==> m == n
    {
      hide Contained, Books, Links, Holds;
    }
  }

  /** A list that holds 10 for key 1. */
  method StoreTen() returns (list: Transaction)
    ensures fresh(list) && list.Valid() && !list.running && list.writeSet == map[] && list.Quiet()
    ensures list.contents == list.stored == map[1 := 10]
  {
    hide IsList, Contained, Books, AllReturn;
    list := new Transaction();
    assert Effects(map[], [PutOp(1, 10)]) == map[1 := 10] by { OnePut(); }
    hide Effects;
    var committed, results := list.Execute([PutOp(1, 10)]);
  }

  /** With 10 stored for key 1, a transaction that puts 20 and then 30 is told by the second `put` that 10 was there,
      although the key's value was 20. */
  method PutReturnsOldValue() returns (list: Transaction, result: Option<int>)
    ensures fresh(list) && result == Some(10) && list.stored == map[1 := 10] && list.contents == map[1 := 30]
  {
    list := StoreTen();
    hide IsList, Contained, Books;
    var aborted;
    aborted, result := list.PutTwice(1, 20, 30);
    list.NotDisturbed();
  }

  lemma OnePut()
    ensures Effects(map[], [PutOp(1, 10)]) == map[1 := 10]
  {
    assert [PutOp(1, 10)][..0] == [];
  }
}
