/** The skip-list index of nodes/Index.h, used by one thread at a time.

    An index node stands for a list node on one level. Each level is a linked row of index nodes that starts
    with the head's; every index node above the bottom one points down to the one for the same list node. */
module SkipListIndex {
  import opened Overlay

  /** Deleted, or emptied for deletion. */
  predicate Gone(n: LNode)
    reads n`deleted, n`val
  {
    n.deleted || n.val.None?
  }

  /** `level` and `up` are used of head nodes only. */
  class IndexNode {
    const node: LNode
    const down: IndexNode?
    const level: nat
    var right: IndexNode?
    var up: IndexNode?

    constructor (node: LNode, down: IndexNode?, right: IndexNode?, level: nat)
      ensures this.node == node && this.down == down && this.right == right && this.level == level && up == null
    {
      this.node, this.down, this.right, this.level, up := node, down, right, level, null;
    }
  }

  type Row = seq<IndexNode>

  // ---------------------------------------------------------------- the shape, which pointers to the right do not touch

  ghost predicate Ascending(row: Row)
  {
    forall i, j :: 0 <= i < j < |row| ==> row[i].node.key < row[j].node.key
  }

  ghost predicate OnLevel(row: Row, l: nat)
  {
    forall x :: x in row ==> x.level == l
  }

  /** Every index node of `row` stands on one of `lower` for the same list node. */
  ghost predicate StandsOn(row: Row, lower: Row)
  {
    forall x :: x in row ==> x.down != null && x.down in lower && x.down.node == x.node
  }

  ghost predicate RowShape(levels: seq<Row>, head: LNode, l: nat)
    requires l < |levels|
  {
    && 0 < |levels[l]| && levels[l][0].node == head
    && Ascending(levels[l]) && OnLevel(levels[l], l)
    && if l == 0 then forall x :: x in levels[0] ==> x.down == null else StandsOn(levels[l], levels[l - 1])
  }

  /** Each level is a sorted row, and a sublist of the level below. */
  ghost predicate Shape(levels: seq<Row>, head: LNode)
  {
    0 < |levels| && forall l :: 0 <= l < |levels| ==> RowShape(levels, head, l)
  }

  function Removed(row: Row, k: nat): Row
    requires k < |row|
  {
    row[..k] + row[k + 1..]
  }

  function Inserted(row: Row, k: nat, x: IndexNode): Row
    requires k <= |row|
  {
    row[..k] + [x] + row[k..]
  }

  lemma RemovedIs(row: Row, k: nat)
    requires k < |row|
    ensures |Removed(row, k)| == |row| - 1
    ensures forall i :: 0 <= i < |row| - 1 ==> Removed(row, k)[i] == row[if i < k then i else i + 1]
    ensures forall x :: x in row && x != row[k] ==> x in Removed(row, k)
    ensures forall x :: x in Removed(row, k) ==> x in row
  {
    var s := Removed(row, k);
    assert forall i :: 0 <= i < |s| ==> s[i] == row[if i < k then i else i + 1];
    forall x | x in row && x != row[k] ensures x in s {
      var i :| 0 <= i < |row| && row[i] == x;
      assert s[if i < k then i else i - 1] == x;
    }
  }

  lemma InsertedIs(row: Row, k: nat, x: IndexNode)
    requires k <= |row|
    ensures |Inserted(row, k, x)| == |row| + 1
    ensures forall i :: 0 <= i <= |row| ==> Inserted(row, k, x)[i] == if i < k then row[i] else if i == k then x else row[i - 1]
    ensures forall y :: y in Inserted(row, k, x) <==> y in row || y == x
  {
    var s := Inserted(row, k, x);
    assert s[k] == x;
  }

  lemma RemoveKeepsShape(levels: seq<Row>, head: LNode, l: nat, k: nat)
    requires Shape(levels, head) && l < |levels| && 0 < k < |levels[l]|
    requires l + 1 < |levels| ==> forall x :: x in levels[l + 1] ==> x.down != levels[l][k]
    ensures Shape(levels[l := Removed(levels[l], k)], head)
  {
    var levels' := levels[l := Removed(levels[l], k)];
    RemovedIs(levels[l], k);
    hide Removed;
    forall m | 0 <= m < |levels'| ensures RowShape(levels', head, m) {
      assert RowShape(levels, head, m) && (m > 0 ==> RowShape(levels, head, m - 1));
    }
  }

  lemma InsertKeepsShape(levels: seq<Row>, head: LNode, l: nat, k: nat, x: IndexNode)
    requires Shape(levels, head) && l < |levels| && 0 < k <= |levels[l]| && x.level == l
    requires levels[l][k - 1].node.key < x.node.key && (k < |levels[l]| ==> x.node.key < levels[l][k].node.key)
    requires if l == 0 then x.down == null else x.down != null && x.down in levels[l - 1] && x.down.node == x.node
    ensures Shape(levels[l := Inserted(levels[l], k, x)], head)
  {
    var levels' := levels[l := Inserted(levels[l], k, x)];
    InsertedIs(levels[l], k, x);
    hide Inserted;
    forall m | 0 <= m < |levels'| ensures RowShape(levels', head, m) {
      assert RowShape(levels, head, m) && (m > 0 ==> RowShape(levels, head, m - 1));
      if m == l { InsertKeepsOrder(levels[l], k, x); }
    }
  }

  lemma InsertKeepsOrder(row: Row, k: nat, x: IndexNode)
    requires Ascending(row) && 0 < k <= |row|
    requires row[k - 1].node.key < x.node.key && (k < |row| ==> x.node.key < row[k].node.key)
    ensures Ascending(Inserted(row, k, x))
  {
    InsertedIs(row, k, x);
    hide Inserted;
    var s := Inserted(row, k, x);
    forall i, j | 0 <= i < j < |s| ensures s[i].node.key < s[j].node.key {
      if i < k { assert row[i].node.key <= row[k - 1].node.key; }
      if j > k { assert row[k].node.key <= row[j - 1].node.key; }
    }
  }

  lemma GrowKeepsShape(levels: seq<Row>, head: LNode, h: IndexNode, x: IndexNode)
    requires Shape(levels, head) && h.level == x.level == |levels| && h.node == head && head.key < x.node.key
    requires RowShape(levels, head, |levels| - 1) && h.down == levels[|levels| - 1][0] && x.down != null && x.down in levels[|levels| - 1] && x.down.node == x.node
    ensures Shape(levels + [[h, x]], head)
  {
    var levels' := levels + [[h, x]];
    forall m | 0 <= m < |levels'| ensures RowShape(levels', head, m) {
      if m < |levels| { assert RowShape(levels, head, m); } else { assert RowShape(levels, head, m - 1); }
    }
  }

  lemma ShrinkKeepsShape(levels: seq<Row>, head: LNode)
    requires Shape(levels, head) && 1 < |levels|
    ensures Shape(levels[..|levels| - 1], head)
  {
    var levels' := levels[..|levels| - 1];
    forall m | 0 <= m < |levels'| ensures RowShape(levels', head, m) { assert RowShape(levels, head, m); }
  }

  /** An upper level holds a list node only if the bottom level does. */
  lemma {:induction false} InBottom(levels: seq<Row>, head: LNode, l: nat, x: IndexNode)
    requires Shape(levels, head) && l < |levels| && x in levels[l]
    ensures exists y :: y in levels[0] && y.node == x.node
  {
    assert RowShape(levels, head, l);
    if l > 0 { InBottom(levels, head, l - 1, x.down); }
  }

  /** The head's index nodes stand on each other. */
  lemma HeadsStand(levels: seq<Row>, head: LNode, l: nat)
    requires Shape(levels, head) && 0 < l < |levels|
    ensures RowShape(levels, head, l) && RowShape(levels, head, l - 1) && levels[l][0].down == levels[l - 1][0]
  {
    assert RowShape(levels, head, l) && RowShape(levels, head, l - 1);
    var y := levels[l][0].down;
    var i :| 0 <= i < |levels[l - 1]| && levels[l - 1][i] == y;
  }

  // ---------------------------------------------------------------- the links

  ghost function Cells(levels: seq<Row>): set<IndexNode>
  {
    set l, x | 0 <= l < |levels| && x in levels[l] :: x
  }

  function Next(row: Row, i: nat): IndexNode? { if i + 1 < |row| then row[i + 1] else null }

  predicate RightAt(row: Row, i: nat)
    requires i < |row|
    reads {row[i]}`right
  {
    row[i].right == Next(row, i)
  }

  /** `q` is in `row` at place `i` only, and all the others are linked. */
  ghost predicate LinkedBut(row: Row, i: nat, q: IndexNode)
    reads row`right
  {
    forall k {:trigger RightAt(row, k)} :: 0 <= k < |row| && k != i ==> row[k] != q && RightAt(row, k)
  }

  ghost predicate Linked(levels: seq<Row>)
    reads Cells(levels)`right
  {
    forall l, i {:trigger RightAt(levels[l], i)} :: 0 <= l < |levels| && 0 <= i < |levels[l]| ==> levels[l][i] in levels[l] && RightAt(levels[l], i)
  }

  predicate UpAt(levels: seq<Row>, l: nat)
    requires l < |levels| && forall m :: 0 <= m < |levels| ==> 0 < |levels[m]|
    reads {levels[l][0]}`up
  {
    levels[l][0].up == if l + 1 < |levels| then levels[l + 1][0] else null
  }

  ghost predicate HeadsLinked(levels: seq<Row>)
    requires forall m :: 0 <= m < |levels| ==> 0 < |levels[m]|
    reads Cells(levels)`up
  {
    forall l {:trigger UpAt(levels, l)} :: 0 <= l < |levels| ==> levels[l][0] in levels[l] && UpAt(levels, l)
  }

  // ---------------------------------------------------------------- places of a key, given which list nodes are gone

  /** Where a key belongs on a level: behind a live node with a smaller key, before a live one with no smaller key. */
  ghost predicate PointAt(gone: set<LNode>, row: Row, i: nat, prev: IndexNode, next: IndexNode?, key: nat)
  {
    && i < |row| && prev == row[i] && next == Next(row, i) && prev.node.key < key && prev.node !in gone
    && (next != null ==> next.node !in gone && key <= next.node.key)
  }

  /** `b` is `a` without some gone nodes. */
  ghost predicate Trimmed(gone: set<LNode>, a: Row, b: Row)
  {
    (forall x :: x in b ==> x in a) && (forall x :: x in a && x.node !in gone ==> x in b)
  }

  /** Where a key belongs on the levels from `l` up. */
  ghost predicate Places(gone: set<LNode>, levels: seq<Row>, l: nat, prevs: seq<IndexNode>, nexts: seq<IndexNode?>, at: seq<nat>, key: nat)
  {
    && |prevs| == |nexts| == |at| == |levels|
    && forall m :: l <= m < |levels| ==> PointAt(gone, levels[m], at[m], prevs[m], nexts[m], key)
  }

  ghost predicate AllTrimmed(gone: set<LNode>, was: seq<Row>, levels: seq<Row>)
  {
    |levels| == |was| && forall m :: 0 <= m < |levels| ==> Trimmed(gone, was[m], levels[m])
  }

  ghost predicate SameElsewhere(was: seq<Row>, levels: seq<Row>, l: nat)
  {
    |levels| == |was| && forall m :: 0 <= m < |levels| && m != l ==> levels[m] == was[m]
  }

  /** `gone` holds the gone ones among the indexed list nodes. */
  ghost predicate Tells(gone: set<LNode>, levels: seq<Row>)
    reads set x | x in Cells(levels) :: x.node
  {
    forall x :: x in Cells(levels) ==> (Gone(x.node) <==> x.node in gone)
  }

  lemma TellsOf(gone: set<LNode>, levels: seq<Row>, l: nat, i: nat)
    requires Tells(gone, levels) && l < |levels| && i < |levels[l]|
    ensures Gone(levels[l][i].node) <==> levels[l][i].node in gone
  {
    assert levels[l][i] in levels[l];
    assert levels[l][i] in Cells(levels);
  }

  lemma PlacesStep(gone: set<LNode>, was: seq<Row>, levels: seq<Row>, l: nat, prevs: seq<IndexNode>, nexts: seq<IndexNode?>, at: seq<nat>,
                   key: nat, prev: IndexNode, next: IndexNode?, i: nat)
    requires Places(gone, was, l + 1, prevs, nexts, at, key) && l < |levels| && SameElsewhere(was, levels, l)
    requires PointAt(gone, levels[l], i, prev, next, key)
    ensures Places(gone, levels, l, prevs[l := prev], nexts[l := next], at[l := i], key)
  {
  }

  lemma NoPlaces(gone: set<LNode>, levels: seq<Row>, prevs: seq<IndexNode>, nexts: seq<IndexNode?>, at: seq<nat>, key: nat)
    requires |prevs| == |nexts| == |at| == |levels|
    ensures Places(gone, levels, |levels|, prevs, nexts, at, key)
  {
  }

  lemma TrimmedStep(gone: set<LNode>, first: seq<Row>, was: seq<Row>, levels: seq<Row>, l: nat)
    requires AllTrimmed(gone, first, was) && SameElsewhere(was, levels, l) && l < |levels| && Trimmed(gone, was[l], levels[l])
    ensures AllTrimmed(gone, first, levels)
  {
    forall m | 0 <= m < |levels| ensures Trimmed(gone, first[m], levels[m]) {
      assert Trimmed(gone, first[m], was[m]);
    }
  }

  lemma Nothing(gone: set<LNode>, levels: seq<Row>)
    ensures AllTrimmed(gone, levels, levels)
  {
  }

  lemma NothingTrimmed(gone: set<LNode>, row: Row)
    ensures Trimmed(gone, row, row)
  {
  }

  lemma TrimmedMore(gone: set<LNode>, a: Row, b: Row, k: nat)
    requires Trimmed(gone, a, b) && k < |b| && b[k].node in gone
    ensures Trimmed(gone, a, Removed(b, k)) && |Removed(b, k)| < |b|
  {
    RemovedIs(b, k);
  }

  /** A gone node between a row's nodes for the search is on no higher level: the walk up there has taken it out. */
  lemma NotStoodOn(gone: set<LNode>, levels: seq<Row>, head: LNode, l: nat, i: nat, j: nat, prev: IndexNode, next: IndexNode?, key: nat)
    requires Shape(levels, head) && l + 1 < |levels| && i + 1 < |levels[l]| && PointAt(gone, levels[l + 1], j, prev, next, key)
    requires prev.node.key <= levels[l][i].node.key < key && levels[l][i + 1].node in gone
    ensures forall x :: x in levels[l + 1] ==> x.down != levels[l][i + 1]
  {
    var r := levels[l][i + 1];
    assert RowShape(levels, head, l) && RowShape(levels, head, l + 1);
    if next != null {
      assert next in levels[l + 1] && next.down in levels[l] && next.down.node == next.node;
      var k :| 0 <= k < |levels[l]| && levels[l][k] == next.down;
      assert k > i;
      assert r.node.key <= next.node.key;
    }
    forall x | x in levels[l + 1] ensures x.down != r {
      var m :| 0 <= m < |levels[l + 1]| && levels[l + 1][m] == x;
      assert m <= j ==> x.node.key <= prev.node.key;
      assert m > j + 1 ==> r.node.key < x.node.key;
    }
  }

  /** A gone node is on no row on which the place of its key has been found. */
  lemma NotOnRow(gone: set<LNode>, levels: seq<Row>, head: LNode, l: nat, i: nat, prev: IndexNode, next: IndexNode?, n: LNode)
    requires Shape(levels, head) && l < |levels| && PointAt(gone, levels[l], i, prev, next, n.key) && n in gone
    ensures forall x :: x in levels[l] ==> x.node != n
  {
    assert RowShape(levels, head, l);
    forall x | x in levels[l] ensures x.node != n {
      var m :| 0 <= m < |levels[l]| && levels[l][m] == x;
    }
  }

  // ---------------------------------------------------------------- what the index knows

  ghost function LiveOn(gone: set<LNode>, row: Row): set<LNode>
  {
    set x | x in row && x.node !in gone :: x.node
  }

  lemma TrimmedLive(gone: set<LNode>, a: Row, b: Row)
    requires Trimmed(gone, a, b)
    ensures LiveOn(gone, a) == LiveOn(gone, b)
  {
  }

  lemma InsertedLive(gone: set<LNode>, row: Row, k: nat, x: IndexNode)
    requires k <= |row|
    ensures LiveOn(gone, Inserted(row, k, x)) == LiveOn(gone, row) + if x.node in gone then {} else {x.node}
  {
    InsertedIs(row, k, x);
    hide Inserted;
    var s := Inserted(row, k, x);
    forall n | n in LiveOn(gone, row) ensures n in LiveOn(gone, s) {
      var y :| y in row && y.node !in gone && y.node == n;
      assert y in s;
    }
    assert x in s;
  }

  /** The place found on the bottom level is the greatest live node below the key. */
  lemma PlaceIsGreatest(gone: set<LNode>, levels: seq<Row>, head: LNode, i: nat, prev: IndexNode, next: IndexNode?, key: nat)
    requires Shape(levels, head) && PointAt(gone, levels[0], i, prev, next, key)
    ensures prev.node in LiveOn(gone, levels[0])
    ensures forall n :: n in LiveOn(gone, levels[0]) && n.key < key ==> n.key <= prev.node.key
  {
    assert RowShape(levels, head, 0);
    assert prev in levels[0];
    forall n | n in LiveOn(gone, levels[0]) && n.key < key ensures n.key <= prev.node.key {
      var x :| x in levels[0] && x.node !in gone && x.node == n;
      var m :| 0 <= m < |levels[0]| && levels[0][m] == x;
    }
  }

  /** The rows below `ins` have got the new index nodes, the others are as before. */
  ghost predicate Grown(was: seq<Row>, levels: seq<Row>, ins: nat, at: seq<nat>, idxs: seq<IndexNode>)
  {
    && |levels| == |was| == |at| && ins <= |was| && ins <= |idxs|
    && (forall m :: 0 <= m < ins ==> at[m] < |was[m]| && levels[m] == Inserted(was[m], at[m] + 1, idxs[m]))
    && (forall m :: ins <= m < |was| ==> levels[m] == was[m])
  }

  ghost predicate NotOn(levels: seq<Row>, n: LNode)
  {
    forall l, x :: 0 <= l < |levels| && x in levels[l] ==> x.node != n
  }

  ghost predicate Stands(row: Row, n: LNode) { exists x :: x in row && x.node == n }

  /** The list node has an index node on the levels up to `top`, and on no others. */
  ghost predicate StandsUpTo(levels: seq<Row>, n: LNode, top: nat)
  {
    forall l {:trigger Stands(levels[l], n)} :: 0 <= l < |levels| ==> (Stands(levels[l], n) <==> l <= top)
  }

  /** Index nodes for `n` have come to the rows, and nothing has gone from them. */
  ghost predicate OnlyMore(was: seq<Row>, levels: seq<Row>, n: LNode)
  {
    |was| <= |levels| && forall l :: 0 <= l < |was| ==> (forall x :: x in was[l] ==> x in levels[l]) && forall x :: x in levels[l] ==> x in was[l] || x.node == n
  }

  /** The rows after an index node has been added for `n` on the levels up to `top`, the next new one included. */
  ghost predicate Raised(was: seq<Row>, levels: seq<Row>, n: LNode, top: nat)
  {
    |levels| == |was| + (if top >= |was| then 1 else 0) && StandsUpTo(levels, n, top) && OnlyMore(was, levels, n)
  }

  /** There are more than three levels, and only the head stands on the top three. */
  predicate Bare(ls: seq<Row>)
  {
    3 < |ls| && |ls[|ls| - 1]| == |ls[|ls| - 2]| == |ls[|ls| - 3]| == 1
  }

  lemma GrownRaised(was: seq<Row>, levels: seq<Row>, ins: nat, at: seq<nat>, idxs: seq<IndexNode>, n: LNode, top: nat)
    requires Grown(was, levels, ins, at, idxs) && NotOn(was, n) && ins == if top + 1 < |was| then top + 1 else |was|
    requires forall m :: 0 <= m < ins ==> idxs[m].node == n
    ensures StandsUpTo(levels, n, top) && OnlyMore(was, levels, n)
  {
    forall l | 0 <= l < |levels|
      ensures (Stands(levels[l], n) <==> l <= top)
      ensures (forall x :: x in was[l] ==> x in levels[l]) && forall x :: x in levels[l] ==> x in was[l] || x.node == n
    {
      if l < ins {
        InsertedIs(was[l], at[l] + 1, idxs[l]);
        assert idxs[l] in levels[l];
      }
    }
  }

  lemma TopRaised(was: seq<Row>, levels: seq<Row>, h: IndexNode, x: IndexNode, n: LNode, top: nat)
    requires StandsUpTo(levels, n, top) && OnlyMore(was, levels, n) && |was| == |levels| <= top && x.node == n
    ensures Raised(was, levels + [[h, x]], n, top)
  {
    var levels' := levels + [[h, x]];
    assert x in levels'[|levels|];
    forall l | 0 <= l < |levels'| ensures Stands(levels'[l], n) <==> l <= top { if l < |levels| { assert levels'[l] == levels[l]; } }
  }

  /** What comes after the place of a new key has a greater key, on every level. */
  lemma NextIsGreater(gone: set<LNode>, levels: seq<Row>, head: LNode, l: nat, i: nat, prev: IndexNode, next: IndexNode?, key: nat)
    requires Shape(levels, head) && l < |levels| && PointAt(gone, levels[l], i, prev, next, key)
    requires forall n :: n in LiveOn(gone, levels[0]) ==> n.key != key
    ensures next != null ==> key < next.node.key
  {
    if next != null {
      assert next in levels[l];
      InBottom(levels, head, l, next);
      var y :| y in levels[0] && y.node == next.node;
      assert next.node in LiveOn(gone, levels[0]);
    }
  }

  // ---------------------------------------------------------------- the index

  class Index {
    const head: LNode
    const headBottom: IndexNode
    var headTop: IndexNode
    ghost var levels: seq<Row>

    ghost predicate Valid()
      reads `headTop, `levels, Cells(levels)
    {
      && Shape(levels, head)
      && (forall l :: 0 <= l < |levels| ==> 0 < |levels[l]|)
      && Linked(levels) && HeadsLinked(levels)
      && headTop == levels[|levels| - 1][0] && headBottom == levels[0][0]
    }

    /** The live list nodes that the index knows: those on its bottom level. */
    ghost function Live(): set<LNode>
      reads `levels, if levels == [] then {} else set x | x in levels[0] :: x.node
    {
      if levels == [] then {} else set x | x in levels[0] && !Gone(x.node) :: x.node
    }

    constructor (head: LNode)
      requires !Gone(head)
      ensures Valid() && this.head == head && Live() == {head}
    {
      var h := new IndexNode(head, null, null, 0);
      this.head, headBottom, headTop, levels := head, h, h, [[h]];
      new;
      assert RowShape(levels, head, 0);
      assert RightAt(levels[0], 0) && UpAt(levels, 0);
    }

    /** Redirect a node's pointer, which makes `row` level `l`. */
    method SetRight(q: IndexNode, target: IndexNode?, ghost l: nat, ghost i: nat, ghost row: Row)
      requires Linked(levels) && (forall m :: 0 <= m < |levels| ==> 0 < |levels[m]|) && HeadsLinked(levels)
      requires l < |levels| && i < |row| && q == row[i] && target == Next(row, i) && row[0] == levels[l][0]
      requires LinkedBut(row, i, q)
      requires forall m :: 0 <= m < |levels| && m != l ==> q !in levels[m]
      modifies this`levels, q`right
      ensures levels == old(levels)[l := row] && Linked(levels) && (forall m :: 0 <= m < |levels| ==> 0 < |levels[m]|) && HeadsLinked(levels)
    {
      q.right := target;
      levels := levels[l := row];
      forall m, k | 0 <= m < |levels| && 0 <= k < |levels[m]| ensures RightAt(levels[m], k) {
        if m != l { assert old(RightAt(levels[m], k)); } else if k != i { assert old(RightAt(row, k)) && row[k] != q; }
      }
      forall m | 0 <= m < |levels| ensures UpAt(levels, m) { assert old(UpAt(levels, m)); }
    }

    /** An index node is on one row and at one place only. */
    lemma Elsewhere(l: nat, i: nat)
      requires Shape(levels, head) && l < |levels| && i < |levels[l]|
      ensures forall m :: 0 <= m < |levels| && m != l ==> levels[l][i] !in levels[m]
      ensures forall k :: 0 <= k < |levels[l]| && k != i ==> levels[l][k] != levels[l][i]
    {
      assert RowShape(levels, head, l);
      forall m | 0 <= m < |levels| && m != l ensures levels[l][i] !in levels[m] { assert RowShape(levels, head, m); }
    }

    lemma RemovedRights(l: nat, i: nat)
      requires Linked(levels) && l < |levels| && i + 1 < |levels[l]|
      requires forall k :: 0 <= k < |levels[l]| && k != i ==> levels[l][k] != levels[l][i]
      ensures Next(Removed(levels[l], i + 1), i) == levels[l][i + 1].right
      ensures LinkedBut(Removed(levels[l], i + 1), i, levels[l][i])
    {
      var row := Removed(levels[l], i + 1);
      RemovedIs(levels[l], i + 1);
      hide Removed;
      assert RightAt(levels[l], i + 1);
      forall k | 0 <= k < |row| && k != i ensures row[k] != levels[l][i] && RightAt(row, k) { assert RightAt(levels[l], if k < i then k else k + 1); }
    }

    /** Take the node behind `q` out of its row. */
    method Unlink(q: IndexNode, succ: IndexNode, ghost l: nat, ghost i: nat)
      requires Valid() && l < |levels| && i + 1 < |levels[l]| && q == levels[l][i] && succ == levels[l][i + 1]
      requires l + 1 < |levels| ==> forall x :: x in levels[l + 1] ==> x.down != succ
      modifies this`levels, q`right
      ensures Valid() && levels == old(levels)[l := Removed(old(levels)[l], i + 1)]
    {
      hide Shape, Removed, Linked, HeadsLinked;
      RemoveKeepsShape(levels, head, l, i + 1);
      RemovedIs(levels[l], i + 1);
      Elsewhere(l, i);
      RemovedRights(l, i);
      SetRight(q, succ.right, l, i, Removed(levels[l], i + 1));
    }

    /** Unlink a gone node met on the way. */
    method Purge(q: IndexNode, r: IndexNode, key: nat, ghost gone: set<LNode>, ghost l: nat, ghost i: nat,
                 ghost j: nat, ghost prev: IndexNode, ghost next: IndexNode?)
      requires Valid() && l < |levels| && i + 1 < |levels[l]| && q == levels[l][i] && r == levels[l][i + 1] && r.node in gone && q.node.key < key
      requires l + 1 < |levels| ==> PointAt(gone, levels[l + 1], j, prev, next, key) && prev.node.key <= q.node.key
      requires Tells(gone, levels)
      modifies `levels, q`right
      ensures Valid() && levels == old(levels)[l := Removed(old(levels)[l], i + 1)] && Cells(levels) <= Cells(old(levels))
      ensures Tells(gone, levels)
    {
      if l + 1 < |levels| { NotStoodOn(gone, levels, head, l, i, j, prev, next, key); }
      RemovedIs(levels[l], i + 1);
      Unlink(q, r, l, i);
    }

    /** Walk along a level to the place of a key, unlinking gone nodes on the way. On the level above, the node
        `above[j]` for the same list node, or an earlier one, is where the key belongs. */
    method WalkLevel(start: IndexNode, key: nat, ghost gone: set<LNode>, ghost l: nat, ghost s: nat,
                     ghost j: nat, ghost prev: IndexNode, ghost next: IndexNode?)
      returns (q: IndexNode, r: IndexNode?, ghost i: nat)
      requires Valid() && Tells(gone, levels) && l < |levels| && s < |levels[l]| && start == levels[l][s] && start.node !in gone && start.node.key < key
      requires l + 1 < |levels| ==> PointAt(gone, levels[l + 1], j, prev, next, key) && prev.node.key <= start.node.key
      modifies `levels, Cells(levels)`right
      ensures Valid() && SameElsewhere(old(levels), levels, l) && Cells(levels) <= Cells(old(levels)) && Tells(gone, levels)
      ensures PointAt(gone, levels[l], i, q, r, key) && Trimmed(gone, old(levels)[l], levels[l])
    {
      hide Valid, Removed, Tells, Cells, Trimmed;
      NothingTrimmed(gone, levels[l]);
      q, i := start, s;
      Rights(l, i);
      r := q.right;
      while r != null
        invariant Valid() && SameElsewhere(old(levels), levels, l) && Trimmed(gone, old(levels)[l], levels[l])
        invariant Cells(levels) <= Cells(old(levels)) && Tells(gone, levels)
        invariant i < |levels[l]| && q == levels[l][i] && r == Next(levels[l], i) && q in Cells(levels)
        invariant q.node !in gone && start.node.key <= q.node.key < key
        decreases |levels[l]| - i
      {
        Rights(l, i + 1);
        TellsOf(gone, levels, l, i + 1);
        if Gone(r.node) {
          TrimmedMore(gone, old(levels)[l], levels[l], i + 1);
          ghost var before := levels;
          Purge(q, r, key, gone, l, i, j, prev, next);
          RemovedIs(before[l], i + 1);
        } else if key > r.node.key {
          q, i := r, i + 1;
        } else {
          break;
        }
        Rights(l, i);
        r := q.right;
      }
    }

    lemma Rights(l: nat, i: nat)
      requires Valid() && l < |levels| && i < |levels[l]|
      ensures levels[l][i].right == Next(levels[l], i) && levels[l][i] in Cells(levels)
      ensures i > 0 ==> levels[l][i - 1].node.key < levels[l][i].node.key
    {
      assert RightAt(levels[l], i) && RowShape(levels, head, l);
    }

    // -------------------------------------------------------------- the places on all levels

    /** The head is never deleted. */
    predicate HeadLive()
      reads head
    {
      !Gone(head)
    }

    lemma TopRow()
      requires Valid()
      ensures headTop == levels[|levels| - 1][0] && headTop.level == |levels| - 1 && headTop.node == head
    {
      assert RowShape(levels, head, |levels| - 1);
    }

    lemma Below(l: nat, x: IndexNode) returns (s: nat)
      requires Valid() && l < |levels| && x in levels[l]
      ensures x.down == null <==> l == 0
      ensures l > 0 ==> s < |levels[l - 1]| && levels[l - 1][s] == x.down && x.down.node == x.node
    {
      assert RowShape(levels, head, l);
      s := 0;
      if l > 0 { s :| 0 <= s < |levels[l - 1]| && levels[l - 1][s] == x.down; }
    }

    /** The search on the levels above `level` is done, and `curr` is where it goes on. */
    ghost predicate Searching(gone: set<LNode>, was: seq<Row>, level: nat, s: nat, curr: IndexNode,
                              prevs: seq<IndexNode>, nexts: seq<IndexNode?>, at: seq<nat>, key: nat)
      reads `levels
    {
      && level < |levels| && s < |levels[level]| && levels[level][s] == curr && curr.node !in gone && curr.node.key < key
      && Places(gone, levels, level + 1, prevs, nexts, at, key)
      && (level + 1 < |levels| ==> prevs[level + 1].node == curr.node)
      && AllTrimmed(gone, was, levels) && Cells(levels) <= Cells(was)
    }

    method SearchLevel(curr: IndexNode, level: nat, key: nat, prevs: seq<IndexNode>, nexts: seq<IndexNode?>,
                       ghost gone: set<LNode>, ghost was: seq<Row>, ghost s: nat, ghost at: seq<nat>)
      returns (prevs': seq<IndexNode>, nexts': seq<IndexNode?>, down: IndexNode?, ghost s': nat, ghost at': seq<nat>)
      requires Valid() && Tells(gone, levels) && Searching(gone, was, level, s, curr, prevs, nexts, at, key) && |prevs| == |nexts| == |levels|
      modifies `levels, Cells(levels)`right
      ensures Valid() && Tells(gone, levels) && |prevs'| == |nexts'| == |levels| && Cells(levels) <= Cells(was)
      ensures down == null <==> level == 0
      ensures level > 0 ==> Searching(gone, was, level - 1, s', down, prevs', nexts', at', key)
      ensures level == 0 ==> AllTrimmed(gone, was, levels) && Places(gone, levels, 0, prevs', nexts', at', key)
    {
      hide Valid, Trimmed, Cells, Tells, AllTrimmed;
      ghost var j: nat, above: IndexNode, beyond: IndexNode? := 0, curr, null;
      if level + 1 < |levels| { j, above, beyond := at[level + 1], prevs[level + 1], nexts[level + 1]; }
      var prev, next;
      ghost var i, before := 0, levels;
      prev, next, i := WalkLevel(curr, key, gone, level, s, j, above, beyond);
      TrimmedStep(gone, was, before, levels, level);
      PlacesStep(gone, before, levels, level, prevs, nexts, at, key, prev, next, i);
      hide Places;
      prevs', nexts', at' := prevs[level := prev], nexts[level := next], at[level := i];
      s' := Below(level, prev);
      down := prev.down;
    }

    method StartSearch(key: nat, ghost gone: set<LNode>) returns (level: nat, prevs: seq<IndexNode>, nexts: seq<IndexNode?>, ghost at: seq<nat>)
      requires Valid() && Tells(gone, levels) && HeadLive() && head.key < key
      ensures Valid() && Tells(gone, levels) && |prevs| == |nexts| == |levels| && Searching(gone, levels, level, 0, headTop, prevs, nexts, at, key)
    {
      TopRow();
      Rights(|levels| - 1, 0);
      TellsOf(gone, levels, |levels| - 1, 0);
      Nothing(gone, levels);
      hide Valid, Cells, Tells, AllTrimmed, Places;
      var top := headTop;
      level := top.level;
      prevs, nexts, at := seq(level + 1, _ => top), seq(level + 1, _ => null), seq(level + 1, _ => 0);
      NoPlaces(gone, levels, prevs, nexts, at, key);
    }

    /** The places of a key on all levels, top down. No live node leaves the index, and no walk has to start again. */
    method FindInsertionPoints(key: nat, ghost gone: set<LNode>) returns (prevs: seq<IndexNode>, nexts: seq<IndexNode?>, ghost at: seq<nat>)
      requires Valid() && Tells(gone, levels) && HeadLive() && head.key < key
      modifies `levels, Cells(levels)`right
      ensures Valid() && Tells(gone, levels) && Cells(levels) <= Cells(old(levels))
      ensures AllTrimmed(gone, old(levels), levels) && Places(gone, levels, 0, prevs, nexts, at, key)
    {
      hide Valid, Cells, Tells, AllTrimmed, Places, Searching;
      var level: nat, found := 0, false;
      level, prevs, nexts, at := StartSearch(key, gone);
      var curr: IndexNode := headTop;
      ghost var s: nat := 0;
      while !found
        invariant Valid() && Tells(gone, levels) && |prevs| == |nexts| == |levels| && Cells(levels) <= Cells(old(levels))
        invariant !found ==> Searching(gone, old(levels), level, s, curr, prevs, nexts, at, key)
        invariant found ==> AllTrimmed(gone, old(levels), levels) && Places(gone, levels, 0, prevs, nexts, at, key)
        decreases level, !found
      {
        var down;
        prevs, nexts, down, s, at := SearchLevel(curr, level, key, prevs, nexts, gone, old(levels), s, at);
        if down == null {
          found := true;
        } else {
          curr, level := down, level - 1;
        }
      }
    }

    // -------------------------------------------------------------- the operations

    /** Which of the indexed list nodes are gone now. */
    ghost function GoneOnes(): (gone: set<LNode>)
      reads `levels, set x | x in Cells(levels) :: x.node
      ensures Tells(gone, levels)
    {
      set x | x in Cells(levels) && Gone(x.node) :: x.node
    }

    /** ... `n` included, if it is. */
    ghost function GoneAnd(n: LNode): (gone: set<LNode>)
      reads `levels, n, set x | x in Cells(levels) :: x.node
      ensures Tells(gone, levels) && (Gone(n) <==> n in gone)
    {
      GoneOnes() + if Gone(n) then {n} else {}
    }

    lemma LiveIs(gone: set<LNode>)
      requires Valid() && Tells(gone, levels)
      ensures Live() == LiveOn(gone, levels[0])
    {
      forall x | x in levels[0] ensures Gone(x.node) <==> x.node in gone {
        assert x in Cells(levels[0..1]);
        var i :| 0 <= i < |levels[0]| && levels[0][i] == x;
        TellsOf(gone, levels, 0, i);
      }
    }

    /** The live indexed node of the greatest key below `key`: the head, if no other. */
    method GetPred(key: nat) returns (pred: LNode)
      requires Valid() && HeadLive() && head.key < key
      modifies `levels, Cells(levels)`right
      ensures Valid() && Live() == old(Live())
      ensures pred in Live() && pred.key < key && forall n :: n in Live() && n.key < key ==> n.key <= pred.key
      ensures AllTrimmed(old(GoneOnes()), old(levels), levels)
    {
      ghost var gone, was := GoneOnes(), levels;
      LiveIs(gone);
      hide Valid, Tells, Live, Cells;
      var prevs, nexts;
      ghost var at;
      prevs, nexts, at := FindInsertionPoints(key, gone);
      LiveIs(gone);
      BottomLive(gone, was);
      BottomPlace(gone, prevs, nexts, at, key);
      pred := prevs[0].node;
    }

    lemma BottomLive(gone: set<LNode>, was: seq<Row>)
      requires Valid() && AllTrimmed(gone, was, levels)
      ensures LiveOn(gone, was[0]) == LiveOn(gone, levels[0])
    {
      assert Trimmed(gone, was[0], levels[0]);
      TrimmedLive(gone, was[0], levels[0]);
    }

    lemma BottomPlace(gone: set<LNode>, prevs: seq<IndexNode>, nexts: seq<IndexNode?>, at: seq<nat>, key: nat)
      requires Valid() && Places(gone, levels, 0, prevs, nexts, at, key)
      ensures prevs[0].node in LiveOn(gone, levels[0]) && prevs[0].node.key < key
      ensures forall n :: n in LiveOn(gone, levels[0]) && n.key < key ==> n.key <= prevs[0].node.key
    {
      PlaceIsGreatest(gone, levels, head, at[0], prevs[0], nexts[0], key);
    }

    /** Take away an empty top level. */
    method TryReduceLevel()
      requires Valid()
      modifies `headTop, `levels, Cells(levels)`up
      ensures Valid() && levels == if Bare(old(levels)) then old(levels)[..|old(levels)| - 1] else old(levels)
    {
      TopRow();
      var h := headTop;
      if h.level < 3 { return; }
      ghost var top := |levels| - 1;
      HeadsStand(levels, head, top);
      HeadsStand(levels, head, top - 1);
      var d := h.down;
      var e := d.down;
      HeadRight(top);
      HeadRight(top - 1);
      HeadRight(top - 2);
      if e.right == null && d.right == null && h.right == null {
        LevelDown(d);
        assert h.right == null;
      }
    }

    lemma HeadRight(l: nat)
      requires Valid() && l < |levels|
      ensures 0 < |levels[l]| && (levels[l][0].right == null <==> |levels[l]| == 1)
    {
      assert RightAt(levels[l], 0);
    }

    method LevelDown(d: IndexNode)
      requires Valid() && 1 < |levels| && d == levels[|levels| - 2][0]
      modifies `headTop, `levels, d`up
      ensures Valid() && levels == old(levels)[..|old(levels)| - 1]
    {
      ShrinkKeepsShape(levels, head);
      ghost var was := levels;
      Elsewhere(|levels| - 2, 0);
      d.up := null;
      headTop := d;
      levels := levels[..|levels| - 1];
      hide Shape;
      forall m, k | 0 <= m < |levels| && 0 <= k < |levels[m]| ensures RightAt(levels[m], k) { assert old(RightAt(levels[m], k)); }
      forall m | 0 <= m < |levels| ensures UpAt(levels, m) {
        assert old(UpAt(levels, m));
        assert m < |levels| - 1 ==> levels[m][0] in was[m];
      }
    }

    ghost predicate Without(n: LNode)
      reads `levels
    {
      NotOn(levels, n)
    }

    /** The search for a gone list node's key takes it out of every level. */
    method Clean(n: LNode, ghost gone: set<LNode>)
      requires Valid() && Tells(gone, levels) && HeadLive() && head.key < n.key && n in gone
      modifies `levels, Cells(levels)`right
      ensures Valid() && Tells(gone, levels) && Cells(levels) <= Cells(old(levels)) && AllTrimmed(gone, old(levels), levels)
      ensures Without(n)
    {
      hide Tells, Cells;
      var prevs, nexts;
      ghost var at;
      prevs, nexts, at := FindInsertionPoints(n.key, gone);
      forall l | 0 <= l < |levels| ensures forall x :: x in levels[l] ==> x.node != n {
        NotOnRow(gone, levels, head, l, at[l], prevs[l], nexts[l], n);
      }
    }

    /** After the removal of a gone list node no index node is left for it; nothing live is lost. */
    method Remove(n: LNode) returns (ghost cleaned: seq<Row>)
      requires Valid() && HeadLive() && head.key < n.key && Gone(n)
      modifies `headTop, `levels, Cells(levels)
      ensures Valid() && Live() == old(Live()) && Without(n)
      ensures AllTrimmed(old(GoneAnd(n)), old(levels), cleaned) && levels == if Bare(cleaned) then cleaned[..|cleaned| - 1] else cleaned
    {
      ghost var gone, was := GoneAnd(n), levels;
      LiveIs(gone);
      hide Valid, Tells, Live, Cells, NotOn, AllTrimmed, Bare;
      Clean(n, gone);
      BottomLive(gone, was);
      LiveIs(gone);
      cleaned := levels;
      Bottom();
      if headTop.right == null {
        TryReduceLevel();
        BareLeaves(cleaned);
        LiveSame(gone, cleaned);
      }
      StillWithout(cleaned, n);
    }

    /** A top level with more than the head on it is not bare. */
    lemma Bottom()
      requires Valid()
      ensures 0 < |levels| && (headTop.right != null ==> !Bare(levels))
    {
      HeadRight(|levels| - 1);
    }

    lemma BareLeaves(was: seq<Row>)
      requires levels == if Bare(was) then was[..|was| - 1] else was
      ensures levels == was || (1 < |was| && levels == was[..|was| - 1])
    {
    }

    lemma StillWithout(was: seq<Row>, n: LNode)
      requires NotOn(was, n) && levels == if Bare(was) then was[..|was| - 1] else was
      ensures Without(n)
    {
    }

    lemma LiveSame(gone: set<LNode>, was: seq<Row>)
      requires Valid() && Tells(gone, was) && 0 < |levels| && (levels == was || (1 < |was| && levels == was[..|was| - 1]))
      ensures Live() == LiveOn(gone, was[0])
    {
      forall x | x in Cells(levels) ensures x in Cells(was) {
        var l :| 0 <= l < |levels| && x in levels[l];
        assert x in was[l];
      }
      LiveIs(gone);
    }

    // -------------------------------------------------------------- adding

    /** The new index nodes, one for each level up to `level`, each standing on the one before. */
    ghost predicate Tower(idxs: seq<IndexNode>, n: LNode)
    {
      forall i {:trigger Storey(idxs, n, i)} :: 0 <= i < |idxs| ==> Storey(idxs, n, i)
    }

    predicate Storey(idxs: seq<IndexNode>, n: LNode, i: nat)
      requires i < |idxs|
    {
      idxs[i].node == n && idxs[i].level == i && idxs[i].down == if i == 0 then null else idxs[i - 1]
    }

    method CreateNewIndexNode(n: LNode, level: nat) returns (idxs: seq<IndexNode>)
      ensures |idxs| == level + 1 && Tower(idxs, n) && forall x :: x in idxs ==> fresh(x) && x.right == null
    {
      idxs := [];
      var idx: IndexNode? := null;
      while |idxs| < level + 1
        invariant |idxs| <= level + 1 && Tower(idxs, n) && (forall x :: x in idxs ==> fresh(x) && x.right == null)
        invariant idx == if idxs == [] then null else idxs[|idxs| - 1]
      {
        ghost var before := idxs;
        var x := new IndexNode(n, idx, null, |idxs|);
        idx := x;
        idxs := idxs + [x];
        forall i | 0 <= i < |idxs| ensures Storey(idxs, n, i) {
          if i < |before| { assert Storey(before, n, i) && idxs[i] == before[i] && (i > 0 ==> idxs[i - 1] == before[i - 1]); }
        }
      }
    }

    lemma InsertedRights(l: nat, i: nat, x: IndexNode, row: Row)
      requires Linked(levels) && l < |levels| && i < |levels[l]| && x.right == Next(levels[l], i) && x !in levels[l]
      requires forall k :: 0 <= k < |levels[l]| && k != i ==> levels[l][k] != levels[l][i]
      requires row == Inserted(levels[l], i + 1, x)
      ensures i < |row| && Next(row, i) == x && row[i] == levels[l][i] && row[0] == levels[l][0]
      ensures LinkedBut(row, i, levels[l][i])
    {
      InsertedIs(levels[l], i + 1, x);
      hide Inserted;
      forall k | 0 <= k < |row| && k != i ensures row[k] != levels[l][i] && RightAt(row, k) {
        if k <= i { assert RightAt(levels[l], k); } else if k > i + 1 { assert RightAt(levels[l], k - 1); }
      }
    }

    /** Link a new index node behind `prev`. On one thread the compare-and-swap cannot fail. */
    method LinkIn(x: IndexNode, prev: IndexNode, next: IndexNode?, ghost gone: set<LNode>, ghost l: nat, ghost i: nat)
      requires Valid() && l < |levels| && PointAt(gone, levels[l], i, prev, next, x.node.key) && (next != null ==> x.node.key < next.node.key)
      requires x !in Cells(levels) && x.level == l
      requires if l == 0 then x.down == null else x.down != null && x.down in levels[l - 1] && x.down.node == x.node
      modifies `levels, prev`right, x`right
      ensures Valid() && levels == old(levels)[l := Inserted(old(levels)[l], i + 1, x)]
    {
      hide Shape, Inserted, HeadsLinked;
      InsertKeepsShape(levels, head, l, i + 1, x);
      Elsewhere(l, i);
      Rights(l, i);
      assert x !in levels[l] && prev == levels[l][i] && next == Next(levels[l], i);
      ghost var row := Inserted(levels[l], i + 1, x);
      x.right := next;
      assert Linked(levels) && HeadsLinked(levels);
      InsertedRights(l, i, x, row);
      hide Linked, PointAt, LinkedBut;
      SetRight(prev, x, l, i, row);
    }

    lemma HeadAt(l: nat)
      requires Valid() && l < |levels|
      ensures 0 < |levels[l]| && headBottom == levels[0][0] && levels[l][0].level == l
      ensures levels[l][0].up == if l + 1 < |levels| then levels[l + 1][0] else null
    {
      assert RowShape(levels, head, l) && UpAt(levels, l);
    }

    /** What is asked of the new index nodes and the places found for them. */
    ghost predicate Inserting(was: seq<Row>, n: LNode, gone: set<LNode>, idxs: seq<IndexNode>, prevs: seq<IndexNode>,
                              nexts: seq<IndexNode?>, at: seq<nat>)
    {
      && Places(gone, was, 0, prevs, nexts, at, n.key) && Tower(idxs, n)
      && (forall m :: 0 <= m < |was| && nexts[m] != null ==> n.key < nexts[m].node.key)
      && (forall x :: x in idxs ==> x !in Cells(was))
    }

    method InsertInLevel(ghost was: seq<Row>, n: LNode, ghost gone: set<LNode>, idxs: seq<IndexNode>, prevs: seq<IndexNode>,
                         nexts: seq<IndexNode?>, ghost at: seq<nat>, h: IndexNode, ghost ins: nat)
      returns (up: IndexNode?)
      requires Valid() && Inserting(was, n, gone, idxs, prevs, nexts, at) && Grown(was, levels, ins, at, idxs)
      requires ins < |levels| && ins < |idxs| && 0 < |levels[ins]| && h == levels[ins][0]
      modifies `levels, {prevs[ins], idxs[ins]}`right
      ensures Valid() && Grown(was, levels, ins + 1, at, idxs)
      ensures if ins + 1 < |levels| then 0 < |levels[ins + 1]| && up == levels[ins + 1][0] else up == null
    {
      HeadAt(ins);
      Fits(was, n, gone, idxs, prevs, nexts, at, ins);
      hide Valid, Inserted, Cells, PointAt, Inserting;
      LinkIn(idxs[h.level], prevs[h.level], nexts[h.level], gone, ins, at[ins]);
      UpFrom(was, at, idxs, h, ins);
      up := h.up;
    }

    lemma Fits(was: seq<Row>, n: LNode, gone: set<LNode>, idxs: seq<IndexNode>, prevs: seq<IndexNode>, nexts: seq<IndexNode?>,
               at: seq<nat>, ins: nat)
      requires Inserting(was, n, gone, idxs, prevs, nexts, at) && Grown(was, levels, ins, at, idxs) && ins < |levels| && ins < |idxs|
      ensures |prevs| == |nexts| == |at| == |levels| && PointAt(gone, levels[ins], at[ins], prevs[ins], nexts[ins], n.key)
      ensures (nexts[ins] != null ==> n.key < nexts[ins].node.key) && idxs[ins] !in Cells(levels)
      ensures idxs[ins].node == n && idxs[ins].level == ins
      ensures if ins == 0 then idxs[ins].down == null
              else idxs[ins].down != null && idxs[ins].down in levels[ins - 1] && idxs[ins].down.node == n
    {
      NotYetIn(was, n, gone, idxs, prevs, nexts, at, ins);
      assert Storey(idxs, n, ins);
      if ins > 0 {
        assert Storey(idxs, n, ins - 1);
        InsertedIs(was[ins - 1], at[ins - 1] + 1, idxs[ins - 1]);
      }
      assert PointAt(gone, was[ins], at[ins], prevs[ins], nexts[ins], n.key);
    }

    lemma UpFrom(was: seq<Row>, at: seq<nat>, idxs: seq<IndexNode>, h: IndexNode, ins: nat)
      requires Valid() && Grown(was, levels, ins + 1, at, idxs) && ins < |was| && 0 < |was[ins]| && was[ins][0] == h
      ensures if ins + 1 < |levels| then 0 < |levels[ins + 1]| && h.up == levels[ins + 1][0] else h.up == null
    {
      InsertedIs(was[ins], at[ins] + 1, idxs[ins]);
      HeadAt(ins);
    }

    lemma NotYetIn(was: seq<Row>, n: LNode, gone: set<LNode>, idxs: seq<IndexNode>, prevs: seq<IndexNode>, nexts: seq<IndexNode?>,
                   at: seq<nat>, ins: nat)
      requires Inserting(was, n, gone, idxs, prevs, nexts, at) && Grown(was, levels, ins, at, idxs) && ins < |levels| && ins < |idxs|
      ensures idxs[ins] !in Cells(levels)
    {
      forall m | 0 <= m < |levels| ensures idxs[ins] !in levels[m] {
        assert idxs[ins] in idxs && (idxs[ins] in was[m] ==> idxs[ins] in Cells(was));
        if m < ins {
          InsertedIs(was[m], at[m] + 1, idxs[m]);
          assert Storey(idxs, n, m) && Storey(idxs, n, ins);
        }
      }
    }

    lemma PrevsIn(n: LNode, gone: set<LNode>, idxs: seq<IndexNode>, prevs: seq<IndexNode>, nexts: seq<IndexNode?>, at: seq<nat>)
      requires Valid() && Inserting(levels, n, gone, idxs, prevs, nexts, at)
      ensures |prevs| == |at| == |levels| && 0 < |levels| && forall m :: 0 <= m < |levels| ==> prevs[m] in Cells(levels)
    {
      forall m | 0 <= m < |levels| ensures prevs[m] in Cells(levels) {
        assert PointAt(gone, levels[m], at[m], prevs[m], nexts[m], n.key) && prevs[m] in levels[m];
      }
    }

    /** From the bottom level up, on as many levels as there are of both. */
    method InsertInLevels(n: LNode, ghost gone: set<LNode>, idxs: seq<IndexNode>, prevs: seq<IndexNode>, nexts: seq<IndexNode?>, ghost at: seq<nat>)
      returns (ins: nat)
      requires Valid() && Inserting(levels, n, gone, idxs, prevs, nexts, at) && 0 < |idxs|
      modifies `levels, Cells(levels)`right, idxs`right
      ensures Valid() && Grown(old(levels), levels, ins, at, idxs)
      ensures ins == if |idxs| < |levels| then |idxs| else |levels|
    {
      PrevsIn(n, gone, idxs, prevs, nexts, at);
      hide Cells, Inserting, Valid, Inserted;
      HeadAt(0);
      ins := 0;
      var h: IndexNode? := headBottom;
      ghost var was := levels;
      while h != null && h.level < |idxs| && h.level < |prevs|
        invariant Valid() && Grown(was, levels, ins, at, idxs)
        invariant if ins < |levels| then 0 < |levels[ins]| && h == levels[ins][0] else h == null
        decreases |levels| - ins
      {
        HeadAt(ins);
        h := InsertInLevel(was, n, gone, idxs, prevs, nexts, at, h, ins);
        ins := ins + 1;
      }
      if ins < |levels| { HeadAt(ins); }
    }

    /** A new top level with one index node besides the head's. */
    method Grow(x: IndexNode)
      requires Valid() && x.level == |levels| && x.right == null && head.key < x.node.key && x !in Cells(levels)
      requires x.down != null && x.down in levels[|levels| - 1] && x.down.node == x.node
      modifies `headTop, `levels, headTop`up
      ensures Valid() && levels == old(levels) + [[headTop, x]]
    {
      TopRow();
      ghost var was := levels;
      var newh := new IndexNode(headTop.node, headTop, x, headTop.level + 1);
      GrowKeepsShape(levels, head, newh, x);
      Elsewhere(|levels| - 1, 0);
      assert forall m :: 0 <= m < |was| - 1 ==> was[m][0] in was[m];
      headTop.up := newh;
      headTop := newh;
      levels := levels + [[newh, x]];
      hide Shape;
      forall m, k | 0 <= m < |levels| && 0 <= k < |levels[m]| ensures RightAt(levels[m], k) {
        if m < |was| { assert old(RightAt(levels[m], k)); }
      }
      forall m | 0 <= m < |levels| ensures UpAt(levels, m) {
        if m < |was| { assert old(UpAt(levels, m)); }
      }
    }

    lemma LiveBottom(gone: set<LNode>)
      requires 0 < |levels| && forall x :: x in levels[0] ==> (Gone(x.node) <==> x.node in gone)
      ensures Live() == LiveOn(gone, levels[0])
    {
    }

    /** Nothing that comes after the places of a new key has the same key. */
    lemma Fresh(n: LNode, gone: set<LNode>, prevs: seq<IndexNode>, nexts: seq<IndexNode?>, at: seq<nat>)
      requires Valid() && Places(gone, levels, 0, prevs, nexts, at, n.key) && forall m :: m in LiveOn(gone, levels[0]) ==> m.key != n.key
      ensures forall m :: 0 <= m < |levels| && nexts[m] != null ==> n.key < nexts[m].node.key
    {
      forall m | 0 <= m < |levels| && nexts[m] != null ensures n.key < nexts[m].node.key {
        NextIsGreater(gone, levels, head, m, at[m], prevs[m], nexts[m], n.key);
      }
    }

    method Build(n: LNode, level: nat, prevs: seq<IndexNode>, nexts: seq<IndexNode?>, ghost gone: set<LNode>, ghost at: seq<nat>)
      returns (idxs: seq<IndexNode>, ins: nat)
      requires Valid() && Places(gone, levels, 0, prevs, nexts, at, n.key)
      requires forall m :: 0 <= m < |levels| && nexts[m] != null ==> n.key < nexts[m].node.key
      modifies `levels, Cells(levels)`right
      ensures Valid() && Tower(idxs, n) && |idxs| == level + 1 && Grown(old(levels), levels, ins, at, idxs)
      ensures ins == if |idxs| < |levels| then |idxs| else |levels|
      ensures ins < |idxs| ==> idxs[ins].right == null
    {
      Sizes(n, prevs, nexts, gone, at);
      hide Valid, Places, Tower;
      var lower;
      idxs, lower := NewTower(n, level, |prevs|);
      ins := InsertInLevels(n, gone, lower, prevs, nexts, at);
    }

    lemma Sizes(n: LNode, prevs: seq<IndexNode>, nexts: seq<IndexNode?>, gone: set<LNode>, at: seq<nat>)
      requires Valid() && Places(gone, levels, 0, prevs, nexts, at, n.key)
      ensures |prevs| == |levels| == |at| && 0 < |levels|
    {
    }

    lemma LowerPart(idxs: seq<IndexNode>, lower: seq<IndexNode>, n: LNode)
      requires Tower(idxs, n) && lower <= idxs
      ensures Tower(lower, n)
    {
      forall i | 0 <= i < |lower| ensures Storey(lower, n, i) {
        assert Storey(idxs, n, i) && lower[i] == idxs[i] && (i > 0 ==> lower[i - 1] == idxs[i - 1]);
      }
    }

    /** A tower, and the part of it for the levels there are. */
    method NewTower(n: LNode, level: nat, size: nat) returns (idxs: seq<IndexNode>, lower: seq<IndexNode>)
      requires 0 < size
      ensures |idxs| == level + 1 && Tower(idxs, n) && Tower(lower, n) && lower <= idxs && 0 < |lower|
      ensures |lower| == if |idxs| < size then |idxs| else size
      ensures (forall x :: x in lower ==> fresh(x) && x !in Cells(levels)) && (|lower| < |idxs| ==> fresh(idxs[|lower|]) && idxs[|lower|].right == null)
      ensures |lower| < |idxs| ==> idxs[|lower|] !in lower && idxs[|lower|] !in Cells(levels)
    {
      ghost var cells := Cells(levels);
      idxs := CreateNewIndexNode(n, level);
      lower := if |idxs| < size then idxs else idxs[..size];
      assert forall i :: 0 <= i < |lower| ==> lower[i] == idxs[i] && lower[i] in idxs;
      LowerPart(idxs, lower, n);
      if |lower| < |idxs| {
        assert idxs[|lower|] in idxs && Storey(idxs, n, |lower|);
        forall i | 0 <= i < |lower| ensures lower[i] != idxs[|lower|] { assert Storey(idxs, n, i); }
      }
      assert forall x :: x in idxs ==> x !in cells;
    }

    /** The new list node gets its index nodes, and at most one new level. */
    method Raise(n: LNode, level: nat, prevs: seq<IndexNode>, nexts: seq<IndexNode?>, ghost gone: set<LNode>, ghost at: seq<nat>)
      returns (ghost x: IndexNode, ghost k: nat)
      requires Valid() && Places(gone, levels, 0, prevs, nexts, at, n.key) && head.key < n.key
      requires forall m :: 0 <= m < |levels| && nexts[m] != null ==> n.key < nexts[m].node.key
      requires NotOn(levels, n)
      modifies `headTop, `levels, Cells(levels)
      ensures Valid() && x.node == n && 0 < |old(levels)| && 0 < |levels| && k <= |old(levels)[0]| && levels[0] == Inserted(old(levels)[0], k, x)
      ensures Raised(old(levels), levels, n, level)
    {
      ghost var was := levels;
      TopRow();
      Sizes(n, prevs, nexts, gone, at);
      assert headTop in was[|was| - 1] && headTop in Cells(was);
      hide Valid, Cells, Places, StandsUpTo, OnlyMore, NotOn;
      var idxs, ins := Build(n, level, prevs, nexts, gone, at);
      x, k := idxs[0], at[0] + 1;
      TowerOf(idxs, n);
      GrownRaised(was, levels, ins, at, idxs, n, level);
      TopRow();
      if ins < level + 1 { RaiseTop(n, level, at, idxs, ins, was); }
    }

    method RaiseTop(n: LNode, level: nat, ghost at: seq<nat>, idxs: seq<IndexNode>, ins: nat, ghost was: seq<Row>)
      requires Valid() && Grown(was, levels, ins, at, idxs) && Tower(idxs, n) && ins == |levels| < |idxs| == level + 1 && head.key < n.key
      requires idxs[ins].right == null && StandsUpTo(levels, n, level) && OnlyMore(was, levels, n)
      modifies `headTop, `levels, headTop`up
      ensures Valid() && |levels| == |old(levels)| + 1 && levels[..|old(levels)|] == old(levels) && Raised(was, levels, n, level)
    {
      TopRow();
      hide Valid, Cells, StandsUpTo, OnlyMore, Raised;
      GrowOn(was, n, at, idxs, ins);
      if headTop.level < level {
        TopRaised(was, levels, headTop, idxs[ins], n, level);
        Grow(idxs[headTop.level + 1]);
      }
    }

    lemma TowerOf(idxs: seq<IndexNode>, n: LNode)
      requires Tower(idxs, n)
      ensures forall i :: 0 <= i < |idxs| ==> idxs[i].node == n
    {
      forall i | 0 <= i < |idxs| ensures idxs[i].node == n { assert Storey(idxs, n, i); }
    }

    /** The node of the tower above the top level can start a new one. */
    lemma GrowOn(was: seq<Row>, n: LNode, at: seq<nat>, idxs: seq<IndexNode>, ins: nat)
      requires Valid() && Grown(was, levels, ins, at, idxs) && Tower(idxs, n) && ins == |levels| < |idxs|
      ensures idxs[ins].down != null && idxs[ins].down in levels[ins - 1] && idxs[ins].down.node == n
      ensures idxs[ins].node == n && idxs[ins].level == |levels|
      ensures idxs[ins] !in Cells(levels)
    {
      InsertedIs(was[ins - 1], at[ins - 1] + 1, idxs[ins - 1]);
      assert Storey(idxs, n, ins) && Storey(idxs, n, ins - 1);
      forall m | 0 <= m < |levels| ensures idxs[ins] !in levels[m] { assert RowShape(levels, head, m); }
    }

    lemma LiveAdded(n: LNode, gone: set<LNode>, was: seq<Row>, k: nat, x: IndexNode)
      requires Valid() && Tells(gone, was) && (Gone(n) <==> n in gone) && x.node == n
      requires 0 < |was| && k <= |was[0]| && levels[0] == Inserted(was[0], k, x)
      ensures Live() == LiveOn(gone, was[0]) + if Gone(n) then {} else {n}
      ensures x in levels[0]
    {
      InsertedLive(gone, was[0], k, x);
      InsertedIs(was[0], k, x);
      forall y | y in was[0] ensures Gone(y.node) <==> y.node in gone {
        var i :| 0 <= i < |was[0]| && was[0][i] == y;
        TellsOf(gone, was, 0, i);
      }
      hide Inserted, LiveOn;
      LiveBottom(gone);
    }

    /** The places of a new key. */
    method Locate(n: LNode, ghost gone: set<LNode>) returns (prevs: seq<IndexNode>, nexts: seq<IndexNode?>, ghost at: seq<nat>)
      requires Valid() && Tells(gone, levels) && HeadLive() && head.key < n.key
      requires forall m :: m in LiveOn(gone, levels[0]) ==> m.key != n.key
      modifies `levels, Cells(levels)`right
      ensures Valid() && Tells(gone, levels) && Cells(levels) <= Cells(old(levels)) && 0 < |levels|
      ensures LiveOn(gone, levels[0]) == LiveOn(gone, old(levels)[0])
      ensures Places(gone, levels, 0, prevs, nexts, at, n.key) && |nexts| == |prevs| == |levels|
      ensures forall m :: 0 <= m < |levels| && nexts[m] != null ==> n.key < nexts[m].node.key
      ensures AllTrimmed(gone, old(levels), levels) && NotOn(levels, n)
    {
      ghost var was := levels;
      hide Tells, Cells, LiveOn, AllTrimmed, NotOn;
      prevs, nexts, at := FindInsertionPoints(n.key, gone);
      BottomLive(gone, was);
      Fresh(n, gone, prevs, nexts, at);
      Sizes(n, prevs, nexts, gone, at);
      NewKey(n, gone, prevs, nexts, at);
    }

    /** No level has the list node yet. */
    lemma NewKey(n: LNode, gone: set<LNode>, prevs: seq<IndexNode>, nexts: seq<IndexNode?>, at: seq<nat>)
      requires Valid() && Places(gone, levels, 0, prevs, nexts, at, n.key) && forall m :: m in LiveOn(gone, levels[0]) ==> m.key != n.key
      ensures NotOn(levels, n)
    {
      forall l, x | 0 <= l < |levels| && x in levels[l] ensures x.node != n {
        if n in gone {
          NotOnRow(gone, levels, head, l, at[l], prevs[l], nexts[l], n);
        } else {
          InBottom(levels, head, l, x);
        }
      }
    }

    method AddAt(n: LNode, level: nat, prevs: seq<IndexNode>, nexts: seq<IndexNode?>, ghost gone: set<LNode>, ghost at: seq<nat>)
      requires Valid() && Tells(gone, levels) && (Gone(n) <==> n in gone) && head.key < n.key && 0 < |levels| == |nexts|
      requires Places(gone, levels, 0, prevs, nexts, at, n.key)
      requires forall m :: 0 <= m < |levels| && nexts[m] != null ==> n.key < nexts[m].node.key
      requires NotOn(levels, n)
      modifies `headTop, `levels, Cells(levels)
      ensures Valid() && Live() == LiveOn(gone, old(levels)[0]) + if Gone(n) then {} else {n}
      ensures Raised(old(levels), levels, n, level)
    {
      ghost var was := levels;
      ghost var x, k := Raise(n, level, prevs, nexts, gone, at);
      assert Gone(n) <==> n in gone;
      assert Tells(gone, was);
      hide Valid, Live, LiveOn, Tells, Cells;
      LiveAdded(n, gone, was, k, x);
    }

    /** Index a list node whose key no live indexed node has, on `coins` levels above the bottom one, but on at most
        one new level. Everything else that is live stays known. */
    method Add(n: LNode, coins: nat) returns (ghost cleaned: seq<Row>)
      requires Valid() && HeadLive() && head.key < n.key && forall m :: m in Live() ==> m.key != n.key
      modifies `headTop, `levels, Cells(levels)
      ensures Valid() && Live() == old(Live()) + if Gone(n) then {} else {n}
      ensures AllTrimmed(old(GoneAnd(n)), old(levels), cleaned) && Raised(cleaned, levels, n, coins)
    {
      ghost var gone := GoneAnd(n);
      LiveIs(gone);
      hide Valid, Live, LiveOn, Tells, Cells, Places, Raised, NotOn, AllTrimmed, GoneOnes, GoneAnd;
      var prevs, nexts;
      ghost var at;
      prevs, nexts, at := Locate(n, gone);
      cleaned := levels;
      var level := if coins <= |prevs| + 1 then coins else |prevs| + 1;
      AddAt(n, level, prevs, nexts, gone, at);
      SameTop(cleaned, n, level, coins);
    }

    /** Coins beyond the number of levels make no difference. */
    lemma SameTop(was: seq<Row>, n: LNode, level: nat, coins: nat)
      requires Raised(was, levels, n, level) && level == if coins <= |was| + 1 then coins else |was| + 1
      ensures Raised(was, levels, n, coins)
    {
    }
  }
}
