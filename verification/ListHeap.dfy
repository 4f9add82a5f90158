/** The sorted list of datatypes/LinkedList.h as a heap of cells, and the set of keys it stands for.

    A heap here is what the list looks like at one instant: every node ever published, each with its
    successor, its deleted flag and whether it holds a value. Well-formedness is stated locally, per
    node, so no lemma needs to walk the list. */
module ListHeap {
  import opened Basics

  /** A node's key never changes, so it is part of the node's identity. */
  datatype Node = Node(id: nat, key: nat)

  /** The head carries the smallest key and is never removed; every stored key is larger. */
  const MIN_KEY: nat := 0
  const HEAD: Node := Node(0, MIN_KEY)

  datatype Cell = Cell(next: Option<Node>, dead: bool, has: bool)

  type Heap = map<Node, Cell>

  predicate Live(h: Heap, n: Node) { n in h && !h[n].dead }

  /** Nothing live lies strictly between `n` and the node it points to. */
  ghost predicate LinkOk(h: Heap, n: Node)
    requires n in h
  {
    match h[n].next
    case None => forall m :: Live(h, m) ==> m.key <= n.key
    case Some(q) => Live(h, q) && n.key < q.key && forall m :: Live(h, m) ==> m.key <= n.key || q.key <= m.key
  }

  ghost predicate WellFormed(h: Heap)
  {
    && Live(h, HEAD)
    && (forall n {:trigger LinkOk(h, n)} :: Live(h, n) ==> LinkOk(h, n))
    && (forall n :: Live(h, n) ==> h[n].has)
    && (forall n :: Live(h, n) && n != HEAD ==> MIN_KEY < n.key)
    && (forall m, n :: Live(h, m) && Live(h, n) && m.key == n.key ==> m == n)
  }

  function Keys(h: Heap): set<nat>
  {
    set n | n in h && Live(h, n) && n != HEAD :: n.key
  }

  // ---------------------------------------------------------------- the specification: a set of keys

  datatype Kind = Get | Put | Remove

  /** One completed operation; `result` says whether it returned a value rather than null. */
  datatype Event = Event(kind: Kind, key: nat, result: bool)

  function Effect(keys: set<nat>, e: Event): set<nat>
  {
    match e.kind
    case Get => keys
    case Put => keys + {e.key}
    case Remove => keys - {e.key}
  }

  /** The set after running the operations one after another. */
  function After(keys: set<nat>, log: seq<Event>): set<nat>
  {
    if log == [] then keys else Effect(After(keys, log[..|log| - 1]), log[|log| - 1])
  }

  /** Every operation returned what it returns on a set of keys: non-null exactly on a present key. */
  predicate Explains(keys: set<nat>, log: seq<Event>)
  {
    log == [] ||
    (Explains(keys, log[..|log| - 1]) && (log[|log| - 1].result <==> log[|log| - 1].key in After(keys, log[..|log| - 1])))
  }

  lemma ExplainsSnoc(keys: set<nat>, log: seq<Event>, e: Event)
    requires Explains(keys, log) && (e.result <==> e.key in After(keys, log))
    ensures Explains(keys, log + [e]) && After(keys, log + [e]) == Effect(After(keys, log), e)
  {
    assert (log + [e])[..|log|] == log;
  }

  lemma {:induction false} ExplainsConcat(keys: set<nat>, a: seq<Event>, b: seq<Event>)
    requires Explains(keys, a) && Explains(After(keys, a), b)
    ensures Explains(keys, a + b) && After(keys, a + b) == After(After(keys, a), b)
  {
    if b == [] {
      assert a + b == a;
    } else {
      var b' := b[..|b| - 1];
      ExplainsConcat(keys, a, b');
      assert (a + b)[..|a + b| - 1] == a + b';
    }
  }

  // ---------------------------------------------------------------- one operation on a well-formed list

  /** `p` and its successor bracket `key`. */
  predicate Brackets(h: Heap, p: Node, key: nat)
  {
    Live(h, p) && p.key < key && (h[p].next.Some? ==> key <= h[p].next.value.key)
  }

  predicate Hit(h: Heap, p: Node, key: nat)
    requires Live(h, p)
  {
    h[p].next.Some? && h[p].next.value.key == key
  }

  /** The bracketing node decides membership. */
  lemma FindDecides(h: Heap, p: Node, key: nat)
    requires WellFormed(h) && Brackets(h, p, key)
    ensures key in Keys(h) <==> Hit(h, p, key)
  {
    assert LinkOk(h, p);
    if Hit(h, p, key) {
      var q := h[p].next.value;
      assert Live(h, q) && q != HEAD;
    }
  }

  function Inserted(h: Heap, p: Node, n: Node): Heap
    requires p in h
  {
    h[n := Cell(h[p].next, false, true)][p := Cell(Some(n), false, true)]
  }

  lemma KeysGain(h: Heap, h': Heap, n: Node)
    requires n != HEAD && forall m :: Live(h', m) <==> Live(h, m) || m == n
    ensures Keys(h') == Keys(h) + {n.key}
  {
    forall k | k in Keys(h) + {n.key} ensures k in Keys(h') {
      if k in Keys(h) {
        var m :| m in h && Live(h, m) && m != HEAD && m.key == k;
        assert Live(h', m);
      } else {
        assert Live(h', n);
      }
    }
  }

  lemma KeysLose(h: Heap, h': Heap, n: Node)
    requires Live(h, n) && n != HEAD && forall m :: Live(h, m) && m.key == n.key ==> m == n
    requires forall m :: Live(h', m) <==> Live(h, m) && m != n
    ensures Keys(h') == Keys(h) - {n.key}
  {
    forall k | k in Keys(h) - {n.key} ensures k in Keys(h') {
      var m :| m in h && Live(h, m) && m != HEAD && m.key == k;
      assert Live(h', m);
    }
  }

  lemma InsertKeepsLink(h: Heap, p: Node, n: Node, m: Node)
    requires WellFormed(h) && Brackets(h, p, n.key) && !Hit(h, p, n.key) && n !in h
    requires Live(Inserted(h, p, n), m)
    ensures LinkOk(Inserted(h, p, n), m)
  {
    var h' := Inserted(h, p, n);
    assert LinkOk(h, p);
    assert forall x :: Live(h', x) <==> Live(h, x) || x == n;
    if m != n { assert LinkOk(h, m); }
  }

  lemma InsertKeepsList(h: Heap, p: Node, n: Node)
    requires WellFormed(h) && Brackets(h, p, n.key) && !Hit(h, p, n.key) && n !in h
    ensures WellFormed(Inserted(h, p, n)) && Keys(Inserted(h, p, n)) == Keys(h) + {n.key}
  {
    var h' := Inserted(h, p, n);
    FindDecides(h, p, n.key);
    assert forall m :: Live(h', m) <==> Live(h, m) || m == n;
    forall m | Live(h', m) ensures LinkOk(h', m) { InsertKeepsLink(h, p, n, m); }
    forall m | Live(h, m) ensures m.key != n.key { assert m != HEAD ==> m.key in Keys(h); }
    KeysGain(h, h', n);
  }

  function Unlinked(h: Heap, p: Node, q: Node): Heap
    requires p in h && q in h
  {
    h[p := Cell(h[q].next, false, true)][q := Cell(None, true, true)]
  }

  lemma UnlinkKeepsLink(h: Heap, p: Node, q: Node, m: Node)
    requires WellFormed(h) && Live(h, p) && h[p].next == Some(q)
    requires Live(h, q) && Live(Unlinked(h, p, q), m)
    ensures LinkOk(Unlinked(h, p, q), m)
  {
    var h' := Unlinked(h, p, q);
    assert LinkOk(h, p) && LinkOk(h, q) && LinkOk(h, m);
    assert forall x :: Live(h', x) <==> Live(h, x) && x != q;
  }

  lemma UnlinkKeepsList(h: Heap, p: Node, q: Node)
    requires WellFormed(h) && Live(h, p) && h[p].next == Some(q)
    ensures Live(h, q) && WellFormed(Unlinked(h, p, q)) && Keys(Unlinked(h, p, q)) == Keys(h) - {q.key}
  {
    assert LinkOk(h, p);
    var h' := Unlinked(h, p, q);
    assert forall m :: Live(h', m) <==> Live(h, m) && m != q;
    forall m | Live(h', m) ensures LinkOk(h', m) { UnlinkKeepsLink(h, p, q, m); }
    KeysLose(h, h', q);
  }
}
