/** What a commit must satisfy to leave a well-formed list, as a check of the write set alone: exactly. It holds
    for every transaction that has copied no stale link; for one that has, it decides. */
module CommitCheck {
  import opened Basics
  import opened ListHeap
  import opened Transactions
  import opened SerialOrder
  import opened TxEveryRun
  import opened TxMachine
  import opened Serializability

  /** Some live node links to `x`. */
  predicate Reached(h: Heap, x: Node) { exists n :: n in h && Live(h, n) && h[n].next == Some(x) }

  /** A written cell that stays in the list has a value, and links to a node behind it that stays too. */
  predicate CellOk(h: Heap, w: Heap, n: Node)
    requires n in w
  {
    !w[n].dead ==>
      && w[n].has && (n != HEAD ==> MIN_KEY < n.key)
      && (w[n].next.Some? ==> Live(h + w, w[n].next.value) && n.key < w[n].next.value.key)
  }

  /** A node that is written, or that a written node linked to before. */
  predicate Disturbed(h: Heap, w: Heap, x: Node)
  {
    x in w || exists q :: q in w && Live(h, q) && h[q].next == Some(x)
  }

  /** The check: written cells are in order; a disturbed node that is still in the list is still linked to; the
      node that linked to a removed one has been written too. */
  ghost predicate Fits(h: Heap, w: Heap)
  {
    && Live(h + w, HEAD)
    && (forall n {:trigger CellOk(h, w, n)} :: n in w ==> CellOk(h, w, n))
    && (forall x {:trigger Disturbed(h, w, x)} :: Disturbed(h, w, x) && Live(h + w, x) && x != HEAD ==> Reached(h + w, x))
    && (forall n {:trigger Live(h, n)} :: Live(h, n) && n !in w && h[n].next.Some? && h[n].next.value in w ==> !w[h[n].next.value].dead)
  }

  // ---------------------------------------------------------------- in a well-formed list every node is linked to

  lemma {:induction false} LastBefore(h: Heap, x: Node, s: set<Node>) returns (p: Node)
    requires s != {} && forall n :: n in s ==> Live(h, n) && n.key < x.key
    ensures p in s && forall n :: n in s ==> n.key <= p.key
  {
    var n :| n in s;
    if s == {n} {
      p := n;
    } else {
      p := LastBefore(h, x, s - {n});
      if p.key < n.key { p := n; }
    }
  }

  lemma HasPredecessor(h: Heap, x: Node)
    requires WellFormed(h) && Live(h, x) && x != HEAD
    ensures Reached(h, x)
  {
    var s := set n | n in h && Live(h, n) && n.key < x.key;
    assert HEAD in s;
    var p := LastBefore(h, x, s);
    assert LinkOk(h, p);
    assert h[p].next == Some(x);
  }

  // ---------------------------------------------------------------- a list in which every node is linked to

  /** Links go up and lead to live nodes, and every live node but the head is linked to. */
  ghost predicate Chained(h: Heap)
  {
    && Live(h, HEAD)
    && (forall n {:trigger Live(h, n)} :: Live(h, n) && h[n].next.Some? ==> Live(h, h[n].next.value) && n.key < h[n].next.value.key)
    && (forall x {:trigger Reached(h, x)} :: Live(h, x) && x != HEAD ==> Reached(h, x))
  }

  /** Nothing up to key `t` follows `n`. */
  predicate EndsAt(h: Heap, n: Node, t: nat)
  {
    Live(h, n) && n.key <= t && (h[n].next.Some? ==> t < h[n].next.value.key)
  }

  ghost function Predecessor(h: Heap, x: Node): (p: Node)
    requires Reached(h, x)
    ensures p in h && Live(h, p) && h[p].next == Some(x)
  {
    var p :| p in h && Live(h, p) && h[p].next == Some(x);
    p
  }

  function UpTo(h: Heap, t: nat): set<Node> { set n | n in h && Live(h, n) && n.key <= t }

  /** Counting nodes and links up to `t`: only one of the nodes can be the last. */
  lemma OneEnd(h: Heap, t: nat, a: Node, b: Node)
    requires Chained(h) && EndsAt(h, a, t) && EndsAt(h, b, t)
    ensures a == b
  {
    if a != b {
      var nodes := UpTo(h, t);
      var linked := nodes - {HEAD};
      assert HEAD in nodes && |nodes| == |linked| + 1;
      var f := map x | x in linked :: Predecessor(h, x);
      assert f.Keys == linked;
      InjectiveSize(f);
      forall p | p in f.Values ensures p in nodes - {a, b} {
        var x :| x in linked && p == Predecessor(h, x);
        assert Live(h, p) && h[p].next == Some(x);
      }
      assert |nodes - {a, b}| == |nodes| - 2;
      SubsetSize(f.Values, nodes - {a, b});
    }
  }

  lemma ChainedLink(h: Heap, n: Node)
    requires Chained(h) && Live(h, n)
    ensures LinkOk(h, n)
  {
    forall m | Live(h, m) && n.key < m.key && (h[n].next.Some? ==> m.key < h[n].next.value.key) ensures false {
      OneEnd(h, m.key, n, m);
    }
  }

  lemma ChainedList(h: Heap)
    requires Chained(h) && forall n :: Live(h, n) ==> h[n].has && (n != HEAD ==> MIN_KEY < n.key)
    ensures WellFormed(h)
  {
    forall n | Live(h, n) ensures LinkOk(h, n) { ChainedLink(h, n); }
    forall m, n | Live(h, m) && Live(h, n) && m.key == n.key ensures m == n { OneEnd(h, m.key, m, n); }
  }

  // ---------------------------------------------------------------- the check is exact

  lemma FitsChained(h: Heap, w: Heap)
    requires WellFormed(h) && Fits(h, w)
    ensures Chained(h + w) && forall n :: Live(h + w, n) ==> (h + w)[n].has && (n != HEAD ==> MIN_KEY < n.key)
  {
    var g := h + w;
    forall n | Live(g, n)
      ensures g[n].has && (n != HEAD ==> MIN_KEY < n.key)
      ensures g[n].next.Some? ==> Live(g, g[n].next.value) && n.key < g[n].next.value.key
    {
      if n in w { assert CellOk(h, w, n); } else { assert Live(h, n) && LinkOk(h, n); }
    }
    forall x | Live(g, x) && x != HEAD ensures Reached(g, x) {
      if !Disturbed(h, w, x) {
        HasPredecessor(h, x);
        var p :| p in h && Live(h, p) && h[p].next == Some(x);
        assert p !in w && Live(g, p) && g[p].next == Some(x);
      }
    }
  }

  lemma WellFormedFits(h: Heap, w: Heap)
    requires WellFormed(h + w)
    ensures Fits(h, w)
  {
    var g := h + w;
    forall n | n in w ensures CellOk(h, w, n) { if !w[n].dead { assert Live(g, n) && LinkOk(g, n); } }
    forall x | Disturbed(h, w, x) && Live(g, x) && x != HEAD ensures Reached(g, x) { HasPredecessor(g, x); }
    forall n | Live(h, n) && n !in w && h[n].next.Some? && h[n].next.value in w ensures !w[h[n].next.value].dead {
      assert Live(g, n) && LinkOk(g, n);
    }
  }

  /** Writing `w` over a well-formed list leaves a well-formed list if and only if `w` passes the check. */
  lemma FitsExactly(h: Heap, w: Heap)
    requires WellFormed(h)
    ensures WellFormed(h + w) <==> Fits(h, w)
  {
    hide WellFormed, Fits, Chained;
    if Fits(h, w) {
      FitsChained(h, w);
      ChainedList(h + w);
    }
    if WellFormed(h + w) { WellFormedFits(h, w); }
  }

  /** Whatever links a transaction has copied, and whatever it has done since: its commit leaves a well-formed
      list if and only if its write set passes the check; and it does if none of the copies was stale. */
  lemma CommitFits(tr: seq<State>, k: nat, i: nat)
    requires Run(tr) && k + 1 < |tr| && i < |tr[k].txs| == |tr[k + 1].txs| && Faithful(tr[k])
    requires CommitPointStep(tr[k], i, tr[k + 1])
    ensures WellFormed(tr[k + 1].sh.committed) <==> Fits(tr[k].sh.committed, Writes(tr[k].txs[i].d))
    ensures !tr[k].txs[i].d.stale ==> Fits(tr[k].sh.committed, Writes(tr[k].txs[i].d))
  {
    hide Run, Faithful, CommitPointStep, StateInv, WellFormed, Fits, Writes;
    RunKeeps(tr, k);
    CommitIs(tr[k], i, tr[k + 1]);
    FitsExactly(tr[k].sh.committed, Writes(tr[k].txs[i].d));
    if !tr[k].txs[i].d.stale { CommitLeaves(tr[k], i, tr[k + 1]); }
  }

  // ---------------------------------------------------------------- whole runs

  ghost predicate CommitsAt(tr: seq<State>, m: nat, i: nat)
  {
    m + 1 < |tr| && i < |tr[m].txs| == |tr[m + 1].txs| && CommitPointStep(tr[m], i, tr[m + 1])
  }

  /** Every commit up to state `k` passes the check. */
  ghost predicate CommitsFit(tr: seq<State>, k: nat)
  {
    forall m: nat, i: nat {:trigger CommitsAt(tr, m, i)} :: m < k && CommitsAt(tr, m, i) ==> Fits(tr[m].sh.committed, Writes(tr[m].txs[i].d))
  }

  lemma CommittedStep(s: State, i: nat, s': State)
    requires i < |s.txs| == |s'.txs| && TxStep(s, i, s')
    ensures s'.sh.committed == s.sh.committed || CommitPointStep(s, i, s')
    ensures CommitPointStep(s, i, s') ==> s'.sh.committed == s.sh.committed + Writes(s.txs[i].d)
  {
    hide LocalStep, Without, WithWrites, Writes, InsertedLocal;
  }

  lemma {:induction false} ListStands(tr: seq<State>, k: nat)
    requires Run(tr) && k < |tr| && CommitsFit(tr, k)
    ensures WellFormed(tr[k].sh.committed)
  {
    hide TxStep, WellFormed, Fits, Writes;
    if k > 0 {
      ListStands(tr, k - 1);
      assert Next(tr[k - 1], tr[k]);
      var i: nat :| i < |tr[k - 1].txs| == |tr[k].txs| && TxStep(tr[k - 1], i, tr[k]);
      CommittedStep(tr[k - 1], i, tr[k]);
      if CommitPointStep(tr[k - 1], i, tr[k]) {
        assert CommitsAt(tr, k - 1, i);
        FitsExactly(tr[k - 1].sh.committed, Writes(tr[k - 1].txs[i].d));
      }
    }
  }

  /** In any run the committed list has been well-formed up to a state if and only if every commit up to there
      passes the check, whatever links have been copied and committed before. */
  lemma ListStandsExactly(tr: seq<State>, k: nat)
    requires Run(tr) && k < |tr|
    ensures (forall m: nat :: m <= k ==> WellFormed(tr[m].sh.committed)) <==> CommitsFit(tr, k)
  {
    hide Run, WellFormed, Fits, Writes;
    if CommitsFit(tr, k) {
      forall m: nat | m <= k ensures WellFormed(tr[m].sh.committed) { ListStands(tr, m); }
    }
    if forall m: nat :: m <= k ==> WellFormed(tr[m].sh.committed) {
      forall m: nat, i: nat {:trigger CommitsAt(tr, m, i)} | m < k && CommitsAt(tr, m, i)
        ensures Fits(tr[m].sh.committed, Writes(tr[m].txs[i].d))
      {
        CommittedStep(tr[m], i, tr[m + 1]);
        FitsExactly(tr[m].sh.committed, Writes(tr[m].txs[i].d));
      }
    }
  }

  lemma CommitIs(s: State, i: nat, s': State)
    requires StateInv(s) && i < |s.txs| == |s'.txs| && CommitPointStep(s, i, s')
    ensures WellFormed(s.sh.committed) && s'.sh.committed == s.sh.committed + Writes(s.txs[i].d)
  {
    hide BaseInv, TxsInv, OrderInv, WellFormed, Writes, WithWrites;
  }

  lemma CommitLeaves(s: State, i: nat, s': State)
    requires StateInv(s) && i < |s.txs| == |s'.txs| && CommitPointStep(s, i, s') && !s.txs[i].d.stale
    ensures WellFormed(s'.sh.committed)
  {
    hide CommitPointStep;
    CommitSound(s, i, s');
    hide BaseInv, TxsInv, OrderInv, WellFormed;
  }
}
