/** The serial order: transactions ordered by the instant each held all its write-set locks. */
module SerialOrder {
  import opened ListHeap
  import opened Transactions
  import opened TxInvariant

  function TxAt(s: State, p: nat): Tx
    requires p < |s.order| && s.order[p] < |s.txs|
  {
    s.txs[s.order[p]]
  }

  predicate Shape(s: State)
  {
    && |s.heaps| == |s.order| + 1
    && (forall p :: 0 <= p < |s.order| ==> s.order[p] < |s.txs|)
  }

  /** The order holds exactly the transactions that hold, or held and committed, all their locks. */
  predicate Membership(s: State)
    requires Shape(s)
  {
    && (forall p, q :: 0 <= p < q < |s.order| ==> s.order[p] != s.order[q])
    && (forall i: nat :: i < |s.txs| ==> (InOrder(s.txs[i].pc) <==> i in s.order))
  }

  /** The heap after position `p`: undecided transactions do not count. */
  function Post(s: State, p: nat): Heap
    requires Shape(s) && p < |s.order|
  {
    if Decided(TxAt(s, p).pc) then s.heaps[p] + Writes(TxAt(s, p).d) else s.heaps[p]
  }

  ghost predicate Chain(s: State)
    requires Shape(s)
  {
    && (forall p :: 0 <= p < |s.order| ==> s.heaps[p + 1] == Post(s, p))
    && s.heaps[|s.order|] == s.sh.committed
    && (forall p :: 0 <= p < |s.heaps| ==> WellFormed(s.heaps[p]) && s.heaps[p].Keys <= s.sh.committed.Keys)
  }

  /** What the transaction read at `n` is what the heap at its place holds, or validation of `n` is still
      to come and will fail. */
  predicate ReadOk(s: State, p: nat, n: Node)
    requires Shape(s) && p < |s.order|
  {
    var x := TxAt(s, p);
    || (n in x.d.snap && n in s.heaps[p] && s.heaps[p][n] == x.d.snap[n])
    || (Tentative(x.pc) && n in x.d.todo && n in s.sh.stamp && s.sh.stamp[n] > x.d.rv)
    || (x.pc.ValVersion? && x.pc.n == n && n in s.sh.mem && s.sh.mem[n].version > x.d.rv)
  }

  predicate Place(s: State, p: nat)
    requires Shape(s) && p < |s.order|
  {
    var x := TxAt(s, p);
    && s.heaps[p].Keys !! x.d.news.Keys
    && forall n :: n in x.d.snap ==> ReadOk(s, p, n)
  }

  /** The part of the read set that was seen free of other transactions' locks during validation. */
  predicate SeenFree(x: Tx, n: Node) { n in x.d.snap && (Decided(x.pc) || n !in x.d.todo) }

  /** An earlier transaction that has not committed yet holds locks on everything it will change of what
      already existed, so a later one that has got further neither read nor wrote any of it. */
  predicate Apart(s: State, p: nat, q: nat)
    requires Shape(s) && p < |s.order| && q < |s.order|
  {
    var y, z := TxAt(s, p), TxAt(s, q);
    Tentative(y.pc) ==>
      && Writes(y.d).Keys !! Writes(z.d).Keys
      && forall n :: SeenFree(z, n) ==> n !in y.d.ws
  }

  ghost predicate OrderInv(s: State)
  {
    && Shape(s)
    && Membership(s)
    && Chain(s)
    && (forall p {:trigger Place(s, p)} :: 0 <= p < |s.order| ==> Place(s, p))
    && (forall p, q {:trigger Apart(s, p, q)} :: 0 <= p < q < |s.order| ==> Apart(s, p, q))
  }

  // ---------------------------------------------------------------- steps that leave the order alone

  predicate SameInOrder(x: Tx, x': Tx)
  {
    && (InOrder(x.pc) <==> InOrder(x'.pc))
    && (InOrder(x.pc) ==>
         && (Decided(x.pc) <==> Decided(x'.pc))
         && x'.d.snap == x.d.snap && x'.d.news == x.d.news && x'.d.ws == x.d.ws && x'.d.rv == x.d.rv
         && (Tentative(x.pc) ==> x'.pc == x.pc && x'.d.todo == x.d.todo))
  }

  predicate VersionsGrow(sh: Shared, sh': Shared)
  {
    && sh'.committed == sh.committed && sh'.stamp == sh.stamp
    && forall n :: n in sh.mem ==> n in sh'.mem && sh.mem[n].version <= sh'.mem[n].version
  }

  lemma OrderFrame(s: State, i: nat, x': Tx, sh': Shared)
    requires OrderInv(s) && i < |s.txs| && SameInOrder(s.txs[i], x') && VersionsGrow(s.sh, sh')
    ensures OrderInv(s.(txs := s.txs[i := x'], sh := sh'))
  {
    hide WellFormed;
    var s' := s.(txs := s.txs[i := x'], sh := sh');
    forall p | 0 <= p < |s.order| ensures s'.heaps[p + 1] == Post(s', p) && Place(s', p) {
      assert s.heaps[p + 1] == Post(s, p) && Place(s, p);
      forall n | n in TxAt(s', p).d.snap ensures ReadOk(s', p, n) { assert ReadOk(s, p, n); }
    }
    forall p, q | 0 <= p < q < |s.order| ensures Apart(s', p, q) { assert Apart(s, p, q); }
  }

  // ---------------------------------------------------------------- validation

  /** One transaction moves on in validation. */
  lemma OrderValidation(s: State, i: nat, x': Tx)
    requires OrderInv(s) && i < |s.txs| && Tentative(s.txs[i].pc) && Tentative(x'.pc)
    requires x'.d == s.txs[i].d.(todo := x'.d.todo)
    requires forall p :: 0 <= p < |s.order| && s.order[p] == i ==>
               forall n :: n in x'.d.snap && ReadOk(s, p, n) ==> ReadOk(s.(txs := s.txs[i := x']), p, n)
    requires forall p, n | 0 <= p < |s.order| && s.order[p] != i && Tentative(TxAt(s, p).pc) ::
               SeenFree(x', n) && !SeenFree(s.txs[i], n) ==> n !in TxAt(s, p).d.ws
    ensures OrderInv(s.(txs := s.txs[i := x']))
  {
    hide WellFormed;
    var s' := s.(txs := s.txs[i := x']);
    forall p | 0 <= p < |s.order| ensures s'.heaps[p + 1] == Post(s', p) && Place(s', p) {
      assert s.heaps[p + 1] == Post(s, p) && Place(s, p);
      forall n | n in TxAt(s', p).d.snap ensures ReadOk(s', p, n) { assert ReadOk(s, p, n); }
    }
    forall p, q | 0 <= p < q < |s.order| ensures Apart(s', p, q) {
      assert Apart(s, p, q);
      assert s.order[p] != s.order[q];
    }
  }

  // ---------------------------------------------------------------- entering and leaving the order

  lemma OrderEnter(s: State, i: nat, x': Tx)
    requires OrderInv(s) && i < |s.txs| && !InOrder(s.txs[i].pc) && x'.pc == Validating
    requires x'.d.snap.Keys <= x'.d.todo
    requires forall n :: n in x'.d.snap ==>
               n in s.sh.stamp && n in s.sh.committed && (s.sh.stamp[n] <= x'.d.rv ==> s.sh.committed[n] == x'.d.snap[n])
    requires s.sh.committed.Keys !! x'.d.news.Keys
    requires forall p :: 0 <= p < |s.order| && Tentative(TxAt(s, p).pc) ==> Writes(TxAt(s, p).d).Keys !! Writes(x'.d).Keys
    ensures OrderInv(State(s.sh, s.txs[i := x'], s.order + [i], s.heaps + [s.sh.committed]))
  {
    hide WellFormed;
    var s' := State(s.sh, s.txs[i := x'], s.order + [i], s.heaps + [s.sh.committed]);
    var m := |s.order|;
    forall p | 0 <= p < |s'.order| ensures s'.heaps[p + 1] == Post(s', p) && Place(s', p) {
      if p < m {
        assert s.heaps[p + 1] == Post(s, p) && Place(s, p) && s.order[p] in s.order;
        forall n | n in TxAt(s', p).d.snap ensures ReadOk(s', p, n) { assert ReadOk(s, p, n); }
      }
    }
    forall p, q | 0 <= p < q < |s'.order| ensures Apart(s', p, q) {
      assert s.order[p] in s.order && TxAt(s', p) == TxAt(s, p);
      if q < m {
        assert Apart(s, p, q) && s.order[q] in s.order;
      } else {
        assert TxAt(s', q) == x';
      }
    }
  }

  function Left(s: State, k: nat, x': Tx): State
    requires k < |s.order| && s.order[k] < |s.txs| && |s.heaps| == |s.order| + 1
  {
    State(s.sh, s.txs[s.order[k] := x'], Without(s.order, k), Without(s.heaps, k))
  }

  /** Positions after the one that left move down by one. */
  function Was(k: nat, p: nat): nat { if p < k then p else p + 1 }

  lemma LeftAt(s: State, k: nat, x': Tx, p: nat)
    requires OrderInv(s) && k < |s.order| && p < |s.order| - 1 && Tentative(TxAt(s, k).pc)
    ensures Left(s, k, x').order[p] == s.order[Was(k, p)] != s.order[k]
    ensures Shape(Left(s, k, x')) && TxAt(Left(s, k, x'), p) == TxAt(s, Was(k, p))
    ensures Left(s, k, x').heaps[p] == s.heaps[Was(k, p)] && Left(s, k, x').heaps[p + 1] == s.heaps[Was(k, p) + 1]
  {
    hide WellFormed;
    assert s.heaps[k + 1] == Post(s, k);
  }

  lemma LeaveMembership(s: State, k: nat, x': Tx)
    requires Shape(s) && Membership(s) && k < |s.order| && !InOrder(x'.pc)
    ensures Shape(Left(s, k, x')) && Membership(Left(s, k, x'))
  {
    var s' := Left(s, k, x');
    forall j: nat | j < |s'.txs| ensures InOrder(s'.txs[j].pc) <==> j in s'.order {
      if j in s.order {
        var p: nat :| p < |s.order| && s.order[p] == j;
        if p != k { assert s'.order[if p < k then p else p - 1] == j; }
      }
    }
  }

  lemma OrderLeave(s: State, k: nat, x': Tx)
    requires OrderInv(s) && k < |s.order| && Tentative(TxAt(s, k).pc) && !InOrder(x'.pc)
    ensures OrderInv(Left(s, k, x'))
  {
    hide WellFormed, Membership;
    var s' := Left(s, k, x');
    LeaveMembership(s, k, x');
    assert s.heaps[k + 1] == Post(s, k);
    forall p | 0 <= p < |s'.order| ensures s'.heaps[p + 1] == Post(s', p) && Place(s', p) {
      var o := Was(k, p);
      LeftAt(s, k, x', p);
      assert s.heaps[o + 1] == Post(s, o) && Place(s, o);
      forall n | n in TxAt(s', p).d.snap ensures ReadOk(s', p, n) { assert ReadOk(s, o, n); }
    }
    forall p, q | 0 <= p < q < |s'.order| ensures Apart(s', p, q) {
      LeftAt(s, k, x', p);
      LeftAt(s, k, x', q);
      assert Apart(s, Was(k, p), Was(k, q));
    }
  }

  // ---------------------------------------------------------------- the commit point

  /** The transaction at position `k` has passed validation of its whole read set. */
  ghost predicate MayCommit(s: State, k: nat)
  {
    && OrderInv(s) && k < |s.order|
    && TxAt(s, k).pc.Validating? && TxAt(s, k).d.todo == {}
    && Good(TxAt(s, k).d)
    && TxAt(s, k).d.news.Keys !! s.sh.committed.Keys
    && (forall p :: 0 <= p < |s.order| ==>
          TxAt(s, p).d.snap.Keys <= s.sh.committed.Keys && (Decided(TxAt(s, p).pc) ==> Good(TxAt(s, p).d)))
  }

  function Committing(s: State, k: nat, x': Tx, sh': Shared): State
    requires k < |s.order| && s.order[k] < |s.txs|
  {
    State(sh', s.txs[s.order[k] := x'], s.order, WithWrites(s.heaps, k, Writes(s.txs[s.order[k]].d)))
  }

  lemma CommitHeap(s: State, k: nat)
    requires MayCommit(s, k)
    ensures Agrees(s.heaps[k], TxAt(s, k).d.snap)
    ensures s.heaps[k + 1] == s.heaps[k] && WellFormed(s.heaps[k] + Writes(TxAt(s, k).d))
  {
    var x := TxAt(s, k);
    assert Place(s, k) && s.heaps[k + 1] == Post(s, k);
    forall n | n in x.d.snap ensures n in s.heaps[k] && s.heaps[k][n] == x.d.snap[n] { assert ReadOk(s, k, n); }
    hide WellFormed;
    assert CorrectOn(x.d, s.heaps[k]);
  }

  /** A committed transaction later in the order read and wrote nothing the committing one writes. */
  lemma LaterApart(s: State, k: nat, q: nat)
    requires MayCommit(s, k) && k < q < |s.order| && Decided(TxAt(s, q).pc)
    ensures Writes(TxAt(s, k).d).Keys !! TxAt(s, q).d.snap.Keys
    ensures Writes(TxAt(s, k).d).Keys !! Writes(TxAt(s, q).d).Keys
  {
    hide WellFormed, Good;
    assert Apart(s, k, q);
    forall n | n in TxAt(s, q).d.snap ensures n !in Writes(TxAt(s, k).d) { assert SeenFree(TxAt(s, q), n); }
  }

  lemma MergeCommutes(h: Heap, a: Heap, b: Heap)
    requires a.Keys !! b.Keys
    ensures h + a + b == h + b + a
  {
  }

  /** ... so it is as correct on the list with those writes as it was on the list without. */
  lemma LaterWellFormed(s: State, k: nat, q: nat)
    requires MayCommit(s, k) && k < q < |s.order| && Decided(TxAt(s, q).pc)
    requires WellFormed(s.heaps[q] + Writes(TxAt(s, k).d))
    ensures WellFormed(s.heaps[q + 1] + Writes(TxAt(s, k).d))
  {
    var z, w := TxAt(s, q), Writes(TxAt(s, k).d);
    var h := s.heaps[q] + w;
    LaterApart(s, k, q);
    assert Place(s, q) && s.heaps[q + 1] == Post(s, q);
    hide WellFormed;
    MergeCommutes(s.heaps[q], w, Writes(z.d));
    forall n | n in z.d.snap ensures n in h && h[n] == z.d.snap[n] { assert ReadOk(s, q, n); }
    assert h.Keys !! z.d.news.Keys;
    assert CorrectOn(z.d, h);
  }

  lemma {:induction false} AllWellFormed(s: State, k: nat, q: nat)
    requires MayCommit(s, k) && k < q <= |s.order|
    ensures WellFormed(s.heaps[q] + Writes(TxAt(s, k).d))
  {
    if q == k + 1 {
      CommitHeap(s, k);
    } else {
      AllWellFormed(s, k, q - 1);
      assert s.heaps[q] == Post(s, q - 1);
      if Decided(TxAt(s, q - 1).pc) { LaterWellFormed(s, k, q - 1); }
    }
  }

  lemma CommitLink(s: State, k: nat, x': Tx, sh': Shared, p: nat)
    requires MayCommit(s, k) && Decided(x'.pc) && Writes(x'.d) == Writes(TxAt(s, k).d) && p < |s.order|
    ensures Shape(Committing(s, k, x', sh'))
    ensures Committing(s, k, x', sh').heaps[p + 1] == Post(Committing(s, k, x', sh'), p)
  {
    hide WellFormed, Good;
    assert s.heaps[p + 1] == Post(s, p);
    if k < p && Decided(TxAt(s, p).pc) {
      LaterApart(s, k, p);
      MergeCommutes(s.heaps[p], Writes(x'.d), Writes(TxAt(s, p).d));
    }
  }

  lemma CommitHeaps(s: State, k: nat, q: nat)
    requires MayCommit(s, k) && q < |s.heaps|
    ensures WellFormed(WithWrites(s.heaps, k, Writes(TxAt(s, k).d))[q])
    ensures WithWrites(s.heaps, k, Writes(TxAt(s, k).d))[q].Keys <= s.sh.committed.Keys + Writes(TxAt(s, k).d).Keys
  {
    if k < q { AllWellFormed(s, k, q); }
    hide WellFormed, Good;
  }

  lemma CommitChain(s: State, k: nat, x': Tx, sh': Shared)
    requires MayCommit(s, k) && Decided(x'.pc) && Writes(x'.d) == Writes(TxAt(s, k).d)
    requires sh'.committed == s.sh.committed + Writes(x'.d)
    ensures Shape(Committing(s, k, x', sh')) && Chain(Committing(s, k, x', sh'))
  {
    hide WellFormed, Good, Post, Place, Apart, Membership;
    var s' := Committing(s, k, x', sh');
    forall q | 0 <= q < |s'.heaps| ensures WellFormed(s'.heaps[q]) && s'.heaps[q].Keys <= sh'.committed.Keys {
      CommitHeaps(s, k, q);
    }
    forall p | 0 <= p < |s'.order| ensures s'.heaps[p + 1] == Post(s', p) { CommitLink(s, k, x', sh', p); }
  }

  lemma CommitPlace(s: State, k: nat, x': Tx, sh': Shared, p: nat)
    requires MayCommit(s, k) && p < |s.order|
    requires Decided(x'.pc) && x'.d == TxAt(s, k).d.(wv := x'.d.wv, todo := x'.d.todo)
    requires sh'.mem == s.sh.mem && forall n :: n in s.sh.stamp ==> n in sh'.stamp && s.sh.stamp[n] <= sh'.stamp[n]
    requires forall n, q :: n in x'.d.ws && 0 <= q < |s.order| && Tentative(TxAt(s, q).pc) ==> n in sh'.stamp && sh'.stamp[n] > TxAt(s, q).d.rv
    ensures Shape(Committing(s, k, x', sh')) && Place(Committing(s, k, x', sh'), p)
  {
    var s' := Committing(s, k, x', sh');
    assert Place(s, p) && (k < p ==> Apart(s, k, p));
    hide WellFormed, Good, Chain;
    assert Writes(x'.d) == Writes(TxAt(s, k).d);
    forall n | n in TxAt(s', p).d.snap ensures ReadOk(s', p, n) {
      assert ReadOk(s, p, n);
      if k < p { assert SeenFree(TxAt(s, p), n) || n in TxAt(s, p).d.todo; }
    }
  }

  lemma OrderCommit(s: State, k: nat, x': Tx, sh': Shared)
    requires MayCommit(s, k)
    requires Decided(x'.pc) && x'.d == TxAt(s, k).d.(wv := x'.d.wv, todo := x'.d.todo)
    requires sh'.committed == s.sh.committed + Writes(x'.d)
    requires sh'.mem == s.sh.mem && forall n :: n in s.sh.stamp ==> n in sh'.stamp && s.sh.stamp[n] <= sh'.stamp[n]
    requires forall n, q :: n in x'.d.ws && 0 <= q < |s.order| && Tentative(TxAt(s, q).pc) ==> n in sh'.stamp && sh'.stamp[n] > TxAt(s, q).d.rv
    ensures OrderInv(Committing(s, k, x', sh'))
  {
    var s' := Committing(s, k, x', sh');
    assert Writes(x'.d) == Writes(TxAt(s, k).d);
    CommitChain(s, k, x', sh');
    forall p | 0 <= p < |s'.order| ensures Place(s', p) { CommitPlace(s, k, x', sh', p); }
    hide WellFormed, Good, Chain, Place;
    forall p, q | 0 <= p < q < |s'.order| ensures Apart(s', p, q) {
      assert Apart(s, p, q);
    }
  }
}
