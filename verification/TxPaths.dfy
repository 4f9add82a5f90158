/** Pieces of runs, from which runs with a given end are put together. */
module TxPaths {
  import opened Basics
  import opened ListHeap
  import opened Transactions
  import opened TxEveryRun

  ghost predicate Reaches(s: State, s': State)
  {
    exists tr: seq<State> :: 0 < |tr| && tr[0] == s && tr[|tr| - 1] == s' && forall k: nat :: k + 1 < |tr| ==> Next(tr[k], tr[k + 1])
  }

  lemma Here(s: State)
    ensures Reaches(s, s)
  {
    var tr := [s];
    assert tr[0] == s;
  }

  lemma Then(a: State, b: State, c: State)
    requires Reaches(a, b) && Next(b, c)
    ensures Reaches(a, c)
  {
    hide Next;
    var tr: seq<State> :| 0 < |tr| && tr[0] == a && tr[|tr| - 1] == b && forall k: nat :: k + 1 < |tr| ==> Next(tr[k], tr[k + 1]);
    var tr' := tr + [c];
    assert tr'[|tr'| - 1] == c;
  }

  lemma RunTo(a: State, s: State) returns (tr: seq<State>)
    requires Reaches(a, s) && Init(a)
    ensures Run(tr) && tr[0] == a && tr[|tr| - 1] == s
  {
    hide Next, Init;
    tr :| 0 < |tr| && tr[0] == a && tr[|tr| - 1] == s && forall k: nat :: k + 1 < |tr| ==> Next(tr[k], tr[k + 1]);
  }

  function With(s: State, i: nat, x: Tx): State
    requires i < |s.txs|
  {
    s.(txs := s.txs[i := x])
  }

  lemma LocalMove(a: State, s: State, i: nat, x: Tx)
    requires Reaches(a, s) && i < |s.txs| && LocalStep(s.sh, s.txs[i], x)
    ensures Reaches(a, With(s, i, x))
  {
    hide LocalStep, Reaches;
    assert With(s, i, x).txs[i] == x;
    assert TxStep(s, i, With(s, i, x));
    Then(a, s, With(s, i, x));
  }

  function Store(s: State, i: nat, x: Tx, n: Node, m: MemNode, dirty: set<Node>): State
    requires i < |s.txs|
  {
    s.(txs := s.txs[i := x], sh := s.sh.(mem := s.sh.mem[n := m], dirty := dirty))
  }

  lemma Memory(a: State, s: State, i: nat, x: Tx, n: Node, m: MemNode, dirty: set<Node>)
    requires Reaches(a, s) && i < |s.txs| && MemoryStep(s.sh, s.txs[i], i, Store(s, i, x, n, m, dirty).sh, x)
    ensures Reaches(a, Store(s, i, x, n, m, dirty))
  {
    hide MemoryStep, Reaches;
    var s' := Store(s, i, x, n, m, dirty);
    assert s'.txs[i] == x;
    assert TxStep(s, i, s');
    Then(a, s, s');
  }

  // ---------------------------------------------------------------- parts of an operation

  predicate Readable(sh: Shared, rv: nat, n: Node)
  {
    n in sh.mem && sh.mem[n].lock.None? && sh.mem[n].version <= rv
  }

  lemma BeginOp(a: State, s: State, i: nat, d: Local)
    requires Reaches(a, s) && i < |s.txs| && s.txs[i].pc == Ready && MIN_KEY < d.key
    requires d == s.txs[i].d.(kind := d.kind, key := d.key, readOnly := s.txs[i].d.readOnly && d.kind == Get)
    ensures Reaches(a, With(s, i, Tx(GettingPred(Pick(d.key)), d)))
  {
    LocalMove(a, s, i, Tx(GettingPred(Pick(d.key)), d));
  }

  /** getPred returns the first node the index offers. */
  lemma PredPath(a: State, s: State, i: nat, d: Local, p: Node)
    requires Reaches(a, s) && i < |s.txs| && s.txs[i] == Tx(GettingPred(Pick(d.key)), d)
    requires p in s.sh.committed && p.key < d.key && Readable(s.sh, d.rv, p) && !s.sh.mem[p].deleted && (p in d.ws ==> !d.ws[p].dead)
    ensures Reaches(a, With(s, i, Tx(GettingNext(Search, p, Start), d)))
  {
    hide Reaches;
    var s1 := With(s, i, Tx(GettingPred(CheckLock(p)), d));
    LocalMove(a, s, i, s1.txs[i]);
    var s2 := With(s1, i, Tx(GettingPred(CheckVersion(p)), d));
    LocalMove(a, s1, i, s2.txs[i]);
    var s3 := With(s2, i, Tx(GettingPred(CheckDeleted(p)), d));
    LocalMove(a, s2, i, s3.txs[i]);
    LocalMove(a, s3, i, Tx(GettingNext(Search, p, Start), d));
    assert With(s3, i, Tx(GettingNext(Search, p, Start), d)) == With(s, i, Tx(GettingNext(Search, p, Start), d));
  }

  /** getNext of a node outside the write set passes all its checks. */
  lemma NextPath(a: State, s: State, i: nat, d: Local, g: Goal, p: Node)
    requires Reaches(a, s) && i < |s.txs| && s.txs[i] == Tx(GettingNext(g, p, Start), d)
    requires p !in d.ws && Readable(s.sh, d.rv, p) && (s.sh.mem[p].next.Some? ==> Readable(s.sh, d.rv, s.sh.mem[p].next.value))
    ensures Reaches(a, With(s, i, Tx(GettingNext(g, p, Done(s.sh.mem[p].next)), d)))
  {
    hide Reaches;
    var nx := s.sh.mem[p].next;
    var s1 := With(s, i, Tx(GettingNext(g, p, Read), d));
    LocalMove(a, s, i, s1.txs[i]);
    var s2 := With(s1, i, Tx(GettingNext(g, p, Recheck(nx)), d));
    LocalMove(a, s1, i, s2.txs[i]);
    var s3 := With(s2, i, Tx(GettingNext(g, p, Version(nx)), d));
    LocalMove(a, s2, i, s3.txs[i]);
    assert With(s3, i, Tx(GettingNext(g, p, Done(nx)), d)) == With(s, i, Tx(GettingNext(g, p, Done(nx)), d));
    if nx.None? {
      LocalMove(a, s3, i, Tx(GettingNext(g, p, Done(nx)), d));
    } else {
      SuccPath(a, s3, i, d, g, p, nx.value);
    }
  }

  lemma SuccPath(a: State, s: State, i: nat, d: Local, g: Goal, p: Node, q: Node)
    requires Reaches(a, s) && i < |s.txs| && s.txs[i] == Tx(GettingNext(g, p, Version(Some(q))), d)
    requires Readable(s.sh, d.rv, p) && Readable(s.sh, d.rv, q)
    ensures Reaches(a, With(s, i, Tx(GettingNext(g, p, Done(Some(q))), d)))
  {
    hide Reaches;
    var s1 := With(s, i, Tx(GettingNext(g, p, SuccLock(q)), d));
    LocalMove(a, s, i, s1.txs[i]);
    var s2 := With(s1, i, Tx(GettingNext(g, p, SuccVersion(q)), d));
    LocalMove(a, s1, i, s2.txs[i]);
    LocalMove(a, s2, i, Tx(GettingNext(g, p, Done(Some(q))), d));
    assert With(s2, i, Tx(GettingNext(g, p, Done(Some(q))), d)) == With(s, i, Tx(GettingNext(g, p, Done(Some(q))), d));
  }

  /** `put` on the found key, up to its return. */
  lemma OverwritePath(a: State, s: State, i: nat, d: Local, p: Node, q: Node)
    requires Reaches(a, s) && i < |s.txs| && s.txs[i] == Tx(GettingNext(Search, p, Done(Some(q))), d)
    requires q.key == d.key && d.kind == Put && q in s.sh.mem
    ensures Reaches(a, With(s, i, Tx(Ready, Logged(Overwritten(s.sh, d, q), s.sh.mem[q].has))))
  {
    hide Reaches, Overwritten;
    var d' := Overwritten(s.sh, d, q);
    var s1 := With(s, i, Tx(Finishing(PutReturn(q)), d'));
    LocalMove(a, s, i, s1.txs[i]);
    LocalMove(a, s1, i, Tx(Ready, Logged(d', s.sh.mem[q].has)));
    assert With(s1, i, Tx(Ready, Logged(d', s.sh.mem[q].has))) == With(s, i, Tx(Ready, Logged(d', s.sh.mem[q].has)));
  }

  /** The value of the predecessor, as `remove` finds it. */
  function PredValue(sh: Shared, d: Local, p: Node): bool
    requires p in sh.mem
  {
    if p in d.ws then d.ws[p].has else sh.mem[p].has
  }

  /** `remove` of the found last node, which is not in the write set. */
  lemma RemovePath(a: State, s: State, i: nat, d: Local, p: Node, q: Node)
    requires Reaches(a, s) && i < |s.txs| && s.txs[i] == Tx(GettingNext(Search, p, Done(Some(q))), d)
    requires q.key == d.key && d.kind == Remove && p in s.sh.mem && q !in d.ws
    requires Readable(s.sh, d.rv, q) && s.sh.mem[q].next.None?
    ensures Reaches(a, With(s, i, Tx(Ready, Removed(s.sh, AddRead(s.sh, d, p, Some(q)), p, q, None, PredValue(s.sh, d, p)))))
  {
    hide Reaches, Removed;
    var d1, g, pv := AddRead(s.sh, d, p, Some(q)), Unlink(p, q), PredValue(s.sh, d, p);
    var s1 := With(s, i, Tx(GettingNext(g, q, Start), d1));
    LocalMove(a, s, i, s1.txs[i]);
    NextPath(a, s1, i, d1, g, q);
    var s2 := With(s1, i, Tx(GettingNext(g, q, Done(None)), d1));
    hide AddRead;
    var s3 := With(s2, i, Tx(Finishing(RemoveVal(p, q, None, pv)), d1));
    if p in d1.ws {
      LocalMove(a, s2, i, s3.txs[i]);
    } else {
      var s4 := With(s2, i, Tx(Finishing(RemovePredVal(p, q, None)), d1));
      LocalMove(a, s2, i, s4.txs[i]);
      LocalMove(a, s4, i, s3.txs[i]);
      assert With(s4, i, s3.txs[i]) == s3;
    }
    var x := Tx(Ready, Removed(s.sh, d1, p, q, None, pv));
    LocalMove(a, s3, i, x);
    assert With(s3, i, x) == With(s, i, x);
  }

  // ---------------------------------------------------------------- parts of TXend

  lemma LockPath(a: State, s: State, i: nat, d: Local, n: Node)
    requires Reaches(a, s) && i < |s.txs| && s.txs[i] == Tx(Locking, d) && n in d.todo
    requires n in s.sh.mem && s.sh.mem[n].lock.None?
    ensures Reaches(a, Store(s, i, Tx(Locking, d.(held := d.held + {n}, todo := d.todo - {n})), n, s.sh.mem[n].(lock := Some(i)), s.sh.dirty))
  {
    hide Reaches;
    var s1 := With(s, i, Tx(LockCas(n, s.sh.mem[n].version, s.sh.mem[n].deleted), d));
    LocalMove(a, s, i, s1.txs[i]);
    var x' := Tx(Locking, d.(held := d.held + {n}, todo := d.todo - {n}));
    Memory(a, s1, i, x', n, s.sh.mem[n].(lock := Some(i)), s.sh.dirty);
    assert Store(s1, i, x', n, s.sh.mem[n].(lock := Some(i)), s.sh.dirty) == Store(s, i, x', n, s.sh.mem[n].(lock := Some(i)), s.sh.dirty);
  }

  lemma ValidatePath(a: State, s: State, i: nat, d: Local, n: Node)
    requires Reaches(a, s) && i < |s.txs| && s.txs[i] == Tx(Validating, d) && n in d.todo && n in d.held
    requires n in s.sh.mem && s.sh.mem[n].version <= d.rv
    ensures Reaches(a, With(s, i, Tx(Validating, d.(todo := d.todo - {n}))))
  {
    hide Reaches;
    var d' := d.(todo := d.todo - {n});
    var s1 := With(s, i, Tx(ValVersion(n), d'));
    LocalMove(a, s, i, s1.txs[i]);
    LocalMove(a, s1, i, Tx(Validating, d'));
    assert With(s1, i, Tx(Validating, d')) == With(s, i, Tx(Validating, d'));
  }

  function Written(m: MemNode, c: Cell, version: nat): MemNode { m.(next := c.next, has := c.has, version := version) }

  /** The first two stores: link and value. */
  lemma LinkAndValue(a: State, s: State, i: nat, d: Local, n: Node)
    requires Reaches(a, s) && i < |s.txs| && s.txs[i] == Tx(WritingBack(PickNode), d) && n in d.todo
    requires n in s.sh.mem && n in d.ws
    ensures Reaches(a, Store(s, i, Tx(WritingBack(if d.ws[n].dead then Deleted(n) else Stamp(n)), d.(todo := d.todo - {n})), n,
                             s.sh.mem[n].(next := d.ws[n].next, has := d.ws[n].has), s.sh.dirty))
  {
    hide Reaches;
    var d', m, w := d.(todo := d.todo - {n}), s.sh.mem[n], d.ws[n];
    var s1 := Store(s, i, Tx(WritingBack(Val(n)), d'), n, m.(next := w.next), s.sh.dirty);
    Memory(a, s, i, s1.txs[i], n, m.(next := w.next), s.sh.dirty);
    var x := Tx(WritingBack(if w.dead then Deleted(n) else Stamp(n)), d');
    Memory(a, s1, i, x, n, m.(next := w.next, has := w.has), s.sh.dirty);
    assert Store(s1, i, x, n, m.(next := w.next, has := w.has), s.sh.dirty) == Store(s, i, x, n, m.(next := w.next, has := w.has), s.sh.dirty);
  }

  /** The last store: the version. */
  lemma VersionStore(a: State, s: State, i: nat, d: Local, n: Node)
    requires Reaches(a, s) && i < |s.txs| && s.txs[i] == Tx(WritingBack(Stamp(n)), d) && n in s.sh.mem
    ensures Reaches(a, Store(s, i, Tx(WritingBack(PickNode), d), n, s.sh.mem[n].(version := d.wv), s.sh.dirty - {n}))
  {
    hide Reaches;
    Memory(a, s, i, Tx(WritingBack(PickNode), d), n, s.sh.mem[n].(version := d.wv), s.sh.dirty - {n});
  }

  lemma WritePath(a: State, s: State, i: nat, d: Local, n: Node)
    requires Reaches(a, s) && i < |s.txs| && s.txs[i] == Tx(WritingBack(PickNode), d) && n in d.todo
    requires n in s.sh.mem && n in d.ws && !d.ws[n].dead
    ensures Reaches(a, Store(s, i, Tx(WritingBack(PickNode), d.(todo := d.todo - {n})), n,
                             Written(s.sh.mem[n], d.ws[n], d.wv), s.sh.dirty - {n}))
  {
    hide Reaches;
    var d', m, w := d.(todo := d.todo - {n}), s.sh.mem[n], d.ws[n];
    LinkAndValue(a, s, i, d, n);
    var s1 := Store(s, i, Tx(WritingBack(Stamp(n)), d'), n, m.(next := w.next, has := w.has), s.sh.dirty);
    VersionStore(a, s1, i, d', n);
    var x := Tx(WritingBack(PickNode), d');
    assert Store(s1, i, x, n, Written(m, w, d.wv), s.sh.dirty - {n}) == Store(s, i, x, n, Written(m, w, d.wv), s.sh.dirty - {n});
  }

  function Emptied(m: MemNode, c: Cell, version: nat): MemNode
  {
    m.(next := c.next, has := false, deleted := true, version := version)
  }

  /** Write-back of a removed node. */
  lemma WriteDeadPath(a: State, s: State, i: nat, d: Local, n: Node)
    requires Reaches(a, s) && i < |s.txs| && s.txs[i] == Tx(WritingBack(PickNode), d) && n in d.todo
    requires n in s.sh.mem && n in d.ws && d.ws[n].dead
    ensures Reaches(a, Store(s, i, Tx(WritingBack(PickNode), d.(todo := d.todo - {n})), n,
                             Emptied(s.sh.mem[n], d.ws[n], d.wv), s.sh.dirty - {n}))
  {
    hide Reaches;
    var d', m, w := d.(todo := d.todo - {n}), s.sh.mem[n], d.ws[n];
    LinkAndValue(a, s, i, d, n);
    var m2 := m.(next := w.next, has := w.has);
    var s2 := Store(s, i, Tx(WritingBack(Deleted(n)), d'), n, m2, s.sh.dirty);
    BitStores(a, s2, i, d', n);
    var s4 := Store(s2, i, Tx(WritingBack(Stamp(n)), d'), n, m2.(deleted := true, has := false), s.sh.dirty);
    VersionStore(a, s4, i, d', n);
    var x := Tx(WritingBack(PickNode), d');
    assert Store(s4, i, x, n, Emptied(m, w, d.wv), s.sh.dirty - {n}) == Store(s, i, x, n, Emptied(m, w, d.wv), s.sh.dirty - {n});
  }

  /** Deleted bit, null value. */
  lemma BitStores(a: State, s: State, i: nat, d: Local, n: Node)
    requires Reaches(a, s) && i < |s.txs| && s.txs[i] == Tx(WritingBack(Deleted(n)), d) && n in s.sh.mem
    ensures Reaches(a, Store(s, i, Tx(WritingBack(Stamp(n)), d), n, s.sh.mem[n].(deleted := true, has := false), s.sh.dirty))
  {
    hide Reaches;
    var m := s.sh.mem[n];
    var s1 := Store(s, i, Tx(WritingBack(Null(n)), d), n, m.(deleted := true), s.sh.dirty);
    Memory(a, s, i, s1.txs[i], n, m.(deleted := true), s.sh.dirty);
    var x := Tx(WritingBack(Stamp(n)), d);
    Memory(a, s1, i, x, n, m.(deleted := true, has := false), s.sh.dirty);
    assert Store(s1, i, x, n, m.(deleted := true, has := false), s.sh.dirty) == Store(s, i, x, n, m.(deleted := true, has := false), s.sh.dirty);
  }

  lemma UnlockPath(a: State, s: State, i: nat, d: Local, n: Node)
    requires Reaches(a, s) && i < |s.txs| && s.txs[i] == Tx(Unlocking(true), d) && n in d.held && n in s.sh.mem
    ensures Reaches(a, Store(s, i, Tx(Unlocking(true), d.(held := d.held - {n})), n, s.sh.mem[n].(lock := None), s.sh.dirty))
  {
    Memory(a, s, i, Tx(Unlocking(true), d.(held := d.held - {n})), n, s.sh.mem[n].(lock := None), s.sh.dirty);
  }

  lemma AcquirePath(a: State, s: State, i: nat, d: Local)
    requires Reaches(a, s) && i < |s.txs| && s.txs[i] == Tx(Locking, d) && d.todo == {}
    ensures Reaches(a, State(s.sh, s.txs[i := Tx(Validating, d.(todo := d.rs))], s.order + [i], s.heaps + [s.sh.committed]))
  {
    hide Reaches;
    var s' := State(s.sh, s.txs[i := Tx(Validating, d.(todo := d.rs))], s.order + [i], s.heaps + [s.sh.committed]);
    assert AcquiredStep(s, i, s');
    hide AcquiredStep;
    assert TxStep(s, i, s');
    Then(a, s, s');
  }

  lemma CommitPath(a: State, s: State, i: nat, d: Local, p: nat) returns (s': State)
    requires Reaches(a, s) && i < |s.txs| && s.txs[i] == Tx(Validating, d) && d.todo == {} && !d.readOnly
    requires p < |s.order| && s.order[p] == i
    ensures Reaches(a, s') && s'.order == s.order
    ensures s'.txs == s.txs[i := Tx(WritingBack(PickNode), d.(wv := s.sh.gvc + 1, todo := d.ws.Keys))]
    ensures s'.sh.mem == s.sh.mem && s'.sh.gvc == s.sh.gvc + 1 && s'.sh.dirty == s.sh.dirty + d.ws.Keys
    ensures s'.sh.committed == s.sh.committed + Writes(d)
    ensures s'.sh.stamp == s.sh.stamp + (map n | n in d.news :: 0) + (map n | n in d.ws :: s.sh.gvc + 1)
  {
    hide Reaches, TxStep;
    s' := CommitState(s, i, d, p);
    Then(a, s, s');
  }

  /** Shared memory after the commit of a writer. */
  function CommittedShared(sh: Shared, d: Local): Shared
  {
    Shared(sh.mem, sh.gvc + 1, sh.committed + Writes(d),
           sh.stamp + (map n | n in d.news :: 0) + (map n | n in d.ws :: sh.gvc + 1), sh.dirty + d.ws.Keys)
  }

  lemma CommitMove(sh: Shared, d: Local)
    requires d.todo == {} && !d.readOnly
    ensures CommitStep(sh, Tx(Validating, d), CommittedShared(sh, d), Tx(WritingBack(PickNode), d.(wv := sh.gvc + 1, todo := d.ws.Keys)))
  {
  }

  lemma CommitState(s: State, i: nat, d: Local, p: nat) returns (s': State)
    requires i < |s.txs| && s.txs[i] == Tx(Validating, d) && d.todo == {} && !d.readOnly
    requires p < |s.order| && s.order[p] == i
    ensures |s'.txs| == |s.txs| && TxStep(s, i, s') && s'.order == s.order && s'.sh == CommittedShared(s.sh, d)
    ensures s'.txs == s.txs[i := Tx(WritingBack(PickNode), d.(wv := s.sh.gvc + 1, todo := d.ws.Keys))]
  {
    hide CommitStep, WithWrites, Writes, CommittedShared, LocalStep, MemoryStep, AcquiredStep, ValidationFailStep;
    CommitMove(s.sh, d);
    var x' := Tx(WritingBack(PickNode), d.(wv := s.sh.gvc + 1, todo := d.ws.Keys));
    s' := State(CommittedShared(s.sh, d), s.txs[i := x'], s.order, WithWrites(s.heaps, p, Writes(d)));
    assert s'.txs[i] == x';
    assert CommitPointStep(s, i, s');
  }
}
