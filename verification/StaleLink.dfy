/** What a blind overwrite does to the list, exactly, when the transaction that made it goes on to commit. */
module StaleLink {
  import opened Basics
  import opened ListHeap
  import opened Transactions
  import opened TxInvariant
  import opened TxLocalSteps
  import opened TxOperations
  import opened TxCommit
  import opened SerialOrder
  import opened TxEveryRun
  import opened TxMachine
  import opened Serializability
  import opened Doomed
  import opened BlindOverwrite
  import opened ListSize

  // ---------------------------------------------------------------- a transaction that ends with such a put

  /** Returning from `put`, between operations, or in TXend before the commit point. */
  predicate Closing(pc: Pc)
  {
    (pc.Finishing? && pc.fp.PutReturn?) || pc.Ready? || pc.Locking? || pc.LockCas? || Tentative(pc)
  }

  /** In state `j` transaction `i` is about to overwrite a node it reached through its write set, and by state
      `k` it has done so, and no more than go through TXend up to the commit point. */
  ghost predicate EndsWithPut(tr: seq<State>, j: nat, k: nat, i: nat)
  {
    && j < k < |tr| && (forall m :: j <= m <= k ==> i < |tr[m].txs|)
    && Blind(tr[j].txs[i])
    && forall m {:trigger tr[m]} :: j < m <= k ==> Closing(tr[m].txs[i].pc)
  }

  /** The node it overwrites. */
  function Target(x: Tx): Node
    requires Blind(x)
  {
    x.pc.np.nx.value
  }

  lemma CopyHappened(s: State, a: nat, s': State, i: nat)
    requires a < |s.txs| == |s'.txs| && TxStep(s, a, s') && i < |s.txs| && Blind(s.txs[i]) && Closing(s'.txs[i].pc)
    ensures Target(s.txs[i]) in s.sh.mem && s'.sh == s.sh
    ensures s'.txs[i] == Tx(Finishing(PutReturn(Target(s.txs[i]))), Overwritten(s.sh, s.txs[i].d, Target(s.txs[i])))
  {
    hide PredStep, Without, WithWrites, AddRead, StaleCopy;
  }

  predicate Kept(d: Local, d': Local)
  {
    d'.rv == d.rv && d'.snap == d.snap && d'.ws == d.ws && d'.news == d.news
  }

  /** Between the copy and the commit point the operation returns once, and no other one does. */
  predicate Returning(x: Tx, q: Node, d0: Local)
  {
    if x.pc.Finishing? then x.pc == Finishing(PutReturn(q)) && x.d.log == d0.log && x.d.kind == d0.kind && x.d.key == d0.key
    else x.d.log == Logged(d0, true).log
  }

  lemma ClosingStart(sh: Shared, x: Tx, x': Tx)
    requires StartStep(sh, x, x') && Closing(x.pc) && Closing(x'.pc)
    ensures Kept(x.d, x'.d) && x'.d.log == x.d.log && !x.pc.Finishing? && !x'.pc.Finishing?
  {
  }

  lemma ClosingCommit(sh: Shared, x: Tx, x': Tx)
    requires CommitLocalStep(sh, x, x') && Closing(x.pc) && Closing(x'.pc)
    ensures Kept(x.d, x'.d) && x'.d.log == x.d.log && !x.pc.Finishing? && !x'.pc.Finishing?
  {
  }

  lemma ClosingAct(sh: Shared, x: Tx, x': Tx)
    requires ActStep(sh, x, x') && Closing(x.pc) && Closing(x'.pc)
    ensures x.pc.Finishing? && x.pc.fp.q in sh.mem && x' == Tx(Ready, Logged(x.d, sh.mem[x.pc.fp.q].has))
  {
    hide Removed;
  }

  lemma ClosingLocal(sh: Shared, x: Tx, x': Tx, q: Node, d0: Local)
    requires LocalStep(sh, x, x') && Closing(x.pc) && Closing(x'.pc)
    ensures Kept(x.d, x'.d)
    ensures Returning(x, q, d0) && (x.pc.Finishing? && q in sh.mem ==> sh.mem[q].has) ==> Returning(x', q, d0)
  {
    hide StartStep, CommitLocalStep, ActStep, NextStep, PredStep;
    if StartStep(sh, x, x') { ClosingStart(sh, x, x'); }
    else if CommitLocalStep(sh, x, x') { ClosingCommit(sh, x, x'); }
    else if ActStep(sh, x, x') { ClosingAct(sh, x, x'); }
  }

  lemma ClosingMemory(sh: Shared, x: Tx, i: nat, sh': Shared, x': Tx, q: Node, d0: Local)
    requires MemoryStep(sh, x, i, sh', x') && Closing(x.pc) && Closing(x'.pc)
    ensures Kept(x.d, x'.d) && (Returning(x, q, d0) ==> Returning(x', q, d0))
  {
    hide InsertedLocal, WriteBackStep, Logged;
  }

  lemma ClosingOther(s: State, i: nat, s': State, q: Node, d0: Local)
    requires i < |s.txs| == |s'.txs| && Closing(s.txs[i].pc) && Closing(s'.txs[i].pc)
    requires AcquiredStep(s, i, s') || ValidationFailStep(s, i, s') || CommitPointStep(s, i, s')
    ensures Kept(s.txs[i].d, s'.txs[i].d) && (Returning(s.txs[i], q, d0) ==> Returning(s'.txs[i], q, d0))
  {
    hide Without, WithWrites, ValidationFails, Logged;
    if CommitPointStep(s, i, s') { CommitPcs(s.sh, s.txs[i], s'.sh, s'.txs[i]); }
    hide CommitStep;
  }

  lemma ClosingKeeps(s: State, a: nat, s': State, i: nat, q: Node, d0: Local)
    requires a < |s.txs| == |s'.txs| && TxStep(s, a, s') && i < |s.txs| && Closing(s.txs[i].pc) && Closing(s'.txs[i].pc)
    ensures Kept(s.txs[i].d, s'.txs[i].d)
    ensures Returning(s.txs[i], q, d0) && (s.txs[i].pc.Finishing? && q in s.sh.mem ==> s.sh.mem[q].has) ==> Returning(s'.txs[i], q, d0)
  {
    hide LocalStep, MemoryStep, AcquiredStep, ValidationFailStep, CommitPointStep, Closing, Returning;
    OthersSame(s, a, s');
    if a == i {
      if LocalStep(s.sh, s.txs[i], s'.txs[i]) && s' == s.(txs := s.txs[i := s'.txs[i]]) {
        ClosingLocal(s.sh, s.txs[i], s'.txs[i], q, d0);
      } else if MemoryStep(s.sh, s.txs[i], i, s'.sh, s'.txs[i]) && s' == s.(txs := s.txs[i := s'.txs[i]], sh := s'.sh) {
        ClosingMemory(s.sh, s.txs[i], i, s'.sh, s'.txs[i], q, d0);
      } else { ClosingOther(s, i, s', q, d0); }
    }
  }

  lemma {:induction false} KeptTo(tr: seq<State>, j: nat, m: nat, k: nat, i: nat)
    requires Run(tr) && EndsWithPut(tr, j, k, i) && j < m <= k
    ensures Kept(tr[j + 1].txs[i].d, tr[m].txs[i].d)
    decreases m
  {
    hide TxStep, Closing, Blind;
    if j + 1 < m {
      KeptTo(tr, j, m - 1, k, i);
      assert Next(tr[m - 1], tr[m]);
      var a: nat :| a < |tr[m - 1].txs| == |tr[m].txs| && TxStep(tr[m - 1], a, tr[m]);
      ClosingKeeps(tr[m - 1], a, tr[m], i, Target(tr[j].txs[i]), tr[j].txs[i].d);
    }
  }

  lemma CopyMade(tr: seq<State>, j: nat, k: nat, i: nat)
    requires Run(tr) && EndsWithPut(tr, j, k, i)
    ensures Target(tr[j].txs[i]) in tr[j].sh.mem && tr[j + 1].sh == tr[j].sh
    ensures tr[j + 1].txs[i] == Tx(Finishing(PutReturn(Target(tr[j].txs[i]))), Overwritten(tr[j].sh, tr[j].txs[i].d, Target(tr[j].txs[i])))
    ensures Kept(tr[j + 1].txs[i].d, tr[k].txs[i].d)
  {
    hide TxStep, Closing, Blind;
    assert Next(tr[j], tr[j + 1]);
    var a: nat :| a < |tr[j].txs| == |tr[j + 1].txs| && TxStep(tr[j], a, tr[j + 1]);
    CopyHappened(tr[j], a, tr[j + 1], i);
    KeptTo(tr, j, k, k, i);
  }

  // ---------------------------------------------------------------- what it should have copied

  /** The transaction with the link it should have copied, at the end of the operation. */
  function Right(sh: Shared, d: Local, q: Node): Local
    requires q in View(sh, d)
  {
    var link := View(sh, d)[q].next;
    Logged(AddRead(sh, d, q, link).(ws := d.ws[q := Cell(link, false, true)]), true)
  }

  /** What the invariant says where a blind overwrite is about to happen. */
  lemma BlindFacts(sh: Shared, x: Tx, i: nat, q: Node)
    requires RunningInv(sh, x, i) && Blind(x) && q == Target(x) && Clean(sh, x.d) && Settled(sh, x.d, q)
    ensures UndecidedInv(sh, x.d, i) && Good(x.d) && Live(View(sh, x.d), q) && q !in x.d.ws
    ensures Visible(sh, x.d, q) && MIN_KEY < x.d.key == q.key && x.d.kind == Put && !x.d.readOnly
  {
    hide UndecidedInv, Good, View, Clean, Settled;
  }

  lemma RightGood(sh: Shared, d: Local, i: nat, q: Node)
    requires SharedInv(sh) && UndecidedInv(sh, d, i) && Good(d) && Clean(sh, d) && Settled(sh, d, q)
    requires Live(View(sh, d), q) && Visible(sh, d, q) && q !in d.ws
    requires MIN_KEY < d.key == q.key && d.kind == Put && !d.readOnly
    ensures Good(Right(sh, d, q))
  {
    var link := View(sh, d)[q].next;
    var d1 := AddRead(sh, d, q, link);
    var d2 := d1.(ws := d.ws[q := Cell(link, false, true)]);
    assert SharedBase(sh);
    ViewWellFormed(sh, d, i);
    assert View(sh, d)[q] == Cell(link, false, true) && (link.Some? ==> Visible(sh, d, link.value)) by {
      assert LinkOk(View(sh, d), q);
    }
    hide SharedInv, SharedBase, Good, UndecidedInv, WellFormed;
    AddReadKeeps(sh, d, i, q, link);
    AddReadGood(sh, d, i, q, link);
    AddReadCurrent(sh, d, q, link);
    OverwriteGood(sh, d1, i, q, Cell(link, false, true));
    WriteKeeps(sh, d1, i, q, Cell(link, false, true));
    OverlaySame(sh.committed, d1.news, d1.ws, q);
    hide Live;
    PresentGood(sh, d2, i, q);
  }

  lemma AddReadCurrent(sh: Shared, d: Local, q: Node, link: Option<Node>)
    requires Clean(sh, d) && Settled(sh, d, q)
    ensures Clean(sh, AddRead(sh, d, q, link))
  {
  }

  // ---------------------------------------------------------------- what the right link would have committed

  /** The order does not depend on what an undecided transaction would write, only where. */
  lemma OrderSameKeys(s: State, i: nat, x': Tx)
    requires OrderInv(s) && i < |s.txs| && Tentative(s.txs[i].pc) && x'.pc == s.txs[i].pc
    requires x'.d.snap == s.txs[i].d.snap && x'.d.news == s.txs[i].d.news && x'.d.rv == s.txs[i].d.rv
    requires x'.d.todo == s.txs[i].d.todo && x'.d.ws.Keys == s.txs[i].d.ws.Keys
    ensures OrderInv(s.(txs := s.txs[i := x']))
  {
    hide WellFormed;
    var s' := s.(txs := s.txs[i := x']);
    assert Writes(x'.d).Keys == Writes(s.txs[i].d).Keys;
    forall p | 0 <= p < |s.order| ensures s'.heaps[p + 1] == Post(s', p) && Place(s', p) {
      assert s.heaps[p + 1] == Post(s, p) && Place(s, p);
      forall n | n in TxAt(s', p).d.snap ensures ReadOk(s', p, n) { assert ReadOk(s, p, n); }
    }
    forall p, q | 0 <= p < q < |s.order| ensures Apart(s', p, q) { assert Apart(s, p, q); }
  }

  lemma RightMay(s: State, p: nat, d': Local)
    requires StateInv(s) && p < |s.order| && TxAt(s, p).pc.Validating? && TxAt(s, p).d.todo == {} && Good(d')
    requires d' == TxAt(s, p).d.(ws := d'.ws, used := d'.used, stale := false)
    requires d'.ws.Keys == TxAt(s, p).d.ws.Keys
    ensures MayCommit(s.(txs := s.txs[s.order[p] := Tx(Validating, d')]), p)
  {
    var i := s.order[p];
    var x' := Tx(Validating, d');
    var s' := s.(txs := s.txs[i := x']);
    TxBaseAt(s, i);
    hide BaseInv, SharedInv, Good, WellFormed, Place, Apart;
    PrivateUncommitted(s.sh, s.txs[i], i);
    hide TxBase;
    forall q | 0 <= q < |s.order|
      ensures TxAt(s', q).d.snap.Keys <= s.sh.committed.Keys && (Decided(TxAt(s', q).pc) ==> Good(TxAt(s', q).d))
    {
      OrderedFacts(s, q);
    }
    hide TxsInv;
    OrderSameKeys(s, i, x');
  }

  lemma SameResults(a: seq<Tx>, b: seq<Tx>, ids: seq<nat>, initial: set<nat>, final: set<nat>)
    requires Serializes(a, ids, initial, final) && |a| == |b|
    requires forall i :: 0 <= i < |a| ==> (Decided(a[i].pc) <==> Decided(b[i].pc)) && a[i].d.log == b[i].d.log
    ensures Serializes(b, ids, initial, final)
  {
    hide Explains, After;
    SameLogs(a, b, ids);
  }

  lemma {:induction false} SameLogs(a: seq<Tx>, b: seq<Tx>, ids: seq<nat>)
    requires |a| == |b| && forall i :: 0 <= i < |a| ==> a[i].d.log == b[i].d.log
    requires forall k :: 0 <= k < |ids| ==> ids[k] < |a|
    ensures Logs(a, ids) == Logs(b, ids)
  {
    if ids != [] { SameLogs(a, b, ids[..|ids| - 1]); }
  }

  lemma StateShape(s: State)
    requires StateInv(s)
    ensures Shape(s) && |s.heaps| > 0
  {
  }

  lemma RightStamps(s: State, p: nat, d': Local, sh': Shared, x': Tx)
    requires StateInv(s) && p < |s.order| && CommitStep(s.sh, TxAt(s, p), sh', x')
    requires d'.ws.Keys == TxAt(s, p).d.ws.Keys && d'.rv == TxAt(s, p).d.rv
    ensures var t := s.(txs := s.txs[s.order[p] := Tx(Validating, d')]);
            forall n, q :: n in d'.ws && 0 <= q < |s.order| && Tentative(TxAt(t, q).pc) ==> n in sh'.stamp && sh'.stamp[n] > TxAt(t, q).d.rv
    ensures forall n :: n in s.sh.stamp ==> n in sh'.stamp && s.sh.stamp[n] <= sh'.stamp[n]
  {
    CommitStamps(s, p, sh', x');
    CommitShape(s.sh, TxAt(s, p), sh', x');
    assert forall q :: 0 <= q < |s.order| ==> s.order[q] < |s.txs|;
    hide StateInv, CommitStep;
    var t := s.(txs := s.txs[s.order[p] := Tx(Validating, d')]);
    forall n, q | n in d'.ws && 0 <= q < |s.order| && Tentative(TxAt(t, q).pc)
      ensures n in sh'.stamp && sh'.stamp[n] > TxAt(t, q).d.rv
    {
      assert n in x'.d.ws && Tentative(TxAt(s, q).pc) && TxAt(t, q).d.rv == TxAt(s, q).d.rv;
    }
  }

  /** The state that a commit with the right link would have led to. */
  lemma RightState(s: State, p: nat, d': Local, sh': Shared, x': Tx) returns (u: State)
    requires StateInv(s) && p < |s.order| && CommitStep(s.sh, TxAt(s, p), sh', x') && Good(d')
    requires d' == TxAt(s, p).d.(ws := d'.ws, used := d'.used, stale := false)
    requires d'.ws.Keys == TxAt(s, p).d.ws.Keys
    ensures OrderInv(u) && u.order == s.order && u.sh.committed == s.sh.committed + Writes(d')
    ensures u.txs == s.txs[s.order[p] := Tx(x'.pc, d'.(wv := x'.d.wv, todo := x'.d.todo))]
    ensures u.heaps == WithWrites(s.heaps, p, Writes(d'))
  {
    hide StateInv, CommitStep, Good, WellFormed, Writes, MayCommit, OrderInv, WithWrites;
    StateShape(s);
    CommitShape(s.sh, TxAt(s, p), sh', x');
    var t := s.(txs := s.txs[s.order[p] := Tx(Validating, d')]);
    var y := Tx(x'.pc, d'.(wv := x'.d.wv, todo := x'.d.todo));
    var h := sh'.(committed := s.sh.committed + Writes(d'));
    RightStamps(s, p, d', sh', x');
    RightMay(s, p, d');
    WritesSame(d', y.d);
    hide TxAt;
    OrderCommit(t, p, y, h);
    u := Committing(t, p, y, h);
  }

  /** With the right link the transaction could have committed: its results and everybody else's are those of
      a serial order, and what it would have left is a well-formed list. */
  lemma RightCommits(s: State, p: nat, d': Local, sh': Shared, x': Tx)
    requires StateInv(s) && p < |s.order| && CommitStep(s.sh, TxAt(s, p), sh', x') && Good(d')
    requires d' == TxAt(s, p).d.(ws := d'.ws, used := d'.used, stale := false)
    requires d'.ws.Keys == TxAt(s, p).d.ws.Keys
    ensures WellFormed(s.sh.committed + Writes(d')) && |s.heaps| > 0
    ensures Serializable(s.txs[s.order[p] := x'], Keys(s.heaps[0]), Keys(s.sh.committed + Writes(d')))
  {
    hide StateInv, Good, CommitStep, OrderInv, Serializable, WellFormed, Keys, Writes;
    StateShape(s);
    var i := s.order[p];
    CommitShape(s.sh, TxAt(s, p), sh', x');
    var u := RightState(s, p, d', sh', x');
    GoodBookkeeping(d', u.txs[i].d);
    assert Shape(u) && Membership(u) by { OrderParts(u); }
    ThenGood(s, p, u);
    SerialOf(u, s.txs[i := x'], s.heaps[0]);
  }

  lemma OrderParts(s: State)
    requires OrderInv(s)
    ensures Shape(s) && Membership(s)
  {
  }

  lemma SerialOf(u: State, txs: seq<Tx>, h: Heap)
    requires OrderInv(u) && forall p :: 0 <= p < |u.order| && Decided(TxAt(u, p).pc) ==> Good(TxAt(u, p).d)
    requires |txs| == |u.txs| && |u.heaps| > 0 && u.heaps[0] == h
    requires forall i :: 0 <= i < |txs| ==> (Decided(txs[i].pc) <==> Decided(u.txs[i].pc)) && txs[i].d.log == u.txs[i].d.log
    ensures WellFormed(u.sh.committed) && Serializable(txs, Keys(h), Keys(u.sh.committed))
  {
    assert WellFormed(u.heaps[|u.order|]) && u.heaps[|u.order|] == u.sh.committed;
    hide Good, OrderInv, WellFormed, Keys, Serializes;
    SerialHere(u);
    SameResults(u.txs, txs, SerialIds(u, |u.order|), Keys(h), Keys(u.sh.committed));
  }

  lemma ThenGood(s: State, p: nat, u: State)
    requires StateInv(s) && p < |s.order| && u.order == s.order && |u.txs| == |s.txs| && Shape(u)
    requires Good(u.txs[s.order[p]].d) && forall i :: 0 <= i < |s.txs| && i != s.order[p] ==> u.txs[i] == s.txs[i]
    requires |u.heaps| == |s.heaps| && u.heaps[0] == s.heaps[0]
    ensures |s.heaps| > 0 && forall q :: 0 <= q < |u.order| && Decided(TxAt(u, q).pc) ==> Good(TxAt(u, q).d)
  {
    forall q | 0 <= q < |u.order| && Decided(TxAt(u, q).pc) ensures Good(TxAt(u, q).d) { OrderedFacts(s, q); }
  }

  lemma WritesSame(d: Local, d': Local)
    requires d'.ws == d.ws && d'.news == d.news
    ensures Writes(d') == Writes(d)
  {
  }

  // ---------------------------------------------------------------- at the commit point

  /** The live nodes of a well-formed list determine its links. */
  lemma LinkUnique(h: Heap, g: Heap, q: Node)
    requires WellFormed(h) && WellFormed(g) && Live(h, q) && forall n :: Live(h, n) <==> Live(g, n)
    ensures h[q].next == g[q].next
  {
    assert LinkOk(h, q) && LinkOk(g, q);
  }

  /** No live node links to `x`. */
  predicate Unreached(h: Heap, x: Node) { forall n :: n in h && Live(h, n) ==> h[n].next != Some(x) }

  lemma OnlyPredecessor(h: Heap, q: Node, x: Node)
    requires WellFormed(h) && Live(h, q) && h[q].next == Some(x)
    ensures Live(h, x) && forall n :: Live(h, n) && h[n].next == Some(x) ==> n == q
  {
    assert LinkOk(h, q);
    forall n | Live(h, n) && h[n].next == Some(x) ensures n == q { assert LinkOk(h, n); }
  }

  /** A well-formed list with one link changed: the successor is lost, or the list does not end where it
      should. */
  predicate BrokenAt(h: Heap, q: Node, right: Option<Node>)
  {
    match right
    case Some(x) => q.key < x.key && Live(h, x) && h[x].has && Unreached(h, x)
    case None => q in h && h[q].next.Some? && !(Live(h, h[q].next.value) && q.key < h[q].next.value.key)
  }

  lemma OneLinkChanged(h: Heap, q: Node, link: Option<Node>)
    requires WellFormed(h) && Live(h, q)
    ensures WellFormed(h[q := Cell(link, false, true)]) <==> link == h[q].next
    ensures link != h[q].next ==> BrokenAt(h[q := Cell(link, false, true)], q, h[q].next)
    ensures Valued(h[q := Cell(link, false, true)])
  {
    var g := h[q := Cell(link, false, true)];
    assert LinkOk(h, q);
    assert forall n :: Live(h, n) <==> Live(g, n);
    if link == h[q].next {
      assert g == h;
    } else {
      if WellFormed(g) { LinkUnique(h, g, q); }
      if h[q].next.Some? { OnlyPredecessor(h, q, h[q].next.value); }
    }
  }

  // ---------------------------------------------------------------- from the copy to the commit point

  /** At the copy: the transaction was good, the node settled; and whether the copy is stale. */
  lemma AtCopyHere(sh: Shared, x: Tx, i: nat, q: Node)
    requires SharedInv(sh) && RunningInv(sh, x, i) && Blind(x) && q == Target(x) && q in sh.mem
    requires Clean(sh, x.d) && Current(sh, Overwritten(sh, x.d, q))
    ensures q in View(sh, x.d) && q !in x.d.ws && Settled(sh, x.d, q) && Visible(sh, x.d, q)
    ensures Good(Right(sh, x.d, q))
    ensures StaleCopy(sh, x.d, q) <==> sh.mem[q].next != View(sh, x.d)[q].next
  {
    assert SharedBase(sh) && NewsInv(sh, x.d);
    assert Visible(sh, x.d, q) && q !in x.d.ws by { hide SharedInv, UndecidedInv, Good; }
    SettledByRead(sh, x.d, q);
    hide SharedInv, SharedBase, Good, UndecidedInv, RunningInv, Clean, Settled, Overwritten, Blind, StaleCopy;
    BlindFacts(sh, x, i, q);
    RightGood(sh, x.d, i, q);
    NotStale(sh, x.d, q);
  }

  lemma AtCopy(tr: seq<State>, j: nat, k: nat, i: nat)
    requires Run(tr) && EndsWithPut(tr, j, k, i) && Faithful(tr[k]) && !tr[j].txs[i].d.stale
    requires tr[k].txs[i].pc.Validating? && tr[k].txs[i].d.todo == {}
    ensures var sh, d, q := tr[j].sh, tr[j].txs[i].d, Target(tr[j].txs[i]);
            && q in sh.mem && q in View(sh, d) && q !in d.ws && Settled(sh, d, q) && Visible(sh, d, q)
            && Good(Right(sh, d, q))
            && (StaleCopy(sh, d, q) <==> sh.mem[q].next != View(sh, d)[q].next)
  {
    assert Blind(tr[j].txs[i]) && i < |tr[j].txs| && i < |tr[k].txs| && i < |tr[j + 1].txs|;
    CopyMade(tr, j, k, i);
    hide EndsWithPut, Faithful, Run, StateInv, Current, Overwritten, StaleCopy, Settled, Good, Right, Visible, View;
    CommittersWereCurrent(tr, j, k, i);
    CommittersWereCurrent(tr, j + 1, k, i);
    FaithfulBefore(tr, j, k);
    RunKeeps(tr, j);
    RunningHere(tr[j], i);
    hide SharedInv, RunningInv;
    AtCopyHere(tr[j].sh, tr[j].txs[i], i, Target(tr[j].txs[i]));
  }

  lemma SettledByRead(sh: Shared, d: Local, q: Node)
    requires q in sh.mem && q !in d.ws && Current(sh, Overwritten(sh, d, q)) && (q in sh.committed || q in d.news)
    ensures Settled(sh, d, q)
  {
    var d1 := Overwritten(sh, d, q);
    if q !in d.news { assert q in d1.snap; }
  }

  /** At the commit point, the link that should have been copied is the one in memory. */
  lemma AtCommit(s: State, p: nat, q: Node, c: Cell)
    requires StateInv(s) && p < |s.order| && TxAt(s, p).pc.Validating? && TxAt(s, p).d.todo == {}
    requires q in TxAt(s, p).d.ws
    requires (q in TxAt(s, p).d.snap && TxAt(s, p).d.snap[q] == c) || (q in TxAt(s, p).d.news && TxAt(s, p).d.news[q] == c)
    ensures q in s.sh.mem && s.sh.mem[q].next == c.next
  {
    var i := s.order[p];
    var x := s.txs[i];
    assert TxInv(s.sh, x, i) && TentativeInv(s.sh, x, i);
    BaseParts(s);
    hide StateInv, TxInv;
    if q in x.d.snap {
      assert Checked(x, q) && q in x.d.held && q !in s.sh.dirty;
      assert NodeBase(s.sh, q);
    }
    hide Good;
  }

  /** What Right changes, compared with what the transaction did. */
  lemma RightShape(sh: Shared, d: Local, q: Node)
    requires q in View(sh, d) && q in sh.mem && q !in d.ws && Visible(sh, d, q)
    ensures var r, d1, link := Right(sh, d, q), Overwritten(sh, d, q), View(sh, d)[q].next;
            && r.snap == d1.snap && r.news == d1.news && r.ws == d1.ws[q := Cell(link, false, true)]
            && r.log == Logged(d, true).log
            && q in d1.ws && d1.ws[q] == Cell(sh.mem[q].next, false, true)
  {
  }

  lemma SnapHolds(sh: Shared, d: Local, i: nat, q: Node)
    requires UndecidedInv(sh, d, i) && Visible(sh, d, q) && Settled(sh, d, q) && q !in d.ws && q in sh.mem
    ensures var d1 := Overwritten(sh, d, q);
            q in View(sh, d) &&
            ((q in d1.snap && d1.snap[q] == View(sh, d)[q]) || (q in d1.news && d1.news[q] == View(sh, d)[q]))
  {
  }

  lemma OneCell(h: Heap, news: Heap, ws: Heap, q: Node, c: Cell)
    requires q in ws
    ensures (h + (news + ws[q := c]))[q := ws[q]] == h + (news + ws)
  {
  }

  /** After the commit: the list it would have left with the right link, with one link changed. */
  lemma CommittedList(s: State, p: nat, q: Node, r: Local, link: Option<Node>, sh': Shared, x': Tx)
    requires StateInv(s) && p < |s.order| && CommitStep(s.sh, TxAt(s, p), sh', x') && Good(r)
    requires q in TxAt(s, p).d.ws && r.ws == TxAt(s, p).d.ws[q := Cell(link, false, true)]
    requires r.snap == TxAt(s, p).d.snap && r.news == TxAt(s, p).d.news && r.log == TxAt(s, p).d.log
    requires !TxAt(s, p).d.ws[q].dead && TxAt(s, p).d.ws[q].has
    ensures var h := sh'.committed;
            && (WellFormed(h) <==> TxAt(s, p).d.ws[q].next == link)
            && (TxAt(s, p).d.ws[q].next != link ==> BrokenAt(h, q, link)) && Valued(h)
            && |s.heaps| > 0
            && Serializable(s.txs[s.order[p] := x'], Keys(s.heaps[0]), Keys(h))
  {
    assert s.order[p] < |s.txs|;
    CommitShape(s.sh, TxAt(s, p), sh', x');
    hide StateInv, Good, WellFormed, BrokenAt, CommitStep, Serializable, Keys, Valued;
    var d := TxAt(s, p).d;
    var d' := d.(ws := r.ws, used := r.used, stale := false);
    SameGood(r, d');
    RightCommits(s, p, d', sh', x');
    OneCell(s.sh.committed, d.news, d.ws, q, Cell(link, false, true));
    var g := s.sh.committed + Writes(d');
    assert sh'.committed == g[q := d.ws[q]] && d.ws[q] == Cell(d.ws[q].next, false, true);
    OneLinkChanged(g, q, d.ws[q].next);
    SameKeys(g, q, d.ws[q].next);
  }

  lemma SameKeys(h: Heap, q: Node, link: Option<Node>)
    requires Live(h, q)
    ensures Keys(h[q := Cell(link, false, true)]) == Keys(h)
  {
    assert forall n :: Live(h, n) <==> Live(h[q := Cell(link, false, true)], n);
  }

  // ---------------------------------------------------------------- the result that the put returns

  /** The value that `put` reads at its end is there. */
  lemma ValueRead(tr: seq<State>, j: nat, m: nat, k: nat, i: nat)
    requires Run(tr) && EndsWithPut(tr, j, k, i) && Faithful(tr[k]) && !tr[j].txs[i].d.stale && j < m <= k
    requires tr[k].txs[i].pc.Validating? && tr[k].txs[i].d.todo == {} && tr[m].txs[i].pc.Finishing?
    requires Target(tr[j].txs[i]) in tr[m].sh.mem
    ensures tr[m].sh.mem[Target(tr[j].txs[i])].has
  {
    var q := Target(tr[j].txs[i]);
    AtCopy(tr, j, k, i);
    CopyMade(tr, j, k, i);
    UndecidedThen(tr, j, k, i);
    CommittersWereCurrent(tr, m, k, i);
    FaithfulBefore(tr, m, k);
    RunKeeps(tr, m);
    KeptTo(tr, j, m, k, i);
    hide Run, EndsWithPut, Faithful, Good, View, Right, StaleCopy, Overwritten;
    SnapHolds(tr[j].sh, tr[j].txs[i].d, i, q);
    assert TxInv(tr[m].sh, tr[m].txs[i], i) && SharedInv(tr[m].sh);
    hide StateInv, Visible, Settled;
    ValueHere(tr[m].sh, tr[m].txs[i], i, q);
  }

  lemma ValueHere(sh: Shared, x: Tx, i: nat, q: Node)
    requires SharedInv(sh) && TxInv(sh, x, i) && x.pc.Finishing? && Current(sh, x.d) && q in sh.mem
    requires (q in x.d.snap && !x.d.snap[q].dead) || (q in x.d.news)
    ensures sh.mem[q].has
  {
    assert UndecidedInv(sh, x.d, i);
    hide PcInv, Good, WellFormed, TxInv;
    if q in x.d.snap { assert NodeInv(sh, q); }
  }

  lemma OverwrittenRest(sh: Shared, d: Local, q: Node)
    requires q in sh.mem
    ensures Overwritten(sh, d, q).log == d.log && Overwritten(sh, d, q).kind == d.kind && Overwritten(sh, d, q).key == d.key
  {
  }

  lemma {:induction false} PutReturns(tr: seq<State>, j: nat, m: nat, k: nat, i: nat)
    requires Run(tr) && EndsWithPut(tr, j, k, i) && Faithful(tr[k]) && !tr[j].txs[i].d.stale && j < m <= k
    requires tr[k].txs[i].pc.Validating? && tr[k].txs[i].d.todo == {}
    ensures Returning(tr[m].txs[i], Target(tr[j].txs[i]), tr[j].txs[i].d)
    decreases m
  {
    hide TxStep, Closing, Blind, Init, AddRead, Faithful, StaleCopy;
    if j + 1 == m {
      CopyMade(tr, j, k, i);
      OverwrittenRest(tr[j].sh, tr[j].txs[i].d, Target(tr[j].txs[i]));
    } else {
      PutReturns(tr, j, m - 1, k, i);
      assert Next(tr[m - 1], tr[m]);
      var a: nat :| a < |tr[m - 1].txs| == |tr[m].txs| && TxStep(tr[m - 1], a, tr[m]);
      var q := Target(tr[j].txs[i]);
      if tr[m - 1].txs[i].pc.Finishing? && q in tr[m - 1].sh.mem { ValueRead(tr, j, m - 1, k, i); }
      hide Returning;
      ClosingKeeps(tr[m - 1], a, tr[m], i, q, tr[j].txs[i].d);
    }
  }

  /** Exactly when such a put is harmless. If the transaction ends with it and commits, the committed list is
      well-formed if and only if the link it copied is the one the node, which it has locked by then, holds in
      memory at the commit point; and that is so if and only if the copy was not stale. Otherwise a node that
      is in the list is no longer linked, or the link leads nowhere. */
  lemma CopyDecides(tr: seq<State>, j: nat, k: nat, i: nat)
    requires Run(tr) && EndsWithPut(tr, j, k, i) && k + 1 < |tr| && i < |tr[k + 1].txs|
    requires CommitPointStep(tr[k], i, tr[k + 1]) && Faithful(tr[k]) && !tr[j].txs[i].d.stale
    ensures var d, mem, q := tr[k].txs[i].d, tr[k].sh.mem, Target(tr[j].txs[i]);
            && q in tr[j].sh.mem && q in d.ws && q in mem
            && (WellFormed(tr[k + 1].sh.committed) <==> d.ws[q].next == mem[q].next)
            && (d.ws[q].next == mem[q].next <==> !StaleCopy(tr[j].sh, tr[j].txs[i].d, q))
            && (d.ws[q].next != mem[q].next ==> BrokenAt(tr[k + 1].sh.committed, q, mem[q].next))
            && Valued(tr[k + 1].sh.committed)
    ensures Serializable(tr[k + 1].txs, Keys(tr[0].sh.committed), Keys(tr[k + 1].sh.committed))
  {
    assert Blind(tr[j].txs[i]) && i < |tr[j].txs| && i < |tr[k].txs|;
    var sh, d0, q := tr[j].sh, tr[j].txs[i].d, Target(tr[j].txs[i]);
    var s, d, x', sh' := tr[k], tr[k].txs[i].d, tr[k + 1].txs[i], tr[k + 1].sh;
    CommitPlaceAt(s, i, tr[k + 1]);
    hide Run, EndsWithPut, CommitPointStep, Faithful, StateInv, Good, WellFormed, Writes, WithWrites, UndecidedInv, BrokenAt;
    hide Settled, Visible, View, Overwritten, Right, StaleCopy, Blind, CommitStep, Serializable, Keys, Returning, Kept, Valued;
    var p: nat :| p < |s.order| && s.order[p] == i;
    CopyFacts(tr, j, k, i);
    RunKeeps(tr, k);
    RunBase(tr, k);
    RightShape(sh, d0, q);
    SnapHolds(sh, d0, i, q);
    KeptReturned(tr[j + 1].txs[i].d, tr[k].txs[i], q, d0);
    AtCommit(s, p, q, View(sh, d0)[q]);
    CommittedList(s, p, q, Right(sh, d0, q), View(sh, d0)[q].next, sh', x');
  }

  lemma CommitPlaceAt(s: State, i: nat, s': State)
    requires i < |s.txs| == |s'.txs| && CommitPointStep(s, i, s')
    ensures CommitStep(s.sh, s.txs[i], s'.sh, s'.txs[i]) && s'.txs == s.txs[i := s'.txs[i]]
    ensures s.txs[i].pc == Validating && s.txs[i].d.todo == {}
    ensures exists p: nat :: p < |s.order| && s.order[p] == i
  {
    CommitPcs(s.sh, s.txs[i], s'.sh, s'.txs[i]);
    hide CommitStep;
  }

  lemma KeptReturned(d1: Local, x: Tx, q: Node, d0: Local)
    requires Kept(d1, x.d) && Returning(x, q, d0) && x.pc == Validating
    ensures x.d.snap == d1.snap && x.d.ws == d1.ws && x.d.news == d1.news && x.d.log == Logged(d0, true).log
  {
  }

  lemma CopyFacts(tr: seq<State>, j: nat, k: nat, i: nat)
    requires Run(tr) && EndsWithPut(tr, j, k, i) && Faithful(tr[k]) && !tr[j].txs[i].d.stale
    requires tr[k].txs[i].pc == Validating && tr[k].txs[i].d.todo == {}
    ensures var sh, d, q := tr[j].sh, tr[j].txs[i].d, Target(tr[j].txs[i]);
            && q in sh.mem && q in View(sh, d) && q !in d.ws && Settled(sh, d, q) && Visible(sh, d, q)
            && Good(Right(sh, d, q)) && UndecidedInv(sh, d, i)
            && (StaleCopy(sh, d, q) <==> sh.mem[q].next != View(sh, d)[q].next)
            && tr[j + 1].txs[i].d == Overwritten(sh, d, q) && Kept(tr[j + 1].txs[i].d, tr[k].txs[i].d)
            && Returning(tr[k].txs[i], q, d)
  {
    hide Run, Faithful, Good, UndecidedInv, Settled, Visible, View, Overwritten, Right, StaleCopy, Returning, Kept;
    AtCopy(tr, j, k, i);
    CopyMade(tr, j, k, i);
    UndecidedThen(tr, j, k, i);
    PutReturns(tr, j, k, k, i);
  }

  /** If the copy was stale and the node had a successor, that node is in the set that every serial order of
      the committed transactions leaves, but no node of the list links to it any more. */
  lemma SuccessorIsLost(tr: seq<State>, j: nat, k: nat, i: nat, x: Node, ids: seq<nat>, final: set<nat>)
    requires Run(tr) && EndsWithPut(tr, j, k, i) && k + 1 < |tr| && i < |tr[k + 1].txs|
    requires CommitPointStep(tr[k], i, tr[k + 1]) && Faithful(tr[k]) && !tr[j].txs[i].d.stale
    requires Target(tr[j].txs[i]) in tr[j].sh.mem && StaleCopy(tr[j].sh, tr[j].txs[i].d, Target(tr[j].txs[i]))
    requires Target(tr[j].txs[i]) in tr[k].sh.mem && tr[k].sh.mem[Target(tr[j].txs[i])].next == Some(x)
    requires Serializes(tr[k + 1].txs, ids, Keys(tr[0].sh.committed), final)
    ensures x.key in final && x != HEAD && Live(tr[k + 1].sh.committed, x) && Unreached(tr[k + 1].sh.committed, x)
  {
    hide Run, EndsWithPut, CommitPointStep, Faithful, StaleCopy, Blind, Target, WellFormed, Serializes, Unreached, Valued;
    CopyDecides(tr, j, k, i);
    var h := tr[k + 1].sh.committed;
    var initial := Keys(tr[0].sh.committed);
    assert Live(h, x) && x != HEAD && x.key in Keys(h);
    hide Keys;
    var other :| Serializes(tr[k + 1].txs, other, initial, Keys(h));
    FinalKeysUnique(tr[k + 1].txs, ids, other, initial, final, Keys(h));
  }

  lemma UndecidedThen(tr: seq<State>, j: nat, k: nat, i: nat)
    requires Run(tr) && EndsWithPut(tr, j, k, i)
    ensures UndecidedInv(tr[j].sh, tr[j].txs[i].d, i)
  {
    EveryRun(tr, j);
    assert TxBase(tr[j].sh, tr[j].txs[i], i);
  }
}
