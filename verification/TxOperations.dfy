/** The steps of a transaction that act on what its traversal found: the read set grows, the write set
    changes, an operation returns. Each keeps the transaction's invariant; in particular each keeps it
    `Good`, so that the operations done so far are correct on every list the read set allows. */
module TxOperations {
  import opened Basics
  import opened ListHeap
  import opened Transactions
  import opened TxInvariant
  import opened TxLocalSteps

  // ---------------------------------------------------------------- the read set grows

  lemma AddReadKeeps(sh: Shared, d: Local, i: nat, n: Node, link: Option<Node>)
    requires SharedBase(sh) && UndecidedInv(sh, d, i) && Visible(sh, d, n)
    ensures UndecidedInv(sh, AddRead(sh, d, n, link), i) && n in AddRead(sh, d, n, link).rs
    ensures View(sh, AddRead(sh, d, n, link)) == View(sh, d)
  {
    assert Writes(AddRead(sh, d, n, link)) == Writes(d);
  }

  lemma AddReadClean(sh: Shared, d: Local, i: nat, n: Node, link: Option<Node>)
    requires SharedBase(sh) && UndecidedInv(sh, d, i) && Visible(sh, d, n) && Clean(sh, AddRead(sh, d, n, link))
    ensures Clean(sh, d) && Settled(sh, d, n)
  {
    var d1 := AddRead(sh, d, n, link);
    forall m | m in d.snap ensures m in sh.stamp && sh.stamp[m] <= d.rv { assert m in d1.snap; }
    if n !in d.news { assert n in d1.snap; }
  }

  /** The operation acts on the link that the transaction should see. */
  lemma AddReadGood(sh: Shared, d: Local, i: nat, n: Node, link: Option<Node>)
    requires UndecidedInv(sh, d, i) && Clean(sh, d) && Settled(sh, d, n) && Good(d)
    requires Live(View(sh, d), n) && View(sh, d)[n].next == link
    ensures Good(AddRead(sh, d, n, link))
  {
    var d1 := AddRead(sh, d, n, link);
    if n !in d.snap { assert n !in d.ws || n in d.news; }
    assert Writes(d1) == Writes(d);
    forall h: Heap ensures CorrectOn(d1, h) {
      assert CorrectOn(d, h);
      if Agrees(h, d1.snap) { assert Agrees(h, d.snap); }
    }
  }

  /** A node of the read set looks the same on every list the read set allows. */
  lemma SameCell(sh: Shared, d: Local, i: nat, h: Heap, n: Node)
    requires UndecidedInv(sh, d, i) && Clean(sh, d) && Agrees(h, d.snap) && n in d.rs
    ensures n in h + Writes(d) && n in View(sh, d) && (h + Writes(d))[n] == View(sh, d)[n]
  {
  }

  // ---------------------------------------------------------------- an operation returns

  lemma LoggedUndecided(sh: Shared, d: Local, i: nat, result: bool)
    requires UndecidedInv(sh, d, i)
    ensures UndecidedInv(sh, Logged(d, result), i)
  {
    assert Writes(Logged(d, result)) == Writes(d);
  }

  lemma ReadyKeeps(sh: Shared, d: Local, i: nat)
    requires UndecidedInv(sh, d, i) && d.held == {} && (Clean(sh, d) ==> Good(d))
    ensures TxInv(sh, Tx(Ready, d), i)
  {
    hide UndecidedInv, Good, Clean;
  }

  lemma ReturnKeeps(sh: Shared, d: Local, i: nat, result: bool)
    requires UndecidedInv(sh, d, i) && d.held == {}
    requires Clean(sh, d) ==> Good(Logged(d, result))
    ensures TxInv(sh, Tx(Ready, Logged(d, result)), i)
  {
    hide Good, UndecidedInv, TxInv;
    LoggedUndecided(sh, d, i, result);
    assert Clean(sh, Logged(d, result)) <==> Clean(sh, d);
    ReadyKeeps(sh, Logged(d, result), i);
  }

  /** Operations that leave the set of keys as it is. */
  predicate Neutral(kind: Kind, result: bool)
  {
    kind.Get? || (kind.Put? && result) || (kind.Remove? && !result)
  }

  lemma NeutralOn(d: Local, result: bool, h: Heap)
    requires CorrectOn(d, h) && Neutral(d.kind, result)
    requires WellFormed(h) && Agrees(h, d.snap) && h.Keys !! d.news.Keys ==> (result <==> d.key in Keys(h + Writes(d)))
    ensures CorrectOn(Logged(d, result), h)
  {
    var d' := Logged(d, result);
    assert Writes(d') == Writes(d);
    if WellFormed(h) && Agrees(h, d.snap) && h.Keys !! d.news.Keys {
      ExplainsSnoc(Keys(h), d.log, Event(d.kind, d.key, result));
    }
  }

  /** The predecessor in the read set decides the result. */
  lemma BracketGood(sh: Shared, d: Local, i: nat, p: Node, result: bool)
    requires UndecidedInv(sh, d, i) && Clean(sh, d) && Good(d) && p in d.rs && Neutral(d.kind, result)
    requires Brackets(View(sh, d), p, d.key) && (result <==> Hit(View(sh, d), p, d.key))
    ensures Good(Logged(d, result))
  {
    hide UndecidedInv;
    forall h: Heap ensures CorrectOn(Logged(d, result), h) {
      assert CorrectOn(d, h);
      if WellFormed(h) && Agrees(h, d.snap) && h.Keys !! d.news.Keys {
        SameCell(sh, d, i, h, p);
        FindDecides(h + Writes(d), p, d.key);
      }
      NeutralOn(d, result, h);
    }
  }

  /** A live node of the read set carries the key. */
  lemma PresentGood(sh: Shared, d: Local, i: nat, q: Node)
    requires UndecidedInv(sh, d, i) && Clean(sh, d) && Good(d) && q in d.rs && Neutral(d.kind, true)
    requires Live(View(sh, d), q) && q.key == d.key && MIN_KEY < d.key
    ensures Good(Logged(d, true))
  {
    hide UndecidedInv;
    forall h: Heap ensures CorrectOn(Logged(d, true), h) {
      assert CorrectOn(d, h);
      if WellFormed(h) && Agrees(h, d.snap) && h.Keys !! d.news.Keys {
        SameCell(sh, d, i, h, q);
        assert Live(h + Writes(d), q) && q != HEAD;
      }
      NeutralOn(d, true, h);
    }
  }

  /** The value of a node that is live in the view and outside the write set is there to be read. */
  lemma ValueThere(sh: Shared, d: Local, q: Node)
    requires SharedInv(sh) && NewsInv(sh, d) && Live(View(sh, d), q) && q !in d.ws && q in sh.mem
    ensures sh.mem[q].has
  {
    if q !in d.news { assert NodeInv(sh, q); }
  }

  /** The successor of a live node in the view is live and holds a value. */
  lemma SuccessorThere(sh: Shared, d: Local, i: nat, p: Node, q: Node)
    requires SharedInv(sh) && UndecidedInv(sh, d, i) && Clean(sh, d) && Good(d)
    requires Live(View(sh, d), p) && View(sh, d)[p].next == Some(q)
    ensures Live(View(sh, d), q) && View(sh, d)[q].has
    ensures q !in d.ws && q in sh.mem ==> sh.mem[q].has
  {
    ViewWellFormed(sh, d, i);
    assert LinkOk(View(sh, d), p);
    if q !in d.ws && q in sh.mem { ValueThere(sh, d, q); }
  }

  // ---------------------------------------------------------------- what find_node found

  /** What the traversal has established at its end, before the read set grows. */
  predicate AtPlace(sh: Shared, d: Local, c: Node, nx: Option<Node>)
  {
    && d.held == {} && MIN_KEY < d.key && c.key < d.key && (nx.Some? ==> d.key <= nx.value.key)
    && Visible(sh, d, c) && (nx.Some? ==> Visible(sh, d, nx.value))
    && (Clean(sh, d) && Settled(sh, d, c) ==> Live(View(sh, d), c) && View(sh, d)[c].next == nx)
  }

  /** ... and after the predecessor has entered the read set. */
  predicate PlaceRead(sh: Shared, d: Local, c: Node, nx: Option<Node>)
  {
    c in d.rs &&
    (Clean(sh, d) ==>
      && Live(View(sh, d), c) && View(sh, d)[c].next == nx && View(sh, d)[c].has
      && (nx.Some? ==> Live(View(sh, d), nx.value) && View(sh, d)[nx.value].has))
  }

  lemma PlaceKeeps(sh: Shared, d: Local, i: nat, c: Node, nx: Option<Node>)
    requires SharedInv(sh) && UndecidedInv(sh, d, i) && (Clean(sh, d) ==> Good(d)) && AtPlace(sh, d, c, nx)
    ensures UndecidedInv(sh, AddRead(sh, d, c, nx), i) && PlaceRead(sh, AddRead(sh, d, c, nx), c, nx)
    ensures Clean(sh, AddRead(sh, d, c, nx)) ==> Good(AddRead(sh, d, c, nx))
  {
    assert SharedBase(sh);
    hide SharedInv, SharedBase, Good, UndecidedInv;
    var d1 := AddRead(sh, d, c, nx);
    AddReadKeeps(sh, d, i, c, nx);
    if Clean(sh, d1) {
      AddReadClean(sh, d, i, c, nx);
      AddReadGood(sh, d, i, c, nx);
      ViewWellFormed(sh, d1, i);
      if nx.Some? { SuccessorThere(sh, d1, i, c, nx.value); }
    }
  }

  // ---------------------------------------------------------------- get

  lemma GetReturns(sh: Shared, d: Local, i: nat, c: Node, nx: Option<Node>, result: bool)
    requires UndecidedInv(sh, d, i) && (Clean(sh, d) ==> Good(d)) && PlaceRead(sh, d, c, nx)
    requires d.held == {} && c.key < d.key && (nx.Some? ==> d.key <= nx.value.key)
    requires Neutral(d.kind, result) && (Clean(sh, d) ==> (result <==> Match(d, nx)))
    ensures TxInv(sh, Tx(Ready, Logged(d, result)), i)
  {
    hide Good, UndecidedInv, TxInv;
    if Clean(sh, d) { BracketGood(sh, d, i, c, result); }
    ReturnKeeps(sh, d, i, result);
  }

  lemma FoundHas(sh: Shared, d: Local, c: Node, nx: Option<Node>)
    requires PlaceRead(sh, d, c, nx) && nx.Some? && nx.value in d.ws
    ensures Clean(sh, d) ==> d.ws[nx.value].has
  {
  }

  /** The key was found outside the write set; its value is still to be read. */
  lemma GetPauses(sh: Shared, d: Local, i: nat, c: Node, q: Node)
    requires UndecidedInv(sh, d, i) && (Clean(sh, d) ==> Good(d)) && PlaceRead(sh, d, c, Some(q)) && Visible(sh, d, q)
    requires d.held == {} && d.kind == Get && MIN_KEY < d.key && c.key < d.key == q.key && q !in d.ws
    ensures TxInv(sh, Tx(Finishing(GetValue(c, q)), d), i)
  {
    hide Good, UndecidedInv, Clean, View;
  }

  lemma GetKeeps(sh: Shared, d: Local, i: nat, c: Node, nx: Option<Node>, x': Tx)
    requires SharedInv(sh) && UndecidedInv(sh, d, i) && (Clean(sh, d) ==> Good(d)) && AtPlace(sh, d, c, nx)
    requires GetStep(sh, d, c, nx, x') && (d.kind != Get ==> !d.readOnly)
    ensures TxInv(sh, x', i)
  {
    hide SharedInv, Good, UndecidedInv, TxInv, PlaceRead, Clean, View;
    var d1 := AddRead(sh, d, c, nx);
    PlaceKeeps(sh, d, i, c, nx);
    if x'.pc == Ready {
      if Match(d, nx) { FoundHas(sh, d1, c, nx); }
      GetReturns(sh, d1, i, c, nx, x'.d.log[|d.log|].result);
    } else {
      GetPauses(sh, d1, i, c, nx.value);
    }
  }

  // ---------------------------------------------------------------- put on a found key

  /** The link in memory is the one the transaction should see, as far as that still matters. */
  predicate LinkCurrent(sh: Shared, d: Local, q: Node)
  {
    Settled(sh, d, q) ==> q in sh.mem && q in View(sh, d) && sh.mem[q].next == View(sh, d)[q].next
  }

  lemma NotStale(sh: Shared, d: Local, q: Node)
    requires SharedBase(sh) && NewsInv(sh, d) && q in sh.mem && Visible(sh, d, q) && q !in d.ws
    ensures StaleCopy(sh, d, q) <==> !LinkCurrent(sh, d, q)
  {
    if q !in d.news { assert NodeBase(sh, q); }
  }

  /** In the view, overwriting puts back the cell that is there: the list does not change. */
  lemma OverwriteSameCell(sh: Shared, d: Local, i: nat, q: Node)
    requires SharedInv(sh) && UndecidedInv(sh, d, i) && Clean(sh, d) && Good(d)
    requires q in sh.mem && Live(View(sh, d), q) && Settled(sh, d, q) && (q !in d.ws ==> LinkCurrent(sh, d, q))
    ensures Overwritten(sh, d, q).ws[q] == View(sh, d)[q]
  {
    ViewWellFormed(sh, d, i);
  }

  lemma OverlaySame(h: Heap, news: Heap, ws: Heap, q: Node)
    requires q in h + (news + ws)
    ensures h + (news + ws[q := (h + (news + ws))[q]]) == h + (news + ws)
  {
  }

  lemma OverwriteOn(sh: Shared, d: Local, i: nat, q: Node, w: Cell, h: Heap)
    requires UndecidedInv(sh, d, i) && Clean(sh, d) && CorrectOn(d, h) && q in d.rs
    requires q in View(sh, d) && w == View(sh, d)[q]
    ensures CorrectOn(d.(ws := d.ws[q := w]), h)
  {
    if Agrees(h, d.snap) {
      SameCell(sh, d, i, h, q);
      OverlaySame(h, d.news, d.ws, q);
    }
  }

  lemma OverwriteGood(sh: Shared, d: Local, i: nat, q: Node, w: Cell)
    requires UndecidedInv(sh, d, i) && Clean(sh, d) && Good(d) && q in d.rs
    requires q in View(sh, d) && w == View(sh, d)[q]
    ensures Good(d.(ws := d.ws[q := w]))
  {
    hide UndecidedInv, View, CorrectOn, Clean;
    var d' := d.(ws := d.ws[q := w]);
    forall h: Heap ensures CorrectOn(d', h) {
      assert CorrectOn(d, h);
      OverwriteOn(sh, d, i, q, w, h);
    }
  }

  /** The write set gains a cell for a node of the read set whose link is visible. */
  lemma WriteKeeps(sh: Shared, d: Local, i: nat, q: Node, w: Cell)
    requires UndecidedInv(sh, d, i) && q in d.rs && !d.readOnly
    requires w.next.Some? ==> Visible(sh, d, w.next.value)
    ensures UndecidedInv(sh, d.(ws := d.ws[q := w]), i)
  {
    hide NewsInv, SnapInv;
    var d' := d.(ws := d.ws[q := w]);
    forall n | n in Writes(d') && Writes(d')[n].next.Some? ensures Visible(sh, d', Writes(d')[n].next.value) {
      if n != q { assert n in Writes(d) && Writes(d)[n] == Writes(d')[n]; }
    }
    assert SnapInv(sh, d') && NewsInv(sh, d') by { SameSnapNews(sh, d, d'); }
  }

  lemma SameSnapNews(sh: Shared, d: Local, d': Local)
    requires SnapInv(sh, d) && NewsInv(sh, d) && d'.snap == d.snap && d'.news == d.news && d'.rv == d.rv
    ensures SnapInv(sh, d') && NewsInv(sh, d')
  {
  }

  /** The link that an overwrite of `q` copies. */
  function CopiedLink(sh: Shared, d: Local, q: Node): Option<Node>
    requires q in sh.mem
  {
    if q in d.ws then d.ws[q].next else sh.mem[q].next
  }

  lemma OverwriteUndecided(sh: Shared, d: Local, i: nat, q: Node)
    requires SharedBase(sh) && UndecidedInv(sh, d, i) && q in sh.mem && Visible(sh, d, q) && !d.readOnly
    ensures UndecidedInv(sh, Overwritten(sh, d, q), i) && q in Overwritten(sh, d, q).rs
  {
    hide SharedBase, UndecidedInv;
    var d1 := AddRead(sh, d, q, CopiedLink(sh, d, q));
    AddReadKeeps(sh, d, i, q, CopiedLink(sh, d, q));
    OverwriteVisible(sh, d1, i, q);
    WriteKeeps(sh, d1, i, q, Overwritten(sh, d, q).ws[q]);
    StaleUndecided(sh, d1.(ws := d1.ws[q := Overwritten(sh, d, q).ws[q]]), i, Overwritten(sh, d, q).stale);
  }

  lemma StaleUndecided(sh: Shared, d: Local, i: nat, stale: bool)
    requires UndecidedInv(sh, d, i)
    ensures UndecidedInv(sh, d.(stale := stale), i)
  {
    assert Writes(d.(stale := stale)) == Writes(d);
  }

  lemma OverwriteKeeps(sh: Shared, d: Local, i: nat, q: Node)
    requires SharedInv(sh) && UndecidedInv(sh, d, i) && (Clean(sh, d) ==> Good(d))
    requires q in sh.mem && Visible(sh, d, q) && SuccLive(sh, d, q)
    requires d.held == {} && MIN_KEY < d.key == q.key && !d.readOnly && d.kind == Put
    ensures TxInv(sh, Tx(Finishing(PutReturn(q)), Overwritten(sh, d, q)), i)
  {
    assert SharedBase(sh);
    hide SharedInv, SharedBase, Good, UndecidedInv, Clean, StaleCopy;
    var link := CopiedLink(sh, d, q);
    var d1 := AddRead(sh, d, q, link);
    var d' := Overwritten(sh, d, q);
    OverwriteUndecided(sh, d, i, q);
    CleanParts(sh, d1, d');
    if Clean(sh, d') {
      AddReadKeeps(sh, d, i, q, link);
      AddReadClean(sh, d, i, q, link);
      CopyCurrent(sh, d, i, q);
      AddReadGood(sh, d, i, q, link);
      OverwriteSameCell(sh, d1, i, q);
      OverwriteGood(sh, d1, i, q, d'.ws[q]);
      StaleGood(d1.(ws := d'.ws), d');
      OverlaySame(sh.committed, d1.news, d1.ws, q);
    }
  }

  lemma StaleGood(d: Local, d': Local)
    requires Good(d) && d' == d.(stale := d'.stale)
    ensures Good(d')
  {
    forall h: Heap ensures CorrectOn(d', h) { assert CorrectOn(d, h); }
  }

  /** If the copy is not stale, the overwrite acts on the link the transaction should see. */
  lemma CopyCurrent(sh: Shared, d: Local, i: nat, q: Node)
    requires SharedBase(sh) && UndecidedInv(sh, d, i) && q in sh.mem && Visible(sh, d, q) && Settled(sh, d, q)
    requires !StaleCopy(sh, d, q)
    ensures q in View(sh, d) && View(sh, d)[q].next == CopiedLink(sh, d, q)
    ensures q !in d.ws ==> LinkCurrent(sh, AddRead(sh, d, q, CopiedLink(sh, d, q)), q)
  {
    if q !in d.ws {
      assert NewsInv(sh, d);
      NotStale(sh, d, q);
      assert Writes(AddRead(sh, d, q, CopiedLink(sh, d, q))) == Writes(d);
    }
  }

  lemma CleanParts(sh: Shared, d: Local, d': Local)
    requires d'.snap == d.snap && d'.rv == d.rv
    ensures Clean(sh, d') ==> !d'.stale
    ensures Current(sh, d) <==> Current(sh, d')
    ensures d.stale == d'.stale ==> (Clean(sh, d) <==> Clean(sh, d'))
    ensures d.stale ==> !Clean(sh, d)
    ensures Clean(sh, d') && !d.stale ==> Clean(sh, d)
  {
  }

  lemma OverwriteVisible(sh: Shared, d: Local, i: nat, q: Node)
    requires SharedBase(sh) && UndecidedInv(sh, d, i) && q in sh.mem && Visible(sh, d, q) && q in d.rs
    ensures CopiedLink(sh, d, q).Some? ==> Visible(sh, d, CopiedLink(sh, d, q).value)
  {
    if q in d.ws { assert q in Writes(d); }
    else if q in d.news { assert q in Writes(d); }
    else { assert NodeBase(sh, q); }
  }

  lemma PutReturnKeeps(sh: Shared, d: Local, i: nat, q: Node)
    requires SharedInv(sh) && UndecidedInv(sh, d, i) && (Clean(sh, d) ==> Good(d))
    requires FinishInv(sh, d, PutReturn(q)) && q in sh.mem && d.held == {} && MIN_KEY < d.key
    ensures TxInv(sh, Tx(Ready, Logged(d, sh.mem[q].has)), i)
  {
    hide Good, TxInv;
    if Clean(sh, d) {
      LiveHas(sh, d, i, q);
      PresentGood(sh, d, i, q);
    }
    ReturnKeeps(sh, d, i, sh.mem[q].has);
  }

  /** A read-set node that is live in the view still has its value in memory, overwritten or not. */
  lemma LiveHas(sh: Shared, d: Local, i: nat, q: Node)
    requires SharedInv(sh) && UndecidedInv(sh, d, i) && Clean(sh, d) && Good(d) && q in d.rs && q in sh.mem
    ensures sh.mem[q].has
  {
    if q !in d.news { assert NodeInv(sh, q) && q in d.snap; }
  }

  // ---------------------------------------------------------------- remove

  lemma RemoveKeeps(sh: Shared, d: Local, i: nat, c: Node, nx: Option<Node>, x': Tx)
    requires SharedInv(sh) && UndecidedInv(sh, d, i) && (Clean(sh, d) ==> Good(d)) && AtPlace(sh, d, c, nx)
    requires RemoveStep(sh, d, c, nx, x') && !d.readOnly
    ensures TxInv(sh, x', i)
  {
    var d1 := AddRead(sh, d, c, nx);
    PlaceKeeps(sh, d, i, c, nx);
    hide SharedInv, Good, UndecidedInv, AddRead, Settled;
    if x'.pc == Ready {
      hide TxInv;
      GetReturns(sh, d1, i, c, nx, false);
    } else {
      ToUnlink(sh, d1, i, c, nx.value);
    }
  }

  lemma ToUnlink(sh: Shared, d: Local, i: nat, p: Node, q: Node)
    requires UndecidedInv(sh, d, i) && (Clean(sh, d) ==> Good(d)) && PlaceRead(sh, d, p, Some(q))
    requires d.held == {} && d.kind == Remove && p.key < d.key == q.key && MIN_KEY < d.key && !d.readOnly
    requires Visible(sh, d, q)
    ensures TxInv(sh, Tx(GettingNext(Unlink(p, q), q, Start), d), i)
  {
    hide Good, UndecidedInv, Settled, Visible, View, Clean;
  }

  lemma UnlinkKeeps(sh: Shared, d: Local, i: nat, p: Node, q: Node, nx: Option<Node>, x': Tx)
    requires SharedInv(sh) && UndecidedInv(sh, d, i) && (Clean(sh, d) ==> Good(d))
    requires UnlinkInv(sh, d, p, q) && LinkInv(sh, d, q, nx) && UnlinkStep(d, Unlink(p, q), nx, x')
    requires d.held == {} && MIN_KEY < d.key && !d.readOnly
    ensures TxInv(sh, x', i)
  {
    if Clean(sh, d) && p in d.ws {
      ViewWellFormed(sh, d, i);
      assert d.ws[p] == View(sh, d)[p];
    }
    hide SharedInv, Good, UndecidedInv, Settled;
  }

  lemma RemovePredValKeeps(sh: Shared, d: Local, i: nat, p: Node, q: Node, nx: Option<Node>)
    requires SharedInv(sh) && UndecidedInv(sh, d, i) && (Clean(sh, d) ==> Good(d)) && p in sh.mem
    requires FinishInv(sh, d, RemovePredVal(p, q, nx)) && d.held == {} && MIN_KEY < d.key && !d.readOnly
    ensures TxInv(sh, Tx(Finishing(RemoveVal(p, q, nx, sh.mem[p].has)), d), i)
  {
    if Clean(sh, d) { ValueThere(sh, d, p); }
    hide SharedInv, Good, UndecidedInv, Settled;
  }

  lemma OverlayTwo(h: Heap, news: Heap, ws: Heap, p: Node, cp: Cell, q: Node, cq: Cell)
    ensures h + (news + ws[p := cp][q := cq]) == (h + (news + ws))[p := cp][q := cq]
  {
  }

  lemma RemovedOn(sh: Shared, d: Local, i: nat, p: Node, q: Node, nx: Option<Node>, h: Heap)
    requires UndecidedInv(sh, d, i) && Clean(sh, d) && CorrectOn(d, h) && p in d.rs && q in d.rs
    requires Live(View(sh, d), p) && View(sh, d)[p].next == Some(q) && q in View(sh, d) && View(sh, d)[q].next == nx
    requires d.kind == Remove && q.key == d.key && p.key < q.key
    ensures CorrectOn(Logged(d.(ws := d.ws[p := Cell(nx, false, true)][q := Cell(None, true, true)]), true), h)
  {
    if WellFormed(h) && Agrees(h, d.snap) && h.Keys !! d.news.Keys {
      var g := h + Writes(d);
      SameCell(sh, d, i, h, p);
      SameCell(sh, d, i, h, q);
      hide UndecidedInv, View, Clean;
      OverlayTwo(h, d.news, d.ws, p, Cell(nx, false, true), q, Cell(None, true, true));
      UnlinkKeepsList(g, p, q);
      FindDecides(g, p, q.key);
      ExplainsSnoc(Keys(h), d.log, Event(d.kind, d.key, true));
    }
  }

  lemma RemovedGood(sh: Shared, d: Local, i: nat, p: Node, q: Node, nx: Option<Node>)
    requires UndecidedInv(sh, d, i) && Clean(sh, d) && Good(d) && p in d.rs && q in d.rs
    requires Live(View(sh, d), p) && View(sh, d)[p].next == Some(q) && q in View(sh, d) && View(sh, d)[q].next == nx
    requires d.kind == Remove && q.key == d.key && p.key < q.key
    ensures Good(Logged(d.(ws := d.ws[p := Cell(nx, false, true)][q := Cell(None, true, true)]), true))
  {
    hide UndecidedInv, View, CorrectOn, Clean;
    var d' := Logged(d.(ws := d.ws[p := Cell(nx, false, true)][q := Cell(None, true, true)]), true);
    forall h: Heap ensures CorrectOn(d', h) {
      assert CorrectOn(d, h);
      RemovedOn(sh, d, i, p, q, nx, h);
    }
  }

  lemma RemovedUndecided(sh: Shared, d: Local, i: nat, p: Node, q: Node, nx: Option<Node>, pv: bool)
    requires SharedBase(sh) && UndecidedInv(sh, d, i) && p in d.rs && q in sh.mem && Visible(sh, d, q) && !d.readOnly
    requires nx.Some? ==> Visible(sh, d, nx.value)
    ensures UndecidedInv(sh, Removed(sh, d, p, q, nx, pv), i)
  {
    hide SharedBase, UndecidedInv;
    var d1 := AddRead(sh, d, q, nx);
    AddReadKeeps(sh, d, i, q, nx);
    var qv := if q in d.ws then d.ws[q].has else sh.mem[q].has;
    var d2 := d1.(ws := d.ws[p := Cell(nx, false, pv)]);
    WriteKeeps(sh, d1, i, p, Cell(nx, false, pv));
    WriteKeeps(sh, d2, i, q, Cell(None, true, qv));
    LoggedUndecided(sh, d2.(ws := d2.ws[q := Cell(None, true, qv)]), i, qv);
  }

  lemma RemoveClean(sh: Shared, d: Local, p: Node, q: Node, nx: Option<Node>, pv: bool)
    requires q in sh.mem && Clean(sh, Removed(sh, d, p, q, nx, pv))
    ensures Clean(sh, AddRead(sh, d, q, nx))
  {
  }

  lemma RemoveValKeeps(sh: Shared, d: Local, i: nat, p: Node, q: Node, nx: Option<Node>, pv: bool)
    requires SharedInv(sh) && UndecidedInv(sh, d, i) && (Clean(sh, d) ==> Good(d)) && q in sh.mem
    requires FinishInv(sh, d, RemoveVal(p, q, nx, pv)) && d.held == {} && MIN_KEY < d.key && !d.readOnly
    ensures TxInv(sh, Tx(Ready, Removed(sh, d, p, q, nx, pv)), i)
  {
    assert SharedBase(sh);
    hide SharedInv, SharedBase, Good, UndecidedInv, TxInv, Clean;
    RemovedUndecided(sh, d, i, p, q, nx, pv);
    if Clean(sh, Removed(sh, d, p, q, nx, pv)) {
      RemoveClean(sh, d, p, q, nx, pv);
      var d1 := AddRead(sh, d, q, nx);
      AddReadKeeps(sh, d, i, q, nx);
      AddReadClean(sh, d, i, q, nx);
      SuccessorThere(sh, d, i, p, q);
      AddReadGood(sh, d, i, q, nx);
      assert q in d.ws ==> d.ws[q] == View(sh, d)[q];
      RemovedGood(sh, d1, i, p, q, nx);
    }
    ReadyKeeps(sh, Removed(sh, d, p, q, nx, pv), i);
  }

  // ---------------------------------------------------------------- put on a missing key

  function Allocated(sh: Shared, n: Node, nx: Option<Node>): Shared
  {
    sh.(mem := sh.mem[n := MemNode(nx, true, None, false, 0)])
  }

  lemma AllocBase(sh: Shared, n: Node, nx: Option<Node>)
    requires SharedBase(sh) && n !in sh.mem
    ensures SharedBase(Allocated(sh, n, nx))
  {
    var sh' := Allocated(sh, n, nx);
    forall m | m in sh'.committed ensures NodeBase(sh', m) { assert NodeBase(sh, m); }
  }

  lemma AllocShared(sh: Shared, n: Node, nx: Option<Node>)
    requires SharedInv(sh) && n !in sh.mem
    ensures SharedInv(Allocated(sh, n, nx))
  {
    AllocBase(sh, n, nx);
    hide SharedBase;
    var sh' := Allocated(sh, n, nx);
    forall m | m in sh'.committed ensures NodeInv(sh', m) { assert NodeInv(sh, m); }
  }

  /** The new node and the new link to it. */
  function WithNode(d: Local, c: Node, pv: bool, n: Node, nx: Option<Node>): Local
  {
    d.(news := d.news[n := Cell(nx, false, true)], ws := d.ws[c := Cell(Some(n), false, pv)])
  }

  lemma WithNodeUndecided(sh: Shared, d: Local, i: nat, c: Node, pv: bool, n: Node, nx: Option<Node>)
    requires SharedBase(sh) && UndecidedInv(sh, d, i) && c in d.rs && !d.readOnly
    requires n !in sh.mem && n.key != MIN_KEY && (nx.Some? ==> Visible(sh, d, nx.value))
    ensures UndecidedInv(Allocated(sh, n, nx), WithNode(d, c, pv, n, nx), i)
  {
    Unallocated(sh, d, i, n);
    hide SnapInv, NewsInv, HeldInv, SharedBase;
    var sh', d' := Allocated(sh, n, nx), WithNode(d, c, pv, n, nx);
    assert SnapInv(sh', d') && NewsInv(sh', d') && HeldInv(sh', d', i) by { WithNodeNews(sh, d, i, c, pv, n, nx); }
    assert PointerInv(sh', d') by { WithNodePointers(sh, d, c, pv, n, nx); }
    hide PointerInv;
  }

  lemma WithNodePointers(sh: Shared, d: Local, c: Node, pv: bool, n: Node, nx: Option<Node>)
    requires PointerInv(sh, d) && n !in d.ws && (nx.Some? ==> Visible(sh, d, nx.value))
    ensures PointerInv(Allocated(sh, n, nx), WithNode(d, c, pv, n, nx))
  {
    var sh', d' := Allocated(sh, n, nx), WithNode(d, c, pv, n, nx);
    forall m | m in Writes(d') && Writes(d')[m].next.Some? ensures Visible(sh', d', Writes(d')[m].next.value) {
      if m != c && m != n { assert m in Writes(d) && Writes(d)[m] == Writes(d')[m]; }
    }
  }

  lemma WithNodeNews(sh: Shared, d: Local, i: nat, c: Node, pv: bool, n: Node, nx: Option<Node>)
    requires SharedBase(sh) && SnapInv(sh, d) && NewsInv(sh, d) && HeldInv(sh, d, i) && n !in sh.mem && n.key != MIN_KEY
    requires nx.Some? ==> Visible(sh, d, nx.value)
    ensures SnapInv(Allocated(sh, n, nx), WithNode(d, c, pv, n, nx))
    ensures NewsInv(Allocated(sh, n, nx), WithNode(d, c, pv, n, nx))
    ensures HeldInv(Allocated(sh, n, nx), WithNode(d, c, pv, n, nx), i)
  {
    assert n in sh.committed ==> NodeBase(sh, n);
    assert n !in d.snap;
  }

  lemma OverlayNode(h: Heap, news: Heap, ws: Heap, c: Node, cc: Cell, n: Node, cn: Cell)
    requires n !in ws && n != c
    ensures h + (news[n := cn] + ws[c := cc]) == (h + (news + ws))[n := cn][c := cc]
  {
  }

  lemma InsertedOn(sh: Shared, d: Local, i: nat, c: Node, n: Node, nx: Option<Node>, h: Heap)
    requires UndecidedInv(sh, d, i) && Clean(sh, d) && CorrectOn(d, h) && c in d.rs && d.kind == Put
    requires Live(View(sh, d), c) && View(sh, d)[c].next == nx && c.key < d.key == n.key
    requires (nx.Some? ==> d.key < nx.value.key) && n !in d.ws && n !in d.news
    ensures CorrectOn(Logged(WithNode(d, c, true, n, nx), false), h)
  {
    var d' := WithNode(d, c, true, n, nx);
    if WellFormed(h) && Agrees(h, d.snap) && h.Keys !! d'.news.Keys {
      assert n in d'.news && n !in h;
      assert h.Keys !! d.news.Keys;
      var g := h + Writes(d);
      SameCell(sh, d, i, h, c);
      hide UndecidedInv, View, Clean;
      OverlayNode(h, d.news, d.ws, c, Cell(Some(n), false, true), n, Cell(nx, false, true));
      InsertKeepsList(g, c, n);
      FindDecides(g, c, n.key);
      ExplainsSnoc(Keys(h), d.log, Event(d.kind, d.key, false));
    }
  }

  lemma InsertedGood(sh: Shared, d: Local, i: nat, c: Node, n: Node, nx: Option<Node>)
    requires UndecidedInv(sh, d, i) && Clean(sh, d) && Good(d) && c in d.rs && d.kind == Put
    requires Live(View(sh, d), c) && View(sh, d)[c].next == nx && c.key < d.key == n.key
    requires (nx.Some? ==> d.key < nx.value.key) && n !in d.ws && n !in d.news
    ensures Good(Logged(WithNode(d, c, true, n, nx), false))
  {
    hide UndecidedInv, View, CorrectOn, Clean;
    var d' := Logged(WithNode(d, c, true, n, nx), false);
    forall h: Heap ensures CorrectOn(d', h) {
      assert CorrectOn(d, h);
      InsertedOn(sh, d, i, c, n, nx, h);
    }
  }

  lemma Unallocated(sh: Shared, d: Local, i: nat, n: Node)
    requires SharedBase(sh) && UndecidedInv(sh, d, i) && n !in sh.mem
    ensures n !in d.ws && n !in d.news
  {
    assert n in sh.committed ==> NodeBase(sh, n);
    assert n in d.snap ==> n in sh.committed;
  }

  lemma InsertedUndecided(sh: Shared, d: Local, i: nat, c: Node, nx: Option<Node>, n: Node)
    requires SharedBase(sh) && UndecidedInv(sh, d, i) && Visible(sh, d, c) && (nx.Some? ==> Visible(sh, d, nx.value))
    requires !d.readOnly && n.key != MIN_KEY && n !in sh.mem && c in sh.mem
    ensures UndecidedInv(Allocated(sh, n, nx), InsertedLocal(sh, d, c, nx, n), i)
  {
    hide SharedBase, UndecidedInv;
    AddReadKeeps(sh, d, i, c, nx);
    var pv := if c in d.ws then d.ws[c].has else sh.mem[c].has;
    WithNodeUndecided(sh, AddRead(sh, d, c, nx), i, c, pv, n, nx);
    LoggedUndecided(Allocated(sh, n, nx), WithNode(AddRead(sh, d, c, nx), c, pv, n, nx), i, false);
  }

  lemma InsertClean(sh: Shared, d: Local, c: Node, nx: Option<Node>, n: Node)
    requires c in sh.mem && Clean(Allocated(sh, n, nx), InsertedLocal(sh, d, c, nx, n))
    ensures Clean(sh, AddRead(sh, d, c, nx))
  {
  }

  lemma InsertKeeps(sh: Shared, d: Local, i: nat, c: Node, nx: Option<Node>, n: Node)
    requires SharedInv(sh) && UndecidedInv(sh, d, i) && (Clean(sh, d) ==> Good(d)) && AtPlace(sh, d, c, nx)
    requires d.kind == Put && !Match(d, nx) && !d.readOnly && n.key == d.key && n !in sh.mem && c in sh.mem
    ensures SharedInv(Allocated(sh, n, nx))
    ensures TxInv(Allocated(sh, n, nx), Tx(Ready, InsertedLocal(sh, d, c, nx, n)), i)
  {
    assert SharedBase(sh);
    hide SharedInv, SharedBase, Good, UndecidedInv, TxInv, Clean;
    AllocShared(sh, n, nx);
    InsertedUndecided(sh, d, i, c, nx, n);
    var d1 := AddRead(sh, d, c, nx);
    PlaceKeeps(sh, d, i, c, nx);
    if Clean(Allocated(sh, n, nx), InsertedLocal(sh, d, c, nx, n)) {
      InsertClean(sh, d, c, nx, n);
      Unallocated(sh, d1, i, n);
      InsertHas(sh, d1, i, c);
      InsertedGood(sh, d1, i, c, n, nx);
    }
    ReadyKeeps(Allocated(sh, n, nx), InsertedLocal(sh, d, c, nx, n), i);
  }

  lemma InsertHas(sh: Shared, d: Local, i: nat, c: Node)
    requires SharedInv(sh) && UndecidedInv(sh, d, i) && Live(View(sh, d), c) && View(sh, d)[c].has && c in sh.mem
    ensures if c in d.ws then d.ws[c].has else sh.mem[c].has
  {
    if c !in d.ws { ValueThere(sh, d, c); }
  }

  // ---------------------------------------------------------------- all of them

  lemma PlaceReached(sh: Shared, x: Tx, i: nat)
    requires RunningInv(sh, x, i) && x.pc.GettingNext? && x.pc.np.Done? && Found(x.d, x.pc.g, x.pc.np.nx)
    ensures AtPlace(sh, x.d, x.pc.c, x.pc.np.nx)
  {
    hide UndecidedInv, Good;
  }

  /** Seen unlocked, a node's link is current: the check every other path makes would be enough here. */
  lemma QuietCurrent(sh: Shared, d: Local, q: Node)
    requires SharedBase(sh) && NewsInv(sh, d) && Visible(sh, d, q) && q !in d.ws && Quiet(sh, d, q)
    ensures LinkCurrent(sh, d, q)
  {
    if Settled(sh, d, q) { QuietMatches(sh, d, q); }
  }

  lemma UnlockedCurrent(sh: Shared, d: Local, q: Node)
    requires SharedBase(sh) && NewsInv(sh, d) && Visible(sh, d, q) && q !in d.ws
    requires q in sh.mem && sh.mem[q].lock.None?
    ensures LinkCurrent(sh, d, q)
  {
    if q in sh.committed { assert NodeBase(sh, q); }
    hide SharedBase;
    QuietCurrent(sh, d, q);
  }

  lemma ActAtPlace(sh: Shared, x: Tx, i: nat, x': Tx)
    requires SharedInv(sh) && RunningInv(sh, x, i) && x.pc.GettingNext? && x.pc.np.Done?
    requires Found(x.d, x.pc.g, x.pc.np.nx)
    requires GetStep(sh, x.d, x.pc.c, x.pc.np.nx, x') || OverwriteStep(sh, x.d, x.pc.np.nx, x')
      || RemoveStep(sh, x.d, x.pc.c, x.pc.np.nx, x')
    ensures TxInv(sh, x', i)
  {
    var d, c, nx := x.d, x.pc.c, x.pc.np.nx;
    PlaceReached(sh, x, i);
    hide SharedInv, UndecidedInv, Good, TxInv, Standing, LinkInv, AddRead, Overwritten;
    if d.kind == Get { GetKeeps(sh, d, i, c, nx, x'); }
    else if d.kind == Remove { RemoveKeeps(sh, d, i, c, nx, x'); }
    else { OverwriteKeeps(sh, d, i, nx.value); }
  }

  lemma FinishKeeps(sh: Shared, x: Tx, i: nat, x': Tx)
    requires SharedInv(sh) && RunningInv(sh, x, i) && x.pc.Finishing? && FinishStep(sh, x.d, x.pc.fp, x')
    ensures TxInv(sh, x', i)
  {
    var d := x.d;
    match x.pc.fp
    case GetValue(p, q) => GetValueKeeps(sh, d, i, p, q);
    case PutReturn(q) => PutReturnKeeps(sh, d, i, q);
    case RemovePredVal(p, q, nx) => RemovePredValKeeps(sh, d, i, p, q, nx);
    case RemoveVal(p, q, nx, pv) => RemoveValKeeps(sh, d, i, p, q, nx, pv);
  }

  lemma GetValueKeeps(sh: Shared, d: Local, i: nat, p: Node, q: Node)
    requires SharedInv(sh) && UndecidedInv(sh, d, i) && (Clean(sh, d) ==> Good(d)) && q in sh.mem
    requires FinishInv(sh, d, GetValue(p, q)) && d.held == {}
    ensures TxInv(sh, Tx(Ready, Logged(d, sh.mem[q].has)), i)
  {
    hide TxInv, Good, UndecidedInv;
    if Clean(sh, d) {
      SuccessorThere(sh, d, i, p, q);
      BracketGood(sh, d, i, p, sh.mem[q].has);
    }
    ReturnKeeps(sh, d, i, sh.mem[q].has);
  }

  lemma UnlinkReached(sh: Shared, x: Tx, i: nat, x': Tx)
    requires SharedInv(sh) && RunningInv(sh, x, i) && x.pc.GettingNext? && x.pc.np.Done?
    requires UnlinkStep(x.d, x.pc.g, x.pc.np.nx, x')
    ensures TxInv(sh, x', i)
  {
    hide SharedInv, UndecidedInv, Good, TxInv;
    UnlinkKeeps(sh, x.d, i, x.pc.g.pred, x.pc.g.target, x.pc.np.nx, x');
  }

  lemma ActKeeps(sh: Shared, x: Tx, i: nat, x': Tx)
    requires SharedInv(sh) && RunningInv(sh, x, i) && ActStep(sh, x, x')
    ensures TxInv(sh, x', i)
  {
    hide SharedInv, RunningInv, TxInv;
    if x.pc.Finishing? { FinishKeeps(sh, x, i, x'); }
    else if UnlinkStep(x.d, x.pc.g, x.pc.np.nx, x') { UnlinkReached(sh, x, i, x'); }
    else { ActAtPlace(sh, x, i, x'); }
  }
}
