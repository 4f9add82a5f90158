/** Every step of a running transaction that only reads memory keeps its invariant. */
module TxLocalSteps {
  import opened ListHeap
  import opened Transactions
  import opened TxInvariant

  // ---------------------------------------------------------------- the transaction's view

  /** What a transaction that may still commit sees is a well-formed list. */
  lemma ViewWellFormed(sh: Shared, d: Local, i: nat)
    requires SharedInv(sh) && UndecidedInv(sh, d, i) && Clean(sh, d) && Good(d)
    ensures WellFormed(View(sh, d))
  {
    assert CorrectOn(d, sh.committed);
  }

  /** A settled node outside the write set, once seen unlocked, is in memory as committed. */
  lemma QuietMatches(sh: Shared, d: Local, c: Node)
    requires SharedBase(sh) && NewsInv(sh, d)
    requires Visible(sh, d, c) && c !in d.ws && Quiet(sh, d, c) && Settled(sh, d, c)
    ensures c in sh.mem && c in View(sh, d) && sh.mem[c].next == View(sh, d)[c].next
  {
    if c !in d.news { assert NodeBase(sh, c); }
  }

  // ---------------------------------------------------------------- TXbegin

  lemma NewTxGood(d: Local)
    requires d.snap == map[] && d.ws == map[] && d.news == map[] && d.used == {} && d.log == []
    ensures Good(d)
  {
    forall h: Heap ensures CorrectOn(d, h) { assert h + Writes(d) == h; }
  }

  /** Nothing the invariant of the read and write sets mentions has changed. */
  lemma SameSets(sh: Shared, d: Local, i: nat, d': Local)
    requires UndecidedInv(sh, d, i)
    requires d'.rv == d.rv && d'.snap == d.snap && d'.ws == d.ws && d'.news == d.news
    requires d'.rs == d.rs && d'.held == d.held && (d'.readOnly ==> d.readOnly)
    ensures UndecidedInv(sh, d', i)
  {
    assert Writes(d') == Writes(d);
  }

  lemma SameGood(d: Local, d': Local)
    requires Good(d) && d'.snap == d.snap && d'.ws == d.ws && d'.news == d.news && d'.used == d.used && d'.log == d.log
    ensures Good(d')
  {
    forall h: Heap ensures CorrectOn(d', h) { assert CorrectOn(d, h); }
  }

  lemma BeginKeeps(sh: Shared, x: Tx, i: nat, x': Tx)
    requires SharedInv(sh) && TxInv(sh, x, i) && StartStep(sh, x, x') && x.pc == NotStarted
    ensures TxInv(sh, x', i)
  {
    NewTxGood(x'.d);
  }

  lemma StartKeeps(sh: Shared, x: Tx, i: nat, x': Tx)
    requires SharedInv(sh) && TxInv(sh, x, i) && StartStep(sh, x, x')
    ensures TxInv(sh, x', i)
  {
    if x.pc == NotStarted {
      BeginKeeps(sh, x, i, x');
    } else {
      hide SharedInv, Good, UndecidedInv;
      SameSets(sh, x.d, i, x'.d);
      if Clean(sh, x'.d) { SameGood(x.d, x'.d); }
    }
  }

  // ---------------------------------------------------------------- getPred

  lemma PredKeeps(sh: Shared, d: Local, pp: PredPc, pc': Pc)
    requires SharedInv(sh) && NewsInv(sh, d) && PredInv(sh, d, pp) && PredStep(sh, d, pp, pc')
    ensures PcInv(sh, d, pc')
  {
    match pp
    case Pick(_) =>
    case CheckLock(p) => assert NodeInv(sh, p);
    case CheckVersion(p) =>
    case CheckDeleted(p) =>
      assert NodeInv(sh, p);
      assert p !in d.news;
  }

  // ---------------------------------------------------------------- getNext

  lemma LinkInWriteSet(sh: Shared, d: Local, i: nat, c: Node)
    requires SharedInv(sh) && UndecidedInv(sh, d, i) && (Clean(sh, d) ==> Good(d)) && c in d.ws
    requires Clean(sh, d) && Settled(sh, d, c) ==> Live(View(sh, d), c)
    ensures NextInv(sh, d, c, Done(d.ws[c].next))
  {
    assert c in Writes(d);
    if Clean(sh, d) {
      ViewWellFormed(sh, d, i);
      assert Settled(sh, d, c);
      assert LinkOk(View(sh, d), c);
    }
  }

  lemma LinkInMemory(sh: Shared, d: Local, i: nat, c: Node)
    requires SharedInv(sh) && UndecidedInv(sh, d, i) && (Clean(sh, d) ==> Good(d))
    requires Visible(sh, d, c) && NextInv(sh, d, c, Read) && c in sh.mem
    requires Clean(sh, d) && Settled(sh, d, c) ==> Live(View(sh, d), c)
    ensures NextInv(sh, d, c, Recheck(sh.mem[c].next))
  {
    if c in d.news { assert c in Writes(d); } else { assert NodeInv(sh, c); }
    if Settled(sh, d, c) {
      QuietMatches(sh, d, c);
      if Clean(sh, d) {
        ViewWellFormed(sh, d, i);
        assert LinkOk(View(sh, d), c);
      }
    }
  }

  lemma NextCheckKeeps(sh: Shared, d: Local, g: Goal, c: Node, np: NextPc, pc': Pc)
    requires SharedInv(sh) && Standing(sh, d, g, c) && NextInv(sh, d, c, np) && NextStep(sh, d, g, c, np, pc')
    requires !np.Read? && !np.Done? && (np.Start? ==> c !in d.ws)
    ensures PcInv(sh, d, pc')
  {
    if c in sh.committed { assert NodeInv(sh, c); }
    if np.SuccLock? && np.q in sh.committed { assert NodeInv(sh, np.q); }
  }

  lemma NextKeeps(sh: Shared, d: Local, i: nat, g: Goal, c: Node, np: NextPc, pc': Pc)
    requires SharedInv(sh) && UndecidedInv(sh, d, i) && (Clean(sh, d) ==> Good(d))
    requires Standing(sh, d, g, c) && NextInv(sh, d, c, np) && NextStep(sh, d, g, c, np, pc')
    ensures PcInv(sh, d, pc')
  {
    if np.Start? && c in d.ws { LinkInWriteSet(sh, d, i, c); }
    else if np.Read? { LinkInMemory(sh, d, i, c); }
    else if !np.Done? { NextCheckKeeps(sh, d, g, c, np, pc'); }
  }

  lemma ReadKeeps(sh: Shared, x: Tx, i: nat, x': Tx)
    requires SharedInv(sh) && RunningInv(sh, x, i) && ReadStep(sh, x, x')
    ensures TxInv(sh, x', i)
  {
    match x.pc
    case GettingPred(pp) => PredKeeps(sh, x.d, pp, x'.pc);
    case GettingNext(g, c, np) => NextKeeps(sh, x.d, i, g, c, np, x'.pc);
    case _ =>
  }
}
