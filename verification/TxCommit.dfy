/** TXend, one transaction at a time: what each of its steps keeps, and what it leaves to the others. */
module TxCommit {
  import opened Basics
  import opened ListHeap
  import opened Transactions
  import opened TxInvariant
  import opened TxStability

  // ---------------------------------------------------------------- thread-local steps

  lemma LockingKeeps(sh: Shared, x: Tx, i: nat, x': Tx)
    requires SharedInv(sh) && RunningInv(sh, x, i) && CommitLocalStep(sh, x, x') && (x.pc.Locking? || x.pc.LockCas?)
    ensures TxInv(sh, x', i)
  {
    hide Good, UndecidedInv, SharedInv;
  }

  /** Validating one node of the read set: it is not locked by another transaction. */
  lemma ValidatingKeeps(sh: Shared, x: Tx, i: nat, x': Tx)
    requires SharedInv(sh) && TentativeInv(sh, x, i) && CommitLocalStep(sh, x, x') && x.pc.Validating?
    ensures TxInv(sh, x', i)
  {
    var n := x'.pc.n;
    var d, d' := x.d, x'.d;
    assert UndecidedInv(sh, d', i) by { TodoOnly(sh, d, i, d'); }
    if Good(d) { GoodBookkeeping(d, d'); }
    if n in sh.committed {
      assert NodeInv(sh, n);
      assert n !in sh.dirty;
    }
    hide Good, UndecidedInv, SharedInv, Spoiled;
  }

  lemma TodoOnly(sh: Shared, d: Local, i: nat, d': Local)
    requires UndecidedInv(sh, d, i) && d' == d.(todo := d'.todo)
    ensures UndecidedInv(sh, d', i)
  {
    assert Writes(d') == Writes(d);
  }

  lemma GoodBookkeeping(d: Local, d': Local)
    requires Good(d) && d' == d.(todo := d'.todo, held := d'.held, wv := d'.wv)
    ensures Good(d')
  {
    forall h: Heap ensures CorrectOn(d', h) { assert CorrectOn(d, h); }
  }

  lemma ValVersionKeeps(sh: Shared, x: Tx, i: nat, x': Tx)
    requires SharedInv(sh) && TentativeInv(sh, x, i) && CommitLocalStep(sh, x, x') && x.pc.ValVersion?
    ensures TxInv(sh, x', i)
  {
    var n := x.pc.n;
    if n in x.d.ws && n in x.d.snap {
      assert NodeInv(sh, n) && n in x.d.held;
    }
    hide Good, UndecidedInv, SharedInv;
  }

  lemma CommitLocalKeeps(sh: Shared, x: Tx, i: nat, x': Tx)
    requires SharedInv(sh) && TxInv(sh, x, i) && CommitLocalStep(sh, x, x')
    ensures TxInv(sh, x', i)
  {
    if x.pc.Locking? || x.pc.LockCas? { LockingKeeps(sh, x, i, x'); }
    else if x.pc.Validating? { ValidatingKeeps(sh, x, i, x'); }
    else if x.pc.ValVersion? { ValVersionKeeps(sh, x, i, x'); }
    else { hide Good, UndecidedInv, SharedInv; }
  }

  // ---------------------------------------------------------------- taking and releasing a lock

  lemma LockShared(sh: Shared, n: Node, l: Option<nat>)
    requires SharedInv(sh) && n in sh.mem && (n in sh.dirty ==> l.Some?)
    ensures SharedInv(WithMem(sh, n, sh.mem[n].(lock := l), false))
  {
    hide WellFormed;
    assert n in sh.committed ==> NodeInv(sh, n);
    OneNodeShared(sh, n, sh.mem[n].(lock := l), false);
  }

  /** Setting or clearing lock bits does not touch what the transaction has read or written. */
  lemma LockBitUndecided(sh: Shared, d: Local, i: nat, n: Node, l: Option<nat>, d': Local)
    requires UndecidedInv(sh, d, i) && n in sh.mem
    requires d' == d.(todo := d'.todo, held := d'.held) && d'.held <= d.ws.Keys && d'.held !! sh.dirty
    requires forall k :: k in d'.held && k != n ==> k in d.held
    requires n in d'.held ==> l == Some(i)
    ensures UndecidedInv(WithMem(sh, n, sh.mem[n].(lock := l), false), d', i)
  {
    assert Writes(d') == Writes(d);
  }

  lemma LockRunning(sh: Shared, x: Tx, i: nat, sh': Shared, x': Tx)
    requires RunningInv(sh, x, i) && LockStep(sh, x, i, sh', x') && x.pc.n !in sh.dirty
    ensures TxInv(sh', x', i) && x.pc.n in x.d.ws
  {
    hide Good, UndecidedInv;
    if Clean(sh', x'.d) {
      assert Clean(sh, x.d);
      GoodBookkeeping(x.d, x'.d);
    }
    UndecidedHeld(sh, x.d, i);
    LockBitUndecided(sh, x.d, i, x.pc.n, Some(i), x'.d);
    hide Clean;
  }

  lemma LockKeeps(sh: Shared, x: Tx, i: nat, sh': Shared, x': Tx)
    requires SharedInv(sh) && RunningInv(sh, x, i) && LockStep(sh, x, i, sh', x')
    ensures SharedInv(sh') && TxInv(sh', x', i)
    ensures sh' == WithMem(sh, x.pc.n, sh.mem[x.pc.n].(lock := Some(i)), false)
    ensures x.pc.n in sh.mem && sh.mem[x.pc.n].lock.None? && x.pc.n in x.d.ws
  {
    var n := x.pc.n;
    LockShared(sh, n, Some(i));
    assert n !in sh.dirty by { if n in sh.committed { assert NodeInv(sh, n); } }
    hide SharedInv, RunningInv, TxInv;
    LockRunning(sh, x, i, sh', x');
  }

  lemma UndecidedHeld(sh: Shared, d: Local, i: nat)
    requires UndecidedInv(sh, d, i)
    ensures d.held <= d.ws.Keys && d.held !! sh.dirty
  {
  }

  lemma UnlockDecided(sh: Shared, x: Tx, i: nat, n: Node, d': Local)
    requires DecidedInv(sh, x, i) && x.pc.Unlocking? && n in x.d.held && n in sh.mem && d' == x.d.(held := x.d.held - {n})
    ensures DecidedInv(WithMem(sh, n, sh.mem[n].(lock := None), false), Tx(x.pc, d'), i)
  {
    GoodBookkeeping(x.d, d');
    hide Good;
    assert Writes(d') == Writes(x.d);
  }

  lemma UnlockKeeps(sh: Shared, x: Tx, i: nat, sh': Shared, x': Tx, n: Node)
    requires SharedInv(sh) && TxInv(sh, x, i) && x.pc.Unlocking? && n in x.d.held && n in sh.mem
    requires sh' == WithMem(sh, n, sh.mem[n].(lock := None), false) && x' == Tx(x.pc, x.d.(held := x.d.held - {n}))
    ensures SharedInv(sh') && TxInv(sh', x', i)
  {
    hide SharedInv, Good, UndecidedInv, RunningInv, TentativeInv;
    if !x.pc.ok { UndecidedHeld(sh, x.d, i); }
    assert n !in sh.dirty;
    LockShared(sh, n, None);
    if x.pc.ok {
      UnlockDecided(sh, x, i, n, x'.d);
    } else {
      hide DecidedInv;
      LockBitUndecided(sh, x.d, i, n, None, x'.d);
    }
  }

  // ---------------------------------------------------------------- write-back

  /** The store that a write-back step makes. */
  predicate WriteOf(sh: Shared, d: Local, wp: WritePc, n: Node, m: MemNode)
  {
    n in sh.mem && n in d.ws &&
    match wp
    case PickNode => n in d.todo && m == sh.mem[n].(next := d.ws[n].next)
    case Val(k) => n == k && m == sh.mem[n].(has := d.ws[n].has)
    case Deleted(k) => n == k && m == sh.mem[n].(deleted := true)
    case Null(k) => n == k && m == sh.mem[n].(has := false)
    case Stamp(k) => n == k && m == sh.mem[n].(version := d.wv)
  }

  function WriteNext(d: Local, wp: WritePc, n: Node): Tx
    requires n in d.ws
  {
    match wp
    case PickNode => Tx(WritingBack(Val(n)), d.(todo := d.todo - {n}))
    case Val(_) => Tx(WritingBack(if d.ws[n].dead then Deleted(n) else Stamp(n)), d)
    case Deleted(_) => Tx(WritingBack(Null(n)), d)
    case Null(_) => Tx(WritingBack(Stamp(n)), d)
    case Stamp(_) => Tx(WritingBack(PickNode), d)
  }

  lemma WriteBackSharedBase(sh: Shared, x: Tx, i: nat, n: Node, m: MemNode)
    requires SharedBase(sh) && DecidedBase(sh, x, i) && x.pc.WritingBack? && WriteOf(sh, x.d, x.pc.wp, n, m)
    ensures SharedBase(WithMem(sh, n, m, x.pc.wp.Stamp?)) && sh.mem[n].version <= m.version && n in x.d.held
  {
    assert UnwrittenInv(sh, x.d, n) && NodeBase(sh, n);
    OneNodeBase(sh, n, m, x.pc.wp.Stamp?);
  }

  lemma WriteBackShared(sh: Shared, x: Tx, i: nat, n: Node, m: MemNode)
    requires SharedInv(sh) && DecidedInv(sh, x, i) && x.pc.WritingBack? && WriteOf(sh, x.d, x.pc.wp, n, m)
    ensures SharedInv(WithMem(sh, n, m, x.pc.wp.Stamp?))
  {
    assert UnwrittenInv(sh, x.d, n) && NodeInv(sh, n);
    hide Good;
    OneNodeShared(sh, n, m, x.pc.wp.Stamp?);
  }

  lemma WriteBackUnwritten(sh: Shared, x: Tx, i: nat, n: Node, m: MemNode, k: Node)
    requires DecidedBase(sh, x, i) && x.pc.WritingBack? && WriteOf(sh, x.d, x.pc.wp, n, m)
    requires Unwritten(WriteNext(x.d, x.pc.wp, n).d, WriteNext(x.d, x.pc.wp, n).pc.wp, k)
    ensures UnwrittenInv(WithMem(sh, n, m, x.pc.wp.Stamp?), WriteNext(x.d, x.pc.wp, n).d, k)
  {
    assert Unwritten(x.d, x.pc.wp, k);
    assert UnwrittenInv(sh, x.d, k);
  }

  lemma WriteBackBase(sh: Shared, x: Tx, i: nat, n: Node, m: MemNode)
    requires DecidedBase(sh, x, i) && x.pc.WritingBack? && WriteOf(sh, x.d, x.pc.wp, n, m)
    ensures DecidedBase(WithMem(sh, n, m, x.pc.wp.Stamp?), WriteNext(x.d, x.pc.wp, n), i)
  {
    var wp := x.pc.wp;
    var sh', x' := WithMem(sh, n, m, wp.Stamp?), WriteNext(x.d, wp, n);
    assert UnwrittenInv(sh, x.d, n);
    assert Writes(x'.d) == Writes(x.d);
    forall k | Unwritten(x'.d, x'.pc.wp, k) ensures UnwrittenInv(sh', x'.d, k) {
      WriteBackUnwritten(sh, x, i, n, m, k);
    }
    hide UnwrittenInv;
  }

  lemma WriteBackBits(sh: Shared, x: Tx, n: Node, m: MemNode)
    requires x.pc.WritingBack? && WriteOf(sh, x.d, x.pc.wp, n, m)
    requires LinkWritten(sh, x.d, x.pc.wp) && BitsInv(sh, x.d, x.pc.wp)
    ensures BitsInv(WithMem(sh, n, m, x.pc.wp.Stamp?), WriteNext(x.d, x.pc.wp, n).d, WriteNext(x.d, x.pc.wp, n).pc.wp)
  {
  }

  lemma WriteBackKeeps(sh: Shared, x: Tx, i: nat, n: Node, m: MemNode)
    requires DecidedInv(sh, x, i) && x.pc.WritingBack? && WriteOf(sh, x.d, x.pc.wp, n, m)
    ensures DecidedInv(WithMem(sh, n, m, x.pc.wp.Stamp?), WriteNext(x.d, x.pc.wp, n), i)
  {
    WriteBackBase(sh, x, i, n, m);
    assert LinkWritten(sh, x.d, x.pc.wp);
    hide WritingBase, BitsInv, DecidedBase, Good, WriteOf, LinkWritten;
    WriteBackBits(sh, x, n, m);
    GoodBookkeeping(x.d, WriteNext(x.d, x.pc.wp, n).d);
  }
}
