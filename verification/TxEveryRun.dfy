/** What holds in every state of every run, whatever links transactions copy: locks have one owner, versions
    follow commits, and a transaction only points to published nodes or its own. Nothing here depends on the
    committed list being well-formed. */
module TxEveryRun {
  import opened Basics
  import opened ListHeap
  import opened Transactions
  import opened TxInvariant
  import opened TxLocalSteps
  import opened TxOperations
  import opened TxStability
  import opened TxCommit
  import opened SerialOrder

  predicate NewsApart(s: State)
  {
    && (forall i: nat, n :: i < |s.txs| && n in s.txs[i].d.news ==> n in s.sh.mem)
    && (forall i: nat, j: nat :: i < |s.txs| && j < |s.txs| && i != j ==> s.txs[i].d.news.Keys !! s.txs[j].d.news.Keys)
  }

  predicate Owned(s: State)
  {
    forall n :: n in s.sh.mem && s.sh.mem[n].lock.Some? ==>
      s.sh.mem[n].lock.value < |s.txs| && n in s.txs[s.sh.mem[n].lock.value].d.held
  }

  ghost predicate TxsBase(s: State)
  {
    forall i: nat {:trigger TxBase(s.sh, s.txs[i], i)} :: i < |s.txs| ==> TxBase(s.sh, s.txs[i], i)
  }

  ghost predicate BaseInv(s: State)
  {
    && SharedBase(s.sh) && TxsBase(s) && NewsApart(s) && Owned(s) && Shape(s) && Membership(s)
  }

  // ---------------------------------------------------------------- consequences for one transaction

  lemma HeldLocked(sh: Shared, x: Tx, i: nat, n: Node)
    requires TxBase(sh, x, i) && n in x.d.held
    ensures n in sh.mem && sh.mem[n].lock == Some(i) && (x.pc != Aborted ==> n in x.d.ws)
  {
    hide PcBase;
  }

  lemma PrivateUncommitted(sh: Shared, x: Tx, i: nat)
    requires TxBase(sh, x, i)
    ensures PrivateNodes(x) !! sh.committed.Keys
  {
    hide PcBase;
  }

  /** Nodes a transaction writes are committed ones, or its own. */
  lemma WrittenWhere(sh: Shared, x: Tx, i: nat)
    requires TxBase(sh, x, i) && x.pc != Aborted
    ensures x.d.ws.Keys <= sh.committed.Keys + x.d.news.Keys && x.d.snap.Keys <= sh.committed.Keys
    ensures Decided(x.pc) ==> Writes(x.d).Keys <= sh.committed.Keys
  {
    hide PcBase;
  }

  lemma ForeignNode(s: State, i: nat, j: nat, n: Node)
    requires TxsBase(s) && NewsApart(s) && i < |s.txs| && j < |s.txs| && i != j
    requires s.txs[i].pc != Aborted && n in s.txs[i].d.ws
    ensures n !in PrivateNodes(s.txs[j])
  {
    assert TxBase(s.sh, s.txs[i], i) && TxBase(s.sh, s.txs[j], j);
    hide TxBase;
    WrittenWhere(s.sh, s.txs[i], i);
    PrivateUncommitted(s.sh, s.txs[j], j);
  }

  // ---------------------------------------------------------------- thread-local steps

  lemma StartBase(sh: Shared, x: Tx, i: nat, x': Tx)
    requires SharedBase(sh) && TxBase(sh, x, i) && StartStep(sh, x, x')
    ensures TxBase(sh, x', i)
  {
    hide SharedBase;
    if x.pc == Ready {
      hide UndecidedInv;
      SameSets(sh, x.d, i, x'.d);
    }
  }

  lemma PredStepBase(sh: Shared, d: Local, pp: PredPc, pc': Pc)
    requires SharedBase(sh) && PredBase(sh, d, pp) && PredStep(sh, d, pp, pc')
    ensures PcBase(sh, d, pc')
  {
    if !pp.Pick? { assert NodeBase(sh, pp.p); }
  }

  lemma NextStepBase(sh: Shared, d: Local, g: Goal, c: Node, np: NextPc, pc': Pc)
    requires SharedBase(sh) && NewsInv(sh, d) && PointerInv(sh, d)
    requires PcBase(sh, d, GettingNext(g, c, np)) && NextStep(sh, d, g, c, np, pc')
    ensures PcBase(sh, d, pc')
  {
    if np.Start? && c in d.ws { assert c in Writes(d); }
    else if np.Read? || np.Start? {
      if c in sh.committed { assert NodeBase(sh, c); }
    }
  }

  lemma ReadBase(sh: Shared, x: Tx, i: nat, x': Tx)
    requires SharedBase(sh) && TxBase(sh, x, i) && ReadStep(sh, x, x')
    ensures TxBase(sh, x', i)
  {
    assert PcBase(sh, x.d, x'.pc) by {
      hide SharedBase, SetsInv, SnapInv, HeldInv, NextStep, PredStep;
      match x.pc
      case GettingPred(pp) => PredStepBase(sh, x.d, pp, x'.pc);
      case GettingNext(g, c, np) => NextStepBase(sh, x.d, g, c, np, x'.pc);
      case _ =>
    }
    hide SharedBase, UndecidedInv, PcBase;
  }

  lemma OperationGoesOn(sh: Shared, d: Local, i: nat, pc: Pc)
    requires UndecidedInv(sh, d, i) && PcBase(sh, d, pc) && (InOperation(pc) || pc == Ready)
    requires d.held == {} && MIN_KEY < d.key && (d.kind != Get ==> !d.readOnly)
    ensures TxBase(sh, Tx(pc, d), i)
  {
    hide UndecidedInv, PcBase;
  }

  lemma GetBase(sh: Shared, d: Local, i: nat, c: Node, nx: Option<Node>, x': Tx)
    requires SharedBase(sh) && UndecidedInv(sh, d, i) && GetStep(sh, d, c, nx, x') && Visible(sh, d, c)
    requires d.held == {} && MIN_KEY < d.key && (d.kind != Get ==> !d.readOnly)
    ensures TxBase(sh, x', i)
  {
    hide SharedBase, UndecidedInv, TxBase, Visible;
    var d1 := AddRead(sh, d, c, nx);
    AddReadKeeps(sh, d, i, c, nx);
    if x'.pc == Ready { LoggedUndecided(sh, d1, i, x'.d.log[|d.log|].result); }
    OperationGoesOn(sh, x'.d, i, x'.pc);
  }

  lemma RemoveBase(sh: Shared, d: Local, i: nat, c: Node, nx: Option<Node>, x': Tx)
    requires SharedBase(sh) && UndecidedInv(sh, d, i) && RemoveStep(sh, d, c, nx, x')
    requires Visible(sh, d, c) && (nx.Some? ==> Visible(sh, d, nx.value))
    requires d.held == {} && MIN_KEY < d.key && (d.kind != Get ==> !d.readOnly)
    ensures TxBase(sh, x', i)
  {
    hide SharedBase, UndecidedInv, TxBase;
    var d1 := AddRead(sh, d, c, nx);
    AddReadKeeps(sh, d, i, c, nx);
    if x'.pc == Ready { LoggedUndecided(sh, d1, i, false); }
    OperationGoesOn(sh, x'.d, i, x'.pc);
  }

  lemma OverwriteBase(sh: Shared, d: Local, i: nat, q: Node)
    requires SharedBase(sh) && UndecidedInv(sh, d, i) && q in sh.mem && Visible(sh, d, q) && d.kind == Put
    requires d.held == {} && MIN_KEY < d.key && !d.readOnly
    ensures TxBase(sh, Tx(Finishing(PutReturn(q)), Overwritten(sh, d, q)), i)
  {
    hide SharedBase, UndecidedInv, TxBase, StaleCopy;
    OverwriteUndecided(sh, d, i, q);
    OperationGoesOn(sh, Overwritten(sh, d, q), i, Finishing(PutReturn(q)));
  }

  lemma FinishStepBase(sh: Shared, d: Local, i: nat, fp: FinishPc, x': Tx)
    requires SharedBase(sh) && UndecidedInv(sh, d, i) && FinishBase(sh, d, fp) && FinishStep(sh, d, fp, x')
    requires d.held == {} && MIN_KEY < d.key && (d.kind != Get ==> !d.readOnly)
    ensures TxBase(sh, x', i)
  {
    hide SharedBase, UndecidedInv, TxBase, Visible, Removed;
    match fp
    case RemoveVal(p, q, nx, pv) =>
      RemovedUndecided(sh, d, i, p, q, nx, pv);
      RemovedRest(sh, d, p, q, nx, pv);
      OperationGoesOn(sh, x'.d, i, Ready);
    case RemovePredVal(_, _, _) => OperationGoesOn(sh, d, i, x'.pc);
    case _ =>
      LoggedUndecided(sh, d, i, sh.mem[fp.q].has);
      OperationGoesOn(sh, x'.d, i, Ready);
  }

  lemma RemovedRest(sh: Shared, d: Local, p: Node, q: Node, nx: Option<Node>, pv: bool)
    requires q in sh.mem
    ensures var d' := Removed(sh, d, p, q, nx, pv);
            d'.held == d.held && d'.key == d.key && d'.kind == d.kind && d'.readOnly == d.readOnly
  {
  }

  lemma ActBase(sh: Shared, x: Tx, i: nat, x': Tx)
    requires SharedBase(sh) && TxBase(sh, x, i) && ActStep(sh, x, x')
    ensures TxBase(sh, x', i)
  {
    var d := x.d;
    assert UndecidedInv(sh, d, i) && PcBase(sh, d, x.pc) && PhaseInv(d, x.pc);
    hide SharedBase, UndecidedInv, TxBase, GetStep, OverwriteStep, RemoveStep, Visible;
    match x.pc
    case Finishing(fp) => FinishStepBase(sh, d, i, fp, x');
    case GettingNext(g, c, np) =>
      if GetStep(sh, d, c, np.nx, x') { GetBase(sh, d, i, c, np.nx, x'); }
      else if RemoveStep(sh, d, c, np.nx, x') { RemoveBase(sh, d, i, c, np.nx, x'); }
      else if OverwriteStep(sh, d, np.nx, x') {
        OverwriteIs(sh, d, np.nx, x');
        OverwriteBase(sh, d, i, np.nx.value);
      } else { OperationGoesOn(sh, d, i, x'.pc); }
    case _ =>
  }

  lemma OverwriteIs(sh: Shared, d: Local, nx: Option<Node>, x': Tx)
    requires OverwriteStep(sh, d, nx, x')
    ensures d.kind == Put && nx.Some? && nx.value in sh.mem
    ensures x' == Tx(Finishing(PutReturn(nx.value)), Overwritten(sh, d, nx.value))
  {
  }

  lemma CommitLocalBase(sh: Shared, x: Tx, i: nat, x': Tx)
    requires TxBase(sh, x, i) && CommitLocalStep(sh, x, x')
    ensures TxBase(sh, x', i)
  {
    if x.pc.Validating? { TodoOnly(sh, x.d, i, x'.d); }
    hide UndecidedInv, UnwrittenInv;
  }

  lemma LocalBase(sh: Shared, x: Tx, i: nat, x': Tx)
    requires SharedBase(sh) && TxBase(sh, x, i) && LocalStep(sh, x, x')
    ensures TxBase(sh, x', i)
  {
    hide SharedBase, TxBase, StartStep, ReadStep, ActStep, CommitLocalStep;
    if StartStep(sh, x, x') { StartBase(sh, x, i, x'); }
    else if ReadStep(sh, x, x') { ReadBase(sh, x, i, x'); }
    else if ActStep(sh, x, x') { ActBase(sh, x, i, x'); }
    else { CommitLocalBase(sh, x, i, x'); }
  }

  // ---------------------------------------------------------------- putting the parts together

  /** After a step of `i`, its own part and what the others relied on give everybody's. */
  lemma TxsBaseStep(s: State, i: nat, x': Tx, sh': Shared)
    requires SharedBase(s.sh) && TxsBase(s) && i < |s.txs| && TxBase(sh', x', i)
    requires forall j: nat {:trigger s.txs[j]} :: j < |s.txs| && j != i ==> Rely(s.sh, sh', PrivateNodes(s.txs[j]), s.txs[j].d.held)
    ensures forall j: nat {:trigger TxBase(sh', s.txs[i := x'][j], j)} :: j < |s.txs| ==> TxBase(sh', s.txs[i := x'][j], j)
  {
    hide SharedBase, TxBase, Rely;
    var txs' := s.txs[i := x'];
    forall j: nat | j < |s.txs| ensures TxBase(sh', txs'[j], j) {
      if j != i {
        assert TxBase(s.sh, s.txs[j], j) && txs'[j] == s.txs[j];
        TxBaseStable(s.sh, sh', s.txs[j], j);
      }
    }
  }

  lemma TxsBaseLocal(s: State, i: nat, x': Tx)
    requires TxsBase(s) && i < |s.txs| && TxBase(s.sh, x', i)
    ensures forall j: nat {:trigger TxBase(s.sh, s.txs[i := x'][j], j)} :: j < |s.txs| ==> TxBase(s.sh, s.txs[i := x'][j], j)
  {
    hide TxBase;
    var txs' := s.txs[i := x'];
    forall j: nat | j < |s.txs| ensures TxBase(s.sh, txs'[j], j) {
      if j != i { assert TxBase(s.sh, s.txs[j], j); }
    }
  }

  /** A step that does not move the transaction into or out of the order. */
  lemma MembershipSame(s: State, i: nat, x': Tx, sh': Shared)
    requires Shape(s) && Membership(s) && i < |s.txs| && (InOrder(s.txs[i].pc) <==> InOrder(x'.pc))
    ensures Shape(s.(txs := s.txs[i := x'], sh := sh')) && Membership(s.(txs := s.txs[i := x'], sh := sh'))
  {
  }

  lemma AddReadRest(sh: Shared, d: Local, n: Node, link: Option<Node>)
    ensures AddRead(sh, d, n, link).news == d.news && AddRead(sh, d, n, link).held == d.held
  {
  }

  lemma FinishSameNewsHeld(sh: Shared, d: Local, fp: FinishPc, x': Tx)
    requires FinishStep(sh, d, fp, x')
    ensures x'.d.news == d.news && x'.d.held == d.held
  {
    if fp.RemoveVal? { AddReadRest(sh, d, fp.q, fp.nx); }
    hide AddRead;
  }

  lemma ActSameNewsHeld(sh: Shared, x: Tx, x': Tx)
    requires ActStep(sh, x, x')
    ensures x'.d.news == x.d.news && x'.d.held == x.d.held
  {
    if x.pc.Finishing? { FinishSameNewsHeld(sh, x.d, x.pc.fp, x'); }
    else {
      var nx := x.pc.np.nx;
      AddReadRest(sh, x.d, x.pc.c, nx);
      if nx.Some? && nx.value in sh.mem { AddReadRest(sh, x.d, nx.value, CopiedLink(sh, x.d, nx.value)); }
    }
    hide AddRead, FinishStep, StaleCopy, Found;
  }

  lemma SameNewsHeld(sh: Shared, x: Tx, x': Tx)
    requires LocalStep(sh, x, x')
    ensures x'.d.news == x.d.news && x'.d.held == x.d.held
  {
    if ActStep(sh, x, x') { ActSameNewsHeld(sh, x, x'); }
    hide ActStep;
  }

  lemma LocalInOrder(sh: Shared, x: Tx, x': Tx)
    requires LocalStep(sh, x, x')
    ensures InOrder(x.pc) <==> InOrder(x'.pc)
  {
    hide AddRead, Overwritten, Removed;
  }

  lemma SameBooks(s: State, i: nat, x': Tx)
    requires Owned(s) && NewsApart(s) && i < |s.txs| && s.txs[i].d.held == x'.d.held && x'.d.news == s.txs[i].d.news
    ensures Owned(s.(txs := s.txs[i := x'])) && NewsApart(s.(txs := s.txs[i := x']))
  {
  }

  lemma LocalBaseKeeps(s: State, i: nat, x': Tx)
    requires BaseInv(s) && i < |s.txs| && LocalStep(s.sh, s.txs[i], x')
    ensures BaseInv(s.(txs := s.txs[i := x']))
  {
    var x := s.txs[i];
    assert TxBase(s.sh, x, i);
    hide SharedBase, TxBase, NewsApart, Owned, Membership, LocalStep;
    LocalBase(s.sh, x, i, x');
    TxsBaseLocal(s, i, x');
    SameNewsHeld(s.sh, x, x');
    SameBooks(s, i, x');
    LocalInOrder(s.sh, x, x');
    MembershipSame(s, i, x', s.sh);
  }

  // ---------------------------------------------------------------- steps that change one node in memory

  /** A store to a node that is locked by the transaction, or by nobody, or new. */
  lemma StoreRely(s: State, i: nat, n: Node, m: MemNode, written: bool, j: nat)
    requires TxsBase(s) && NewsApart(s) && i < |s.txs| && j < |s.txs| && i != j
    requires n in s.sh.mem ==> s.sh.mem[n].version <= m.version
    requires n in s.sh.mem ==> n in s.txs[i].d.ws && (s.sh.mem[n].lock == None || s.sh.mem[n].lock == Some(i))
    requires s.txs[i].pc != Aborted
    ensures Rely(s.sh, WithMem(s.sh, n, m, written), PrivateNodes(s.txs[j]), s.txs[j].d.held)
  {
    var y := s.txs[j];
    assert TxBase(s.sh, y, j);
    hide TxBase;
    PrivateUncommitted(s.sh, y, j);
    if n in s.txs[i].d.ws { ForeignNode(s, i, j, n); }
    if n in y.d.held { HeldLocked(s.sh, y, j, n); }
    OneNodeRely(s.sh, n, m, written, PrivateNodes(y), y.d.held);
  }

  lemma StoreOwned(s: State, i: nat, x': Tx, n: Node, m: MemNode, written: bool)
    requires Owned(s) && NewsApart(s) && i < |s.txs|
    requires forall k :: k in s.txs[i].d.held && k != n ==> k in x'.d.held
    requires m.lock.Some? ==> m.lock == Some(i) && n in x'.d.held
    ensures Owned(s.(txs := s.txs[i := x'], sh := WithMem(s.sh, n, m, written)))
    ensures x'.d.news == s.txs[i].d.news ==> NewsApart(s.(txs := s.txs[i := x'], sh := WithMem(s.sh, n, m, written)))
  {
  }

  lemma StoreBase(s: State, i: nat, x': Tx, n: Node, m: MemNode, written: bool)
    requires BaseInv(s) && i < |s.txs| && n in s.sh.mem && s.sh.mem[n].version <= m.version
    requires n in s.txs[i].d.ws && (s.sh.mem[n].lock == None || s.sh.mem[n].lock == Some(i)) && s.txs[i].pc != Aborted
    requires SharedBase(WithMem(s.sh, n, m, written)) && TxBase(WithMem(s.sh, n, m, written), x', i)
    requires (InOrder(s.txs[i].pc) <==> InOrder(x'.pc)) && x'.d.news == s.txs[i].d.news
    requires forall k :: k in s.txs[i].d.held && k != n ==> k in x'.d.held
    requires m.lock.Some? ==> m.lock == Some(i) && n in x'.d.held
    ensures BaseInv(s.(txs := s.txs[i := x'], sh := WithMem(s.sh, n, m, written)))
  {
    hide SharedBase, TxBase, WithMem, Membership, InOrder;
    var sh' := WithMem(s.sh, n, m, written);
    forall j: nat {:trigger s.txs[j]} | j < |s.txs| && j != i ensures Rely(s.sh, sh', PrivateNodes(s.txs[j]), s.txs[j].d.held) {
      StoreRely(s, i, n, m, written, j);
    }
    TxsBaseStep(s, i, x', sh');
    MembershipSame(s, i, x', sh');
    StoreOwned(s, i, x', n, m, written);
  }

  lemma LockSharedBase(sh: Shared, n: Node, l: Option<nat>)
    requires SharedBase(sh) && n in sh.mem && (n in sh.dirty ==> l.Some?)
    ensures SharedBase(WithMem(sh, n, sh.mem[n].(lock := l), false))
  {
    assert n in sh.committed ==> NodeBase(sh, n);
    OneNodeBase(sh, n, sh.mem[n].(lock := l), false);
  }

  lemma LockTxBase(sh: Shared, x: Tx, i: nat, sh': Shared, x': Tx)
    requires SharedBase(sh) && TxBase(sh, x, i) && LockStep(sh, x, i, sh', x')
    ensures TxBase(sh', x', i) && x.pc.n in x.d.ws
  {
    if x.pc.n in sh.committed { assert NodeBase(sh, x.pc.n); }
    hide UndecidedInv;
    UndecidedHeld(sh, x.d, i);
    assert x.pc.n !in sh.dirty;
    hide SharedBase;
    LockBitUndecided(sh, x.d, i, x.pc.n, Some(i), x'.d);
  }

  lemma LockBase(s: State, i: nat, sh': Shared, x': Tx)
    requires BaseInv(s) && i < |s.txs| && LockStep(s.sh, s.txs[i], i, sh', x')
    ensures BaseInv(s.(txs := s.txs[i := x'], sh := sh'))
  {
    var x := s.txs[i];
    var n := x.pc.n;
    assert TxBase(s.sh, x, i);
    hide BaseInv;
    assert SharedBase(s.sh) by { BaseShared(s); }
    hide SharedBase, TxBase;
    LockTxBase(s.sh, x, i, sh', x');
    LockSharedBase(s.sh, n, Some(i));
    StoreBase(s, i, x', n, s.sh.mem[n].(lock := Some(i)), false);
  }

  lemma BaseShared(s: State)
    requires BaseInv(s)
    ensures SharedBase(s.sh)
  {
  }

  lemma UnlockTxBase(sh: Shared, x: Tx, i: nat, n: Node, x': Tx)
    requires TxBase(sh, x, i) && x.pc.Unlocking? && n in x.d.held && n in sh.mem && x' == Tx(x.pc, x.d.(held := x.d.held - {n}))
    ensures n !in sh.dirty && TxBase(WithMem(sh, n, sh.mem[n].(lock := None), false), x', i)
  {
    assert Writes(x'.d) == Writes(x.d);
    if !x.pc.ok {
      UndecidedHeld(sh, x.d, i);
      hide UndecidedInv;
      LockBitUndecided(sh, x.d, i, n, None, x'.d);
    }
  }

  lemma UnlockBase(s: State, i: nat, sh': Shared, x': Tx)
    requires BaseInv(s) && i < |s.txs| && UnlockStep(s.sh, s.txs[i], sh', x')
    ensures BaseInv(s.(txs := s.txs[i := x'], sh := sh'))
  {
    var x := s.txs[i];
    assert TxBase(s.sh, x, i);
    BaseShared(s);
    hide BaseInv, SharedBase, TxBase;
    var n :| n in x.d.held && n in s.sh.mem &&
      sh' == s.sh.(mem := s.sh.mem[n := s.sh.mem[n].(lock := None)]) && x' == Tx(x.pc, x.d.(held := x.d.held - {n}));
    assert sh' == WithMem(s.sh, n, s.sh.mem[n].(lock := None), false);
    UnlockTxBase(s.sh, x, i, n, x');
    LockSharedBase(s.sh, n, None);
    HeldLocked(s.sh, x, i, n);
    StoreBase(s, i, x', n, s.sh.mem[n].(lock := None), false);
  }

  /** The store behind a write-back step. */
  lemma WriteBackStore(sh: Shared, x: Tx, i: nat, sh': Shared, x': Tx) returns (n: Node, m: MemNode)
    requires DecidedBase(sh, x, i) && x.pc.WritingBack? && WriteBackStep(sh, x.d, x.pc.wp, sh', x')
    ensures WriteOf(sh, x.d, x.pc.wp, n, m)
    ensures sh' == WithMem(sh, n, m, x.pc.wp.Stamp?) && x' == WriteNext(x.d, x.pc.wp, n)
  {
    if x.pc.wp.PickNode? {
      n :| n in x.d.todo && n in x.d.ws && n in sh.mem &&
        x' == Tx(WritingBack(Val(n)), x.d.(todo := x.d.todo - {n})) &&
        sh' == sh.(mem := sh.mem[n := sh.mem[n].(next := x.d.ws[n].next)]);
    } else {
      n := x.pc.wp.n;
    }
    m := sh'.mem[n];
  }

  lemma WriteBackBaseKeeps(s: State, i: nat, sh': Shared, x': Tx)
    requires BaseInv(s) && i < |s.txs| && s.txs[i].pc.WritingBack? && WriteBackStep(s.sh, s.txs[i].d, s.txs[i].pc.wp, sh', x')
    ensures BaseInv(s.(txs := s.txs[i := x'], sh := sh'))
  {
    var x := s.txs[i];
    assert TxBase(s.sh, x, i);
    BaseShared(s);
    hide BaseInv, SharedBase, DecidedBase;
    var n, m := WriteBackStore(s.sh, x, i, sh', x');
    WriteBackSharedBase(s.sh, x, i, n, m);
    WriteBackBase(s.sh, x, i, n, m);
    HeldLocked(s.sh, x, i, n);
    assert TxBase(sh', x', i);
    hide TxBase, WriteBackStep;
    StoreBase(s, i, x', n, m, x.pc.wp.Stamp?);
  }

  // ---------------------------------------------------------------- allocation

  lemma InsertRely(s: State, j: nat, n: Node, nx: Option<Node>)
    requires TxsBase(s) && NewsApart(s) && j < |s.txs| && n !in s.sh.mem
    ensures Rely(s.sh, Allocated(s.sh, n, nx), PrivateNodes(s.txs[j]), s.txs[j].d.held)
  {
    assert TxBase(s.sh, s.txs[j], j);
    hide TxBase;
    PrivateUncommitted(s.sh, s.txs[j], j);
    if n in s.txs[j].d.held { HeldLocked(s.sh, s.txs[j], j, n); }
    OneNodeRely(s.sh, n, MemNode(nx, true, None, false, 0), false, PrivateNodes(s.txs[j]), s.txs[j].d.held);
  }

  lemma InsertNews(s: State, i: nat, n: Node, nx: Option<Node>)
    requires NewsApart(s) && Owned(s) && i < |s.txs| && n !in s.sh.mem && s.txs[i].pc.GettingNext? && s.txs[i].pc.c in s.sh.mem
    ensures var s' := s.(txs := s.txs[i := Tx(Ready, InsertedLocal(s.sh, s.txs[i].d, s.txs[i].pc.c, nx, n))],
                         sh := Allocated(s.sh, n, nx));
            NewsApart(s') && Owned(s')
  {
    var d := s.txs[i].d;
    var d' := InsertedLocal(s.sh, d, s.txs[i].pc.c, nx, n);
    assert d'.news.Keys == d.news.Keys + {n} && d'.held == d.held;
    hide InsertedLocal;
    forall j: nat | j < |s.txs| && j != i ensures d'.news.Keys !! s.txs[j].d.news.Keys {
      assert d.news.Keys !! s.txs[j].d.news.Keys && n !in s.txs[j].d.news;
    }
  }

  lemma InsertTxBase(sh: Shared, x: Tx, i: nat, n: Node)
    requires SharedBase(sh) && TxBase(sh, x, i) && x.pc.GettingNext? && x.pc.np.Done? && x.d.kind == Put
    requires x.pc.c in sh.mem && n.key == x.d.key && n !in sh.mem
    ensures TxBase(Allocated(sh, n, x.pc.np.nx), Tx(Ready, InsertedLocal(sh, x.d, x.pc.c, x.pc.np.nx, n)), i)
  {
    var sh', d' := Allocated(sh, n, x.pc.np.nx), InsertedLocal(sh, x.d, x.pc.c, x.pc.np.nx, n);
    assert UndecidedInv(sh, x.d, i) && PcBase(sh, x.d, x.pc) && PhaseInv(x.d, x.pc);
    hide SharedBase, TxBase, UndecidedInv, Visible;
    InsertedUndecided(sh, x.d, i, x.pc.c, x.pc.np.nx, n);
    OperationGoesOn(sh', d', i, Ready);
  }

  lemma InsertTxsBase(s: State, i: nat, n: Node)
    requires SharedBase(s.sh) && TxsBase(s) && NewsApart(s) && i < |s.txs| && n !in s.sh.mem
    requires s.txs[i].pc.GettingNext? && s.txs[i].pc.np.Done? && s.txs[i].d.kind == Put
    requires s.txs[i].pc.c in s.sh.mem && n.key == s.txs[i].d.key
    ensures var x, sh' := s.txs[i], Allocated(s.sh, n, s.txs[i].pc.np.nx);
            var txs' := s.txs[i := Tx(Ready, InsertedLocal(s.sh, x.d, x.pc.c, x.pc.np.nx, n))];
            SharedBase(sh') && forall j: nat {:trigger TxBase(sh', txs'[j], j)} :: j < |s.txs| ==> TxBase(sh', txs'[j], j)
  {
    hide SharedBase, TxBase, NewsApart, InsertedLocal, Allocated, Rely;
    var x := s.txs[i];
    var sh', x' := Allocated(s.sh, n, x.pc.np.nx), Tx(Ready, InsertedLocal(s.sh, x.d, x.pc.c, x.pc.np.nx, n));
    assert TxBase(s.sh, x, i);
    InsertTxBase(s.sh, x, i, n);
    AllocBase(s.sh, n, x.pc.np.nx);
    forall j: nat {:trigger s.txs[j]} | j < |s.txs| && j != i ensures Rely(s.sh, sh', PrivateNodes(s.txs[j]), s.txs[j].d.held) {
      InsertRely(s, j, n, x.pc.np.nx);
    }
    TxsBaseStep(s, i, x', sh');
  }

  lemma InsertBase(s: State, i: nat, sh': Shared, x': Tx)
    requires BaseInv(s) && i < |s.txs| && InsertStep(s.sh, s.txs[i], sh', x')
    ensures BaseInv(s.(txs := s.txs[i := x'], sh := sh'))
  {
    hide SharedBase, TxBase, NewsApart, Owned, Membership, InsertedLocal;
    var x := s.txs[i];
    var n: Node :| n.key == x.d.key && n !in s.sh.mem && sh' == Allocated(s.sh, n, x.pc.np.nx)
      && x' == Tx(Ready, InsertedLocal(s.sh, x.d, x.pc.c, x.pc.np.nx, n));
    hide InsertStep, Found;
    InsertTxsBase(s, i, n);
    InsertNews(s, i, n, x.pc.np.nx);
    MembershipSame(s, i, x', sh');
  }

  lemma MemoryBase(s: State, i: nat, sh': Shared, x': Tx)
    requires BaseInv(s) && i < |s.txs| && MemoryStep(s.sh, s.txs[i], i, sh', x')
    ensures BaseInv(s.(txs := s.txs[i := x'], sh := sh'))
  {
    hide BaseInv, InsertStep, LockStep, UnlockStep, WriteBackStep;
    if InsertStep(s.sh, s.txs[i], sh', x') { InsertBase(s, i, sh', x'); }
    else if LockStep(s.sh, s.txs[i], i, sh', x') { LockBase(s, i, sh', x'); }
    else if UnlockStep(s.sh, s.txs[i], sh', x') { UnlockBase(s, i, sh', x'); }
    else { WriteBackBaseKeeps(s, i, sh', x'); }
  }

  // ---------------------------------------------------------------- entering and leaving the order

  lemma AcquiredBase(s: State, i: nat, s': State)
    requires BaseInv(s) && i < |s.txs| && AcquiredStep(s, i, s')
    ensures BaseInv(s')
  {
    var x := s.txs[i];
    var x' := Tx(Validating, x.d.(todo := x.d.rs));
    assert TxBase(s.sh, x, i);
    TodoOnly(s.sh, x.d, i, x'.d);
    assert TxBase(s.sh, x', i);
    hide TxBase, SharedBase;
    TxsBaseLocal(s, i, x');
    SameBooks(s, i, x');
    EnterMembership(s, i, x', s.sh.committed);
  }

  lemma EnterMembership(s: State, i: nat, x': Tx, h: Heap)
    requires Shape(s) && Membership(s) && i < |s.txs| && !InOrder(s.txs[i].pc) && InOrder(x'.pc)
    ensures Shape(State(s.sh, s.txs[i := x'], s.order + [i], s.heaps + [h]))
    ensures Membership(State(s.sh, s.txs[i := x'], s.order + [i], s.heaps + [h]))
  {
    var s' := State(s.sh, s.txs[i := x'], s.order + [i], s.heaps + [h]);
    forall j: nat | j < |s'.txs| ensures InOrder(s'.txs[j].pc) <==> j in s'.order {}
  }

  lemma ValidationFailBase(s: State, i: nat, s': State)
    requires BaseInv(s) && i < |s.txs| && ValidationFailStep(s, i, s')
    ensures BaseInv(s')
  {
    var x := s.txs[i];
    var x' := Tx(Unlocking(false), x.d);
    assert TxBase(s.sh, x, i);
    var p: nat :| p < |s.order| < |s.heaps| && s.order[p] == i
         && s' == State(s.sh, s.txs[i := x'], Without(s.order, p), Without(s.heaps, p));
    assert TxBase(s.sh, x', i) by { hide UndecidedInv; }
    hide TxBase, SharedBase, ValidationFailStep;
    TxsBaseLocal(s, i, x');
    SameBooks(s, i, x');
    hide NewsApart, Owned;
    LeaveMembership(s, p, x');
  }

  // ---------------------------------------------------------------- the commit point

  lemma CommitNodeBase(sh: Shared, x: Tx, i: nat, sh': Shared, x': Tx, n: Node)
    requires SharedBase(sh) && UndecidedInv(sh, x.d, i) && x.d.held == x.d.ws.Keys && CommitStep(sh, x, sh', x')
    requires n in sh'.committed
    ensures NodeBase(sh', n)
  {
    if n in x.d.ws { CommitWrittenBase(sh, x, i, sh', x', n); }
    else {
      hide SnapInv, HeldInv, SetsInv;
      if n in sh.committed { assert NodeBase(sh, n); } else { assert n in Writes(x.d); }
    }
  }

  /** A node of the write set is locked by the transaction, in memory as committed or as it was created. */
  lemma CommitWrittenBase(sh: Shared, x: Tx, i: nat, sh': Shared, x': Tx, n: Node)
    requires SharedBase(sh) && UndecidedInv(sh, x.d, i) && x.d.held == x.d.ws.Keys && CommitStep(sh, x, sh', x')
    requires n in x.d.ws
    ensures NodeBase(sh', n)
  {
    assert n in sh.mem && sh.mem[n].lock == Some(i) && n in Writes(x.d);
    if n in sh.committed { assert NodeBase(sh, n); } else { assert n in x.d.news; }
    hide SnapInv, HeldInv, SetsInv, SharedBase;
  }

  lemma CommitSharedBase(sh: Shared, x: Tx, i: nat, sh': Shared, x': Tx)
    requires SharedBase(sh) && UndecidedInv(sh, x.d, i) && x.d.held == x.d.ws.Keys && CommitStep(sh, x, sh', x')
    ensures SharedBase(sh')
  {
    forall n | n in sh'.committed ensures NodeBase(sh', n) { CommitNodeBase(sh, x, i, sh', x', n); }
    hide UndecidedInv, NodeBase;
  }

  lemma CommitUnwritten(sh: Shared, x: Tx, i: nat, sh': Shared, x': Tx, n: Node)
    requires UndecidedInv(sh, x.d, i) && x.d.held == x.d.ws.Keys && CommitStep(sh, x, sh', x')
    requires !x.d.readOnly && n in x.d.ws
    ensures UnwrittenInv(sh', x'.d, n)
  {
    hide NewsInv, PointerInv;
    assert n in Writes(x.d);
  }

  lemma CommitWritingBase(sh: Shared, x: Tx, i: nat, sh': Shared, x': Tx)
    requires UndecidedInv(sh, x.d, i) && x.d.held == x.d.ws.Keys && CommitStep(sh, x, sh', x') && !x.d.readOnly
    ensures WritingBase(sh', x'.d, PickNode)
  {
    hide UndecidedInv, UnwrittenInv;
    forall n | n in x'.d.todo ensures UnwrittenInv(sh', x'.d, n) { CommitUnwritten(sh, x, i, sh', x', n); }
  }

  lemma CommitSets(sh: Shared, x: Tx, i: nat, sh': Shared, x': Tx)
    requires UndecidedInv(sh, x.d, i) && x.d.held == x.d.ws.Keys && CommitStep(sh, x, sh', x')
    ensures Writes(x.d).Keys <= sh'.committed.Keys && x.d.snap.Keys <= sh'.committed.Keys
    ensures HeldInv(sh', x.d, i) && (x.d.readOnly ==> x.d.held == {})
  {
    hide NewsInv, PointerInv;
  }

  lemma CommitTxBase(sh: Shared, x: Tx, i: nat, sh': Shared, x': Tx)
    requires UndecidedInv(sh, x.d, i) && x.d.held == x.d.ws.Keys && CommitStep(sh, x, sh', x')
    ensures TxBase(sh', x', i)
  {
    CommitSets(sh, x, i, sh', x');
    if !x.d.readOnly { CommitWritingBase(sh, x, i, sh', x'); }
    hide UndecidedInv, WritingBase;
    assert Writes(x'.d) == Writes(x.d);
  }

  lemma NewsFresh(sh: Shared, x: Tx, i: nat)
    requires UndecidedInv(sh, x.d, i)
    ensures forall n :: n in sh.committed ==> n !in x.d.news
  {
  }

  lemma NewsDisjoint(s: State, i: nat, j: nat)
    requires NewsApart(s) && i < |s.txs| && j < |s.txs| && i != j
    ensures s.txs[i].d.news.Keys !! s.txs[j].d.news.Keys
  {
  }

  lemma HeldElsewhere(s: State, i: nat, j: nat, n: Node)
    requires TxsBase(s) && NewsApart(s) && i < |s.txs| && j < |s.txs| && i != j
    requires UndecidedInv(s.sh, s.txs[i].d, i) && s.txs[i].d.held == s.txs[i].d.ws.Keys && n in s.txs[j].d.held
    ensures n !in s.txs[i].d.ws && n !in s.txs[i].d.news && n in s.sh.mem
  {
    var x, y := s.txs[i], s.txs[j];
    assert TxBase(s.sh, y, j);
    HeldLocked(s.sh, y, j, n);
    assert y.pc != Aborted;
    hide TxBase;
    WrittenWhere(s.sh, y, j);
    NewsFresh(s.sh, x, i);
    NewsDisjoint(s, i, j);
    hide SetsInv, PointerInv, SnapInv, NewsInv, NewsApart;
  }

  /** What another transaction holds or has created is not written. */
  lemma CommitApart(s: State, i: nat, j: nat)
    requires TxsBase(s) && NewsApart(s) && i < |s.txs| && j < |s.txs| && i != j && s.txs[i].pc != Aborted
    requires UndecidedInv(s.sh, s.txs[i].d, i) && s.txs[i].d.held == s.txs[i].d.ws.Keys
    ensures forall n :: n in s.txs[j].d.held ==> n !in s.txs[i].d.ws && n !in s.txs[i].d.news && n in s.sh.mem
    ensures forall n :: n in PrivateNodes(s.txs[j]) ==> n !in s.txs[i].d.ws && n !in s.txs[i].d.news && n !in s.sh.committed
  {
    var x, y := s.txs[i], s.txs[j];
    assert TxBase(s.sh, y, j);
    NewsDisjoint(s, i, j);
    hide TxBase, UndecidedInv, NewsApart;
    PrivateUncommitted(s.sh, y, j);
    forall n | n in y.d.held ensures n !in x.d.ws && n !in x.d.news && n in s.sh.mem { HeldElsewhere(s, i, j, n); }
    forall n | n in PrivateNodes(y) ensures n !in x.d.ws {
      if n in x.d.ws { ForeignNode(s, i, j, n); }
    }
  }

  /** What a commit does to one node. */
  predicate CommitTo(sh: Shared, d: Local, sh': Shared, n: Node)
  {
    && (n in sh'.committed <==> n in sh.committed || n in d.news || n in d.ws)
    && (n in sh.committed ==> n in sh.stamp && n in sh'.stamp && sh.stamp[n] <= sh.gvc)
    && (n in sh.committed && n !in d.ws ==> sh'.committed[n] == sh.committed[n] && sh'.stamp[n] == sh.stamp[n])
    && (n in d.ws ==> n in sh'.stamp && sh'.stamp[n] == sh.gvc + 1)
    && (n in sh'.dirty <==> n in sh.dirty || n in d.ws)
  }

  lemma CommitEffect(sh: Shared, x: Tx, sh': Shared, x': Tx, n: Node)
    requires CommitStep(sh, x, sh', x') && (n in sh.committed ==> NodeBase(sh, n) && n !in x.d.news)
    ensures CommitTo(sh, x.d, sh', n)
  {
  }

  lemma RelyFromEffects(sh: Shared, d: Local, sh': Shared, news: set<Node>, held: set<Node>)
    requires sh.gvc <= sh'.gvc && sh'.mem == sh.mem && forall n :: CommitTo(sh, d, sh', n)
    requires forall n :: n in held ==> n !in d.ws && n !in d.news && n in sh.mem
    requires forall n :: n in news ==> n !in d.ws && n !in d.news && n !in sh.committed
    ensures Rely(sh, sh', news, held)
  {
    forall n | n in sh.committed && n in sh.stamp
      ensures n in sh'.committed && n in sh'.stamp && sh.stamp[n] <= sh'.stamp[n]
      ensures (sh'.committed[n] == sh.committed[n] && sh'.stamp[n] == sh.stamp[n]) || sh.gvc < sh'.stamp[n]
    {
      assert CommitTo(sh, d, sh', n);
    }
    forall n | n in sh'.dirty && n !in sh.dirty ensures n in sh'.stamp && sh.gvc < sh'.stamp[n] {
      assert CommitTo(sh, d, sh', n);
    }
    forall n | n in news ensures n !in sh'.committed { assert CommitTo(sh, d, sh', n); }
    forall n | n in held
      ensures n in sh'.dirty <==> n in sh.dirty
      ensures n in sh.committed && n in sh.stamp ==> n in sh'.committed && n in sh'.stamp
      ensures n in sh.committed && n in sh.stamp ==> sh'.committed[n] == sh.committed[n] && sh'.stamp[n] == sh.stamp[n]
    {
      assert CommitTo(sh, d, sh', n);
    }
  }

  lemma CommitRelyBody(sh: Shared, x: Tx, sh': Shared, x': Tx, news: set<Node>, held: set<Node>)
    requires CommitStep(sh, x, sh', x')
    requires forall n {:trigger n in sh.committed} :: n in sh.committed ==> NodeBase(sh, n) && n !in x.d.news
    requires forall n :: n in held ==> n !in x.d.ws && n !in x.d.news && n in sh.mem
    requires forall n :: n in news ==> n !in x.d.ws && n !in x.d.news && n !in sh.committed
    ensures Rely(sh, sh', news, held)
  {
    assert sh.gvc <= sh'.gvc && sh'.mem == sh.mem;
    forall n ensures CommitTo(sh, x.d, sh', n) { CommitEffect(sh, x, sh', x', n); }
    hide CommitStep, NodeBase;
    RelyFromEffects(sh, x.d, sh', news, held);
  }

  lemma CommitRely(s: State, i: nat, sh': Shared, x': Tx, j: nat)
    requires SharedBase(s.sh) && TxsBase(s) && NewsApart(s) && i < |s.txs| && j < |s.txs| && i != j
    requires UndecidedInv(s.sh, s.txs[i].d, i) && s.txs[i].d.held == s.txs[i].d.ws.Keys
    requires CommitStep(s.sh, s.txs[i], sh', x')
    ensures Rely(s.sh, sh', PrivateNodes(s.txs[j]), s.txs[j].d.held)
  {
    var x, y := s.txs[i], s.txs[j];
    assert x.pc != Aborted;
    hide UndecidedInv, CommitStep, NodeBase, NewsApart, PrivateNodes;
    CommitApart(s, i, j);
    NewsFresh(s.sh, x, i);
    forall n {:trigger n in s.sh.committed} | n in s.sh.committed ensures NodeBase(s.sh, n) && n !in x.d.news {}
    hide TxsBase, SharedBase;
    CommitRelyBody(s.sh, x, sh', x', PrivateNodes(y), y.d.held);
  }

  lemma CommitBooks(s: State, i: nat, sh': Shared, x': Tx, order: seq<nat>, heaps: seq<Heap>)
    requires NewsApart(s) && Owned(s) && i < |s.txs| && CommitStep(s.sh, s.txs[i], sh', x')
    ensures NewsApart(State(sh', s.txs[i := x'], order, heaps)) && Owned(State(sh', s.txs[i := x'], order, heaps))
  {
    assert sh'.mem == s.sh.mem && x'.d.news == s.txs[i].d.news && x'.d.held == s.txs[i].d.held;
    hide CommitStep;
  }

  lemma CommitMembership(s: State, i: nat, x': Tx, sh': Shared, heaps: seq<Heap>)
    requires Shape(s) && Membership(s) && i < |s.txs| && InOrder(s.txs[i].pc) && InOrder(x'.pc) && |heaps| == |s.heaps|
    ensures Shape(State(sh', s.txs[i := x'], s.order, heaps)) && Membership(State(sh', s.txs[i := x'], s.order, heaps))
  {
  }

  lemma CommitPcs(sh: Shared, x: Tx, sh': Shared, x': Tx)
    requires CommitStep(sh, x, sh', x')
    ensures x.pc == Validating && x.d.todo == {} && Decided(x'.pc)
    ensures x'.d == x.d.(wv := x'.d.wv, todo := x'.d.todo)
  {
  }

  lemma CommitTxsBase(s: State, i: nat, sh': Shared, x': Tx)
    requires SharedBase(s.sh) && TxsBase(s) && NewsApart(s) && i < |s.txs| && CommitStep(s.sh, s.txs[i], sh', x')
    ensures SharedBase(sh')
    ensures forall j: nat {:trigger TxBase(sh', s.txs[i := x'][j], j)} :: j < |s.txs| ==> TxBase(sh', s.txs[i := x'][j], j)
  {
    var x := s.txs[i];
    CommitPcs(s.sh, x, sh', x');
    assert TxBase(s.sh, x, i);
    assert UndecidedInv(s.sh, x.d, i) && x.d.held == x.d.ws.Keys;
    hide TxBase, CommitStep, SharedBase, UndecidedInv, NewsApart, Rely;
    CommitSharedBase(s.sh, x, i, sh', x');
    CommitTxBase(s.sh, x, i, sh', x');
    forall j: nat {:trigger s.txs[j]} | j < |s.txs| && j != i ensures Rely(s.sh, sh', PrivateNodes(s.txs[j]), s.txs[j].d.held) {
      CommitRely(s, i, sh', x', j);
    }
    TxsBaseStep(s, i, x', sh');
  }

  lemma CommitBase(s: State, i: nat, s': State)
    requires BaseInv(s) && i < |s.txs| == |s'.txs| && CommitPointStep(s, i, s')
    ensures BaseInv(s')
  {
    var x' := s'.txs[i];
    hide TxBase, CommitStep, SharedBase, NewsApart, Owned, Membership;
    CommitPcs(s.sh, s.txs[i], s'.sh, x');
    CommitTxsBase(s, i, s'.sh, x');
    CommitBooks(s, i, s'.sh, x', s'.order, s'.heaps);
    CommitMembership(s, i, x', s'.sh, s'.heaps);
  }

  // ---------------------------------------------------------------- every step, every run

  lemma InitBase(s: State)
    requires Init(s)
    ensures BaseInv(s)
  {
    forall n | n in s.sh.committed ensures NodeBase(s.sh, n) {}
    hide WellFormed, NodeBase;
  }

  lemma StepBase(s: State, i: nat, s': State)
    requires BaseInv(s) && i < |s.txs| == |s'.txs| && TxStep(s, i, s')
    ensures BaseInv(s')
  {
    hide BaseInv, LocalStep, MemoryStep, AcquiredStep, ValidationFailStep, CommitPointStep;
    var x' := s'.txs[i];
    if LocalStep(s.sh, s.txs[i], x') && s' == s.(txs := s.txs[i := x']) { LocalBaseKeeps(s, i, x'); }
    else if MemoryStep(s.sh, s.txs[i], i, s'.sh, x') && s' == s.(txs := s.txs[i := x'], sh := s'.sh) {
      MemoryBase(s, i, s'.sh, x');
    }
    else if AcquiredStep(s, i, s') { AcquiredBase(s, i, s'); }
    else if ValidationFailStep(s, i, s') { ValidationFailBase(s, i, s'); }
    else { CommitBase(s, i, s'); }
  }

  ghost predicate Run(tr: seq<State>)
  {
    0 < |tr| && Init(tr[0]) && forall k: nat :: k + 1 < |tr| ==> Next(tr[k], tr[k + 1])
  }

  /** Locks, versions and pointers are as described in every state of every run. */
  lemma {:induction false} EveryRun(tr: seq<State>, k: nat)
    requires Run(tr) && k < |tr|
    ensures BaseInv(tr[k]) && |tr[k].txs| == |tr[0].txs|
  {
    hide BaseInv, TxStep, Init;
    if k == 0 {
      InitBase(tr[0]);
    } else {
      EveryRun(tr, k - 1);
      assert Next(tr[k - 1], tr[k]);
      var i: nat :| i < |tr[k - 1].txs| == |tr[k].txs| && TxStep(tr[k - 1], i, tr[k]);
      StepBase(tr[k - 1], i, tr[k]);
    }
  }
}
