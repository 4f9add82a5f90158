/** What holds in every state reached before any transaction has committed with a stale link, and the proof
    that every step keeps it. */
module TxMachine {
  import opened Basics
  import opened ListHeap
  import opened Transactions
  import opened TxInvariant
  import opened TxLocalSteps
  import opened TxOperations
  import opened TxStability
  import opened TxCommit
  import opened SerialOrder
  import opened TxEveryRun

  ghost predicate TxsInv(s: State)
  {
    forall i: nat {:trigger TxInv(s.sh, s.txs[i], i)} :: i < |s.txs| ==> TxInv(s.sh, s.txs[i], i)
  }

  /** The committed list is well-formed, and so is everything that a transaction may still commit. */
  ghost predicate Sound(s: State)
  {
    SharedInv(s.sh) && TxsInv(s) && OrderInv(s)
  }

  ghost predicate StateInv(s: State) { BaseInv(s) && Sound(s) }

  /** No transaction past its commit point has copied a stale link. */
  predicate Faithful(s: State)
  {
    forall i :: 0 <= i < |s.txs| && Decided(s.txs[i].pc) ==> !s.txs[i].d.stale
  }

  // ---------------------------------------------------------------- putting the parts together

  /** After a step of `i`, its own invariant and what the others relied on give everybody's. */
  lemma TxsStep(s: State, i: nat, x': Tx, sh': Shared)
    requires SharedBase(s.sh) && TxsInv(s) && i < |s.txs| && TxInv(sh', x', i)
    requires forall j: nat {:trigger s.txs[j]} :: j < |s.txs| && j != i ==> Rely(s.sh, sh', PrivateNodes(s.txs[j]), s.txs[j].d.held)
    ensures forall j: nat {:trigger TxInv(sh', s.txs[i := x'][j], j)} :: j < |s.txs| ==> TxInv(sh', s.txs[i := x'][j], j)
  {
    hide SharedBase, TxInv, Rely;
    var txs' := s.txs[i := x'];
    forall j: nat | j < |s.txs| ensures TxInv(sh', txs'[j], j) {
      if j != i {
        assert TxInv(s.sh, s.txs[j], j) && txs'[j] == s.txs[j];
        TxStable(s.sh, sh', s.txs[j], j);
      }
    }
  }

  // ---------------------------------------------------------------- thread-local steps

  lemma LocalTx(sh: Shared, x: Tx, i: nat, x': Tx)
    requires SharedInv(sh) && TxInv(sh, x, i) && LocalStep(sh, x, x')
    ensures TxInv(sh, x', i)
  {
    if StartStep(sh, x, x') { hide TxInv, SharedInv; StartKeeps(sh, x, i, x'); }
    else if CommitLocalStep(sh, x, x') { hide TxInv, SharedInv; CommitLocalKeeps(sh, x, i, x'); }
    else {
      hide SharedInv, RunningInv, CommitLocalStep, StartStep;
      assert RunningInv(sh, x, i);
      hide TxInv;
      if ReadStep(sh, x, x') { ReadKeeps(sh, x, i, x'); } else { ActKeeps(sh, x, i, x'); }
    }
  }

  /** Outside validation a thread-local step does not touch the order. */
  lemma LocalOrder(sh: Shared, x: Tx, x': Tx)
    requires LocalStep(sh, x, x') && !Tentative(x.pc)
    ensures SameInOrder(x, x')
  {
  }

  lemma ValidatingOrder(s: State, i: nat, x': Tx)
    requires StateInv(s) && i < |s.txs| && Tentative(s.txs[i].pc) && LocalStep(s.sh, s.txs[i], x')
    ensures OrderInv(s.(txs := s.txs[i := x']))
  {
    var x := s.txs[i];
    var n := if x.pc.Validating? then x'.pc.n else x.pc.n;
    assert TxInv(s.sh, x, i);
    var s' := s.(txs := s.txs[i := x']);
    hide WellFormed, Good, UndecidedInv, Chain, Apart, PcInv;
    forall p | 0 <= p < |s.order| && s.order[p] == i
      ensures forall k :: k in x'.d.snap && ReadOk(s, p, k) ==> ReadOk(s', p, k)
    {
      forall k | k in x'.d.snap && ReadOk(s, p, k) ensures ReadOk(s', p, k) {
        ValidatingReadOk(s, i, x', p, k);
      }
    }
    forall p, k | 0 <= p < |s.order| && s.order[p] != i && Tentative(TxAt(s, p).pc)
      ensures SeenFree(x', k) && !SeenFree(x, k) ==> k !in TxAt(s, p).d.ws
    {
      if SeenFree(x', k) && !SeenFree(x, k) && k in TxAt(s, p).d.ws { OthersLock(s, i, x', s.order[p], k); }
    }
    OrderValidation(s, i, x');
  }

  /** A node that is just being validated is not locked by another transaction in the order. */
  lemma OthersLock(s: State, i: nat, x': Tx, j: nat, k: Node)
    requires StateInv(s) && i < |s.txs| && Tentative(s.txs[i].pc) && LocalStep(s.sh, s.txs[i], x')
    requires j < |s.txs| && j != i && Tentative(s.txs[j].pc) && k in s.txs[j].d.ws
    ensures !(SeenFree(x', k) && !SeenFree(s.txs[i], k))
  {
    hide StateInv, SharedInv, OrderInv, NewsApart, Owned, UndecidedInv, LocalStep, PcBase, TxBase;
    StateParts(s);
    assert TxBase(s.sh, s.txs[j], j) && TxBase(s.sh, s.txs[i], i);
    HoldsAll(s.sh, s.txs[j], j);
    if SeenFree(x', k) && !SeenFree(s.txs[i], k) { SeenFreeStep(s.sh, s.txs[i], x', k); }
    HeldLocked(s.sh, s.txs[j], j, k);
    if k in s.txs[i].d.held { HeldLocked(s.sh, s.txs[i], i, k); }
  }

  lemma HoldsAll(sh: Shared, x: Tx, i: nat)
    requires TxBase(sh, x, i) && Tentative(x.pc)
    ensures x.d.held == x.d.ws.Keys
  {
    hide UndecidedInv;
  }

  /** Validation sees a node free if nobody else has locked it. */
  lemma SeenFreeStep(sh: Shared, x: Tx, x': Tx, k: Node)
    requires LocalStep(sh, x, x') && Tentative(x.pc) && SeenFree(x', k) && !SeenFree(x, k)
    ensures k in sh.mem && (k in x.d.held || sh.mem[k].lock.None?)
  {
    assert CommitLocalStep(sh, x, x') by { hide GetStep, RemoveStep, OverwriteStep, FinishStep, NextStep, PredStep; }
    hide LocalStep;
  }

  lemma ValidatingReadOk(s: State, i: nat, x': Tx, p: nat, k: Node)
    requires StateInv(s) && i < |s.txs| && Tentative(s.txs[i].pc) && LocalStep(s.sh, s.txs[i], x')
    requires p < |s.order| && s.order[p] == i && k in x'.d.snap && ReadOk(s, p, k)
    ensures ReadOk(s.(txs := s.txs[i := x']), p, k)
  {
    hide WellFormed, Good, Chain, Apart, PcInv, Place, NewsApart;
    assert TxInv(s.sh, s.txs[i], i);
    if s.txs[i].pc.Validating? && x'.pc.n == k {
      assert NodeInv(s.sh, k);
      assert k !in s.sh.dirty;
    }
  }

  lemma LocalKeeps(s: State, i: nat, x': Tx)
    requires StateInv(s) && i < |s.txs| && LocalStep(s.sh, s.txs[i], x')
    ensures Sound(s.(txs := s.txs[i := x']))
  {
    var x := s.txs[i];
    assert TxInv(s.sh, x, i);
    if Tentative(x.pc) {
      ValidatingOrder(s, i, x');
    } else {
      LocalOrder(s.sh, x, x');
      OrderFrame(s, i, x', s.sh) by { hide LocalStep, TxInv, BaseInv; }
    }
    hide BaseInv, SharedInv, TxInv, OrderInv;
    LocalTx(s.sh, x, i, x');
    hide LocalStep;
    TxsLocal(s, i, x');
  }

  lemma TxsLocal(s: State, i: nat, x': Tx)
    requires TxsInv(s) && i < |s.txs| && TxInv(s.sh, x', i)
    ensures TxsInv(s.(txs := s.txs[i := x']))
  {
    hide TxInv;
    var txs' := s.txs[i := x'];
    forall j: nat | j < |s.txs| ensures TxInv(s.sh, txs'[j], j) {
      if j != i { assert TxInv(s.sh, s.txs[j], j); }
    }
  }

  // ---------------------------------------------------------------- steps that change one node in memory

  lemma MemShape(sh: Shared, n: Node, m: MemNode, written: bool)
    requires n in sh.mem ==> sh.mem[n].version <= m.version
    ensures VersionsGrow(sh, WithMem(sh, n, m, written))
  {
  }

  lemma StoreKeeps(s: State, i: nat, x': Tx, n: Node, m: MemNode, written: bool)
    requires StateInv(s) && i < |s.txs| && n in s.sh.mem && s.sh.mem[n].version <= m.version
    requires n in s.txs[i].d.ws && (s.sh.mem[n].lock == None || s.sh.mem[n].lock == Some(i)) && s.txs[i].pc != Aborted
    requires SharedInv(WithMem(s.sh, n, m, written)) && TxInv(WithMem(s.sh, n, m, written), x', i)
    requires SameInOrder(s.txs[i], x')
    ensures Sound(s.(txs := s.txs[i := x'], sh := WithMem(s.sh, n, m, written)))
  {
    hide StateInv, SharedBase, SharedInv, TxInv, OrderInv, SameInOrder, WithMem, NewsApart;
    StateParts(s);
    var sh' := WithMem(s.sh, n, m, written);
    forall j: nat {:trigger s.txs[j]} | j < |s.txs| && j != i ensures Rely(s.sh, sh', PrivateNodes(s.txs[j]), s.txs[j].d.held) {
      StoreRely(s, i, n, m, written, j);
    }
    TxsStep(s, i, x', sh');
    MemShape(s.sh, n, m, written);
    OrderFrame(s, i, x', sh');
  }

  lemma BaseParts(s: State)
    requires BaseInv(s)
    ensures SharedBase(s.sh) && TxsBase(s) && NewsApart(s)
  {
  }

  lemma StateParts(s: State)
    requires StateInv(s)
    ensures SharedBase(s.sh) && TxsBase(s) && NewsApart(s) && SharedInv(s.sh) && TxsInv(s) && OrderInv(s) && BaseInv(s)
  {
    hide SharedInv, OrderInv, TxInv, NewsApart, Owned, Membership, SharedBase, TxBase;
  }

  lemma TxBaseAt(s: State, i: nat)
    requires BaseInv(s) && i < |s.txs|
    ensures TxBase(s.sh, s.txs[i], i)
  {
    hide TxBase, SharedBase;
  }

  lemma LockStepKeeps(s: State, i: nat, sh': Shared, x': Tx)
    requires StateInv(s) && i < |s.txs| && LockStep(s.sh, s.txs[i], i, sh', x')
    ensures Sound(s.(txs := s.txs[i := x'], sh := sh'))
  {
    hide StateInv, SharedInv, OrderInv, TxInv, RunningInv;
    StateParts(s);
    var x := s.txs[i];
    assert TxInv(s.sh, x, i);
    LockRunningAt(s.sh, x, i, sh', x');
    LockKeeps(s.sh, x, i, sh', x');
    StoreKeeps(s, i, x', x.pc.n, s.sh.mem[x.pc.n].(lock := Some(i)), false);
  }

  lemma LockRunningAt(sh: Shared, x: Tx, i: nat, sh': Shared, x': Tx)
    requires TxInv(sh, x, i) && LockStep(sh, x, i, sh', x')
    ensures RunningInv(sh, x, i) && SameInOrder(x, x')
  {
    hide RunningInv;
  }

  lemma UnlockStepKeeps(s: State, i: nat, sh': Shared, x': Tx)
    requires StateInv(s) && i < |s.txs| && UnlockStep(s.sh, s.txs[i], sh', x')
    ensures Sound(s.(txs := s.txs[i := x'], sh := sh'))
  {
    var x := s.txs[i];
    assert TxInv(s.sh, x, i);
    TxBaseAt(s, i);
    hide BaseInv, SharedInv, OrderInv, TxInv, TxBase;
    var n :| n in x.d.held && n in s.sh.mem &&
      sh' == s.sh.(mem := s.sh.mem[n := s.sh.mem[n].(lock := None)]) && x' == Tx(x.pc, x.d.(held := x.d.held - {n}));
    assert sh' == WithMem(s.sh, n, s.sh.mem[n].(lock := None), false);
    UnlockKeeps(s.sh, x, i, sh', x', n);
    HeldLocked(s.sh, x, i, n);
    StoreKeeps(s, i, x', n, s.sh.mem[n].(lock := None), false);
  }

  lemma WriteBackSound(s: State, i: nat, sh': Shared, x': Tx)
    requires StateInv(s) && i < |s.txs| && s.txs[i].pc.WritingBack? && WriteBackStep(s.sh, s.txs[i].d, s.txs[i].pc.wp, sh', x')
    ensures Sound(s.(txs := s.txs[i := x'], sh := sh'))
  {
    hide StateInv, SharedInv, SharedBase, OrderInv, DecidedInv, DecidedBase;
    StateParts(s);
    var x := s.txs[i];
    assert TxInv(s.sh, x, i) && TxBase(s.sh, x, i);
    assert DecidedInv(s.sh, x, i) && DecidedBase(s.sh, x, i);
    var n, m := WriteBackStore(s.sh, x, i, sh', x');
    WriteBackSharedBase(s.sh, x, i, n, m);
    WriteBackShared(s.sh, x, i, n, m);
    WriteBackKeeps(s.sh, x, i, n, m);
    HeldLocked(s.sh, x, i, n);
    assert TxInv(sh', x', i);
    hide TxInv, TxBase, WriteBackStep;
    StoreKeeps(s, i, x', n, m, x.pc.wp.Stamp?);
  }

  /** Writing back one word of one node keeps the invariant. */
  lemma WriteBackStepKeeps(s: State, i: nat, sh': Shared, x': Tx)
    requires StateInv(s) && i < |s.txs| && s.txs[i].pc.WritingBack? && WriteBackStep(s.sh, s.txs[i].d, s.txs[i].pc.wp, sh', x')
    ensures StateInv(s.(txs := s.txs[i := x'], sh := sh'))
  {
    hide BaseInv, Sound, WriteBackStep;
    WriteBackBaseKeeps(s, i, sh', x');
    WriteBackSound(s, i, sh', x');
  }

  // ---------------------------------------------------------------- allocation

  lemma InsertTx(sh: Shared, x: Tx, i: nat, n: Node)
    requires SharedInv(sh) && RunningInv(sh, x, i) && x.pc.GettingNext? && x.pc.np.Done? && x.d.kind == Put
    requires Found(x.d, x.pc.g, x.pc.np.nx) && !Match(x.d, x.pc.np.nx) && x.pc.c in sh.mem
    requires n.key == x.d.key && n !in sh.mem
    ensures SharedInv(Allocated(sh, n, x.pc.np.nx))
    ensures TxInv(Allocated(sh, n, x.pc.np.nx), Tx(Ready, InsertedLocal(sh, x.d, x.pc.c, x.pc.np.nx, n)), i)
  {
    PlaceReached(sh, x, i);
    hide SharedInv, UndecidedInv, Good, TxInv, Standing, LinkInv, InsertedLocal;
    InsertKeeps(sh, x.d, i, x.pc.c, x.pc.np.nx, n);
  }

  lemma InsertWith(s: State, i: nat, n: Node)
    requires StateInv(s) && i < |s.txs| && RunningInv(s.sh, s.txs[i], i)
    requires s.txs[i].pc.GettingNext? && s.txs[i].pc.np.Done? && s.txs[i].d.kind == Put && s.txs[i].pc.c in s.sh.mem
    requires Found(s.txs[i].d, s.txs[i].pc.g, s.txs[i].pc.np.nx) && !Match(s.txs[i].d, s.txs[i].pc.np.nx)
    requires n.key == s.txs[i].d.key && n !in s.sh.mem
    ensures Sound(s.(txs := s.txs[i := Tx(Ready, InsertedLocal(s.sh, s.txs[i].d, s.txs[i].pc.c, s.txs[i].pc.np.nx, n))],
                     sh := Allocated(s.sh, n, s.txs[i].pc.np.nx)))
  {
    hide StateInv, SharedBase, SharedInv, TxInv, OrderInv, RunningInv, InsertedLocal, NewsApart, Found, Match;
    StateParts(s);
    var x := s.txs[i];
    var nx := x.pc.np.nx;
    var x', sh' := Tx(Ready, InsertedLocal(s.sh, x.d, x.pc.c, nx, n)), Allocated(s.sh, n, nx);
    InsertTx(s.sh, x, i, n);
    assert sh' == WithMem(s.sh, n, MemNode(nx, true, None, false, 0), false);
    forall j: nat {:trigger s.txs[j]} | j < |s.txs| && j != i ensures Rely(s.sh, sh', PrivateNodes(s.txs[j]), s.txs[j].d.held) {
      InsertRely(s, j, n, nx);
    }
    TxsStep(s, i, x', sh');
    OrderFrame(s, i, x', sh');
  }

  lemma InsertStepKeeps(s: State, i: nat, sh': Shared, x': Tx)
    requires StateInv(s) && i < |s.txs| && InsertStep(s.sh, s.txs[i], sh', x')
    ensures Sound(s.(txs := s.txs[i := x'], sh := sh'))
  {
    hide BaseInv, SharedInv, OrderInv, RunningInv, InsertedLocal;
    var x := s.txs[i];
    assert TxInv(s.sh, x, i);
    hide StateInv, Sound;
    var n: Node :| n.key == x.d.key && n !in s.sh.mem && sh' == Allocated(s.sh, n, x.pc.np.nx)
      && x' == Tx(Ready, InsertedLocal(s.sh, x.d, x.pc.c, x.pc.np.nx, n));
    InsertWith(s, i, n);
  }

  // ---------------------------------------------------------------- all locks held

  lemma AcquiredTx(sh: Shared, x: Tx, i: nat)
    requires RunningInv(sh, x, i) && x.pc == Locking && x.d.todo == {}
    ensures TxInv(sh, Tx(Validating, x.d.(todo := x.d.rs)), i)
  {
    var d' := x.d.(todo := x.d.rs);
    TodoOnly(sh, x.d, i, d');
    if Clean(sh, x.d) {
      GoodBookkeeping(x.d, d');
    } else if !x.d.stale {
      var n :| n in x.d.snap && !(n in sh.stamp && sh.stamp[n] <= x.d.rv);
      assert n in d'.todo && n in d'.snap && n in sh.stamp && sh.stamp[n] > d'.rv;
    }
    hide Good;
  }

  lemma AcquiredApart(s: State, i: nat, p: nat)
    requires StateInv(s) && i < |s.txs| && s.txs[i].pc == Locking && s.txs[i].d.todo == {}
    requires p < |s.order| && Tentative(TxAt(s, p).pc)
    ensures Writes(TxAt(s, p).d).Keys !! Writes(s.txs[i].d).Keys
  {
    var j := s.order[p];
    var x, y := s.txs[i], s.txs[j];
    TxBaseAt(s, i);
    TxBaseAt(s, j);
    assert x.d.held == x.d.ws.Keys && y.d.held == y.d.ws.Keys;
    BaseParts(s);
    hide StateInv, TxBase, NewsApart;
    PrivateUncommitted(s.sh, x, i);
    PrivateUncommitted(s.sh, y, j);
    NewsDisjoint(s, i, j);
    forall n | n in Writes(y.d) ensures n !in Writes(x.d) {
      if n in y.d.ws {
        HeldLocked(s.sh, y, j, n);
        ForeignNode(s, j, i, n);
        if n in x.d.ws { HeldLocked(s.sh, x, i, n); }
      } else if n in x.d.ws {
        ForeignNode(s, i, j, n);
      }
    }
  }

  lemma AcquiredKeeps(s: State, i: nat, s': State)
    requires StateInv(s) && i < |s.txs| && AcquiredStep(s, i, s')
    ensures Sound(s')
  {
    var x := s.txs[i];
    var x' := Tx(Validating, x.d.(todo := x.d.rs));
    TxBaseAt(s, i);
    hide BaseInv;
    assert TxInv(s.sh, x, i);
    assert x.d.snap.Keys <= x'.d.todo && SnapInv(s.sh, x.d);
    hide SharedInv;
    AcquiredTx(s.sh, x, i);
    hide TxInv;
    forall p | 0 <= p < |s.order| && Tentative(TxAt(s, p).pc) ensures Writes(TxAt(s, p).d).Keys !! Writes(x'.d).Keys {
      AcquiredApart(s, i, p);
      assert Writes(x'.d) == Writes(x.d);
    }
    hide OrderInv;
    PrivateUncommitted(s.sh, x, i);
    hide TxBase;
    OrderEnter(s, i, x');
    TxsLocal(s, i, x');
  }

  // ---------------------------------------------------------------- validation fails

  lemma ValidationFailTx(sh: Shared, x: Tx, i: nat)
    requires TxInv(sh, x, i) && Tentative(x.pc)
    ensures TxInv(sh, Tx(Unlocking(false), x.d), i)
  {
    hide Good, UndecidedInv;
  }

  lemma FailsTentative(sh: Shared, x: Tx)
    requires ValidationFails(sh, x)
    ensures Tentative(x.pc)
  {
  }

  lemma ValidationFailSound(s: State, i: nat, s': State)
    requires StateInv(s) && i < |s.txs| && ValidationFailStep(s, i, s')
    ensures Sound(s')
  {
    hide BaseInv, SharedInv, TxInv, ValidationFails;
    var x := s.txs[i];
    var x' := Tx(Unlocking(false), x.d);
    FailsTentative(s.sh, x);
    assert TxInv(s.sh, x, i);
    ValidationFailTx(s.sh, x, i);
    var p: nat :| p < |s.order| < |s.heaps| && s.order[p] == i
         && s' == State(s.sh, s.txs[i := x'], Without(s.order, p), Without(s.heaps, p));
    OrderLeave(s, p, x');
    hide OrderInv;
    TxsLocal(s, i, x');
  }

  /** A failed transaction leaves the order as if it had never been there. */
  lemma ValidationFailKeeps(s: State, i: nat, s': State)
    requires StateInv(s) && i < |s.txs| && ValidationFailStep(s, i, s')
    ensures StateInv(s')
  {
    hide BaseInv, Sound, ValidationFailStep;
    ValidationFailBase(s, i, s');
    ValidationFailSound(s, i, s');
  }

  // ---------------------------------------------------------------- the commit point

  /** What a transaction needs to pass its commit point. */
  ghost predicate Validated(sh: Shared, x: Tx, i: nat)
  {
    && UndecidedInv(sh, x.d, i) && Good(x.d)
    && x.d.held == x.d.ws.Keys
    && forall n :: n in x.d.snap && n in x.d.ws ==> n in sh.stamp && sh.stamp[n] <= x.d.rv
  }

  lemma ValidatedFrom(sh: Shared, x: Tx, i: nat)
    requires TentativeInv(sh, x, i) && x.pc.Validating? && x.d.todo == {} && !x.d.stale
    ensures Validated(sh, x, i)
  {
    hide UndecidedInv, Good;
    forall n | n in x.d.snap && n in x.d.ws ensures n in sh.stamp && sh.stamp[n] <= x.d.rv { assert Checked(x, n); }
  }

  /** A written node is live in memory at the commit point, and unlocked by everybody else. */
  lemma WrittenLive(sh: Shared, x: Tx, i: nat, n: Node)
    requires SharedInv(sh) && Validated(sh, x, i) && n in x.d.ws
    ensures n in sh.mem && sh.mem[n].lock == Some(i) && !sh.mem[n].deleted && sh.mem[n].has && sh.mem[n].version <= sh.gvc
    ensures sh.mem[n].next.Some? ==> Visible(sh, x.d, sh.mem[n].next.value)
  {
    hide WellFormed;
    if n in x.d.snap { assert NodeInv(sh, n); }
  }

  lemma CommitWritten(sh: Shared, x: Tx, i: nat, sh': Shared, x': Tx, n: Node)
    requires SharedInv(sh) && Validated(sh, x, i) && CommitStep(sh, x, sh', x') && n in x.d.ws
    ensures NodeInv(sh', n)
  {
    WrittenLive(sh, x, i, n);
    hide SharedInv, Good, SnapInv, NewsInv, HeldInv;
    assert n in Writes(x.d);
  }

  lemma CommitNew(sh: Shared, x: Tx, i: nat, sh': Shared, x': Tx, n: Node)
    requires SharedInv(sh) && Validated(sh, x, i) && CommitStep(sh, x, sh', x') && n in x.d.news && n !in x.d.ws
    ensures NodeInv(sh', n)
  {
    hide WellFormed, Good, SnapInv, HeldInv;
    assert n in Writes(x.d);
  }

  lemma CommitOther(sh: Shared, x: Tx, i: nat, sh': Shared, x': Tx, n: Node)
    requires SharedInv(sh) && CommitStep(sh, x, sh', x') && n in sh.committed && n !in x.d.news && n !in x.d.ws
    ensures NodeInv(sh', n)
  {
    assert NodeInv(sh, n);
    hide SharedInv;
  }

  lemma CommitNode(sh: Shared, x: Tx, i: nat, sh': Shared, x': Tx, n: Node)
    requires SharedInv(sh) && Validated(sh, x, i) && CommitStep(sh, x, sh', x') && n in sh'.committed
    ensures NodeInv(sh', n)
  {
    hide SharedInv, Validated, NodeInv;
    if n in x.d.ws { CommitWritten(sh, x, i, sh', x', n); }
    else if n in x.d.news { CommitNew(sh, x, i, sh', x', n); }
    else { CommitOther(sh, x, i, sh', x', n); }
  }

  lemma CommitShared(sh: Shared, x: Tx, i: nat, sh': Shared, x': Tx)
    requires SharedInv(sh) && Validated(sh, x, i) && CommitStep(sh, x, sh', x') && WellFormed(sh'.committed)
    ensures SharedInv(sh')
  {
    assert SharedBase(sh);
    hide WellFormed, UndecidedInv, Good, SharedBase, SharedInv, NodeInv, CommitStep;
    CommitSharedBase(sh, x, i, sh', x');
    forall n | n in sh'.committed ensures NodeInv(sh', n) { CommitNode(sh, x, i, sh', x', n); }
    SharedFrom(sh');
  }

  lemma SharedFrom(sh: Shared)
    requires SharedBase(sh) && WellFormed(sh.committed) && forall n {:trigger NodeInv(sh, n)} :: n in sh.committed ==> NodeInv(sh, n)
    ensures SharedInv(sh)
  {
    hide SharedBase, WellFormed, NodeInv;
  }

  lemma CommitGood(sh: Shared, x: Tx, i: nat, sh': Shared, x': Tx)
    requires Validated(sh, x, i) && CommitStep(sh, x, sh', x')
    ensures Good(x'.d)
  {
    hide Good, UndecidedInv;
    GoodBookkeeping(x.d, x'.d);
  }

  lemma CommitBits(sh: Shared, x: Tx, i: nat, sh': Shared, x': Tx)
    requires SharedInv(sh) && Validated(sh, x, i) && CommitStep(sh, x, sh', x') && !x.d.readOnly
    ensures BitsInv(sh', x'.d, PickNode)
  {
    hide SharedInv, Validated;
    forall n | n in x'.d.todo ensures n in sh'.mem && !sh'.mem[n].deleted { WrittenLive(sh, x, i, n); }
  }

  lemma CommitTx(sh: Shared, x: Tx, i: nat, sh': Shared, x': Tx)
    requires SharedInv(sh) && Validated(sh, x, i) && CommitStep(sh, x, sh', x')
    ensures TxInv(sh', x', i)
  {
    CommitPcs(sh, x, sh', x');
    CommitTxBase(sh, x, i, sh', x');
    if !x.d.readOnly { CommitBits(sh, x, i, sh', x'); }
    CommitGood(sh, x, i, sh', x');
    hide SharedInv, Good, Validated, DecidedBase, BitsInv;
  }

  lemma InOrderTx(s: State, p: nat)
    requires TxsInv(s) && Shape(s) && Membership(s) && p < |s.order|
    ensures TxInv(s.sh, TxAt(s, p), s.order[p]) && InOrder(TxAt(s, p).pc)
  {
    hide TxInv;
    assert s.order[p] in s.order;
  }

  lemma OrderedFacts(s: State, p: nat)
    requires BaseInv(s) && TxsInv(s) && p < |s.order|
    ensures TxAt(s, p).d.snap.Keys <= s.sh.committed.Keys
    ensures Decided(TxAt(s, p).pc) ==> Good(TxAt(s, p).d)
    ensures Tentative(TxAt(s, p).pc) ==> TxAt(s, p).d.rv <= s.sh.gvc
  {
    InOrderTx(s, p);
    TxBaseAt(s, s.order[p]);
    hide TxsInv, BaseInv, Good, TxBase;
    WrittenWhere(s.sh, TxAt(s, p), s.order[p]);
  }

  lemma CommitMay(s: State, p: nat)
    requires StateInv(s) && p < |s.order| && TxAt(s, p).pc.Validating? && TxAt(s, p).d.todo == {} && !TxAt(s, p).d.stale
    ensures MayCommit(s, p) && Validated(s.sh, TxAt(s, p), s.order[p])
  {
    var i := s.order[p];
    assert TxInv(s.sh, s.txs[i], i);
    assert TentativeInv(s.sh, s.txs[i], i);
    TxBaseAt(s, i);
    hide TentativeInv, BaseInv, SharedInv, UndecidedInv, Good, Place, Apart, Chain;
    ValidatedFrom(s.sh, s.txs[i], i);
    forall q | 0 <= q < |s.order|
      ensures TxAt(s, q).d.snap.Keys <= s.sh.committed.Keys && (Decided(TxAt(s, q).pc) ==> Good(TxAt(s, q).d))
    {
      OrderedFacts(s, q);
    }
    PrivateUncommitted(s.sh, s.txs[i], i);
  }

  /** A writer's stamp is above every read version taken so far. */
  lemma CommitStamps(s: State, p: nat, sh': Shared, x': Tx)
    requires StateInv(s) && p < |s.order| && CommitStep(s.sh, TxAt(s, p), sh', x')
    ensures forall n :: n in s.sh.stamp ==> n in sh'.stamp && s.sh.stamp[n] <= sh'.stamp[n]
    ensures forall n, q :: n in x'.d.ws && 0 <= q < |s.order| && Tentative(TxAt(s, q).pc) ==>
              n in sh'.stamp && sh'.stamp[n] > TxAt(s, q).d.rv
  {
    hide StateInv, BaseInv, OrderInv, TxsInv, SharedInv, Good, TxBase, UndecidedInv;
    StateParts(s);
    OrderedShape(s);
    var x := TxAt(s, p);
    forall q | 0 <= q < |s.order| ensures Tentative(TxAt(s, q).pc) ==> TxAt(s, q).d.rv <= s.sh.gvc { OrderedFacts(s, q); }
    TxBaseAt(s, s.order[p]);
    ValidatingUndecided(s.sh, x, s.order[p]);
    NewsFresh(s.sh, x, s.order[p]);
    forall n | n in s.sh.stamp ensures n in sh'.stamp && s.sh.stamp[n] <= sh'.stamp[n] { assert NodeBase(s.sh, n); }
  }

  lemma OrderedShape(s: State)
    requires OrderInv(s)
    ensures Shape(s)
  {
  }

  lemma ValidatingUndecided(sh: Shared, x: Tx, i: nat)
    requires TxBase(sh, x, i) && x.pc == Validating
    ensures UndecidedInv(sh, x.d, i)
  {
    hide UndecidedInv;
  }

  lemma CommitOrder(s: State, p: nat, sh': Shared, x': Tx)
    requires StateInv(s) && p < |s.order| && CommitStep(s.sh, TxAt(s, p), sh', x') && !TxAt(s, p).d.stale
    ensures Validated(s.sh, TxAt(s, p), s.order[p])
    ensures OrderInv(Committing(s, p, x', sh')) && WellFormed(sh'.committed)
  {
    assert s.order[p] < |s.txs|;
    CommitShape(s.sh, TxAt(s, p), sh', x');
    hide StateInv, MayCommit, Validated, OrderInv, WellFormed, CommitStep, Writes;
    CommitMay(s, p);
    CommitStamps(s, p, sh', x');
    OrderCommit(s, p, x', sh');
    CommittedWellFormed(Committing(s, p, x', sh'));
  }

  lemma CommitShape(sh: Shared, x: Tx, sh': Shared, x': Tx)
    requires CommitStep(sh, x, sh', x')
    ensures x.pc == Validating && x.d.todo == {} && Decided(x'.pc) && Writes(x'.d) == Writes(x.d)
    ensures x'.d == x.d.(wv := x'.d.wv, todo := x'.d.todo)
    ensures sh'.committed == sh.committed + Writes(x'.d) && sh'.mem == sh.mem
  {
  }

  lemma CommittedWellFormed(s: State)
    requires OrderInv(s)
    ensures WellFormed(s.sh.committed)
  {
    hide WellFormed;
    assert WellFormed(s.heaps[|s.order|]);
  }

  lemma CommitTxs(s: State, i: nat, sh': Shared, x': Tx)
    requires BaseInv(s) && SharedInv(s.sh) && TxsInv(s) && i < |s.txs|
    requires Validated(s.sh, s.txs[i], i) && CommitStep(s.sh, s.txs[i], sh', x') && WellFormed(sh'.committed)
    ensures SharedInv(sh')
    ensures forall j: nat {:trigger TxInv(sh', s.txs[i := x'][j], j)} :: j < |s.txs| ==> TxInv(sh', s.txs[i := x'][j], j)
  {
    BaseParts(s);
    hide BaseInv, SharedInv, SharedBase, TxInv, CommitStep, NewsApart, WellFormed, UndecidedInv, Good, TxsBase;
    CommitShared(s.sh, s.txs[i], i, sh', x');
    CommitTx(s.sh, s.txs[i], i, sh', x');
    forall j: nat {:trigger s.txs[j]} | j < |s.txs| && j != i ensures Rely(s.sh, sh', PrivateNodes(s.txs[j]), s.txs[j].d.held) {
      CommitRely(s, i, sh', x', j);
    }
    TxsStep(s, i, x', sh');
  }

  lemma CommitSound(s: State, i: nat, s': State)
    requires StateInv(s) && i < |s.txs| == |s'.txs| && CommitPointStep(s, i, s') && !s.txs[i].d.stale
    ensures Sound(s')
  {
    var x' := s'.txs[i];
    var p: nat :| p < |s.order| && s.order[p] == i
      && s' == State(s'.sh, s.txs[i := x'], s.order, WithWrites(s.heaps, p, Writes(s.txs[i].d)));
    CommitOrder(s, p, s'.sh, x');
    assert s' == Committing(s, p, x', s'.sh);
    hide BaseInv, SharedInv, TxInv, Validated, OrderInv, CommitStep, WellFormed;
    CommitTxs(s, i, s'.sh, x');
  }

  /** Passing the commit point keeps the invariant, if no stale link is committed. */
  lemma CommitKeeps(s: State, i: nat, s': State)
    requires StateInv(s) && i < |s.txs| == |s'.txs| && CommitPointStep(s, i, s') && !s.txs[i].d.stale
    ensures StateInv(s')
  {
    hide BaseInv, Sound, CommitPointStep;
    CommitBase(s, i, s');
    CommitSound(s, i, s');
  }

  // ---------------------------------------------------------------- every step, every run

  lemma InitKeeps(s: State)
    requires Init(s)
    ensures StateInv(s)
  {
    InitBase(s);
    hide BaseInv;
    forall n | n in s.sh.committed ensures NodeInv(s.sh, n) {}
    forall n | n in s.sh.committed ensures NodeBase(s.sh, n) {}
    hide WellFormed, NodeInv, NodeBase;
  }

  lemma MemoryKeeps(s: State, i: nat, sh': Shared, x': Tx)
    requires StateInv(s) && i < |s.txs| && MemoryStep(s.sh, s.txs[i], i, sh', x')
    ensures Sound(s.(txs := s.txs[i := x'], sh := sh'))
  {
    hide StateInv, Sound, InsertStep, LockStep, UnlockStep, WriteBackStep;
    if InsertStep(s.sh, s.txs[i], sh', x') { InsertStepKeeps(s, i, sh', x'); }
    else if LockStep(s.sh, s.txs[i], i, sh', x') { LockStepKeeps(s, i, sh', x'); }
    else if UnlockStep(s.sh, s.txs[i], sh', x') { UnlockStepKeeps(s, i, sh', x'); }
    else { WriteBackSound(s, i, sh', x'); }
  }

  lemma CommitFaithful(s: State, i: nat, s': State)
    requires i < |s.txs| == |s'.txs| && CommitPointStep(s, i, s') && Faithful(s')
    ensures !s.txs[i].d.stale
  {
    hide Writes, WithWrites;
    CommitPcs(s.sh, s.txs[i], s'.sh, s'.txs[i]);
  }

  /** Every step of every transaction keeps the invariant, until one commits with a stale link. */
  lemma StepKeeps(s: State, i: nat, s': State)
    requires StateInv(s) && i < |s.txs| == |s'.txs| && TxStep(s, i, s') && Faithful(s')
    ensures StateInv(s')
  {
    StepBase(s, i, s');
    hide StateInv, BaseInv, Sound, LocalStep, MemoryStep, AcquiredStep, ValidationFailStep, CommitPointStep, Faithful;
    var x' := s'.txs[i];
    if LocalStep(s.sh, s.txs[i], x') && s' == s.(txs := s.txs[i := x']) { LocalKeeps(s, i, x'); }
    else if MemoryStep(s.sh, s.txs[i], i, s'.sh, x') && s' == s.(txs := s.txs[i := x'], sh := s'.sh) {
      MemoryKeeps(s, i, s'.sh, x');
    }
    else if AcquiredStep(s, i, s') { AcquiredKeeps(s, i, s'); }
    else if ValidationFailStep(s, i, s') { ValidationFailSound(s, i, s'); }
    else { CommitFaithful(s, i, s'); CommitSound(s, i, s'); }
    BothParts(s');
  }

  lemma BothParts(s: State)
    requires BaseInv(s) && Sound(s)
    ensures StateInv(s)
  {
  }
}
