/** Why transactions abort, in every run: each abort has a cause in memory, so a transaction that runs with nobody
    else under way never aborts. And what the version clock counts. */
module TxAborts {
  import opened Basics
  import opened ListHeap
  import opened Transactions
  import opened TxInvariant
  import opened TxEveryRun
  import opened ReadInvariance
  import opened BlindOverwrite
  import opened ListSize

  // ---------------------------------------------------------------- aborting inside an operation

  /** The node that the next read of the operation examines. */
  function Examined(pc: Pc): Option<Node>
  {
    match pc
    case GettingPred(pp) => if pp.Pick? then None else Some(pp.p)
    case GettingNext(_, c, np) => if np.SuccLock? || np.SuccVersion? then Some(np.q) else Some(c)
    case _ => None
  }

  /** It is locked, or newer than the read version. */
  predicate Conflicts(sh: Shared, d: Local, n: Node)
  {
    n in sh.mem && (sh.mem[n].lock.Some? || d.rv < sh.mem[n].version)
  }

  lemma ReadAborts(sh: Shared, x: Tx, x': Tx)
    requires ReadStep(sh, x, x') && x'.pc == Aborted
    ensures Examined(x.pc).Some? && Conflicts(sh, x.d, Examined(x.pc).value)
  {
  }

  lemma ActNoAbort(sh: Shared, x: Tx, x': Tx)
    requires ActStep(sh, x, x')
    ensures x'.pc != Aborted && !x'.pc.Unlocking?
  {
    hide Found, Match, StaleCopy, AddRead;
  }

  /** A transaction aborts inside an operation only when the node it examines is locked or too new. */
  lemma AbortStep(s: State, i: nat, s': State)
    requires i < |s.txs| == |s'.txs| && TxStep(s, i, s') && InOperation(s.txs[i].pc) && s'.txs[i].pc == Aborted
    ensures Examined(s.txs[i].pc).Some? && Conflicts(s.sh, s.txs[i].d, Examined(s.txs[i].pc).value)
  {
    hide ReadStep, ActStep, InsertedLocal, Without, WithWrites;
    if ReadStep(s.sh, s.txs[i], s'.txs[i]) { ReadAborts(s.sh, s.txs[i], s'.txs[i]); }
    else if ActStep(s.sh, s.txs[i], s'.txs[i]) { ActNoAbort(s.sh, s.txs[i], s'.txs[i]); }
  }

  lemma AbortHasCause(tr: seq<State>, k: nat, i: nat)
    requires Run(tr) && k + 1 < |tr| && i < |tr[k].txs| == |tr[k + 1].txs|
    requires InOperation(tr[k].txs[i].pc) && tr[k + 1].txs[i].pc == Aborted
    ensures Examined(tr[k].txs[i].pc).Some? && Conflicts(tr[k].sh, tr[k].txs[i].d, Examined(tr[k].txs[i].pc).value)
  {
    assert Next(tr[k], tr[k + 1]);
    hide TxStep, Run, Conflicts, InOperation;
    var a: nat :| a < |tr[k].txs| == |tr[k + 1].txs| && TxStep(tr[k], a, tr[k + 1]);
    OthersSame(tr[k], a, tr[k + 1]);
    AbortStep(tr[k], i, tr[k + 1]);
  }

  // ---------------------------------------------------------------- aborting in TXend

  /** Somebody else holds the lock of `n`. */
  predicate LockedByOther(sh: Shared, i: nat, n: Node) { n in sh.mem && sh.mem[n].lock.Some? && sh.mem[n].lock != Some(i) }

  /** Why TXend gives up: a node to be written is locked by another transaction, or its lock word is not the one
      that was read; a node that was read is locked by another transaction, or too new. */
  predicate EndCause(sh: Shared, x: Tx, i: nat, n: Node)
  {
    n in sh.mem &&
    match x.pc
    case Locking => n in x.d.ws && LockedByOther(sh, i, n)
    case LockCas(m, version, deleted) => n == m && n in x.d.ws && !CasSucceeds(sh, n, version, deleted)
    case Validating => n in x.d.rs && LockedByOther(sh, i, n)
    case ValVersion(m) => n == m && n in x.d.rs && x.d.rv < sh.mem[n].version
    case _ => false
  }

  lemma GivesUp(s: State, i: nat, s': State) returns (n: Node)
    requires BaseInv(s) && i < |s.txs| == |s'.txs| && TxStep(s, i, s') && !s.txs[i].pc.Unlocking? && s'.txs[i].pc == Unlocking(false)
    ensures EndCause(s.sh, s.txs[i], i, n)
  {
    var sh, x := s.sh, s.txs[i];
    assert TxBase(sh, x, i);
    if LocalStep(sh, x, s'.txs[i]) && s' == s.(txs := s.txs[i := s'.txs[i]]) {
      if ActStep(sh, x, s'.txs[i]) { ActNoAbort(sh, x, s'.txs[i]); }
      hide ActStep, ReadStep;
      assert CommitLocalStep(sh, x, s'.txs[i]);
      n := LocalGivesUp(s, i, s'.txs[i]);
    } else {
      assert ValidationFailStep(s, i, s') by { NotOtherwise(s, i, s'); }
      n := ValidationGivesUp(s, i);
    }
  }

  lemma NotOtherwise(s: State, i: nat, s': State)
    requires i < |s.txs| == |s'.txs| && TxStep(s, i, s') && !s.txs[i].pc.Unlocking? && s'.txs[i].pc == Unlocking(false)
    requires !(LocalStep(s.sh, s.txs[i], s'.txs[i]) && s' == s.(txs := s.txs[i := s'.txs[i]]))
    ensures ValidationFailStep(s, i, s')
  {
    hide LocalStep, ValidationFailStep, InsertedLocal, WithWrites;
  }

  lemma LocalGivesUp(s: State, i: nat, x': Tx) returns (n: Node)
    requires BaseInv(s) && i < |s.txs| && CommitLocalStep(s.sh, s.txs[i], x') && !s.txs[i].pc.Unlocking? && x'.pc == Unlocking(false)
    ensures EndCause(s.sh, s.txs[i], i, n)
  {
    var sh, x := s.sh, s.txs[i];
    assert TxBase(sh, x, i) && x.d.held + x.d.todo == x.d.ws.Keys;
    if x.pc.LockCas? {
      n := x.pc.n;
    } else {
      assert x.pc == Locking;
      n :| n in x.d.todo && n in sh.mem && sh.mem[n].lock.Some?;
      assert n !in x.d.held;
    }
    hide UndecidedInv, SharedBase, NewsApart;
  }

  lemma ValidationGivesUp(s: State, i: nat) returns (n: Node)
    requires BaseInv(s) && i < |s.txs| && ValidationFails(s.sh, s.txs[i])
    ensures EndCause(s.sh, s.txs[i], i, n)
  {
    var sh, x := s.sh, s.txs[i];
    assert TxBase(sh, x, i) && TentativeBase(sh, x, i);
    if x.pc.Validating? {
      n :| n in x.d.todo && n !in x.d.held && n in sh.mem && sh.mem[n].lock.Some?;
    } else {
      n := x.pc.n;
    }
    hide UndecidedInv, SharedBase, NewsApart;
  }

  /** TXend gives up only for such a cause. */
  lemma EndHasCause(tr: seq<State>, k: nat, i: nat) returns (n: Node)
    requires Run(tr) && k + 1 < |tr| && i < |tr[k].txs| == |tr[k + 1].txs|
    requires !tr[k].txs[i].pc.Unlocking? && tr[k + 1].txs[i].pc == Unlocking(false)
    ensures EndCause(tr[k].sh, tr[k].txs[i], i, n)
  {
    EveryRun(tr, k);
    assert Next(tr[k], tr[k + 1]);
    hide TxStep, Run, EndCause, BaseInv;
    var a: nat :| a < |tr[k].txs| == |tr[k + 1].txs| && TxStep(tr[k], a, tr[k + 1]);
    OthersSame(tr[k], a, tr[k + 1]);
    n := GivesUp(tr[k], i, tr[k + 1]);
  }

  /** In state `j` the transaction reads the lock word of `n`, unlocked, and up to state `k` it goes on to swap it. */
  predicate WordRead(tr: seq<State>, j: nat, k: nat, i: nat, n: Node, version: nat, deleted: bool)
  {
    && j < k < |tr| && i < |tr[j].txs| && tr[j].txs[i].pc == Locking && CasSucceeds(tr[j].sh, n, version, deleted)
    && forall m {:trigger tr[m]} :: j < m <= k ==> i < |tr[m].txs| && tr[m].txs[i].pc == LockCas(n, version, deleted)
  }

  lemma ToCas(s: State, i: nat, s': State)
    requires i < |s.txs| == |s'.txs| && TxStep(s, i, s') && s'.txs[i].pc.LockCas?
    ensures s.txs[i].pc == Locking && CasSucceeds(s.sh, s'.txs[i].pc.n, s'.txs[i].pc.version, s'.txs[i].pc.deleted)
  {
    var x, x' := s.txs[i], s'.txs[i];
    if ActStep(s.sh, x, x') { ActNoCas(s.sh, x, x'); }
    hide ActStep, ReadStep, InsertedLocal, Without, WithWrites;
    if ReadStep(s.sh, x, x') { ReadNoCas(s.sh, x, x'); }
  }

  lemma ActNoCas(sh: Shared, x: Tx, x': Tx)
    requires ActStep(sh, x, x')
    ensures !x'.pc.LockCas?
  {
    hide Found, Match, StaleCopy, AddRead;
  }

  lemma ReadNoCas(sh: Shared, x: Tx, x': Tx)
    requires ReadStep(sh, x, x')
    ensures !x'.pc.LockCas?
  {
  }

  /** The lock word of EndCause is one that the transaction has read in this attempt. */
  lemma {:induction false} WordWasRead(tr: seq<State>, k: nat, i: nat) returns (j: nat)
    requires Run(tr) && k < |tr| && i < |tr[k].txs| && tr[k].txs[i].pc.LockCas?
    ensures WordRead(tr, j, k, i, tr[k].txs[i].pc.n, tr[k].txs[i].pc.version, tr[k].txs[i].pc.deleted)
  {
    hide TxStep, CasSucceeds;
    if k == 0 {
      assert false;
    } else {
      assert Next(tr[k - 1], tr[k]);
      var a: nat :| a < |tr[k - 1].txs| == |tr[k].txs| && TxStep(tr[k - 1], a, tr[k]);
      OthersSame(tr[k - 1], a, tr[k]);
      if a == i { ToCas(tr[k - 1], i, tr[k]); j := k - 1; } else { j := WordWasRead(tr, k - 1, i); }
    }
  }

  // ---------------------------------------------------------------- a transaction with nobody else under way

  predicate Undecided(pc: Pc) { !pc.NotStarted? && !Decided(pc) && !Lost(pc) }

  predicate Lost(pc: Pc) { pc == Aborted || pc == Unlocking(false) }

  /** What holds while only transaction `i` is under way. */
  predicate Alone(s: State, i: nat)
    requires i < |s.txs|
  {
    && (forall u :: 0 <= u < |s.txs| && u != i ==> Over(s.txs[u].pc))
    && (Undecided(s.txs[i].pc) ==> s.txs[i].d.rv == s.sh.gvc)
    && !Lost(s.txs[i].pc)
    && (s.txs[i].pc.LockCas? ==> CasSucceeds(s.sh, s.txs[i].pc.n, s.txs[i].pc.version, s.txs[i].pc.deleted))
  }

  /** No visible node is locked by another or too new. */
  lemma NothingInTheWay(s: State, i: nat, n: Node)
    requires BaseInv(s) && i < |s.txs| && Alone(s, i) && Undecided(s.txs[i].pc) && Visible(s.sh, s.txs[i].d, n) && n in s.sh.mem
    requires UndecidedInv(s.sh, s.txs[i].d, i)
    ensures s.sh.mem[n].version <= s.txs[i].d.rv && !LockedByOther(s.sh, i, n)
    ensures s.sh.mem[n].lock.Some? ==> n in s.txs[i].d.held
  {
    if s.sh.mem[n].lock.Some? {
      var u := s.sh.mem[n].lock.value;
      assert u < |s.txs| && n in s.txs[u].d.held;
      assert TxBase(s.sh, s.txs[u], u);
      if u != i { OverHoldsNothing(s.sh, s.txs[u], u); }
    }
    if n in s.sh.committed { assert NodeBase(s.sh, n); } else { assert NewsInv(s.sh, s.txs[i].d) && n in s.txs[i].d.news; }
    hide BaseInv, UndecidedInv;
  }

  lemma ExaminedVisible(sh: Shared, x: Tx, i: nat, n: Node)
    requires TxBase(sh, x, i) && InOperation(x.pc) && Examined(x.pc) == Some(n)
    ensures Visible(sh, x.d, n) && UndecidedInv(sh, x.d, i) && x.d.held == {}
  {
    hide UndecidedInv;
  }

  lemma AloneNoAbort(s: State, i: nat, s': State)
    requires BaseInv(s) && i < |s.txs| == |s'.txs| && TxStep(s, i, s') && Alone(s, i) && InOperation(s.txs[i].pc)
    ensures s'.txs[i].pc != Aborted
  {
    if s'.txs[i].pc == Aborted {
      AbortStep(s, i, s');
      assert TxBase(s.sh, s.txs[i], i);
      hide TxStep, BaseInv, TxBase, UndecidedInv, Examined;
      var n := Examined(s.txs[i].pc).value;
      ExaminedVisible(s.sh, s.txs[i], i, n);
      NothingInTheWay(s, i, n);
    }
  }

  lemma EndVisible(sh: Shared, x: Tx, i: nat, n: Node)
    requires TxBase(sh, x, i) && (x.pc.Locking? || x.pc.LockCas? || Tentative(x.pc)) && (n in x.d.ws || n in x.d.rs)
    ensures UndecidedInv(sh, x.d, i) && Visible(sh, x.d, n)
  {
  }

  lemma AloneNoGivingUp(s: State, i: nat, s': State)
    requires BaseInv(s) && i < |s.txs| == |s'.txs| && TxStep(s, i, s') && Alone(s, i)
    ensures s'.txs[i].pc != Unlocking(false) || s.txs[i].pc.Unlocking?
  {
    if s'.txs[i].pc == Unlocking(false) && !s.txs[i].pc.Unlocking? {
      var n := GivesUp(s, i, s');
      assert TxBase(s.sh, s.txs[i], i);
      hide TxStep, BaseInv, TxBase, UndecidedInv;
      EndVisible(s.sh, s.txs[i], i, n);
      NothingInTheWay(s, i, n);
    }
  }

  /** Outside operations a transaction aborts only from TXend's failure path. */
  lemma AbortFrom(s: State, i: nat, s': State)
    requires i < |s.txs| == |s'.txs| && TxStep(s, i, s') && s'.txs[i].pc == Aborted
    ensures InOperation(s.txs[i].pc) || Lost(s.txs[i].pc)
  {
    hide ActStep, ReadStep, InsertedLocal, Without, WithWrites;
    if ReadStep(s.sh, s.txs[i], s'.txs[i]) || ActStep(s.sh, s.txs[i], s'.txs[i]) { ReadOrAct(s.sh, s.txs[i], s'.txs[i]); }
  }

  lemma ReadOrAct(sh: Shared, x: Tx, x': Tx)
    requires ReadStep(sh, x, x') || ActStep(sh, x, x')
    ensures InOperation(x.pc)
  {
  }

  lemma UnlockingStays(s: State, i: nat, s': State)
    requires i < |s.txs| == |s'.txs| && TxStep(s, i, s') && s.txs[i].pc == Unlocking(true)
    ensures s'.txs[i].pc == Unlocking(true) || s'.txs[i].pc == Committed
  {
    hide ActStep, ReadStep, InsertedLocal, Without, WithWrites;
    if ReadStep(s.sh, s.txs[i], s'.txs[i]) || ActStep(s.sh, s.txs[i], s'.txs[i]) { ReadOrAct(s.sh, s.txs[i], s'.txs[i]); }
  }

  /** Only the commit point moves the clock. */
  lemma ClockStep(s: State, i: nat, s': State)
    requires i < |s.txs| == |s'.txs| && TxStep(s, i, s')
    ensures s'.sh.gvc == s.sh.gvc || Decided(s'.txs[i].pc)
  {
    hide LocalStep, InsertedLocal, Without, WithWrites;
  }

  lemma UndecidedBefore(s: State, i: nat, s': State)
    requires i < |s.txs| == |s'.txs| && TxStep(s, i, s') && Undecided(s'.txs[i].pc) && !Lost(s.txs[i].pc)
    ensures s.txs[i].pc.NotStarted? || Undecided(s.txs[i].pc)
  {
    hide ActStep, ReadStep, InsertedLocal, Without, WithWrites;
    if ReadStep(s.sh, s.txs[i], s'.txs[i]) || ActStep(s.sh, s.txs[i], s'.txs[i]) { ReadOrAct(s.sh, s.txs[i], s'.txs[i]); }
  }

  lemma CasStill(s: State, i: nat, s': State)
    requires i < |s.txs| == |s'.txs| && TxStep(s, i, s') && s'.txs[i].pc.LockCas?
    ensures CasSucceeds(s'.sh, s'.txs[i].pc.n, s'.txs[i].pc.version, s'.txs[i].pc.deleted)
  {
    ToCas(s, i, s');
    hide LocalStep, InsertedLocal, Without, WithWrites, CasSucceeds;
    assert s'.sh == s.sh;
  }

  lemma AloneStep(s: State, i: nat, s': State)
    requires BaseInv(s) && i < |s.txs| == |s'.txs| && TxStep(s, i, s') && Alone(s, i)
    ensures Alone(s', i)
  {
    hide TxStep, BaseInv, InOperation, Decided, CasSucceeds;
    var x, x' := s.txs[i], s'.txs[i];
    OthersSame(s, i, s');
    AloneNoGivingUp(s, i, s');
    if x.pc == Unlocking(true) { UnlockingStays(s, i, s'); }
    if x'.pc == Aborted {
      AbortFrom(s, i, s');
      AloneNoAbort(s, i, s');
    }
    if x'.pc.LockCas? { CasStill(s, i, s'); }
    if Undecided(x'.pc) {
      UndecidedBefore(s, i, s');
      ClockStep(s, i, s');
      if x.pc.NotStarted? { StartsAtClock(s, i, s'); } else { StartedKeeps(s, i, s'); }
    }
  }

  /** From state `j` on only transaction `i` takes steps. */
  ghost predicate OnlySteps(tr: seq<State>, j: nat, k: nat, i: nat)
  {
    j <= k < |tr| && forall m: nat {:trigger tr[m]} :: j <= m < k ==> i < |tr[m].txs| == |tr[m + 1].txs| && TxStep(tr[m], i, tr[m + 1])
  }

  /** A transaction that begins with no other under way, and is not joined by one, does not abort, whatever the
      others have done before. */
  lemma {:induction false} AloneNeverAborts(tr: seq<State>, j: nat, k: nat, i: nat)
    requires Run(tr) && OnlySteps(tr, j, k, i) && i < |tr[j].txs| && tr[j].txs[i].pc.NotStarted?
    requires forall u :: 0 <= u < |tr[j].txs| && u != i ==> Over(tr[j].txs[u].pc)
    ensures i < |tr[k].txs| && Alone(tr[k], i) && tr[k].txs[i].pc != Aborted && tr[k].txs[i].pc != Unlocking(false)
    decreases k - j
  {
    hide TxStep, Run, BaseInv, Over;
    if j < k {
      AloneNeverAborts(tr, j, k - 1, i);
      EveryRun(tr, k - 1);
      hide Alone;
      AloneStep(tr[k - 1], i, tr[k]);
    }
  }

  // ---------------------------------------------------------------- what the clock counts

  /** Past its commit point, and not read-only. */
  predicate Writer(x: Tx) { Decided(x.pc) && !x.d.readOnly }

  function Writers(s: State): set<nat> { set i: nat | i < |s.txs| && Writer(s.txs[i]) }

  lemma DecidesLocal(sh: Shared, x: Tx, x': Tx)
    requires LocalStep(sh, x, x')
    ensures (Decided(x'.pc) <==> Decided(x.pc)) && (Decided(x.pc) ==> x'.d == x.d)
  {
    if ReadStep(sh, x, x') || ActStep(sh, x, x') { ReadOrAct(sh, x, x'); }
    if ReadStep(sh, x, x') { ReadUndecided(sh, x, x'); }
    if ActStep(sh, x, x') { ActUndecided(sh, x, x'); }
    hide ReadStep, ActStep;
  }

  lemma ReadUndecided(sh: Shared, x: Tx, x': Tx)
    requires ReadStep(sh, x, x')
    ensures !Decided(x'.pc)
  {
  }

  lemma ActUndecided(sh: Shared, x: Tx, x': Tx)
    requires ActStep(sh, x, x')
    ensures !Decided(x'.pc)
  {
    hide Found, Match, StaleCopy, AddRead;
  }

  lemma DecidesMemory(sh: Shared, x: Tx, i: nat, sh': Shared, x': Tx)
    requires MemoryStep(sh, x, i, sh', x')
    ensures (Decided(x'.pc) <==> Decided(x.pc)) && (Decided(x.pc) ==> x'.d.readOnly == x.d.readOnly) && sh'.gvc == sh.gvc
  {
    hide InsertedLocal;
  }

  lemma DecidesStep(s: State, i: nat, s': State)
    requires i < |s.txs| == |s'.txs| && TxStep(s, i, s')
    ensures Writer(s.txs[i]) ==> Writer(s'.txs[i])
    ensures s'.sh.gvc == s.sh.gvc + if Writer(s'.txs[i]) && !Writer(s.txs[i]) then 1 else 0
  {
    var x, x' := s.txs[i], s'.txs[i];
    hide LocalStep, MemoryStep, Without, WithWrites;
    if LocalStep(s.sh, x, x') && s' == s.(txs := s.txs[i := x']) { DecidesLocal(s.sh, x, x'); }
    else if MemoryStep(s.sh, x, i, s'.sh, x') && s' == s.(txs := s.txs[i := x'], sh := s'.sh) { DecidesMemory(s.sh, x, i, s'.sh, x'); }
  }

  lemma WritersStep(s: State, i: nat, s': State)
    requires i < |s.txs| == |s'.txs| && TxStep(s, i, s')
    ensures s'.sh.gvc - s.sh.gvc == |Writers(s')| - |Writers(s)|
  {
    hide TxStep, Writer;
    OthersSame(s, i, s');
    DecidesStep(s, i, s');
    if Writer(s'.txs[i]) && !Writer(s.txs[i]) {
      assert Writers(s') == Writers(s) + {i};
    } else {
      assert Writers(s') == Writers(s);
    }
  }

  /** The version clock has advanced by one for each transaction past its commit point that is not read-only. */
  lemma {:induction false} ClockCountsWriters(tr: seq<State>, k: nat)
    requires Run(tr) && k < |tr|
    ensures tr[k].sh.gvc == tr[0].sh.gvc + |Writers(tr[k])|
  {
    hide TxStep, Writers;
    if k == 0 {
      NoWriters(tr[0]);
    } else {
      ClockCountsWriters(tr, k - 1);
      assert Next(tr[k - 1], tr[k]);
      var i: nat :| i < |tr[k - 1].txs| == |tr[k].txs| && TxStep(tr[k - 1], i, tr[k]);
      WritersStep(tr[k - 1], i, tr[k]);
    }
  }

  lemma NoWriters(s: State)
    requires Init(s)
    ensures Writers(s) == {}
  {
    hide WellFormed;
  }

  /** Read-only means that no put and no remove has been called. */
  predicate OnlyGets(x: Tx)
  {
    (forall k :: 0 <= k < |x.d.log| ==> x.d.log[k].kind == Get) && (InOperation(x.pc) ==> x.d.kind == Get)
  }

  predicate MarkRight(x: Tx) { x.pc == Aborted || (x.d.readOnly <==> OnlyGets(x)) }

  /** An operation goes on, or ends and is logged. */
  predicate OneOperation(x: Tx, x': Tx)
  {
    && x'.d.readOnly == x.d.readOnly && x'.d.kind == x.d.kind
    && if InOperation(x'.pc) then x'.d.log == x.d.log
       else |x'.d.log| == |x.d.log| + 1 && x'.d.log[..|x.d.log|] == x.d.log && x'.d.log[|x.d.log|].kind == x.d.kind
  }

  lemma AddReadSame(sh: Shared, d: Local, n: Node, link: Option<Node>)
    ensures var d1 := AddRead(sh, d, n, link); d1.readOnly == d.readOnly && d1.kind == d.kind && d1.log == d.log && d1.key == d.key
  {
  }

  lemma FinishOne(sh: Shared, x: Tx, x': Tx)
    requires x.pc.Finishing? && FinishStep(sh, x.d, x.pc.fp, x')
    ensures OneOperation(x, x')
  {
    if x.pc.fp.RemoveVal? { AddReadSame(sh, x.d, x.pc.fp.q, x.pc.fp.nx); }
    hide AddRead;
  }

  lemma OverwriteOne(sh: Shared, x: Tx, q: Node)
    requires q in sh.mem
    ensures OneOperation(x, Tx(Finishing(PutReturn(q)), Overwritten(sh, x.d, q)))
  {
    AddReadSame(sh, x.d, q, if q in x.d.ws then x.d.ws[q].next else sh.mem[q].next);
    hide AddRead, StaleCopy;
  }

  lemma FoundOne(sh: Shared, x: Tx, c: Node, nx: Option<Node>, x': Tx)
    requires GetStep(sh, x.d, c, nx, x') || RemoveStep(sh, x.d, c, nx, x')
    ensures OneOperation(x, x')
  {
    AddReadSame(sh, x.d, c, nx);
    hide AddRead;
    assert forall e: Event :: (x.d.log + [e])[..|x.d.log|] == x.d.log;
  }

  lemma ActOne(sh: Shared, x: Tx, x': Tx)
    requires ActStep(sh, x, x')
    ensures InOperation(x.pc) && OneOperation(x, x')
  {
    hide Found, Overwritten, GetStep, RemoveStep, FinishStep;
    if x.pc.Finishing? { FinishOne(sh, x, x'); }
    else {
      var c, nx := x.pc.c, x.pc.np.nx;
      if GetStep(sh, x.d, c, nx, x') || RemoveStep(sh, x.d, c, nx, x') { FoundOne(sh, x, c, nx, x'); }
      else if nx.Some? && nx.value in sh.mem { OverwriteOne(sh, x, nx.value); }
    }
  }

  lemma OneMark(x: Tx, x': Tx)
    requires MarkRight(x) && InOperation(x.pc) && OneOperation(x, x')
    ensures MarkRight(x')
  {
    if !InOperation(x'.pc) {
      var log, log' := x.d.log, x'.d.log;
      assert forall k :: 0 <= k < |log| ==> log'[k] == log'[..|log|][k];
    }
  }

  lemma InsertOne(sh: Shared, x: Tx, sh': Shared, x': Tx)
    requires InsertStep(sh, x, sh', x')
    ensures InOperation(x.pc) && OneOperation(x, x')
  {
  }

  lemma ReadStays(sh: Shared, x: Tx, x': Tx)
    requires ReadStep(sh, x, x')
    ensures InOperation(x.pc) && (InOperation(x'.pc) || x'.pc == Aborted) && x'.d == x.d
  {
  }

  lemma LocalMark(sh: Shared, x: Tx, x': Tx)
    requires LocalStep(sh, x, x') && !ActStep(sh, x, x') && MarkRight(x)
    ensures MarkRight(x')
  {
    hide ActStep, ReadStep;
    if ReadStep(sh, x, x') { ReadStays(sh, x, x'); }
  }

  lemma OtherMark(s: State, i: nat, s': State)
    requires i < |s.txs| == |s'.txs| && TxStep(s, i, s') && MarkRight(s.txs[i])
    requires !LocalStep(s.sh, s.txs[i], s'.txs[i]) && !InsertStep(s.sh, s.txs[i], s'.sh, s'.txs[i])
    ensures MarkRight(s'.txs[i])
  {
    hide LocalStep, InsertStep, Without, WithWrites;
  }

  lemma MarkStep(s: State, i: nat, s': State)
    requires i < |s.txs| == |s'.txs| && TxStep(s, i, s') && MarkRight(s.txs[i])
    ensures MarkRight(s'.txs[i])
  {
    var x, x' := s.txs[i], s'.txs[i];
    hide TxStep, LocalStep, ActStep, InsertStep, MarkRight, OneOperation;
    if ActStep(s.sh, x, x') {
      ActOne(s.sh, x, x');
      OneMark(x, x');
    } else if InsertStep(s.sh, x, s'.sh, x') {
      InsertOne(s.sh, x, s'.sh, x');
      OneMark(x, x');
    } else if LocalStep(s.sh, x, x') {
      LocalMark(s.sh, x, x');
    } else {
      OtherMark(s, i, s');
    }
  }

  /** A transaction past its commit point counts as a writer exactly if it has called put or remove. */
  lemma {:induction false} WritersPutOrRemove(tr: seq<State>, k: nat, i: nat)
    requires Run(tr) && k < |tr| && i < |tr[k].txs|
    ensures MarkRight(tr[k].txs[i])
    ensures Decided(tr[k].txs[i].pc) ==> (i in Writers(tr[k]) <==> exists e :: e in tr[k].txs[i].d.log && e.kind != Get)
  {
    hide TxStep, MarkRight, Init;
    if k == 0 {
      FreshMark(tr[0], i);
    } else {
      assert Next(tr[k - 1], tr[k]);
      var a: nat :| a < |tr[k - 1].txs| == |tr[k].txs| && TxStep(tr[k - 1], a, tr[k]);
      OthersSame(tr[k - 1], a, tr[k]);
      WritersPutOrRemove(tr, k - 1, i);
      if a == i { MarkStep(tr[k - 1], i, tr[k]); }
    }
    if Decided(tr[k].txs[i].pc) { DecidedMark(tr[k].txs[i]); }
  }

  lemma DecidedMark(x: Tx)
    requires MarkRight(x) && Decided(x.pc)
    ensures !x.d.readOnly <==> exists e :: e in x.d.log && e.kind != Get
  {
    if !x.d.readOnly {
      var k :| 0 <= k < |x.d.log| && x.d.log[k].kind != Get;
      assert x.d.log[k] in x.d.log;
    }
  }

  lemma FreshMark(s: State, i: nat)
    requires Init(s) && i < |s.txs|
    ensures MarkRight(s.txs[i])
  {
    hide WellFormed;
  }
}
