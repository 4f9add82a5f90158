/** A transaction that a later commit has overtaken never commits: once a node of its read set carries a write
    version above its read version, validation is bound to fail. In every run. */
module Doomed {
  import opened Basics
  import opened ListHeap
  import opened Transactions
  import opened TxInvariant
  import opened TxOperations
  import opened TxEveryRun
  import opened ReadInvariance
  import opened TxMachine
  import opened Serializability
  import opened ConflictOrder

  /** Overtaken while running, or bound to fail validation, or aborting. */
  ghost predicate Overtaken(sh: Shared, x: Tx)
  {
    || (Running(x.pc) && !Current(sh, x.d))
    || (Tentative(x.pc) && Spoiled(sh, x))
    || Gone(x.pc)
  }

  lemma NotCurrentStays(sh: Shared, sh': Shared, d: Local)
    requires SharedBase(sh) && SnapInv(sh, d) && Grows(sh, sh') && !Current(sh, d)
    ensures !Current(sh', d)
  {
    var n :| n in d.snap && !(n in sh.stamp && sh.stamp[n] <= d.rv);
    assert NodeBase(sh, n);
  }

  lemma SpoiledGrows(sh: Shared, sh': Shared, x: Tx)
    requires SharedBase(sh) && Grows(sh, sh') && Spoiled(sh, x)
    ensures Spoiled(sh', x)
  {
    if n :| n in x.d.todo && n in x.d.snap && n in sh.stamp && sh.stamp[n] > x.d.rv {
      assert n in sh.committed && NodeBase(sh, n);
    }
  }

  /** A step of another transaction. */
  lemma OtherOvertaken(sh: Shared, sh': Shared, x: Tx, i: nat)
    requires SharedBase(sh) && TxBase(sh, x, i) && Grows(sh, sh') && Overtaken(sh, x)
    ensures Overtaken(sh', x)
  {
    hide SharedBase, Grows, PcBase, PhaseInv;
    if Running(x.pc) {
      hide SetsInv, PointerInv, SnapInv, NewsInv, HeldInv;
      NotCurrentStays(sh, sh', x.d);
    } else if Tentative(x.pc) {
      hide TxBase;
      SpoiledGrows(sh, sh', x);
    }
  }

  predicate Extends(d: Local, d': Local) { d'.rv == d.rv && d.snap.Keys <= d'.snap.Keys }

  lemma AddExtends(sh: Shared, d: Local, n: Node, link: Option<Node>)
    ensures Extends(d, AddRead(sh, d, n, link))
  {
  }

  lemma FinishExtends(sh: Shared, d: Local, fp: FinishPc, x': Tx)
    requires FinishStep(sh, d, fp, x')
    ensures Extends(d, x'.d) && Running(x'.pc)
  {
    if fp.RemoveVal? { AddExtends(sh, d, fp.q, fp.nx); }
    hide AddRead;
  }

  lemma ActExtends(sh: Shared, x: Tx, x': Tx)
    requires ActStep(sh, x, x')
    ensures Extends(x.d, x'.d) && Running(x'.pc)
  {
    if x.pc.Finishing? { FinishExtends(sh, x.d, x.pc.fp, x'); }
    else {
      var nx := x.pc.np.nx;
      AddExtends(sh, x.d, x.pc.c, nx);
      if nx.Some? && nx.value in sh.mem { AddExtends(sh, x.d, nx.value, CopiedLink(sh, x.d, nx.value)); }
    }
    hide AddRead, FinishStep, StaleCopy, Found;
  }

  /** Its own steps while it is running. */
  lemma SnapGrows(sh: Shared, x: Tx, x': Tx)
    requires LocalStep(sh, x, x') && Running(x.pc)
    ensures Extends(x.d, x'.d)
    ensures Running(x'.pc) || Gone(x'.pc)
  {
    if ActStep(sh, x, x') { ActExtends(sh, x, x'); }
    hide ActStep;
  }

  lemma LocalOvertaken(sh: Shared, x: Tx, i: nat, x': Tx)
    requires SharedBase(sh) && TxBase(sh, x, i) && LocalStep(sh, x, x') && Overtaken(sh, x)
    ensures Overtaken(sh, x')
  {
    if Running(x.pc) {
      hide SharedBase, TxBase;
      SnapGrows(sh, x, x');
    } else if Tentative(x.pc) {
      ValidationOvertaken(sh, x, i, x');
    } else {
      hide SharedBase, TxBase, StartStep, ReadStep, ActStep;
    }
  }

  lemma ValidationOvertaken(sh: Shared, x: Tx, i: nat, x': Tx)
    requires SharedBase(sh) && TxBase(sh, x, i) && LocalStep(sh, x, x') && Tentative(x.pc) && Spoiled(sh, x)
    ensures Tentative(x'.pc) && Spoiled(sh, x')
  {
    hide SetsInv, PointerInv, SnapInv, NewsInv, HeldInv, PcBase;
    if x.pc.Validating? {
      var n := x'.pc.n;
      if n in x.d.snap {
        assert n in sh.committed by { SnapCommitted(sh, x.d, i); }
        assert NodeBase(sh, n);
      }
    }
  }

  lemma SnapCommitted(sh: Shared, d: Local, i: nat)
    requires UndecidedInv(sh, d, i)
    ensures d.snap.Keys <= sh.committed.Keys
  {
  }

  lemma MemoryOvertaken(s: State, i: nat, sh': Shared, x': Tx)
    requires BaseInv(s) && i < |s.txs| && MemoryStep(s.sh, s.txs[i], i, sh', x') && Overtaken(s.sh, s.txs[i])
    ensures Overtaken(sh', x')
  {
    hide BaseInv, Writes, StaleCopy, WriteBackStep;
  }

  lemma AcquiredOvertaken(sh: Shared, x: Tx, i: nat)
    requires TxBase(sh, x, i) && x.pc == Locking && !Current(sh, x.d)
    ensures Spoiled(sh, Tx(Validating, x.d.(todo := x.d.rs)))
  {
    var n :| n in x.d.snap && !(n in sh.stamp && sh.stamp[n] <= x.d.rv);
    var x' := Tx(Validating, x.d.(todo := x.d.rs));
    assert n in x'.d.todo && n in x'.d.snap && n in sh.stamp && sh.stamp[n] > x'.d.rv;
  }

  lemma StepOvertaken(s: State, a: nat, s': State, i: nat)
    requires BaseInv(s) && a < |s.txs| == |s'.txs| && TxStep(s, a, s') && i < |s.txs| && Overtaken(s.sh, s.txs[i])
    ensures Overtaken(s'.sh, s'.txs[i])
  {
    assert SharedBase(s.sh) && TxBase(s.sh, s.txs[i], i);
    StepGrows(s, a, s');
    hide BaseInv, SharedBase, TxBase, LocalStep, MemoryStep, ValidationFails, CommitStep, Grows, Overtaken;
    if a != i { OtherOvertaken(s.sh, s'.sh, s.txs[i], i); }
    else if LocalStep(s.sh, s.txs[i], s'.txs[i]) && s' == s.(txs := s.txs[i := s'.txs[i]]) {
      LocalOvertaken(s.sh, s.txs[i], i, s'.txs[i]);
    } else if MemoryStep(s.sh, s.txs[i], i, s'.sh, s'.txs[i]) && s' == s.(txs := s.txs[i := s'.txs[i]], sh := s'.sh) {
      MemoryOvertaken(s, i, s'.sh, s'.txs[i]);
    } else { OrderOvertaken(s, i, s'); }
  }

  lemma OrderOvertaken(s: State, i: nat, s': State)
    requires BaseInv(s) && i < |s.txs| == |s'.txs| && Overtaken(s.sh, s.txs[i])
    requires AcquiredStep(s, i, s') || ValidationFailStep(s, i, s') || CommitPointStep(s, i, s')
    ensures Overtaken(s'.sh, s'.txs[i])
  {
    var x := s.txs[i];
    assert TxBase(s.sh, x, i);
    hide BaseInv, TxBase;
    if AcquiredStep(s, i, s') { AcquiredOvertaken(s.sh, x, i); }
    else if CommitPointStep(s, i, s') { CommitPcs(s.sh, x, s'.sh, s'.txs[i]); }
  }

  /** A transaction that passes its commit point at the end of a run has never been overtaken. */
  lemma {:induction false} NeverOvertaken(tr: seq<State>, j: nat, k: nat, i: nat)
    requires Run(tr) && j <= k < |tr| && i < |tr[j].txs| && Overtaken(tr[j].sh, tr[j].txs[i])
    ensures i < |tr[k].txs| && Overtaken(tr[k].sh, tr[k].txs[i])
    decreases k - j
  {
    hide TxStep, BaseInv, Overtaken;
    EveryRun(tr, j);
    EveryRun(tr, k);
    if j < k {
      NeverOvertaken(tr, j, k - 1, i);
      EveryRun(tr, k - 1);
      assert Next(tr[k - 1], tr[k]);
      var a: nat :| a < |tr[k - 1].txs| == |tr[k].txs| && TxStep(tr[k - 1], a, tr[k]);
      StepOvertaken(tr[k - 1], a, tr[k], i);
    }
  }

  /** ... so at every earlier instant at which it was running, no node of its read set had been written by a
      commit with a write version above its read version. */
  lemma CommittersWereCurrent(tr: seq<State>, j: nat, k: nat, i: nat)
    requires Run(tr) && j <= k < |tr| && i < |tr[k].txs| && i < |tr[j].txs| && Running(tr[j].txs[i].pc)
    requires (tr[k].txs[i].pc.Validating? && tr[k].txs[i].d.todo == {}) || Decided(tr[k].txs[i].pc)
    ensures Current(tr[j].sh, tr[j].txs[i].d)
  {
    hide Run, Current;
    if !Current(tr[j].sh, tr[j].txs[i].d) { NeverOvertaken(tr, j, k, i); }
  }

  // ---------------------------------------------------------------- what committed transactions saw

  lemma ActKeepsStale(sh: Shared, x: Tx, x': Tx)
    requires ActStep(sh, x, x') && x.d.stale
    ensures x'.d.stale
  {
    hide StaleCopy, Found, Match;
  }

  lemma StepKeepsStale(s: State, a: nat, s': State, i: nat)
    requires a < |s.txs| == |s'.txs| && TxStep(s, a, s') && i < |s.txs| && s.txs[i].d.stale
    ensures s'.txs[i].d.stale
  {
    if ActStep(s.sh, s.txs[i], s'.txs[i]) { ActKeepsStale(s.sh, s.txs[i], s'.txs[i]); }
    hide PredStep, NextStep, Without, WithWrites, ActStep, AddRead, Writes;
  }

  lemma {:induction false} StaleForGood(tr: seq<State>, j: nat, k: nat, i: nat)
    requires Run(tr) && j <= k < |tr| && i < |tr[j].txs| && tr[j].txs[i].d.stale
    ensures i < |tr[k].txs| && tr[k].txs[i].d.stale
    decreases k - j
  {
    hide TxStep, Init;
    if j < k {
      StaleForGood(tr, j, k - 1, i);
      assert Next(tr[k - 1], tr[k]);
      var a: nat :| a < |tr[k - 1].txs| == |tr[k].txs| && TxStep(tr[k - 1], a, tr[k]);
      StepKeepsStale(tr[k - 1], a, tr[k], i);
    }
  }

  /** At every instant at which a transaction that commits was running, it saw, through its write set, a well-formed
      list whose keys are those that its operations so far make of the committed ones, with the results they
      returned. */
  lemma CommittersSawTheList(tr: seq<State>, j: nat, k: nat, i: nat)
    requires Run(tr) && j <= k < |tr| && Faithful(tr[k]) && i < |tr[k].txs| && i < |tr[j].txs|
    requires Running(tr[j].txs[i].pc) && Decided(tr[k].txs[i].pc)
    ensures var sh, d := tr[j].sh, tr[j].txs[i].d;
            && WellFormed(View(sh, d)) && Explains(Keys(sh.committed), d.log)
            && After(Keys(sh.committed), d.log) == Keys(View(sh, d))
  {
    assert !tr[k].txs[i].d.stale;
    hide Run, Faithful, Running, Current, View, WellFormed, Explains, After, Keys;
    CommittersWereCurrent(tr, j, k, i);
    if tr[j].txs[i].d.stale { StaleForGood(tr, j, k, i); }
    FaithfulBefore(tr, j, k);
    OverlayIsSetOfKeys(tr, j, i);
  }
}
