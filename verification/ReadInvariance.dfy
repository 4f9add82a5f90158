/** What a transaction reads of the list is the list as it was when its read version was sampled: in every run,
    and for every transaction, also one that goes on to abort. */
module ReadInvariance {
  import opened Basics
  import opened ListHeap
  import opened Transactions
  import opened TxInvariant
  import opened TxStability
  import opened TxEveryRun

  // ---------------------------------------------------------------- versions only grow

  predicate Grows(sh: Shared, sh': Shared)
  {
    && sh.gvc <= sh'.gvc
    && (forall n :: n in sh.mem ==> n in sh'.mem && sh.mem[n].version <= sh'.mem[n].version)
    && (forall n {:trigger n in sh.committed} :: n in sh.committed && n in sh.stamp ==>
         && n in sh'.committed && n in sh'.stamp
         && ((sh'.committed[n] == sh.committed[n] && sh'.stamp[n] == sh.stamp[n]) || sh.gvc < sh'.stamp[n]))
    && (forall n :: n in sh'.dirty && n !in sh.dirty ==> n in sh'.stamp && sh.gvc < sh'.stamp[n])
  }

  lemma RelyGrows(sh: Shared, sh': Shared)
    requires Rely(sh, sh', {}, {})
    ensures Grows(sh, sh')
  {
  }

  lemma CommitGrows(s: State, i: nat, sh': Shared, x': Tx)
    requires BaseInv(s) && i < |s.txs| && CommitStep(s.sh, s.txs[i], sh', x')
    ensures Grows(s.sh, sh')
  {
    var x := s.txs[i];
    assert TxBase(s.sh, x, i);
    assert UndecidedInv(s.sh, x.d, i);
    NewsFresh(s.sh, x, i);
    assert x.d.readOnly ==> x.d.ws == map[] && x.d.news == map[];
    assert forall n {:trigger NodeBase(s.sh, n)} :: n in s.sh.committed ==> NodeBase(s.sh, n);
    hide BaseInv, SharedBase, TxBase, UndecidedInv, NodeBase, CommitStep, Rely, Grows;
    CommitRelyBody(s.sh, x, sh', x', {}, {});
    RelyGrows(s.sh, sh');
  }

  lemma StampGrows(sh: Shared, x: Tx, i: nat)
    requires SharedBase(sh) && TxBase(sh, x, i) && x.pc.WritingBack? && x.pc.wp.Stamp? && x.pc.wp.n in sh.mem
    ensures sh.mem[x.pc.wp.n].version <= x.d.wv
  {
    assert UnwrittenInv(sh, x.d, x.pc.wp.n);
    assert NodeBase(sh, x.pc.wp.n);
  }

  lemma OneNodeGrows(sh: Shared, n: Node, m: MemNode, written: bool)
    requires n in sh.mem ==> sh.mem[n].version <= m.version
    ensures Grows(sh, WithMem(sh, n, m, written))
  {
    OneNodeRely(sh, n, m, written, {}, {});
    RelyGrows(sh, WithMem(sh, n, m, written));
  }

  lemma WriteBackGrows(sh: Shared, x: Tx, i: nat, sh': Shared, x': Tx)
    requires SharedBase(sh) && TxBase(sh, x, i) && x.pc.WritingBack? && WriteBackStep(sh, x.d, x.pc.wp, sh', x')
    ensures Grows(sh, sh')
  {
    var wp := x.pc.wp;
    if wp.Stamp? { StampGrows(sh, x, i); }
    hide SharedBase, TxBase, Grows;
    if wp.PickNode? {
      var n :| n in x.d.todo && n in x.d.ws && n in sh.mem && sh' == sh.(mem := sh.mem[n := sh.mem[n].(next := x.d.ws[n].next)]);
      OneNodeGrows(sh, n, sh'.mem[n], false);
    } else {
      OneNodeGrows(sh, wp.n, sh'.mem[wp.n], wp.Stamp?);
    }
  }

  lemma MemoryGrows(s: State, i: nat, sh': Shared, x': Tx)
    requires BaseInv(s) && i < |s.txs| && MemoryStep(s.sh, s.txs[i], i, sh', x')
    ensures Grows(s.sh, sh')
  {
    var sh, x := s.sh, s.txs[i];
    assert TxBase(sh, x, i);
    SharedPart(s);
    hide BaseInv, TxBase, SharedBase, InsertedLocal, Grows, WriteBackStep;
    if InsertStep(sh, x, sh', x') {
      var n: Node :| n !in sh.mem && sh' == sh.(mem := sh.mem[n := MemNode(x.pc.np.nx, true, None, false, 0)]);
      OneNodeGrows(sh, n, MemNode(x.pc.np.nx, true, None, false, 0), false);
    } else if LockStep(sh, x, i, sh', x') {
      OneNodeGrows(sh, x.pc.n, sh'.mem[x.pc.n], false);
    } else if UnlockStep(sh, x, sh', x') {
      var n :| n in x.d.held && n in sh.mem && sh' == sh.(mem := sh.mem[n := sh.mem[n].(lock := None)]);
      OneNodeGrows(sh, n, sh'.mem[n], false);
    } else {
      WriteBackGrows(sh, x, i, sh', x');
    }
  }

  lemma StepGrows(s: State, i: nat, s': State)
    requires BaseInv(s) && i < |s.txs| == |s'.txs| && TxStep(s, i, s')
    ensures Grows(s.sh, s'.sh) && forall j :: 0 <= j < |s.txs| && j != i ==> s'.txs[j] == s.txs[j]
  {
    hide BaseInv, LocalStep, MemoryStep, CommitStep, ValidationFails, Grows;
    var x' := s'.txs[i];
    if MemoryStep(s.sh, s.txs[i], i, s'.sh, x') && s' == s.(txs := s.txs[i := x'], sh := s'.sh) {
      MemoryGrows(s, i, s'.sh, x');
    } else if CommitPointStep(s, i, s') {
      CommitGrows(s, i, s'.sh, x');
    } else {
      assert s'.sh == s.sh;
      GrowsRefl(s.sh);
    }
  }

  lemma GrowsRefl(sh: Shared)
    ensures Grows(sh, sh)
  {
  }

  /** Once the clock has reached `rv`, committed contents that are no newer than `rv` are never changed by a
      commit with a write version up to `rv`. */
  lemma {:induction false} SnapshotStays(tr: seq<State>, j: nat, k: nat, n: Node, rv: nat)
    requires Run(tr) && j <= k < |tr| && rv <= tr[j].sh.gvc
    requires n in tr[j].sh.committed
    ensures n in tr[j].sh.stamp && n in tr[k].sh.committed && n in tr[k].sh.stamp && tr[j].sh.gvc <= tr[k].sh.gvc
    ensures (tr[k].sh.committed[n] == tr[j].sh.committed[n] && tr[k].sh.stamp[n] == tr[j].sh.stamp[n]) || rv < tr[k].sh.stamp[n]
    decreases k - j
  {
    hide TxStep, TxsBase, NewsApart, Owned;
    EveryRun(tr, j);
    assert NodeBase(tr[j].sh, n);
    hide NodeBase;
    if j < k {
      SnapshotStays(tr, j, k - 1, n, rv);
      EveryRun(tr, k - 1);
      assert Next(tr[k - 1], tr[k]);
      var i: nat :| i < |tr[k - 1].txs| == |tr[k].txs| && TxStep(tr[k - 1], i, tr[k]);
      hide BaseInv;
      StepGrows(tr[k - 1], i, tr[k]);
    }
  }

  /** Nor does a commit with such a write version leave it to be written back, once it has been written. */
  lemma {:induction false} WrittenStays(tr: seq<State>, j: nat, k: nat, n: Node, rv: nat)
    requires Run(tr) && j <= k < |tr| && rv <= tr[j].sh.gvc && n !in tr[j].sh.dirty
    ensures n !in tr[k].sh.dirty || (n in tr[k].sh.stamp && rv < tr[k].sh.stamp[n])
    ensures tr[j].sh.gvc <= tr[k].sh.gvc
    decreases k - j
  {
    hide TxStep, BaseInv;
    if j < k {
      WrittenStays(tr, j, k - 1, n, rv);
      EveryRun(tr, k - 1);
      assert Next(tr[k - 1], tr[k]);
      var i: nat :| i < |tr[k - 1].txs| == |tr[k].txs| && TxStep(tr[k - 1], i, tr[k]);
      StepGrows(tr[k - 1], i, tr[k]);
      DirtyCommitted(tr[k - 1], n);
    }
  }

  lemma DirtyCommitted(s: State, n: Node)
    requires BaseInv(s)
    ensures n in s.sh.dirty ==> n in s.sh.committed && n in s.sh.stamp
  {
    hide TxsBase, NewsApart, Owned;
  }

  /** A started transaction keeps its read version. */
  lemma StartedActs(sh: Shared, x: Tx, x': Tx)
    requires ActStep(sh, x, x')
    ensures x'.pc != NotStarted && x'.d.rv == x.d.rv
  {
    hide Found, StaleCopy;
  }

  lemma StartedLocal(sh: Shared, x: Tx, x': Tx)
    requires LocalStep(sh, x, x') && x.pc != NotStarted
    ensures x'.pc != NotStarted && x'.d.rv == x.d.rv
  {
    if ActStep(sh, x, x') { StartedActs(sh, x, x'); }
    hide ActStep, PredStep, NextStep;
  }

  lemma StartedKeeps(s: State, i: nat, s': State)
    requires i < |s.txs| == |s'.txs| && TxStep(s, i, s') && s.txs[i].pc != NotStarted
    ensures s'.txs[i].pc != NotStarted && s'.txs[i].d.rv == s.txs[i].d.rv
  {
    hide LocalStep, Without, WithWrites;
    if LocalStep(s.sh, s.txs[i], s'.txs[i]) { StartedLocal(s.sh, s.txs[i], s'.txs[i]); }
  }

  lemma {:induction false} ReadVersionFixed(tr: seq<State>, j: nat, k: nat, i: nat)
    requires Run(tr) && j <= k < |tr| && i < |tr[j].txs| && tr[j].txs[i].pc != NotStarted
    ensures i < |tr[k].txs| && tr[k].txs[i].pc != NotStarted && tr[k].txs[i].d.rv == tr[j].txs[i].d.rv
    decreases k - j
  {
    hide TxStep, BaseInv;
    if j < k {
      ReadVersionFixed(tr, j, k - 1, i);
      EveryRun(tr, k - 1);
      assert Next(tr[k - 1], tr[k]);
      var a: nat :| a < |tr[k - 1].txs| == |tr[k].txs| && TxStep(tr[k - 1], a, tr[k]);
      StepGrows(tr[k - 1], a, tr[k]);
      if a == i { StartedKeeps(tr[k - 1], i, tr[k]); }
    }
  }

  lemma StartsAtClock(s: State, i: nat, s': State)
    requires i < |s.txs| == |s'.txs| && TxStep(s, i, s') && s.txs[i].pc == NotStarted
    ensures s'.sh == s.sh && s'.txs[i].d.rv == s.sh.gvc
  {
    hide Without, WithWrites;
  }

  lemma SampledKeeps(s: State, a: nat, s': State, i: nat)
    requires BaseInv(s) && a < |s.txs| == |s'.txs| && TxStep(s, a, s') && i < |s.txs| && s'.txs[i].pc != NotStarted
    requires s.txs[i].pc != NotStarted ==> s.txs[i].d.rv <= s.sh.gvc
    ensures s'.txs[i].d.rv <= s'.sh.gvc
  {
    hide TxStep, BaseInv;
    StepGrows(s, a, s');
    if a == i {
      if s.txs[i].pc == NotStarted { StartsAtClock(s, i, s'); } else { StartedKeeps(s, i, s'); }
    }
  }

  /** The read version is a value the clock has had. */
  lemma {:induction false} ReadVersionSampled(tr: seq<State>, k: nat, i: nat)
    requires Run(tr) && k < |tr| && i < |tr[k].txs| && tr[k].txs[i].pc != NotStarted
    ensures tr[k].txs[i].d.rv <= tr[k].sh.gvc
  {
    hide TxStep, BaseInv;
    if k > 0 {
      EveryRun(tr, k);
      EveryRun(tr, k - 1);
      assert Next(tr[k - 1], tr[k]);
      var a: nat :| a < |tr[k - 1].txs| == |tr[k].txs| && TxStep(tr[k - 1], a, tr[k]);
      if tr[k - 1].txs[i].pc != NotStarted { ReadVersionSampled(tr, k - 1, i); }
      SampledKeeps(tr[k - 1], a, tr[k], i);
    }
  }

  // ---------------------------------------------------------------- getNext outside the write set

  /** From state `j` to state `k` transaction `i` has been in the same call of getNext on `c`. */
  predicate InCall(tr: seq<State>, j: nat, k: nat, i: nat, c: Node)
    requires k < |tr| && i < |tr[k].txs|
  {
    forall m :: j <= m <= k ==> i < |tr[m].txs| && tr[m].txs[i].pc.GettingNext? && tr[m].txs[i].pc.c == c && tr[m].txs[i].d == tr[k].txs[i].d
  }

  /** In state `j`, if the committed contents of `c` were no newer than `rv`, their link was `nx`. */
  predicate LinkThen(s: State, c: Node, rv: nat, nx: Option<Node>)
  {
    c in s.sh.committed && c in s.sh.stamp && (s.sh.stamp[c] <= rv ==> s.sh.committed[c].next == nx)
  }

  predicate SettledThen(s: State, c: Node, rv: nat) { c in s.sh.stamp && s.sh.stamp[c] <= rv }

  ghost predicate Justified(tr: seq<State>, k: nat, i: nat)
    requires k < |tr| && i < |tr[k].txs|
  {
    var x := tr[k].txs[i];
    x.pc.GettingNext? && x.pc.c !in x.d.ws && x.pc.c !in x.d.news ==>
      match x.pc.np
      case Recheck(nx) => exists j: nat :: j <= k && InCall(tr, j, k, i, x.pc.c) && LinkThen(tr[j], x.pc.c, x.d.rv, nx)
      case Version(nx) =>
        exists j: nat :: j <= k && InCall(tr, j, k, i, x.pc.c) && LinkThen(tr[j], x.pc.c, x.d.rv, nx)
          && (SettledThen(tr[j], x.pc.c, x.d.rv) || (x.pc.c in tr[k].sh.mem && tr[k].sh.mem[x.pc.c].version > x.d.rv))
      case SuccLock(q) => Returned(tr, k, i, x.pc.c, Some(q))
      case SuccVersion(q) => Returned(tr, k, i, x.pc.c, Some(q))
      case Done(nx) => Returned(tr, k, i, x.pc.c, nx)
      case _ => true
  }

  /** At some instant of the call, the committed contents of `c` were no newer than the read version and held
      the link `nx`. */
  ghost predicate Returned(tr: seq<State>, k: nat, i: nat, c: Node, nx: Option<Node>)
    requires k < |tr| && i < |tr[k].txs|
  {
    exists j: nat :: j <= k && InCall(tr, j, k, i, c) && LinkThen(tr[j], c, tr[k].txs[i].d.rv, nx) && SettledThen(tr[j], c, tr[k].txs[i].d.rv)
  }

  lemma InCallOn(tr: seq<State>, j: nat, k: nat, i: nat, c: Node)
    requires j < k < |tr| && i < |tr[k].txs| && i < |tr[k - 1].txs| && InCall(tr, j, k - 1, i, c)
    requires tr[k].txs[i].pc.GettingNext? && tr[k].txs[i].pc.c == c && tr[k].txs[i].d == tr[k - 1].txs[i].d
    ensures InCall(tr, j, k, i, c)
  {
  }

  /** A step of another transaction. */
  lemma OtherJustified(tr: seq<State>, k: nat, i: nat)
    requires 0 < k < |tr| && i < |tr[k].txs| && i < |tr[k - 1].txs| && Justified(tr, k - 1, i)
    requires tr[k].txs[i] == tr[k - 1].txs[i] && Grows(tr[k - 1].sh, tr[k].sh)
    ensures Justified(tr, k, i)
  {
    var x := tr[k].txs[i];
    if x.pc.GettingNext? {
      forall j: nat | j < k && InCall(tr, j, k - 1, i, x.pc.c) ensures InCall(tr, j, k, i, x.pc.c) {
        InCallOn(tr, j, k, i, x.pc.c);
      }
      hide InCall, LinkThen, SettledThen;
    }
  }

  lemma ReadsCommitted(sh: Shared, x: Tx, i: nat)
    requires SharedBase(sh) && TxBase(sh, x, i) && x.pc.GettingNext? && x.pc.np.Read? && x.pc.c !in x.d.news && x.pc.c in sh.mem
    ensures x.pc.c in sh.committed && x.pc.c in sh.stamp
    ensures sh.stamp[x.pc.c] <= x.d.rv ==> sh.committed[x.pc.c].next == sh.mem[x.pc.c].next
  {
    hide UndecidedInv;
    assert NodeBase(sh, x.pc.c);
  }

  lemma UnlockedVersion(sh: Shared, c: Node)
    requires SharedBase(sh) && c in sh.committed && c in sh.mem && sh.mem[c].lock.None?
    ensures c in sh.stamp && sh.mem[c].version == sh.stamp[c]
  {
    assert NodeBase(sh, c);
  }

  lemma StampAt(tr: seq<State>, j: nat, k: nat, c: Node)
    requires Run(tr) && j <= k < |tr| && c in tr[j].sh.committed
    ensures c in tr[k].sh.committed && c in tr[k].sh.stamp && c in tr[j].sh.stamp && tr[j].sh.stamp[c] <= tr[k].sh.stamp[c]
  {
    hide Run, BaseInv;
    SnapshotStays(tr, j, k, c, tr[j].sh.gvc);
    EveryRun(tr, j);
    StampBelow(tr[j], c);
  }

  lemma StampBelow(s: State, c: Node)
    requires BaseInv(s) && c in s.sh.committed
    ensures c in s.sh.stamp && s.sh.stamp[c] <= s.sh.gvc
  {
    hide TxsBase, NewsApart, Owned;
    assert NodeBase(s.sh, c);
  }

  /** The link has just been read. */
  lemma ReadJustified(tr: seq<State>, k: nat, i: nat)
    requires 0 < k < |tr| && i < |tr[k].txs| && i < |tr[k - 1].txs|
    requires BaseInv(tr[k - 1]) && ReadStep(tr[k - 1].sh, tr[k - 1].txs[i], tr[k].txs[i]) && tr[k].sh == tr[k - 1].sh
    requires tr[k].txs[i].pc.GettingNext? && tr[k].txs[i].pc.np.Recheck? && tr[k].txs[i].pc.c !in tr[k].txs[i].d.news
    ensures Justified(tr, k, i)
  {
    var s, x := tr[k - 1], tr[k - 1].txs[i];
    assert TxBase(s.sh, x, i);
    SharedPart(s);
    hide BaseInv, TxBase;
    ReadsCommitted(s.sh, x, i);
    assert InCall(tr, k, k, i, x.pc.c) && LinkThen(tr[k], x.pc.c, x.d.rv, s.sh.mem[x.pc.c].next);
  }

  lemma RecheckWitness(tr: seq<State>, k: nat, i: nat) returns (j: nat)
    requires k < |tr| && i < |tr[k].txs| && Justified(tr, k, i)
    requires tr[k].txs[i].pc.GettingNext? && tr[k].txs[i].pc.np.Recheck?
    requires tr[k].txs[i].pc.c !in tr[k].txs[i].d.ws && tr[k].txs[i].pc.c !in tr[k].txs[i].d.news
    ensures j <= k && InCall(tr, j, k, i, tr[k].txs[i].pc.c)
    ensures LinkThen(tr[j], tr[k].txs[i].pc.c, tr[k].txs[i].d.rv, tr[k].txs[i].pc.np.nx)
  {
    hide InCall, LinkThen, SettledThen;
    j :| j <= k && InCall(tr, j, k, i, tr[k].txs[i].pc.c)
      && LinkThen(tr[j], tr[k].txs[i].pc.c, tr[k].txs[i].d.rv, tr[k].txs[i].pc.np.nx);
  }

  lemma LinkStamp(s: State, c: Node, rv: nat, nx: Option<Node>)
    requires LinkThen(s, c, rv, nx)
    ensures c in s.sh.committed && c in s.sh.stamp && (SettledThen(s, c, rv) <==> s.sh.stamp[c] <= rv)
  {
  }

  lemma VersionJustified(tr: seq<State>, k: nat, i: nat, j: nat)
    requires j <= k < |tr| && i < |tr[k].txs| && tr[k].txs[i].pc.GettingNext? && tr[k].txs[i].pc.np.Version?
    requires var c, rv := tr[k].txs[i].pc.c, tr[k].txs[i].d.rv;
             && InCall(tr, j, k, i, c) && LinkThen(tr[j], c, rv, tr[k].txs[i].pc.np.nx)
             && (SettledThen(tr[j], c, rv) || (c in tr[k].sh.mem && tr[k].sh.mem[c].version > rv))
    ensures Justified(tr, k, i)
  {
    hide InCall, LinkThen, SettledThen;
  }

  /** It has been seen unlocked again: what memory says of its version is now what was committed. */
  lemma RecheckJustified(tr: seq<State>, k: nat, i: nat, c: Node, nx: Option<Node>)
    requires Run(tr) && 0 < k < |tr| && i < |tr[k].txs| && i < |tr[k - 1].txs| && Justified(tr, k - 1, i)
    requires SharedBase(tr[k - 1].sh) && tr[k].sh == tr[k - 1].sh && tr[k].txs[i].d == tr[k - 1].txs[i].d
    requires tr[k - 1].txs[i].pc.GettingNext? && tr[k - 1].txs[i].pc.c == c && tr[k - 1].txs[i].pc.np == Recheck(nx)
    requires tr[k].txs[i].pc.GettingNext? && tr[k].txs[i].pc.c == c && tr[k].txs[i].pc.np == Version(nx)
    requires c in tr[k].sh.mem && tr[k].sh.mem[c].lock.None? && c !in tr[k].txs[i].d.ws && c !in tr[k].txs[i].d.news
    ensures Justified(tr, k, i)
  {
    hide Run, SharedBase, InCall, Justified, LinkThen, SettledThen;
    var j := RecheckWitness(tr, k - 1, i);
    InCallOn(tr, j, k, i, c);
    LinkStamp(tr[j], c, tr[k].txs[i].d.rv, nx);
    StampAt(tr, j, k - 1, c);
    UnlockedVersion(tr[k].sh, c);
    VersionJustified(tr, k, i, j);
  }

  /** Its own step inside getNext. */
  lemma OwnJustified(tr: seq<State>, k: nat, i: nat)
    requires Run(tr) && 0 < k < |tr| && i < |tr[k].txs| && i < |tr[k - 1].txs| && Justified(tr, k - 1, i)
    requires BaseInv(tr[k - 1]) && ReadStep(tr[k - 1].sh, tr[k - 1].txs[i], tr[k].txs[i]) && tr[k].sh == tr[k - 1].sh
    requires tr[k].txs[i].pc.GettingNext? && !tr[k].txs[i].pc.np.Start? && !tr[k].txs[i].pc.np.Read?
    requires tr[k].txs[i].pc.c !in tr[k].txs[i].d.ws && tr[k].txs[i].pc.c !in tr[k].txs[i].d.news
    ensures Justified(tr, k, i)
  {
    hide BaseInv, Run;
    var x, x' := tr[k - 1].txs[i], tr[k].txs[i];
    var c := x'.pc.c;
    if x'.pc.np.Recheck? { ReadJustified(tr, k, i); }
    else if x'.pc.np.Version? {
      SharedPart(tr[k - 1]);
      hide Justified, InCall;
      RecheckJustified(tr, k, i, c, x.pc.np.nx);
    }
    else {
      forall j: nat | j < k && InCall(tr, j, k - 1, i, c) ensures InCall(tr, j, k, i, c) { InCallOn(tr, j, k, i, c); }
      hide InCall, LinkThen, SettledThen;
    }
  }

  lemma SharedPart(s: State)
    requires BaseInv(s)
    ensures SharedBase(s.sh)
  {
  }

  lemma StepInto(s: State, i: nat, s': State)
    requires i < |s.txs| == |s'.txs| && TxStep(s, i, s')
    requires s'.txs[i].pc.GettingNext? && !s'.txs[i].pc.np.Start?
    ensures ReadStep(s.sh, s.txs[i], s'.txs[i]) && s'.sh == s.sh
  {
    hide NextStep, PredStep;
  }

  lemma {:induction false} AllJustified(tr: seq<State>, k: nat, i: nat)
    requires Run(tr) && k < |tr| && i < |tr[k].txs|
    ensures Justified(tr, k, i)
  {
    hide TxStep, BaseInv, InCall, ReadStep;
    EveryRun(tr, k);
    if k > 0 {
      EveryRun(tr, k - 1);
      AllJustified(tr, k - 1, i);
      assert Next(tr[k - 1], tr[k]);
      var a: nat :| a < |tr[k - 1].txs| == |tr[k].txs| && TxStep(tr[k - 1], a, tr[k]);
      StepGrows(tr[k - 1], a, tr[k]);
      var x := tr[k].txs[i];
      if a != i {
        OtherJustified(tr, k, i);
      } else if x.pc.GettingNext? && !x.pc.np.Start? {
        StepInto(tr[k - 1], i, tr[k]);
        if !x.pc.np.Read? && x.pc.c !in x.d.ws && x.pc.c !in x.d.news { OwnJustified(tr, k, i); }
      }
    }
  }

  /** Read invariance: when getNext of a committed node outside the write set returns `nx`, there is an
      instant of the call at which the committed contents of the node carried a version up to the read version
      and the link `nx`; and from then on every commit that writes the node has a write version above the read
      version. So `nx` was written by the last commit with a write version up to the read version. */
  lemma GetNextReturnsSnapshot(tr: seq<State>, k: nat, i: nat)
    requires Run(tr) && k < |tr| && i < |tr[k].txs|
    requires tr[k].txs[i].pc.GettingNext? && tr[k].txs[i].pc.np.Done?
    requires tr[k].txs[i].pc.c !in tr[k].txs[i].d.ws && tr[k].txs[i].pc.c !in tr[k].txs[i].d.news
    ensures var d, c, nx := tr[k].txs[i].d, tr[k].txs[i].pc.c, tr[k].txs[i].pc.np.nx;
            exists j: nat :: j <= k && InCall(tr, j, k, i, c) && LinkThen(tr[j], c, d.rv, nx) && SettledThen(tr[j], c, d.rv)
              && NoOlderCommit(tr, j, c, d.rv)
  {
    var d, c, nx := tr[k].txs[i].d, tr[k].txs[i].pc.c, tr[k].txs[i].pc.np.nx;
    AllJustified(tr, k, i);
    var j: nat :| j <= k && InCall(tr, j, k, i, c) && LinkThen(tr[j], c, d.rv, nx) && SettledThen(tr[j], c, d.rv);
    CallReadVersion(tr, j, k, i, c);
    hide Run, InCall;
    forall m: nat | j <= m < |tr| ensures c in tr[j].sh.stamp && c in tr[m].sh.stamp && (tr[m].sh.stamp[c] == tr[j].sh.stamp[c] || d.rv < tr[m].sh.stamp[c]) {
      SnapshotStays(tr, j, m, c, d.rv);
    }
  }

  predicate NoOlderCommit(tr: seq<State>, j: nat, c: Node, rv: nat)
  {
    forall m: nat {:trigger tr[m]} :: j <= m < |tr| ==> c in tr[j].sh.stamp && c in tr[m].sh.stamp && (tr[m].sh.stamp[c] == tr[j].sh.stamp[c] || rv < tr[m].sh.stamp[c])
  }

  /** The read version was sampled before the call. */
  lemma CallReadVersion(tr: seq<State>, j: nat, k: nat, i: nat, c: Node)
    requires Run(tr) && j <= k < |tr| && i < |tr[k].txs| && InCall(tr, j, k, i, c)
    ensures tr[k].txs[i].d.rv <= tr[j].sh.gvc
  {
    EveryRun(tr, j);
    assert TxBase(tr[j].sh, tr[j].txs[i], i);
    hide Run, SharedBase, NewsApart, Owned, SetsInv, PointerInv, SnapInv, NewsInv, HeldInv, PcBase;
  }
}
