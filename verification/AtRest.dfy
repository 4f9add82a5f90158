/** What stale links do to the list in memory, once no transaction is running: in every run. */
module AtRest {
  import opened Basics
  import opened ListHeap
  import opened Transactions
  import opened TxInvariant
  import opened TxEveryRun
  import opened TxMachine
  import opened Serializability
  import opened ReadInvariance
  import opened BlindOverwrite
  import opened ListSize
  import opened CommitCheck
  import opened StaleLink

  /** With nothing running, the list one finds in memory is, in ascending order, the live nodes of the committed
      list, if that is well-formed; and only if, as far as those nodes have values. */
  lemma FoundAtRest(tr: seq<State>, m: nat)
    requires Run(tr) && m < |tr| && Quiescent(tr[m])
    ensures WellFormed(tr[m].sh.committed) <==>
              FoundInMemory(tr[m].sh.mem, tr[m].sh.committed) && Valued(tr[m].sh.committed)
  {
    hide Run, Quiescent, FoundInMemory, LinksInMemory;
    QuiescentLinks(tr, m);
    if Valued(tr[m].sh.committed) { FoundExactly(tr[m].sh, tr[m].sh.committed); }
  }

  /** If every commit passes the check, the list in memory has every key once, and `get_size` counts them. */
  lemma FittingRun(tr: seq<State>, m: nat) returns (path: seq<Node>)
    requires Run(tr) && m < |tr| && Quiescent(tr[m]) && CommitsFit(tr, m)
    ensures IsList(tr[m].sh.mem, path) && Sorted(path) && PathKeys(path) == Keys(tr[m].sh.committed)
    ensures |path| - 1 == |Keys(tr[m].sh.committed)|
  {
    hide Run, Quiescent, CommitsFit, WellFormed, IsList, Sorted, PathKeys, Keys, LinksInMemory;
    ListStands(tr, m);
    QuiescentLinks(tr, m);
    path := ListInMemory(tr[m].sh, tr[m].sh.committed);
  }

  /** CopyDecides, of memory: when everything has come to rest before the next commit, the nodes one finds from the
      head are those of the list, in order, if and only if the link that was copied is the one the node held in memory
      at the commit point. */
  lemma CopyDecidesInMemory(tr: seq<State>, j: nat, k: nat, i: nat, m: nat)
    requires Run(tr) && EndsWithPut(tr, j, k, i) && k + 1 < |tr| && i < |tr[k + 1].txs|
    requires CommitPointStep(tr[k], i, tr[k + 1]) && Faithful(tr[k]) && !tr[j].txs[i].d.stale
    requires k < m < |tr| && Quiescent(tr[m]) && tr[m].sh.committed == tr[k + 1].sh.committed
    ensures var d, mem, q := tr[k].txs[i].d, tr[k].sh.mem, Target(tr[j].txs[i]);
            && q in d.ws && q in mem
            && (FoundInMemory(tr[m].sh.mem, tr[m].sh.committed) <==> d.ws[q].next == mem[q].next)
  {
    hide Run, EndsWithPut, CommitPointStep, Faithful, StaleCopy, Quiescent, FoundInMemory, WellFormed, Serializable, Target, Keys, Valued;
    CopyDecides(tr, j, k, i);
    FoundAtRest(tr, m);
  }

  // ---------------------------------------------------------------- removed nodes link to nothing

  predicate DeadEnds(h: Heap) { forall n :: n in h && h[n].dead ==> h[n].next == None }

  predicate TxDeadEnds(d: Local) { DeadEnds(d.ws) && DeadEnds(d.news) }

  predicate AllDeadEnds(s: State)
  {
    DeadEnds(s.sh.committed) && forall i :: 0 <= i < |s.txs| ==> TxDeadEnds(s.txs[i].d)
  }

  lemma RemovedDeadEnds(sh: Shared, d: Local, p: Node, q: Node, nx: Option<Node>, pv: bool)
    requires TxDeadEnds(d) && q in sh.mem
    ensures TxDeadEnds(Removed(sh, d, p, q, nx, pv))
  {
  }

  lemma OverwrittenDeadEnds(sh: Shared, d: Local, q: Node)
    requires TxDeadEnds(d) && q in sh.mem
    ensures TxDeadEnds(Overwritten(sh, d, q))
  {
    hide StaleCopy;
  }

  lemma InsertedDeadEnds(sh: Shared, d: Local, c: Node, nx: Option<Node>, n: Node)
    requires TxDeadEnds(d) && c in sh.mem
    ensures TxDeadEnds(InsertedLocal(sh, d, c, nx, n))
  {
  }

  lemma AddReadWrites(sh: Shared, d: Local, n: Node, link: Option<Node>)
    ensures AddRead(sh, d, n, link).ws == d.ws && AddRead(sh, d, n, link).news == d.news
  {
  }

  lemma ActDeadEnds(sh: Shared, x: Tx, x': Tx)
    requires TxDeadEnds(x.d) && ActStep(sh, x, x')
    ensures TxDeadEnds(x'.d)
  {
    hide AddRead, Overwritten, Removed, Found, DeadEnds;
    match x.pc
    case GettingNext(g, c, np) =>
      AddReadWrites(sh, x.d, c, np.nx);
      if np.nx.Some? && np.nx.value in sh.mem { OverwrittenDeadEnds(sh, x.d, np.nx.value); }
    case Finishing(fp) =>
      if fp.RemoveVal? && fp.q in sh.mem { RemovedDeadEnds(sh, x.d, fp.p, fp.q, fp.nx, fp.pv); }
    case _ =>
  }

  lemma LocalDeadEnds(sh: Shared, x: Tx, x': Tx)
    requires TxDeadEnds(x.d) && LocalStep(sh, x, x')
    ensures TxDeadEnds(x'.d)
  {
    if ActStep(sh, x, x') { ActDeadEnds(sh, x, x'); }
    hide ActStep, NextStep, PredStep, DeadEnds;
  }

  lemma MemoryDeadEnds(sh: Shared, x: Tx, i: nat, sh': Shared, x': Tx)
    requires TxDeadEnds(x.d) && MemoryStep(sh, x, i, sh', x')
    ensures TxDeadEnds(x'.d)
  {
    hide InsertedLocal, DeadEnds;
    if InsertStep(sh, x, sh', x') {
      var n: Node :| x' == Tx(Ready, InsertedLocal(sh, x.d, x.pc.c, x.pc.np.nx, n));
      InsertedDeadEnds(sh, x.d, x.pc.c, x.pc.np.nx, n);
    }
    hide InsertStep;
  }

  lemma StepDeadEnds(s: State, i: nat, s': State)
    requires AllDeadEnds(s) && i < |s.txs| == |s'.txs| && TxStep(s, i, s')
    ensures AllDeadEnds(s')
  {
    OthersSame(s, i, s');
    CommittedStep(s, i, s');
    var x, x' := s.txs[i], s'.txs[i];
    assert TxDeadEnds(x.d);
    assert DeadEnds(s.sh.committed + Writes(x.d));
    hide LocalStep, MemoryStep, Without, WithWrites, Writes, DeadEnds;
    if LocalStep(s.sh, x, x') { LocalDeadEnds(s.sh, x, x'); }
    else if MemoryStep(s.sh, x, i, s'.sh, x') { MemoryDeadEnds(s.sh, x, i, s'.sh, x'); }
    else if CommitPointStep(s, i, s') { CommitPcs(s.sh, x, s'.sh, x'); }
    hide CommitStep;
  }

  lemma StartDeadEnds(s: State)
    requires Init(s) && DeadEnds(s.sh.committed)
    ensures AllDeadEnds(s)
  {
    hide WellFormed;
  }

  lemma {:induction false} EveryDeadEnds(tr: seq<State>, k: nat)
    requires Run(tr) && k < |tr| && DeadEnds(tr[0].sh.committed)
    ensures AllDeadEnds(tr[k])
  {
    hide TxStep, AllDeadEnds;
    if k == 0 {
      StartDeadEnds(tr[0]);
    } else {
      EveryDeadEnds(tr, k - 1);
      assert Next(tr[k - 1], tr[k]);
      var i: nat :| i < |tr[k - 1].txs| == |tr[k].txs| && TxStep(tr[k - 1], i, tr[k]);
      StepDeadEnds(tr[k - 1], i, tr[k]);
    }
  }

  // ---------------------------------------------------------------- the node that is lost

  /** Following links one stays inside the committed nodes. */
  lemma {:induction false} PathCommitted(sh: Shared, path: seq<Node>, k: nat)
    requires SharedBase(sh) && HEAD in sh.committed && LinksInMemory(sh, sh.committed) && IsList(sh.mem, path) && k < |path|
    ensures path[k] in sh.committed && (k > 0 ==> path[k - 1] in sh.committed && sh.committed[path[k - 1]].next == Some(path[k]))
  {
    if k > 0 {
      PathCommitted(sh, path, k - 1);
      assert NodeBase(sh, path[k - 1]);
      assert sh.mem[path[k - 1]].next == Successor(path, k - 1);
    }
  }

  /** A node that no live node links to is not found. */
  lemma UnlinkedNotFound(sh: Shared, path: seq<Node>, x: Node)
    requires SharedBase(sh) && HEAD in sh.committed && LinksInMemory(sh, sh.committed) && IsList(sh.mem, path)
    requires DeadEnds(sh.committed) && Unreached(sh.committed, x) && x != HEAD
    ensures x !in path
  {
    if x in path {
      var k :| 0 <= k < |path| && path[k] == x;
      PathCommitted(sh, path, k);
      assert false;
    }
  }

  lemma HeadThere(tr: seq<State>, m: nat)
    requires Run(tr) && m < |tr|
    ensures HEAD in tr[m].sh.committed
  {
    assert HEAD in tr[0].sh.committed;
    hide Run;
    SnapshotStays(tr, 0, m, HEAD, 0);
  }

  /** SuccessorIsLost, of memory: if removed nodes link to nothing at the start, as `remove` leaves them, then, when
      everything has come to rest before the next commit, the node whose key every serial order leaves is not among
      those one finds from the head. */
  lemma LostInMemory(tr: seq<State>, j: nat, k: nat, i: nat, m: nat, x: Node, ids: seq<nat>, final: set<nat>, path: seq<Node>)
    requires Run(tr) && EndsWithPut(tr, j, k, i) && k + 1 < |tr| && i < |tr[k + 1].txs|
    requires CommitPointStep(tr[k], i, tr[k + 1]) && Faithful(tr[k]) && !tr[j].txs[i].d.stale
    requires Target(tr[j].txs[i]) in tr[j].sh.mem && StaleCopy(tr[j].sh, tr[j].txs[i].d, Target(tr[j].txs[i]))
    requires Target(tr[j].txs[i]) in tr[k].sh.mem && tr[k].sh.mem[Target(tr[j].txs[i])].next == Some(x)
    requires Serializes(tr[k + 1].txs, ids, Keys(tr[0].sh.committed), final)
    requires DeadEnds(tr[0].sh.committed)
    requires k < m < |tr| && Quiescent(tr[m]) && tr[m].sh.committed == tr[k + 1].sh.committed && IsList(tr[m].sh.mem, path)
    ensures x.key in final && x !in path
  {
    hide Run, EndsWithPut, CommitPointStep, Faithful, StaleCopy, Quiescent, Target, Keys, Serializes, AllDeadEnds;
    hide Unreached, IsList, DeadEnds, LinksInMemory;
    SuccessorIsLost(tr, j, k, i, x, ids, final);
    EveryRun(tr, m);
    assert SharedBase(tr[m].sh);
    hide BaseInv, SharedBase;
    QuiescentLinks(tr, m);
    EveryDeadEnds(tr, m);
    assert DeadEnds(tr[m].sh.committed) by { DeadEndsHere(tr[m]); }
    HeadThere(tr, m);
    UnlinkedNotFound(tr[m].sh, path, x);
  }

  lemma DeadEndsHere(s: State)
    requires AllDeadEnds(s)
    ensures DeadEnds(s.sh.committed)
  {
  }
}
