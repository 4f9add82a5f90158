/** Steps of other transactions do not break what a transaction has established. */
module TxStability {
  import opened Basics
  import opened ListHeap
  import opened Transactions
  import opened TxInvariant

  /** What a transaction with the given private nodes and held locks relies on. Committed contents change
      only under a stamp above the clock, so above every read version already taken; nodes it created or
      locked do not change at all. */
  ghost predicate Rely(sh: Shared, sh': Shared, news: set<Node>, held: set<Node>)
  {
    && sh.gvc <= sh'.gvc
    && (forall n :: n in sh.mem ==> n in sh'.mem && sh.mem[n].version <= sh'.mem[n].version)
    && (forall n {:trigger n in sh.committed} {:trigger n in sh'.committed} {:trigger sh'.stamp[n]} :: n in sh.committed && n in sh.stamp ==>
         && n in sh'.committed && n in sh'.stamp && sh.stamp[n] <= sh'.stamp[n]
         && ((sh'.committed[n] == sh.committed[n] && sh'.stamp[n] == sh.stamp[n]) || sh.gvc < sh'.stamp[n]))
    && (forall n :: n in sh'.dirty && n !in sh.dirty ==> n in sh'.stamp && sh.gvc < sh'.stamp[n])
    && (forall n :: n in news && n in sh.mem ==> n in sh'.mem && n !in sh'.committed && sh'.mem[n] == sh.mem[n])
    && (forall n :: n in held && n in sh.mem ==>
         && n in sh'.mem && sh'.mem[n] == sh.mem[n] && (n in sh'.dirty <==> n in sh.dirty)
         && (n in sh.committed && n in sh.stamp ==> sh'.committed[n] == sh.committed[n] && sh'.stamp[n] == sh.stamp[n]))
  }

  lemma UndecidedStable(sh: Shared, sh': Shared, d: Local, i: nat)
    requires SharedBase(sh) && UndecidedInv(sh, d, i) && Rely(sh, sh', d.news.Keys, d.held)
    ensures UndecidedInv(sh', d, i)
  {
    forall n | n in Writes(d) && Writes(d)[n].next.Some? ensures Visible(sh', d, Writes(d)[n].next.value) {
      assert Visible(sh, d, Writes(d)[n].next.value);
    }
  }

  lemma CleanStable(sh: Shared, sh': Shared, d: Local, i: nat)
    requires SharedBase(sh) && UndecidedInv(sh, d, i) && Rely(sh, sh', d.news.Keys, d.held) && Clean(sh', d)
    ensures Clean(sh, d)
  {
    forall n | n in d.snap ensures n in sh.stamp && sh.stamp[n] <= d.rv { assert n in sh.committed; }
  }

  /** A settled node looks as before. */
  lemma CellStable(sh: Shared, sh': Shared, d: Local, i: nat, n: Node)
    requires SharedBase(sh) && UndecidedInv(sh, d, i) && Rely(sh, sh', d.news.Keys, d.held)
    requires Visible(sh, d, n)
    ensures Visible(sh', d, n)
    ensures Settled(sh', d, n) ==> Settled(sh, d, n)
    ensures Settled(sh', d, n) ==> n in View(sh, d) && n in View(sh', d) && View(sh', d)[n] == View(sh, d)[n]
    ensures Quiet(sh, d, n) ==> Quiet(sh', d, n)
  {
    if n in sh.committed { assert NodeBase(sh, n); }
  }

  lemma ReadStable(sh: Shared, sh': Shared, d: Local, i: nat, p: Node)
    requires SharedBase(sh) && UndecidedInv(sh, d, i) && Rely(sh, sh', d.news.Keys, d.held) && p in d.rs
    ensures Clean(sh', d) ==> p in View(sh, d) && p in View(sh', d) && View(sh', d)[p] == View(sh, d)[p]
  {
    assert Visible(sh, d, p);
    CellStable(sh, sh', d, i, p);
  }

  // ---------------------------------------------------------------- program points inside an operation

  lemma PredStable(sh: Shared, sh': Shared, d: Local, i: nat, pp: PredPc)
    requires SharedBase(sh) && UndecidedInv(sh, d, i) && Rely(sh, sh', d.news.Keys, d.held) && PredInv(sh, d, pp)
    ensures PredInv(sh', d, pp)
  {
    if !pp.Pick? { CellStable(sh, sh', d, i, pp.p); }
  }

  lemma UnlinkStable(sh: Shared, sh': Shared, d: Local, i: nat, p: Node, q: Node)
    requires SharedBase(sh) && UndecidedInv(sh, d, i) && Rely(sh, sh', d.news.Keys, d.held) && UnlinkInv(sh, d, p, q)
    ensures UnlinkInv(sh', d, p, q)
  {
    CellStable(sh, sh', d, i, q);
    ReadStable(sh, sh', d, i, p);
    if Clean(sh', d) { CleanStable(sh, sh', d, i); }
  }

  lemma StandingStable(sh: Shared, sh': Shared, d: Local, i: nat, g: Goal, c: Node)
    requires SharedBase(sh) && UndecidedInv(sh, d, i) && Rely(sh, sh', d.news.Keys, d.held) && Standing(sh, d, g, c)
    ensures Standing(sh', d, g, c)
  {
    CellStable(sh, sh', d, i, c);
    if Clean(sh', d) { CleanStable(sh, sh', d, i); }
    if g.Unlink? { UnlinkStable(sh, sh', d, i, g.pred, g.target); }
  }

  lemma LinkStable(sh: Shared, sh': Shared, d: Local, i: nat, c: Node, nx: Option<Node>)
    requires SharedBase(sh) && UndecidedInv(sh, d, i) && Rely(sh, sh', d.news.Keys, d.held)
    requires LinkInv(sh, d, c, nx) && Visible(sh, d, c)
    ensures LinkInv(sh', d, c, nx)
    ensures nx.Some? && SuccLive(sh, d, nx.value) ==> SuccLive(sh', d, nx.value)
    ensures nx.Some? && Quiet(sh, d, nx.value) ==> Quiet(sh', d, nx.value)
  {
    CellStable(sh, sh', d, i, c);
    if nx.Some? { CellStable(sh, sh', d, i, nx.value); }
    if Clean(sh', d) { CleanStable(sh, sh', d, i); }
  }

  lemma NextStable(sh: Shared, sh': Shared, d: Local, i: nat, c: Node, np: NextPc)
    requires SharedBase(sh) && UndecidedInv(sh, d, i) && Rely(sh, sh', d.news.Keys, d.held)
    requires Visible(sh, d, c) && NextInv(sh, d, c, np)
    ensures NextInv(sh', d, c, np)
  {
    hide UndecidedInv, SharedBase, LinkInv, SuccLive, Visible;
    CellStable(sh, sh', d, i, c);
    match np
    case Recheck(nx) => LinkStable(sh, sh', d, i, c, nx);
    case Version(nx) => LinkStable(sh, sh', d, i, c, nx);
    case SuccLock(q) => LinkStable(sh, sh', d, i, c, Some(q));
    case SuccVersion(q) => LinkStable(sh, sh', d, i, c, Some(q));
    case Done(nx) => LinkStable(sh, sh', d, i, c, nx);
    case _ =>
  }

  lemma FinishStable(sh: Shared, sh': Shared, d: Local, i: nat, fp: FinishPc)
    requires SharedBase(sh) && UndecidedInv(sh, d, i) && Rely(sh, sh', d.news.Keys, d.held) && FinishInv(sh, d, fp)
    ensures FinishInv(sh', d, fp)
  {
    if Clean(sh', d) { CleanStable(sh, sh', d, i); }
    hide UndecidedInv, SharedBase, Clean, Rely, LinkInv, UnlinkInv;
    match fp
    case GetValue(p, q) => CellStable(sh, sh', d, i, q); ReadStable(sh, sh', d, i, p);
    case PutReturn(q) => ReadStable(sh, sh', d, i, q);
    case RemovePredVal(p, q, nx) =>
      UnlinkStable(sh, sh', d, i, p, q);
      LinkStable(sh, sh', d, i, q, nx) by { VisibleTarget(sh, d, p, q); }
    case RemoveVal(p, q, nx, _) =>
      UnlinkStable(sh, sh', d, i, p, q);
      LinkStable(sh, sh', d, i, q, nx) by { VisibleTarget(sh, d, p, q); }
  }

  lemma VisibleTarget(sh: Shared, d: Local, p: Node, q: Node)
    requires UnlinkInv(sh, d, p, q)
    ensures Visible(sh, d, q)
  {
  }

  // ---------------------------------------------------------------- all program points

  lemma RunningStable(sh: Shared, sh': Shared, x: Tx, i: nat)
    requires SharedBase(sh) && RunningInv(sh, x, i) && Rely(sh, sh', x.d.news.Keys, x.d.held)
    ensures RunningInv(sh', x, i)
  {
    UndecidedStable(sh, sh', x.d, i);
    if Clean(sh', x.d) { CleanStable(sh, sh', x.d, i); }
    hide UndecidedInv, SharedBase, Clean, Rely, Good, NextInv, FinishInv, PredInv;
    match x.pc
    case GettingPred(pp) => PredStable(sh, sh', x.d, i, pp);
    case GettingNext(g, c, np) => StandingStable(sh, sh', x.d, i, g, c); NextStable(sh, sh', x.d, i, c, np);
    case Finishing(fp) => FinishStable(sh, sh', x.d, i, fp);
    case _ =>
  }

  lemma TentativeStable(sh: Shared, sh': Shared, x: Tx, i: nat)
    requires SharedBase(sh) && TentativeInv(sh, x, i) && Rely(sh, sh', x.d.news.Keys, x.d.held)
    ensures TentativeInv(sh', x, i)
  {
    UndecidedStable(sh, sh', x.d, i);
    if Spoiled(sh, x) { SpoiledStable(sh, sh', x, i); }
    hide Good, Spoiled;
    forall n | Checked(x, n) && n in x.d.ws ensures n in sh'.stamp && sh'.stamp[n] <= x.d.rv {
      assert n in x.d.held && n in sh.committed;
    }
  }

  lemma SpoiledStable(sh: Shared, sh': Shared, x: Tx, i: nat)
    requires SharedBase(sh) && UndecidedInv(sh, x.d, i) && Rely(sh, sh', x.d.news.Keys, x.d.held) && Spoiled(sh, x)
    ensures Spoiled(sh', x)
  {
    if n :| n in x.d.todo && n in x.d.snap && n in sh.stamp && sh.stamp[n] > x.d.rv {
      assert n in sh.committed && n in sh'.stamp && sh'.stamp[n] > x.d.rv;
    }
  }

  lemma DecidedBaseStable(sh: Shared, sh': Shared, x: Tx, i: nat)
    requires SharedBase(sh) && DecidedBase(sh, x, i) && Rely(sh, sh', {}, x.d.held)
    ensures DecidedBase(sh', x, i)
  {
    hide NodeBase, SharedBase;
    assert sh.committed.Keys <= sh'.committed.Keys by { CommittedGrows(sh, sh', x.d.held); }
    if x.pc.WritingBack? {
      forall n | Unwritten(x.d, x.pc.wp, n) ensures UnwrittenInv(sh', x.d, n) { assert UnwrittenInv(sh, x.d, n); }
      assert LinkWritten(sh', x.d, x.pc.wp) by {
        if !x.pc.wp.PickNode? { assert UnwrittenInv(sh, x.d, x.pc.wp.n); }
      }
    }
  }

  lemma BitsStable(sh: Shared, sh': Shared, d: Local, wp: WritePc)
    requires WritingBase(sh, d, wp) && BitsInv(sh, d, wp) && Rely(sh, sh', {}, d.held)
    ensures BitsInv(sh', d, wp)
  {
    forall n | n in d.todo ensures n in sh'.mem && !sh'.mem[n].deleted { assert UnwrittenInv(sh, d, n); }
    if !wp.PickNode? { assert UnwrittenInv(sh, d, wp.n); }
  }

  lemma DecidedStable(sh: Shared, sh': Shared, x: Tx, i: nat)
    requires SharedBase(sh) && DecidedInv(sh, x, i) && Rely(sh, sh', {}, x.d.held)
    ensures DecidedInv(sh', x, i)
  {
    DecidedBaseStable(sh, sh', x, i);
    hide SharedBase, Good, WritingBase, BitsInv;
    if x.pc.WritingBack? { BitsStable(sh, sh', x.d, x.pc.wp); }
  }

  lemma CommittedGrows(sh: Shared, sh': Shared, held: set<Node>)
    requires SharedBase(sh) && Rely(sh, sh', {}, held)
    ensures sh.committed.Keys <= sh'.committed.Keys
  {
  }

  /** The nodes only this transaction can see. */
  function PrivateNodes(x: Tx): set<Node>
  {
    if x.pc == NotStarted || x.pc == Aborted || Decided(x.pc) then {} else x.d.news.Keys
  }

  lemma TxStable(sh: Shared, sh': Shared, x: Tx, i: nat)
    requires SharedBase(sh) && TxInv(sh, x, i) && Rely(sh, sh', PrivateNodes(x), x.d.held)
    ensures TxInv(sh', x, i)
  {
    hide SharedBase, UndecidedInv, Good, Rely, RunningInv, TentativeInv, DecidedInv;
    if x.pc == NotStarted || x.pc == Aborted {
    } else if Decided(x.pc) { DecidedStable(sh, sh', x, i); }
    else if Tentative(x.pc) { TentativeStable(sh, sh', x, i); }
    else if x.pc.Unlocking? { UndecidedStable(sh, sh', x.d, i); }
    else { RunningStable(sh, sh', x, i); }
  }

  // ---------------------------------------------------------------- the part that holds in every run

  lemma PredBaseStable(sh: Shared, sh': Shared, d: Local, i: nat, pp: PredPc)
    requires SharedBase(sh) && UndecidedInv(sh, d, i) && Rely(sh, sh', d.news.Keys, d.held) && PredBase(sh, d, pp)
    ensures PredBase(sh', d, pp)
  {
    if !pp.Pick? { CellStable(sh, sh', d, i, pp.p); }
  }

  lemma VisibleStable(sh: Shared, sh': Shared, d: Local, n: Node)
    requires SharedBase(sh) && Rely(sh, sh', d.news.Keys, d.held) && Visible(sh, d, n)
    ensures Visible(sh', d, n)
  {
    if n in sh.committed { assert NodeBase(sh, n); }
  }

  lemma NextBaseStable(sh: Shared, sh': Shared, d: Local, i: nat, c: Node, np: NextPc)
    requires SharedBase(sh) && UndecidedInv(sh, d, i) && Rely(sh, sh', d.news.Keys, d.held)
    requires Visible(sh, d, c) && NextBase(sh, d, c, np)
    ensures NextBase(sh', d, c, np)
  {
    hide UndecidedInv, SharedBase, Rely, Visible, Quiet;
    match np
    case Read => CellStable(sh, sh', d, i, c);
    case SuccLock(q) => VisibleStable(sh, sh', d, q);
    case SuccVersion(q) => VisibleStable(sh, sh', d, q);
    case Start =>
    case _ => if np.nx.Some? { VisibleStable(sh, sh', d, np.nx.value); }
  }

  lemma PcBaseStable(sh: Shared, sh': Shared, d: Local, i: nat, pc: Pc)
    requires SharedBase(sh) && UndecidedInv(sh, d, i) && Rely(sh, sh', d.news.Keys, d.held) && PcBase(sh, d, pc)
    ensures PcBase(sh', d, pc)
  {
    hide UndecidedInv, SharedBase, Rely, Visible, NextBase, PredBase;
    match pc
    case GettingPred(pp) => PredBaseStable(sh, sh', d, i, pp);
    case GettingNext(g, c, np) =>
      VisibleStable(sh, sh', d, c);
      NextBaseStable(sh, sh', d, i, c, np);
    case Finishing(fp) =>
      if fp.RemovePredVal? || fp.RemoveVal? {
        VisibleStable(sh, sh', d, fp.q);
        if fp.nx.Some? { VisibleStable(sh, sh', d, fp.nx.value); }
      }
    case _ =>
  }

  lemma TxBaseStable(sh: Shared, sh': Shared, x: Tx, i: nat)
    requires SharedBase(sh) && TxBase(sh, x, i) && Rely(sh, sh', PrivateNodes(x), x.d.held)
    ensures TxBase(sh', x, i)
  {
    hide SharedBase, UndecidedInv, Rely, DecidedBase, PcBase, PhaseInv;
    if x.pc == NotStarted || x.pc == Aborted {
    } else if Decided(x.pc) { DecidedBaseStable(sh, sh', x, i); }
    else {
      UndecidedStable(sh, sh', x.d, i);
      if !Tentative(x.pc) { PcBaseStable(sh, sh', x.d, i, x.pc); }
    }
  }

  // ---------------------------------------------------------------- steps that change one node in memory

  /** `m` replaces the contents of `n`; if `written`, the write-back of `n` is over. */
  function WithMem(sh: Shared, n: Node, m: MemNode, written: bool): Shared
  {
    sh.(mem := sh.mem[n := m], dirty := if written then sh.dirty - {n} else sh.dirty)
  }

  lemma OneNodeRely(sh: Shared, n: Node, m: MemNode, written: bool, news: set<Node>, held: set<Node>)
    requires n in sh.mem ==> sh.mem[n].version <= m.version
    requires n !in news && n !in held && news !! sh.committed.Keys
    ensures Rely(sh, WithMem(sh, n, m, written), news, held)
  {
  }

  lemma OneNodeBase(sh: Shared, n: Node, m: MemNode, written: bool)
    requires SharedBase(sh) && (n in sh.committed ==> NodeBase(WithMem(sh, n, m, written), n))
    ensures SharedBase(WithMem(sh, n, m, written))
  {
    var sh' := WithMem(sh, n, m, written);
    forall k | k in sh'.committed ensures NodeBase(sh', k) { assert NodeBase(sh, k); }
  }

  lemma OneNodeShared(sh: Shared, n: Node, m: MemNode, written: bool)
    requires SharedInv(sh) && (n in sh.committed ==> NodeInv(WithMem(sh, n, m, written), n))
    ensures SharedInv(WithMem(sh, n, m, written))
  {
    OneNodeBase(sh, n, m, written);
    hide WellFormed, SharedBase;
    var sh' := WithMem(sh, n, m, written);
    forall k | k in sh'.committed ensures NodeInv(sh', k) { assert NodeInv(sh, k); }
  }
}
