/** The invariant of one transaction against shared memory, for every program point. */
module TxInvariant {
  import opened Basics
  import opened ListHeap
  import opened Transactions

  predicate Agrees(h: Heap, snap: Heap)
  {
    forall n :: n in snap ==> n in h && h[n] == snap[n]
  }

  // ---------------------------------------------------------------- shared memory

  /** Links, versions and lock bits: what holds of a committed node in every run. */
  predicate NodeBase(sh: Shared, n: Node)
  {
    && n in sh.committed && n in sh.stamp && n in sh.mem
    && sh.stamp[n] <= sh.gvc && sh.mem[n].version <= sh.stamp[n]
    && (sh.mem[n].next.Some? ==> sh.mem[n].next.value in sh.committed)
    && (sh.committed[n].next.Some? ==> sh.committed[n].next.value in sh.committed)
    && (n in sh.dirty ==> sh.mem[n].lock.Some?)
    && (n !in sh.dirty ==> sh.mem[n].next == sh.committed[n].next && sh.mem[n].version == sh.stamp[n])
  }

  ghost predicate SharedBase(sh: Shared)
  {
    && sh.committed.Keys == sh.stamp.Keys
    && (forall n {:trigger NodeBase(sh, n)} :: n in sh.committed ==> NodeBase(sh, n))
    && sh.dirty <= sh.committed.Keys
  }

  /** ... and what holds of its value and deleted flag as long as the committed list is well-formed. */
  predicate NodeInv(sh: Shared, n: Node)
  {
    && NodeBase(sh, n)
    && (Live(sh.committed, n) ==> sh.mem[n].has)
    && (n !in sh.dirty ==> Matches(sh.mem[n], sh.committed[n], sh.stamp[n]))
  }

  ghost predicate SharedInv(sh: Shared)
  {
    && SharedBase(sh)
    && WellFormed(sh.committed)
    && (forall n {:trigger NodeInv(sh, n)} :: n in sh.committed ==> NodeInv(sh, n))
  }

  // ---------------------------------------------------------------- what a transaction has established

  /** The list as the transaction sees it: committed contents under its own writes. */
  function View(sh: Shared, d: Local): Heap { sh.committed + Writes(d) }

  /** No transaction with a write version above the read version has committed a write to a node of the
      read set. A transaction for which this fails cannot pass validation. */
  predicate Current(sh: Shared, d: Local)
  {
    forall n :: n in d.snap ==> n in sh.stamp && sh.stamp[n] <= d.rv
  }

  /** ... nor has the transaction copied a stale link. */
  predicate Clean(sh: Shared, d: Local) { Current(sh, d) && !d.stale }

  predicate Visible(sh: Shared, d: Local, n: Node) { n in sh.committed || n in d.news }

  /** The committed contents of `n` are no newer than the read version. */
  predicate Settled(sh: Shared, d: Local, n: Node)
  {
    n in d.news || (n in sh.stamp && sh.stamp[n] <= d.rv)
  }

  /** The node was seen unlocked: if settled, its committed contents have reached memory. */
  predicate Quiet(sh: Shared, d: Local, n: Node)
  {
    n in d.news || (n in sh.stamp && (sh.stamp[n] <= d.rv ==> n !in sh.dirty))
  }

  /** On every well-formed list that holds what the transaction read, its writes give a well-formed list
      again, and its results and their effect are those of its operations run on a set of keys. */
  ghost predicate CorrectOn(d: Local, h: Heap)
  {
    WellFormed(h) && Agrees(h, d.snap) && h.Keys !! d.news.Keys ==>
      && WellFormed(h + Writes(d))
      && Explains(Keys(h), d.log)
      && After(Keys(h), d.log) == Keys(h + Writes(d))
  }

  /** The links taken from memory are the committed ones. */
  predicate UsedInv(d: Local)
  {
    forall u :: u in d.used ==> u.0 in d.snap && d.snap[u.0].next == u.1
  }

  ghost predicate Good(d: Local)
  {
    && (forall n :: n in d.snap ==> !d.snap[n].dead)
    && UsedInv(d)
    && (forall h: Heap {:trigger CorrectOn(d, h)} :: CorrectOn(d, h))
  }

  predicate NewsInv(sh: Shared, d: Local)
  {
    forall n :: n in d.news ==>
      && n in sh.mem && n !in sh.committed && n.key != MIN_KEY
      && Matches(sh.mem[n], d.news[n], 0) && d.news[n].has && !d.news[n].dead
      && (d.news[n].next.Some? ==> Visible(sh, d, d.news[n].next.value))
  }

  predicate SnapInv(sh: Shared, d: Local)
  {
    forall n :: n in d.snap ==>
      n in sh.committed && n in sh.stamp && n !in d.news && (sh.stamp[n] <= d.rv ==> sh.committed[n] == d.snap[n])
  }

  predicate PointerInv(sh: Shared, d: Local)
  {
    forall n :: n in Writes(d) && Writes(d)[n].next.Some? ==> Visible(sh, d, Writes(d)[n].next.value)
  }

  predicate SetsInv(d: Local)
  {
    && d.snap.Keys <= d.rs <= d.snap.Keys + d.news.Keys
    && d.ws.Keys <= d.rs
    && (d.readOnly ==> d.ws == map[] && d.news == map[])
  }

  predicate HeldInv(sh: Shared, d: Local, i: nat)
  {
    d.held <= d.ws.Keys && forall n :: n in d.held ==> n in sh.mem && sh.mem[n].lock == Some(i)
  }

  /** Holds from TXbegin up to the commit point. */
  predicate UndecidedInv(sh: Shared, d: Local, i: nat)
  {
    && d.rv <= sh.gvc
    && SetsInv(d)
    && PointerInv(sh, d)
    && SnapInv(sh, d)
    && NewsInv(sh, d)
    && HeldInv(sh, d, i)
    && d.held !! sh.dirty
  }

  // ---------------------------------------------------------------- program points, in every run

  predicate PredBase(sh: Shared, d: Local, pp: PredPc)
  {
    pp.Pick? || (pp.p in sh.committed && (pp.CheckLock? || Quiet(sh, d, pp.p)))
  }

  predicate GoalBase(sh: Shared, d: Local, g: Goal, c: Node)
  {
    g.Unlink? ==> c == g.target && d.kind == Remove && g.pred in d.rs && Visible(sh, d, g.target)
  }

  predicate NextBase(sh: Shared, d: Local, c: Node, np: NextPc)
  {
    match np
    case Start => true
    case Read => Quiet(sh, d, c)
    case SuccLock(q) => Visible(sh, d, q)
    case SuccVersion(q) => Visible(sh, d, q)
    case _ => np.nx.Some? ==> Visible(sh, d, np.nx.value)
  }

  predicate FinishBase(sh: Shared, d: Local, fp: FinishPc)
  {
    (fp.RemovePredVal? || fp.RemoveVal? ==>
      d.kind == Remove && fp.p in d.rs && Visible(sh, d, fp.q) && (fp.nx.Some? ==> Visible(sh, d, fp.nx.value)))
  }

  /** The nodes a transaction holds pointers to are published or its own; where it relies on having seen one
      unlocked, that is so. */
  predicate PcBase(sh: Shared, d: Local, pc: Pc)
  {
    match pc
    case GettingPred(pp) => PredBase(sh, d, pp)
    case GettingNext(g, c, np) => Visible(sh, d, c) && GoalBase(sh, d, g, c) && NextBase(sh, d, c, np)
    case Finishing(fp) => FinishBase(sh, d, fp)
    case LockCas(n, _, _) => n in d.todo
    case _ => true
  }

  // ---------------------------------------------------------------- program points of a transaction that may commit

  predicate PredInv(sh: Shared, d: Local, pp: PredPc)
  {
    match pp
    case Pick(b) => b <= d.key
    case CheckLock(p) => p in sh.committed && p.key < d.key
    case CheckVersion(p) => p in sh.committed && p.key < d.key && Quiet(sh, d, p)
    case CheckDeleted(p) => p in sh.committed && p.key < d.key && Quiet(sh, d, p) && (p in d.ws ==> !d.ws[p].dead)
  }

  predicate UnlinkInv(sh: Shared, d: Local, p: Node, q: Node)
  {
    && d.kind == Remove && p.key < d.key == q.key && p in d.rs
    && Visible(sh, d, q)
    && (Clean(sh, d) ==> Live(View(sh, d), p) && View(sh, d)[p].next == Some(q))
  }

  /** `c` is a node the traversal may stand on. */
  predicate Standing(sh: Shared, d: Local, g: Goal, c: Node)
  {
    && Visible(sh, d, c)
    && (Clean(sh, d) && Settled(sh, d, c) ==> Live(View(sh, d), c))
    && (g.Search? ==> c.key < d.key)
    && (g.Unlink? ==> c == g.target && UnlinkInv(sh, d, g.pred, g.target))
  }

  predicate SuccLive(sh: Shared, d: Local, q: Node)
  {
    Clean(sh, d) && Settled(sh, d, q) ==> Live(View(sh, d), q)
  }

  /** `nx` is the link of `c`, as far as `c` is settled. */
  predicate LinkInv(sh: Shared, d: Local, c: Node, nx: Option<Node>)
  {
    && (nx.Some? ==> Visible(sh, d, nx.value))
    && (Clean(sh, d) && Settled(sh, d, c) ==> c in View(sh, d) && View(sh, d)[c].next == nx)
  }

  predicate NextInv(sh: Shared, d: Local, c: Node, np: NextPc)
  {
    match np
    case Start => true
    case Read => c !in d.ws && Quiet(sh, d, c)
    case Recheck(nx) =>
      c !in d.ws && LinkInv(sh, d, c, nx) && (nx.Some? ==> SuccLive(sh, d, nx.value) || !Settled(sh, d, c))
    case Version(nx) =>
      && c !in d.ws && LinkInv(sh, d, c, nx)
      && (nx.Some? ==> SuccLive(sh, d, nx.value) || (c in sh.mem && sh.mem[c].version > d.rv))
    case SuccLock(q) => c !in d.ws && LinkInv(sh, d, c, Some(q)) && SuccLive(sh, d, q)
    case SuccVersion(q) => c !in d.ws && LinkInv(sh, d, c, Some(q)) && SuccLive(sh, d, q) && Quiet(sh, d, q)
    case Done(nx) =>
      && LinkInv(sh, d, c, nx)
      && (nx.Some? ==> SuccLive(sh, d, nx.value) && (c !in d.ws ==> Quiet(sh, d, nx.value)))
  }

  predicate FinishInv(sh: Shared, d: Local, fp: FinishPc)
  {
    match fp
    case GetValue(p, q) =>
      && d.kind == Get && p.key < d.key == q.key && p in d.rs && q !in d.ws && Visible(sh, d, q)
      && (Clean(sh, d) ==> Live(View(sh, d), p) && View(sh, d)[p].next == Some(q))
    case PutReturn(q) => d.kind == Put && q.key == d.key && q in d.rs && (Clean(sh, d) ==> Live(View(sh, d), q))
    case RemovePredVal(p, q, nx) => UnlinkInv(sh, d, p, q) && LinkInv(sh, d, q, nx) && p !in d.ws
    case RemoveVal(p, q, nx, pv) => UnlinkInv(sh, d, p, q) && LinkInv(sh, d, q, nx) && (Clean(sh, d) ==> pv)
  }

  predicate PcInv(sh: Shared, d: Local, pc: Pc)
  {
    match pc
    case GettingPred(pp) => PredInv(sh, d, pp)
    case GettingNext(g, c, np) => Standing(sh, d, g, c) && NextInv(sh, d, c, np)
    case Finishing(fp) => FinishInv(sh, d, fp)
    case LockCas(n, _, _) => n in d.todo
    case _ => true
  }

  predicate InOperation(pc: Pc) { pc.GettingPred? || pc.GettingNext? || pc.Finishing? }

  predicate PhaseInv(d: Local, pc: Pc)
  {
    && (pc.Ready? || InOperation(pc) ==> d.held == {})
    && (pc.Locking? || pc.LockCas? ==> d.held + d.todo == d.ws.Keys && d.held !! d.todo)
    && (InOperation(pc) ==> MIN_KEY < d.key && (d.kind != Get ==> !d.readOnly))
  }

  /** Before the transaction holds all its locks. */
  ghost predicate RunningInv(sh: Shared, x: Tx, i: nat)
  {
    && UndecidedInv(sh, x.d, i)
    && (Clean(sh, x.d) ==> Good(x.d))
    && PcInv(sh, x.d, x.pc)
    && PhaseInv(x.d, x.pc)
  }

  /** A node that will make validation fail. */
  ghost predicate Spoiled(sh: Shared, x: Tx)
  {
    || (exists n :: n in x.d.todo && n in x.d.snap && n in sh.stamp && sh.stamp[n] > x.d.rv)
    || (x.pc.ValVersion? && x.pc.n in x.d.snap && x.pc.n in sh.mem && sh.mem[x.pc.n].version > x.d.rv)
  }

  /** The part of the read set that has passed validation. */
  predicate Checked(x: Tx, n: Node)
  {
    n in x.d.snap && n !in x.d.todo && !(x.pc.ValVersion? && x.pc.n == n)
  }

  predicate TentativeBase(sh: Shared, x: Tx, i: nat)
  {
    && UndecidedInv(sh, x.d, i)
    && x.d.held == x.d.ws.Keys
    && x.d.todo <= x.d.rs
    && (x.pc.ValVersion? ==> x.pc.n in x.d.rs && x.pc.n !in x.d.todo)
  }

  ghost predicate TentativeInv(sh: Shared, x: Tx, i: nat)
  {
    && TentativeBase(sh, x, i)
    && (Good(x.d) || Spoiled(sh, x) || x.d.stale)
    // what has been validated and is locked by this transaction cannot change any more
    && (forall n :: Checked(x, n) && n in x.d.ws ==> n in sh.stamp && sh.stamp[n] <= x.d.rv)
  }

  /** The node being written back, if any, and those still to come. */
  predicate Unwritten(d: Local, wp: WritePc, n: Node) { n in d.todo || (!wp.PickNode? && wp.n == n) }

  predicate UnwrittenInv(sh: Shared, d: Local, n: Node)
  {
    && n in d.ws && n in d.held && n in sh.dirty && n in sh.committed && n in sh.stamp && n in sh.mem
    && sh.committed[n] == d.ws[n] && sh.stamp[n] == d.wv
  }

  predicate LinkWritten(sh: Shared, d: Local, wp: WritePc)
  {
    wp.PickNode? || (wp.n in sh.mem && wp.n in d.ws && wp.n !in d.todo && sh.mem[wp.n].next == d.ws[wp.n].next)
  }

  ghost predicate WritingBase(sh: Shared, d: Local, wp: WritePc)
  {
    && (forall n {:trigger UnwrittenInv(sh, d, n)} :: Unwritten(d, wp, n) ==> UnwrittenInv(sh, d, n))
    && (forall n :: n in d.held && n in sh.dirty ==> Unwritten(d, wp, n))
    && LinkWritten(sh, d, wp)
  }

  /** How far the write-back of the current node has come. */
  predicate WriteBackInv(sh: Shared, d: Local, wp: WritePc)
  {
    wp.PickNode? ||
    (wp.n in sh.mem && wp.n in d.ws &&
     match wp
     case Val(n) => !sh.mem[n].deleted
     case Deleted(n) => d.ws[n].dead
     case Null(n) => d.ws[n].dead && sh.mem[n].deleted
     case Stamp(n) => sh.mem[n].deleted == d.ws[n].dead && sh.mem[n].has == (d.ws[n].has && !d.ws[n].dead)
     case PickNode => true)
  }

  /** The values and deleted bits of what is still to be written. */
  predicate BitsInv(sh: Shared, d: Local, wp: WritePc)
  {
    && (forall n :: n in d.todo ==> n in sh.mem && !sh.mem[n].deleted)
    && WriteBackInv(sh, d, wp)
  }

  ghost predicate DecidedBase(sh: Shared, x: Tx, i: nat)
  {
    && Writes(x.d).Keys <= sh.committed.Keys && x.d.snap.Keys <= sh.committed.Keys
    && HeldInv(sh, x.d, i)
    && (x.pc.WritingBack? ==> WritingBase(sh, x.d, x.pc.wp))
    && (x.pc.Unlocking? ==> x.d.held !! sh.dirty)
    && (x.pc.Committed? ==> x.d.held == {})
  }

  ghost predicate DecidedInv(sh: Shared, x: Tx, i: nat)
  {
    && Good(x.d)
    && DecidedBase(sh, x, i)
    && (x.pc.WritingBack? ==> BitsInv(sh, x.d, x.pc.wp))
  }

  /** What holds of a transaction in every run. */
  ghost predicate TxBase(sh: Shared, x: Tx, i: nat)
  {
    if x.pc == NotStarted then x == NEW_TX
    else if x.pc == Aborted then x.d.held == {}
    else if Decided(x.pc) then DecidedBase(sh, x, i)
    else if Tentative(x.pc) then TentativeBase(sh, x, i)
    else UndecidedInv(sh, x.d, i) && PcBase(sh, x.d, x.pc) && PhaseInv(x.d, x.pc)
  }

  /** ... and as long as no transaction has committed with a stale link. */
  ghost predicate TxInv(sh: Shared, x: Tx, i: nat)
  {
    if x.pc == NotStarted then x == NEW_TX
    else if x.pc == Aborted then x.d.held == {}
    else if Decided(x.pc) then DecidedInv(sh, x, i)
    else if Tentative(x.pc) then TentativeInv(sh, x, i)
    else if x.pc.Unlocking? then UndecidedInv(sh, x.d, i)
    else RunningInv(sh, x, i)
  }
}
