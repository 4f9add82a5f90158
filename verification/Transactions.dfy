/** Transactions over the list: TX.h and the transactional operations of datatypes/LinkedList.h.

    Each transaction is a process with a program counter. Every step performs at most one access to a
    word other transactions may write: one read of a lock bit, a version, a link or a value, one
    compare-and-swap of a lock word, one store during write-back. Steps of different transactions
    interleave freely.

    Components marked history are never read by the protocol. */
module Transactions {
  import opened Basics
  import opened ListHeap

  /** A node in memory. The lock bit is set exactly when `lock.Some?`; whose it is, is history. */
  datatype MemNode = MemNode(next: Option<Node>, has: bool, lock: Option<nat>, deleted: bool, version: nat)

  /** Shared memory. `committed`, `stamp` and `dirty` are history: the list with the writes of every
      transaction past its commit point applied, the write version of each node there, and the nodes
      whose committed contents have not all reached memory yet. */
  datatype Shared = Shared(
    mem: map<Node, MemNode>, gvc: nat,
    committed: Heap, stamp: map<Node, nat>, dirty: set<Node>)

  /** Why `getNext` is being called: by `find_node`, or by `remove` for the node it unlinks. */
  datatype Goal = Search | Unlink(pred: Node, target: Node)

  datatype PredPc = Pick(bound: nat) | CheckLock(p: Node) | CheckVersion(p: Node) | CheckDeleted(p: Node)

  datatype NextPc =
    | Start | Read
    | Recheck(nx: Option<Node>) | Version(nx: Option<Node>)
    | SuccLock(q: Node) | SuccVersion(q: Node)
    | Done(nx: Option<Node>)

  datatype FinishPc =
    | GetValue(p: Node, q: Node) | PutReturn(q: Node)
    | RemovePredVal(p: Node, q: Node, nx: Option<Node>) | RemoveVal(p: Node, q: Node, nx: Option<Node>, pv: bool)

  datatype WritePc = PickNode | Val(n: Node) | Deleted(n: Node) | Null(n: Node) | Stamp(n: Node)

  datatype Pc =
    | NotStarted
    | Ready
    | GettingPred(pp: PredPc)
    | GettingNext(g: Goal, c: Node, np: NextPc)
    | Finishing(fp: FinishPc)
    | Locking | LockCas(n: Node, version: nat, deleted: bool)
    | Validating | ValVersion(n: Node)
    | WritingBack(wp: WritePc)
    | Unlocking(ok: bool)
    | Committed | Aborted

  /** A transaction's thread-local state: write set, read set, `indexAdd` nodes, the nodes it locked and
      the nodes the current loop of `TXend` has still to visit. History: `snap`, the committed contents
      of each shared node when it entered the read set; `used`, the links of such nodes that operations
      took from memory and acted on; `stale`, whether an overwrite copied a link that was no longer the
      committed one; and `log`, the completed operations. */
  datatype Local = Local(
    rv: nat, wv: nat, readOnly: bool, kind: Kind, key: nat,
    ws: map<Node, Cell>, rs: set<Node>, news: map<Node, Cell>, held: set<Node>, todo: set<Node>,
    snap: Heap, used: set<(Node, Option<Node>)>, stale: bool, log: seq<Event>)

  datatype Tx = Tx(pc: Pc, d: Local)

  const NEW_TX: Tx := Tx(NotStarted, Local(0, 0, true, Get, 1, map[], {}, map[], {}, {}, map[], {}, false, []))

  /** Everything a transaction writes: the nodes it created, and its write set over them. */
  function Writes(d: Local): Heap { d.news + d.ws }

  // ---------------------------------------------------------------- operations: thread-local steps

  /** `readSet.emplace(n)`, by an operation that acts on the link `link` of `n`. */
  function AddRead(sh: Shared, d: Local, n: Node, link: Option<Node>): Local
  {
    var snap := if n in d.snap || n in d.news || n !in sh.committed then d.snap else d.snap[n := sh.committed[n]];
    d.(rs := d.rs + {n}, snap := snap, used := if n in snap && n !in d.ws then d.used + {(n, link)} else d.used)
  }

  /** The operation in progress returns. */
  function Logged(d: Local, result: bool): Local { d.(log := d.log + [Event(d.kind, d.key, result)]) }

  /** TXbegin, the choice of the next operation, or the call of TXend. */
  predicate StartStep(sh: Shared, x: Tx, x': Tx)
  {
    match x.pc
    case NotStarted => x' == Tx(Ready, x.d.(rv := sh.gvc))
    case Ready =>
      || x' == Tx(Locking, x.d.(todo := x.d.ws.Keys))
      || (MIN_KEY < x'.d.key && x'.pc == GettingPred(Pick(x'.d.key)) &&
          x'.d == x.d.(kind := x'.d.kind, key := x'.d.key, readOnly := x.d.readOnly && x'.d.kind == Get))
    case _ => false
  }

  /** LinkedList.getPred. The index may return any node that a committed transaction has published, as
      long as its key is below the bound; nothing else is assumed of it. */
  predicate PredStep(sh: Shared, d: Local, pp: PredPc, pc': Pc)
  {
    match pp
    case Pick(bound) =>
      && pc'.GettingPred? && pc'.pp.CheckLock?
      && pc'.pp.p in sh.committed && pc'.pp.p.key < bound
    case CheckLock(p) =>
      p in sh.mem && pc' == if sh.mem[p].lock.Some? then Aborted else GettingPred(CheckVersion(p))
    case CheckVersion(p) =>
      p in sh.mem &&
      pc' == if sh.mem[p].version > d.rv then Aborted
             else if p in d.ws && d.ws[p].dead then GettingPred(Pick(p.key))
             else GettingPred(CheckDeleted(p))
    case CheckDeleted(p) =>
      p in sh.mem &&
      pc' == if sh.mem[p].deleted then GettingPred(Pick(p.key)) else GettingNext(Search, p, Start)
  }

  /** LinkedList.getNext. A link found in the write set is returned without any check. */
  predicate NextStep(sh: Shared, d: Local, g: Goal, c: Node, np: NextPc, pc': Pc)
  {
    match np
    case Start =>
      if c in d.ws then pc' == GettingNext(g, c, Done(d.ws[c].next))
      else c in sh.mem && pc' == if sh.mem[c].lock.Some? then Aborted else GettingNext(g, c, Read)
    case Read => c in sh.mem && pc' == GettingNext(g, c, Recheck(sh.mem[c].next))
    case Recheck(nx) =>
      c in sh.mem && pc' == if sh.mem[c].lock.Some? then Aborted else GettingNext(g, c, Version(nx))
    case Version(nx) =>
      c in sh.mem &&
      pc' == if sh.mem[c].version > d.rv then Aborted
             else if nx.None? then GettingNext(g, c, Done(nx))
             else GettingNext(g, c, SuccLock(nx.value))
    case SuccLock(q) =>
      q in sh.mem && pc' == if sh.mem[q].lock.Some? then Aborted else GettingNext(g, c, SuccVersion(q))
    case SuccVersion(q) =>
      q in sh.mem && pc' == if sh.mem[q].version > d.rv then Aborted else GettingNext(g, c, Done(Some(q)))
    case Done(nx) =>
      // find_node goes on to the successor while its key is smaller
      && g == Search && nx.Some? && nx.value.key < d.key
      && pc' == GettingNext(Search, nx.value, Start)
  }

  /** `find_node` has found its place: `c` is the predecessor and `nx` its successor. */
  predicate Found(d: Local, g: Goal, nx: Option<Node>) { g == Search && (nx.Some? ==> d.key <= nx.value.key) }

  predicate Match(d: Local, nx: Option<Node>) { nx.Some? && nx.value.key == d.key }

  /** The rest of `get`. */
  predicate GetStep(sh: Shared, d: Local, c: Node, nx: Option<Node>, x': Tx)
  {
    var d1 := AddRead(sh, d, c, nx);
    d.kind == Get &&
    x' == if !Match(d, nx) then Tx(Ready, Logged(d1, false))
          else if nx.value in d.ws then Tx(Ready, Logged(d1, d.ws[nx.value].has))
          else Tx(Finishing(GetValue(c, nx.value)), d1)
  }

  /** `put` on a found key: keep the link, install the value. Outside the write set the link is copied
      straight from memory. */
  predicate OverwriteStep(sh: Shared, d: Local, nx: Option<Node>, x': Tx)
  {
    && d.kind == Put && Match(d, nx) && nx.value in sh.mem
    && x' == Tx(Finishing(PutReturn(nx.value)), Overwritten(sh, d, nx.value))
  }

  function Overwritten(sh: Shared, d: Local, q: Node): Local
    requires q in sh.mem
  {
    var next := if q in d.ws then d.ws[q].next else sh.mem[q].next;
    var dead := q in d.ws && d.ws[q].dead;
    AddRead(sh, d, q, next).(ws := d.ws[q := Cell(next, dead, true)], stale := d.stale || StaleCopy(sh, d, q))
  }

  /** Memory does not hold the link of `q` that has been committed with a version up to the read version. */
  predicate StaleCopy(sh: Shared, d: Local, q: Node)
    requires q in sh.mem
  {
    q !in d.ws && q in sh.committed && q in sh.stamp && sh.stamp[q] <= d.rv && sh.committed[q].next != sh.mem[q].next
  }

  /** The first half of `remove`. */
  predicate RemoveStep(sh: Shared, d: Local, c: Node, nx: Option<Node>, x': Tx)
  {
    var d1 := AddRead(sh, d, c, nx);
    d.kind == Remove &&
    x' == if Match(d, nx) then Tx(GettingNext(Unlink(c, nx.value), nx.value, Start), d1)
          else Tx(Ready, Logged(d1, false))
  }

  /** `remove` has the link of the node it unlinks. */
  predicate UnlinkStep(d: Local, g: Goal, nx: Option<Node>, x': Tx)
  {
    && g.Unlink?
    && x' == Tx(Finishing(if g.pred in d.ws then RemoveVal(g.pred, g.target, nx, d.ws[g.pred].has)
                          else RemovePredVal(g.pred, g.target, nx)), d)
  }

  function Removed(sh: Shared, d: Local, p: Node, q: Node, nx: Option<Node>, pv: bool): Local
    requires q in sh.mem
  {
    var qv := if q in d.ws then d.ws[q].has else sh.mem[q].has;
    Logged(AddRead(sh, d, q, nx).(ws := d.ws[p := Cell(nx, false, pv)][q := Cell(None, true, qv)]), qv)
  }

  /** The value reads that end an operation. */
  predicate FinishStep(sh: Shared, d: Local, fp: FinishPc, x': Tx)
  {
    match fp
    case GetValue(p, q) => q in sh.mem && x' == Tx(Ready, Logged(d, sh.mem[q].has))
    case PutReturn(q) => q in sh.mem && x' == Tx(Ready, Logged(d, sh.mem[q].has))
    case RemovePredVal(p, q, nx) => p in sh.mem && x' == Tx(Finishing(RemoveVal(p, q, nx, sh.mem[p].has)), d)
    case RemoveVal(p, q, nx, pv) => q in sh.mem && x' == Tx(Ready, Removed(sh, d, p, q, nx, pv))
  }

  // ---------------------------------------------------------------- put on a missing key

  /** A new node is allocated; its memory is private until the transaction commits. */
  ghost predicate InsertStep(sh: Shared, x: Tx, sh': Shared, x': Tx)
  {
    && x.pc.GettingNext? && x.pc.np.Done? && x.d.kind == Put
    && Found(x.d, x.pc.g, x.pc.np.nx) && !Match(x.d, x.pc.np.nx)
    && x.pc.c in sh.mem
    && exists n: Node ::
         && n.key == x.d.key && n !in sh.mem
         && sh' == sh.(mem := sh.mem[n := MemNode(x.pc.np.nx, true, None, false, 0)])
         && x' == Tx(Ready, InsertedLocal(sh, x.d, x.pc.c, x.pc.np.nx, n))
  }

  function InsertedLocal(sh: Shared, d: Local, c: Node, nx: Option<Node>, n: Node): Local
    requires c in sh.mem
  {
    var pv := if c in d.ws then d.ws[c].has else sh.mem[c].has;
    Logged(AddRead(sh, d, c, nx).(news := d.news[n := Cell(nx, false, true)], ws := d.ws[c := Cell(Some(n), false, pv)]),
           false)
  }

  // ---------------------------------------------------------------- TXend: thread-local steps

  /** The lock word still is the one that was read, with the lock bit clear. */
  predicate CasSucceeds(sh: Shared, n: Node, version: nat, deleted: bool)
  {
    n in sh.mem && sh.mem[n].lock.None? && sh.mem[n].version == version && sh.mem[n].deleted == deleted
  }

  /** Reading a lock word before the compare-and-swap, a failed attempt, the two reads that validate a
      read-set node, and a finished transaction's return. */
  ghost predicate CommitLocalStep(sh: Shared, x: Tx, x': Tx)
  {
    match x.pc
    case Locking =>
      exists n :: n in x.d.todo && n in sh.mem &&
        x' == if sh.mem[n].lock.Some? then Tx(Unlocking(false), x.d)
              else Tx(LockCas(n, sh.mem[n].version, sh.mem[n].deleted), x.d)
    case LockCas(n, version, deleted) =>
      n in sh.mem && !CasSucceeds(sh, n, version, deleted) && x' == Tx(Unlocking(false), x.d)
    case Validating =>
      exists n :: n in x.d.todo && n in sh.mem && (n in x.d.held || sh.mem[n].lock.None?) &&
        x' == Tx(ValVersion(n), x.d.(todo := x.d.todo - {n}))
    case ValVersion(n) => n in sh.mem && sh.mem[n].version <= x.d.rv && x' == Tx(Validating, x.d)
    case WritingBack(wp) => wp.PickNode? && x.d.todo == {} && x' == Tx(Unlocking(true), x.d)
    case Unlocking(ok) => x.d.held == {} && x' == Tx(if ok then Committed else Aborted, x.d)
    case _ => false
  }

  // ---------------------------------------------------------------- TXend: steps on shared memory

  predicate LockStep(sh: Shared, x: Tx, i: nat, sh': Shared, x': Tx)
  {
    && x.pc.LockCas? && CasSucceeds(sh, x.pc.n, x.pc.version, x.pc.deleted)
    && sh' == sh.(mem := sh.mem[x.pc.n := sh.mem[x.pc.n].(lock := Some(i))])
    && x' == Tx(Locking, x.d.(held := x.d.held + {x.pc.n}, todo := x.d.todo - {x.pc.n}))
  }

  /** A read-set node is locked by another transaction, or too new. */
  ghost predicate ValidationFails(sh: Shared, x: Tx)
  {
    || (x.pc.Validating? && exists n :: n in x.d.todo && n !in x.d.held && n in sh.mem && sh.mem[n].lock.Some?)
    || (x.pc.ValVersion? && x.pc.n in sh.mem && sh.mem[x.pc.n].version > x.d.rv)
  }

  /** The commit point: validation is over; a writer increments the global version clock. */
  predicate CommitStep(sh: Shared, x: Tx, sh': Shared, x': Tx)
  {
    && x.pc == Validating && x.d.todo == {}
    && x' == (if x.d.readOnly then Tx(Unlocking(true), x.d)
              else Tx(WritingBack(PickNode), x.d.(wv := sh.gvc + 1, todo := x.d.ws.Keys)))
    && sh' == Shared(
         sh.mem, if x.d.readOnly then sh.gvc else sh.gvc + 1,
         sh.committed + Writes(x.d),
         sh.stamp + (map n | n in x.d.news :: 0) + (map n | n in x.d.ws :: sh.gvc + 1),
         sh.dirty + x.d.ws.Keys)
  }

  /** Write-back of one node: link, value, deleted bit and null value if removed, version. */
  ghost predicate WriteBackStep(sh: Shared, d: Local, wp: WritePc, sh': Shared, x': Tx)
  {
    match wp
    case PickNode =>
      exists n :: n in d.todo && n in d.ws && n in sh.mem &&
        x' == Tx(WritingBack(Val(n)), d.(todo := d.todo - {n})) &&
        sh' == sh.(mem := sh.mem[n := sh.mem[n].(next := d.ws[n].next)])
    case Val(n) =>
      n in d.ws && n in sh.mem &&
      x' == Tx(WritingBack(if d.ws[n].dead then Deleted(n) else Stamp(n)), d) &&
      sh' == sh.(mem := sh.mem[n := sh.mem[n].(has := d.ws[n].has)])
    case Deleted(n) =>
      n in sh.mem && x' == Tx(WritingBack(Null(n)), d) && sh' == sh.(mem := sh.mem[n := sh.mem[n].(deleted := true)])
    case Null(n) =>
      n in sh.mem && x' == Tx(WritingBack(Stamp(n)), d) && sh' == sh.(mem := sh.mem[n := sh.mem[n].(has := false)])
    case Stamp(n) =>
      n in sh.mem && x' == Tx(WritingBack(PickNode), d) &&
      sh' == sh.(mem := sh.mem[n := sh.mem[n].(version := d.wv)], dirty := sh.dirty - {n})
  }

  ghost predicate UnlockStep(sh: Shared, x: Tx, sh': Shared, x': Tx)
  {
    && x.pc.Unlocking?
    && exists n :: n in x.d.held && n in sh.mem &&
         sh' == sh.(mem := sh.mem[n := sh.mem[n].(lock := None)]) && x' == Tx(x.pc, x.d.(held := x.d.held - {n}))
  }

  // ---------------------------------------------------------------- the machine

  /** `order` and `heaps` are history. `order` lists the transactions that hold all their write-set locks
      or held them and committed, by the instant they got the last one; `heaps[k]` is the initial list
      with the writes of the committed ones among the first `k` applied. */
  datatype State = State(sh: Shared, txs: seq<Tx>, order: seq<nat>, heaps: seq<Heap>)

  /** Past the commit point. */
  predicate Decided(pc: Pc) { pc.WritingBack? || pc.Committed? || (pc.Unlocking? && pc.ok) }

  /** Holding all its locks and still validating. */
  predicate Tentative(pc: Pc) { pc.Validating? || pc.ValVersion? }

  predicate InOrder(pc: Pc) { Tentative(pc) || Decided(pc) }

  /** Inside an operation, steps that only read memory and move on. */
  predicate ReadStep(sh: Shared, x: Tx, x': Tx)
  {
    && x'.d == x.d
    && match x.pc
       case GettingPred(pp) => PredStep(sh, x.d, pp, x'.pc)
       case GettingNext(g, c, np) => NextStep(sh, x.d, g, c, np, x'.pc)
       case _ => false
  }

  /** Inside an operation, steps that act on what was found. */
  predicate ActStep(sh: Shared, x: Tx, x': Tx)
  {
    match x.pc
    case GettingNext(g, c, np) =>
      np.Done? &&
      ((Found(x.d, g, np.nx) && (GetStep(sh, x.d, c, np.nx, x') || OverwriteStep(sh, x.d, np.nx, x') || RemoveStep(sh, x.d, c, np.nx, x')))
       || UnlinkStep(x.d, g, np.nx, x'))
    case Finishing(fp) => FinishStep(sh, x.d, fp, x')
    case _ => false
  }

  /** Steps that leave shared memory, `order` and `heaps` alone. */
  ghost predicate LocalStep(sh: Shared, x: Tx, x': Tx)
  {
    StartStep(sh, x, x') || ReadStep(sh, x, x') || ActStep(sh, x, x') || CommitLocalStep(sh, x, x')
  }

  /** Steps that change a node in memory, or allocate one. */
  ghost predicate MemoryStep(sh: Shared, x: Tx, i: nat, sh': Shared, x': Tx)
  {
    || InsertStep(sh, x, sh', x') || LockStep(sh, x, i, sh', x') || UnlockStep(sh, x, sh', x')
    || (x.pc.WritingBack? && WriteBackStep(sh, x.d, x.pc.wp, sh', x'))
  }

  ghost predicate AcquiredStep(s: State, i: nat, s': State)
    requires i < |s.txs|
  {
    var x := s.txs[i];
    && x.pc == Locking && x.d.todo == {}
    && s' == State(s.sh, s.txs[i := Tx(Validating, x.d.(todo := x.d.rs))], s.order + [i], s.heaps + [s.sh.committed])
  }

  function Without<T>(xs: seq<T>, k: nat): seq<T>
    requires k < |xs|
  {
    xs[..k] + xs[k + 1..]
  }

  ghost predicate ValidationFailStep(s: State, i: nat, s': State)
    requires i < |s.txs|
  {
    && ValidationFails(s.sh, s.txs[i])
    && exists p: nat :: p < |s.order| < |s.heaps| && s.order[p] == i
         && s' == State(s.sh, s.txs[i := Tx(Unlocking(false), s.txs[i].d)], Without(s.order, p), Without(s.heaps, p))
  }

  /** The heaps after the committing transaction's place in the order gain its writes. */
  function WithWrites(heaps: seq<Heap>, p: nat, w: Heap): seq<Heap>
  {
    seq(|heaps|, k requires 0 <= k < |heaps| => if k <= p then heaps[k] else heaps[k] + w)
  }

  ghost predicate CommitPointStep(s: State, i: nat, s': State)
    requires i < |s.txs| == |s'.txs|
  {
    && CommitStep(s.sh, s.txs[i], s'.sh, s'.txs[i])
    && exists p: nat :: p < |s.order| && s.order[p] == i
         && s' == State(s'.sh, s.txs[i := s'.txs[i]], s.order, WithWrites(s.heaps, p, Writes(s.txs[i].d)))
  }

  ghost predicate TxStep(s: State, i: nat, s': State)
    requires i < |s.txs| == |s'.txs|
  {
    var x, x' := s.txs[i], s'.txs[i];
    || (LocalStep(s.sh, x, x') && s' == s.(txs := s.txs[i := x']))
    || (MemoryStep(s.sh, x, i, s'.sh, x') && s' == s.(txs := s.txs[i := x'], sh := s'.sh))
    || AcquiredStep(s, i, s') || ValidationFailStep(s, i, s') || CommitPointStep(s, i, s')
  }

  ghost predicate Next(s: State, s': State)
  {
    exists i: nat :: i < |s.txs| == |s'.txs| && TxStep(s, i, s')
  }

  /** A node is in memory as its committed contents say. */
  predicate Matches(m: MemNode, c: Cell, version: nat)
  {
    m.next == c.next && m.deleted == c.dead && m.has == (c.has && !c.dead) && m.version == version
  }

  /** Any well-formed list, unlocked, with versions up to the clock; no transaction has begun. */
  ghost predicate Init(s: State)
  {
    && WellFormed(s.sh.committed) && s.sh.mem.Keys == s.sh.committed.Keys == s.sh.stamp.Keys && s.sh.dirty == {}
    && (forall n :: n in s.sh.mem ==>
         && s.sh.mem[n].lock.None? && s.sh.stamp[n] <= s.sh.gvc
         && Matches(s.sh.mem[n], s.sh.committed[n], s.sh.stamp[n])
         && (s.sh.mem[n].next.Some? ==> s.sh.mem[n].next.value in s.sh.mem))
    && (forall i :: 0 <= i < |s.txs| ==> s.txs[i] == NEW_TX)
    && s.order == [] && s.heaps == [s.sh.committed]
  }
}
