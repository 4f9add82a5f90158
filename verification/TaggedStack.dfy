/** The shared stack of blocks of common/recordmgr/lockfreeblockbag.h: a linked stack whose head carries a
    version tag that every successful double-wide compare-and-swap increments.

    Each step makes one access to shared memory. `compare_exchange_weak` may fail for no reason. Blocks are
    never deallocated while the bag exists. Components marked history are never read. */
module TaggedStack {
  import opened Basics

  type Block = nat

  datatype Head = Head(ptr: Option<Block>, tag: nat)

  datatype Event = Push(b: Block) | Pop(b: Block) | FoundEmpty

  datatype Pc =
    | Idle
    | GetLoad | GetNext(exp: Head) | GetCas(exp: Head, nx: Option<Block>) | GetClear(b: Block)
    | AddLoad(b: Block) | AddStore(b: Block, exp: Head) | AddCas(b: Block, exp: Head)

  /** `mine`: the blocks this thread holds outside the bag. */
  datatype Thread = Thread(pc: Pc, mine: set<Block>)

  /** `next` is the link field of every block. History: the blocks in the bag from the top down, and the
      operations in the order in which they took effect. */
  datatype State = State(head: Head, next: map<Block, Option<Block>>, threads: seq<Thread>, stack: seq<Block>, log: seq<Event>)

  function Move(s: State, t: nat, pc: Pc): State
    requires t < |s.threads|
  {
    s.(threads := s.threads[t := s.threads[t].(pc := pc)])
  }

  function Rest(st: seq<Block>): seq<Block> { if st == [] then [] else st[1..] }

  /** getBlock. */
  predicate GetStep(s: State, t: nat, s': State)
    requires t < |s.threads|
  {
    var x := s.threads[t];
    match x.pc
    case GetLoad =>
      if s.head.ptr.None? then s' == Move(s, t, Idle).(log := s.log + [FoundEmpty])
      else s' == Move(s, t, GetNext(s.head))
    case GetNext(exp) => exp.ptr.Some? && exp.ptr.value in s.next && s' == Move(s, t, GetCas(exp, s.next[exp.ptr.value]))
    case GetCas(exp, nx) =>
      || (s.head == exp && exp.ptr.Some?
          && s' == Move(s, t, GetClear(exp.ptr.value)).(head := Head(nx, exp.tag + 1), stack := Rest(s.stack), log := s.log + [Pop(exp.ptr.value)]))
      || s' == Move(s, t, GetLoad)
    case GetClear(b) => b in s.next && s' == s.(next := s.next[b := None], threads := s.threads[t := Thread(Idle, x.mine + {b})])
    case _ => false
  }

  /** addBlock. */
  predicate AddStep(s: State, t: nat, s': State)
    requires t < |s.threads|
  {
    match s.threads[t].pc
    case AddLoad(b) => s' == Move(s, t, AddStore(b, s.head))
    case AddStore(b, exp) => b in s.next && s' == Move(s, t, AddCas(b, exp)).(next := s.next[b := exp.ptr])
    case AddCas(b, exp) =>
      || (s.head == exp
          && s' == Move(s, t, Idle).(head := Head(Some(b), exp.tag + 1), stack := [b] + s.stack, log := s.log + [Push(b)]))
      || s' == Move(s, t, AddLoad(b))
    case _ => false
  }

  /** A call: of getBlock, or of addBlock with a block the thread holds. */
  ghost predicate CallStep(s: State, t: nat, s': State)
    requires t < |s.threads|
  {
    var x := s.threads[t];
    x.pc.Idle? &&
    (s' == Move(s, t, GetLoad)
     || exists b: Block :: b in x.mine && s' == s.(threads := s.threads[t := Thread(AddLoad(b), x.mine - {b})]))
  }

  ghost predicate Next(s: State, s': State)
  {
    exists t: nat :: t < |s.threads| && (GetStep(s, t, s') || AddStep(s, t, s') || CallStep(s, t, s'))
  }

  ghost predicate Init(s: State)
  {
    && s.head == Head(None, 0) && s.stack == [] && s.log == []
    && (forall t :: 0 <= t < |s.threads| ==> s.threads[t].pc == Idle && s.threads[t].mine <= s.next.Keys)
    && (forall t, u :: 0 <= t < u < |s.threads| ==> s.threads[t].mine !! s.threads[u].mine)
  }

  // ---------------------------------------------------------------- the specification: a stack

  /** The stack that the operations leave, if each result is one a stack gives. */
  function Replay(log: seq<Event>): Option<seq<Block>>
  {
    if log == [] then Some([])
    else
      match Replay(log[..|log| - 1])
      case None => None
      case Some(st) =>
        match log[|log| - 1]
        case Push(b) => Some([b] + st)
        case Pop(b) => if 0 < |st| && st[0] == b then Some(st[1..]) else None
        case FoundEmpty => if st == [] then Some(st) else None
  }

  lemma ReplaySnoc(log: seq<Event>, e: Event)
    requires Replay(log).Some?
    ensures Replay(log + [e]) ==
      match e
      case Push(b) => Some([b] + Replay(log).value)
      case Pop(b) => if 0 < |Replay(log).value| && Replay(log).value[0] == b then Some(Replay(log).value[1..]) else None
      case FoundEmpty => if Replay(log).value == [] then Replay(log) else None
  {
    assert (log + [e])[..|log|] == log;
  }

  // ---------------------------------------------------------------- the invariant

  /** Following the links from `p` gives `st`. */
  predicate Chain(next: map<Block, Option<Block>>, p: Option<Block>, st: seq<Block>)
    decreases |st|
  {
    if st == [] then p.None?
    else p == Some(st[0]) && st[0] in next && Chain(next, next[st[0]], st[1..])
  }

  /** The blocks a thread holds, in hand or on their way. */
  function Holds(x: Thread): set<Block>
  {
    x.mine + match x.pc
             case GetClear(b) => {b}
             case AddLoad(b) => {b}
             case AddStore(b, _) => {b}
             case AddCas(b, _) => {b}
             case _ => {}
  }

  /** What a thread knows from its load of the head, as long as the tag has not changed. */
  predicate PcInv(s: State, pc: Pc)
  {
    match pc
    case GetNext(exp) => exp.ptr.Some? && exp.ptr.value in s.next && exp.tag <= s.head.tag && (exp.tag == s.head.tag ==> exp == s.head)
    case GetCas(exp, nx) =>
      && exp.ptr.Some? && exp.tag <= s.head.tag
      && (exp.tag == s.head.tag ==> exp == s.head && exp.ptr.value in s.next && s.next[exp.ptr.value] == nx)
    case AddStore(b, exp) => exp.tag <= s.head.tag && (exp.tag == s.head.tag ==> exp == s.head)
    case AddCas(b, exp) =>
      && b in s.next && exp.tag <= s.head.tag && (exp.tag == s.head.tag ==> exp == s.head) && s.next[b] == exp.ptr
    case _ => true
  }

  predicate ThreadInv(s: State, t: nat)
    requires t < |s.threads|
  {
    && PcInv(s, s.threads[t].pc)
    && Holds(s.threads[t]) <= s.next.Keys
    && (forall k :: 0 <= k < |s.stack| ==> s.stack[k] !in Holds(s.threads[t]))
    && (s.threads[t].pc.AddLoad? || s.threads[t].pc.AddStore? || s.threads[t].pc.AddCas? ==> s.threads[t].pc.b !in s.threads[t].mine)
    && (s.threads[t].pc.GetClear? ==> s.threads[t].pc.b !in s.threads[t].mine)
  }

  ghost predicate Inv(s: State)
  {
    && Chain(s.next, s.head.ptr, s.stack)
    && (forall j, k :: 0 <= j < k < |s.stack| ==> s.stack[j] != s.stack[k])
    && (forall t {:trigger ThreadInv(s, t)} :: 0 <= t < |s.threads| ==> ThreadInv(s, t))
    && (forall t, u {:trigger Holds(s.threads[t]), Holds(s.threads[u])} :: 0 <= t < u < |s.threads| ==> Holds(s.threads[t]) !! Holds(s.threads[u]))
    && Replay(s.log) == Some(s.stack)
  }

  // ---------------------------------------------------------------- every step keeps it

  lemma {:induction false} ChainFrame(next: map<Block, Option<Block>>, next': map<Block, Option<Block>>, p: Option<Block>, st: seq<Block>)
    requires Chain(next, p, st) && forall k :: 0 <= k < |st| ==> st[k] in next' && (st[k] in next ==> next'[st[k]] == next[st[k]])
    ensures Chain(next', p, st)
    decreases |st|
  {
    if st != [] { ChainFrame(next, next', next[st[0]], st[1..]); }
  }

  lemma {:induction false} ChainIn(next: map<Block, Option<Block>>, p: Option<Block>, st: seq<Block>, k: nat)
    requires Chain(next, p, st) && k < |st|
    ensures st[k] in next
    decreases |st|
  {
    if k > 0 { ChainIn(next, next[st[0]], st[1..], k - 1); }
  }

  lemma InitInv(s: State)
    requires Init(s)
    ensures Inv(s)
  {
  }

  /** Only a thread's program counter changes, and what it holds does not. */
  lemma MoveKeeps(s: State, t: nat, pc: Pc)
    requires Inv(s) && t < |s.threads| && PcInv(s, pc) && Holds(s.threads[t].(pc := pc)) == Holds(s.threads[t])
    requires pc.AddLoad? || pc.AddStore? || pc.AddCas? ==> pc.b !in s.threads[t].mine
    requires !pc.GetClear?
    ensures Inv(Move(s, t, pc))
  {
    var s' := Move(s, t, pc);
    forall u | 0 <= u < |s'.threads| ensures ThreadInv(s', u) { assert ThreadInv(s, u); }
    forall u, v | 0 <= u < v < |s'.threads| ensures Holds(s'.threads[u]) !! Holds(s'.threads[v]) {
      assert Holds(s.threads[u]) !! Holds(s.threads[v]);
    }
  }

  /** A thread changes its link of a block it holds. */
  lemma LinkKeeps(s: State, t: nat, b: Block, p: Option<Block>, x: Thread)
    requires Inv(s) && t < |s.threads| && b in Holds(s.threads[t]) && Holds(x) == Holds(s.threads[t])
    requires (x.pc.AddCas? && x.pc.b == b && s.threads[t].pc == AddStore(b, x.pc.exp) && p == x.pc.exp.ptr && x.mine == s.threads[t].mine)
             || (x.pc.Idle? && s.threads[t].pc == GetClear(b))
    ensures Inv(s.(next := s.next[b := p], threads := s.threads[t := x]))
  {
    var s' := s.(next := s.next[b := p], threads := s.threads[t := x]);
    assert ThreadInv(s, t);
    forall k | 0 <= k < |s.stack| ensures s.stack[k] in s.next { ChainIn(s.next, s.head.ptr, s.stack, k); }
    ChainFrame(s.next, s'.next, s.head.ptr, s.stack);
    forall u | 0 <= u < |s'.threads| ensures ThreadInv(s', u) {
      assert ThreadInv(s, u);
      if u < t { assert Holds(s.threads[u]) !! Holds(s.threads[t]); }
      if t < u { assert Holds(s.threads[t]) !! Holds(s.threads[u]); }
    }
    forall u, v | 0 <= u < v < |s'.threads| ensures Holds(s'.threads[u]) !! Holds(s'.threads[v]) {
      assert Holds(s.threads[u]) !! Holds(s.threads[v]);
    }
  }

  lemma PopKeeps(s: State, t: nat, exp: Head, nx: Option<Block>)
    requires Inv(s) && t < |s.threads| && s.threads[t].pc == GetCas(exp, nx) && s.head == exp && exp.ptr.Some?
    ensures 0 < |s.stack| && s.stack[0] == exp.ptr.value
    ensures Inv(Move(s, t, GetClear(exp.ptr.value)).(head := Head(nx, exp.tag + 1), stack := Rest(s.stack), log := s.log + [Pop(exp.ptr.value)]))
  {
    var s' := Move(s, t, GetClear(exp.ptr.value)).(head := Head(nx, exp.tag + 1), stack := Rest(s.stack), log := s.log + [Pop(exp.ptr.value)]);
    assert ThreadInv(s, t);
    ReplaySnoc(s.log, Pop(exp.ptr.value));
    forall u | 0 <= u < |s'.threads| ensures ThreadInv(s', u) { assert ThreadInv(s, u); }
    forall u, v | 0 <= u < v < |s'.threads| ensures Holds(s'.threads[u]) !! Holds(s'.threads[v]) {
      assert Holds(s.threads[u]) !! Holds(s.threads[v]) && ThreadInv(s, u) && ThreadInv(s, v);
    }
  }

  lemma PushKeeps(s: State, t: nat, b: Block, exp: Head)
    requires Inv(s) && t < |s.threads| && s.threads[t].pc == AddCas(b, exp) && s.head == exp
    ensures Inv(Move(s, t, Idle).(head := Head(Some(b), exp.tag + 1), stack := [b] + s.stack, log := s.log + [Push(b)]))
  {
    var s' := Move(s, t, Idle).(head := Head(Some(b), exp.tag + 1), stack := [b] + s.stack, log := s.log + [Push(b)]);
    assert ThreadInv(s, t);
    ReplaySnoc(s.log, Push(b));
    assert s'.stack[1..] == s.stack;
    forall u | 0 <= u < |s'.threads| ensures ThreadInv(s', u) {
      assert ThreadInv(s, u);
      if u < t { assert Holds(s.threads[u]) !! Holds(s.threads[t]); }
      if t < u { assert Holds(s.threads[t]) !! Holds(s.threads[u]); }
    }
    forall u, v | 0 <= u < v < |s'.threads| ensures Holds(s'.threads[u]) !! Holds(s'.threads[v]) {
      assert Holds(s.threads[u]) !! Holds(s.threads[v]);
    }
  }

  lemma EmptyKeeps(s: State, t: nat)
    requires Inv(s) && t < |s.threads| && s.threads[t].pc == GetLoad && s.head.ptr.None?
    ensures Inv(Move(s, t, Idle).(log := s.log + [FoundEmpty]))
  {
    MoveKeeps(s, t, Idle);
    ReplaySnoc(s.log, FoundEmpty);
    var s1, s' := Move(s, t, Idle), Move(s, t, Idle).(log := s.log + [FoundEmpty]);
    forall u | 0 <= u < |s'.threads| ensures ThreadInv(s', u) { assert ThreadInv(s1, u); }
    forall u, v | 0 <= u < v < |s'.threads| ensures Holds(s'.threads[u]) !! Holds(s'.threads[v]) {
      assert Holds(s1.threads[u]) !! Holds(s1.threads[v]);
    }
  }

  lemma GetKeeps(s: State, t: nat, s': State)
    requires Inv(s) && t < |s.threads| && GetStep(s, t, s')
    ensures Inv(s')
  {
    var x := s.threads[t];
    assert ThreadInv(s, t);
    match x.pc
    case GetLoad =>
      if s.head.ptr.None? { EmptyKeeps(s, t); }
      else {
        ChainIn(s.next, s.head.ptr, s.stack, 0);
        MoveKeeps(s, t, GetNext(s.head));
      }
    case GetNext(exp) => MoveKeeps(s, t, GetCas(exp, s.next[exp.ptr.value]));
    case GetCas(exp, nx) =>
      if s' == Move(s, t, GetLoad) { MoveKeeps(s, t, GetLoad); } else { PopKeeps(s, t, exp, nx); }
    case GetClear(b) => LinkKeeps(s, t, b, None, Thread(Idle, x.mine + {b}));
    case _ =>
  }

  lemma AddKeeps(s: State, t: nat, s': State)
    requires Inv(s) && t < |s.threads| && AddStep(s, t, s')
    ensures Inv(s')
  {
    assert ThreadInv(s, t);
    match s.threads[t].pc
    case AddLoad(b) => MoveKeeps(s, t, AddStore(b, s.head));
    case AddStore(b, exp) => LinkKeeps(s, t, b, exp.ptr, Thread(AddCas(b, exp), s.threads[t].mine));
    case AddCas(b, exp) =>
      if s' == Move(s, t, AddLoad(b)) { MoveKeeps(s, t, AddLoad(b)); } else { PushKeeps(s, t, b, exp); }
    case _ =>
  }

  lemma CallKeeps(s: State, t: nat, s': State)
    requires Inv(s) && t < |s.threads| && CallStep(s, t, s')
    ensures Inv(s')
  {
    assert ThreadInv(s, t);
    if s' == Move(s, t, GetLoad) {
      MoveKeeps(s, t, GetLoad);
    } else {
      forall u | 0 <= u < |s'.threads| ensures ThreadInv(s', u) { assert ThreadInv(s, u); }
      forall u, v | 0 <= u < v < |s'.threads| ensures Holds(s'.threads[u]) !! Holds(s'.threads[v]) {
        assert Holds(s.threads[u]) !! Holds(s.threads[v]);
      }
    }
  }

  lemma NextKeeps(s: State, s': State)
    requires Inv(s) && Next(s, s')
    ensures Inv(s')
  {
    hide Inv, GetStep, AddStep, CallStep;
    var t: nat :| t < |s.threads| && (GetStep(s, t, s') || AddStep(s, t, s') || CallStep(s, t, s'));
    if GetStep(s, t, s') { GetKeeps(s, t, s'); } else if AddStep(s, t, s') { AddKeeps(s, t, s'); } else { CallKeeps(s, t, s'); }
  }

  // ---------------------------------------------------------------- all runs

  ghost predicate Run(tr: seq<State>)
  {
    0 < |tr| && Init(tr[0]) && forall k: nat :: k + 1 < |tr| ==> Next(tr[k], tr[k + 1])
  }

  lemma {:induction false} RunInv(tr: seq<State>, k: nat)
    requires Run(tr) && k < |tr|
    ensures Inv(tr[k])
  {
    hide Inv, Next, Init;
    if k == 0 { InitInv(tr[0]); }
    else {
      RunInv(tr, k - 1);
      assert Next(tr[k - 1], tr[k]);
      NextKeeps(tr[k - 1], tr[k]);
    }
  }

  /** In every run the operations, in the order in which they took effect, are those of a stack, and following
      the links from the head gives the blocks that stack holds. */
  lemma LinearizesToStack(tr: seq<State>, k: nat)
    requires Run(tr) && k < |tr|
    ensures Replay(tr[k].log).Some? && Chain(tr[k].next, tr[k].head.ptr, Replay(tr[k].log).value)
  {
    RunInv(tr, k);
  }

  /** Where a block is: in the bag, or held by a thread. */
  predicate InBag(s: State, b: Block) { b in s.stack }

  predicate HeldBy(s: State, b: Block, t: nat) { t < |s.threads| && b in Holds(s.threads[t]) }

  ghost predicate Somewhere(s: State, b: Block) { InBag(s, b) || exists t :: HeldBy(s, b, t) }

  /** ... and in no two places, nor twice in the bag. */
  ghost predicate OnlyOnce(s: State, b: Block)
  {
    && (forall t :: !(InBag(s, b) && HeldBy(s, b, t)))
    && (forall t, u :: HeldBy(s, b, t) && HeldBy(s, b, u) ==> t == u)
    && (forall p, q :: 0 <= p < q < |s.stack| ==> !(s.stack[p] == b && s.stack[q] == b))
  }

  lemma StepMovesBlock(s: State, s': State, b: Block)
    requires Inv(s) && Next(s, s') && Somewhere(s, b)
    ensures Somewhere(s', b)
  {
    var t: nat :| t < |s.threads| && (GetStep(s, t, s') || AddStep(s, t, s') || CallStep(s, t, s'));
    assert ThreadInv(s, t);
    if InBag(s, b) {
      if !InBag(s', b) { assert HeldBy(s', b, t); }
    } else {
      var u :| HeldBy(s, b, u);
      if !InBag(s', b) { assert HeldBy(s', b, u); }
    }
  }

  /** No block is lost, and none is in two places: a block that is in the bag or with some thread once is for ever
      in exactly one of these places. */
  lemma {:induction false} NoBlockLostOrDuplicated(tr: seq<State>, j: nat, k: nat, b: Block)
    requires Run(tr) && j <= k < |tr| && Somewhere(tr[j], b)
    ensures Somewhere(tr[k], b) && OnlyOnce(tr[k], b)
    decreases k - j
  {
    hide Inv, Next, Init, Somewhere, OnlyOnce;
    RunInv(tr, k);
    OnePlace(tr[k], b);
    if j < k {
      NoBlockLostOrDuplicated(tr, j, k - 1, b);
      RunInv(tr, k - 1);
      assert Next(tr[k - 1], tr[k]);
      StepMovesBlock(tr[k - 1], tr[k], b);
    }
  }

  lemma OnePlace(s: State, b: Block)
    requires Inv(s)
    ensures OnlyOnce(s, b)
  {
    forall t: nat ensures !(InBag(s, b) && HeldBy(s, b, t)) { assert t < |s.threads| ==> ThreadInv(s, t); }
    forall t: nat, u: nat ensures HeldBy(s, b, t) && HeldBy(s, b, u) ==> t == u {
      Disjoint(s, t, u, b);
      Disjoint(s, u, t, b);
    }
  }

  lemma Disjoint(s: State, t: nat, u: nat, b: Block)
    requires Inv(s)
    ensures !(t < u && HeldBy(s, b, t) && HeldBy(s, b, u))
  {
    assert t < u < |s.threads| ==> Holds(s.threads[t]) !! Holds(s.threads[u]);
  }

  // ---------------------------------------------------------------- why the tag is enough

  lemma TagStep(s: State, s': State)
    requires Next(s, s')
    ensures s.head.tag <= s'.head.tag && (s'.head.tag == s.head.tag ==> s'.stack == s.stack && s'.head == s.head)
  {
  }

  /** As long as the tag is the same, so is the whole stack. */
  lemma {:induction false} SameTagSameStack(tr: seq<State>, j: nat, k: nat)
    requires Run(tr) && j <= k < |tr|
    ensures tr[j].head.tag <= tr[k].head.tag
    ensures tr[j].head.tag == tr[k].head.tag ==> forall m :: j <= m <= k ==> tr[m].stack == tr[j].stack && tr[m].head == tr[j].head
    decreases k - j
  {
    if j < k {
      SameTagSameStack(tr, j, k - 1);
      assert Next(tr[k - 1], tr[k]);
      hide Next, Init;
      TagStep(tr[k - 1], tr[k]);
    }
  }

  /** In state `j` thread `t` loads the head, `exp`, and since then it is in the same attempt of getBlock. */
  predicate SinceLoad(tr: seq<State>, j: nat, k: nat, t: nat, exp: Head)
  {
    && j < k < |tr| && t < |tr[j].threads| && tr[j].threads[t].pc.GetLoad? && tr[j].head == exp
    && forall m :: j < m <= k ==> t < |tr[m].threads| && Popping(tr[m].threads[t].pc, exp)
  }

  predicate Popping(pc: Pc, exp: Head) { pc == GetNext(exp) || (pc.GetCas? && pc.exp == exp) }

  lemma StepPopping(s: State, s': State, t: nat, exp: Head)
    requires Next(s, s') && t < |s'.threads| && Popping(s'.threads[t].pc, exp)
    ensures t < |s.threads| && (Popping(s.threads[t].pc, exp) || (s.threads[t].pc.GetLoad? && s.head == exp))
  {
  }

  lemma {:induction false} LoadBefore(tr: seq<State>, k: nat, t: nat, exp: Head) returns (j: nat)
    requires Run(tr) && k < |tr| && t < |tr[k].threads| && Popping(tr[k].threads[t].pc, exp)
    ensures SinceLoad(tr, j, k, t, exp)
  {
    if k == 0 {
      assert false;
    } else {
      assert Next(tr[k - 1], tr[k]);
      hide Next, Init;
      StepPopping(tr[k - 1], tr[k], t, exp);
      if Popping(tr[k - 1].threads[t].pc, exp) { j := LoadBefore(tr, k - 1, t, exp); } else { j := k - 1; }
    }
  }

  /** When the compare-and-swap of getBlock succeeds, neither head nor stack has changed since the call loaded the
      head, so the separately read link is the right one. */
  lemma SuccessfulPopSawTheStack(tr: seq<State>, k: nat, t: nat) returns (j: nat)
    requires Run(tr) && k < |tr| && t < |tr[k].threads| && tr[k].threads[t].pc.GetCas?
    requires tr[k].head == tr[k].threads[t].pc.exp
    ensures SinceLoad(tr, j, k, t, tr[k].head)
    ensures forall m :: j <= m <= k ==> tr[m].stack == tr[k].stack && tr[m].head == tr[k].head
    ensures 0 < |tr[k].stack| && tr[k].head.ptr == Some(tr[k].stack[0])
    ensures tr[k].threads[t].pc.nx == if |tr[k].stack| > 1 then Some(tr[k].stack[1]) else None
  {
    RunInv(tr, k);
    assert ThreadInv(tr[k], t);
    j := LoadBefore(tr, k, t, tr[k].head);
    hide Run;
    SameTagSameStack(tr, j, k);
    var s := tr[k];
    assert Chain(s.next, s.next[s.stack[0]], s.stack[1..]);
  }

  // ---------------------------------------------------------------- what a call returns

  predicate Getting(pc: Pc) { pc.GetLoad? || pc.GetNext? || pc.GetCas? }

  predicate Adding(pc: Pc, b: Block) { (pc.AddLoad? || pc.AddStore? || pc.AddCas?) && pc.b == b }

  /** The three ways in which a call ends, and the one in which getBlock gets hold of a block. */
  lemma ReturnStep(s: State, s': State, t: nat)
    requires Inv(s) && Next(s, s') && t < |s.threads| && t < |s'.threads|
    ensures Getting(s.threads[t].pc) && s'.threads[t].pc.Idle? ==> s.stack == [] && s'.log == s.log + [FoundEmpty]
    ensures forall b :: Adding(s.threads[t].pc, b) && s'.threads[t].pc.Idle? ==> s'.stack == [b] + s.stack && s'.log == s.log + [Push(b)]
    ensures s.threads[t].pc.GetClear? && s'.threads[t] != s.threads[t] ==>
              s'.threads[t] == Thread(Idle, s.threads[t].mine + {s.threads[t].pc.b})
    ensures s'.threads[t].pc.GetClear? && s'.threads[t] != s.threads[t] ==>
              && s.threads[t].pc.GetCas? && s.stack == [s'.threads[t].pc.b] + s'.stack && s'.log == s.log + [Pop(s'.threads[t].pc.b)]
  {
    assert ThreadInv(s, t);
  }

  /** getBlock returns null only at an instant at which the bag is empty. */
  lemma NullOnlyWhenEmpty(tr: seq<State>, k: nat, t: nat)
    requires Run(tr) && k + 1 < |tr| && t < |tr[k].threads| && t < |tr[k + 1].threads|
    requires Getting(tr[k].threads[t].pc) && tr[k + 1].threads[t].pc.Idle?
    ensures tr[k].stack == [] && tr[k + 1].log == tr[k].log + [FoundEmpty]
  {
    RunInv(tr, k);
    assert Next(tr[k], tr[k + 1]);
    hide Inv, Next, Run;
    ReturnStep(tr[k], tr[k + 1], t);
  }

  /** In step `j` thread `t` takes `b` off the top of the bag, and it clears its link up to state `k`. */
  predicate TookAt(tr: seq<State>, j: nat, k: nat, t: nat, b: Block)
  {
    && j < k < |tr| && tr[j].stack == [b] + tr[j + 1].stack && tr[j + 1].log == tr[j].log + [Pop(b)]
    && t < |tr[j].threads| && tr[j].threads[t].pc.GetCas?
    && forall m :: j < m <= k ==> t < |tr[m].threads| && tr[m].threads[t].pc == GetClear(b)
  }

  lemma {:induction false} TakenBefore(tr: seq<State>, k: nat, t: nat, b: Block) returns (j: nat)
    requires Run(tr) && k < |tr| && t < |tr[k].threads| && tr[k].threads[t].pc == GetClear(b)
    ensures TookAt(tr, j, k, t, b)
  {
    hide Inv, Next;
    if k == 0 {
      assert false;
    } else {
      RunInv(tr, k - 1);
      assert Next(tr[k - 1], tr[k]);
      SameThreads(tr[k - 1], tr[k]);
      ReturnStep(tr[k - 1], tr[k], t);
      if tr[k - 1].threads[t] == tr[k].threads[t] { j := TakenBefore(tr, k - 1, t, b); } else { j := k - 1; }
    }
  }

  lemma SameThreads(s: State, s': State)
    requires Next(s, s')
    ensures |s'.threads| == |s.threads|
  {
  }

  /** A block that getBlock returns was on top of the bag when the call took it, and is the caller's now. */
  lemma BlockWasOnTop(tr: seq<State>, k: nat, t: nat, b: Block) returns (j: nat)
    requires Run(tr) && k + 1 < |tr| && t < |tr[k].threads| && t < |tr[k + 1].threads|
    requires tr[k].threads[t].pc == GetClear(b) && tr[k + 1].threads[t].pc.Idle?
    ensures TookAt(tr, j, k, t, b) && tr[k + 1].threads[t].mine == tr[k].threads[t].mine + {b}
  {
    RunInv(tr, k);
    assert Next(tr[k], tr[k + 1]);
    hide Inv, Next;
    ReturnStep(tr[k], tr[k + 1], t);
    j := TakenBefore(tr, k, t, b);
  }

  /** addBlock returns in the step that puts its block on top of the bag. */
  lemma AddReturnsWhenPushed(tr: seq<State>, k: nat, t: nat, b: Block)
    requires Run(tr) && k + 1 < |tr| && t < |tr[k].threads| && t < |tr[k + 1].threads|
    requires Adding(tr[k].threads[t].pc, b) && tr[k + 1].threads[t].pc.Idle?
    ensures tr[k + 1].stack == [b] + tr[k].stack && tr[k + 1].log == tr[k].log + [Push(b)]
  {
    RunInv(tr, k);
    assert Next(tr[k], tr[k + 1]);
    hide Inv, Next, Run;
    ReturnStep(tr[k], tr[k + 1], t);
  }

  // ---------------------------------------------------------------- a call that runs alone can end

  /** A sequence of steps of thread `t`. */
  ghost predicate Alone(tr: seq<State>, t: nat)
  {
    0 < |tr| && forall k: nat :: k + 1 < |tr| ==> t < |tr[k].threads| && (GetStep(tr[k], t, tr[k + 1]) || AddStep(tr[k], t, tr[k + 1]))
  }

  /** From any reachable state a getBlock that starts over can end by itself: with null if the bag is empty, with
      the top block if not. */
  lemma GetCanEnd(s: State, t: nat) returns (tr: seq<State>)
    requires Inv(s) && t < |s.threads| && s.threads[t].pc == GetLoad
    ensures Alone(tr, t) && tr[0] == s
    ensures var s' := tr[|tr| - 1];
            && t < |s'.threads| && s'.threads[t].pc.Idle?
            && if s.stack == [] then s'.stack == [] && s'.threads[t].mine == s.threads[t].mine
               else s.stack == [s.stack[0]] + s'.stack && s'.threads[t].mine == s.threads[t].mine + {s.stack[0]}
  {
    if s.stack == [] {
      var s1 := Move(s, t, Idle).(log := s.log + [FoundEmpty]);
      assert GetStep(s, t, s1);
      tr := [s, s1];
    } else {
      var b := s.stack[0];
      var s1 := Move(s, t, GetNext(s.head));
      assert GetStep(s, t, s1);
      var s2 := Move(s1, t, GetCas(s.head, s.next[b]));
      assert GetStep(s1, t, s2);
      var s3 := Move(s2, t, GetClear(b)).(head := Head(s.next[b], s.head.tag + 1), stack := Rest(s.stack), log := s.log + [Pop(b)]);
      assert GetStep(s2, t, s3);
      var s4 := s3.(next := s.next[b := None], threads := s3.threads[t := Thread(Idle, s.threads[t].mine + {b})]);
      assert GetStep(s3, t, s4);
      tr := [s, s1, s2, s3, s4];
    }
  }

  /** So can an addBlock. */
  lemma AddCanEnd(s: State, t: nat, b: Block) returns (tr: seq<State>)
    requires Inv(s) && t < |s.threads| && s.threads[t].pc == AddLoad(b)
    ensures Alone(tr, t) && tr[0] == s
    ensures t < |tr[|tr| - 1].threads| && tr[|tr| - 1].threads[t].pc.Idle? && tr[|tr| - 1].stack == [b] + s.stack
  {
    assert ThreadInv(s, t);
    var s1 := Move(s, t, AddStore(b, s.head));
    assert AddStep(s, t, s1);
    var s2 := Move(s1, t, AddCas(b, s.head)).(next := s.next[b := s.head.ptr]);
    assert AddStep(s1, t, s2);
    var s3 := Move(s2, t, Idle).(head := Head(Some(b), s.head.tag + 1), stack := [b] + s.stack, log := s.log + [Push(b)]);
    assert AddStep(s2, t, s3);
    tr := [s, s1, s2, s3];
  }
}
