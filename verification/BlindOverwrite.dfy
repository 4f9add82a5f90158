/** `put` on a key that is found through a link of the write set copies the link of the node it overwrites
    straight from memory, without the lock and version checks every other read makes. Here: what a stale copy
    is in terms of memory, and that runs in which a transaction has seen each such node unlocked, at any time
    since it began, are serializable. */
module BlindOverwrite {
  import opened ListHeap
  import opened Transactions
  import opened TxInvariant
  import opened TxOperations
  import opened TxEveryRun
  import opened TxMachine
  import opened ReadInvariance
  import opened Serializability
  import opened ConflictOrder

  /** A transaction about to overwrite a node it reached through a link of its own write set, without
      having the node there too. No check has been made of that node. */
  predicate Blind(x: Tx)
  {
    && x.pc.GettingNext? && x.pc.np.Done? && x.d.kind == Put
    && Found(x.d, x.pc.g, x.pc.np.nx) && Match(x.d, x.pc.np.nx)
    && x.pc.c in x.d.ws && x.pc.np.nx.value !in x.d.ws
  }

  // ---------------------------------------------------------------- what a stale copy is, in memory

  /** A transaction past its commit point, with a write version up to `rv`, still has to store a link in `q`
      that memory does not hold. */
  predicate LinkPending(s: State, j: nat, q: Node, rv: nat)
    requires j < |s.txs|
  {
    var y := s.txs[j];
    && y.pc.WritingBack? && q in y.d.todo && y.d.wv <= rv
    && q in y.d.ws && q in s.sh.mem && y.d.ws[q].next != s.sh.mem[q].next
  }

  lemma PendingWriter(sh: Shared, x: Tx, i: nat, q: Node)
    requires TxBase(sh, x, i) && q in x.d.held && q in sh.dirty && q in sh.mem && q in sh.committed
    requires sh.committed[q].next != sh.mem[q].next
    ensures x.pc.WritingBack? && q in x.d.todo && q in x.d.ws && sh.committed[q] == x.d.ws[q]
    ensures q in sh.stamp && sh.stamp[q] == x.d.wv
  {
    hide SetsInv, PointerInv, SnapInv, NewsInv, HeldInv, PcBase, PhaseInv;
    assert x.pc.WritingBack?;
    assert UnwrittenInv(sh, x.d, q);
  }

  /** An overwrite outside the write set would copy a stale link if and only if another transaction has
      committed another link in that node, with a version up to the read version, and not stored it yet. */
  lemma StaleIffPending(s: State, i: nat, q: Node)
    requires BaseInv(s) && i < |s.txs| && q in s.sh.mem && q !in s.txs[i].d.ws
    ensures StaleCopy(s.sh, s.txs[i].d, q) <==> exists j: nat :: j < |s.txs| && LinkPending(s, j, q, s.txs[i].d.rv)
  {
    var d := s.txs[i].d;
    if StaleCopy(s.sh, d, q) {
      assert NodeBase(s.sh, q);
      var j := s.sh.mem[q].lock.value;
      assert TxBase(s.sh, s.txs[j], j);
      hide BaseInv, TxBase;
      PendingWriter(s.sh, s.txs[j], j, q);
      assert LinkPending(s, j, q, d.rv);
    }
    if j: nat :| j < |s.txs| && LinkPending(s, j, q, d.rv) {
      assert TxBase(s.sh, s.txs[j], j);
      assert UnwrittenInv(s.sh, s.txs[j].d, q);
    }
  }

  // ---------------------------------------------------------------- the missing check

  /** What the write-set shortcut of getNext leaves out: at some instant since it began the transaction could
      have read the lock bit of the node it is about to overwrite as clear. When it reads the link is another
      matter. */
  predicate SeenUnlocked(tr: seq<State>, k: nat, i: nat, q: Node)
  {
    exists j: nat {:trigger tr[j]} :: j <= k < |tr| && i < |tr[j].txs| && tr[j].txs[i].pc != NotStarted
      && q in tr[j].sh.mem && tr[j].sh.mem[q].lock.None?
  }

  /** A run in which a transaction overwrites a node that it reached through its write set only after having
      seen it unlocked. */
  ghost predicate GuardedRun(tr: seq<State>)
  {
    && Run(tr)
    && forall k: nat, i: nat {:trigger tr[k].txs[i]} :: k + 1 < |tr| && i < |tr[k].txs| && i < |tr[k + 1].txs| ==>
         Blind(tr[k].txs[i]) && tr[k + 1].txs[i] != tr[k].txs[i] ==> SeenUnlocked(tr, k, i, tr[k].txs[i].pc.np.nx.value)
  }

  /** Unlocked then, it holds its committed link; and a later commit to it has a write version above the read
      version. */
  lemma SeenNotStale(tr: seq<State>, k: nat, i: nat, q: Node)
    requires Run(tr) && k < |tr| && i < |tr[k].txs| && SeenUnlocked(tr, k, i, q) && q in tr[k].sh.mem
    ensures !StaleCopy(tr[k].sh, tr[k].txs[i].d, q)
  {
    var j: nat :| j <= k && i < |tr[j].txs| && tr[j].txs[i].pc != NotStarted && q in tr[j].sh.mem && tr[j].sh.mem[q].lock.None?;
    EveryRun(tr, j);
    EveryRun(tr, k);
    hide Run;
    DirtyLocked(tr[j], q);
    DirtyLocked(tr[k], q);
    hide BaseInv;
    ReadVersionSampled(tr, j, i);
    ReadVersionFixed(tr, j, k, i);
    WrittenStays(tr, j, k, q, tr[k].txs[i].d.rv);
  }

  lemma DirtyLocked(s: State, q: Node)
    requires BaseInv(s)
    ensures q in s.sh.dirty ==> q in s.sh.mem && s.sh.mem[q].lock.Some?
    ensures q in s.sh.committed && q !in s.sh.dirty ==> q in s.sh.mem && s.sh.mem[q].next == s.sh.committed[q].next
  {
    hide TxsBase, NewsApart, Owned;
    if q in s.sh.committed { assert NodeBase(s.sh, q); }
  }

  predicate NoneStale(s: State) { forall i :: 0 <= i < |s.txs| ==> !s.txs[i].d.stale }

  lemma ActStale(sh: Shared, x: Tx, x': Tx)
    requires ActStep(sh, x, x') && x'.d.stale && !x.d.stale
    ensures x.pc.GettingNext? && x.pc.np.Done? && OverwriteStep(sh, x.d, x.pc.np.nx, x')
    ensures Found(x.d, x.pc.g, x.pc.np.nx) && StaleCopy(sh, x.d, x.pc.np.nx.value) && x.pc.np.nx.value !in x.d.ws
  {
    hide Found, Match;
  }

  /** Only an overwrite that copies a stale link makes a transaction stale. */
  lemma StaleByCopy(s: State, i: nat, s': State)
    requires i < |s.txs| == |s'.txs| && TxStep(s, i, s') && s'.txs[i].d.stale && !s.txs[i].d.stale
    ensures s.txs[i].pc.GettingNext? && s.txs[i].pc.np.Done? && OverwriteStep(s.sh, s.txs[i].d, s.txs[i].pc.np.nx, s'.txs[i])
    ensures Found(s.txs[i].d, s.txs[i].pc.g, s.txs[i].pc.np.nx) && StaleCopy(s.sh, s.txs[i].d, s.txs[i].pc.np.nx.value)
    ensures s.txs[i].pc.np.nx.value !in s.txs[i].d.ws
  {
    if ActStep(s.sh, s.txs[i], s'.txs[i]) { ActStale(s.sh, s.txs[i], s'.txs[i]); }
    hide PredStep, NextStep, Without, WithWrites, StaleCopy, ActStep, OverwriteStep, Found;
  }

  /** A node that was reached by reading memory has been checked on the way. */
  lemma CheckedNotStale(sh: Shared, x: Tx, i: nat)
    requires SharedBase(sh) && RunningInv(sh, x, i) && x.pc.GettingNext? && x.pc.c !in x.d.ws
    requires x.pc.np.Done? && x.d.kind == Put && Found(x.d, x.pc.g, x.pc.np.nx)
    requires Match(x.d, x.pc.np.nx) && x.pc.np.nx.value in sh.mem
    ensures !StaleCopy(sh, x.d, x.pc.np.nx.value)
  {
    var q := x.pc.np.nx.value;
    if q !in x.d.ws {
      assert NewsInv(sh, x.d) && Visible(sh, x.d, q);
      hide SharedBase, Good;
      NotStale(sh, x.d, q);
      QuietCurrent(sh, x.d, q);
    }
  }

  lemma SeenAtCopy(tr: seq<State>, k: nat, i: nat)
    requires GuardedRun(tr) && k + 1 < |tr| && i < |tr[k].txs| == |tr[k + 1].txs| && Blind(tr[k].txs[i])
    requires tr[k + 1].txs[i] != tr[k].txs[i]
    ensures SeenUnlocked(tr, k, i, tr[k].txs[i].pc.np.nx.value)
  {
    hide Run, Blind, SeenUnlocked;
  }

  lemma BlindNotStale(tr: seq<State>, k: nat, i: nat)
    requires GuardedRun(tr) && k + 1 < |tr| && i < |tr[k].txs| == |tr[k + 1].txs| && tr[k + 1].txs[i] != tr[k].txs[i]
    requires Blind(tr[k].txs[i]) && tr[k].txs[i].pc.np.nx.value in tr[k].sh.mem
    ensures !StaleCopy(tr[k].sh, tr[k].txs[i].d, tr[k].txs[i].pc.np.nx.value)
  {
    SeenAtCopy(tr, k, i);
    SeenNotStale(tr, k, i, tr[k].txs[i].pc.np.nx.value);
  }

  lemma CheckedHere(s: State, i: nat)
    requires StateInv(s) && i < |s.txs| && s.txs[i].pc.GettingNext? && s.txs[i].pc.c !in s.txs[i].d.ws
    requires var x := s.txs[i]; x.pc.np.Done? && x.d.kind == Put && Found(x.d, x.pc.g, x.pc.np.nx) && Match(x.d, x.pc.np.nx)
    requires s.txs[i].pc.np.nx.value in s.sh.mem
    ensures !StaleCopy(s.sh, s.txs[i].d, s.txs[i].pc.np.nx.value)
  {
    assert TxInv(s.sh, s.txs[i], i);
    assert SharedBase(s.sh);
    hide BaseInv, Sound, SharedBase, StaleCopy, RunningInv;
    CheckedNotStale(s.sh, s.txs[i], i);
  }

  lemma GuardedStep(tr: seq<State>, k: nat, i: nat)
    requires GuardedRun(tr) && k + 1 < |tr| && StateInv(tr[k]) && NoneStale(tr[k])
    requires i < |tr[k].txs| == |tr[k + 1].txs| && TxStep(tr[k], i, tr[k + 1])
    ensures NoneStale(tr[k + 1])
  {
    hide TxStep, GuardedRun, StaleCopy, StateInv;
    var s, s' := tr[k], tr[k + 1];
    OthersSame(s, i, s');
    if s'.txs[i].d.stale {
      StaleByCopy(s, i, s');
      if s.txs[i].pc.c in s.txs[i].d.ws { BlindNotStale(tr, k, i); } else { CheckedHere(s, i); }
    }
  }

  lemma OthersSame(s: State, i: nat, s': State)
    requires i < |s.txs| == |s'.txs| && TxStep(s, i, s')
    ensures forall j :: 0 <= j < |s.txs| && j != i ==> s'.txs[j] == s.txs[j]
  {
    hide LocalStep, MemoryStep, CommitStep, ValidationFails, Without, WithWrites;
  }

  lemma {:induction false} GuardedNeverStale(tr: seq<State>, k: nat)
    requires GuardedRun(tr) && k < |tr|
    ensures NoneStale(tr[k])
  {
    hide TxStep, StateInv;
    if k > 0 {
      GuardedNeverStale(tr, k - 1);
      RunKeeps(tr, k - 1);
      assert Next(tr[k - 1], tr[k]);
      var i: nat :| i < |tr[k - 1].txs| == |tr[k].txs| && TxStep(tr[k - 1], i, tr[k]);
      GuardedStep(tr, k - 1, i);
    }
  }

  /** With the missing check, every run is serializable. */
  lemma GuardedAreSerializable(tr: seq<State>, k: nat)
    requires GuardedRun(tr) && k < |tr|
    ensures Run(tr) && Faithful(tr[k])
    ensures exists ids ::
      && Serializes(tr[k].txs, ids, Keys(tr[0].sh.committed), Keys(tr[k].sh.committed))
      && FollowsLocking(tr, k, ids)
  {
    hide Run, Serializes, FollowsLocking, Keys, SeenUnlocked, Blind;
    GuardedNeverStale(tr, k);
    CommittedAreSerializable(tr, k);
  }
}
