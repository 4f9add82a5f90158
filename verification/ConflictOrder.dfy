/** The serial order is the order in which transactions came to hold all their locks, and it is the
    order of their conflicts, although validation comes before the clock is incremented. */
module ConflictOrder {
  import opened Basics
  import opened ListHeap
  import opened Transactions
  import opened TxInvariant
  import opened SerialOrder
  import opened TxEveryRun
  import opened TxMachine
  import opened Serializability

  // ---------------------------------------------------------------- positions only shift

  predicate Gone(pc: Pc) { pc.Aborted? || (pc.Unlocking? && !pc.ok) }

  /** No transaction enters the order again after it has left it. */
  lemma StepStays(s: State, i: nat, s': State, b: nat)
    requires i < |s.txs| == |s'.txs| && TxStep(s, i, s') && b < |s.txs|
    requires InOrder(s.txs[b].pc) || Gone(s.txs[b].pc)
    ensures InOrder(s'.txs[b].pc) || Gone(s'.txs[b].pc)
    ensures Gone(s.txs[b].pc) ==> Gone(s'.txs[b].pc)
    ensures Decided(s.txs[b].pc) ==> Decided(s'.txs[b].pc)
  {
    hide PredStep, NextStep, GetStep, OverwriteStep, RemoveStep, Without, WithWrites;
  }

  /** How the order changes in one step: one transaction enters at the end, or one leaves. */
  predicate OrderChange(o: seq<nat>, o': seq<nat>)
  {
    o' == o || (|o'| == |o| + 1 && o'[..|o|] == o) || exists p: nat :: p < |o| && o' == Without(o, p)
  }

  lemma StepOrder(s: State, i: nat, s': State)
    requires i < |s.txs| == |s'.txs| && TxStep(s, i, s')
    ensures OrderChange(s.order, s'.order)
  {
    hide LocalStep, MemoryStep, CommitStep, ValidationFails;
  }

  predicate Earlier(o: seq<nat>, b: nat, a: nat)
  {
    forall p, q :: 0 <= p < |o| && 0 <= q < |o| && o[p] == b && o[q] == a ==> p < q
  }

  lemma ChangeEarlier(o: seq<nat>, o': seq<nat>, b: nat, a: nat)
    requires OrderChange(o, o') && Earlier(o, b, a) && (b in o' ==> b in o)
    requires forall p, q :: 0 <= p < q < |o'| ==> o'[p] != o'[q]
    ensures Earlier(o', b, a)
  {
    if o' != o {
      if |o'| == |o| + 1 && o'[..|o|] == o {
        assert forall p :: 0 <= p < |o| ==> o'[p] == o[p];
      } else {
        var k: nat :| k < |o| && o' == Without(o, k);
        assert forall p :: 0 <= p < |o'| ==> o'[p] == o[Was(k, p)];
      }
    }
  }

  lemma StepEarlier(s: State, i: nat, s': State, b: nat, a: nat)
    requires BaseInv(s) && BaseInv(s') && i < |s.txs| == |s'.txs| && TxStep(s, i, s') && a < |s.txs| && b < |s.txs|
    requires InOrder(s.txs[b].pc) || Gone(s.txs[b].pc)
    requires Earlier(s.order, b, a)
    ensures Earlier(s'.order, b, a)
  {
    hide TxStep, SharedBase, TxsBase, NewsApart, Owned, OrderChange, Earlier;
    StepStays(s, i, s', b);
    StepOrder(s, i, s');
    assert Gone(s'.txs[b].pc) ==> !InOrder(s'.txs[b].pc);
    assert b in s'.order ==> b in s.order;
    ChangeEarlier(s.order, s'.order, b, a);
  }

  /** In every run, if `b` held all its locks at some instant when `a` did not yet, then `b` comes first for
      good. */
  lemma {:induction false} LockingOrders(tr: seq<State>, j: nat, k: nat, b: nat, a: nat)
    requires Run(tr) && j <= k < |tr| && a < |tr[j].txs| && b < |tr[j].txs|
    requires InOrder(tr[j].txs[b].pc) && !InOrder(tr[j].txs[a].pc)
    ensures |tr[k].txs| == |tr[j].txs| && (InOrder(tr[k].txs[b].pc) || Gone(tr[k].txs[b].pc))
    ensures Earlier(tr[k].order, b, a)
    decreases k - j
  {
    hide TxStep, SharedBase, TxsBase, NewsApart, Owned;
    EveryRun(tr, k);
    if j == k {
      assert a !in tr[j].order;
    } else {
      LockingOrders(tr, j, k - 1, b, a);
      EveryRun(tr, k - 1);
      assert Next(tr[k - 1], tr[k]);
      var i: nat :| i < |tr[k - 1].txs| == |tr[k].txs| && TxStep(tr[k - 1], i, tr[k]);
      hide BaseInv;
      StepStays(tr[k - 1], i, tr[k], b);
      StepEarlier(tr[k - 1], i, tr[k], b, a);
    }
  }

  // ---------------------------------------------------------------- the serial order follows the locking

  /** At every instant, if a transaction of `ids` holds all its locks then so does each one before it. */
  predicate FollowsLocking(tr: seq<State>, k: nat, ids: seq<nat>)
    requires k < |tr|
  {
    forall p, q, j | 0 <= p < q < |ids| && 0 <= j <= k && ids[p] < |tr[j].txs| && ids[q] < |tr[j].txs| ::
      InOrder(tr[j].txs[ids[q]].pc) ==> InOrder(tr[j].txs[ids[p]].pc)
  }

  lemma {:induction false} SerialIdsOrdered(s: State, m: nat, p: nat, q: nat)
    requires Shape(s) && Membership(s) && m <= |s.order| && p < q < |SerialIds(s, m)|
    ensures exists x, y :: 0 <= x < y < m && s.order[x] == SerialIds(s, m)[p] && s.order[y] == SerialIds(s, m)[q]
  {
    var ids, earlier := SerialIds(s, m), SerialIds(s, m - 1);
    if q < |earlier| {
      SerialIdsOrdered(s, m - 1, p, q);
    } else {
      SerialIdsAre(s, m - 1);
      assert ids[p] in earlier;
      var x :| 0 <= x < m - 1 && s.order[x] == ids[p];
      assert s.order[m - 1] == ids[q];
    }
  }

  lemma SerialIdsFollow(tr: seq<State>, k: nat)
    requires Run(tr) && k < |tr| && Shape(tr[k]) && Membership(tr[k])
    ensures FollowsLocking(tr, k, SerialIds(tr[k], |tr[k].order|))
  {
    var s := tr[k];
    var ids := SerialIds(s, |s.order|);
    hide Next;
    forall p, q, j | 0 <= p < q < |ids| && 0 <= j <= k && ids[p] < |tr[j].txs| && ids[q] < |tr[j].txs|
      && InOrder(tr[j].txs[ids[q]].pc)
      ensures InOrder(tr[j].txs[ids[p]].pc)
    {
      if !InOrder(tr[j].txs[ids[p]].pc) {
        LockingOrders(tr, j, k, ids[q], ids[p]);
        SerialIdsOrdered(s, |s.order|, p, q);
      }
    }
  }

  /** In every state of a run up to which no transaction has committed with a stale link, the committed
      transactions are serializable on key membership, in the order in which they came to hold all their
      locks; the committed list ends with the same keys. */
  lemma CommittedAreSerializable(tr: seq<State>, k: nat)
    requires Run(tr) && k < |tr| && Faithful(tr[k])
    ensures exists ids ::
      && Serializes(tr[k].txs, ids, Keys(tr[0].sh.committed), Keys(tr[k].sh.committed))
      && FollowsLocking(tr, k, ids)
  {
    RunKeeps(tr, k);
    SerialIdsSerialize(tr, k);
    SerialIdsFollow(tr, k);
  }

  // ---------------------------------------------------------------- who wrote what was read

  /** The transaction at position `q` has committed a write to `n`. */
  predicate WroteAt(s: State, q: nat, n: Node)
    requires Shape(s) && q < |s.order|
  {
    Decided(TxAt(s, q).pc) && n in Writes(TxAt(s, q).d)
  }

  lemma {:induction false} Unwritten(s: State, q: nat, p: nat, n: Node)
    requires Shape(s) && Chain(s) && q <= p <= |s.order|
    requires forall r :: q <= r < p ==> !WroteAt(s, r, n)
    ensures n in s.heaps[q] <==> n in s.heaps[p]
    ensures n in s.heaps[q] ==> s.heaps[p][n] == s.heaps[q][n]
    decreases p - q
  {
    hide WellFormed;
    if q < p {
      Unwritten(s, q, p - 1, n);
      assert s.heaps[p] == Post(s, p - 1);
      assert !WroteAt(s, p - 1, n);
    }
  }

  lemma ReadAtPlace(s: State, p: nat, n: Node)
    requires StateInv(s) && p < |s.order| && Decided(TxAt(s, p).pc) && n in TxAt(s, p).d.snap
    ensures n in s.heaps[p] && s.heaps[p][n] == TxAt(s, p).d.snap[n]
  {
    hide SharedInv, TxsInv, BaseInv, Chain, Apart;
    assert Place(s, p) && ReadOk(s, p, n);
  }

  /** The link that a committed transaction took from memory is the one the list at its place holds. */
  lemma UsedAtPlace(s: State, p: nat, n: Node, link: Option<Node>)
    requires StateInv(s) && p < |s.order| && Decided(TxAt(s, p).pc) && (n, link) in TxAt(s, p).d.used
    ensures n in s.heaps[p] && s.heaps[p][n].next == link
  {
    OrderedFacts(s, p);
    assert UsedInv(TxAt(s, p).d);
    hide BaseInv, Sound;
    ReadAtPlace(s, p, n);
  }

  /** A link that a committed transaction took from memory and acted on is the one that the last committed
      writer of the node before it in the order left there, and nothing that a later one wrote. */
  lemma ReadsLastWriter(tr: seq<State>, k: nat, q: nat, p: nat, n: Node, link: Option<Node>)
    requires Run(tr) && k < |tr| && Faithful(tr[k]) && Shape(tr[k]) && q < p < |tr[k].order|
    requires Decided(TxAt(tr[k], p).pc) && (n, link) in TxAt(tr[k], p).d.used
    requires WroteAt(tr[k], q, n) && forall r :: q < r < p ==> !WroteAt(tr[k], r, n)
    ensures Writes(TxAt(tr[k], q).d)[n].next == link
  {
    RunKeeps(tr, k);
    var s := tr[k];
    UsedAtPlace(s, p, n, link);
    assert s.heaps[q + 1] == Post(s, q);
    Unwritten(s, q + 1, p, n);
  }

  /** ... or, if nobody before it wrote the node, the one that the initial list holds. */
  lemma ReadsInitial(tr: seq<State>, k: nat, p: nat, n: Node, link: Option<Node>)
    requires Run(tr) && k < |tr| && Faithful(tr[k]) && Shape(tr[k]) && p < |tr[k].order|
    requires Decided(TxAt(tr[k], p).pc) && (n, link) in TxAt(tr[k], p).d.used
    requires forall r :: 0 <= r < p ==> !WroteAt(tr[k], r, n)
    ensures n in tr[0].sh.committed && tr[0].sh.committed[n].next == link
  {
    RunKeeps(tr, k);
    RunBase(tr, k);
    UsedAtPlace(tr[k], p, n, link);
    Unwritten(tr[k], 0, p, n);
  }
}
