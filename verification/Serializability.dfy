/** Serializability: what holds in every state of a run in which no committed transaction has copied a stale
    link. */
module Serializability {
  import opened ListHeap
  import opened Transactions
  import opened TxInvariant
  import opened SerialOrder
  import opened TxEveryRun
  import opened TxMachine

  /** What a transaction past its commit point has committed stays as it is. */
  lemma DecidedStays(s: State, i: nat, s': State, b: nat)
    requires i < |s.txs| == |s'.txs| && TxStep(s, i, s') && b < |s.txs| && Decided(s.txs[b].pc)
    ensures Decided(s'.txs[b].pc) && s'.txs[b].d.stale == s.txs[b].d.stale
  {
    hide PredStep, NextStep, GetStep, OverwriteStep, RemoveStep, Without, WithWrites, AddRead, Removed, Overwritten;
  }

  lemma {:induction false} FaithfulBefore(tr: seq<State>, j: nat, k: nat)
    requires Run(tr) && j <= k < |tr| && Faithful(tr[k])
    ensures Faithful(tr[j])
    decreases k - j
  {
    hide TxStep, Init, Decided;
    if j < k {
      assert Next(tr[k - 1], tr[k]);
      var i: nat :| i < |tr[k - 1].txs| == |tr[k].txs| && TxStep(tr[k - 1], i, tr[k]);
      forall b: nat {:trigger tr[k - 1].txs[b]} | b < |tr[k - 1].txs| && Decided(tr[k - 1].txs[b].pc) ensures !tr[k - 1].txs[b].d.stale {
        DecidedStays(tr[k - 1], i, tr[k], b);
      }
      FaithfulBefore(tr, j, k - 1);
    }
  }

  /** The invariant holds in every state of a run up to which no transaction has committed with a stale link. */
  lemma {:induction false} RunKeeps(tr: seq<State>, k: nat)
    requires Run(tr) && k < |tr| && Faithful(tr[k])
    ensures StateInv(tr[k]) && |tr[k].txs| == |tr[0].txs|
  {
    hide StateInv, TxStep, Init, Faithful;
    if k == 0 {
      InitKeeps(tr[0]);
    } else {
      FaithfulBefore(tr, k - 1, k);
      RunKeeps(tr, k - 1);
      assert Next(tr[k - 1], tr[k]);
      var i: nat :| i < |tr[k - 1].txs| == |tr[k].txs| && TxStep(tr[k - 1], i, tr[k]);
      StepKeeps(tr[k - 1], i, tr[k]);
    }
  }

  // ---------------------------------------------------------------- the first heap is the initial list

  lemma StepFirst(s: State, i: nat, s': State)
    requires StateInv(s) && i < |s.txs| == |s'.txs| && TxStep(s, i, s')
    ensures |s'.heaps| > 0 && s'.heaps[0] == s.heaps[0]
  {
    hide BaseInv, SharedInv, TxsInv, LocalStep, MemoryStep, ValidationFails, CommitStep, Membership, WellFormed;
    if ValidationFailStep(s, i, s') {
      var p: nat :| p < |s.order| < |s.heaps| && s.order[p] == i
         && s' == State(s.sh, s.txs[i := Tx(Unlocking(false), s.txs[i].d)], Without(s.order, p), Without(s.heaps, p));
      if p == 0 {
        assert s.heaps[1] == Post(s, 0);
        FailsTentative(s.sh, s.txs[i]);
      }
    }
  }

  lemma {:induction false} RunBase(tr: seq<State>, k: nat)
    requires Run(tr) && k < |tr| && Faithful(tr[k])
    ensures |tr[k].heaps| > 0 && tr[k].heaps[0] == tr[0].sh.committed
  {
    hide StateInv, TxStep, Faithful;
    if k > 0 {
      FaithfulBefore(tr, k - 1, k);
      RunBase(tr, k - 1);
      RunKeeps(tr, k - 1);
      assert Next(tr[k - 1], tr[k]);
      var i: nat :| i < |tr[k - 1].txs| == |tr[k].txs| && TxStep(tr[k - 1], i, tr[k]);
      StepFirst(tr[k - 1], i, tr[k]);
    }
  }

  // ---------------------------------------------------------------- serializability

  /** The committed transactions among the first `p` of the order, in that order. */
  ghost function SerialIds(s: State, p: nat): seq<nat>
    requires Shape(s) && p <= |s.order|
  {
    if p == 0 then []
    else SerialIds(s, p - 1) + if Decided(TxAt(s, p - 1).pc) then [s.order[p - 1]] else []
  }

  /** The operations of the given transactions, one transaction after another. */
  function Logs(txs: seq<Tx>, ids: seq<nat>): seq<Event>
    requires forall k :: 0 <= k < |ids| ==> ids[k] < |txs|
  {
    if ids == [] then [] else Logs(txs, ids[..|ids| - 1]) + txs[ids[|ids| - 1]].d.log
  }

  /** `ids` lists the committed transactions, and running them one after another on a set of keys that
      starts as `initial` gives every recorded result, and `final` at the end. */
  predicate Serializes(txs: seq<Tx>, ids: seq<nat>, initial: set<nat>, final: set<nat>)
  {
    && (forall k :: 0 <= k < |ids| ==> ids[k] < |txs|)
    && (forall j, k :: 0 <= j < k < |ids| ==> ids[j] != ids[k])
    && (forall i: nat :: i < |txs| ==> (i in ids <==> Decided(txs[i].pc)))
    && Explains(initial, Logs(txs, ids))
    && After(initial, Logs(txs, ids)) == final
  }

  /** ... in some order. */
  ghost predicate Serializable(txs: seq<Tx>, initial: set<nat>, final: set<nat>)
  {
    exists ids :: Serializes(txs, ids, initial, final)
  }

  lemma {:induction false} SerialIdsAre(s: State, p: nat)
    requires Shape(s) && Membership(s) && p <= |s.order|
    ensures forall k :: 0 <= k < |SerialIds(s, p)| ==> SerialIds(s, p)[k] < |s.txs|
    ensures forall j, k :: 0 <= j < k < |SerialIds(s, p)| ==> SerialIds(s, p)[j] != SerialIds(s, p)[k]
    ensures forall i :: i in SerialIds(s, p) <==> exists q :: 0 <= q < p && s.order[q] == i && Decided(TxAt(s, q).pc)
  {
    if p > 0 {
      SerialIdsAre(s, p - 1);
      var earlier := SerialIds(s, p - 1);
      assert s.order[p - 1] !in earlier;
      assert SerialIds(s, p) == if Decided(TxAt(s, p - 1).pc) then earlier + [s.order[p - 1]] else earlier;
      forall i | i in SerialIds(s, p) ensures exists q :: 0 <= q < p && s.order[q] == i && Decided(TxAt(s, q).pc) {
        if i in earlier {
          var q :| 0 <= q < p - 1 && s.order[q] == i && Decided(TxAt(s, q).pc);
        } else {
          assert s.order[p - 1] == i;
        }
      }
      forall i | exists q :: 0 <= q < p && s.order[q] == i && Decided(TxAt(s, q).pc) ensures i in SerialIds(s, p) {
        var q :| 0 <= q < p && s.order[q] == i && Decided(TxAt(s, q).pc);
        if q < p - 1 { assert i in earlier; }
      }
    }
  }

  /** The list at one place of the order comes from the list before it by the operations done there. */
  predicate Explained(s: State, p: nat)
    requires Shape(s) && p < |s.order|
  {
    if Decided(TxAt(s, p).pc) then
      && Explains(Keys(s.heaps[p]), TxAt(s, p).d.log)
      && After(Keys(s.heaps[p]), TxAt(s, p).d.log) == Keys(s.heaps[p + 1])
    else s.heaps[p + 1] == s.heaps[p]
  }

  /** One committed transaction, run on the list left by those before it. */
  lemma PlaceExplains(s: State, p: nat)
    requires StateInv(s) && p < |s.order|
    ensures Explained(s, p)
  {
    OrderedFacts(s, p);
    hide BaseInv, SharedInv, TxsInv, OrderInv, Good, Explained;
    GoodExplains(s, p);
  }

  lemma GoodExplains(s: State, p: nat)
    requires OrderInv(s) && p < |s.order| && (Decided(TxAt(s, p).pc) ==> Good(TxAt(s, p).d))
    ensures Explained(s, p)
  {
    var d := TxAt(s, p).d;
    assert Place(s, p) && s.heaps[p + 1] == Post(s, p);
    hide Membership, WellFormed;
    if Decided(TxAt(s, p).pc) {
      forall n | n in d.snap ensures n in s.heaps[p] && s.heaps[p][n] == d.snap[n] { assert ReadOk(s, p, n); }
      assert CorrectOn(d, s.heaps[p]);
    }
  }

  lemma {:induction false} SerialExplains(s: State, p: nat)
    requires Shape(s) && p <= |s.order| && forall q :: 0 <= q < |s.order| ==> Explained(s, q)
    requires forall k :: 0 <= k < |SerialIds(s, p)| ==> SerialIds(s, p)[k] < |s.txs|
    ensures Explains(Keys(s.heaps[0]), Logs(s.txs, SerialIds(s, p)))
    ensures After(Keys(s.heaps[0]), Logs(s.txs, SerialIds(s, p))) == Keys(s.heaps[p])
  {
    if p > 0 {
      hide Keys;
      var earlier, ids := SerialIds(s, p - 1), SerialIds(s, p);
      forall k | 0 <= k < |earlier| ensures earlier[k] < |s.txs| { assert ids[k] == earlier[k]; }
      SerialExplains(s, p - 1);
      assert Explained(s, p - 1);
      if Decided(TxAt(s, p - 1).pc) {
        assert ids[..|ids| - 1] == earlier;
        ExplainsConcat(Keys(s.heaps[0]), Logs(s.txs, earlier), TxAt(s, p - 1).d.log);
      } else {
        assert ids == earlier;
      }
    }
  }

  lemma SerialHere(s: State)
    requires OrderInv(s) && forall p :: 0 <= p < |s.order| && Decided(TxAt(s, p).pc) ==> Good(TxAt(s, p).d)
    ensures Serializes(s.txs, SerialIds(s, |s.order|), Keys(s.heaps[0]), Keys(s.heaps[|s.order|]))
  {
    hide Good, Place, Apart, Chain, Keys, Explained, Explains, After;
    forall q | 0 <= q < |s.order| ensures Explained(s, q) { GoodExplains(s, q); }
    SerialIdsAre(s, |s.order|);
    SerialExplains(s, |s.order|);
    SerialIdsAll(s);
  }

  lemma SerialIdsSerialize(tr: seq<State>, k: nat)
    requires Run(tr) && k < |tr| && Faithful(tr[k])
    ensures StateInv(tr[k])
    ensures Serializes(tr[k].txs, SerialIds(tr[k], |tr[k].order|), Keys(tr[0].sh.committed), Keys(tr[k].sh.committed))
  {
    hide Serializes, Run, Faithful, BaseInv, SharedInv, TxsInv, Place, Apart, WellFormed, Keys, Good;
    RunKeeps(tr, k);
    RunBase(tr, k);
    forall p | 0 <= p < |tr[k].order| ensures Decided(TxAt(tr[k], p).pc) ==> Good(TxAt(tr[k], p).d) {
      OrderedFacts(tr[k], p);
    }
    SerialHere(tr[k]);
  }

  lemma SerialIdsAll(s: State)
    requires Shape(s) && Membership(s)
    ensures forall i: nat :: i < |s.txs| ==> (i in SerialIds(s, |s.order|) <==> Decided(s.txs[i].pc))
  {
    SerialIdsAre(s, |s.order|);
    forall i: nat | i < |s.txs| && Decided(s.txs[i].pc) ensures i in SerialIds(s, |s.order|) {
      assert i in s.order;
      var q :| 0 <= q < |s.order| && s.order[q] == i;
    }
  }

  // ---------------------------------------------------------------- inside one transaction

  /** Before its commit point, and not aborting. */
  predicate Running(pc: Pc) { pc.Ready? || InOperation(pc) || pc.Locking? || pc.LockCas? }

  /** A transaction that no later commit has overtaken sees, through its write set, a well-formed list whose
      keys are those its operations so far produce from the committed ones, with the results they returned;
      and it writes only nodes of its read set. What node the index offered does not matter. */
  lemma OverlayIsSetOfKeys(tr: seq<State>, k: nat, i: nat)
    requires Run(tr) && k < |tr| && Faithful(tr[k]) && i < |tr[k].txs| && Running(tr[k].txs[i].pc)
    ensures var sh, d := tr[k].sh, tr[k].txs[i].d;
            && d.ws.Keys <= d.rs
            && (Clean(sh, d) ==> WellFormed(View(sh, d)) && Explains(Keys(sh.committed), d.log)
                                 && After(Keys(sh.committed), d.log) == Keys(View(sh, d)))
  {
    hide Run, Faithful, StateInv, Running, WellFormed, Explains, After, Clean, View, Keys;
    RunKeeps(tr, k);
    RunningHere(tr[k], i);
    OverlayHere(tr[k].sh, tr[k].txs[i], i);
  }

  lemma RunningHere(s: State, i: nat)
    requires StateInv(s) && i < |s.txs| && Running(s.txs[i].pc)
    ensures SharedInv(s.sh) && RunningInv(s.sh, s.txs[i], i)
  {
    hide BaseInv, SharedInv, OrderInv, RunningInv;
    assert TxInv(s.sh, s.txs[i], i);
  }

  lemma OverlayHere(sh: Shared, x: Tx, i: nat)
    requires SharedInv(sh) && RunningInv(sh, x, i)
    ensures x.d.ws.Keys <= x.d.rs
    ensures Clean(sh, x.d) ==> WellFormed(View(sh, x.d)) && Explains(Keys(sh.committed), x.d.log)
                               && After(Keys(sh.committed), x.d.log) == Keys(View(sh, x.d))
  {
    hide PcInv;
    if Clean(sh, x.d) { assert CorrectOn(x.d, sh.committed); }
    hide WellFormed, Explains, After;
  }
}
