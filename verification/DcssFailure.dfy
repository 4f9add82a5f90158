/** The value that comes with FAILED_ADDR1. It is what the thread itself last read of addr1, not what whoever
    decided the failure read there: so it may be old1, and if it is, another thread decided. */
module DcssFailure {
  import opened Dcss
  import opened DcssProof
  import opened DcssRuns
  import opened DcssLinearization

  // ---------------------------------------------------------------- where the value comes from

  /** The owner carries the value `v` of addr1, or has returned it. */
  predicate Carries(x: Thread, v: int)
  {
    || (Own(x.pc) && HasVal(x.pc) && x.pc.val1 == v)
    || (x.op.DcssOp? && x.pc == Returned(FailedAddr1(v)))
  }

  /** The owner is about to read `v` from addr1. */
  predicate ReadsOwn(s: State, x: Thread, v: int) { Own(x.pc) && Reads(s, x.pc, v) }

  /** The call of `t` that is in progress is the same one. */
  predicate SameCall(s: State, s': State, t: nat)
  {
    && t < |s.threads| == |s.desc| && |s'.threads| == |s.threads| && |s'.desc| == |s.desc|
    && s'.threads[t].op == s.threads[t].op && Current(s', t) == Current(s, t)
  }

  /** Helping changes no sequence number and no operation. */
  lemma HelpSame(s: State, u: nat, s': State, t: nat)
    requires u < |s.threads| == |s.desc| && HelpStep(s, u, s') && t < |s.threads|
    ensures SameCall(s, s', t) && (t != u ==> s'.threads[t] == s.threads[t])
  {
    hide Words;
  }

  lemma HelpReturns(s: State, t: nat, s': State, v: int)
    requires t < |s.threads| == |s.desc| && HelpStep(s, t, s') && t < |s'.threads| && s'.threads[t].pc == Returned(FailedAddr1(v))
    ensures s.threads[t].pc.Cleanup? && s.threads[t].pc.h.own && s.threads[t].pc.val1 == v
  {
    hide Words;
  }

  lemma HelpCarries(s: State, u: nat, s': State, t: nat, v: int)
    requires u < |s.threads| == |s.desc| && HelpStep(s, u, s') && t < |s.threads| && t < |s'.threads| && Carries(s'.threads[t], v)
    ensures SameCall(s, s', t) && (Carries(s.threads[t], v) || ReadsOwn(s, s.threads[t], v))
  {
    hide HelpStep, Reads;
    HelpSame(s, u, s', t);
    if u == t {
      HelpOwnVal(s, t, s');
      if s'.threads[t].pc == Returned(FailedAddr1(v)) { HelpReturns(s, t, s', v); }
    }
  }

  lemma NotFailing(s: State, t: nat, s': State)
    requires t < |s.threads| == |s.desc| && ThreadStep(s, t, s') && !HelpStep(s, t, s') && t < |s'.threads|
    ensures s'.threads[t].pc.Returned? ==> !s'.threads[t].pc.res.FailedAddr1?
  {
    hide HelpStep;
    if SnapshotStep(s, t, s') { SnapshotPc(s, t, s'); }
    hide SnapshotStep;
  }

  lemma OtherCarries(s: State, u: nat, s': State, t: nat, v: int)
    requires u < |s.threads| == |s.desc| && ThreadStep(s, u, s') && !HelpStep(s, u, s') && t < |s.threads| && t < |s'.threads|
    requires Carries(s'.threads[t], v)
    ensures SameCall(s, s', t) && Carries(s.threads[t], v)
  {
    hide ThreadStep, HelpStep;
    NotHelping(s, u, s');
    if u == t { NotFailing(s, t, s'); } else { OthersDesc(s, u, s', t); }
  }

  lemma OthersDesc(s: State, u: nat, s': State, t: nat)
    requires u < |s.threads| == |s.desc| && ThreadStep(s, u, s') && !HelpStep(s, u, s') && t < |s.desc| && t != u
    ensures |s'.desc| == |s.desc| && s'.desc[t] == s.desc[t]
  {
    hide HelpStep;
    if SnapshotStep(s, u, s') { SnapshotPc(s, u, s'); }
    hide SnapshotStep;
  }

  lemma StepCarries(s: State, s': State, t: nat, v: int)
    requires Inv(s) && Next(s, s') && t < |s.threads| && t < |s'.threads| && Carries(s'.threads[t], v)
    ensures SameCall(s, s', t) && (Carries(s.threads[t], v) || ReadsOwn(s, s.threads[t], v))
  {
    hide Inv, HelpStep, ThreadStep, Carries, ReadsOwn;
    if !OutsideStep(s, s') {
      var u: nat :| u < |s.threads| && ThreadStep(s, u, s');
      hide OutsideStep;
      if HelpStep(s, u, s') { HelpCarries(s, u, s', t, v); } else { OtherCarries(s, u, s', t, v); }
    }
  }

  /** At instant `j` of the call the owner reads `v`; from the next instant up to `k` it carries it. */
  predicate CarriedSince(tr: seq<State>, j: nat, k: nat, t: nat, v: int)
  {
    && j < k < |tr| && t < |tr[j].threads| && ReadsOwn(tr[j], tr[j].threads[t], v) && SameCall(tr[j], tr[k], t)
    && forall m :: j < m <= k ==> SameCall(tr[m], tr[k], t) && Carries(tr[m].threads[t], v)
  }

  lemma {:induction false} CarriedFrom(tr: seq<State>, k: nat, t: nat, v: int) returns (j: nat)
    requires Run(tr) && k < |tr| && t < |tr[k].threads| && Carries(tr[k].threads[t], v)
    ensures CarriedSince(tr, j, k, t, v)
  {
    hide Inv, Next, Carries, ReadsOwn;
    RunInv(tr, k);
    assert |tr[k].threads| == |tr[k].desc| by { DescsMatch(tr[k]); }
    if k == 0 {
      NobodyCarries(tr[0], t, v);
      assert false;
    } else {
      RunInv(tr, k - 1);
      RunGrows(tr, k - 1, k);
      assert Next(tr[k - 1], tr[k]);
      StepCarries(tr[k - 1], tr[k], t, v);
      if Carries(tr[k - 1].threads[t], v) {
        j := CarriedFrom(tr, k - 1, t, v);
      } else {
        j := k - 1;
      }
    }
  }

  lemma DescsMatch(s: State)
    requires Inv(s)
    ensures |s.threads| == |s.desc|
  {
  }

  lemma NobodyCarries(s: State, t: nat, v: int)
    requires Init(s) && t < |s.threads|
    ensures !Carries(s.threads[t], v)
  {
  }

  /** What a dcss that fails on addr1 returns is what its own thread read of addr1 inside the call, after its tag
      went in. */
  lemma FailedValueWasRead(tr: seq<State>, k: nat, t: nat)
    requires Run(tr) && k < |tr| && t < |tr[k].threads| && tr[k].threads[t].op.DcssOp?
    requires tr[k].threads[t].pc.Returned? && tr[k].threads[t].pc.res.FailedAddr1?
    ensures var args, v := tr[k].threads[t].op.args, tr[k].threads[t].pc.res.v;
            && t < |tr[k].desc| && |args| == FIELDS
            && exists j: nat :: j < k && InsideCall(tr, j, k, t) && tr[j].threads[t].pc.ReadAddr1?
                 && args[ADDR1] in tr[j].control && tr[j].control[args[ADDR1]] == v
  {
    var v := tr[k].threads[t].pc.res.v;
    var j := CarriedFrom(tr, k, t, v);
    RunInv(tr, j);
    RunInv(tr, k);
    assert OwnerInv(tr[j], t) && OwnerInv(tr[k], t);
    HelpWords(tr[j], t);
    hide Inv, Run;
    assert InsideCall(tr, j, k, t);
  }

  // ---------------------------------------------------------------- who decided

  /** The owner never goes back: once it carries a value for operation `id`, it will not read again for it. */
  predicate PastRead(s: State, t: nat, id: Id)
    requires t < |s.threads| == |s.desc|
  {
    || s.desc[t].num > id.num
    || (Current(s, t) == id && id in s.installed && (Own(s.threads[t].pc) ==> HasVal(s.threads[t].pc)))
  }

  lemma StepPastRead(s: State, s': State, t: nat, id: Id)
    requires Inv(s) && Inv(s') && Next(s, s') && t < |s.threads| && t < |s'.threads| && id.tid == t && PastRead(s, t, id)
    ensures PastRead(s', t, id)
  {
    assert OwnerInv(s, t);
    StepGrows(s, s');
    hide Inv, OwnerInv, HelpStep;
    if !OutsideStep(s, s') {
      var u: nat :| u < |s.threads| && ThreadStep(s, u, s');
      hide OutsideStep;
      if HelpStep(s, u, s') { HelpPast(s, u, s', t, id); }
      else if u == t { OwnPast(s, s', t, id); }
      else { NotHelping(s, u, s'); OthersDesc(s, u, s', t); }
    }
  }

  lemma HelpPast(s: State, u: nat, s': State, t: nat, id: Id)
    requires u < |s.threads| == |s.desc| && HelpStep(s, u, s') && t < |s.threads| && PastRead(s, t, id)
    requires s.installed <= s'.installed && |s'.threads| == |s'.desc| == |s.desc|
    ensures PastRead(s', t, id)
  {
    HelpSame(s, u, s', t);
    hide Words;
  }

  lemma OwnPast(s: State, s': State, t: nat, id: Id)
    requires t < |s.threads| == |s.desc| && OwnerInv(s, t) && ThreadStep(s, t, s') && !HelpStep(s, t, s') && PastRead(s, t, id)
    requires s.installed <= s'.installed && |s'.threads| == |s'.desc| == |s.desc|
    ensures PastRead(s', t, id)
  {
    hide HelpStep;
    if SnapshotStep(s, t, s') { SnapshotPc(s, t, s'); }
    hide SnapshotStep;
  }

  lemma {:induction false} StaysPastRead(tr: seq<State>, j: nat, k: nat, t: nat, id: Id)
    requires Run(tr) && j <= k < |tr| && t < |tr[j].threads| == |tr[j].desc| && id.tid == t && PastRead(tr[j], t, id)
    ensures t < |tr[k].threads| == |tr[k].desc| && PastRead(tr[k], t, id)
    decreases k - j
  {
    hide Inv, Next, PastRead;
    RunInv(tr, k);
    DescsMatch(tr[k]);
    if j < k {
      StaysPastRead(tr, j, k - 1, t, id);
      RunInv(tr, k - 1);
      RunGrows(tr, k - 1, k);
      assert Next(tr[k - 1], tr[k]);
      StepPastRead(tr[k - 1], tr[k], t, id);
    }
  }

  /** In step `m` another thread, helping, decides that `id` fails, having read something other than old1. */
  predicate FailedByHelperAt(tr: seq<State>, m: nat, u: nat, id: Id)
  {
    && m + 1 < |tr|
    && var s, s' := tr[m], tr[m + 1];
    && u < |s.threads| && u != id.tid && s.threads[u].pc.CasState? && s.threads[u].pc.h.id == id
    && id in s.published && |s.published[id]| == FIELDS && s.threads[u].pc.val1 != s.published[id][OLD1]
    && id !in s.decided && id in s'.decided && !s'.decided[id]
  }

  lemma {:induction false} DecidingStep(tr: seq<State>, k: nat, id: Id) returns (m: nat)
    requires Run(tr) && k < |tr| && id in tr[k].decided
    ensures m < k && id !in tr[m].decided && id in tr[m + 1].decided && tr[m + 1].decided[id] == tr[k].decided[id]
  {
    hide Inv, Next;
    if k > 0 {
      RunGrows(tr, k - 1, k);
      if id in tr[k - 1].decided { m := DecidingStep(tr, k - 1, id); } else { m := k - 1; }
    }
  }

  /** A thread that decides an operation of its own is past the read. */
  lemma OwnDecision(s: State, t: nat, id: Id)
    requires Inv(s) && t < |s.threads| && id.tid == t && s.threads[t].pc.CasState? && s.threads[t].pc.h.id == id
    ensures PastRead(s, t, id)
  {
    assert OwnerInv(s, t) && HelperInv(s, t) && IdInv(s, id);
  }

  lemma NotByOwner(tr: seq<State>, m: nat, k: nat, t: nat, v: int)
    requires Run(tr) && m < k < |tr| && t < |tr[k].threads| == |tr[k].desc| && tr[k].threads[t].op.DcssOp?
    requires tr[k].threads[t].pc == Returned(FailedAddr1(v))
    requires t < |tr[m].threads| && tr[m].threads[t].pc.CasState? && tr[m].threads[t].pc.h.id == Current(tr[k], t)
    ensures tr[m].threads[t].pc.val1 == v
  {
    var id := Current(tr[k], t);
    var j := CarriedFrom(tr, k, t, v);
    if m <= j {
      RunInv(tr, m);
      OwnDecision(tr[m], t, id);
      StaysPastRead(tr, m, j, t, id);
    } else {
      assert Carries(tr[m].threads[t], v);
    }
  }

  /** If the value that comes with FAILED_ADDR1 is old1, then it was another thread that decided the failure, and
      that thread had read something else in addr1. A failure that the thread decided itself returns another
      value. */
  lemma FailedWithOld1(tr: seq<State>, k: nat, t: nat)
    requires Run(tr) && k < |tr| && t < |tr[k].threads| && tr[k].threads[t].op.DcssOp? && |tr[k].threads[t].op.args| == FIELDS
    requires tr[k].threads[t].pc == Returned(FailedAddr1(tr[k].threads[t].op.args[OLD1]))
    ensures t < |tr[k].desc| && exists m: nat, u: nat :: m < k && FailedByHelperAt(tr, m, u, Current(tr[k], t))
  {
    var v := tr[k].threads[t].op.args[OLD1];
    RunInv(tr, k);
    assert OwnerInv(tr[k], t);
    hide Run, Inv;
    DescsMatch(tr[k]);
    var id := Current(tr[k], t);
    var m := DecidingStep(tr, k, id);
    RunInv(tr, m);
    var u := WhoDecides(tr[m], tr[m + 1], id) by { StepAt(tr, m); }
    RunGrows(tr, m, k);
    if u == t { NotByOwner(tr, m, k, t, v); }
    assert FailedByHelperAt(tr, m, u, id);
  }
}
