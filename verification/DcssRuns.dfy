/** What every run of the DCSS machine satisfies. */
module DcssRuns {
  import opened Dcss
  import opened DcssProof

  ghost predicate Run(tr: seq<State>)
  {
    0 < |tr| && Init(tr[0]) && forall k: nat :: k + 1 < |tr| ==> Next(tr[k], tr[k + 1])
  }

  lemma NextKeeps(s: State, s': State)
    requires Inv(s) && Next(s, s')
    ensures Inv(s')
  {
    hide Inv, OutsideStep, ThreadStep;
    if OutsideStep(s, s') {
      OutsideKeeps(s, s');
    } else {
      var t: nat :| t < |s.threads| && ThreadStep(s, t, s');
      ThreadKeeps(s, t, s');
    }
  }

  // ---------------------------------------------------------------- what only grows

  predicate Grows(s: State, s': State)
  {
    && |s'.threads| == |s.threads| && |s'.desc| == |s.desc|
    && s.installed <= s'.installed && s.removed <= s'.removed
    && (forall id :: id in s.published ==> id in s'.published && s'.published[id] == s.published[id])
    && (forall id :: id in s.decided ==> id in s'.decided && s'.decided[id] == s.decided[id])
    && s'.control.Keys == s.control.Keys && s'.data.Keys == s.data.Keys
  }

  lemma PublishOnce(s: State, t: nat, s': State)
    requires Inv(s) && t < |s.threads| && PrepareStep(s, t, s')
    ensures Grows(s, s')
  {
    assert IdInv(s, Id(t, s.desc[t].num + 1));
    hide Inv;
  }

  lemma DecideOnce(s: State, t: nat, s': State)
    requires Inv(s) && t < |s.threads| && HelpStep(s, t, s')
    ensures Grows(s, s')
  {
    HelpWords(s, t);
    assert DescInv(s, s.threads[t].pc.h.id.tid);
    if s.threads[t].pc.h.own { OwnCurrent(s, t); }
    hide Inv;
  }

  lemma AttemptShape(s: State, t: nat, s': State)
    requires t < |s.threads| == |s.desc| && AttemptStep(s, t, s')
    ensures |s'.threads| == |s.threads|
    ensures s' == Move(s, t, s'.threads[t].pc) || (|s.desc[t].f| == FIELDS && s.desc[t].f[ADDR2] in s.data && s' == Installed(s, t))
  {
  }

  lemma AttemptGrows(s: State, t: nat, s': State)
    requires t < |s.threads| == |s.desc| && AttemptStep(s, t, s')
    ensures Grows(s, s')
  {
    AttemptShape(s, t, s');
    hide AttemptStep;
    if s' != Move(s, t, s'.threads[t].pc) { assert s'.data.Keys == s.data.Keys; }
  }

  lemma SnapshotGrows(s: State, t: nat, s': State)
    requires t < |s.threads| == |s.desc| && SnapshotStep(s, t, s')
    ensures Grows(s, s')
  {
    assert s' == Move(s, t, s'.threads[t].pc);
    hide SnapshotStep;
  }

  lemma BeginGrows(s: State, t: nat, op: Op, s': State)
    requires t < |s.threads| && BeginStep(s, t, op, s')
    ensures Grows(s, s')
  {
  }

  lemma StepGrows(s: State, s': State)
    requires Inv(s) && Next(s, s')
    ensures Grows(s, s')
  {
    hide Inv, HelpStep, PrepareStep, AttemptStep, SnapshotStep, BeginStep;
    if !OutsideStep(s, s') {
      hide Grows;
      var t: nat :| t < |s.threads| && ThreadStep(s, t, s');
      if PrepareStep(s, t, s') { PublishOnce(s, t, s'); }
      else if HelpStep(s, t, s') { DecideOnce(s, t, s'); }
      else if AttemptStep(s, t, s') { AttemptGrows(s, t, s'); }
      else if SnapshotStep(s, t, s') { SnapshotGrows(s, t, s'); }
      else {
        var op :| BeginStep(s, t, op, s');
        BeginGrows(s, t, op, s');
      }
    }
  }

  lemma {:induction false} RunInv(tr: seq<State>, k: nat)
    requires Run(tr) && k < |tr|
    ensures Inv(tr[k])
  {
    hide Inv, Init, Next;
    if k == 0 {
      InitKeeps(tr[0]);
    } else {
      RunInv(tr, k - 1);
      assert Next(tr[k - 1], tr[k]);
      NextKeeps(tr[k - 1], tr[k]);
    }
  }

  lemma {:induction false} RunGrows(tr: seq<State>, j: nat, k: nat)
    requires Run(tr) && j <= k < |tr|
    ensures Grows(tr[j], tr[k])
    decreases k - j
  {
    hide Inv, Next, Init;
    if j < k {
      RunGrows(tr, j, k - 1);
      RunInv(tr, k - 1);
      assert Next(tr[k - 1], tr[k]);
      StepGrows(tr[k - 1], tr[k]);
    }
  }

  // ---------------------------------------------------------------- a tag's lifetime

  /** As long as its tag has not been removed, an installed operation has it in its word and nowhere else. */
  lemma TagWhere(s: State, id: Id)
    requires Inv(s) && id in s.installed
    ensures KnownId(s, id) && s.published[id][ADDR2] in s.data
    ensures id !in s.removed ==> s.data[s.published[id][ADDR2]] == Tag(id)
    ensures forall a :: a in s.data && s.data[a] == Tag(id) ==> a == s.published[id][ADDR2] && id !in s.removed
  {
    assert IdInv(s, id);
    forall a | a in s.data && s.data[a] == Tag(id) ensures a == s.published[id][ADDR2] && id !in s.removed { assert DataInv(s, a); }
  }

  lemma TagInstalled(s: State, a: int)
    requires Inv(s) && a in s.data && s.data[a].Tag?
    ensures s.data[a].id in s.installed
  {
    assert DataInv(s, a);
  }

  /** The instants at which a tag is in memory form one interval, and it is in the same word throughout. So an
      installed tag is removed at most once, whoever helps and however often the descriptor is reused. */
  lemma TagLifetimeIsOneInterval(tr: seq<State>, j: nat, m: nat, k: nat, a: int, b: int, id: Id)
    requires Run(tr) && j <= m <= k < |tr|
    requires a in tr[j].data && tr[j].data[a] == Tag(id) && b in tr[k].data && tr[k].data[b] == Tag(id)
    ensures a == b && a in tr[m].data && tr[m].data[a] == Tag(id)
  {
    hide Inv, Run;
    RunInv(tr, j);
    RunInv(tr, m);
    RunInv(tr, k);
    RunGrows(tr, j, m);
    RunGrows(tr, m, k);
    TagInstalled(tr[j], a);
    TagWhere(tr[j], id);
    TagWhere(tr[m], id);
    TagWhere(tr[k], id);
  }

  /** The step that removes a tag comes after the decision and writes the new value if the operation
      succeeded, the old one if it failed. */
  lemma RemovedAsDecided(tr: seq<State>, k: nat, a: int, id: Id)
    requires Run(tr) && k + 1 < |tr| && a in tr[k].data && tr[k].data[a] == Tag(id)
    requires a in tr[k + 1].data && tr[k + 1].data[a] != Tag(id)
    ensures id in tr[k].decided && id in tr[k].published && |tr[k].published[id]| == FIELDS
    ensures tr[k + 1].data[a] == Val(if tr[k].decided[id] then tr[k].published[id][NEW2] else tr[k].published[id][OLD2])
  {
    hide Inv, Run, HelpStep, PrepareStep, AttemptStep, SnapshotStep, BeginStep;
    RunInv(tr, k);
    var s, s' := tr[k], tr[k + 1];
    TagInstalled(s, a);
    TagWhere(s, id);
    assert Next(s, s') by { StepAt(tr, k); }
    var t: nat :| t < |s.threads| && ThreadStep(s, t, s');
    if HelpStep(s, t, s') { RemovalWrites(s, t, s', a, id); } else { OnlyHelpRemoves(s, t, s', a); }
  }

  lemma StepAt(tr: seq<State>, k: nat)
    requires Run(tr) && k + 1 < |tr|
    ensures Next(tr[k], tr[k + 1])
  {
  }

  lemma AttemptKeepsTags(s: State, t: nat, s': State, a: int)
    requires t < |s.threads| == |s.desc| && AttemptStep(s, t, s') && a in s.data && s.data[a].Tag?
    ensures a in s'.data && s'.data[a] == s.data[a]
  {
  }

  lemma SnapshotSameData(s: State, t: nat, s': State)
    requires t < |s.threads| == |s.desc| && SnapshotStep(s, t, s')
    ensures s'.data == s.data
  {
  }

  lemma OnlyHelpRemoves(s: State, t: nat, s': State, a: int)
    requires t < |s.threads| == |s.desc| && ThreadStep(s, t, s') && a in s.data && s.data[a].Tag?
    requires !HelpStep(s, t, s')
    ensures a in s'.data && s'.data[a] == s.data[a]
  {
    hide HelpStep, AttemptStep, SnapshotStep;
    if AttemptStep(s, t, s') { AttemptKeepsTags(s, t, s', a); }
    else if SnapshotStep(s, t, s') { SnapshotSameData(s, t, s'); }
  }

  lemma RemovalWrites(s: State, t: nat, s': State, a: int, id: Id)
    requires Inv(s) && t < |s.threads| && HelpStep(s, t, s') && a in s.data && s.data[a] == Tag(id) && id in s.installed
    requires a in s'.data && s'.data[a] != Tag(id)
    ensures id in s.decided && id in s.published && |s.published[id]| == FIELDS
    ensures s'.data[a] == Val(if s.decided[id] then s.published[id][NEW2] else s.published[id][OLD2])
  {
    HelpWords(s, t);
    assert OwnerInv(s, t) && HelperInv(s, t) && IdInv(s, id) && DataInv(s, a);
    hide Inv;
  }

  /** When a dcss returns success or a failure on its control word, its tag has been installed and removed. */
  lemma FinishedLeavesNoTag(tr: seq<State>, k: nat, t: nat)
    requires Run(tr) && k < |tr| && t < |tr[k].threads| && tr[k].threads[t].op.DcssOp? && tr[k].threads[t].pc.Returned?
    requires !tr[k].threads[t].pc.res.FailedAddr2?
    ensures t < |tr[k].desc| && Current(tr[k], t) in tr[k].installed && Current(tr[k], t) in tr[k].removed
    ensures forall a :: a in tr[k].data ==> tr[k].data[a] != Tag(Current(tr[k], t))
  {
    RunInv(tr, k);
    var s := tr[k];
    assert OwnerInv(s, t) && IdInv(s, Current(s, t));
    hide Run;
    TagWhere(s, Current(s, t));
  }

  // ---------------------------------------------------------------- helpers

  /** A helper that got hold of a snapshot works with exactly what the owner passed to the operation the tag
      names, however often the owner has reused the descriptor while it was being copied or since. */
  lemma SnapshotIsConsistent(tr: seq<State>, j: nat, k: nat, o: nat, t: nat)
    requires Run(tr) && j <= k < |tr| && o < |tr[j].threads| == |tr[j].desc| && t < |tr[k].threads|
    requires Own(tr[j].threads[o].pc) && Helping(tr[k].threads[t].pc) && tr[k].threads[t].pc.h.id == Current(tr[j], o)
    ensures tr[j].threads[o].op.DcssOp? && o < |tr[k].desc|
    ensures Words(tr[k], tr[k].threads[t].pc.h) == tr[j].threads[o].op.args + [Current(tr[j], o).num]
  {
    RunInv(tr, j);
    RunInv(tr, k);
    RunGrows(tr, j, k);
    assert OwnerInv(tr[j], o);
    hide Inv, Run;
    HelpWords(tr[k], t);
  }

  /** A helper never follows a wild address: whatever it reads or swaps exists. */
  lemma HelpStaysInMemory(tr: seq<State>, k: nat, t: nat)
    requires Run(tr) && k < |tr| && t < |tr[k].threads| && Helping(tr[k].threads[t].pc)
    ensures var h := tr[k].threads[t].pc.h;
            && h.id.tid < |tr[k].desc| && |Words(tr[k], h)| == FIELDS + 1
            && Words(tr[k], h)[ADDR1] in tr[k].control && Words(tr[k], h)[ADDR2] in tr[k].data
  {
    RunInv(tr, k);
    hide Inv, Run;
    HelpWords(tr[k], t);
  }

  /** A late helper of a finished operation changes nothing, neither the data words nor anybody's descriptor,
      even when its failed compare-and-swap returns the state of a later operation. */
  lemma LateHelperIsHarmless(tr: seq<State>, k: nat, t: nat)
    requires Run(tr) && k + 1 < |tr| && t < |tr[k].threads| == |tr[k].desc| && HelpStep(tr[k], t, tr[k + 1])
    requires tr[k].threads[t].pc.h.id in tr[k].removed
    ensures tr[k + 1].data == tr[k].data && tr[k + 1].desc == tr[k].desc && tr[k + 1].control == tr[k].control
  {
    RunInv(tr, k);
    hide Run, HelpStep;
    RemovedIsOver(tr[k], t);
    hide Inv;
    HarmlessStep(tr[k], t, tr[k + 1]);
  }

  /** The tag is gone, and the state of the operation cannot change any more. */
  predicate Over(s: State, h: Help)
  {
    && h.id.tid < |s.desc| && |Words(s, h)| == FIELDS + 1
    && (s.desc[h.id.tid].num == Words(s, h)[FIELDS] ==> s.desc[h.id.tid].state != Undecided)
    && forall a :: a in s.data ==> s.data[a] != Tag(h.id)
  }

  lemma RemovedIsOver(s: State, t: nat)
    requires Inv(s) && t < |s.threads| && Helping(s.threads[t].pc) && s.threads[t].pc.h.id in s.removed
    ensures Over(s, s.threads[t].pc.h)
  {
    var h := s.threads[t].pc.h;
    HelpWords(s, t);
    assert IdInv(s, h.id) && DescInv(s, h.id.tid);
    hide Inv;
    if s.desc[h.id.tid].num == h.id.num { assert Current(s, h.id.tid) == h.id; }
    forall a | a in s.data ensures s.data[a] != Tag(h.id) { TagWhere(s, h.id); }
  }

  lemma HarmlessStep(s: State, t: nat, s': State)
    requires t < |s.threads| == |s.desc| && HelpStep(s, t, s') && Over(s, s.threads[t].pc.h)
    ensures s'.data == s.data && s'.desc == s.desc && s'.control == s.control
  {
    var h := s.threads[t].pc.h;
    var a := Words(s, h)[ADDR2];
    assert a in s.data ==> s.data[a] != Tag(h.id);
  }
}
