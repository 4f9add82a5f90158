/** What every run of the LLX/SCX machine satisfies. */
module ScxRuns {
  import opened Scx
  import opened ScxInvariant
  import opened ScxProof

  ghost predicate Run(tr: seq<State>)
  {
    0 < |tr| && Init(tr[0]) && forall k: nat :: k + 1 < |tr| ==> Next(tr[k], tr[k + 1])
  }

  lemma StepAt(tr: seq<State>, k: nat)
    requires Run(tr) && k + 1 < |tr|
    ensures Next(tr[k], tr[k + 1])
  {
  }

  lemma {:induction false} RunInv(tr: seq<State>, k: nat)
    requires Run(tr) && k < |tr|
    ensures Inv(tr[k])
  {
    hide Inv, Init, Next;
    if k == 0 {
      InitKeeps(tr[0]);
    } else {
      RunInv(tr, k - 1);
      StepAt(tr, k - 1);
      NextKeeps(tr[k - 1], tr[k]);
    }
  }

  // ---------------------------------------------------------------- what a step does to a node and to the history

  /** A node's pointer either stays or goes to its past. */
  predicate PtrStep(a: Node, b: Node)
  {
    if b.ptr == a.ptr then b.past == a.past else b.past == a.past + {a.ptr}
  }

  predicate Later(s: State, s': State)
  {
    && s'.nodes.Keys == s.nodes.Keys
    && (forall n {:trigger n in s.nodes} {:trigger s'.nodes[n]} :: n in s.nodes ==> PtrStep(s.nodes[n], s'.nodes[n]) && (s.nodes[n].marked ==> s'.nodes[n].marked))
    && s.frozen <= s'.frozen && s.committed <= s'.committed && s.aborted <= s'.aborted
    && (forall id :: id in s.attempts ==> id in s'.attempts && s'.attempts[id] == s.attempts[id])
  }

  lemma FreezeLater(s: State, t: nat, s': State)
    requires Inv(s) && t < |s.threads| == |s.desc| && FreezeStep(s, t, s')
    ensures Later(s, s')
  {
    var pc := s.threads[t].pc;
    HelpView(s, t);
    if pc.Freeze? && pc.i < s.attempts[pc.h.id].count {
      var f := s.attempts[pc.h.id];
      assert NodeInv(s, f.nodes[pc.i]) && TagInv(s, f.nodes[pc.i], pc.h.id);
      if s.nodes[f.nodes[pc.i]].ptr == f.seen[pc.i] { NotYetHeld(s, pc.h.id, pc.i); }
    }
    hide Inv, AttemptInv;
  }

  lemma PrepareSameNodes(s: State, t: nat, s': State)
    requires t < |s.threads| == |s.desc| && PrepareStep(s, t, s')
    ensures s'.nodes == s.nodes && s'.values == s.values
    ensures s'.frozen == s.frozen && s'.committed == s.committed && s'.aborted == s.aborted
    ensures s'.attempts == s.attempts || s'.attempts == s.attempts[Id(t, s.desc[t].m.num + 1) := s.desc[t].f]
  {
  }

  lemma PrepareLater(s: State, t: nat, s': State)
    requires Inv(s) && t < |s.threads| == |s.desc| && PrepareStep(s, t, s')
    ensures Later(s, s')
  {
    assert AttemptInv(s, Id(t, s.desc[t].m.num + 1));
    PrepareSameNodes(s, t, s');
    hide Inv, PrepareStep, EntriesOk, AllFrozen, Dead, AllMarked;
  }

  lemma SnapshotMoves(s: State, t: nat, s': State)
    requires t < |s.threads| == |s.desc| && SnapshotStep(s, t, s')
    ensures t < |s'.threads| && s' == Move(s, t, s'.threads[t].pc)
  {
    hide CopyWord;
  }

  lemma CallSame(s: State, t: nat, s': State)
    requires t < |s.threads| == |s.desc| && CallStep(s, t, s')
    ensures s'.nodes == s.nodes && s'.frozen == s.frozen && s'.committed == s.committed && s'.aborted == s.aborted
    ensures s'.attempts == s.attempts && s'.values == s.values
  {
  }

  lemma QuietLater(s: State, t: nat, s': State)
    requires t < |s.threads| == |s.desc| && (LlxStep(s, t, s') || SnapshotStep(s, t, s') || CallStep(s, t, s'))
    ensures Later(s, s') && s'.values == s.values && s'.nodes == s.nodes && s'.frozen == s.frozen
    ensures s'.committed == s.committed && s'.aborted == s.aborted
  {
    hide SnapshotStep, CallStep;
    if SnapshotStep(s, t, s') { SnapshotMoves(s, t, s'); }
    else if CallStep(s, t, s') { CallSame(s, t, s'); }
    else {
      assert s'.nodes == s.nodes && s'.frozen == s.frozen && s'.committed == s.committed && s'.aborted == s.aborted
        && s'.attempts == s.attempts && s'.values == s.values by { hide Later; }
    }
    hide LlxStep;
  }

  lemma WriteSame(s: State, t: nat, s': State)
    requires t < |s.threads| == |s.desc| && WriteStep(s, t, s')
    ensures s'.nodes == s.nodes && s'.attempts == s.attempts && s'.values == s.values
    ensures s.frozen <= s'.frozen && s.committed <= s'.committed && s.aborted <= s'.aborted
  {
    hide View, AfterHelp;
  }

  lemma WriteLater(s: State, t: nat, s': State)
    requires t < |s.threads| == |s.desc| && WriteStep(s, t, s')
    ensures Later(s, s') && s'.values == s.values && s'.nodes == s.nodes
  {
    hide WriteStep;
    WriteSame(s, t, s');
  }

  lemma EffectLater(s: State, t: nat, s': State)
    requires t < |s.threads| == |s.desc| && EffectStep(s, t, s')
    ensures Later(s, s') && s'.frozen == s.frozen && s'.committed == s.committed
  {
  }

  lemma NextLater(s: State, s': State)
    requires Inv(s) && Next(s, s')
    ensures Later(s, s')
  {
    hide Inv, Later, LlxStep, SnapshotStep, CallStep, PrepareStep, FreezeStep, WriteStep, EffectStep;
    var t: nat :| t < |s.threads| && ThreadStep(s, t, s');
    if PrepareStep(s, t, s') { PrepareLater(s, t, s'); }
    else if FreezeStep(s, t, s') { FreezeLater(s, t, s'); }
    else if WriteStep(s, t, s') { WriteLater(s, t, s'); }
    else if EffectStep(s, t, s') { EffectLater(s, t, s'); }
    else { QuietLater(s, t, s'); }
  }

  /** History only grows along a run. */
  predicate Since(s: State, s': State)
  {
    && s'.nodes.Keys == s.nodes.Keys
    && s.frozen <= s'.frozen && s.committed <= s'.committed && s.aborted <= s'.aborted
    && (forall id :: id in s.attempts ==> id in s'.attempts && s'.attempts[id] == s.attempts[id])
    && (forall n {:trigger n in s.nodes} {:trigger s'.nodes[n]} :: n in s.nodes ==>
          s.nodes[n].past <= s'.nodes[n].past && (s'.nodes[n].ptr == s.nodes[n].ptr || s.nodes[n].ptr in s'.nodes[n].past))
  }

  lemma {:induction false} RunSince(tr: seq<State>, j: nat, k: nat)
    requires Run(tr) && j <= k < |tr|
    ensures Since(tr[j], tr[k])
    decreases k - j
  {
    hide Inv, Next, Init;
    if j < k {
      RunSince(tr, j, k - 1);
      RunInv(tr, k - 1);
      StepAt(tr, k - 1);
      NextLater(tr[k - 1], tr[k]);
      hide Run;
    }
  }

  // ---------------------------------------------------------------- no handle ever comes back

  lemma PtrNotPast(s: State, n: nat)
    requires Inv(s) && n in s.nodes
    ensures s.nodes[n].ptr !in s.nodes[n].past
  {
    assert NodeInv(s, n);
  }

  /** The instants at which a node's `scxPtr` holds a given handle form one interval, however descriptors are
      reused: a node whose handle is what an llx returned has not been frozen in between. */
  lemma HandleNeverReturns(tr: seq<State>, j: nat, m: nat, k: nat, n: nat, tag: Tag)
    requires Run(tr) && j <= m <= k < |tr| && n in tr[j].nodes && tr[j].nodes[n].ptr == tag
    requires n in tr[k].nodes && tr[k].nodes[n].ptr == tag
    ensures n in tr[m].nodes && tr[m].nodes[n].ptr == tag
  {
    hide Run, Inv;
    RunSince(tr, j, m);
    RunSince(tr, m, k);
    RunInv(tr, k);
    PtrNotPast(tr[k], n);
  }

  /** An attempt that freezes a node finds there the handle its llx returned, and the node has held that handle
      at every instant since any at which it did before. */
  lemma FrozenUnchangedSinceLlx(tr: seq<State>, j: nat, m: nat, k: nat, id: Id, n: nat) returns (i: nat)
    requires Run(tr) && j <= m <= k && k + 1 < |tr| && !Held(tr[k], n, Tag(id)) && Held(tr[k + 1], n, Tag(id))
    ensures IsEntry(tr[k + 1], id, i) && tr[k + 1].attempts[id].nodes[i] == n && n in tr[m].nodes && n in tr[k].nodes && n in tr[j].nodes
    ensures tr[k].nodes[n].ptr == tr[k + 1].attempts[id].seen[i]
    ensures tr[j].nodes[n].ptr == tr[k + 1].attempts[id].seen[i] ==> tr[m].nodes[n].ptr == tr[k + 1].attempts[id].seen[i]
  {
    RunInv(tr, k);
    RunInv(tr, k + 1);
    StepAt(tr, k);
    RunSince(tr, j, k);
    RunSince(tr, m, k);
    var s, s' := tr[k], tr[k + 1];
    assert TagInv(s', n, id) && NodeInv(s, n);
    hide Run, Inv, Next;
    NextLater(s, s');
    i := FreshlyFrozen(s, s', n, id);
    if tr[j].nodes[n].ptr == s'.attempts[id].seen[i] { HandleNeverReturns(tr, j, m, k, n, s'.attempts[id].seen[i]); }
  }

  lemma FreshlyFrozen(s: State, s': State, n: nat, id: Id) returns (i: nat)
    requires Inv(s) && Inv(s') && Next(s, s') && !Held(s, n, Tag(id)) && Held(s', n, Tag(id)) && n in s.nodes
    ensures IsEntry(s', id, i) && s'.attempts[id].nodes[i] == n && s.nodes[n].ptr == s'.attempts[id].seen[i]
  {
    hide Inv, LlxStep, SnapshotStep, CallStep, PrepareStep, FreezeStep, WriteStep, EffectStep;
    var t: nat :| t < |s.threads| && ThreadStep(s, t, s');
    if FreezeStep(s, t, s') {
      i := FreezeFreezes(s, t, s', n, id);
    } else {
      OnlyFreezeFreezes(s, t, s', n);
      assert false;
    }
  }

  lemma OnlyFreezeFreezes(s: State, t: nat, s': State, n: nat)
    requires t < |s.threads| == |s.desc| && ThreadStep(s, t, s') && !FreezeStep(s, t, s') && n in s.nodes
    ensures n in s'.nodes && s'.nodes[n].ptr == s.nodes[n].ptr && s'.nodes[n].past == s.nodes[n].past
  {
    hide LlxStep, SnapshotStep, CallStep, PrepareStep, FreezeStep, WriteStep, EffectStep, Later;
    if PrepareStep(s, t, s') { PrepareSameNodes(s, t, s'); }
    else if WriteStep(s, t, s') { WriteLater(s, t, s'); }
    else if EffectStep(s, t, s') { EffectSamePtrs(s, t, s', n); }
    else { QuietLater(s, t, s'); }
  }

  lemma EffectSamePtrs(s: State, t: nat, s': State, n: nat)
    requires t < |s.threads| == |s.desc| && EffectStep(s, t, s') && n in s.nodes
    ensures n in s'.nodes && s'.nodes[n].ptr == s.nodes[n].ptr && s'.nodes[n].past == s.nodes[n].past
  {
  }

  lemma FreezeFreezes(s: State, t: nat, s': State, n: nat, id: Id) returns (i: nat)
    requires Inv(s) && t < |s.threads| == |s.desc| && FreezeStep(s, t, s') && !Held(s, n, Tag(id)) && Held(s', n, Tag(id)) && n in s.nodes
    ensures IsEntry(s', id, i) && s'.attempts[id].nodes[i] == n && s.nodes[n].ptr == s'.attempts[id].seen[i]
  {
    HelpView(s, t);
    hide Inv, AttemptInv;
    i := s.threads[t].pc.i;
  }

  // ---------------------------------------------------------------- frozen or aborted, never both

  /** In no reachable state does a descriptor have its all-frozen bit set and its state aborted, and no attempt
      ever has had both, at whatever times. */
  lemma NeverFrozenAndAborted(tr: seq<State>, k: nat, u: nat, id: Id)
    requires Run(tr) && k < |tr|
    ensures u < |tr[k].desc| ==> !(tr[k].desc[u].m.allFrozen && tr[k].desc[u].m.state == Aborted)
    ensures !(id in tr[k].frozen && id in tr[k].aborted)
  {
    RunInv(tr, k);
    assert AttemptInv(tr[k], id);
    Exclusive(tr[k], id);
    if u < |tr[k].desc| {
      assert DescInv(tr[k], u) && AttemptInv(tr[k], Id(u, tr[k].desc[u].m.num));
      Exclusive(tr[k], Id(u, tr[k].desc[u].m.num));
    }
  }

  /** The step that first sets the all-frozen bit is taken when every node of the attempt still holds its tag. */
  lemma AllHeldWhenFirstFrozen(tr: seq<State>, k: nat, id: Id, i: nat)
    requires Run(tr) && k + 1 < |tr| && id !in tr[k].frozen && id in tr[k + 1].frozen && IsEntry(tr[k], id, i)
    ensures tr[k].attempts[id].nodes[i] in tr[k].nodes && tr[k].nodes[tr[k].attempts[id].nodes[i]].ptr == Tag(id)
  {
    RunInv(tr, k);
    StepAt(tr, k);
    var s, s' := tr[k], tr[k + 1];
    hide Run;
    FirstFrozen(s, s', id);
    var n := s.attempts[id].nodes[i];
    assert AttemptInv(s, id) && TagInv(s, n, id);
    hide Inv, Next;
    if id in s.aborted { FrozenNotDead(s, id); }
    assert FrozenAt(s, id, i);
  }

  lemma FirstFrozen(s: State, s': State, id: Id)
    requires Inv(s) && Next(s, s') && id !in s.frozen && id in s'.frozen
    ensures AllFrozen(s, id)
  {
    hide Inv, LlxStep, SnapshotStep, CallStep, PrepareStep, FreezeStep, WriteStep, EffectStep;
    var t: nat :| t < |s.threads| && ThreadStep(s, t, s');
    if WriteStep(s, t, s') { WriteFreezes(s, t, s', id); } else { OthersFreezeNone(s, t, s'); }
  }

  lemma OthersFreezeNone(s: State, t: nat, s': State)
    requires t < |s.threads| == |s.desc| && ThreadStep(s, t, s') && !WriteStep(s, t, s')
    ensures s'.frozen == s.frozen
  {
    hide LlxStep, SnapshotStep, CallStep, PrepareStep, FreezeStep, WriteStep, EffectStep, Later;
    if PrepareStep(s, t, s') { PrepareSameNodes(s, t, s'); }
    else if FreezeStep(s, t, s') { FreezeSameFrozen(s, t, s'); }
    else if EffectStep(s, t, s') { EffectLater(s, t, s'); }
    else { QuietLater(s, t, s'); }
  }

  lemma FreezeSameFrozen(s: State, t: nat, s': State)
    requires t < |s.threads| == |s.desc| && FreezeStep(s, t, s')
    ensures s'.frozen == s.frozen && s'.values == s.values && s'.committed == s.committed
  {
  }

  lemma WriteFreezes(s: State, t: nat, s': State, id: Id)
    requires Inv(s) && t < |s.threads| == |s.desc| && WriteStep(s, t, s') && id !in s.frozen && id in s'.frozen
    ensures AllFrozen(s, id)
  {
    assert s.threads[t].pc.FrozenCas?;
    CasTarget(s, t);
    hide Inv, AttemptInv, DescInv, AllFrozen;
  }

  // ---------------------------------------------------------------- what scxExecute returns

  /** `scxExecute` returns true exactly for the attempts all of whose nodes were frozen, and then the attempt is
      committed; it returns false exactly for those that never will be, because some node no longer held the
      handle its llx returned before the attempt could freeze it. */
  lemma ExecuteReturnsTrueIffAllFrozen(tr: seq<State>, k: nat, t: nat)
    requires Run(tr) && k < |tr| && t < |tr[k].threads| == |tr[k].desc| && tr[k].threads[t].pc.Returned?
    ensures var s, ok := tr[k], tr[k].threads[t].pc.ok;
            && 0 < s.desc[t].m.num
            && var id := Id(t, s.desc[t].m.num - 1);
               && (ok <==> AllFrozen(s, id)) && (ok <==> id in s.committed) && (ok <==> id in s.frozen)
               && (!ok <==> id in s.aborted) && (!ok <==> Dead(s, id))
  {
    RunInv(tr, k);
    var s := tr[k];
    assert ThreadInv(s, t);
    var id := Id(t, s.desc[t].m.num - 1);
    assert AttemptInv(s, id);
    hide Inv, PcInv;
    Exclusive(s, id);
    if AllFrozen(s, id) { FrozenNotDead(s, id); }
    hide AllFrozen, Dead, AllMarked, EntriesOk;
  }

  // ---------------------------------------------------------------- finalized nodes

  lemma FinalizedHeld(s: State, id: Id, n: nat)
    requires Inv(s) && id in s.committed && id in s.attempts && Finalizes(s.attempts[id], n)
    ensures n in s.nodes && s.nodes[n].ptr == Tag(id) && s.nodes[n].marked
  {
    assert AttemptInv(s, id) && TagInv(s, n, id);
    Exclusive(s, id);
    hide Inv;
    var f := s.attempts[id];
    var i: nat :| i < f.count && i < |f.nodes| && i < |f.fin| && f.nodes[i] == n && f.fin[i];
    assert FrozenAt(s, id, i);
  }

  /** A node that a committed attempt finalizes is marked and keeps that attempt's tag for ever: nobody freezes it
      again. */
  lemma FinalizedStaysFrozen(tr: seq<State>, j: nat, k: nat, id: Id, n: nat)
    requires Run(tr) && j <= k < |tr| && id in tr[j].committed && id in tr[j].attempts && Finalizes(tr[j].attempts[id], n)
    ensures n in tr[k].nodes && tr[k].nodes[n].ptr == Tag(id) && tr[k].nodes[n].marked
  {
    hide Run, Inv;
    RunInv(tr, k);
    RunSince(tr, j, k);
    FinalizedHeld(tr[k], id, n);
  }

  // ---------------------------------------------------------------- aborted attempts have no effect

  /** Marks and updates are made only on behalf of attempts that are all frozen, so never of an aborted one. */
  lemma EffectsOnlyWhenFrozen(tr: seq<State>, k: nat, t: nat, n: nat, a: int)
    requires Run(tr) && k + 1 < |tr| && t < |tr[k].threads| == |tr[k].desc| && ThreadStep(tr[k], t, tr[k + 1])
    requires n in tr[k].nodes && n in tr[k + 1].nodes && a in tr[k].values && a in tr[k + 1].values
    requires tr[k + 1].nodes[n].marked != tr[k].nodes[n].marked || tr[k + 1].values[a] != tr[k].values[a]
    ensures Helping(tr[k].threads[t].pc) && tr[k].threads[t].pc.h.id in tr[k].frozen && tr[k].threads[t].pc.h.id !in tr[k].aborted
  {
    RunInv(tr, k);
    var s, s' := tr[k], tr[k + 1];
    hide Run, Inv, LlxStep, SnapshotStep, CallStep, PrepareStep, FreezeStep, WriteStep, EffectStep, Later;
    if EffectStep(s, t, s') {
      EffectFrozen(s, t, s');
    } else if PrepareStep(s, t, s') { PrepareSameNodes(s, t, s'); }
    else if WriteStep(s, t, s') { WriteLater(s, t, s'); }
    else if FreezeStep(s, t, s') { FreezeSameMarks(s, t, s', n); }
    else { QuietLater(s, t, s'); }
  }

  lemma FreezeSameMarks(s: State, t: nat, s': State, n: nat)
    requires t < |s.threads| == |s.desc| && FreezeStep(s, t, s') && n in s.nodes
    ensures n in s'.nodes && s'.nodes[n].marked == s.nodes[n].marked && s'.values == s.values
  {
  }

  lemma EffectFrozen(s: State, t: nat, s': State)
    requires Inv(s) && t < |s.threads| == |s.desc| && EffectStep(s, t, s')
    ensures Helping(s.threads[t].pc) && s.threads[t].pc.h.id in s.frozen && s.threads[t].pc.h.id !in s.aborted
  {
    HelpView(s, t);
    Exclusive(s, s.threads[t].pc.h.id);
    hide Inv, AttemptInv, AllMarked, MarkedUpTo;
  }

  // ---------------------------------------------------------------- the update takes effect once

  /** A value that field `a` has had does not come back. */
  predicate NeverRecurs(tr: seq<State>, a: int)
  {
    forall i, j, k | 0 <= i < j < k < |tr| && a in tr[i].values && a in tr[j].values && a in tr[k].values
      && tr[j].values[a] != tr[i].values[a] :: tr[k].values[a] != tr[i].values[a]
  }

  /** Some thread's update compare-and-swap on behalf of attempt `id`. */
  predicate Updates(s: State, t: nat, s': State, id: Id)
    requires t < |s.threads| == |s.desc|
  {
    s.threads[t].pc.Update? && s.threads[t].pc.h.id == id && EffectStep(s, t, s')
  }

  lemma UpdateIs(s: State, t: nat, s': State, id: Id)
    requires Inv(s) && t < |s.threads| && Updates(s, t, s', id)
    ensures id in s.attempts
    ensures var f := s.attempts[id];
            && f.field in s.values
            && s'.values == if s.values[f.field] == f.oldVal then s.values[f.field := f.newVal] else s.values
  {
    HelpView(s, t);
    hide Inv, AttemptInv;
  }

  /** However many threads help an attempt, its update changes the field at most once, if no value of the field
      recurs, which is what the callers have to see to. */
  lemma UpdatedAtMostOnce(tr: seq<State>, j: nat, k: nat, t: nat, u: nat, id: Id)
    requires Run(tr) && j < k && k + 1 < |tr| && t < |tr[j].threads| == |tr[j].desc| && u < |tr[k].threads| == |tr[k].desc|
    requires Updates(tr[j], t, tr[j + 1], id) && tr[j + 1].values != tr[j].values && Updates(tr[k], u, tr[k + 1], id)
    requires id in tr[j].attempts && NeverRecurs(tr, tr[j].attempts[id].field)
    ensures tr[k + 1].values == tr[k].values
  {
    RunInv(tr, j);
    RunInv(tr, k);
    RunSince(tr, j, k);
    hide Run, Inv, Updates;
    UpdateIs(tr[j], t, tr[j + 1], id);
    UpdateIs(tr[k], u, tr[k + 1], id);
    var a := tr[j].attempts[id].field;
    assert tr[j + 1].values[a] != tr[j].values[a];
  }
}
