/** What the calls of the LLX/SCX machine do, one by one: llx, scxAddNode, scxExecute. */
module ScxCalls {
  import opened Scx
  import opened ScxInvariant
  import opened ScxProof
  import opened ScxRuns

  // ---------------------------------------------------------------- a thread's steps and the others'

  predicate FindsInProgress(s: State, tag: Tag, id: Id)
  {
    tag == Tag(id) && id.tid < |s.desc| && s.desc[id.tid].m.num == id.num && s.desc[id.tid].m.state == InProgress
  }

  /** Inside help: on with the same attempt, or back. */
  predicate HelpGoes(pc: Pc, pc': Pc)
  {
    && Helping(pc)
    && (if Helping(pc') then pc'.h == pc.h else pc' == AfterHelp(pc.h, true) || pc' == AfterHelp(pc.h, false))
    && (pc'.Commit? ==> pc.Update? || pc.CommitCas?) && (pc'.CommitCas? ==> pc.Commit?)
  }

  /** Where a thread's next step takes it. */
  predicate Goes(s: State, pc: Pc, pc': Pc)
  {
    match pc
    case LlxMarked(n) => pc' == LlxPtr(n)
    case LlxPtr(n) => n in s.nodes && pc' == LlxState(n, s.nodes[n].ptr)
    case LlxState(n, tag) =>
      pc' == LlxUnmarked(n, tag) || pc' == LlxAgain(n, tag) || (tag.Tag? && FindsInProgress(s, tag, tag.id) && pc'.Copying? && pc'.id == tag.id)
    case LlxUnmarked(n, tag) => n in s.nodes && pc' == if s.nodes[n].marked then Ready else LlxAgain(n, tag)
    case LlxAgain(n, _) => n in s.nodes && pc' == Ready
    case Copying(id, _, _) =>
      && id.tid < |s.desc|
      && ((pc'.Copying? && pc'.id == id) || (pc'.Freeze? && !pc'.h.own && pc'.h.id == id) || (pc' == Ready && s.desc[id.tid].m.num != id.num))
    case Adding(_, _, _) => pc'.Adding? || pc' == Ready
    case Executing(_, _, _, _) => pc'.Executing? || (pc'.Freeze? && pc'.h.own)
    case Clearing => pc' == Ready
    case Ready => pc'.LlxMarked? || pc'.Clearing? || pc'.Adding? || pc'.Executing?
    case Returned(_) => pc'.LlxMarked? || pc'.Clearing? || pc'.Adding? || pc'.Executing?
    case Renewing(_) => pc'.Returned?
    case _ => HelpGoes(pc, pc')
  }

  /** Only the thread itself moves, and only its own fields change. */
  predicate Frame(s: State, u: nat, s': State)
    requires |s.threads| == |s.desc|
  {
    && |s'.threads| == |s'.desc| == |s.threads|
    && forall t :: 0 <= t < |s.threads| && t != u ==> s'.threads[t] == s.threads[t] && s'.desc[t].f == s.desc[t].f
  }

  /** An llx that succeeds finds the handle it read. */
  predicate LinksOnly(s: State, t: nat, s': State)
    requires t < |s.threads| && t < |s'.threads|
  {
    var x, x' := s.threads[t], s'.threads[t];
    if x.pc.LlxAgain? && x.pc.n in s.nodes && s.nodes[x.pc.n].ptr == x.pc.tag then x'.linked == x.linked + {Link(x.pc.n, x.pc.tag)}
    else x'.linked == x.linked
  }

  lemma LlxGoes(s: State, t: nat, s': State)
    requires t < |s.threads| == |s.desc| && LlxStep(s, t, s')
    ensures Frame(s, t, s') && Goes(s, s.threads[t].pc, s'.threads[t].pc) && LinksOnly(s, t, s') && s'.desc == s.desc
    ensures !s.threads[t].pc.Clearing?
  {
  }

  lemma SnapshotGoes(s: State, t: nat, s': State)
    requires t < |s.threads| == |s.desc| && SnapshotStep(s, t, s')
    ensures Frame(s, t, s') && Goes(s, s.threads[t].pc, s'.threads[t].pc) && LinksOnly(s, t, s') && s'.desc == s.desc
    ensures !s.threads[t].pc.Clearing?
  {
    hide CopyWord;
    assert s' == Move(s, t, s'.threads[t].pc);
  }

  lemma CallGoes(s: State, t: nat, s': State)
    requires t < |s.threads| == |s.desc| && CallStep(s, t, s')
    ensures Frame(s, t, s') && Goes(s, s.threads[t].pc, s'.threads[t].pc) && LinksOnly(s, t, s')
    ensures s'.desc == s.desc
    ensures !s.threads[t].pc.Clearing?
  {
  }

  lemma PrepareGoes(s: State, t: nat, s': State)
    requires t < |s.threads| == |s.desc| && PrepareStep(s, t, s')
    ensures Frame(s, t, s') && Goes(s, s.threads[t].pc, s'.threads[t].pc) && LinksOnly(s, t, s')
    ensures s'.desc[t].f == s.desc[t].f || s.threads[t].pc.Clearing? || s.threads[t].pc.Adding? || s.threads[t].pc.Executing?
    ensures s.threads[t].pc.Clearing? ==> s'.desc[t].f == s.desc[t].f.(count := 0)
  {
  }

  lemma FreezeGoes(s: State, t: nat, s': State)
    requires t < |s.threads| == |s.desc| && FreezeStep(s, t, s')
    ensures Frame(s, t, s') && Goes(s, s.threads[t].pc, s'.threads[t].pc) && LinksOnly(s, t, s') && s'.desc == s.desc
    ensures !s.threads[t].pc.Clearing?
  {
    hide View;
  }

  lemma WriteReadGoes(s: State, t: nat, s': State)
    requires t < |s.threads| == |s.desc| && WriteStep(s, t, s')
    requires s.threads[t].pc.Abort? || s.threads[t].pc.SetFrozen? || s.threads[t].pc.Commit?
    ensures Frame(s, t, s') && Goes(s, s.threads[t].pc, s'.threads[t].pc) && LinksOnly(s, t, s') && s'.desc == s.desc
  {
    hide View;
    assert s' == Move(s, t, s'.threads[t].pc);
  }

  /** After a compare-and-swap: back or on if it succeeds, and to the start if it fails. */
  lemma CasThreads(s: State, t: nat, s': State)
    requires t < |s.threads| == |s.desc| && WriteStep(s, t, s')
    requires s.threads[t].pc.AbortCas? || s.threads[t].pc.FrozenCas? || s.threads[t].pc.CommitCas?
    ensures |s'.threads| == |s.threads| && s'.threads == s.threads[t := s.threads[t].(pc := s'.threads[t].pc)]
    ensures var pc, pc' := s.threads[t].pc, s'.threads[t].pc;
            match pc
            case AbortCas(h, _) => pc' == AfterHelp(h, false) || pc' == Abort(h)
            case FrozenCas(h, _) => pc' == Mark(h, 0) || pc' == SetFrozen(h)
            case _ => pc' == AfterHelp(pc.h, true) || pc' == Commit(pc.h)
  {
    hide View;
  }

  lemma CasDescs(s: State, t: nat, s': State)
    requires t < |s.threads| == |s.desc| && WriteStep(s, t, s')
    ensures |s'.desc| == |s.desc| && forall u :: 0 <= u < |s.desc| ==> s'.desc[u].f == s.desc[u].f
  {
    hide View, AfterHelp;
  }

  lemma WriteCasGoes(s: State, t: nat, s': State)
    requires t < |s.threads| == |s.desc| && WriteStep(s, t, s')
    requires s.threads[t].pc.AbortCas? || s.threads[t].pc.FrozenCas? || s.threads[t].pc.CommitCas?
    ensures Frame(s, t, s') && Goes(s, s.threads[t].pc, s'.threads[t].pc) && LinksOnly(s, t, s') && s'.desc[t].f == s.desc[t].f
  {
    hide WriteStep;
    CasThreads(s, t, s');
    CasDescs(s, t, s');
  }

  lemma WriteGoes(s: State, t: nat, s': State)
    requires t < |s.threads| == |s.desc| && WriteStep(s, t, s')
    ensures Frame(s, t, s') && Goes(s, s.threads[t].pc, s'.threads[t].pc) && LinksOnly(s, t, s') && s'.desc[t].f == s.desc[t].f
    ensures !s.threads[t].pc.Clearing?
  {
    var pc := s.threads[t].pc;
    assert pc.Abort? || pc.AbortCas? || pc.SetFrozen? || pc.FrozenCas? || pc.Commit? || pc.CommitCas?;
    hide WriteStep, Frame, Goes, LinksOnly;
    if pc.Abort? || pc.SetFrozen? || pc.Commit? { WriteReadGoes(s, t, s'); } else { WriteCasGoes(s, t, s'); }
  }

  lemma EffectGoes(s: State, t: nat, s': State)
    requires t < |s.threads| == |s.desc| && EffectStep(s, t, s')
    ensures Frame(s, t, s') && Goes(s, s.threads[t].pc, s'.threads[t].pc) && LinksOnly(s, t, s') && s'.desc == s.desc
    ensures !s.threads[t].pc.Clearing?
  {
    hide View;
  }

  lemma StepGoes(s: State, t: nat, s': State)
    requires t < |s.threads| == |s.desc| && ThreadStep(s, t, s')
    ensures Frame(s, t, s') && Goes(s, s.threads[t].pc, s'.threads[t].pc) && LinksOnly(s, t, s')
    ensures s.threads[t].pc.Clearing? || s.threads[t].pc.Adding? || s.threads[t].pc.Executing? || s'.desc[t].f == s.desc[t].f
    ensures s.threads[t].pc.Clearing? ==> s'.desc[t].f == s.desc[t].f.(count := 0)
  {
    hide LlxStep, SnapshotStep, PrepareStep, FreezeStep, WriteStep, EffectStep, Frame, Goes, LinksOnly;
    if LlxStep(s, t, s') { LlxGoes(s, t, s'); }
    else if SnapshotStep(s, t, s') { SnapshotGoes(s, t, s'); }
    else if PrepareStep(s, t, s') { PrepareGoes(s, t, s'); }
    else if FreezeStep(s, t, s') { FreezeGoes(s, t, s'); }
    else if WriteStep(s, t, s') { WriteGoes(s, t, s'); }
    else if EffectStep(s, t, s') { EffectGoes(s, t, s'); }
    else { CallGoes(s, t, s'); }
  }

  lemma StepAlong(tr: seq<State>, k: nat, t: nat) returns (u: nat)
    requires Run(tr) && k + 1 < |tr| && t < |tr[k].threads|
    ensures u < |tr[k].threads| == |tr[k].desc| && ThreadStep(tr[k], u, tr[k + 1]) && |tr[k + 1].threads| == |tr[k + 1].desc| == |tr[k].threads|
    ensures u != t ==> tr[k + 1].threads[t] == tr[k].threads[t] && tr[k + 1].desc[t].f == tr[k].desc[t].f
    ensures u == t ==> Goes(tr[k], tr[k].threads[t].pc, tr[k + 1].threads[t].pc) && LinksOnly(tr[k], t, tr[k + 1])
  {
    StepAt(tr, k);
    hide Run, ThreadStep, Goes, LinksOnly;
    u :| u < |tr[k].threads| && ThreadStep(tr[k], u, tr[k + 1]);
    StepGoes(tr[k], u, tr[k + 1]);
  }

  lemma SameCount(tr: seq<State>, k: nat)
    requires Run(tr) && k + 1 < |tr|
    ensures |tr[k + 1].threads| == |tr[k].threads|
  {
    StepAt(tr, k);
    hide Run, ThreadStep, Goes, LinksOnly;
    var u: nat :| u < |tr[k].threads| && ThreadStep(tr[k], u, tr[k + 1]);
    StepGoes(tr[k], u, tr[k + 1]);
  }

  // ---------------------------------------------------------------- scxAddNode

  predicate SameEntries(f: Fields, g: Fields, n: nat)
  {
    && n <= |f.nodes| == |g.nodes| && n <= |f.fin| == |g.fin| && n <= |f.seen| == |g.seen|
    && forall i :: 0 <= i < n ==> g.nodes[i] == f.nodes[i] && g.fin[i] == f.fin[i] && g.seen[i] == f.seen[i]
  }

  predicate EntryIs(f: Fields, i: nat, l: Link, fin: bool)
  {
    i < |f.nodes| && i < |f.fin| && i < |f.seen| && f.nodes[i] == l.node && f.fin[i] == fin && f.seen[i] == l.tag
  }

  /** How far the stores of scxAddNode have come since the fields were `f`. */
  predicate AddedSoFar(f: Fields, g: Fields, l: Link, fin: bool, stage: nat)
  {
    && SameEntries(f, g, f.count) && g.count == f.count
    && (stage >= 1 ==> g.count < |g.nodes| && g.nodes[g.count] == l.node)
    && (stage >= 2 ==> g.count < |g.fin| && g.fin[g.count] == fin)
    && (stage >= 3 ==> g.count < |g.seen| && g.seen[g.count] == l.tag)
  }

  predicate Added(f: Fields, g: Fields, l: Link, fin: bool)
  {
    g.count == f.count + 1 && SameEntries(f, g, f.count) && EntryIs(g, f.count, l, fin)
  }

  lemma OwnAdding(s: State, t: nat, s': State, f: Fields)
    requires t < |s.threads| == |s.desc| && ThreadStep(s, t, s') && s.threads[t].pc.Adding?
    requires AddedSoFar(f, s.desc[t].f, s.threads[t].pc.l, s.threads[t].pc.fin, s.threads[t].pc.stage)
    ensures t < |s'.threads| == |s'.desc|
    ensures var l, fin, pc := s.threads[t].pc.l, s.threads[t].pc.fin, s'.threads[t].pc;
            if pc.Adding? then pc.l == l && pc.fin == fin && AddedSoFar(f, s'.desc[t].f, l, fin, pc.stage)
            else pc == Ready && Added(f, s'.desc[t].f, l, fin)
  {
    assert PrepareStep(s, t, s');
  }

  /** From state `j` to state `k` the thread is in the same call of scxAddNode. */
  predicate InAdd(tr: seq<State>, j: nat, k: nat, t: nat, l: Link, fin: bool)
  {
    j <= k < |tr| && forall m {:trigger tr[m]} :: j <= m <= k ==> t < |tr[m].threads| == |tr[m].desc| && tr[m].threads[t].pc.Adding?
  }

  lemma {:induction false} Adds(tr: seq<State>, j: nat, k: nat, t: nat, l: Link, fin: bool)
    requires Run(tr) && InAdd(tr, j, k, t, l, fin) && tr[j].threads[t].pc == Adding(l, fin, 0)
    ensures tr[k].threads[t].pc.l == l && tr[k].threads[t].pc.fin == fin
    ensures AddedSoFar(tr[j].desc[t].f, tr[k].desc[t].f, l, fin, tr[k].threads[t].pc.stage)
    decreases k - j
  {
    hide ThreadStep, Run, AddedSoFar, Goes, LinksOnly;
    if j == k {
      RunInv(tr, j);
      NoneAdded(tr[j], t, l, fin);
    } else {
      Adds(tr, j, k - 1, t, l, fin);
      var u := StepAlong(tr, k - 1, t);
      if u == t { OwnAdding(tr[k - 1], t, tr[k], tr[j].desc[t].f); }
    }
  }

  lemma NoneAdded(s: State, t: nat, l: Link, fin: bool)
    requires Inv(s) && t < |s.desc|
    ensures AddedSoFar(s.desc[t].f, s.desc[t].f, l, fin, 0)
  {
    assert DescInv(s, t);
  }

  /** A call of scxAddNode adds the one entry it was given, behind those there were. */
  lemma AddNodeAdds(tr: seq<State>, j: nat, k: nat, t: nat, l: Link, fin: bool)
    requires Run(tr) && InAdd(tr, j, k, t, l, fin) && tr[j].threads[t].pc == Adding(l, fin, 0)
    requires k + 1 < |tr| && t < |tr[k + 1].threads| && !tr[k + 1].threads[t].pc.Adding?
    ensures t < |tr[k + 1].desc| && tr[k + 1].threads[t].pc == Ready && Added(tr[j].desc[t].f, tr[k + 1].desc[t].f, l, fin)
  {
    hide ThreadStep, Run, AddedSoFar, Added, Goes, LinksOnly;
    Adds(tr, j, k, t, l, fin);
    var u := StepAlong(tr, k, t);
    OwnAdding(tr[k], t, tr[k + 1], tr[j].desc[t].f);
  }

  // ---------------------------------------------------------------- scxExecute publishes what was prepared

  predicate StoredSoFar(f: Fields, g: Fields, pc: Pc)
    requires pc.Executing?
  {
    && g.count == f.count && SameEntries(f, g, |f.nodes|)
    && (pc.stage >= 1 ==> g.oldVal == pc.oldVal) && (pc.stage >= 2 ==> g.newVal == pc.newVal) && (pc.stage >= 3 ==> g.field == pc.field)
  }

  /** The attempt that a call of scxExecute with these arguments starts, with the nodes added before. */
  predicate Publishes(f: Fields, g: Fields, a: int, v: int, w: int)
  {
    g.count == f.count && SameEntries(f, g, |f.nodes|) && g.field == a && g.oldVal == v && g.newVal == w
  }

  predicate InExecute(tr: seq<State>, j: nat, k: nat, t: nat)
  {
    j <= k < |tr| && forall m {:trigger tr[m]} :: j <= m <= k ==> t < |tr[m].threads| == |tr[m].desc| && tr[m].threads[t].pc.Executing?
  }

  lemma OwnExecuting(s: State, t: nat, s': State, f: Fields)
    requires t < |s.threads| == |s.desc| && ThreadStep(s, t, s') && s.threads[t].pc.Executing?
    requires StoredSoFar(f, s.desc[t].f, s.threads[t].pc)
    ensures t < |s'.threads| == |s'.desc|
    ensures var pc, pc' := s.threads[t].pc, s'.threads[t].pc;
            if pc'.Executing? then pc' == pc.(stage := pc'.stage) && StoredSoFar(f, s'.desc[t].f, pc')
            else var id := Id(t, s'.desc[t].m.num);
                 pc'.Freeze? && pc'.h.id == id && pc'.h.own && id in s'.attempts && Publishes(f, s'.attempts[id], pc.field, pc.oldVal, pc.newVal)
  {
    assert PrepareStep(s, t, s');
  }

  lemma {:induction false} Stores(tr: seq<State>, j: nat, k: nat, t: nat, a: int, v: int, w: int)
    requires Run(tr) && InExecute(tr, j, k, t) && tr[j].threads[t].pc == Executing(a, v, w, 0)
    ensures tr[k].threads[t].pc == Executing(a, v, w, tr[k].threads[t].pc.stage)
    ensures StoredSoFar(tr[j].desc[t].f, tr[k].desc[t].f, tr[k].threads[t].pc)
    decreases k - j
  {
    hide ThreadStep, Run, StoredSoFar, Goes, LinksOnly;
    if j == k {
      RunInv(tr, j);
      NothingStored(tr[j], t, tr[j].threads[t].pc);
    } else {
      Stores(tr, j, k - 1, t, a, v, w);
      var u := StepAlong(tr, k - 1, t);
      if u == t { OwnExecuting(tr[k - 1], t, tr[k], tr[j].desc[t].f); }
    }
  }

  lemma NothingStored(s: State, t: nat, pc: Pc)
    requires Inv(s) && t < |s.desc| && pc.Executing? && pc.stage == 0
    ensures StoredSoFar(s.desc[t].f, s.desc[t].f, pc)
  {
    assert DescInv(s, t);
  }

  /** The attempt that a call of scxExecute starts has the arguments of the call and the nodes that were added, and
      the call goes on to freeze them. */
  lemma ExecutePublishes(tr: seq<State>, j: nat, k: nat, t: nat, a: int, v: int, w: int)
    requires Run(tr) && InExecute(tr, j, k, t) && tr[j].threads[t].pc == Executing(a, v, w, 0)
    requires k + 1 < |tr| && t < |tr[k + 1].threads| && !tr[k + 1].threads[t].pc.Executing?
    ensures t < |tr[k + 1].desc|
    ensures var s', id := tr[k + 1], Id(t, tr[k + 1].desc[t].m.num);
            && s'.threads[t].pc.Freeze? && s'.threads[t].pc.h.id == id && s'.threads[t].pc.h.own
            && id in s'.attempts && Publishes(tr[j].desc[t].f, s'.attempts[id], a, v, w)
  {
    hide ThreadStep, Run, StoredSoFar, Publishes, Goes, LinksOnly;
    Stores(tr, j, k, t, a, v, w);
    var u := StepAlong(tr, k, t);
    OwnExecuting(tr[k], t, tr[k + 1], tr[j].desc[t].f);
  }

  /** Between these calls the prepared fields stay, except that scxInit empties the list of nodes. */
  lemma FieldsStay(tr: seq<State>, k: nat, t: nat)
    requires Run(tr) && k + 1 < |tr| && t < |tr[k].threads| == |tr[k].desc| && t < |tr[k + 1].desc|
    requires t < |tr[k + 1].threads| && !tr[k].threads[t].pc.Adding? && !tr[k].threads[t].pc.Executing?
    ensures !tr[k].threads[t].pc.Clearing? ==> tr[k + 1].desc[t].f == tr[k].desc[t].f
    ensures tr[k].threads[t].pc.Clearing? && tr[k + 1].threads[t].pc != Clearing ==> tr[k + 1].desc[t].f == tr[k].desc[t].f.(count := 0)
  {
    hide Run, ThreadStep, Goes, LinksOnly;
    var u := StepAlong(tr, k, t);
    if u == t { StepGoes(tr[k], t, tr[k + 1]); }
  }

  // ---------------------------------------------------------------- the update takes effect

  predicate PastUpdate(pc: Pc, id: Id) { (pc.Commit? || pc.CommitCas?) && pc.h.id == id }

  lemma OwnPastUpdate(s: State, t: nat, s': State, id: Id)
    requires t < |s.threads| == |s.desc| && ThreadStep(s, t, s') && t < |s'.threads| && Goes(s, s.threads[t].pc, s'.threads[t].pc)
    requires PastUpdate(s'.threads[t].pc, id)
    ensures PastUpdate(s.threads[t].pc, id) || Updates(s, t, s', id)
  {
    hide LlxStep, SnapshotStep, CallStep, PrepareStep, FreezeStep, WriteStep;
    if s.threads[t].pc.Update? { OnlyUpdates(s, t, s'); }
  }

  lemma OnlyUpdates(s: State, t: nat, s': State)
    requires t < |s.threads| == |s.desc| && ThreadStep(s, t, s') && s.threads[t].pc.Update?
    ensures EffectStep(s, t, s')
  {
  }

  lemma NewlyCommitted(s: State, u: nat, s': State, id: Id)
    requires Inv(s) && u < |s.threads| == |s.desc| && ThreadStep(s, u, s') && id !in s.committed && id in s'.committed
    ensures PastUpdate(s.threads[u].pc, id)
  {
    if WriteStep(s, u, s') {
      assert s.threads[u].pc.CommitCas?;
      CasTarget(s, u);
    } else {
      OthersCommitNone(s, u, s');
    }
    hide Inv, ThreadStep, AttemptInv, HelpInv, DescInv;
  }

  lemma OthersCommitNone(s: State, t: nat, s': State)
    requires t < |s.threads| == |s.desc| && ThreadStep(s, t, s') && !WriteStep(s, t, s')
    ensures s'.committed == s.committed
  {
    hide LlxStep, SnapshotStep, CallStep, PrepareStep, FreezeStep, WriteStep, EffectStep, Later;
    if PrepareStep(s, t, s') { PrepareSameNodes(s, t, s'); }
    else if FreezeStep(s, t, s') { FreezeSameFrozen(s, t, s'); }
    else if EffectStep(s, t, s') { EffectLater(s, t, s'); }
    else { QuietLater(s, t, s'); }
  }

  lemma {:induction false} CommitsAfterUpdate(tr: seq<State>, k: nat, t: nat, id: Id) returns (m: nat, v: nat)
    requires Run(tr) && k < |tr| && t < |tr[k].threads| && (id in tr[k].committed || PastUpdate(tr[k].threads[t].pc, id))
    ensures m < k && v < |tr[m].threads| == |tr[m].desc| && Updates(tr[m], v, tr[m + 1], id)
  {
    hide Init, Next, ThreadStep, Goes, LinksOnly, PastUpdate, Inv, Updates;
    if k == 0 {
      NothingPast(tr[0], t, id);
      assert false;
    } else {
      RunInv(tr, k - 1);
      SameCount(tr, k - 1);
      var u := StepAlong(tr, k - 1, t);
      if id in tr[k - 1].committed || PastUpdate(tr[k - 1].threads[t].pc, id) {
        m, v := CommitsAfterUpdate(tr, k - 1, t, id);
      } else if id in tr[k].committed {
        NewlyCommitted(tr[k - 1], u, tr[k], id);
        m, v := CommitsAfterUpdate(tr, k - 1, u, id);
      } else {
        OwnPastUpdate(tr[k - 1], t, tr[k], id);
        m, v := k - 1, t;
      }
    }
  }

  lemma NothingPast(s: State, t: nat, id: Id)
    requires Init(s) && t < |s.threads|
    ensures id !in s.committed && s.threads[t].pc == Ready && !PastUpdate(s.threads[t].pc, id)
  {
  }

  lemma UpdatingIsFrozen(s: State, t: nat, s': State, id: Id)
    requires Inv(s) && t < |s.threads| == |s.desc| && Updates(s, t, s', id)
    ensures id in s.frozen
  {
    HelpView(s, t);
    hide Inv, AttemptInv;
  }

  /** An attempt that is committed has been updated since it was frozen: after the bit was first set there was a step
      that replaced the old value of the field by the new one, unless the field did not hold the old value. So an
      scxExecute that returns true has made its change, or was told a wrong old value. */
  lemma UpdateTakesEffect(tr: seq<State>, j: nat, k: nat, id: Id) returns (m: nat, t: nat)
    requires Run(tr) && j <= k < |tr| && id !in tr[j].frozen && id in tr[k].committed
    ensures j <= m < k && t < |tr[m].threads| == |tr[m].desc| && Updates(tr[m], t, tr[m + 1], id) && id in tr[k].attempts
    ensures var f := tr[k].attempts[id];
            && f.field in tr[m].values
            && tr[m + 1].values == if tr[m].values[f.field] == f.oldVal then tr[m].values[f.field := f.newVal] else tr[m].values
  {
    hide Init, Next, Updates, Inv, AttemptInv;
    RunInv(tr, k);
    CommittedOwner(tr[k], id);
    m, t := CommitsAfterUpdate(tr, k, 0, id);
    RunInv(tr, m);
    UpdatingIsFrozen(tr[m], t, tr[m + 1], id);
    UpdateIs(tr[m], t, tr[m + 1], id);
    RunSince(tr, m, k);
    if m < j { RunSince(tr, m, j); }
  }

  lemma CommittedOwner(s: State, id: Id)
    requires Inv(s) && id in s.committed
    ensures 0 < |s.threads| && id in s.attempts
  {
    assert AttemptInv(s, id);
    hide AllFrozen, AllMarked, Dead;
  }

  // ---------------------------------------------------------------- llx

  /** Inside a call of llx: its own reads, and helping the attempt it found in progress. */
  predicate InLlx(pc: Pc)
  {
    || pc.LlxMarked? || pc.LlxPtr? || pc.LlxState? || pc.LlxUnmarked? || pc.LlxAgain? || pc.Copying?
    || (Helping(pc) && !pc.h.own)
  }

  predicate InCall(tr: seq<State>, j: nat, k: nat, t: nat)
  {
    j <= k < |tr| && forall m {:trigger tr[m]} :: j <= m <= k ==> t < |tr[m].threads| && InLlx(tr[m].threads[t].pc)
  }

  /** The call has read `tag` from the node. */
  predicate HasTag(pc: Pc, n: nat, tag: Tag)
  {
    pc == LlxState(n, tag) || pc == LlxUnmarked(n, tag) || pc == LlxAgain(n, tag)
  }

  predicate HelpsIn(pc: Pc, id: Id) { (pc.Copying? && pc.id == id) || (Helping(pc) && !pc.h.own && pc.h.id == id) }

  /** At instant `j` of the call the node holds the handle. */
  predicate ReadAt(tr: seq<State>, j: nat, k: nat, t: nat, n: nat, tag: Tag)
  {
    InCall(tr, j, k, t) && tr[j].threads[t].pc == LlxPtr(n) && n in tr[j].nodes && tr[j].nodes[n].ptr == tag
  }

  /** At instant `j` of the call the node is frozen for the attempt, and that is in progress. */
  predicate InProgressAt(tr: seq<State>, j: nat, k: nat, t: nat, n: nat, id: Id)
  {
    && InCall(tr, j, k, t) && tr[j].threads[t].pc == LlxState(n, Tag(id))
    && n in tr[j].nodes && tr[j].nodes[n].ptr == Tag(id) && !Over(tr[j], id)
  }

  lemma {:induction false} TagWasRead(tr: seq<State>, k: nat, t: nat, n: nat, tag: Tag) returns (j: nat)
    requires Run(tr) && k < |tr| && t < |tr[k].threads| && HasTag(tr[k].threads[t].pc, n, tag)
    ensures ReadAt(tr, j, k, t, n, tag)
  {
    hide Init, Next, ThreadStep, LinksOnly;
    if k == 0 {
      NothingPast(tr[0], t, Id(0, 0));
      assert false;
    } else {
      SameCount(tr, k - 1);
      var u := StepAlong(tr, k - 1, t);
      if HasTag(tr[k - 1].threads[t].pc, n, tag) {
        j := TagWasRead(tr, k - 1, t, n, tag);
      } else {
        j := k - 1;
      }
    }
  }

  /** The attempt is not over, so the node has held its tag without interruption. */
  lemma ThenHeld(s: State, t: nat, id: Id)
    requires Inv(s) && t < |s.threads| && s.threads[t].pc.LlxState? && FindsInProgress(s, s.threads[t].pc.tag, id)
    ensures s.threads[t].pc.n in s.nodes && s.nodes[s.threads[t].pc.n].ptr == Tag(id) && !Over(s, id)
  {
    var n := s.threads[t].pc.n;
    assert ThreadInv(s, t) && TagInv(s, n, id) && DescInv(s, id.tid);
    hide Inv, OwnerInv, AttemptInv;
  }

  lemma {:induction false} HelpFrom(tr: seq<State>, k: nat, t: nat, id: Id) returns (j: nat, n: nat)
    requires Run(tr) && k < |tr| && t < |tr[k].threads| && HelpsIn(tr[k].threads[t].pc, id)
    ensures InProgressAt(tr, j, k, t, n, id)
  {
    hide Init, Next, ThreadStep, LinksOnly, Inv, FindsInProgress, Over;
    if k == 0 {
      NothingPast(tr[0], t, Id(0, 0));
      assert false;
    } else {
      SameCount(tr, k - 1);
      var u := StepAlong(tr, k - 1, t);
      if HelpsIn(tr[k - 1].threads[t].pc, id) {
        j, n := HelpFrom(tr, k - 1, t, id);
      } else {
        j, n := k - 1, tr[k - 1].threads[t].pc.n;
        RunInv(tr, k - 1);
        ThenHeld(tr[k - 1], t, id);
        assert InCall(tr, j, k, t);
      }
    }
  }

  /** A thread that stops helping an attempt of another thread leaves it over. */
  lemma HelpEnds(s: State, t: nat, s': State, id: Id)
    requires Inv(s) && t < |s.threads| && ThreadStep(s, t, s') && t < |s'.threads| && HelpsIn(s.threads[t].pc, id) && s'.threads[t].pc == Ready
    ensures Over(s', id)
  {
    StepGoes(s, t, s');
    hide LlxStep, CallStep, PrepareStep, EffectStep;
    var pc := s.threads[t].pc;
    if pc.Copying? { CopyEnds(s, t, s', id); }
    else if FreezeStep(s, t, s') { FreezeEnds(s, t, s', id); }
    else if WriteStep(s, t, s') { WriteEnds(s, t, s', id); }
    else { NoEnd(s, t, s'); }
  }

  lemma NoEnd(s: State, t: nat, s': State)
    requires t < |s.threads| == |s.desc| && ThreadStep(s, t, s') && Helping(s.threads[t].pc) && !FreezeStep(s, t, s') && !WriteStep(s, t, s')
    ensures t < |s'.threads| && s'.threads[t].pc != Ready
  {
    hide FreezeStep, WriteStep, View;
  }

  lemma CopyEnds(s: State, t: nat, s': State, id: Id)
    requires Inv(s) && t < |s.threads| && t < |s'.threads| && s.threads[t].pc.Copying? && s.threads[t].pc.id == id && s'.threads[t].pc == Ready
    requires Goes(s, s.threads[t].pc, s'.threads[t].pc) && ThreadStep(s, t, s')
    ensures Over(s', id)
  {
    assert ThreadInv(s, t);
    StateOver(s, id);
    assert s'.committed == s.committed && s'.aborted == s.aborted by { hide Inv, Goes, CopyWord; }
    hide Inv, ThreadInv, AttemptInv, ThreadStep;
  }

  lemma FreezeEnds(s: State, t: nat, s': State, id: Id)
    requires Inv(s) && t < |s.threads| && FreezeStep(s, t, s') && t < |s'.threads| && s.threads[t].pc.h.id == id && s'.threads[t].pc == Ready
    ensures Over(s', id)
  {
    var pc := s.threads[t].pc;
    HelpView(s, t);
    StateOver(s, id);
    assert DescInv(s, id.tid);
    hide Inv, View;
    assert pc.ReadFrozen?;
    if Blocked(s, id, pc.i) { BlockedNotFrozen(s, id, pc.i); }
    hide Blocked, AllFrozen, AllMarked, Dead, EntriesOk;
  }

  lemma WriteEnds(s: State, t: nat, s': State, id: Id)
    requires Inv(s) && t < |s.threads| && WriteStep(s, t, s') && t < |s'.threads| && s.threads[t].pc.h.id == id && s'.threads[t].pc == Ready
    ensures Over(s', id)
  {
    var pc := s.threads[t].pc;
    HelpView(s, t);
    StateOver(s, id);
    assert DescInv(s, id.tid);
    hide Inv, AllFrozen, AllMarked, Dead, EntriesOk, AttemptInv;
  }

  /** A successful llx: the node held the handle that is returned at every instant since it was read, so nothing was
      frozen, and so nothing of the node changed, in between; and the attempt behind it is over and has not finalized
      the node. */
  lemma LlxSucceeds(tr: seq<State>, k: nat, t: nat) returns (j: nat, l: Link)
    requires Run(tr) && k + 1 < |tr| && t < |tr[k].threads| && t < |tr[k + 1].threads|
    requires tr[k + 1].threads[t].linked != tr[k].threads[t].linked
    ensures tr[k + 1].threads[t] == Thread(Ready, tr[k].threads[t].linked + {l}) && ReadAt(tr, j, k, t, l.node, l.tag)
    ensures forall m :: j <= m <= k ==> l.node in tr[m].nodes && tr[m].nodes[l.node].ptr == l.tag
    ensures Spent(tr[k], l.node, l.tag)
  {
    var u := StepAlong(tr, k, t);
    var pc := tr[k].threads[t].pc;
    hide Run, ThreadStep, Inv;
    l := Link(pc.n, pc.tag);
    j := TagWasRead(tr, k, t, l.node, l.tag);
    forall m | j <= m <= k ensures l.node in tr[m].nodes && tr[m].nodes[l.node].ptr == l.tag {
      HandleNeverReturns(tr, j, m, k, l.node, l.tag);
    }
    RunInv(tr, k);
    assert ThreadInv(tr[k], t) by { InvThread(tr[k], t); }
  }

  lemma InvThread(s: State, t: nat)
    requires Inv(s) && t < |s.threads|
    ensures ThreadInv(s, t)
  {
  }

  /** Why a call of llx of node `n` that ends in step `k` fails: at an instant `j` of the call the node is marked, or
      no longer holds the handle read at instant `i`, or is frozen for an attempt in progress, which is over when
      the call returns. */
  ghost predicate LlxCause(tr: seq<State>, j: nat, k: nat, t: nat, n: nat)
    requires k + 1 < |tr|
  {
    InCall(tr, j, k, t) && n in tr[j].nodes &&
    (|| (tr[j].nodes[n].marked && tr[j].threads[t].pc.LlxUnmarked? && tr[j].threads[t].pc.n == n)
     || (tr[j].threads[t].pc.LlxAgain? && tr[j].threads[t].pc.n == n && tr[j].nodes[n].ptr != tr[j].threads[t].pc.tag
         && exists i: nat :: ReadAt(tr, i, j, t, n, tr[j].threads[t].pc.tag))
     || (tr[j].nodes[n].ptr.Tag? && InProgressAt(tr, j, k, t, n, tr[j].nodes[n].ptr.id) && Over(tr[k + 1], tr[j].nodes[n].ptr.id)))
  }

  lemma LlxFails(tr: seq<State>, k: nat, t: nat) returns (j: nat, n: nat)
    requires Run(tr) && k + 1 < |tr| && t < |tr[k].threads| && t < |tr[k + 1].threads|
    requires InLlx(tr[k].threads[t].pc) && tr[k + 1].threads[t] == Thread(Ready, tr[k].threads[t].linked)
    requires tr[k].threads[t].pc.LlxAgain? ==> Link(tr[k].threads[t].pc.n, tr[k].threads[t].pc.tag) !in tr[k].threads[t].linked
    ensures LlxCause(tr, j, k, t, n)
  {
    var u := StepAlong(tr, k, t);
    var pc := tr[k].threads[t].pc;
    hide Run, ThreadStep, Inv, Over;
    if pc.LlxUnmarked? {
      j, n := k, pc.n;
      assert InCall(tr, k, k, t);
    } else if pc.LlxAgain? {
      j, n := k, pc.n;
      var i := TagWasRead(tr, k, t, n, pc.tag);
      assert InCall(tr, k, k, t);
    } else {
      var id := if pc.Copying? then pc.id else pc.h.id;
      RunInv(tr, k);
      HelpEnds(tr[k], t, tr[k + 1], id);
      j, n := HelpFrom(tr, k, t, id);
    }
  }
}
