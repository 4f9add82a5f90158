/** Obstruction freedom of LLX and SCX: a call that runs alone ends after a number of steps that depends on the
    greatest number of nodes of an attempt only, whatever attempts of stalled threads it meets and helps. */
module ScxAlone {
  import opened Basics
  import opened Scx
  import opened ScxInvariant
  import opened ScxProof
  import opened ScxRuns
  import opened ScxCalls

  function AllLocs(max: nat): set<Loc>
  {
    if max == 0 then {NumLoc, CountLoc, FieldLoc, OldLoc, NewLoc}
    else AllLocs(max - 1) + {NodeLoc(max - 1), FinLoc(max - 1), SeenLoc(max - 1)}
  }

  lemma {:induction false} AllLocsAre(max: nat, l: Loc)
    requires IsLoc(l, max)
    ensures l in AllLocs(max)
  {
    if max > 0 && l !in {NodeLoc(max - 1), FinLoc(max - 1), SeenLoc(max - 1)} { AllLocsAre(max - 1, l); }
  }

  lemma {:induction false} LocCount(max: nat)
    ensures |AllLocs(max)| <= 3 * max + 5
  {
    if max > 0 { LocCount(max - 1); }
  }

  /** The words of a descriptor that are not copied yet. */
  function Left(max: nat, got: set<Loc>): nat { |AllLocs(max) - got| }

  lemma LeftFalls(max: nat, got: set<Loc>, l: Loc)
    requires IsLoc(l, max) && l !in got
    ensures Left(max, got + {l}) < Left(max, got)
  {
    AllLocsAre(max, l);
    var left := AllLocs(max) - got;
    assert AllLocs(max) - (got + {l}) == left - {l} && l in left;
    hide AllLocs;
  }

  lemma LeftBounded(max: nat, got: set<Loc>)
    ensures Left(max, got) <= 3 * max + 5
  {
    LocCount(max);
    SubsetSize(AllLocs(max) - got, AllLocs(max));
    hide AllLocs;
  }

  /** A compare-and-swap of the mutables word fails at most once: then the word is read again. */
  predicate Current(s: State, h: Help, v: Mutables) { h.id.tid < |s.desc| && s.desc[h.id.tid].m == v }

  function NodesLeft(max: nat, i: nat): nat { if i < max then max - i else 0 }

  /** The steps of help that are still to be taken, at most. */
  function HelpRank(s: State, pc: Pc): nat
    requires Helping(pc)
  {
    match pc
    case AbortCas(h, v) => if Current(s, h, v) then 1 else 3
    case Abort(_) => 2
    case ReadFrozen(_, _) => 3
    case CommitCas(h, v) => if Current(s, h, v) then 1 else 3
    case Commit(_) => 2
    case Update(_) => 3
    case Mark(_, i) => 4 + NodesLeft(s.max, i)
    case FrozenCas(h, v) => s.max + if Current(s, h, v) then 5 else 7
    case SetFrozen(_) => s.max + 6
    case Check(_, i) => s.max + 7 + 2 * NodesLeft(s.max, i + 1) + 1
    case Freeze(_, i) => s.max + 7 + 2 * NodesLeft(s.max, i)
    case _ => 0
  }

  function Rank(s: State, pc: Pc): nat
  {
    match pc
    case Ready => 0
    case Returned(_) => 0
    case Renewing(_) => 1
    case Clearing => 1
    case Adding(_, _, stage) => if stage < 4 then 4 - stage else 1
    case Executing(_, _, _, stage) => 3 * s.max + 9 + if stage < 4 then 4 - stage else 1
    case LlxAgain(_, _) => 1
    case LlxUnmarked(_, _) => 2
    case Copying(_, got, _) => 3 * s.max + 8 + Left(s.max, got)
    case LlxState(_, _) => 3 * s.max + 9 + Left(s.max, {})
    case LlxPtr(_) => 3 * s.max + 10 + Left(s.max, {})
    case LlxMarked(_) => 3 * s.max + 11 + Left(s.max, {})
    case _ => HelpRank(s, pc) + if pc.h.own then 1 else 0
  }

  lemma LlxRank(s: State, t: nat, s': State)
    requires t < |s.threads| == |s.desc| && LlxStep(s, t, s')
    ensures t < |s'.threads| && Rank(s', s'.threads[t].pc) < Rank(s, s.threads[t].pc)
  {
    hide Left, EmptySnap, Current;
  }

  lemma CopyRank(s: State, t: nat, s': State)
    requires t < |s.threads| == |s.desc| && SnapshotStep(s, t, s')
    ensures t < |s'.threads| && Rank(s', s'.threads[t].pc) < Rank(s, s.threads[t].pc)
  {
    SnapshotMoves(s, t, s');
    CopyGoes(s, t, s');
    var got := s.threads[t].pc.got;
    hide SnapshotStep;
    if s'.threads[t].pc.Copying? {
      var l :| l !in got && IsLoc(l, s.max) && s'.threads[t].pc.got == got + {l};
      LeftFalls(s.max, got, l);
    }
    hide Left, Current;
  }

  lemma CopyGoes(s: State, t: nat, s': State)
    requires t < |s.threads| == |s.desc| && SnapshotStep(s, t, s') && t < |s'.threads| && s' == Move(s, t, s'.threads[t].pc)
    ensures var pc, pc' := s.threads[t].pc, s'.threads[t].pc;
            || (pc'.Copying? && exists l :: l !in pc.got && IsLoc(l, s.max) && pc'.got == pc.got + {l})
            || (pc'.Freeze? && !pc'.h.own && pc'.i == 1) || pc' == Ready
  {
    hide CopyWord;
  }

  /** The next step of a preparation, of the freezing loop, or of the marking loop. */
  predicate LoopGoes(max: nat, pc: Pc, pc': Pc)
  {
    match pc
    case Clearing => pc' == Ready
    case Adding(l, fin, stage) => if stage < 3 then pc' == Adding(l, fin, stage + 1) else pc' == Ready
    case Executing(a, v, w, stage) => if stage < 3 then pc' == Executing(a, v, w, stage + 1) else pc'.Freeze? && pc'.i == 0 && pc'.h.own
    case Renewing(ok) => pc' == Returned(ok)
    case Freeze(h, i) => pc' == SetFrozen(h) || (i < max && (pc' == Freeze(h, i + 1) || pc' == Check(h, i)))
    case Check(h, i) => i < max && (pc' == Freeze(h, i + 1) || pc' == ReadFrozen(h, i))
    case ReadFrozen(h, _) => pc' == AfterHelp(h, true) || pc' == AfterHelp(h, false) || pc' == Abort(h)
    case Mark(h, i) => pc' == Update(h) || (i < max && pc' == Mark(h, i + 1))
    case Update(h) => pc' == Commit(h)
    case _ => false
  }

  lemma AddingLoops(s: State, t: nat, s': State)
    requires t < |s.threads| == |s.desc| && PrepareStep(s, t, s') && s.threads[t].pc.Adding?
    ensures t < |s'.threads| && s'.max == s.max && LoopGoes(s.max, s.threads[t].pc, s'.threads[t].pc)
  {
  }

  lemma ExecutingLoops(s: State, t: nat, s': State)
    requires t < |s.threads| == |s.desc| && PrepareStep(s, t, s') && !s.threads[t].pc.Adding?
    ensures t < |s'.threads| && s'.max == s.max && LoopGoes(s.max, s.threads[t].pc, s'.threads[t].pc)
  {
  }

  lemma PrepareLoops(s: State, t: nat, s': State)
    requires t < |s.threads| == |s.desc| && PrepareStep(s, t, s')
    ensures t < |s'.threads| && s'.max == s.max && LoopGoes(s.max, s.threads[t].pc, s'.threads[t].pc)
  {
    hide PrepareStep, LoopGoes;
    if s.threads[t].pc.Adding? { AddingLoops(s, t, s'); } else { ExecutingLoops(s, t, s'); }
  }

  lemma FreezeLoops(s: State, t: nat, s': State)
    requires t < |s.threads| == |s.desc| && FreezeStep(s, t, s')
    ensures t < |s'.threads| && s'.max == s.max && LoopGoes(s.max, s.threads[t].pc, s'.threads[t].pc)
  {
    hide View, AfterHelp;
  }

  lemma EffectLoops(s: State, t: nat, s': State)
    requires t < |s.threads| == |s.desc| && EffectStep(s, t, s')
    ensures t < |s'.threads| && s'.max == s.max && LoopGoes(s.max, s.threads[t].pc, s'.threads[t].pc)
  {
    hide View;
  }

  lemma LoopRank(s: State, s': State, pc: Pc, pc': Pc)
    requires s'.max == s.max && LoopGoes(s.max, pc, pc')
    ensures Rank(s', pc') < Rank(s, pc)
  {
    hide Left, Current;
    if Helping(pc) { HelpLoopRank(s, s', pc, pc'); }
  }

  lemma HelpLoopRank(s: State, s': State, pc: Pc, pc': Pc)
    requires s'.max == s.max && LoopGoes(s.max, pc, pc') && Helping(pc)
    ensures if Helping(pc') then pc'.h == pc.h && HelpRank(s', pc') < HelpRank(s, pc) else pc' == AfterHelp(pc.h, true) || pc' == AfterHelp(pc.h, false)
    ensures 0 < HelpRank(s, pc)
  {
    hide Current;
  }

  lemma WriteReadRank(s: State, t: nat, s': State)
    requires t < |s.threads| == |s.desc| && WriteStep(s, t, s')
    requires s.threads[t].pc.Abort? || s.threads[t].pc.SetFrozen? || s.threads[t].pc.Commit?
    ensures t < |s'.threads| && Rank(s', s'.threads[t].pc) < Rank(s, s.threads[t].pc)
  {
    ReadGoes(s, t, s');
    hide WriteStep, Left;
  }

  lemma ReadGoes(s: State, t: nat, s': State)
    requires t < |s.threads| == |s.desc| && WriteStep(s, t, s')
    requires s.threads[t].pc.Abort? || s.threads[t].pc.SetFrozen? || s.threads[t].pc.Commit?
    ensures t < |s'.threads| && s'.desc == s.desc && s'.max == s.max
    ensures var pc, pc' := s.threads[t].pc, s'.threads[t].pc;
            match pc
            case Abort(h) => pc' == AfterHelp(h, false) || (pc'.AbortCas? && pc'.h == h && Current(s, h, pc'.v))
            case SetFrozen(h) => pc' == Mark(h, 0) || (pc'.FrozenCas? && pc'.h == h && Current(s, h, pc'.v))
            case _ => pc' == AfterHelp(pc.h, true) || (pc'.CommitCas? && pc'.h == pc.h && Current(s, pc.h, pc'.v))
  {
    hide View;
    assert s' == Move(s, t, s'.threads[t].pc);
  }

  lemma WriteCasRank(s: State, t: nat, s': State)
    requires t < |s.threads| == |s.desc| && WriteStep(s, t, s')
    requires s.threads[t].pc.AbortCas? || s.threads[t].pc.FrozenCas? || s.threads[t].pc.CommitCas?
    ensures t < |s'.threads| && Rank(s', s'.threads[t].pc) < Rank(s, s.threads[t].pc)
  {
    CasThreads(s, t, s');
    CasBack(s, t, s');
    hide WriteStep, View, Left;
  }

  /** It starts over only if the word is not the one it read. */
  lemma CasBack(s: State, t: nat, s': State)
    requires t < |s.threads| == |s.desc| && WriteStep(s, t, s') && t < |s'.threads|
    requires s.threads[t].pc.AbortCas? || s.threads[t].pc.FrozenCas? || s.threads[t].pc.CommitCas?
    ensures s'.max == s.max
    ensures s'.threads[t].pc.Abort? || s'.threads[t].pc.SetFrozen? || s'.threads[t].pc.Commit? ==>
              !Current(s, s.threads[t].pc.h, s.threads[t].pc.v)
  {
    hide View;
  }

  predicate Idle(pc: Pc) { pc.Ready? || pc.Returned? }

  lemma NotCall(s: State, t: nat, s': State)
    requires t < |s.threads| == |s.desc| && !Idle(s.threads[t].pc)
    ensures !CallStep(s, t, s')
  {
  }

  /** Every step inside a call brings its end nearer. */
  lemma RankFalls(s: State, t: nat, s': State)
    requires t < |s.threads| == |s.desc| && ThreadStep(s, t, s') && !Idle(s.threads[t].pc)
    ensures t < |s'.threads| && Rank(s', s'.threads[t].pc) < Rank(s, s.threads[t].pc)
  {
    hide Rank, LoopGoes, LlxStep, SnapshotStep, PrepareStep, FreezeStep, WriteStep, EffectStep;
    if LlxStep(s, t, s') { LlxRank(s, t, s'); }
    else if SnapshotStep(s, t, s') { CopyRank(s, t, s'); }
    else if WriteStep(s, t, s') { WriteRank(s, t, s'); }
    else {
      if PrepareStep(s, t, s') { PrepareLoops(s, t, s'); }
      else if FreezeStep(s, t, s') { FreezeLoops(s, t, s'); }
      else { EffectLoops(s, t, s') by { NotCall(s, t, s'); } }
      LoopRank(s, s', s.threads[t].pc, s'.threads[t].pc);
    }
  }

  lemma WriteRank(s: State, t: nat, s': State)
    requires t < |s.threads| == |s.desc| && WriteStep(s, t, s')
    ensures t < |s'.threads| && Rank(s', s'.threads[t].pc) < Rank(s, s.threads[t].pc)
  {
    var pc := s.threads[t].pc;
    assert pc.Abort? || pc.AbortCas? || pc.SetFrozen? || pc.FrozenCas? || pc.Commit? || pc.CommitCas?;
    hide WriteStep, Rank;
    if pc.Abort? || pc.SetFrozen? || pc.Commit? { WriteReadRank(s, t, s'); } else { WriteCasRank(s, t, s'); }
  }

  /** From state `j` to state `k` only thread `t` takes steps, all inside one call. */
  ghost predicate AloneInCall(tr: seq<State>, j: nat, k: nat, t: nat)
  {
    && j <= k < |tr|
    && forall m: nat {:trigger tr[m]} :: j <= m < k ==>
         t < |tr[m].threads| == |tr[m].desc| && ThreadStep(tr[m], t, tr[m + 1]) && !Idle(tr[m].threads[t].pc)
  }

  lemma {:induction false} StepsLeft(tr: seq<State>, j: nat, k: nat, t: nat)
    requires AloneInCall(tr, j, k, t) && t < |tr[j].threads|
    ensures t < |tr[k].threads| && Rank(tr[k], tr[k].threads[t].pc) + (k - j) <= Rank(tr[j], tr[j].threads[t].pc)
    decreases k - j
  {
    hide Rank, ThreadStep;
    if j < k {
      StepsLeft(tr, j, k - 1, t);
      RankFalls(tr[k - 1], t, tr[k]);
    }
  }

  lemma RankBounded(s: State, pc: Pc)
    ensures Rank(s, pc) <= 6 * s.max + 16
  {
    LeftBounded(s.max, if pc.Copying? then pc.got else {});
    hide Left, Current;
  }

  /** A call of llx, scxAddNode or scxExecute that runs alone returns after at most 6 * max + 16 of its steps, from any
      state and with any attempts in progress, where `max` is the greatest number of nodes of an attempt. */
  lemma AloneReturns(tr: seq<State>, j: nat, k: nat, t: nat)
    requires AloneInCall(tr, j, k, t) && t < |tr[j].threads|
    ensures k - j <= 6 * tr[j].max + 16
  {
    hide Rank;
    StepsLeft(tr, j, k, t);
    RankBounded(tr[j], tr[j].threads[t].pc);
  }

  // ---------------------------------------------------------------- and it can always take the next step

  lemma NeverStuck(s: State, t: nat) returns (s': State)
    requires Inv(s) && t < |s.threads| && !Idle(s.threads[t].pc)
    ensures t < |s.desc| && ThreadStep(s, t, s')
  {
    assert ThreadInv(s, t);
    hide Inv, ThreadInv, LlxStep, SnapshotStep, PrepareStep, FreezeStep, WriteStep, EffectStep;
    var pc := s.threads[t].pc;
    if pc.LlxMarked? || pc.LlxPtr? || pc.LlxState? || pc.LlxUnmarked? || pc.LlxAgain? { s' := NextLlx(s, t); }
    else if pc.Copying? { s' := NextCopy(s, t); }
    else if pc.Clearing? || pc.Adding? || pc.Executing? || pc.Renewing? { s' := NextPrepare(s, t); }
    else if pc.Freeze? || pc.Check? || pc.ReadFrozen? { s' := NextFreeze(s, t); }
    else if pc.Mark? || pc.Update? { s' := NextEffect(s, t); }
    else { s' := NextWrite(s, t); }
  }

  lemma NextLlx(s: State, t: nat) returns (s': State)
    requires Inv(s) && t < |s.threads|
    requires var pc := s.threads[t].pc; pc.LlxMarked? || pc.LlxPtr? || pc.LlxState? || pc.LlxUnmarked? || pc.LlxAgain?
    ensures t < |s.desc| && LlxStep(s, t, s')
  {
    assert ThreadInv(s, t);
    var x := s.threads[t];
    match x.pc
    case LlxMarked(n) => s' := Move(s, t, LlxPtr(n));
    case LlxPtr(n) => s' := Move(s, t, LlxState(n, s.nodes[n].ptr));
    case LlxState(n, tag) =>
      if tag == InitTag { s' := Move(s, t, LlxUnmarked(n, tag)); }
      else {
        HeldAttempt(s, n, tag.id);
        StateOver(s, tag.id);
        hide Inv;
        var m := s.desc[tag.id.tid].m;
        s' := Move(s, t, if m.num != tag.id.num || m.state == Committed then LlxUnmarked(n, tag)
                         else if m.state == Aborted then LlxAgain(n, tag) else Copying(tag.id, {}, EmptySnap(s.max)));
      }
    case LlxUnmarked(n, tag) => s' := Move(s, t, if s.nodes[n].marked then Ready else LlxAgain(n, tag));
    case LlxAgain(n, tag) =>
      s' := if s.nodes[n].ptr == tag then s.(threads := s.threads[t := Thread(Ready, x.linked + {Link(n, tag)})]) else Move(s, t, Ready);
    case _ =>
  }

  lemma NextCopy(s: State, t: nat) returns (s': State)
    requires Inv(s) && t < |s.threads| && s.threads[t].pc.Copying?
    ensures t < |s.desc| && SnapshotStep(s, t, s')
  {
    var pc := s.threads[t].pc;
    assert ThreadInv(s, t);
    var d := s.desc[pc.id.tid];
    assert DescInv(s, pc.id.tid);
    hide Inv, AttemptInv;
    if l: Loc :| l !in pc.got && IsLoc(l, s.max) {
      s' := Move(s, t, Copying(pc.id, pc.got + {l}, CopyWord(pc.snap, d, l)));
      assert CopyStep(s, t, d, l, s');
    } else {
      s' := Move(s, t, if d.m.num == pc.id.num then Freeze(Help(pc.id, false, pc.snap), 1) else Ready);
    }
  }

  lemma NextPrepare(s: State, t: nat) returns (s': State)
    requires Inv(s) && t < |s.threads| && (s.threads[t].pc.Clearing? || s.threads[t].pc.Adding? || s.threads[t].pc.Executing? || s.threads[t].pc.Renewing?)
    ensures t < |s.desc| && PrepareStep(s, t, s')
  {
    assert ThreadInv(s, t);
    var x, d := s.threads[t], s.desc[t];
    var f := d.f;
    hide Inv, AttemptInv;
    match x.pc
    case Clearing => s' := Move(SetFields(s, t, f.(count := 0)), t, Ready);
    case Adding(l, fin, stage) =>
      s' := if stage == 0 then Move(SetFields(s, t, f.(nodes := f.nodes[f.count := l.node])), t, Adding(l, fin, 1))
            else if stage == 1 then Move(SetFields(s, t, f.(fin := f.fin[f.count := fin])), t, Adding(l, fin, 2))
            else if stage == 2 then Move(SetFields(s, t, f.(seen := f.seen[f.count := l.tag])), t, Adding(l, fin, 3))
            else Move(SetFields(s, t, f.(count := f.count + 1)), t, Ready);
    case Executing(a, v, w, stage) =>
      s' := if stage == 0 then Move(SetFields(s, t, f.(oldVal := v)), t, Executing(a, v, w, 1))
            else if stage == 1 then Move(SetFields(s, t, f.(newVal := w)), t, Executing(a, v, w, 2))
            else if stage == 2 then Move(SetFields(s, t, f.(field := a)), t, Executing(a, v, w, 3))
            else Move(SetMutables(s, t, d.m.(num := d.m.num + 1)), t, Freeze(Help(Id(t, d.m.num + 1), true, Snap(0, f)), 0))
                   .(attempts := s.attempts[Id(t, d.m.num + 1) := f]);
    case Renewing(ok) => s' := Move(SetMutables(s, t, Mutables(d.m.num + 1, false, InProgress)), t, Returned(ok));
    case _ =>
  }

  lemma EntryNode(s: State, id: Id, i: nat)
    requires AttemptInv(s, id) && id in s.attempts && i < s.attempts[id].count
    ensures Sized(s.attempts[id], s.max) && i < |s.attempts[id].nodes| && s.attempts[id].nodes[i] in s.nodes && s.attempts[id].field in s.values
  {
    assert LinkOk(s, Link(s.attempts[id].nodes[i], s.attempts[id].seen[i]));
    hide AllFrozen, Dead, AllMarked;
  }

  lemma NextFreeze(s: State, t: nat) returns (s': State)
    requires Inv(s) && t < |s.threads| && (s.threads[t].pc.Freeze? || s.threads[t].pc.Check? || s.threads[t].pc.ReadFrozen?)
    ensures t < |s.desc| && FreezeStep(s, t, s')
  {
    HelpView(s, t);
    var pc := s.threads[t].pc;
    var h, i := pc.h, pc.i;
    var id, f := h.id, s.attempts[h.id];
    assert Sized(f, s.max) by { hide Inv, View, HelpInv; }
    if i < f.count { EntryNode(s, id, i); }
    hide Inv, AttemptInv, View, Blocked, Replaced, FrozenUpTo;
    match pc
    case Freeze(_, _) =>
      if i >= f.count { s' := Move(s, t, SetFrozen(h)); }
      else {
        var n := f.nodes[i];
        s' := if s.nodes[n].ptr == f.seen[i] then
                Move(s, t, Freeze(h, i + 1)).(nodes := s.nodes[n := s.nodes[n].(ptr := Tag(id), past := s.nodes[n].past + {s.nodes[n].ptr})])
              else Move(s, t, Check(h, i));
      }
    case Check(_, _) => s' := Move(s, t, if s.nodes[f.nodes[i]].ptr == Tag(id) then Freeze(h, i + 1) else ReadFrozen(h, i));
    case ReadFrozen(_, _) =>
      var m := s.desc[id.tid].m;
      s' := Move(s, t, if m.num != id.num then AfterHelp(h, false) else if m.allFrozen then AfterHelp(h, true) else Abort(h));
    case _ =>
  }

  lemma NextEffect(s: State, t: nat) returns (s': State)
    requires Inv(s) && t < |s.threads| && (s.threads[t].pc.Mark? || s.threads[t].pc.Update?)
    ensures t < |s.desc| && EffectStep(s, t, s')
  {
    HelpView(s, t);
    var pc := s.threads[t].pc;
    var h, f := pc.h, s.attempts[pc.h.id];
    assert Sized(f, s.max) && f.field in s.values by { hide Inv, View, HelpInv; }
    if pc.Mark? && pc.i < f.count { EntryNode(s, h.id, pc.i); }
    hide Inv, AttemptInv, View, HelpInv;
    match pc
    case Mark(_, i) =>
      s' := if i >= f.count then Move(s, t, Update(h))
            else if f.fin[i] then Move(s, t, Mark(h, i + 1)).(nodes := s.nodes[f.nodes[i] := s.nodes[f.nodes[i]].(marked := true)])
            else Move(s, t, Mark(h, i + 1));
    case Update(_) =>
      s' := if s.values[f.field] == f.oldVal then Move(s, t, Commit(h)).(values := s.values[f.field := f.newVal]) else Move(s, t, Commit(h));
    case _ =>
  }

  lemma NextWrite(s: State, t: nat) returns (s': State)
    requires Inv(s) && t < |s.threads|
    requires var pc := s.threads[t].pc; pc.Abort? || pc.AbortCas? || pc.SetFrozen? || pc.FrozenCas? || pc.Commit? || pc.CommitCas?
    ensures t < |s.desc| && WriteStep(s, t, s')
  {
    HelpView(s, t);
    var pc := s.threads[t].pc;
    var h, o, num := pc.h, pc.h.id.tid, View(s, pc.h).num;
    hide Inv, AttemptInv, View, HelpInv;
    var m := s.desc[o].m;
    match pc
    case Abort(_) => s' := Move(s, t, if m.num != num || m.state == Aborted then AfterHelp(h, false) else AbortCas(h, m));
    case AbortCas(_, v) =>
      s' := if m == v then Move(SetMutables(s, o, v.(state := Aborted)), t, AfterHelp(h, false)).(aborted := s.aborted + {Id(o, v.num)})
            else Move(s, t, Abort(h));
    case SetFrozen(_) => s' := Move(s, t, if m.num != num || m.allFrozen then Mark(h, 0) else FrozenCas(h, m));
    case FrozenCas(_, v) =>
      s' := if m == v then Move(SetMutables(s, o, v.(allFrozen := true)), t, Mark(h, 0)).(frozen := s.frozen + {Id(o, v.num)})
            else Move(s, t, SetFrozen(h));
    case Commit(_) => s' := Move(s, t, if m.num != num || m.state == Committed then AfterHelp(h, true) else CommitCas(h, m));
    case CommitCas(_, v) =>
      s' := if m == v then Move(SetMutables(s, o, v.(state := Committed)), t, AfterHelp(h, true)).(committed := s.committed + {Id(o, v.num)})
            else Move(s, t, Commit(h));
    case _ =>
  }
}
