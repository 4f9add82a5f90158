/** Obstruction freedom of DCSS: a dcss or a read that runs alone ends after a bounded number of steps, whatever
    half-finished operations of stalled threads it meets, because it helps them first. */
module DcssAlone {
  import opened Dcss
  import opened DcssProof
  import opened DcssRuns
  import opened DcssLinearization

  /** The word the thread's operation works on holds this tag. */
  predicate Meets(s: State, x: Thread, id: Id)
  {
    TargetWord(x.op).Some? && TargetWord(x.op).value in s.data && s.data[TargetWord(x.op).value] == Tag(id)
  }

  predicate MeetsSome(s: State, x: Thread)
  {
    TargetWord(x.op).Some? && TargetWord(x.op).value in s.data && s.data[TargetWord(x.op).value].Tag?
  }

  /** The words of a descriptor that are not copied yet. */
  function Missing(got: set<nat>): nat
  {
    (if 0 in got then 0 else 1) + (if 1 in got then 0 else 1) + (if 2 in got then 0 else 1)
    + (if 3 in got then 0 else 1) + (if 4 in got then 0 else 1) + (if 5 in got then 0 else 1)
  }

  function HelpRank(pc: Pc): nat
    requires Helping(pc)
  {
    match pc
    case ReadAddr1(_) => 4
    case ReadMutables(_, _) => 3
    case CasState(_, _) => 2
    case Cleanup(_, _, _) => 1
    case _ => 0
  }

  /** How many steps it can take at most: helping an operation whose tag is in the way, starting over after helping
      one whose tag has gone meanwhile. */
  function Rank(s: State, x: Thread): nat
  {
    match x.pc
    case Returned(_) => 0
    case Idle => 0
    case New => 40
    case Filling(k) => if k <= FIELDS then 39 - k else 33
    case Attempt => if MeetsSome(s, x) then 17 else 5
    case Copying(id, got, _) => (if Meets(s, x, id) then 10 else 23) + Missing(got)
    case _ => if x.pc.h.own then HelpRank(x.pc) else if Meets(s, x, x.pc.h.id) then 5 + HelpRank(x.pc) else 18 + HelpRank(x.pc)
  }

  lemma TargetThere(s: State, t: nat)
    requires Inv(s) && t < |s.threads| && !s.threads[t].pc.Idle?
    ensures TargetWord(s.threads[t].op).Some? && TargetWord(s.threads[t].op).value in s.data
  {
    assert OwnerInv(s, t);
  }

  /** A tag in memory belongs to an operation whose owner is at work on it. */
  lemma MetIsCurrent(s: State, t: nat, id: Id)
    requires Inv(s) && t < |s.threads| && Meets(s, s.threads[t], id)
    ensures KnownId(s, id) && s.desc[id.tid].num == id.num && s.published[id][ADDR2] == TargetWord(s.threads[t].op).value
  {
    assert DataInv(s, TargetWord(s.threads[t].op).value) && IdInv(s, id);
  }

  lemma PrepareRank(s: State, t: nat, s': State)
    requires Inv(s) && t < |s.threads| && PrepareStep(s, t, s')
    ensures t < |s'.threads| && Rank(s', s'.threads[t]) < Rank(s, s.threads[t])
  {
    assert OwnerInv(s, t);
    hide Inv, Meets, MeetsSome;
  }

  lemma AttemptRank(s: State, t: nat, s': State)
    requires Inv(s) && t < |s.threads| && AttemptStep(s, t, s')
    ensures t < |s'.threads| && Rank(s', s'.threads[t]) < Rank(s, s.threads[t])
  {
    assert OwnerInv(s, t);
    hide Inv;
  }

  lemma CopyMoves(s: State, t: nat, s': State)
    requires t < |s.threads| == |s.desc| && SnapshotStep(s, t, s')
    ensures t < |s'.threads| && s' == Move(s, t, s'.threads[t].pc)
    ensures var pc, pc' := s.threads[t].pc, s'.threads[t].pc;
            || (pc'.Copying? && pc'.id == pc.id && Missing(pc'.got) < Missing(pc.got))
            || (pc.id.tid < |s.desc| && s.desc[pc.id.tid].num == pc.id.num && pc' == ReadAddr1(Help(pc.id, false, pc.snap)))
            || (pc.id.tid < |s.desc| && s.desc[pc.id.tid].num != pc.id.num && pc'.Attempt?)
  {
    hide DescWord;
  }

  lemma CopyRank(s: State, t: nat, s': State)
    requires Inv(s) && t < |s.threads| && SnapshotStep(s, t, s')
    ensures t < |s'.threads| && Rank(s', s'.threads[t]) < Rank(s, s.threads[t])
  {
    var id := s.threads[t].pc.id;
    if Meets(s, s.threads[t], id) { MetIsCurrent(s, t, id); }
    hide Inv;
    CopyMoves(s, t, s');
    hide SnapshotStep;
  }

  lemma HelpOwnRank(s: State, t: nat, s': State)
    requires Inv(s) && t < |s.threads| && HelpStep(s, t, s') && Own(s.threads[t].pc)
    ensures t < |s'.threads| && Rank(s', s'.threads[t]) < Rank(s, s.threads[t])
  {
    HelpWords(s, t);
    HelpSteps(s, t, s');
    hide Inv, HelpStep, Meets, MeetsSome;
  }

  /** One step of dcssHelp: on by one, or back. */
  predicate HelpGoes(pc: Pc, pc': Pc)
  {
    match pc
    case ReadAddr1(h) => pc'.ReadMutables? && pc'.h == h
    case ReadMutables(h, _) => (pc'.CasState? && pc'.h == h) || pc' == AfterHelp(h, Ignored)
    case CasState(h, _) => (pc'.Cleanup? && pc'.h == h) || pc' == AfterHelp(h, Ignored)
    case Cleanup(h, val1, ok) => pc' == AfterHelp(h, if ok then Success else FailedAddr1(val1))
    case _ => false
  }

  predicate HelpMoves(s: State, t: nat, s': State)
    requires t < |s.threads|
  {
    && |s'.threads| == |s.threads| && s'.threads[t].op == s.threads[t].op && HelpGoes(s.threads[t].pc, s'.threads[t].pc)
    && (s.threads[t].pc.Cleanup? || s'.data == s.data)
  }

  lemma ReadMoves(s: State, t: nat, s': State)
    requires t < |s.threads| == |s.desc| && HelpStep(s, t, s') && (s.threads[t].pc.ReadAddr1? || s.threads[t].pc.ReadMutables?)
    ensures HelpMoves(s, t, s')
  {
    hide Words, AfterHelp;
  }

  lemma CasMoves(s: State, t: nat, s': State)
    requires t < |s.threads| == |s.desc| && HelpStep(s, t, s') && s.threads[t].pc.CasState?
    ensures HelpMoves(s, t, s')
  {
    hide Words, AfterHelp;
  }

  lemma CleanupMoves(s: State, t: nat, s': State)
    requires t < |s.threads| == |s.desc| && HelpStep(s, t, s') && s.threads[t].pc.Cleanup?
    ensures HelpMoves(s, t, s')
  {
    hide Words, AfterHelp;
  }

  lemma HelpSteps(s: State, t: nat, s': State)
    requires t < |s.threads| == |s.desc| && HelpStep(s, t, s')
    ensures Helping(s.threads[t].pc) && HelpMoves(s, t, s')
  {
    hide HelpMoves;
    if s.threads[t].pc.CasState? { CasMoves(s, t, s'); }
    else if s.threads[t].pc.Cleanup? { CleanupMoves(s, t, s'); }
    else { ReadMoves(s, t, s'); }
  }

  /** Helping leads to the next step or, if the tag is in the way, takes it out; so an early way back means that it
      has gone before. */
  lemma HelpOtherRank(s: State, t: nat, s': State)
    requires Inv(s) && t < |s.threads| && HelpStep(s, t, s') && !Own(s.threads[t].pc)
    ensures t < |s'.threads| && Rank(s', s'.threads[t]) < Rank(s, s.threads[t])
  {
    var x, id := s.threads[t], s.threads[t].pc.h.id;
    HelpWords(s, t);
    HelpSteps(s, t, s');
    TargetThere(s, t);
    if Meets(s, x, id) {
      MetIsCurrent(s, t, id);
      HelpMet(s, t, s', id);
    }
    hide Inv, HelpStep;
  }

  lemma HelpMet(s: State, t: nat, s': State, id: Id)
    requires Inv(s) && t < |s.threads| && HelpStep(s, t, s') && s.threads[t].pc.h == Help(id, false, s.threads[t].pc.h.snap)
    requires Meets(s, s.threads[t], id) && KnownId(s, id) && s.desc[id.tid].num == id.num
    requires s.published[id][ADDR2] == TargetWord(s.threads[t].op).value
    ensures t < |s'.threads|
    ensures s.threads[t].pc.Cleanup? ==> s'.threads[t].pc.Attempt? && !MeetsSome(s', s'.threads[t])
    ensures !s.threads[t].pc.Cleanup? ==> Helping(s'.threads[t].pc)
  {
    HelpWords(s, t);
    hide Inv;
  }

  lemma RankBounded(s: State, x: Thread)
    ensures Rank(s, x) <= 40
  {
    hide Meets, MeetsSome;
  }

  /** Every step of a thread inside a call brings its end nearer. */
  lemma RankFalls(s: State, t: nat, s': State)
    requires Inv(s) && t < |s.threads| == |s.desc| && ThreadStep(s, t, s') && !s.threads[t].pc.Idle? && !s.threads[t].pc.Returned?
    ensures t < |s'.threads| && Rank(s', s'.threads[t]) < Rank(s, s.threads[t])
  {
    hide Inv, Rank, PrepareStep, AttemptStep, SnapshotStep, HelpStep;
    if PrepareStep(s, t, s') { PrepareRank(s, t, s'); }
    else if AttemptStep(s, t, s') { AttemptRank(s, t, s'); }
    else if SnapshotStep(s, t, s') { CopyRank(s, t, s'); }
    else if HelpStep(s, t, s') {
      if Own(s.threads[t].pc) { HelpOwnRank(s, t, s'); } else { HelpOtherRank(s, t, s'); }
    }
  }

  /** From state `j` to state `k` only thread `t` takes steps, all inside one call. */
  ghost predicate AloneInCall(tr: seq<State>, j: nat, k: nat, t: nat)
  {
    && j <= k < |tr|
    && forall m: nat {:trigger tr[m]} :: j <= m < k ==>
         t < |tr[m].threads| == |tr[m].desc| && ThreadStep(tr[m], t, tr[m + 1]) && !tr[m].threads[t].pc.Idle? && !tr[m].threads[t].pc.Returned?
  }

  lemma {:induction false} StepsLeft(tr: seq<State>, j: nat, k: nat, t: nat)
    requires Run(tr) && AloneInCall(tr, j, k, t) && t < |tr[j].threads|
    ensures t < |tr[k].threads| && Rank(tr[k], tr[k].threads[t]) + (k - j) <= Rank(tr[j], tr[j].threads[t])
    decreases k - j
  {
    hide Inv, Run, Rank, ThreadStep;
    if j < k {
      StepsLeft(tr, j, k - 1, t);
      RunInv(tr, k - 1);
      RankFalls(tr[k - 1], t, tr[k]);
    }
  }

  /** A dcss, or a read, that runs alone returns after at most 40 of its steps, from any reachable state. */
  lemma AloneReturns(tr: seq<State>, j: nat, k: nat, t: nat)
    requires Run(tr) && AloneInCall(tr, j, k, t) && t < |tr[j].threads|
    ensures k - j <= 40
  {
    hide Rank, Run;
    StepsLeft(tr, j, k, t);
    RankBounded(tr[j], tr[j].threads[t]);
  }

  // ---------------------------------------------------------------- and it can always take the next step

  lemma NeverStuck(s: State, t: nat) returns (s': State)
    requires Inv(s) && t < |s.threads| && !s.threads[t].pc.Idle? && !s.threads[t].pc.Returned?
    ensures ThreadStep(s, t, s')
  {
    assert OwnerInv(s, t) && HelperInv(s, t);
    var x, d := s.threads[t], s.desc[t];
    match x.pc
    case New => s' := Move(SetDesc(s, t, d.(num := d.num + 1, state := Undecided)), t, Filling(0)); assert PrepareStep(s, t, s');
    case Filling(k) => s' := NextFill(s, t);
    case Attempt => s' := NextAttempt(s, t);
    case Copying(id, got, snap) => s' := NextCopy(s, t);
    case _ => s' := NextHelp(s, t);
  }

  lemma NextFill(s: State, t: nat) returns (s': State)
    requires Inv(s) && t < |s.threads| && s.threads[t].pc.Filling?
    ensures PrepareStep(s, t, s')
  {
    assert OwnerInv(s, t);
    var x, d, k := s.threads[t], s.desc[t], s.threads[t].pc.k;
    hide Inv;
    if k < FIELDS { s' := Move(SetDesc(s, t, d.(f := d.f[k := x.op.args[k]])), t, Filling(k + 1)); }
    else { s' := Move(SetDesc(s, t, d.(num := d.num + 1)), t, Attempt).(published := s.published[Id(t, d.num + 1) := d.f]); }
  }

  lemma NextAttempt(s: State, t: nat) returns (s': State)
    requires Inv(s) && t < |s.threads| && s.threads[t].pc.Attempt?
    ensures AttemptStep(s, t, s')
  {
    assert OwnerInv(s, t);
    var x, d := s.threads[t], s.desc[t];
    hide Inv;
    var a := if x.op.ReadOp? then x.op.addr else d.f[ADDR2];
    match s.data[a]
    case Tag(id) => s' := Move(s, t, Copying(id, {}, NO_WORDS));
    case Val(v) =>
      if x.op.ReadOp? { s' := Move(s, t, Returned(ReadValue(v))); }
      else if v == d.f[OLD2] {
        s' := Move(s, t, ReadAddr1(Help(Id(t, d.num), true, []))).(data := s.data[d.f[ADDR2] := Tag(Id(t, d.num))], installed := s.installed + {Id(t, d.num)});
      } else { s' := Move(s, t, Returned(FailedAddr2(v))); }
  }

  lemma NextCopy(s: State, t: nat) returns (s': State)
    requires Inv(s) && t < |s.threads| && s.threads[t].pc.Copying?
    ensures SnapshotStep(s, t, s')
  {
    assert HelperInv(s, t);
    var pc := s.threads[t].pc;
    var d := s.desc[pc.id.tid];
    assert DescInv(s, pc.id.tid);
    hide Inv;
    if k: nat :| k <= FIELDS && k !in pc.got {
      s' := Move(s, t, Copying(pc.id, pc.got + {k}, pc.snap[k := DescWord(d, k)]));
    } else {
      s' := Move(s, t, if d.num == pc.id.num then ReadAddr1(Help(pc.id, false, pc.snap)) else Attempt);
    }
  }

  lemma NextHelp(s: State, t: nat) returns (s': State)
    requires Inv(s) && t < |s.threads| && Helping(s.threads[t].pc)
    ensures HelpStep(s, t, s')
  {
    HelpWords(s, t);
    var pc := s.threads[t].pc;
    var h := pc.h;
    var o := h.id.tid;
    assert IdInv(s, h.id);
    var d, w := s.desc[o], Words(s, h);
    hide Inv, Words;
    match pc
    case ReadAddr1(_) => s' := Move(s, t, ReadMutables(h, s.control[w[ADDR1]]));
    case ReadMutables(_, val1) => s' := Move(s, t, if d.num != w[FIELDS] then AfterHelp(h, Ignored) else CasState(h, val1));
    case CasState(_, val1) =>
      if d.num == w[FIELDS] && d.state == Undecided {
        s' := Move(SetDesc(s, o, d.(state := if val1 == w[OLD1] then Succeeded else Failed)), t, Cleanup(h, val1, val1 == w[OLD1]))
              .(decided := s.decided[h.id := val1 == w[OLD1]]);
      } else if d.state != Undecided { s' := Move(s, t, Cleanup(h, val1, d.state == Succeeded)); }
      else { s' := Move(s, t, AfterHelp(h, Ignored)); }
    case Cleanup(_, val1, ok) =>
      var next := Move(s, t, AfterHelp(h, if ok then Success else FailedAddr1(val1)));
      s' := if s.data[w[ADDR2]] == Tag(h.id) then next.(data := s.data[w[ADDR2] := Val(if ok then w[NEW2] else w[OLD2])], removed := s.removed + {h.id})
            else next;
    case _ =>
  }
}
