/** DEBRA, the epoch-based reclaimer (common/recordmgr/reclaimer_debra.h), as a state machine.

    Each step of the machine performs at most one access to a word that other threads write: a read
    of the global epoch, a read or write of an announcement, a compare-and-swap of the epoch.
    `Announce`, `EndOp` and `Retire` may interleave with every other thread's steps in any order.

    The components `hist` and `retired` are history: no step reads them to decide what to do. They
    record, for every thread, the epoch at its latest announcement and what was retired since, and,
    for every retired record, who retired it and when. */
module Debra {
  import opened Basics
  import BlockBags

  type Record(==, !new) = nat

  const EPOCH_INCREMENT: nat := 2
  const MIN_OPS_BEFORE_READ: nat := 20
  const NUMBER_OF_EPOCH_BAGS: nat := 9
  const NUMBER_OF_ALWAYS_EMPTY_EPOCH_BAGS: nat := 3

  /** An announcement carries the quiescent bit in its lowest bit; epochs are even. */
  function BitsEpoch(ann: nat): nat { ann - ann % EPOCH_INCREMENT }

  predicate Quiescent(ann: nat) { ann % 2 == 1 }

  function WithQuiescent(ann: nat): nat { if Quiescent(ann) then ann else ann + 1 }

  /** Where a thread stands between two shared accesses of `startOp`, or `InOp` / `Idle` outside it. */
  datatype Pc = Idle | Rotate(e: nat) | Announce(e: nat) | Scan(e: nat) | CasEpoch(e: nat) | InOp

  datatype ThreadData = ThreadData(
    pc: Pc, announcedEpoch: nat, localAnnounced: nat,
    index: nat, bags: seq<set<Record>>, checked: nat, opsSinceRead: nat)

  datatype History = History(epochAtAnnounce: nat, retiredSince: set<Record>, rotations: nat)

  datatype Retirement = Retirement(owner: nat, epoch: nat, rotation: nat)

  datatype State = State(
    epoch: nat, threads: seq<ThreadData>, pool: set<Record>,
    hist: seq<History>, retired: map<Record, Retirement>)

  /** A thread is protected from its announcement until `endOp`. */
  predicate Active(td: ThreadData) { !Quiescent(td.announcedEpoch) }

  // ---------------------------------------------------------------- the steps

  datatype Step =
    | ReadEpoch(t: nat)
    | RotateBags(t: nat, moved: set<Record>)
    | Announcement(t: nat)
    | ScanStep(t: nat, readOnly: bool)
    | CasStep(t: nat)
    | RetireStep(t: nat, r: Record)
    | EndOp(t: nat)

  function NextIndex(index: nat): nat { (index + 1) % NUMBER_OF_EPOCH_BAGS }

  /** The bag that a rotation hands to the pool. */
  function FreeableIndex(index: nat): nat
  {
    (NextIndex(index) + NUMBER_OF_ALWAYS_EMPTY_EPOCH_BAGS) % NUMBER_OF_EPOCH_BAGS
  }

  /** The full blocks leave the bag, and the head block, which is not full, stays behind. */
  predicate FullBlocks(bag: set<Record>, moved: set<Record>)
  {
    |moved| % BlockBags.BLOCK_SIZE == 0 && |bag - moved| < BlockBags.BLOCK_SIZE
  }

  predicate Enabled(s: State, step: Step)
    requires Shape(s)
  {
    step.t < |s.threads| &&
    var td := s.threads[step.t];
    match step
    case ReadEpoch(_) => td.pc == Idle
    case RotateBags(_, moved) => td.pc.Rotate? && moved <= td.bags[FreeableIndex(td.index)] && FullBlocks(td.bags[FreeableIndex(td.index)], moved)
    case Announcement(_) => td.pc.Announce?
    case ScanStep(_, _) => td.pc.Scan? && td.checked < |s.threads|
    case CasStep(_) => td.pc.CasEpoch?
    // a record is retired at most once
    case RetireStep(_, r) => (td.pc == InOp || td.pc == Idle) && r !in s.retired
    case EndOp(_) => td.pc == InOp
  }

  function Apply(s: State, step: Step): State
    requires Shape(s) && Enabled(s, step)
  {
    var t := step.t;
    var td := s.threads[t];
    var h := s.hist[t];
    match step
    case ReadEpoch(_) =>
      var pc := if s.epoch != td.localAnnounced then Rotate(s.epoch) else Announce(s.epoch);
      s.(threads := s.threads[t := td.(pc := pc, localAnnounced := s.epoch)])
    case RotateBags(_, moved) =>
      var f := FreeableIndex(td.index);
      s.(threads := s.threads[t := td.(pc := Announce(td.pc.e), checked := 0, index := NextIndex(td.index),
                                       bags := td.bags[f := td.bags[f] - moved])],
         pool := s.pool + moved,
         hist := s.hist[t := h.(rotations := h.rotations + 1)])
    case Announcement(_) =>
      s.(threads := s.threads[t := td.(pc := Scan(td.pc.e), announcedEpoch := td.pc.e)],
         hist := s.hist[t := h.(epochAtAnnounce := s.epoch, retiredSince := {})])
    case ScanStep(_, readOnly) =>
      if readOnly then
        s.(threads := s.threads[t := td.(pc := InOp)])
      else if td.opsSinceRead + 1 != MIN_OPS_BEFORE_READ then
        s.(threads := s.threads[t := td.(pc := InOp, opsSinceRead := td.opsSinceRead + 1)])
      else
        var other := s.threads[td.checked].announcedEpoch;
        if BitsEpoch(other) == td.pc.e || Quiescent(other) then
          var c := td.checked + 1;
          var pc := if c >= |s.threads| then CasEpoch(td.pc.e) else InOp;
          s.(threads := s.threads[t := td.(pc := pc, opsSinceRead := 0, checked := c)])
        else
          s.(threads := s.threads[t := td.(pc := InOp, opsSinceRead := 0)])
    case CasStep(_) =>
      s.(threads := s.threads[t := td.(pc := InOp)],
         epoch := if s.epoch == td.pc.e then s.epoch + EPOCH_INCREMENT else s.epoch)
    case RetireStep(_, r) =>
      s.(threads := s.threads[t := td.(bags := td.bags[td.index := td.bags[td.index] + {r}])],
         hist := seq(|s.hist|, i requires 0 <= i < |s.hist| => s.hist[i].(retiredSince := s.hist[i].retiredSince + {r})),
         retired := s.retired[r := Retirement(t, s.epoch, h.rotations)])
    case EndOp(_) =>
      s.(threads := s.threads[t := td.(pc := Idle, announcedEpoch := WithQuiescent(td.localAnnounced))])
  }

  ghost predicate Next(s: State, s': State)
  {
    Shape(s) && exists step :: Enabled(s, step) && s' == Apply(s, step)
  }

  predicate Shape(s: State)
  {
    && 0 < |s.threads| == |s.hist|
    && forall t :: 0 <= t < |s.threads| ==>
         |s.threads[t].bags| == NUMBER_OF_EPOCH_BAGS && s.threads[t].index < NUMBER_OF_EPOCH_BAGS
  }

  predicate Init(s: State)
  {
    && s.epoch == 0 && s.pool == {} && s.retired == map[]
    && 0 < |s.threads| == |s.hist|
    && (forall t :: 0 <= t < |s.threads| ==>
         s.threads[t] == ThreadData(Idle, WithQuiescent(0), WithQuiescent(0), 0,
                                    [{}, {}, {}, {}, {}, {}, {}, {}, {}], 0, 0))
    && (forall t :: 0 <= t < |s.hist| ==> s.hist[t] == History(0, {}, 0))
  }

  // ---------------------------------------------------------------- the invariant

  /** What holds of thread `t` whatever the others do. */
  ghost predicate ThreadInv(s: State, t: nat)
    requires Shape(s) && t < |s.threads|
  {
    var td := s.threads[t];
    var h := s.hist[t];
    && (td.localAnnounced % 2 == 0 ==> td.localAnnounced <= s.epoch)
    && (td.localAnnounced % 2 == 1 ==> td.pc == Idle && td.checked == 0 && h.rotations == 0)
    && (td.pc.Rotate? || td.pc.Announce? || td.pc.Scan? || td.pc.CasEpoch? ==> td.pc.e == td.localAnnounced)
    && (Active(td) <==> td.pc.Scan? || td.pc.CasEpoch? || td.pc.InOp?)
    && (Active(td) ==> td.announcedEpoch == td.localAnnounced <= h.epochAtAnnounce <= s.epoch)
    // the index counts rotations modulo nine
    && td.index == h.rotations % NUMBER_OF_EPOCH_BAGS
    // the scan never runs past the last thread
    && td.checked <= |s.threads|
    && (td.pc.Announce? || td.pc.Scan? ==> td.checked < |s.threads|)
    && (td.pc.Idle? || td.pc.InOp? ==> td.checked < |s.threads| || td.localAnnounced < s.epoch)
    && (td.pc.CasEpoch? ==> td.checked == |s.threads|)
    && td.opsSinceRead < MIN_OPS_BEFORE_READ
  }

  /** The epoch is at most one increment past any active thread's announcement ... */
  ghost predicate GraceInv(s: State, t: nat)
    requires Shape(s) && t < |s.threads|
  {
    Active(s.threads[t]) ==> s.epoch <= s.hist[t].epochAtAnnounce + EPOCH_INCREMENT
  }

  /** ... because a thread that `v` has already checked announced no earlier than `v` read its epoch. */
  ghost predicate CheckedInv(s: State, v: nat, t: nat)
    requires Shape(s) && v < |s.threads| && t < |s.threads|
  {
    !s.threads[v].pc.Rotate? && t < s.threads[v].checked && Active(s.threads[t])
    ==> s.threads[v].localAnnounced <= s.hist[t].epochAtAnnounce
  }

  /** A record still in limbo sits in the bag of the rotation that retired it, and each rotation of
      its owner since then, but the first, read a strictly larger epoch. */
  ghost predicate RecordInv(s: State, r: Record)
    requires Shape(s) && r in s.retired
  {
    var x := s.retired[r];
    && x.owner < |s.threads|
    && x.rotation <= s.hist[x.owner].rotations
    && x.epoch <= s.epoch
    && (0 < PendingRotations(s, x) ==>
         x.epoch + EPOCH_INCREMENT * (PendingRotations(s, x) - 1) <= s.threads[x.owner].localAnnounced)
    && (r !in s.pool <==> r in s.threads[x.owner].bags[x.rotation % NUMBER_OF_EPOCH_BAGS])
  }

  /** Rotations of the owner since the retirement, counting one that has read its epoch already. */
  ghost function PendingRotations(s: State, x: Retirement): int
    requires Shape(s) && x.owner < |s.threads|
  {
    s.hist[x.owner].rotations - x.rotation + if s.threads[x.owner].pc.Rotate? then 1 else 0
  }

  ghost predicate BagInv(s: State, u: nat, j: nat)
    requires Shape(s) && u < |s.threads| && j < NUMBER_OF_EPOCH_BAGS
  {
    forall r :: r in s.threads[u].bags[j] ==>
      r in s.retired && s.retired[r].owner == u && s.retired[r].rotation % NUMBER_OF_EPOCH_BAGS == j
  }

  ghost predicate SinceInv(s: State, t: nat, r: Record)
    requires Shape(s) && t < |s.threads|
  {
    r in s.hist[t].retiredSince ==>
      r in s.retired && (Active(s.threads[t]) ==> r !in s.pool && s.hist[t].epochAtAnnounce <= s.retired[r].epoch)
  }

  ghost predicate ThreadsInv(s: State)
  {
    && Shape(s)
    && s.epoch % 2 == 0
    && (forall t :: 0 <= t < |s.threads| ==> ThreadInv(s, t))
    && (forall t :: 0 <= t < |s.threads| ==> GraceInv(s, t))
    && (forall v, t :: 0 <= v < |s.threads| && 0 <= t < |s.threads| ==> CheckedInv(s, v, t))
  }

  ghost predicate RecordsInv(s: State)
    requires Shape(s)
  {
    && (forall r :: r in s.retired ==> RecordInv(s, r))
    && (forall u, j :: 0 <= u < |s.threads| && 0 <= j < NUMBER_OF_EPOCH_BAGS ==> BagInv(s, u, j))
    && (forall t, r :: 0 <= t < |s.threads| ==> SinceInv(s, t, r))
    && (forall r :: r in s.pool ==> r in s.retired)
  }

  ghost predicate Inv(s: State) { ThreadsInv(s) && RecordsInv(s) }

  // ---------------------------------------------------------------- every step keeps the invariant

  lemma InitInv(s: State)
    requires Init(s)
    ensures Inv(s)
  {
  }

  lemma ReadEpochKeepsThreads(s: State, step: Step)
    requires Inv(s) && Enabled(s, step) && step.ReadEpoch?
    ensures ThreadsInv(Apply(s, step))
  {
    var s' := Apply(s, step);
    forall i | 0 <= i < |s'.threads| ensures ThreadInv(s', i) && GraceInv(s', i) {
      assert ThreadInv(s, i) && GraceInv(s, i);
    }
    forall v, i | 0 <= v < |s'.threads| && 0 <= i < |s'.threads| ensures CheckedInv(s', v, i) {
      assert CheckedInv(s, v, i) && ThreadInv(s, v) && ThreadInv(s, i);
    }
  }

  lemma AnnouncementKeepsThreads(s: State, step: Step)
    requires Inv(s) && Enabled(s, step) && step.Announcement?
    ensures ThreadsInv(Apply(s, step))
  {
    var s' := Apply(s, step);
    forall i | 0 <= i < |s'.threads| ensures ThreadInv(s', i) && GraceInv(s', i) {
      assert ThreadInv(s, i) && GraceInv(s, i);
    }
    forall v, i | 0 <= v < |s'.threads| && 0 <= i < |s'.threads| ensures CheckedInv(s', v, i) {
      assert CheckedInv(s, v, i) && ThreadInv(s, v) && ThreadInv(s, i);
    }
  }

  lemma ScanKeepsThreads(s: State, step: Step)
    requires Inv(s) && Enabled(s, step) && step.ScanStep?
    ensures ThreadsInv(Apply(s, step))
  {
    var s' := Apply(s, step);
    forall i | 0 <= i < |s'.threads| ensures ThreadInv(s', i) && GraceInv(s', i) {
      assert ThreadInv(s, i) && GraceInv(s, i);
    }
    forall v, i | 0 <= v < |s'.threads| && 0 <= i < |s'.threads| ensures CheckedInv(s', v, i) {
      assert CheckedInv(s, v, i) && ThreadInv(s, v) && ThreadInv(s, i);
    }
  }

  lemma CasKeepsThreads(s: State, step: Step)
    requires Inv(s) && Enabled(s, step) && step.CasStep?
    ensures ThreadsInv(Apply(s, step))
  {
    var s' := Apply(s, step);
    forall i | 0 <= i < |s'.threads| ensures ThreadInv(s', i) && GraceInv(s', i) {
      assert ThreadInv(s, i) && GraceInv(s, i);
      assert CheckedInv(s, step.t, i) && ThreadInv(s, step.t);
    }
    forall v, i | 0 <= v < |s'.threads| && 0 <= i < |s'.threads| ensures CheckedInv(s', v, i) {
      assert CheckedInv(s, v, i) && ThreadInv(s, v) && ThreadInv(s, i);
    }
  }

  lemma RetireKeepsThreads(s: State, step: Step)
    requires Inv(s) && Enabled(s, step) && step.RetireStep?
    ensures ThreadsInv(Apply(s, step))
  {
    var s' := Apply(s, step);
    forall i | 0 <= i < |s'.threads| ensures ThreadInv(s', i) && GraceInv(s', i) {
      assert ThreadInv(s, i) && GraceInv(s, i);
    }
    forall v, i | 0 <= v < |s'.threads| && 0 <= i < |s'.threads| ensures CheckedInv(s', v, i) {
      assert CheckedInv(s, v, i) && ThreadInv(s, v) && ThreadInv(s, i);
    }
  }

  lemma EndOpKeepsThreads(s: State, step: Step)
    requires Inv(s) && Enabled(s, step) && step.EndOp?
    ensures ThreadsInv(Apply(s, step))
  {
    var s' := Apply(s, step);
    forall i | 0 <= i < |s'.threads| ensures ThreadInv(s', i) && GraceInv(s', i) {
      assert ThreadInv(s, i) && GraceInv(s, i);
    }
    forall v, i | 0 <= v < |s'.threads| && 0 <= i < |s'.threads| ensures CheckedInv(s', v, i) {
      assert CheckedInv(s, v, i) && ThreadInv(s, v) && ThreadInv(s, i);
    }
  }

  lemma ThreadAt(s: State, i: nat)
    requires Inv(s) && i < |s.threads|
    ensures Shape(s) && ThreadInv(s, i) && GraceInv(s, i) && s.epoch % 2 == 0
  {
  }

  lemma CheckedAt(s: State, v: nat, i: nat)
    requires Inv(s) && v < |s.threads| && i < |s.threads|
    ensures Shape(s) && CheckedInv(s, v, i)
  {
  }

  lemma RotateKeepsOther(s: State, step: Step, i: nat)
    requires Inv(s) && Enabled(s, step) && step.RotateBags? && i < |s.threads| && i != step.t
    ensures Shape(Apply(s, step)) && ThreadInv(Apply(s, step), i) && GraceInv(Apply(s, step), i)
  {
    ThreadAt(s, i);
    hide Inv, FullBlocks, FreeableIndex, NextIndex;
    assert Apply(s, step).threads[i] == s.threads[i] && Apply(s, step).hist[i] == s.hist[i];
  }

  lemma RotateKeepsOwn(s: State, step: Step)
    requires Inv(s) && Enabled(s, step) && step.RotateBags?
    ensures Shape(Apply(s, step)) && ThreadInv(Apply(s, step), step.t) && GraceInv(Apply(s, step), step.t)
  {
    ThreadAt(s, step.t);
    hide Inv, FullBlocks, FreeableIndex;
  }

  lemma RotateKeepsChecked(s: State, step: Step, v: nat, i: nat)
    requires Inv(s) && Enabled(s, step) && step.RotateBags? && v < |s.threads| && i < |s.threads|
    ensures Shape(Apply(s, step)) && CheckedInv(Apply(s, step), v, i)
  {
    CheckedAt(s, v, i);
    ThreadAt(s, v);
    ThreadAt(s, i);
    hide Inv, FullBlocks, FreeableIndex;
  }

  lemma RotateKeepsThreads(s: State, step: Step)
    requires Inv(s) && Enabled(s, step) && step.RotateBags?
    ensures ThreadsInv(Apply(s, step))
  {
    RotateShape(s, step);
    ThreadAt(s, step.t);
    hide Inv, Enabled, Apply, ThreadInv, GraceInv, CheckedInv;
    var s' := Apply(s, step);
    forall i | 0 <= i < |s'.threads| ensures ThreadInv(s', i) && GraceInv(s', i) {
      if i == step.t { RotateKeepsOwn(s, step); } else { RotateKeepsOther(s, step, i); }
    }
    forall v, i | 0 <= v < |s'.threads| && 0 <= i < |s'.threads| ensures CheckedInv(s', v, i) { RotateKeepsChecked(s, step, v, i); }
  }

  lemma RotateShape(s: State, step: Step)
    requires Shape(s) && Enabled(s, step) && step.RotateBags?
    ensures Shape(Apply(s, step)) && Apply(s, step).retired == s.retired && |Apply(s, step).threads| == |s.threads|
    ensures Apply(s, step).epoch == s.epoch
  {
  }

  lemma OtherKeepsRecord(s: State, step: Step, r: Record)
    requires Inv(s) && Enabled(s, step) && !step.RetireStep? && !step.RotateBags? && r in s.retired
    ensures RecordInv(Apply(s, step), r)
  {
    var x := s.retired[r];
    assert RecordInv(s, r) && ThreadInv(s, x.owner);
    var s' := Apply(s, step);
    if step.t == x.owner && step.ReadEpoch? {
      assert s'.threads[x.owner].localAnnounced == s.epoch;
    } else {
      assert PendingRotations(s', x) == PendingRotations(s, x);
    }
  }

  lemma OtherKeepsSince(s: State, step: Step, i: nat, r: Record)
    requires Inv(s) && Enabled(s, step) && !step.RetireStep? && !step.RotateBags? && i < |s.threads|
    ensures SinceInv(Apply(s, step), i, r)
  {
    assert SinceInv(s, i, r) && ThreadInv(s, i);
  }

  lemma OtherKeepsBag(s: State, step: Step, u: nat, j: nat)
    requires Inv(s) && Enabled(s, step) && !step.RetireStep? && !step.RotateBags?
    requires u < |s.threads| && j < NUMBER_OF_EPOCH_BAGS
    ensures BagInv(Apply(s, step), u, j)
  {
    assert BagInv(s, u, j);
  }

  lemma OtherShape(s: State, step: Step)
    requires Inv(s) && Enabled(s, step) && !step.RetireStep? && !step.RotateBags?
    ensures Shape(Apply(s, step)) && Apply(s, step).retired == s.retired && Apply(s, step).pool == s.pool
    ensures |Apply(s, step).threads| == |s.threads| && forall r :: r in s.pool ==> r in s.retired
  {
    assert Shape(s) && forall r :: r in s.pool ==> r in s.retired;
    hide Inv, WithQuiescent, BitsEpoch, Quiescent;
  }

  /** Steps that move no record. */
  lemma OtherKeepsRecords(s: State, step: Step)
    requires Inv(s) && Enabled(s, step) && !step.RetireStep? && !step.RotateBags?
    ensures RecordsInv(Apply(s, step))
  {
    OtherShape(s, step);
    hide Inv, Enabled, Apply, RecordInv, BagInv, SinceInv;
    var s' := Apply(s, step);
    forall r | r in s'.retired ensures RecordInv(s', r) { OtherKeepsRecord(s, step, r); }
    forall u, j | 0 <= u < |s'.threads| && 0 <= j < NUMBER_OF_EPOCH_BAGS ensures BagInv(s', u, j) {
      OtherKeepsBag(s, step, u, j);
    }
    forall i, r | 0 <= i < |s'.threads| ensures SinceInv(s', i, r) { OtherKeepsSince(s, step, i, r); }
  }

  lemma RetireKeepsRecords(s: State, step: Step)
    requires Inv(s) && Enabled(s, step) && step.RetireStep?
    ensures RecordsInv(Apply(s, step))
  {
    var s' := Apply(s, step);
    assert ThreadInv(s, step.t);
    forall r | r in s'.retired ensures RecordInv(s', r) {
      assert r in s.retired ==> RecordInv(s, r);
    }
    forall u, j | 0 <= u < |s'.threads| && 0 <= j < NUMBER_OF_EPOCH_BAGS ensures BagInv(s', u, j) {
      assert BagInv(s, u, j);
    }
    forall i, r | 0 <= i < |s'.threads| ensures SinceInv(s', i, r) {
      assert SinceInv(s, i, r) && ThreadInv(s, i);
    }
  }

  /** The bag a rotation frees was filled at least five rotations earlier. */
  lemma FreeableIsOld(rotations: nat, rotation: nat)
    requires rotation <= rotations
    requires rotation % NUMBER_OF_EPOCH_BAGS == FreeableIndex(rotations % NUMBER_OF_EPOCH_BAGS)
    ensures rotation + 5 <= rotations
  {
    var a, p, b := rotations / 9, rotations % 9, rotation / 9;
    assert FreeableIndex(p) == if p < 5 then p + 4 else p - 5;
    assert rotations == 9 * a + p && rotation == 9 * b + FreeableIndex(p);
  }

  /** No record that was retired during a thread's current operation is in the bag being freed. */
  lemma RotationSparesProtected(s: State, step: Step, i: nat, r: Record)
    requires Inv(s) && Enabled(s, step) && step.RotateBags?
    requires i < |s.threads| && Active(s.threads[i]) && r in s.hist[i].retiredSince
    ensures r !in step.moved
  {
    assert ThreadInv(s, step.t) && GraceInv(s, i) && SinceInv(s, i, r) && RecordInv(s, r);
    if r in step.moved {
      assert BagInv(s, step.t, FreeableIndex(s.threads[step.t].index));
      FreeableIsOld(s.hist[step.t].rotations, s.retired[r].rotation);
    }
  }

  lemma RotateKeepsRecord(s: State, step: Step, r: Record)
    requires Inv(s) && Enabled(s, step) && step.RotateBags? && r in s.retired
    ensures RecordInv(Apply(s, step), r)
  {
    assert ThreadInv(s, step.t) && RecordInv(s, r);
    if r in step.moved { assert BagInv(s, step.t, FreeableIndex(s.threads[step.t].index)); }
  }

  lemma RotateKeepsSince(s: State, step: Step, i: nat, r: Record)
    requires Inv(s) && Enabled(s, step) && step.RotateBags? && i < |s.threads|
    ensures SinceInv(Apply(s, step), i, r)
  {
    SinceAt(s, i, r);
    if Active(s.threads[i]) && r in s.hist[i].retiredSince { RotationSparesProtected(s, step, i, r); }
    hide Inv, FullBlocks, FreeableIndex;
  }

  lemma SinceAt(s: State, i: nat, r: Record)
    requires Inv(s) && i < |s.threads|
    ensures Shape(s) && SinceInv(s, i, r)
  {
  }

  lemma RotateKeepsBag(s: State, step: Step, u: nat, j: nat)
    requires Inv(s) && Enabled(s, step) && step.RotateBags? && u < |s.threads| && j < NUMBER_OF_EPOCH_BAGS
    ensures BagInv(Apply(s, step), u, j)
  {
    assert BagInv(s, u, j);
  }

  lemma RotatePool(s: State, step: Step)
    requires Inv(s) && Enabled(s, step) && step.RotateBags?
    ensures forall r :: r in Apply(s, step).pool ==> r in s.retired
  {
    assert BagInv(s, step.t, FreeableIndex(s.threads[step.t].index));
  }

  lemma RotateKeepsRecords(s: State, step: Step)
    requires Inv(s) && Enabled(s, step) && step.RotateBags?
    ensures RecordsInv(Apply(s, step))
  {
    RotateShape(s, step);
    RotatePool(s, step);
    hide Inv, Enabled, Apply, RecordInv, BagInv, SinceInv;
    var s' := Apply(s, step);
    forall r | r in s'.retired ensures RecordInv(s', r) { RotateKeepsRecord(s, step, r); }
    forall u, j | 0 <= u < |s'.threads| && 0 <= j < NUMBER_OF_EPOCH_BAGS ensures BagInv(s', u, j) { RotateKeepsBag(s, step, u, j); }
    forall i, r | 0 <= i < |s'.threads| ensures SinceInv(s', i, r) { RotateKeepsSince(s, step, i, r); }
  }

  lemma StepKeepsInv(s: State, step: Step)
    requires Inv(s) && Enabled(s, step)
    ensures Inv(Apply(s, step))
  {
    match step
    case ReadEpoch(_) => ReadEpochKeepsThreads(s, step); OtherKeepsRecords(s, step);
    case RotateBags(_, _) => RotateKeepsThreads(s, step); RotateKeepsRecords(s, step);
    case Announcement(_) => AnnouncementKeepsThreads(s, step); OtherKeepsRecords(s, step);
    case ScanStep(_, _) => ScanKeepsThreads(s, step); OtherKeepsRecords(s, step);
    case CasStep(_) => CasKeepsThreads(s, step); OtherKeepsRecords(s, step);
    case RetireStep(_, _) => RetireKeepsThreads(s, step); RetireKeepsRecords(s, step);
    case EndOp(_) => EndOpKeepsThreads(s, step); OtherKeepsRecords(s, step);
  }

  // ---------------------------------------------------------------- all runs

  ghost predicate Run(tr: seq<State>)
  {
    0 < |tr| && Init(tr[0]) && forall i :: 0 <= i < |tr| - 1 ==> Next(tr[i], tr[i + 1])
  }

  lemma {:induction false} RunInv(tr: seq<State>, i: nat)
    requires Run(tr) && i < |tr|
    ensures Inv(tr[i]) && |tr[i].threads| == |tr[0].threads|
  {
    if i == 0 {
      InitInv(tr[0]);
    } else {
      RunInv(tr, i - 1);
      assert Next(tr[i - 1], tr[i]);
      var step :| Enabled(tr[i - 1], step) && tr[i] == Apply(tr[i - 1], step);
      StepKeepsInv(tr[i - 1], step);
    }
  }

  /** The scan's array access is in bounds in every reachable state. */
  lemma ScanStaysInBounds(tr: seq<State>, i: nat, t: nat)
    requires Run(tr) && i < |tr| && t < |tr[i].threads|
    ensures tr[i].threads[t].pc.Scan? ==> tr[i].threads[t].checked < |tr[i].threads|
  {
    RunInv(tr, i);
    assert ThreadInv(tr[i], t);
  }

  /** Thread `t` is inside one operation from state `i` to state `j`. */
  ghost predicate InOneOperation(tr: seq<State>, t: nat, i: nat, j: nat)
    requires i <= j < |tr|
  {
    forall k :: i <= k <= j ==> t < |tr[k].threads| && Active(tr[k].threads[t])
  }

  lemma HistStep(s: State, step: Step, t: nat)
    requires Shape(s) && Enabled(s, step) && t < |s.threads| && !(step.Announcement? && step.t == t)
    ensures t < |Apply(s, step).hist| && Apply(s, step).hist[t].epochAtAnnounce == s.hist[t].epochAtAnnounce
    ensures s.hist[t].retiredSince <= Apply(s, step).hist[t].retiredSince
    ensures forall r :: r in Apply(s, step).retired && r !in s.retired ==> r in Apply(s, step).hist[t].retiredSince
  {
    hide FullBlocks, FreeableIndex, NextIndex, WithQuiescent, BitsEpoch, Quiescent;
  }

  lemma StepActive(s: State, step: Step, t: nat)
    requires Inv(s) && Enabled(s, step) && t < |s.threads| && Active(s.threads[t])
    ensures t < |Apply(s, step).hist| && Apply(s, step).hist[t].epochAtAnnounce == s.hist[t].epochAtAnnounce
    ensures s.hist[t].retiredSince <= Apply(s, step).hist[t].retiredSince
    ensures forall r :: r in Apply(s, step).retired && r !in s.retired ==> r in Apply(s, step).hist[t].retiredSince
  {
    ThreadAt(s, t);
    assert !s.threads[t].pc.Announce?;
    hide Inv, Apply, FullBlocks;
    HistStep(s, step, t);
  }

  /** While a thread stays active its announcement epoch is fixed and its set of retirements grows. */
  lemma {:induction false} ActiveInterval(tr: seq<State>, t: nat, i: nat, j: nat)
    requires Run(tr) && i <= j < |tr| && InOneOperation(tr, t, i, j)
    ensures Inv(tr[i]) && Inv(tr[j])
    ensures tr[j].hist[t].epochAtAnnounce == tr[i].hist[t].epochAtAnnounce
    ensures tr[i].hist[t].retiredSince <= tr[j].hist[t].retiredSince
    ensures forall r :: r in tr[j].retired && r !in tr[i].retired ==> r in tr[j].hist[t].retiredSince
    decreases j - i
  {
    hide Inv, Enabled, Apply, Init;
    RunInv(tr, i);
    RunInv(tr, j);
    if i < j {
      ActiveInterval(tr, t, i, j - 1);
      assert Next(tr[j - 1], tr[j]);
      var step :| Enabled(tr[j - 1], step) && tr[j] == Apply(tr[j - 1], step);
      StepActive(tr[j - 1], step, t);
    }
  }

  /** The global epoch advances at most once while any thread stays inside one operation. */
  lemma EpochAdvancesAtMostOnce(tr: seq<State>, t: nat, i: nat, j: nat)
    requires Run(tr) && i <= j < |tr| && InOneOperation(tr, t, i, j)
    ensures tr[j].epoch <= tr[i].epoch + EPOCH_INCREMENT
  {
    ActiveInterval(tr, t, i, j);
    assert ThreadInv(tr[i], t) && GraceInv(tr[j], t);
  }

  /** A record that is retired while thread `t` is inside an operation does not reach the pool
      before that operation ends. */
  lemma RetiredRecordsOutliveOperations(tr: seq<State>, t: nat, i: nat, j: nat, r: Record)
    requires Run(tr) && i <= j < |tr| && InOneOperation(tr, t, i, j)
    requires r !in tr[i].retired && r in tr[j].retired
    ensures r !in tr[j].pool
  {
    ActiveInterval(tr, t, i, j);
    assert SinceInv(tr[j], t, r);
  }

  /** The three bags `getSafeBlockbags` returns for a thread. */
  function SafeBags(td: ThreadData): seq<set<Record>>
    requires |td.bags| == NUMBER_OF_EPOCH_BAGS && td.index < NUMBER_OF_EPOCH_BAGS
  {
    [td.bags[td.index],
     td.bags[(td.index + NUMBER_OF_EPOCH_BAGS - 1) % NUMBER_OF_EPOCH_BAGS],
     td.bags[(td.index + NUMBER_OF_EPOCH_BAGS - 2) % NUMBER_OF_EPOCH_BAGS]]
  }

  /** Whatever was retired during `t`'s current operation is in a safe bag of the thread that retired it. */
  lemma SafeBagsSuffice(tr: seq<State>, t: nat, i: nat, j: nat, r: Record)
    requires Run(tr) && i <= j < |tr| && InOneOperation(tr, t, i, j)
    requires r !in tr[i].retired && r in tr[j].retired
    ensures Shape(tr[j]) && tr[j].retired[r].owner < |tr[j].threads|
    ensures exists b :: b in SafeBags(tr[j].threads[tr[j].retired[r].owner]) && r in b
  {
    ActiveInterval(tr, t, i, j);
    var s := tr[j];
    var x := s.retired[r];
    assert SinceInv(s, t, r) && GraceInv(s, t) && RecordInv(s, r) && ThreadInv(s, x.owner);
    var td := s.threads[x.owner];
    var back := s.hist[x.owner].rotations - x.rotation;
    BagOfRotation(s.hist[x.owner].rotations, back);
    assert r in SafeBags(td)[back];
  }

  /** The bag that was current some rotations ago. */
  lemma BagOfRotation(rotations: nat, back: nat)
    requires back <= NUMBER_OF_EPOCH_BAGS && back <= rotations
    ensures (rotations - back) % NUMBER_OF_EPOCH_BAGS == (rotations % NUMBER_OF_EPOCH_BAGS + NUMBER_OF_EPOCH_BAGS - back) % NUMBER_OF_EPOCH_BAGS
  {
  }

  // ---------------------------------------------------------------- every retired record is in one place

  /** A retired record is in the pool, or in the one bag of its owner that was current when it was retired, and
      in no other. */
  lemma NothingLost(tr: seq<State>, k: nat, r: Record)
    requires Run(tr) && k < |tr| && r in tr[k].retired
    ensures Shape(tr[k]) && tr[k].retired[r].owner < |tr[k].threads|
    ensures r !in tr[k].pool <==> r in tr[k].threads[tr[k].retired[r].owner].bags[tr[k].retired[r].rotation % NUMBER_OF_EPOCH_BAGS]
    ensures forall u, j :: 0 <= u < |tr[k].threads| && 0 <= j < NUMBER_OF_EPOCH_BAGS && r in tr[k].threads[u].bags[j] ==>
              u == tr[k].retired[r].owner && j == tr[k].retired[r].rotation % NUMBER_OF_EPOCH_BAGS
  {
    RunInv(tr, k);
    assert RecordInv(tr[k], r);
    forall u, j | 0 <= u < |tr[k].threads| && 0 <= j < NUMBER_OF_EPOCH_BAGS && r in tr[k].threads[u].bags[j]
      ensures u == tr[k].retired[r].owner && j == tr[k].retired[r].rotation % NUMBER_OF_EPOCH_BAGS
    {
      assert BagInv(tr[k], u, j);
    }
  }

  // ---------------------------------------------------------------- the epoch advances

  lemma OtherThread(s: State, step: Step, t: nat)
    requires Shape(s) && Enabled(s, step) && t < |s.threads| && step.t != t
    ensures |Apply(s, step).threads| == |s.threads| && Apply(s, step).threads[t] == s.threads[t]
  {
    hide FullBlocks, FreeableIndex, NextIndex, WithQuiescent, BitsEpoch, Quiescent;
  }

  lemma CasStepAdvances(s: State, step: Step, t: nat)
    requires Inv(s) && Enabled(s, step) && t < |s.threads| && s.threads[t].pc.CasEpoch?
    requires t < |Apply(s, step).threads| && Apply(s, step).threads[t].pc == InOp
    ensures s.threads[t].pc.e < Apply(s, step).epoch
  {
    ThreadAt(s, t);
    hide Inv;
    if step.t != t { OtherThread(s, step, t); } else { assert step == CasStep(t); }
    hide Apply, Enabled, Shape;
  }

  /** A thread that comes to the compare-and-swap of the epoch leaves it with a larger epoch, whoever advanced it. */
  lemma CasAdvances(tr: seq<State>, k: nat, t: nat)
    requires Run(tr) && k + 1 < |tr| && t < |tr[k].threads| && t < |tr[k + 1].threads|
    requires tr[k].threads[t].pc.CasEpoch? && tr[k + 1].threads[t].pc == InOp
    ensures tr[k].threads[t].pc.e < tr[k + 1].epoch
  {
    hide Inv, Enabled, Apply;
    RunInv(tr, k);
    assert Next(tr[k], tr[k + 1]);
    var step :| Enabled(tr[k], step) && tr[k + 1] == Apply(tr[k], step);
    CasStepAdvances(tr[k], step, t);
  }

  /** The steps that a run takes. */
  ghost predicate Takes(tr: seq<State>, steps: seq<Step>)
  {
    && |tr| == |steps| + 1 && Init(tr[0])
    && forall i {:trigger steps[i]} :: 0 <= i < |steps| ==> Shape(tr[i]) && Enabled(tr[i], steps[i]) && tr[i + 1] == Apply(tr[i], steps[i])
  }

  lemma TakesIsRun(tr: seq<State>, steps: seq<Step>)
    requires Takes(tr, steps)
    ensures Run(tr)
  {
    forall i | 0 <= i < |tr| - 1 ensures Next(tr[i], tr[i + 1]) { assert Enabled(tr[i], steps[i]); }
  }

  /** How many operations of thread `t` that are not read-only have come to their scan from step `j` to step `k`. */
  function Scans(steps: seq<Step>, t: nat, j: nat, k: nat): nat
    requires j <= k <= |steps|
  {
    if j == k then 0 else Scans(steps, t, j, k - 1) + if steps[k - 1] == ScanStep(t, false) then 1 else 0
  }

  /** No other thread is in an operation of an epoch other than `e`. */
  predicate OthersPass(s: State, t: nat, e: nat)
  {
    forall u :: 0 <= u < |s.threads| && u != t ==> Quiescent(s.threads[u].announcedEpoch) || BitsEpoch(s.threads[u].announcedEpoch) == e
  }

  /** What `scans` operations have brought the thread to, unless the epoch has advanced. */
  predicate ScanProgress(td: ThreadData, e: nat, scans: nat)
  {
    if td.localAnnounced == e && !td.pc.Rotate? then scans <= MIN_OPS_BEFORE_READ * td.checked + td.opsSinceRead
    else scans == 0 && (td.pc == Idle || (td.pc.Rotate? && td.localAnnounced == e))
  }

  lemma EpochGrows(s: State, step: Step)
    requires Shape(s) && Enabled(s, step)
    ensures s.epoch <= Apply(s, step).epoch && |Apply(s, step).threads| == |s.threads|
  {
  }

  lemma StepProgress(s: State, step: Step, t: nat, e: nat, scans: nat)
    requires Inv(s) && Enabled(s, step) && t < |s.threads| == |Apply(s, step).threads| && s.epoch == e == Apply(s, step).epoch
    requires ScanProgress(s.threads[t], e, scans) && OthersPass(s, t, e)
    ensures ScanProgress(Apply(s, step).threads[t], e, scans + if step == ScanStep(t, false) then 1 else 0)
  {
    assert ThreadInv(s, t);
  }

  lemma {:induction false} Progress(tr: seq<State>, steps: seq<Step>, t: nat, j: nat, k: nat)
    requires Takes(tr, steps) && j <= k <= |steps| && t < |tr[j].threads| && tr[j].threads[t].pc == Idle
    requires forall m :: j <= m < k ==> OthersPass(tr[m], t, tr[j].epoch)
    ensures t < |tr[k].threads| == |tr[j].threads| && tr[j].epoch <= tr[k].epoch
    ensures tr[k].epoch == tr[j].epoch ==> ScanProgress(tr[k].threads[t], tr[j].epoch, Scans(steps, t, j, k))
    decreases k - j
  {
    hide Inv, Init, ScanProgress, OthersPass, Apply, Enabled;
    if j < k {
      Progress(tr, steps, t, j, k - 1);
      TakesIsRun(tr, steps);
      RunInv(tr, k - 1);
      var s, step := tr[k - 1], steps[k - 1];
      assert tr[k] == Apply(s, step);
      EpochGrows(s, step);
      if tr[k].epoch == tr[j].epoch { StepProgress(s, step, t, tr[j].epoch, Scans(steps, t, j, k - 1)); }
    } else {
      NoScansYet(tr[j].threads[t], tr[j].epoch);
    }
  }

  lemma NoScansYet(td: ThreadData, e: nat)
    requires td.pc == Idle
    ensures ScanProgress(td, e, 0)
  {
  }

  /** As long as every other thread is quiescent or has announced the current epoch, twenty operations of one
      thread per thread there is, none of them read-only, advance the epoch. */
  lemma EpochAdvances(tr: seq<State>, steps: seq<Step>, t: nat, j: nat, k: nat)
    requires Takes(tr, steps) && j <= k <= |steps| && t < |tr[j].threads| && tr[j].threads[t].pc == Idle
    requires forall m :: j <= m < k ==> OthersPass(tr[m], t, tr[j].epoch)
    requires MIN_OPS_BEFORE_READ * |tr[j].threads| <= Scans(steps, t, j, k)
    requires t < |tr[k].threads| && !tr[k].threads[t].pc.CasEpoch?
    ensures tr[j].epoch < tr[k].epoch
  {
    TakesIsRun(tr, steps);
    RunInv(tr, k);
    RunInv(tr, j);
    assert ThreadInv(tr[k], t);
    Progress(tr, steps, t, j, k);
  }

  // ---------------------------------------------------------------- and what was retired is reclaimed

  /** Whether a thread announces another epoch than before, it has rotated its bags in between. */
  lemma {:induction false} NewEpochRotates(tr: seq<State>, j: nat, k: nat, t: nat)
    requires Run(tr) && j <= k < |tr| && t < |tr[j].threads| == |tr[j].hist| && !tr[j].threads[t].pc.Rotate?
    ensures t < |tr[k].threads| == |tr[k].hist|
    ensures tr[j].hist[t].rotations + (if tr[k].threads[t].localAnnounced != tr[j].threads[t].localAnnounced then 1 else 0)
            <= tr[k].hist[t].rotations + (if tr[k].threads[t].pc.Rotate? then 1 else 0)
    decreases k - j
  {
    if j < k {
      NewEpochRotates(tr, j, k - 1, t);
      assert Next(tr[k - 1], tr[k]);
    }
  }

  /** What is still in bag `j` of thread `u` although it was retired six or more rotations ago. */
  ghost function Leftover(s: State, u: nat, j: nat): set<Record>
    requires Shape(s) && u < |s.threads| && j < NUMBER_OF_EPOCH_BAGS
  {
    set r | r in s.threads[u].bags[j] && r in s.retired && s.retired[r].rotation + 6 <= s.hist[u].rotations
  }

  lemma FreedNow(rotations: nat, rotation: nat)
    requires rotation + 5 == rotations
    ensures rotation % NUMBER_OF_EPOCH_BAGS == FreeableIndex(rotations % NUMBER_OF_EPOCH_BAGS)
  {
    var a, p := rotations / 9, rotations % 9;
    assert FreeableIndex(p) == if p < 5 then p + 4 else p - 5;
    assert rotation == if p < 5 then 9 * (a - 1) + (p + 4) else 9 * a + (p - 5);
  }

  lemma LeftoverShape(s: State, step: Step)
    requires Inv(s) && Enabled(s, step)
    ensures Shape(Apply(s, step)) && |Apply(s, step).threads| == |s.threads|
  {
    StepKeepsInv(s, step);
    hide Enabled, Apply, ThreadInv, RecordInv, BagInv, SinceInv, GraceInv, CheckedInv;
    assert |Apply(s, step).threads| == |s.threads| by { EpochGrows(s, step); }
  }

  lemma RotateLeftover(s: State, step: Step, j: nat)
    requires Shape(s) && Enabled(s, step) && step.RotateBags? && j < NUMBER_OF_EPOCH_BAGS && ThreadInv(s, step.t) && BagInv(s, step.t, j)
    requires |Leftover(s, step.t, j)| < BlockBags.BLOCK_SIZE && Shape(Apply(s, step)) && step.t < |Apply(s, step).threads|
    ensures |Leftover(Apply(s, step), step.t, j)| < BlockBags.BLOCK_SIZE
  {
    var s', u := Apply(s, step), step.t;
    var f := FreeableIndex(s.threads[u].index);
    if j == f {
      SubsetSize(Leftover(s', u, j), s.threads[u].bags[f] - step.moved);
    } else {
      forall r | r in Leftover(s', u, j) ensures r in Leftover(s, u, j) {
        if s.retired[r].rotation + 5 == s.hist[u].rotations { FreedNow(s.hist[u].rotations, s.retired[r].rotation); }
      }
      SubsetSize(Leftover(s', u, j), Leftover(s, u, j));
    }
  }

  lemma OtherLeftover(s: State, step: Step, u: nat, j: nat)
    requires Shape(s) && Enabled(s, step) && u < |s.threads| && j < NUMBER_OF_EPOCH_BAGS && BagInv(s, u, j)
    requires !(step.RotateBags? && step.t == u) && |Leftover(s, u, j)| < BlockBags.BLOCK_SIZE && Shape(Apply(s, step)) && u < |Apply(s, step).threads|
    ensures |Leftover(Apply(s, step), u, j)| < BlockBags.BLOCK_SIZE
  {
    hide FullBlocks, FreeableIndex, BitsEpoch, WithQuiescent;
    SubsetSize(Leftover(Apply(s, step), u, j), Leftover(s, u, j));
  }

  lemma BagAt(s: State, u: nat, j: nat)
    requires Inv(s) && u < |s.threads| && j < NUMBER_OF_EPOCH_BAGS
    ensures Shape(s) && BagInv(s, u, j)
  {
  }

  lemma StepLeftover(s: State, step: Step, u: nat, j: nat)
    requires Inv(s) && Enabled(s, step) && u < |s.threads| && j < NUMBER_OF_EPOCH_BAGS && |Leftover(s, u, j)| < BlockBags.BLOCK_SIZE
    ensures Shape(Apply(s, step)) && u < |Apply(s, step).threads| && |Leftover(Apply(s, step), u, j)| < BlockBags.BLOCK_SIZE
  {
    LeftoverShape(s, step);
    ThreadAt(s, u);
    BagAt(s, u, j);
    hide Inv, Apply, Enabled, Leftover, ThreadInv, BagInv;
    if step.RotateBags? && step.t == u { RotateLeftover(s, step, j); } else { OtherLeftover(s, step, u, j); }
  }

  lemma {:induction false} LeftoverBounded(tr: seq<State>, k: nat, u: nat, j: nat)
    requires Run(tr) && k < |tr| && u < |tr[k].threads| && j < NUMBER_OF_EPOCH_BAGS
    ensures Shape(tr[k]) && |Leftover(tr[k], u, j)| < BlockBags.BLOCK_SIZE
  {
    hide Inv, Enabled, Apply, Leftover;
    RunInv(tr, k);
    if k == 0 {
      NothingLeft(tr[0], u, j);
    } else {
      RunInv(tr, k - 1);
      LeftoverBounded(tr, k - 1, u, j);
      assert Next(tr[k - 1], tr[k]);
      var step :| Enabled(tr[k - 1], step) && tr[k] == Apply(tr[k - 1], step);
      StepLeftover(tr[k - 1], step, u, j);
    }
  }

  lemma NothingLeft(s: State, u: nat, j: nat)
    requires Init(s) && Shape(s) && u < |s.threads| && j < NUMBER_OF_EPOCH_BAGS
    ensures Leftover(s, u, j) == {}
  {
  }

  /** Of what a thread retired six or more rotations ago, less than one block is left in each bag; all the rest is
      in the pool. */
  lemma LimboBounded(tr: seq<State>, k: nat, u: nat, j: nat)
    requires Run(tr) && k < |tr| && u < |tr[k].threads| && j < NUMBER_OF_EPOCH_BAGS
    ensures Shape(tr[k]) && |Leftover(tr[k], u, j)| < BlockBags.BLOCK_SIZE
    ensures forall r | r in tr[k].retired && tr[k].retired[r].owner == u && tr[k].retired[r].rotation + 6 <= tr[k].hist[u].rotations
              && tr[k].retired[r].rotation % NUMBER_OF_EPOCH_BAGS == j :: r in tr[k].pool || r in Leftover(tr[k], u, j)
  {
    LeftoverBounded(tr, k, u, j);
    hide Run;
    forall r | r in tr[k].retired && tr[k].retired[r].owner == u && tr[k].retired[r].rotation % NUMBER_OF_EPOCH_BAGS == j
      ensures r in tr[k].pool || r in tr[k].threads[u].bags[j]
    {
      NothingLost(tr, k, r);
    }
  }
}
