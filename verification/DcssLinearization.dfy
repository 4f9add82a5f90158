/** The results of DCSS operations: the instants that justify them, and the memory one sees through the tags. */
module DcssLinearization {
  import opened Basics
  import opened Dcss
  import opened DcssProof
  import opened DcssRuns

  // ---------------------------------------------------------------- the instant of the read of addr1

  /** An instant at which the control word of `id` held `val1`, with the tag in place unless the operation was
      decided already. */
  predicate Seen(s: State, id: Id, val1: int)
  {
    && id in s.published && |s.published[id]| == FIELDS
    && s.published[id][ADDR1] in s.control && s.published[id][ADDR2] in s.data
    && s.control[s.published[id][ADDR1]] == val1
    && (id in s.decided || s.data[s.published[id][ADDR2]] == Tag(id))
  }

  predicate HasVal(pc: Pc) { pc.ReadMutables? || pc.CasState? || pc.Cleanup? }

  /** The value a helper compares was in the control word at some instant after the tag was installed. */
  ghost predicate ValJustified(tr: seq<State>, k: nat, t: nat)
    requires k < |tr| && t < |tr[k].threads|
  {
    var pc := tr[k].threads[t].pc;
    HasVal(pc) ==> exists j: nat :: j <= k && Seen(tr[j], pc.h.id, pc.val1)
  }

  /** `pc` is about to read the control word, and it holds `val1`. */
  predicate Reads(s: State, pc: Pc, val1: int)
  {
    && pc.ReadAddr1? && pc.h.id.tid < |s.desc| && |Words(s, pc.h)| == FIELDS + 1
    && Words(s, pc.h)[ADDR1] in s.control && s.control[Words(s, pc.h)[ADDR1]] == val1
  }

  lemma ReadSees(s: State, t: nat, val1: int)
    requires Inv(s) && t < |s.threads| && Reads(s, s.threads[t].pc, val1)
    ensures Seen(s, s.threads[t].pc.h.id, val1)
  {
    HelpWords(s, t);
    assert IdInv(s, s.threads[t].pc.h.id);
  }

  /** How a thread comes to hold a value: it held it before, or it has just read it. */
  predicate ValFrom(s: State, pc: Pc, pc': Pc)
  {
    HasVal(pc') ==>
      || (HasVal(pc) && pc.h == pc'.h && pc.val1 == pc'.val1)
      || (pc.ReadAddr1? && pc.h == pc'.h && Reads(s, pc, pc'.val1))
  }

  /** A step of `u` outside dcssHelp: nobody comes to hold a value, nothing is decided. */
  predicate Elsewhere(s: State, u: nat, s': State)
    requires u < |s.threads|
  {
    && |s'.threads| == |s.threads| && s'.decided == s.decided
    && (forall t :: 0 <= t < |s.threads| && t != u ==> s'.threads[t] == s.threads[t])
    && !HasVal(s'.threads[u].pc)
  }

  lemma BeginElsewhere(s: State, u: nat, op: Op, s': State)
    requires u < |s.threads| && BeginStep(s, u, op, s')
    ensures Elsewhere(s, u, s')
  {
  }

  lemma PrepareElsewhere(s: State, u: nat, s': State)
    requires u < |s.threads| == |s.desc| && PrepareStep(s, u, s')
    ensures Elsewhere(s, u, s')
  {
  }

  lemma AttemptElsewhere(s: State, u: nat, s': State)
    requires u < |s.threads| == |s.desc| && AttemptStep(s, u, s')
    ensures Elsewhere(s, u, s')
  {
  }

  lemma SnapshotElsewhere(s: State, u: nat, s': State)
    requires u < |s.threads| == |s.desc| && SnapshotStep(s, u, s')
    ensures Elsewhere(s, u, s')
  {
  }

  lemma NotHelping(s: State, u: nat, s': State)
    requires u < |s.threads| == |s.desc| && ThreadStep(s, u, s') && !HelpStep(s, u, s')
    ensures Elsewhere(s, u, s')
  {
    hide HelpStep, PrepareStep, AttemptStep, SnapshotStep, BeginStep, Elsewhere;
    if PrepareStep(s, u, s') { PrepareElsewhere(s, u, s'); }
    else if AttemptStep(s, u, s') { AttemptElsewhere(s, u, s'); }
    else if SnapshotStep(s, u, s') { SnapshotElsewhere(s, u, s'); }
    else {
      var op :| BeginStep(s, u, op, s');
      BeginElsewhere(s, u, op, s');
    }
  }

  lemma HelpElse(s: State, u: nat, s': State, t: nat)
    requires u < |s.threads| == |s.desc| && HelpStep(s, u, s') && t < |s.threads|
    ensures |s'.threads| == |s.threads| && (t != u ==> s'.threads[t] == s.threads[t])
  {
    hide Words;
    if s.threads[u].pc.Cleanup? { assert s'.threads == s.threads[u := s.threads[u].(pc := s'.threads[u].pc)]; }
  }

  lemma HelpOwnVal(s: State, u: nat, s': State)
    requires u < |s.threads| == |s.desc| && HelpStep(s, u, s')
    ensures |s'.threads| == |s.threads| && ValFrom(s, s.threads[u].pc, s'.threads[u].pc)
  {
    var pc := s.threads[u].pc;
    if pc.ReadAddr1? { assert s'.threads[u].pc.ReadMutables?; }
    else if pc.ReadMutables? { hide Words; }
    else { hide Words; }
  }

  lemma HelpVal(s: State, u: nat, s': State, t: nat)
    requires u < |s.threads| == |s.desc| && HelpStep(s, u, s') && t < |s.threads|
    ensures |s'.threads| == |s.threads| && ValFrom(s, s.threads[t].pc, s'.threads[t].pc)
  {
    HelpElse(s, u, s', t);
    HelpOwnVal(s, u, s');
    hide HelpStep, Reads;
  }

  lemma WhereVal(s: State, s': State, t: nat)
    requires Next(s, s') && t < |s.threads|
    ensures |s'.threads| == |s.threads| && ValFrom(s, s.threads[t].pc, s'.threads[t].pc)
  {
    hide ThreadStep, HelpStep, Reads;
    if !OutsideStep(s, s') {
      var u: nat :| u < |s.threads| && ThreadStep(s, u, s');
      hide OutsideStep;
      if HelpStep(s, u, s') { HelpVal(s, u, s', t); } else { NotHelping(s, u, s'); }
    }
  }

  lemma {:induction false} AllValsJustified(tr: seq<State>, k: nat, t: nat)
    requires Run(tr) && k < |tr| && t < |tr[k].threads|
    ensures ValJustified(tr, k, t)
  {
    hide Inv, Next, Seen;
    var pc := tr[k].threads[t].pc;
    if HasVal(pc) && k > 0 {
      RunInv(tr, k - 1);
      RunGrows(tr, k - 1, k);
      assert Next(tr[k - 1], tr[k]);
      WhereVal(tr[k - 1], tr[k], t);
      hide Reads;
      if HasVal(tr[k - 1].threads[t].pc) {
        AllValsJustified(tr, k - 1, t);
      } else {
        ReadSees(tr[k - 1], t, pc.val1);
      }
    }
  }

  // ---------------------------------------------------------------- the instant that decides

  /** At this instant the tag was in place and undecided, and the control word held the expected value exactly
      if the operation was to succeed. */
  predicate Decisive(s: State, id: Id, ok: bool)
  {
    && id in s.published && |s.published[id]| == FIELDS && id !in s.decided
    && s.published[id][ADDR1] in s.control && s.published[id][ADDR2] in s.data
    && s.data[s.published[id][ADDR2]] == Tag(id)
    && (ok <==> s.control[s.published[id][ADDR1]] == s.published[id][OLD1])
  }

  /** The step that decides was taken by some helper that holds a value of the control word. */
  lemma WhoDecides(s: State, s': State, id: Id) returns (t: nat)
    requires Inv(s) && Next(s, s') && id !in s.decided && id in s'.decided
    ensures t < |s.threads| && s.threads[t].pc.CasState? && s.threads[t].pc.h.id == id && id in s.published && |s.published[id]| == FIELDS
    ensures s'.decided[id] <==> s.threads[t].pc.val1 == s.published[id][OLD1]
  {
    hide Inv, PrepareStep, AttemptStep, SnapshotStep, BeginStep, HelpStep;
    t :| t < |s.threads| && ThreadStep(s, t, s') by { OutsideDecidesNothing(s, s'); }
    if HelpStep(s, t, s') { HelpDecides(s, t, s', id); } else { NotHelping(s, t, s'); }
  }

  lemma OutsideDecidesNothing(s: State, s': State)
    ensures OutsideStep(s, s') ==> s'.decided == s.decided
  {
  }

  lemma HelpDecides(s: State, t: nat, s': State, id: Id)
    requires Inv(s) && t < |s.threads| && HelpStep(s, t, s') && id !in s.decided && id in s'.decided
    ensures s.threads[t].pc.CasState? && s.threads[t].pc.h.id == id && id in s.published && |s.published[id]| == FIELDS
    ensures s'.decided[id] <==> s.threads[t].pc.val1 == s.published[id][OLD1]
  {
    HelpWords(s, t);
    hide Inv;
  }

  lemma SeenWhileUndecided(tr: seq<State>, j: nat, k: nat, id: Id, val1: int, ok: bool)
    requires Run(tr) && j <= k < |tr| && Seen(tr[j], id, val1) && id !in tr[k].decided
    requires id in tr[k].published && |tr[k].published[id]| == FIELDS && (ok <==> val1 == tr[k].published[id][OLD1])
    ensures Decisive(tr[j], id, ok)
  {
    hide Run;
    RunGrows(tr, j, k);
  }

  lemma {:induction false} DecidedAtInstant(tr: seq<State>, k: nat, id: Id)
    requires Run(tr) && k < |tr| && id in tr[k].decided
    ensures exists j: nat :: j <= k && Decisive(tr[j], id, tr[k].decided[id])
  {
    hide Inv, Next, Seen, Decisive;
    if k > 0 {
      RunInv(tr, k - 1);
      RunGrows(tr, k - 1, k);
      assert Next(tr[k - 1], tr[k]);
      if id in tr[k - 1].decided {
        DecidedAtInstant(tr, k - 1, id);
      } else {
        var t := WhoDecides(tr[k - 1], tr[k], id);
        AllValsJustified(tr, k - 1, t);
        var j: nat :| j <= k - 1 && Seen(tr[j], id, tr[k - 1].threads[t].pc.val1);
        SeenWhileUndecided(tr, j, k - 1, id, tr[k - 1].threads[t].pc.val1, tr[k].decided[id]);
      }
    }
  }

  // ---------------------------------------------------------------- results

  /** Inside the call that ends in state `k`: the same operation of the same thread, after its tag went in. */
  predicate InsideCall(tr: seq<State>, j: nat, k: nat, t: nat)
    requires j < |tr| && k < |tr| && t < |tr[k].threads| && t < |tr[k].desc|
  {
    && t < |tr[j].threads| && t < |tr[j].desc|
    && Own(tr[j].threads[t].pc) && Current(tr[j], t) == Current(tr[k], t) && tr[j].threads[t].op == tr[k].threads[t].op
  }

  lemma DecisiveInside(tr: seq<State>, j: nat, k: nat, t: nat, ok: bool)
    requires Run(tr) && j <= k < |tr| && t < |tr[k].threads| && Inv(tr[k])
    requires tr[k].threads[t].op.DcssOp? && tr[k].threads[t].pc.Returned? && Decisive(tr[j], Current(tr[k], t), ok)
    ensures InsideCall(tr, j, k, t)
  {
    RunInv(tr, j);
    RunGrows(tr, j, k);
    var id := Current(tr[k], t);
    assert OwnerInv(tr[k], t) && DataInv(tr[j], tr[j].published[id][ADDR2]) && IdInv(tr[j], id) && OwnerInv(tr[j], t);
    hide Run;
  }

  /** From instant `j` until the operation is decided, `addr2` holds its tag. */
  predicate HoldsTagUntilDecided(tr: seq<State>, j: nat, k: nat, id: Id, addr2: int)
    requires k < |tr|
  {
    forall m :: j <= m <= k && id !in tr[m].decided ==> addr2 in tr[m].data && tr[m].data[addr2] == Tag(id)
  }

  lemma TagUntilDecided(tr: seq<State>, j: nat, k: nat, id: Id, ok: bool)
    requires Run(tr) && j <= k < |tr| && Decisive(tr[j], id, ok)
    ensures HoldsTagUntilDecided(tr, j, k, id, tr[j].published[id][ADDR2])
  {
    RunInv(tr, j);
    TagInstalled(tr[j], tr[j].published[id][ADDR2]);
    forall m: nat | j <= m <= k && id !in tr[m].decided
      ensures tr[j].published[id][ADDR2] in tr[m].data && tr[m].data[tr[j].published[id][ADDR2]] == Tag(id)
    {
      RunInv(tr, m);
      RunGrows(tr, j, m);
      assert IdInv(tr[m], id);
    }
  }

  /** A dcss that returns success has an instant inside the call at which addr1 held old1 while addr2 held this
      operation's tag, whichever helper decided it; and one that fails on addr1 has an instant inside the call at
      which addr1 did not hold old1. From that instant to the decision nobody else can have changed addr2. */
  lemma ResultHasInstant(tr: seq<State>, k: nat, t: nat)
    requires Run(tr) && k < |tr| && t < |tr[k].threads| && tr[k].threads[t].op.DcssOp? && tr[k].threads[t].pc.Returned?
    requires !tr[k].threads[t].pc.res.FailedAddr2?
    ensures var args, res := tr[k].threads[t].op.args, tr[k].threads[t].pc.res;
            && |args| == FIELDS && t < |tr[k].desc| && (res.Success? || res.FailedAddr1?)
            && exists j: nat :: j <= k && InsideCall(tr, j, k, t)
                 && args[ADDR1] in tr[j].control && args[ADDR2] in tr[j].data
                 && tr[j].data[args[ADDR2]] == Tag(Current(tr[k], t))
                 && (res.Success? <==> tr[j].control[args[ADDR1]] == args[OLD1])
                 && HoldsTagUntilDecided(tr, j, k, Current(tr[k], t), args[ADDR2])
  {
    RunInv(tr, k);
    var id := Current(tr[k], t);
    assert OwnerInv(tr[k], t);
    hide Run, Inv;
    DecidedAtInstant(tr, k, id);
    var j: nat :| j <= k && Decisive(tr[j], id, tr[k].decided[id]);
    DecisiveInside(tr, j, k, t, tr[k].decided[id]);
    TagUntilDecided(tr, j, k, id, tr[k].decided[id]);
    RunGrows(tr, j, k);
  }

  /** The word whose contents an operation returns when it finds a value there. */
  function TargetWord(op: Op): Option<int>
  {
    match op
    case ReadOp(addr) => Some(addr)
    case DcssOp(args) => if |args| == FIELDS then Some(args[ADDR2]) else None
    case NoOp => None
  }

  /** At instant `j` the thread is about to access word `a`, which holds `v`; from the next instant on, up to `k`,
      the call is over. */
  predicate FoundAt(tr: seq<State>, j: nat, k: nat, t: nat, a: int, v: int)
    requires k < |tr| && t < |tr[k].threads|
  {
    && j < k && t < |tr[j].threads|
    && tr[j].threads[t] == Thread(tr[k].threads[t].op, Attempt) && a in tr[j].data && tr[j].data[a] == Val(v)
    && forall m {:trigger tr[m]} :: j < m <= k ==> t < |tr[m].threads| && tr[m].threads[t] == tr[k].threads[t]
  }

  /** Operations that end with what one access to their word has found. */
  predicate EndsByAccess(x: Thread) { x.pc.Returned? && (x.op.ReadOp? || x.pc.res.FailedAddr2? || x.pc.res.ReadValue?) }

  function Found(res: Result): Option<int>
  {
    match res
    case FailedAddr2(v) => Some(v)
    case ReadValue(v) => Some(v)
    case _ => None
  }

  /** The step by which a thread comes to hold such a result is the access. */
  predicate ByAccess(s: State, x: Thread, x': Thread)
  {
    && x == Thread(x'.op, Attempt) && x'.pc.Returned? && Found(x'.pc.res).Some? && TargetWord(x.op).Some?
    && TargetWord(x.op).value in s.data && s.data[TargetWord(x.op).value] == Val(Found(x'.pc.res).value)
    && (x.op.ReadOp? ==> x'.pc.res.ReadValue?)
  }

  lemma HelpReturns(s: State, u: nat, s': State)
    requires u < |s.threads| == |s.desc| && HelpStep(s, u, s')
    ensures u < |s'.threads| && s'.threads[u].op == s.threads[u].op
    ensures s'.threads[u].pc.Returned? ==> Own(s.threads[u].pc) && Found(s'.threads[u].pc.res).None?
  {
    hide Words;
    if s.threads[u].pc.Cleanup? { assert s'.threads == s.threads[u := s.threads[u].(pc := s'.threads[u].pc)]; }
    hide HelpStep;
  }

  lemma HelpNoAccess(s: State, u: nat, s': State)
    requires u < |s.threads| == |s.desc| && HelpStep(s, u, s') && (Own(s.threads[u].pc) ==> s.threads[u].op.DcssOp?)
    ensures u < |s'.threads| && !EndsByAccess(s'.threads[u])
  {
    hide HelpStep;
    HelpReturns(s, u, s');
  }

  lemma AttemptAccesses(s: State, u: nat, s': State)
    requires u < |s.threads| == |s.desc| && OwnerInv(s, u) && AttemptStep(s, u, s') && EndsByAccess(s'.threads[u])
    ensures ByAccess(s, s.threads[u], s'.threads[u])
  {
  }

  lemma AccessStep(s: State, s': State, t: nat)
    requires Inv(s) && Next(s, s') && t < |s.threads| && t < |s'.threads| && s'.threads[t] != s.threads[t]
    requires EndsByAccess(s'.threads[t])
    ensures ByAccess(s, s.threads[t], s'.threads[t])
  {
    assert OwnerInv(s, t);
    assert Own(s.threads[t].pc) ==> s.threads[t].op.DcssOp?;
    hide Inv, OwnerInv, PrepareStep, AttemptStep, SnapshotStep, HelpStep, ByAccess, EndsByAccess;
    var u: nat :| u < |s.threads| && ThreadStep(s, u, s') by { OutsideSame(s, s'); }
    if HelpStep(s, u, s') {
      HelpElse(s, u, s', t);
      HelpNoAccess(s, t, s');
    } else {
      NotHelping(s, u, s');
      if AttemptStep(s, t, s') { AttemptAccesses(s, t, s'); } else { NoAccess(s, t, s'); }
    }
  }

  lemma OutsideSame(s: State, s': State)
    ensures OutsideStep(s, s') ==> s'.threads == s.threads
  {
  }

  lemma SnapshotPc(s: State, u: nat, s': State)
    requires u < |s.threads| == |s.desc| && SnapshotStep(s, u, s')
    ensures s' == Move(s, u, s'.threads[u].pc) && !s'.threads[u].pc.Returned? && !Own(s'.threads[u].pc)
  {
  }

  lemma PrepareGoesOn(s: State, u: nat, s': State)
    requires u < |s.threads| == |s.desc| && PrepareStep(s, u, s')
    ensures u < |s'.threads| && !s'.threads[u].pc.Returned?
  {
  }

  lemma NoAccess(s: State, u: nat, s': State)
    requires u < |s.threads| == |s.desc| && ThreadStep(s, u, s') && !HelpStep(s, u, s') && !AttemptStep(s, u, s')
    ensures u < |s'.threads| && !s'.threads[u].pc.Returned?
  {
    hide HelpStep, AttemptStep, PrepareStep, SnapshotStep;
    if PrepareStep(s, u, s') { PrepareGoesOn(s, u, s'); }
    else if SnapshotStep(s, u, s') { SnapshotPc(s, u, s'); }
  }

  /** A read through tags, or a dcss that fails on addr2, returns what its word held, as a value and not a tag, at
      the last instant of the call: so the value that the word then stands for. */
  lemma {:induction false} FoundInsideCall(tr: seq<State>, k: nat, t: nat) returns (j: nat)
    requires Run(tr) && k < |tr| && t < |tr[k].threads| && EndsByAccess(tr[k].threads[t])
    ensures Found(tr[k].threads[t].pc.res).Some? && TargetWord(tr[k].threads[t].op).Some?
    ensures FoundAt(tr, j, k, t, TargetWord(tr[k].threads[t].op).value, Found(tr[k].threads[t].pc.res).value)
    ensures tr[k].threads[t].op.ReadOp? ==> tr[k].threads[t].pc.res.ReadValue?
    ensures Logical(tr[j], TargetWord(tr[k].threads[t].op).value) == Found(tr[k].threads[t].pc.res).value
  {
    hide Inv, Next;
    if k == 0 {
      assert false;
    } else {
      RunInv(tr, k - 1);
      RunGrows(tr, k - 1, k);
      assert Next(tr[k - 1], tr[k]);
      if tr[k - 1].threads[t] == tr[k].threads[t] {
        j := FoundInsideCall(tr, k - 1, t);
      } else {
        AccessStep(tr[k - 1], tr[k], t);
        j := k - 1;
      }
    }
  }

  /** A dcss that fails on addr2 never installed its tag, and returns a value other than old2, which addr2 held at
      an instant of the call. */
  lemma FailedAddr2Untouched(tr: seq<State>, k: nat, t: nat)
    requires Run(tr) && k < |tr| && t < |tr[k].threads| && tr[k].threads[t].op.DcssOp?
    requires tr[k].threads[t].pc.Returned? && tr[k].threads[t].pc.res.FailedAddr2?
    ensures t < |tr[k].desc| && Current(tr[k], t) !in tr[k].installed && |tr[k].threads[t].op.args| == FIELDS
    ensures tr[k].threads[t].pc.res.v != tr[k].threads[t].op.args[OLD2]
    ensures exists j: nat :: FoundAt(tr, j, k, t, tr[k].threads[t].op.args[ADDR2], tr[k].threads[t].pc.res.v)
  {
    RunInv(tr, k);
    assert OwnerInv(tr[k], t);
    hide Inv, Run;
    var j := FoundInsideCall(tr, k, t);
  }

  // ---------------------------------------------------------------- the memory behind the tags

  /** The value of a data word: what a tag stands for is the old value, or the new one once its operation has
      succeeded. */
  function Logical(s: State, a: int): int
    requires a in s.data
  {
    match s.data[a]
    case Val(v) => v
    case Tag(id) =>
      if id in s.published && |s.published[id]| == FIELDS then
        if id in s.decided && s.decided[id] then s.published[id][NEW2] else s.published[id][OLD2]
      else 0
  }

  /** In this step some operation on `a` became successful, and its value changed from old2 to new2. */
  predicate Swaps(s: State, s': State, a: int)
    requires a in s.data && a in s'.data
  {
    s.data[a].Tag? && var id := s.data[a].id;
    && id in s.published && |s.published[id]| == FIELDS && s.published[id][ADDR2] == a
    && id !in s.decided && id in s'.decided && s'.decided[id]
    && Logical(s, a) == s.published[id][OLD2] && Logical(s', a) == s.published[id][NEW2]
  }

  lemma HelpLogical(s: State, t: nat, s': State, a: int)
    requires Inv(s) && t < |s.threads| && HelpStep(s, t, s') && a in s.data && a in s'.data
    ensures Logical(s', a) == Logical(s, a) || Swaps(s, s', a)
  {
    var h := s.threads[t].pc.h;
    HelpWords(s, t);
    TagWhereLogical(s, t, a);
    assert DescInv(s, h.id.tid);
    if s.threads[t].pc.CasState? && s.desc[h.id.tid].num == h.id.num { assert Current(s, h.id.tid) == h.id; }
    hide Inv;
  }

  lemma TagWhereLogical(s: State, t: nat, a: int)
    requires Inv(s) && t < |s.threads| && Helping(s.threads[t].pc) && a in s.data
    ensures s.data[a].Tag? ==> s.data[a].id in s.published && |s.published[s.data[a].id]| == FIELDS && s.published[s.data[a].id][ADDR2] == a
    ensures s.data[a] == Tag(s.threads[t].pc.h.id) && s.threads[t].pc.Cleanup? ==>
              s.threads[t].pc.h.id in s.decided && s.decided[s.threads[t].pc.h.id] == s.threads[t].pc.ok
  {
    assert DataInv(s, a) && OwnerInv(s, t) && HelperInv(s, t) && IdInv(s, s.threads[t].pc.h.id);
  }

  lemma AttemptLogical(s: State, t: nat, s': State, a: int)
    requires Inv(s) && t < |s.threads| && AttemptStep(s, t, s') && a in s.data && a in s'.data
    ensures Logical(s', a) == Logical(s, a)
  {
    assert OwnerInv(s, t) && DescInv(s, t) && IdInv(s, Current(s, t));
    hide Inv;
  }

  lemma PrepareLogical(s: State, t: nat, s': State, a: int)
    requires Inv(s) && t < |s.threads| && PrepareStep(s, t, s') && a in s.data && a in s'.data
    ensures Logical(s', a) == Logical(s, a)
  {
    assert OwnerInv(s, t) && DataInv(s, a) && IdInv(s, Id(t, s.desc[t].num + 1));
    hide Inv;
  }

  /** The logical memory changes only when an operation is decided as successful, once for each, and then in its
      own word from old2 to new2; installing and removing tags, helping and copying leave it alone. */
  lemma LogicalChangesOnlyBySuccess(tr: seq<State>, k: nat, t: nat, a: int)
    requires Run(tr) && k + 1 < |tr| && t < |tr[k].threads| == |tr[k].desc| && ThreadStep(tr[k], t, tr[k + 1])
    requires a in tr[k].data && a in tr[k + 1].data
    ensures Logical(tr[k + 1], a) == Logical(tr[k], a) || Swaps(tr[k], tr[k + 1], a)
  {
    RunInv(tr, k);
    var s, s' := tr[k], tr[k + 1];
    hide Run, Inv, HelpStep, PrepareStep, AttemptStep, SnapshotStep, Swaps, Logical;
    if HelpStep(s, t, s') { HelpLogical(s, t, s', a); }
    else if AttemptStep(s, t, s') { AttemptLogical(s, t, s', a); }
    else if PrepareStep(s, t, s') { PrepareLogical(s, t, s', a); }
    else { QuietLogical(s, t, s', a); }
  }

  lemma QuietLogical(s: State, t: nat, s': State, a: int)
    requires t < |s.threads| == |s.desc| && ThreadStep(s, t, s') && a in s.data && a in s'.data
    requires !HelpStep(s, t, s') && !AttemptStep(s, t, s') && !PrepareStep(s, t, s')
    ensures Logical(s', a) == Logical(s, a)
  {
    hide HelpStep, AttemptStep, PrepareStep;
    assert s'.data == s.data && s'.published == s.published && s'.decided == s.decided;
  }
}
