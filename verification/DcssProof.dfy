/** Every step of the DCSS machine keeps its invariant. */
module DcssProof {
  import opened Dcss

  lemma InitKeeps(s: State)
    requires Init(s)
    ensures Inv(s)
  {
  }

  lemma OutsideKeeps(s: State, s': State)
    requires Inv(s) && OutsideStep(s, s')
    ensures Inv(s')
  {
    forall t | 0 <= t < |s'.desc| ensures DescInv(s', t) && OwnerInv(s', t) && HelperInv(s', t) {
      assert DescInv(s, t) && OwnerInv(s, t) && HelperInv(s, t);
    }
    forall a | a in s'.data ensures DataInv(s', a) { assert DataInv(s, a); }
    forall id ensures IdInv(s', id) { assert IdInv(s, id); }
  }

  lemma BeginKeeps(s: State, t: nat, op: Op, s': State)
    requires Inv(s) && t < |s.threads| && BeginStep(s, t, op, s')
    ensures Inv(s')
  {
    forall u | 0 <= u < |s'.desc| ensures DescInv(s', u) && OwnerInv(s', u) && HelperInv(s', u) {
      assert DescInv(s, u) && OwnerInv(s, u) && HelperInv(s, u);
    }
    forall a | a in s'.data ensures DataInv(s', a) { assert DataInv(s, a); }
    forall id ensures IdInv(s', id) { assert IdInv(s, id); }
  }

  // ---------------------------------------------------------------- steps that only move on

  /** Only the program counter of `t` changes; an owner does not stop before its tag is gone. */
  lemma MoveKeeps(s: State, t: nat, pc: Pc)
    requires Inv(s) && t < |s.threads| && OwnerInv(Move(s, t, pc), t) && HelperInv(Move(s, t, pc), t)
    requires Own(s.threads[t].pc) ==> Own(pc) || Current(s, t) in s.removed
    ensures Inv(Move(s, t, pc))
  {
    var s' := Move(s, t, pc);
    forall u | 0 <= u < |s'.desc| ensures DescInv(s', u) && OwnerInv(s', u) && HelperInv(s', u) {
      assert DescInv(s, u) && OwnerInv(s, u) && HelperInv(s, u);
    }
    forall a | a in s'.data ensures DataInv(s', a) { assert DataInv(s, a); }
    forall id ensures IdInv(s', id) { assert IdInv(s, id); }
  }

  // ---------------------------------------------------------------- preparing the descriptor

  lemma InvAt(s: State, u: nat)
    requires Inv(s) && u < |s.desc|
    ensures |s.threads| == |s.desc| && DescInv(s, u) && OwnerInv(s, u) && HelperInv(s, u)
  {
    hide DescInv, OwnerInv, HelperInv;
  }

  lemma IdAt(s: State, id: Id)
    requires Inv(s)
    ensures |s.threads| == |s.desc| && IdInv(s, id)
  {
    hide IdInv;
  }

  lemma PrepareOther(s: State, t: nat, s': State, u: nat)
    requires Inv(s) && t < |s.threads| && PrepareStep(s, t, s') && u < |s.desc| && u != t
    ensures DescInv(s', u) && OwnerInv(s', u)
  {
    hide Inv, HelperInv;
    InvAt(s, u);
  }

  lemma PrepareHelper(s: State, t: nat, s': State, u: nat)
    requires Inv(s) && t < |s.threads| && PrepareStep(s, t, s') && u < |s.desc|
    ensures HelperInv(s', u)
  {
    hide Inv, DescInv;
    InvAt(s, u);
    InvAt(s, t);
    var x := s.threads[u];
    if u != t && x.pc.Copying? { IdAt(s, x.pc.id); }
    if u != t && Helping(x.pc) { IdAt(s, x.pc.h.id); }
  }

  lemma PrepareOwner(s: State, t: nat, s': State)
    requires Inv(s) && t < |s.threads| && PrepareStep(s, t, s')
    ensures DescInv(s', t) && OwnerInv(s', t)
  {
    assert DescInv(s, t) && OwnerInv(s, t);
    assert IdInv(s, Current(s', t)) && IdInv(s, Current(s, t));
  }

  lemma PrepareKeeps(s: State, t: nat, s': State)
    requires Inv(s) && t < |s.threads| && PrepareStep(s, t, s')
    ensures Inv(s')
  {
    PrepareOwner(s, t, s');
    forall u | 0 <= u < |s'.desc| ensures DescInv(s', u) && OwnerInv(s', u) && HelperInv(s', u) {
      PrepareHelper(s, t, s', u);
      if u != t { PrepareOther(s, t, s', u); }
    }
    forall a | a in s'.data ensures DataInv(s', a) { assert DataInv(s, a); PrepareData(s, t, s', a); }
    forall id ensures IdInv(s', id) { PrepareId(s, t, s', id); }
  }

  lemma PrepareData(s: State, t: nat, s': State, a: int)
    requires Inv(s) && t < |s.threads| && PrepareStep(s, t, s') && a in s.data
    ensures DataInv(s', a)
  {
    assert DataInv(s, a) && OwnerInv(s, t);
    if s.data[a].Tag? { assert IdInv(s, s.data[a].id) && IdInv(s, Id(t, s.desc[t].num + 1)); }
  }

  lemma PrepareId(s: State, t: nat, s': State, id: Id)
    requires Inv(s) && t < |s.threads| && PrepareStep(s, t, s')
    ensures IdInv(s', id)
  {
    assert IdInv(s, id) && OwnerInv(s, t) && DescInv(s, t) && IdInv(s, Id(t, s.desc[t].num + 1));
  }

  // ---------------------------------------------------------------- installing the tag

  function Installed(s: State, t: nat): State
    requires t < |s.threads| == |s.desc| && |s.desc[t].f| == FIELDS
  {
    Move(s, t, ReadAddr1(Help(Current(s, t), true, [])))
      .(data := s.data[s.desc[t].f[ADDR2] := Tag(Current(s, t))], installed := s.installed + {Current(s, t)})
  }

  lemma InstallKeeps(s: State, t: nat)
    requires Inv(s) && t < |s.threads| && s.threads[t].pc.Attempt? && s.threads[t].op.DcssOp? && |s.desc[t].f| == FIELDS
    requires s.desc[t].f[ADDR2] in s.data && s.data[s.desc[t].f[ADDR2]] == Val(s.desc[t].f[OLD2])
    ensures Inv(Installed(s, t))
  {
    var s' := Installed(s, t);
    assert OwnerInv(s, t) && DescInv(s, t) && IdInv(s, Current(s, t));
    forall u | 0 <= u < |s'.desc| ensures DescInv(s', u) && OwnerInv(s', u) && HelperInv(s', u) {
      assert DescInv(s, u) && OwnerInv(s, u) && HelperInv(s, u);
    }
    forall a | a in s'.data ensures DataInv(s', a) { assert DataInv(s, a); }
    forall id ensures IdInv(s', id) { assert IdInv(s, id); }
  }

  lemma AttemptKeeps(s: State, t: nat, s': State)
    requires Inv(s) && t < |s.threads| && AttemptStep(s, t, s')
    ensures Inv(s')
  {
    var x := s.threads[t];
    assert OwnerInv(s, t) && DescInv(s, t);
    var a := if x.op.DcssOp? then s.desc[t].f[ADDR2] else x.op.addr;
    assert DataInv(s, a);
    if s' == Installed(s, t) && x.op.DcssOp? && s.data[a] == Val(s.desc[t].f[OLD2]) {
      InstallKeeps(s, t);
    } else {
      assert s' == Move(s, t, s'.threads[t].pc);
      if s.data[a].Tag? { assert IdInv(s, s.data[a].id); }
      assert OwnerInv(s', t) && HelperInv(s', t);
      MoveKeeps(s, t, s'.threads[t].pc);
    }
  }

  // ---------------------------------------------------------------- copying another thread's descriptor

  lemma CopyWord(s: State, id: Id, k: nat)
    requires Inv(s) && KnownId(s, id) && s.desc[id.tid].num == id.num && k <= FIELDS
    ensures |s.desc[id.tid].f| == FIELDS && DescWord(s.desc[id.tid], k) == PublishedWord(s, id, k)
  {
    assert DescInv(s, id.tid);
  }

  lemma SnapshotKeeps(s: State, t: nat, s': State)
    requires Inv(s) && t < |s.threads| && SnapshotStep(s, t, s')
    ensures Inv(s')
  {
    var x := s.threads[t];
    assert OwnerInv(s, t) && HelperInv(s, t);
    if s.desc[x.pc.id.tid].num == x.pc.id.num {
      forall k: nat | k <= FIELDS ensures DescWord(s.desc[x.pc.id.tid], k) == PublishedWord(s, x.pc.id, k) { CopyWord(s, x.pc.id, k); }
    }
    if s'.threads[t].pc.ReadAddr1? {
      assert x.pc.snap == s.published[x.pc.id] + [x.pc.id.num] by {
        forall k: nat | k <= FIELDS ensures x.pc.snap[k] == (s.published[x.pc.id] + [x.pc.id.num])[k] {
          assert x.pc.snap[k] == PublishedWord(s, x.pc.id, k);
        }
      }
    }
    assert s' == Move(s, t, s'.threads[t].pc);
    assert OwnerInv(s', t) && HelperInv(s', t);
    MoveKeeps(s, t, s'.threads[t].pc);
  }

  // ---------------------------------------------------------------- helping

  /** What any thread inside dcssHelp works with is what the operation published. */
  lemma HelpWords(s: State, t: nat)
    requires Inv(s) && t < |s.threads| && Helping(s.threads[t].pc)
    ensures var h := s.threads[t].pc.h;
            && KnownId(s, h.id) && Words(s, h) == s.published[h.id] + [h.id.num]
            && s.published[h.id][ADDR1] in s.control && s.published[h.id][ADDR2] in s.data
  {
    assert OwnerInv(s, t) && HelperInv(s, t) && IdInv(s, s.threads[t].pc.h.id);
  }

  function Decide(s: State, t: nat, h: Help, val1: int, ok: bool): State
    requires t < |s.threads| && h.id.tid < |s.desc|
  {
    Move(SetDesc(s, h.id.tid, s.desc[h.id.tid].(state := if ok then Succeeded else Failed)), t, Cleanup(h, val1, ok))
      .(decided := s.decided[h.id := ok])
  }

  lemma DecideThread(s: State, t: nat, h: Help, val1: int, ok: bool, u: nat)
    requires Inv(s) && t < |s.threads| && s.threads[t].pc == CasState(h, val1) && KnownId(s, h.id)
    requires s.desc[h.id.tid].num == h.id.num && s.desc[h.id.tid].state == Undecided && u < |s.desc|
    ensures DescInv(Decide(s, t, h, val1, ok), u) && OwnerInv(Decide(s, t, h, val1, ok), u) && HelperInv(Decide(s, t, h, val1, ok), u)
  {
    hide Inv;
    InvAt(s, u);
    InvAt(s, h.id.tid);
    IdAt(s, h.id);
  }

  lemma DecideKeeps(s: State, t: nat, h: Help, val1: int, ok: bool)
    requires Inv(s) && t < |s.threads| && s.threads[t].pc == CasState(h, val1) && KnownId(s, h.id)
    requires s.desc[h.id.tid].num == h.id.num && s.desc[h.id.tid].state == Undecided
    ensures Inv(Decide(s, t, h, val1, ok))
  {
    var s' := Decide(s, t, h, val1, ok);
    forall u | 0 <= u < |s'.desc| ensures DescInv(s', u) && OwnerInv(s', u) && HelperInv(s', u) {
      DecideThread(s, t, h, val1, ok, u);
    }
    assert OwnerInv(s, t);
    forall a | a in s'.data ensures DataInv(s', a) { assert DataInv(s, a); }
    forall id ensures IdInv(s', id) { assert IdInv(s, id); }
  }

  function Remove(s: State, t: nat, h: Help, val1: int, ok: bool, v: int): State
    requires t < |s.threads| && h.id in s.published && |s.published[h.id]| == FIELDS
  {
    Move(s, t, AfterHelp(h, if ok then Success else FailedAddr1(val1)))
      .(data := s.data[s.published[h.id][ADDR2] := Val(v)], removed := s.removed + {h.id})
  }

  lemma RemoveKeeps(s: State, t: nat, h: Help, val1: int, ok: bool, v: int)
    requires Inv(s) && t < |s.threads| && s.threads[t].pc == Cleanup(h, val1, ok) && KnownId(s, h.id)
    requires s.published[h.id][ADDR2] in s.data && s.data[s.published[h.id][ADDR2]] == Tag(h.id)
    ensures Inv(Remove(s, t, h, val1, ok, v))
  {
    var s' := Remove(s, t, h, val1, ok, v);
    assert DataInv(s, s.published[h.id][ADDR2]) && IdInv(s, h.id);
    forall u | 0 <= u < |s'.desc| ensures DescInv(s', u) && OwnerInv(s', u) && HelperInv(s', u) {
      assert DescInv(s, u) && OwnerInv(s, u) && HelperInv(s, u);
    }
    forall a | a in s'.data ensures DataInv(s', a) { assert DataInv(s, a) && DataInv(s, s.published[h.id][ADDR2]); }
    forall id ensures IdInv(s', id) { assert IdInv(s, id) && OwnerInv(s, t) && HelperInv(s, t); }
  }

  /** Without the tag in memory, the cleanup only returns. */
  lemma ReturnKeeps(s: State, t: nat, h: Help, val1: int, ok: bool)
    requires Inv(s) && t < |s.threads| && s.threads[t].pc == Cleanup(h, val1, ok) && KnownId(s, h.id)
    requires s.published[h.id][ADDR2] in s.data && s.data[s.published[h.id][ADDR2]] != Tag(h.id)
    ensures Inv(Move(s, t, AfterHelp(h, if ok then Success else FailedAddr1(val1))))
  {
    assert OwnerInv(s, t) && IdInv(s, h.id);
    MoveKeeps(s, t, AfterHelp(h, if ok then Success else FailedAddr1(val1)));
  }

  lemma HelpMoveKeeps(s: State, t: nat, pc: Pc)
    requires Inv(s) && t < |s.threads| && Helping(s.threads[t].pc) && !s.threads[t].pc.Cleanup?
    requires pc.ReadMutables? || pc.CasState? || (pc == Attempt && !s.threads[t].pc.h.own)
    requires Helping(pc) ==> pc.h == s.threads[t].pc.h
    ensures Inv(Move(s, t, pc))
  {
    assert OwnerInv(s, t) && HelperInv(s, t);
    MoveKeeps(s, t, pc);
  }

  /** A failed compare-and-swap on the state that found it decided. */
  lemma FoundDecided(s: State, t: nat, h: Help, val1: int)
    requires Inv(s) && t < |s.threads| && s.threads[t].pc == CasState(h, val1) && KnownId(s, h.id)
    requires s.desc[h.id.tid].state != Undecided
    ensures Inv(Move(s, t, Cleanup(h, val1, s.desc[h.id.tid].state == Succeeded)))
  {
    assert OwnerInv(s, t) && HelperInv(s, t) && DescInv(s, h.id.tid);
    MoveKeeps(s, t, Cleanup(h, val1, s.desc[h.id.tid].state == Succeeded));
  }

  lemma OwnCurrent(s: State, t: nat)
    requires Inv(s) && t < |s.threads| && Own(s.threads[t].pc)
    ensures s.threads[t].pc.h.id == Current(s, t)
  {
    assert OwnerInv(s, t);
  }

  lemma CasKeeps(s: State, t: nat, s': State)
    requires Inv(s) && t < |s.threads| && s.threads[t].pc.CasState? && HelpStep(s, t, s')
    ensures Inv(s')
  {
    var h, val1 := s.threads[t].pc.h, s.threads[t].pc.val1;
    HelpWords(s, t);
    if h.own { OwnCurrent(s, t); }
    hide Inv;
    var d, w := s.desc[h.id.tid], Words(s, h);
    if d.num == h.id.num && d.state == Undecided { DecideKeeps(s, t, h, val1, val1 == w[OLD1]); }
    else if d.state != Undecided { FoundDecided(s, t, h, val1); }
    else { HelpMoveKeeps(s, t, Attempt); }
  }

  lemma HelpKeeps(s: State, t: nat, s': State)
    requires Inv(s) && t < |s.threads| && HelpStep(s, t, s')
    ensures Inv(s')
  {
    var pc := s.threads[t].pc;
    if pc.CasState? {
      CasKeeps(s, t, s');
    } else {
      HelpWords(s, t);
      if pc.h.own { OwnCurrent(s, t); }
      hide Inv;
      if pc.Cleanup? {
        var w := Words(s, pc.h);
        if s.data[w[ADDR2]] == Tag(pc.h.id) { RemoveKeeps(s, t, pc.h, pc.val1, pc.ok, if pc.ok then w[NEW2] else w[OLD2]); }
        else { ReturnKeeps(s, t, pc.h, pc.val1, pc.ok); }
      } else {
        HelpMoveKeeps(s, t, s'.threads[t].pc);
      }
    }
  }

  lemma ThreadKeeps(s: State, t: nat, s': State)
    requires Inv(s) && t < |s.threads| == |s.desc| && ThreadStep(s, t, s')
    ensures Inv(s')
  {
    hide Inv, BeginStep, PrepareStep, AttemptStep, SnapshotStep, HelpStep;
    if PrepareStep(s, t, s') { PrepareKeeps(s, t, s'); }
    else if AttemptStep(s, t, s') { AttemptKeeps(s, t, s'); }
    else if SnapshotStep(s, t, s') { SnapshotKeeps(s, t, s'); }
    else if HelpStep(s, t, s') { HelpKeeps(s, t, s'); }
    else {
      var op :| BeginStep(s, t, op, s');
      BeginKeeps(s, t, op, s');
    }
  }
}
