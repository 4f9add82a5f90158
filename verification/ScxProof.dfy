/** Every step of the LLX/SCX machine keeps its invariant. */
module ScxProof {
  import opened Scx
  import opened ScxInvariant

  lemma InitKeeps(s: State)
    requires Init(s)
    ensures Inv(s)
  {
    forall t | 0 <= t < |s.desc| ensures ThreadInv(s, t) && DescInv(s, t) {}
  }

  // ---------------------------------------------------------------- an attempt cannot be both

  /** A frozen attempt is not dead: this is why the all-frozen bit and the aborted state exclude each other. */
  lemma FrozenNotDead(s: State, id: Id)
    requires AllFrozen(s, id)
    ensures !Dead(s, id)
  {
    forall i: nat ensures !Blocked(s, id, i) { assert IsEntry(s, id, i) ==> FrozenAt(s, id, i); }
  }

  lemma Exclusive(s: State, id: Id)
    requires AttemptInv(s, id)
    ensures !(id in s.frozen && id in s.aborted) && !(id in s.committed && id in s.aborted)
  {
    hide AllFrozen, Dead, EntriesOk, AllMarked;
    if id in s.frozen { FrozenNotDead(s, id); }
  }

  // ---------------------------------------------------------------- what the others keep

  lemma AttemptStable(s: State, s': State, id: Id)
    requires Grows(s, s') && AttemptInv(s, id)
    requires (id in s'.attempts ==> id in s.attempts) && (id in s'.frozen ==> id in s.frozen)
    requires (id in s'.committed ==> id in s.committed) && (id in s'.aborted ==> id in s.aborted)
    requires id.tid < |s.desc| && s'.desc[id.tid].m.num != s.desc[id.tid].m.num && id in s.attempts ==> Over(s, id) || id.num == s'.desc[id.tid].m.num
    ensures AttemptInv(s', id)
  {
    UpToStable(s, s', id, 0);
    MarkedStable(s, s', id, 0);
    if id in s.attempts { EntriesStable(s, s', s.attempts[id]); }
    hide AllFrozen, Dead, AllMarked, EntriesOk, Held, Replaced, Blocked;
  }

  lemma TagStable(s: State, s': State, n: nat, id: Id)
    requires Grows(s, s') && TagInv(s, n, id)
    requires Held(s', n, Tag(id)) ==> Held(s, n, Tag(id))
    requires Replaced(s', n, Tag(id)) ==> Replaced(s, n, Tag(id))
    ensures TagInv(s', n, id)
  {
    hide Held, Replaced, Blocked, FrozenAt, Spent;
    if Held(s, n, Tag(id)) {
      EntryStable(s, s', id, 0);
      var i: nat :| IsEntry(s, id, i) && s.attempts[id].nodes[i] == n && Replaced(s, n, s.attempts[id].seen[i]);
      EntryStable(s, s', id, i);
      assert Replaced(s', n, s.attempts[id].seen[i]);
    }
    SpentStable(s, s', n, Tag(id));
  }

  lemma OwnerStable(s: State, s': State, u: nat)
    requires Grows(s, s') && u < |s.threads| == |s.desc| && OwnerInv(s, u) && s'.threads[u] == s.threads[u]
    requires s'.desc[u].f == s.desc[u].f && s'.desc[u].m.num == s.desc[u].m.num
    requires s.desc[u].m.num % 2 == 0 ==> s'.desc[u].m == s.desc[u].m
    ensures OwnerInv(s', u)
  {
    if s.desc[u].m.num % 2 == 0 { EntriesStable(s, s', s.desc[u].f); }
    hide EntriesOk, Held, Replaced, Blocked, Sized;
  }

  lemma ThreadStable(s: State, s': State, u: nat)
    requires Inv(s) && Grows(s, s') && u < |s.threads| && s'.threads[u] == s.threads[u]
    requires s'.desc[u].f == s.desc[u].f && s'.desc[u].m.num == s.desc[u].m.num
    requires s.desc[u].m.num % 2 == 0 ==> s'.desc[u].m == s.desc[u].m
    ensures ThreadInv(s', u)
  {
    var pc := s.threads[u].pc;
    assert ThreadInv(s, u);
    if pc.Copying? { assert AttemptInv(s, pc.id); }
    hide Inv, Grows, OwnerInv, PcInv, LinkOk;
    OwnerStable(s, s', u);
    PcStable(s, s', pc);
    LinkedStable(s, s', s.threads[u].linked);
  }

  /** A descriptor whose history and contents are as before. */
  lemma DescStable(s: State, s': State, u: nat)
    requires u < |s.desc| == |s'.desc| && DescInv(s, u) && s'.desc[u] == s.desc[u] && s'.max == s.max
    requires forall id :: id in s.attempts ==> id in s'.attempts && s'.attempts[id] == s.attempts[id]
    requires var id := Id(u, s.desc[u].m.num);
             && (id in s'.frozen <==> id in s.frozen) && (id in s'.committed <==> id in s.committed) && (id in s'.aborted <==> id in s.aborted)
    ensures DescInv(s', u)
  {
  }

  // ---------------------------------------------------------------- steps that only move a thread on

  /** Shared memory and history are as before. */
  predicate SameWorld(s: State, s': State)
  {
    s' == s.(threads := s'.threads) && |s'.threads| == |s.threads|
  }

  lemma SameGrows(s: State, s': State)
    requires SameWorld(s, s')
    ensures Grows(s, s')
    ensures forall n, tag :: (Held(s', n, tag) <==> Held(s, n, tag)) && (Replaced(s', n, tag) <==> Replaced(s, n, tag))
  {
    forall id, i: nat | Blocked(s, id, i) ensures Blocked(s', id, i) {}
  }

  lemma WorldKeeps(s: State, t: nat, s': State)
    requires Inv(s) && t < |s.threads| && SameWorld(s, s')
    requires forall u :: 0 <= u < |s.threads| && u != t ==> s'.threads[u] == s.threads[u]
    requires ThreadInv(s', t)
    ensures Inv(s')
  {
    SameGrows(s, s');
    forall n ensures NodeInv(s', n) { assert NodeInv(s, n); }
    forall n, id ensures TagInv(s', n, id) { assert TagInv(s, n, id); TagStable(s, s', n, id); }
    forall id ensures AttemptInv(s', id) { assert AttemptInv(s, id); AttemptStable(s, s', id); }
    forall u | 0 <= u < |s.desc| ensures DescInv(s', u) && ThreadInv(s', u) {
      assert DescInv(s, u);
      DescStable(s, s', u);
      if u != t { ThreadStable(s, s', u); }
    }
    hide NodeInv, TagInv, AttemptInv, DescInv, ThreadInv, Grows;
  }

  /** The owner's side when the owner only moves on. */
  lemma OwnerMove(s: State, t: nat, pc: Pc)
    requires Inv(s) && t < |s.threads|
    requires Own(s.threads[t].pc) <==> Own(pc) || pc.Renewing?
    requires !s.threads[t].pc.Renewing? && !pc.Returned? && !pc.Adding? && !pc.Executing?
    requires Own(pc) ==> pc.h == s.threads[t].pc.h
    requires pc.Renewing? ==> if pc.ok then s.threads[t].pc.h.id in s.committed else s.threads[t].pc.h.id in s.aborted
    ensures OwnerInv(Move(s, t, pc), t)
  {
    assert ThreadInv(s, t);
    var s' := Move(s, t, pc);
    SameGrows(s, s');
    if s.desc[t].m.num % 2 == 0 { EntriesStable(s, s', s.desc[t].f); }
    hide Inv, PcInv, EntriesOk, Grows;
  }

  lemma MoveKeeps(s: State, t: nat, pc: Pc)
    requires Inv(s) && t < |s.threads| && PcInv(s, pc)
    requires Own(s.threads[t].pc) <==> Own(pc) || pc.Renewing?
    requires !s.threads[t].pc.Renewing? && !pc.Returned? && !pc.Adding? && !pc.Executing?
    requires Own(pc) ==> pc.h == s.threads[t].pc.h
    requires pc.Renewing? ==> if pc.ok then s.threads[t].pc.h.id in s.committed else s.threads[t].pc.h.id in s.aborted
    requires pc.Copying? ==> AttemptInv(s, pc.id)
    ensures Inv(Move(s, t, pc))
  {
    var s' := Move(s, t, pc);
    OwnerMove(s, t, pc);
    assert ThreadInv(s, t);
    SameGrows(s, s');
    hide Inv, Grows, PcInv, OwnerInv;
    PcStable(s, s', pc);
    LinkedStable(s, s', s.threads[t].linked);
    WorldKeeps(s, t, s');
  }

  // ---------------------------------------------------------------- llx

  lemma StateOver(s: State, id: Id)
    requires Inv(s) && id in s.attempts
    ensures id.tid < |s.desc| && AttemptInv(s, id)
    ensures s.desc[id.tid].m.num != id.num || s.desc[id.tid].m.state != InProgress ==> Over(s, id)
    ensures s.desc[id.tid].m.num == id.num && s.desc[id.tid].m.state == Aborted ==> id in s.aborted
  {
    assert AttemptInv(s, id);
    assert DescInv(s, id.tid);
  }

  lemma HeldAttempt(s: State, n: nat, id: Id)
    requires Inv(s) && Held(s, n, Tag(id))
    ensures id in s.attempts && FrozenAt(s, id, 0)
  {
    assert TagInv(s, n, id);
  }

  lemma LlxStateKeeps(s: State, t: nat, s': State)
    requires Inv(s) && t < |s.threads| && s.threads[t].pc.LlxState? && LlxStep(s, t, s')
    ensures Inv(s')
  {
    var n, tag := s.threads[t].pc.n, s.threads[t].pc.tag;
    assert ThreadInv(s, t);
    if tag.Tag? {
      HeldAttempt(s, n, tag.id);
      StateOver(s, tag.id);
    }
    hide Inv, ThreadInv, FrozenAt;
    MoveKeeps(s, t, s'.threads[t].pc);
  }

  /** The node was not marked after its attempt was seen committed, so that attempt did not finalize it. */
  lemma UnmarkedSpent(s: State, n: nat, tag: Tag)
    requires Inv(s) && n in s.nodes && !s.nodes[n].marked && (tag.Tag? ==> tag.id in s.attempts && Over(s, tag.id))
    ensures Spent(s, n, tag)
  {
    if tag.Tag? {
      assert AttemptInv(s, tag.id);
      hide Inv, AllFrozen, Dead, EntriesOk;
      if tag.id in s.committed { MarkedNotUnmarked(s, tag.id, n); }
    }
  }

  lemma MarkedNotUnmarked(s: State, id: Id, n: nat)
    requires AllMarked(s, id) && n in s.nodes && !s.nodes[n].marked
    ensures !Finalizes(s.attempts[id], n)
  {
  }

  lemma LinkKeeps(s: State, t: nat, l: Link)
    requires Inv(s) && t < |s.threads| && s.threads[t].pc.LlxAgain? && LinkOk(s, l)
    ensures Inv(s.(threads := s.threads[t := Thread(Ready, s.threads[t].linked + {l})]))
  {
    var s' := s.(threads := s.threads[t := Thread(Ready, s.threads[t].linked + {l})]);
    assert ThreadInv(s, t);
    OwnerMove(s, t, Ready);
    assert OwnerInv(s', t) by { OwnerSamePc(s, t, Move(s, t, Ready), s'); }
    SameGrows(s, s');
    hide Inv, Grows, OwnerInv, LinkOk;
    LinkedStable(s, s', s.threads[t].linked + {l});
    assert PcInv(s', Ready);
    WorldKeeps(s, t, s');
  }

  lemma OwnerSamePc(s: State, t: nat, a: State, b: State)
    requires t < |s.threads| == |s.desc| && SameWorld(s, a) && SameWorld(s, b) && OwnerInv(a, t)
    requires a.threads[t].pc == b.threads[t].pc == Ready
    ensures OwnerInv(b, t)
  {
    SameGrows(s, a);
    SameGrows(s, b);
    assert SameWorld(a, b);
    SameGrows(a, b);
    if b.desc[t].m.num % 2 == 0 { EntriesStable(a, b, b.desc[t].f); }
    hide EntriesOk, Grows;
  }

  lemma LlxKeeps(s: State, t: nat, s': State)
    requires Inv(s) && t < |s.threads| && LlxStep(s, t, s')
    ensures Inv(s')
  {
    var pc := s.threads[t].pc;
    assert ThreadInv(s, t);
    hide Inv, ThreadInv, Spent;
    if pc.LlxState? { LlxStateKeeps(s, t, s'); }
    else if pc.LlxAgain? && s.nodes[pc.n].ptr == pc.tag { LinkKeeps(s, t, Link(pc.n, pc.tag)); }
    else {
      if pc.LlxUnmarked? && !s.nodes[pc.n].marked { UnmarkedSpent(s, pc.n, pc.tag); }
      MoveKeeps(s, t, s'.threads[t].pc);
    }
  }

  // ---------------------------------------------------------------- copying a descriptor

  lemma CopyRight(dst: Snap, src: Desc, num: nat, f: Fields, l: Loc, k: Loc, max: nat)
    requires |dst.f.nodes| == |dst.f.fin| == |dst.f.seen| == |src.f.nodes| == |src.f.fin| == |src.f.seen| == max
    requires |f.nodes| == |f.fin| == |f.seen| == max
    requires IsLoc(l, max) && IsLoc(k, max) && src.f == f && src.m.num == num && (k == l || SameWord(dst, num, f, k))
    ensures |CopyWord(dst, src, l).f.nodes| == |CopyWord(dst, src, l).f.fin| == |CopyWord(dst, src, l).f.seen| == max
    ensures SameWord(CopyWord(dst, src, l), num, f, k)
  {
  }

  lemma CopyKeeps(s: State, t: nat, l: Loc)
    requires Inv(s) && t < |s.threads| && s.threads[t].pc.Copying? && IsLoc(l, s.max)
    requires s.threads[t].pc.id.tid < |s.desc| && Sized(s.desc[s.threads[t].pc.id.tid].f, s.max)
    requires |s.threads[t].pc.snap.f.nodes| == |s.threads[t].pc.snap.f.fin| == |s.threads[t].pc.snap.f.seen| == s.max
    ensures Inv(Move(s, t, Copying(s.threads[t].pc.id, s.threads[t].pc.got + {l},
                                   CopyWord(s.threads[t].pc.snap, s.desc[s.threads[t].pc.id.tid], l))))
  {
    var id, got, snap := s.threads[t].pc.id, s.threads[t].pc.got, s.threads[t].pc.snap;
    var d := s.desc[id.tid];
    assert ThreadInv(s, t) && AttemptInv(s, id) && DescInv(s, id.tid);
    hide Inv, AttemptInv, OwnerInv, SameWord;
    var snap' := CopyWord(snap, d, l);
    if d.m.num == id.num {
      forall k | k in got + {l} && IsLoc(k, s.max) ensures SameWord(snap', id.num, s.attempts[id], k) {
        CopyRight(snap, d, id.num, s.attempts[id], l, k, s.max);
      }
    }
    assert CopyInv(s, id, got + {l}, snap');
    MoveKeeps(s, t, Copying(id, got + {l}, snap'));
  }

  lemma AllWords(snap: Snap, num: nat, f: Fields, max: nat)
    requires |snap.f.nodes| == |snap.f.fin| == |snap.f.seen| == |f.nodes| == |f.fin| == |f.seen| == max
    requires forall l :: IsLoc(l, max) ==> SameWord(snap, num, f, l)
    ensures snap == Snap(num, f)
  {
    assert SameWord(snap, num, f, NumLoc) && SameWord(snap, num, f, CountLoc) && SameWord(snap, num, f, FieldLoc);
    assert SameWord(snap, num, f, OldLoc) && SameWord(snap, num, f, NewLoc);
    forall i: nat | i < max ensures snap.f.nodes[i] == f.nodes[i] && snap.f.fin[i] == f.fin[i] && snap.f.seen[i] == f.seen[i] {
      assert SameWord(snap, num, f, NodeLoc(i)) && SameWord(snap, num, f, FinLoc(i)) && SameWord(snap, num, f, SeenLoc(i));
    }
  }

  lemma SnapshotDone(s: State, t: nat)
    requires Inv(s) && t < |s.threads| && s.threads[t].pc.Copying? && s.threads[t].pc.id.tid < |s.desc|
    requires s.desc[s.threads[t].pc.id.tid].m.num == s.threads[t].pc.id.num
    requires forall l: Loc :: IsLoc(l, s.max) ==> l in s.threads[t].pc.got
    ensures Inv(Move(s, t, Freeze(Help(s.threads[t].pc.id, false, s.threads[t].pc.snap), 1)))
  {
    var id, snap := s.threads[t].pc.id, s.threads[t].pc.snap;
    assert ThreadInv(s, t) && AttemptInv(s, id);
    hide Inv, AttemptInv, OwnerInv, SameWord;
    AllWords(snap, id.num, s.attempts[id], s.max);
    MoveKeeps(s, t, Freeze(Help(id, false, snap), 1));
  }

  lemma SnapshotKeeps(s: State, t: nat, s': State)
    requires Inv(s) && t < |s.threads| == |s.desc| && SnapshotStep(s, t, s')
    ensures Inv(s')
  {
    hide Inv, CopyWord;
    var pc := s.threads[t].pc;
    var d := s.desc[pc.id.tid];
    if l: Loc :| l !in pc.got && CopyStep(s, t, d, l, s') {
      CopyKeeps(s, t, l);
    } else if d.m.num == pc.id.num {
      SnapshotDone(s, t);
    } else {
      MoveKeeps(s, t, Ready);
    }
  }

  // ---------------------------------------------------------------- preparing an attempt

  /** Only the owner's descriptor, still even, changes, and only in its fields. */
  lemma FieldsKeep(s: State, t: nat, f: Fields, x: Thread)
    requires Inv(s) && t < |s.threads| && s.desc[t].m.num % 2 == 0
    requires OwnerInv(SetFields(s, t, f).(threads := s.threads[t := x]), t)
    requires PcInv(s, x.pc) && x.linked == s.threads[t].linked && !x.pc.Copying?
    ensures Inv(SetFields(s, t, f).(threads := s.threads[t := x]))
  {
    var s' := SetFields(s, t, f).(threads := s.threads[t := x]);
    assert ThreadInv(s, t);
    FieldsGrows(s, s');
    forall n ensures NodeInv(s', n) { assert NodeInv(s, n); }
    forall n, id ensures TagInv(s', n, id) { assert TagInv(s, n, id); TagStable(s, s', n, id); }
    forall id ensures AttemptInv(s', id) { assert AttemptInv(s, id); AttemptStable(s, s', id); }
    forall u | 0 <= u < |s.desc| ensures DescInv(s', u) && ThreadInv(s', u) {
      assert DescInv(s, u);
      if u != t { DescStable(s, s', u); ThreadStable(s, s', u); }
      else { PcStable(s, s', x.pc); LinkedStable(s, s', x.linked); }
    }
    hide NodeInv, TagInv, AttemptInv, DescInv, ThreadInv, Grows;
  }

  lemma FieldsGrows(s: State, s': State)
    requires s' == s.(threads := s'.threads, desc := s'.desc) && |s'.threads| == |s.threads| && |s'.desc| == |s.desc|
    requires forall u :: 0 <= u < |s.desc| ==> s.desc[u].m.num <= s'.desc[u].m.num
    ensures Grows(s, s')
    ensures forall n, tag :: (Held(s', n, tag) <==> Held(s, n, tag)) && (Replaced(s', n, tag) <==> Replaced(s, n, tag))
  {
    forall id, i: nat | Blocked(s, id, i) ensures Blocked(s', id, i) {}
  }

  /** A thread that is preparing an attempt: its own step on the fields of its even descriptor. */
  lemma EvenFields(s: State, t: nat, f: Fields, pc: Pc)
    requires Inv(s) && t < |s.threads| && !Own(s.threads[t].pc) && !s.threads[t].pc.Renewing?
    requires EntriesOk(s, f) && PcInv(s, pc) && (pc.Ready? || pc.Clearing? || pc.Adding? || pc.Executing? || pc.LlxMarked?)
    requires pc.Adding? ==> f.count < s.max && Fresh(f, pc.l.node)
    requires pc.Adding? && pc.stage >= 1 ==> f.nodes[f.count] == pc.l.node
    requires pc.Adding? && pc.stage >= 3 ==> f.seen[f.count] == pc.l.tag
    requires pc.Executing? && pc.stage >= 3 ==> f.field == pc.field
    ensures Inv(Move(SetFields(s, t, f), t, pc))
  {
    assert ThreadInv(s, t);
    var s' := Move(SetFields(s, t, f), t, pc);
    FieldsGrows(s, s');
    EntriesStable(s, s', f);
    hide Inv, PcInv, EntriesOk, Grows;
    FieldsKeep(s, t, f, s'.threads[t]);
  }

  lemma NoEntries(s: State, f: Fields)
    requires EntriesOk(s, f)
    ensures EntriesOk(s, f.(count := 0))
  {
    hide LinkOk;
  }

  lemma CallMove(s: State, t: nat, pc: Pc)
    requires Inv(s) && t < |s.threads| == |s.desc| && (s.threads[t].pc.Ready? || s.threads[t].pc.Returned?)
    requires PcInv(s, pc) && (pc.LlxMarked? || pc.Clearing? || (pc.Adding? && pc.stage == 0) || (pc.Executing? && pc.stage == 0))
    requires pc.Adding? ==> s.desc[t].f.count < s.max && Fresh(s.desc[t].f, pc.l.node)
    ensures Inv(Move(s, t, pc))
  {
    var f := s.desc[t].f;
    assert ThreadInv(s, t);
    assert EntriesOk(s, f);
    assert SetFields(s, t, f) == s;
    hide Inv, OwnerInv, EntriesOk, PcInv;
    EvenFields(s, t, f, pc);
  }

  lemma LinkedOk(s: State, t: nat, l: Link)
    requires Inv(s) && t < |s.threads| == |s.desc| && l in s.threads[t].linked
    ensures LinkOk(s, l)
  {
    assert ThreadInv(s, t);
  }

  lemma ClearKeeps(s: State, t: nat)
    requires Inv(s) && t < |s.threads| == |s.desc| && s.threads[t].pc.Clearing?
    ensures Inv(Move(SetFields(s, t, s.desc[t].f.(count := 0)), t, Ready))
  {
    assert ThreadInv(s, t);
    NoEntries(s, s.desc[t].f);
    hide Inv, OwnerInv, EntriesOk;
    EvenFields(s, t, s.desc[t].f.(count := 0), Ready);
  }

  lemma CallKeeps(s: State, t: nat, s': State)
    requires Inv(s) && t < |s.threads| == |s.desc| && CallStep(s, t, s')
    ensures Inv(s')
  {
    hide Inv, LinkOk;
    var f, x := s.desc[t].f, s.threads[t];
    if s' == Move(s, t, Clearing) {
      CallMove(s, t, Clearing);
    } else if n: nat :| n in s.nodes && s' == Move(s, t, LlxMarked(n)) {
      CallMove(s, t, LlxMarked(n));
    } else if l: Link, fin: bool :| l in x.linked && f.count < s.max && Fresh(f, l.node) && s' == Move(s, t, Adding(l, fin, 0)) {
      LinkedOk(s, t, l);
      CallMove(s, t, Adding(l, fin, 0));
    } else {
      var a: int, v: int, w: int :| a in s.values && s' == Move(s, t, Executing(a, v, w, 0));
      CallMove(s, t, Executing(a, v, w, 0));
    }
  }

  lemma AddingEntries(s: State, f: Fields, pc: Pc, f': Fields)
    requires EntriesOk(s, f) && pc.Adding? && f.count < s.max && Fresh(f, pc.l.node) && LinkOk(s, pc.l)
    requires pc.stage >= 1 ==> f.nodes[f.count] == pc.l.node
    requires pc.stage >= 3 ==> f.seen[f.count] == pc.l.tag
    requires f' == if pc.stage == 0 then f.(nodes := f.nodes[f.count := pc.l.node])
                   else if pc.stage == 1 then f.(fin := f.fin[f.count := pc.fin])
                   else if pc.stage == 2 then f.(seen := f.seen[f.count := pc.l.tag])
                   else f.(count := f.count + 1)
    ensures EntriesOk(s, f')
  {
    hide LinkOk;
    forall i | 0 <= i < f'.count ensures LinkOk(s, Link(f'.nodes[i], f'.seen[i])) {
      if i < f.count { assert LinkOk(s, Link(f.nodes[i], f.seen[i])); }
    }
  }

  lemma StillAdding(s: State, pc: Pc, pc': Pc)
    requires PcInv(s, pc) && pc.Adding? && (pc'.Ready? || (pc'.Adding? && pc'.l == pc.l))
    ensures PcInv(s, pc')
  {
    hide LinkOk;
  }

  lemma AddingKeeps(s: State, t: nat, s': State)
    requires Inv(s) && t < |s.threads| == |s.desc| && s.threads[t].pc.Adding? && PrepareStep(s, t, s')
    ensures Inv(s')
  {
    var f, pc := s.desc[t].f, s.threads[t].pc;
    assert ThreadInv(s, t);
    assert EntriesOk(s, f);
    hide Inv, LinkOk, PcInv;
    var f' := s'.desc[t].f;
    AddingEntries(s, f, pc, f');
    assert PcInv(s, s'.threads[t].pc) by { StillAdding(s, pc, s'.threads[t].pc); }
    hide EntriesOk;
    EvenFields(s, t, f', s'.threads[t].pc);
  }

  lemma StoringKeeps(s: State, t: nat, s': State)
    requires Inv(s) && t < |s.threads| == |s.desc| && s.threads[t].pc.Executing? && s.threads[t].pc.stage < 3 && PrepareStep(s, t, s')
    ensures Inv(s')
  {
    var f := s.desc[t].f;
    assert ThreadInv(s, t);
    assert EntriesOk(s, f);
    hide Inv, LinkOk;
    var f' := s'.desc[t].f;
    assert EntriesOk(s, f');
    hide EntriesOk;
    EvenFields(s, t, f', s'.threads[t].pc);
  }

  // ---------------------------------------------------------------- an attempt starts and ends

  lemma PublishGrows(s: State, t: nat, s': State)
    requires Inv(s) && t < |s.threads| == |s.desc| && s.threads[t].pc.Executing? && s.threads[t].pc.stage >= 3 && PrepareStep(s, t, s')
    ensures Grows(s, s') && Id(t, s.desc[t].m.num + 1) !in s.attempts
    ensures forall n, tag :: (Held(s', n, tag) <==> Held(s, n, tag)) && (Replaced(s', n, tag) <==> Replaced(s, n, tag))
  {
    assert AttemptInv(s, Id(t, s.desc[t].m.num + 1));
    hide Inv;
    forall id, i: nat | Blocked(s, id, i) ensures Blocked(s', id, i) {}
  }

  lemma PublishAttempt(s: State, t: nat, s': State)
    requires Inv(s) && t < |s.threads| == |s.desc| && s.threads[t].pc.Executing? && s.threads[t].pc.stage >= 3 && PrepareStep(s, t, s')
    ensures AttemptInv(s', Id(t, s.desc[t].m.num + 1)) && DescInv(s', t) && ThreadInv(s', t)
  {
    var id := Id(t, s.desc[t].m.num + 1);
    assert ThreadInv(s, t) && AttemptInv(s, id) && DescInv(s, t);
    PublishGrows(s, t, s');
    EntriesStable(s, s', s.desc[t].f);
    LinkedStable(s, s', s.threads[t].linked);
    assert id !in s.frozen && id !in s.aborted && id !in s.committed by { UnknownNothing(s, id); }
    hide Inv, Grows, EntriesOk, LinkOk;
  }

  lemma UnknownNothing(s: State, id: Id)
    requires AttemptInv(s, id) && id !in s.attempts
    ensures id !in s.frozen && id !in s.aborted && id !in s.committed
  {
  }

  lemma PublishKeeps(s: State, t: nat, s': State)
    requires Inv(s) && t < |s.threads| == |s.desc| && s.threads[t].pc.Executing? && s.threads[t].pc.stage >= 3 && PrepareStep(s, t, s')
    ensures Inv(s')
  {
    PublishGrows(s, t, s');
    PublishAttempt(s, t, s');
    var latest := Id(t, s.desc[t].m.num + 1);
    assert ThreadInv(s, t);
    assert s.desc[t].m.num % 2 == 0;
    assert forall u :: 0 <= u < |s.desc| && u != t ==> s'.desc[u] == s.desc[u] && s'.threads[u] == s.threads[u];
    assert s'.attempts == s.attempts[latest := s.desc[t].f] && s'.frozen == s.frozen && s'.committed == s.committed && s'.aborted == s.aborted;
    assert s'.nodes == s.nodes && s'.desc[t].m.num == s.desc[t].m.num + 1;
    hide PrepareStep, Grows, OwnerInv, PcInv;
    forall n ensures NodeInv(s', n) { assert NodeInv(s, n); }
    forall n, id ensures TagInv(s', n, id) { assert TagInv(s, n, id); TagStable(s, s', n, id); }
    forall id ensures AttemptInv(s', id) {
      assert AttemptInv(s, id);
      if id != latest { if id.tid == t && id in s.attempts { EvenBefore(s, t, id); } AttemptStable(s, s', id); }
    }
    forall u | 0 <= u < |s.desc| ensures DescInv(s', u) && ThreadInv(s', u) {
      assert DescInv(s, u);
      if u != t { DescStable(s, s', u); ThreadStable(s, s', u); }
    }
    hide NodeInv, TagInv, AttemptInv, DescInv, ThreadInv;
  }

  /** While the descriptor is even, every attempt of its owner is over. */
  lemma EvenBefore(s: State, t: nat, id: Id)
    requires AttemptInv(s, id) && t < |s.desc| && s.desc[t].m.num % 2 == 0 && id.tid == t && id in s.attempts
    ensures Over(s, id)
  {
    hide EntriesOk, AllFrozen, Dead, AllMarked;
  }

  lemma RenewOwner(s: State, t: nat, s': State)
    requires Inv(s) && t < |s.threads| == |s.desc| && s.threads[t].pc.Renewing? && PrepareStep(s, t, s')
    ensures Grows(s, s') && DescInv(s', t) && ThreadInv(s', t)
    ensures forall n, tag :: (Held(s', n, tag) <==> Held(s, n, tag)) && (Replaced(s', n, tag) <==> Replaced(s, n, tag))
  {
    var id, next := Id(t, s.desc[t].m.num), Id(t, s.desc[t].m.num + 1);
    assert ThreadInv(s, t) && DescInv(s, t) && AttemptInv(s, id) && AttemptInv(s, next);
    FieldsGrows(s, s');
    EntriesStable(s, s', s.desc[t].f);
    LinkedStable(s, s', s.threads[t].linked);
    UnknownNothing(s, next);
    hide Inv, Grows, EntriesOk, LinkOk, AttemptInv;
  }

  lemma RenewKeeps(s: State, t: nat, s': State)
    requires Inv(s) && t < |s.threads| == |s.desc| && s.threads[t].pc.Renewing? && PrepareStep(s, t, s')
    ensures Inv(s')
  {
    RenewOwner(s, t, s');
    assert ThreadInv(s, t);
    var num := s.desc[t].m.num;
    assert Over(s, Id(t, num));
    assert forall u :: 0 <= u < |s.desc| && u != t ==> s'.desc[u] == s.desc[u] && s'.threads[u] == s.threads[u];
    assert s'.attempts == s.attempts && s'.frozen == s.frozen && s'.committed == s.committed && s'.aborted == s.aborted;
    assert s'.nodes == s.nodes && s'.desc[t].m.num == num + 1;
    hide PrepareStep, Grows, OwnerInv, PcInv;
    forall n ensures NodeInv(s', n) { assert NodeInv(s, n); }
    forall n, id ensures TagInv(s', n, id) { assert TagInv(s, n, id); TagStable(s, s', n, id); }
    forall id ensures AttemptInv(s', id) { assert AttemptInv(s, id); if id.tid == t && id in s.attempts { RenewAttempt(s, t, id); } AttemptStable(s, s', id); }
    forall u | 0 <= u < |s.desc| ensures DescInv(s', u) && ThreadInv(s', u) {
      assert DescInv(s, u);
      if u != t { DescStable(s, s', u); ThreadStable(s, s', u); }
    }
    hide NodeInv, TagInv, AttemptInv, DescInv, ThreadInv;
  }

  lemma RenewAttempt(s: State, t: nat, id: Id)
    requires AttemptInv(s, id) && t < |s.desc| && Over(s, Id(t, s.desc[t].m.num)) && id.tid == t && id in s.attempts
    ensures Over(s, id)
  {
    hide EntriesOk, AllFrozen, Dead, AllMarked;
    assert id.num == s.desc[t].m.num ==> id == Id(t, s.desc[t].m.num);
  }

  lemma ClearIs(s: State, t: nat, s': State)
    requires t < |s.threads| == |s.desc| && PrepareStep(s, t, s') && s.threads[t].pc.Clearing?
    ensures s' == Move(SetFields(s, t, s.desc[t].f.(count := 0)), t, Ready)
  {
  }

  lemma PrepareKeeps(s: State, t: nat, s': State)
    requires Inv(s) && t < |s.threads| == |s.desc| && PrepareStep(s, t, s')
    ensures Inv(s')
  {
    hide Inv, PrepareStep;
    var pc := s.threads[t].pc;
    if pc.Adding? { AddingKeeps(s, t, s'); }
    else if pc.Clearing? { ClearIs(s, t, s'); ClearKeeps(s, t); }
    else if pc.Executing? && pc.stage < 3 { StoringKeeps(s, t, s'); }
    else if pc.Executing? { PublishKeeps(s, t, s'); }
    else { RenewKeeps(s, t, s') by { OtherPrepare(s, t, s'); } }
  }

  lemma OtherPrepare(s: State, t: nat, s': State)
    requires t < |s.threads| == |s.desc| && PrepareStep(s, t, s')
    ensures s.threads[t].pc.Clearing? || s.threads[t].pc.Adding? || s.threads[t].pc.Executing? || s.threads[t].pc.Renewing?
  {
  }

  // ---------------------------------------------------------------- freezing

  /** What any thread inside help works with is what the attempt published. */
  lemma HelpView(s: State, t: nat)
    requires Inv(s) && t < |s.threads| && Helping(s.threads[t].pc)
    ensures var h := s.threads[t].pc.h;
            && h.id in s.attempts && h.id.tid < |s.desc| && View(s, h) == Snap(h.id.num, s.attempts[h.id])
            && AttemptInv(s, h.id) && HelpInv(s, s.threads[t].pc)
            && (h.own ==> h.id.tid == t && s.desc[t].m.num == h.id.num)
  {
    var h := s.threads[t].pc.h;
    assert ThreadInv(s, t) && AttemptInv(s, h.id);
    assert DescInv(s, h.id.tid);
  }

  /** An attempt freezes one of its nodes. */
  function Frozen(s: State, n: nat, id: Id): State
    requires n in s.nodes
  {
    s.(nodes := s.nodes[n := s.nodes[n].(ptr := Tag(id), past := s.nodes[n].past + {s.nodes[n].ptr})])
  }

  predicate Freezes(s: State, id: Id, i: nat)
  {
    && IsEntry(s, id, i) && EntriesOk(s, s.attempts[id]) && s.attempts[id].nodes[i] in s.nodes
    && s.nodes[s.attempts[id].nodes[i]].ptr == s.attempts[id].seen[i]
  }

  /** The node has never held the attempt's tag: the handle the attempt expects is still there. */
  lemma NotYetHeld(s: State, id: Id, i: nat)
    requires Freezes(s, id, i) && NodeInv(s, s.attempts[id].nodes[i]) && TagInv(s, s.attempts[id].nodes[i], id)
    ensures !Held(s, s.attempts[id].nodes[i], Tag(id))
  {
    var f := s.attempts[id];
    var n := f.nodes[i];
    forall j: nat | IsEntry(s, id, j) && f.nodes[j] == n ensures j == i {}
  }

  lemma FreezeGrows(s: State, id: Id, i: nat)
    requires Freezes(s, id, i) && (forall n {:trigger NodeInv(s, n)} :: NodeInv(s, n))
    ensures Grows(s, Frozen(s, s.attempts[id].nodes[i], id))
  {
    var f := s.attempts[id];
    var n := f.nodes[i];
    var s' := Frozen(s, n, id);
    forall a, k: nat | Blocked(s, a, k) ensures Blocked(s', a, k) {
      var m := s.attempts[a].nodes[k];
      assert NodeInv(s, m);
      assert a == id && m == n ==> k == i;
    }
  }

  lemma FreezeTags(s: State, id: Id, i: nat, m: nat, a: Id)
    requires Freezes(s, id, i) && FrozenUpTo(s, id, i) && TagInv(s, m, a)
    requires Grows(s, Frozen(s, s.attempts[id].nodes[i], id))
    ensures TagInv(Frozen(s, s.attempts[id].nodes[i], id), m, a)
  {
    var f := s.attempts[id];
    var n := f.nodes[i];
    var s' := Frozen(s, n, id);
    SpentStable(s, s', m, Tag(a));
    EntryStable(s, s', a, 0);
    assert LinkOk(s, Link(n, f.seen[i]));
    if a == id && m == n {
      assert FrozenAt(s', id, 0) by {
        if i > 0 { assert FrozenAt(s, id, 0); }
      }
      assert IsEntry(s', id, i) && Replaced(s', n, f.seen[i]);
    }
    hide Spent, Grows, Blocked, FrozenAt, EntriesOk;
    if Held(s, m, Tag(a)) {
      var j: nat :| IsEntry(s, a, j) && s.attempts[a].nodes[j] == m && Replaced(s, m, s.attempts[a].seen[j]);
      assert IsEntry(s', a, j) && Replaced(s', m, s.attempts[a].seen[j]);
    }
  }

  lemma FreezeKeeps(s: State, t: nat, h: Help, i: nat)
    requires Inv(s) && t < |s.threads| && s.threads[t].pc == Freeze(h, i) && Freezes(s, h.id, i)
    ensures Inv(Move(Frozen(s, s.attempts[h.id].nodes[i], h.id), t, Freeze(h, i + 1)))
  {
    var n := s.attempts[h.id].nodes[i];
    var s1 := Frozen(s, n, h.id);
    HelpView(s, t);
    assert NodeInv(s, n) && TagInv(s, n, h.id);
    NotYetHeld(s, h.id, i);
    FreezeGrows(s, h.id, i);
    assert Inv(s1) by {
      hide HelpInv, Grows, View;
      assert NodeInv(s1, n);
      forall m ensures NodeInv(s1, m) { assert NodeInv(s, m); }
      forall m, a ensures TagInv(s1, m, a) { assert TagInv(s, m, a); FreezeTags(s, h.id, i, m, a); }
      FreezeRest(s, n, h.id);
    }
    UpToStable(s, s1, h.id, i);
    assert FrozenUpTo(s1, h.id, i + 1) by {
      assert FrozenAt(s1, h.id, i);
      hide FrozenAt;
    }
    hide Inv, Frozen, FrozenUpTo, EntriesOk;
    MoveKeeps(s1, t, Freeze(h, i + 1));
  }

  /** Attempts, descriptors and threads after a node has been frozen. */
  lemma FreezeRest(s: State, n: nat, id: Id)
    requires Inv(s) && n in s.nodes && Grows(s, Frozen(s, n, id))
    ensures forall a {:trigger AttemptInv(Frozen(s, n, id), a)} :: AttemptInv(Frozen(s, n, id), a)
    ensures forall u {:trigger DescInv(Frozen(s, n, id), u)} :: 0 <= u < |s.desc| ==> DescInv(Frozen(s, n, id), u)
    ensures forall u {:trigger ThreadInv(Frozen(s, n, id), u)} :: 0 <= u < |s.desc| ==> ThreadInv(Frozen(s, n, id), u)
  {
    var s' := Frozen(s, n, id);
    hide Grows, AttemptInv, ThreadInv;
    forall a ensures AttemptInv(s', a) { assert AttemptInv(s, a); AttemptStable(s, s', a); }
    forall u | 0 <= u < |s.desc| ensures DescInv(s', u) && ThreadInv(s', u) {
      assert DescInv(s, u);
      DescStable(s, s', u);
      ThreadStable(s, s', u);
    }
  }

  lemma FreezeStepKeeps(s: State, t: nat, s': State)
    requires Inv(s) && t < |s.threads| == |s.desc| && s.threads[t].pc.Freeze? && FreezeStep(s, t, s')
    ensures Inv(s')
  {
    var h, i := s.threads[t].pc.h, s.threads[t].pc.i;
    HelpView(s, t);
    var f := s.attempts[h.id];
    hide Inv, View, LinkOk, OwnerInv;
    if i >= f.count {
      assert AllFrozen(s, h.id) by { hide FrozenAt; }
      MoveKeeps(s, t, SetFrozen(h));
    } else if s.nodes[f.nodes[i]].ptr == f.seen[i] {
      FreezeKeeps(s, t, h, i);
    } else {
      assert LinkOk(s, Link(f.nodes[i], f.seen[i]));
      assert Replaced(s, f.nodes[i], f.seen[i]) by { GonePast(s, f.nodes[i], f.seen[i]); }
      MoveKeeps(s, t, Check(h, i));
    }
  }

  lemma GonePast(s: State, n: nat, tag: Tag)
    requires LinkOk(s, Link(n, tag)) && s.nodes[n].ptr != tag
    ensures Replaced(s, n, tag)
  {
  }

  /** The compare-and-swap failed because the handle is gone, and the node does not hold the tag now: either it
      never did, or the attempt is over. */
  lemma CheckKeeps(s: State, t: nat, s': State)
    requires Inv(s) && t < |s.threads| == |s.desc| && s.threads[t].pc.Check? && FreezeStep(s, t, s')
    ensures Inv(s')
  {
    var h, i := s.threads[t].pc.h, s.threads[t].pc.i;
    HelpView(s, t);
    var f := s.attempts[h.id];
    var n := f.nodes[i];
    assert TagInv(s, n, h.id);
    hide Inv, View, OwnerInv, AttemptInv;
    if s.nodes[n].ptr == Tag(h.id) {
      assert FrozenUpTo(s, h.id, i + 1) by { assert FrozenAt(s, h.id, i); hide FrozenAt; }
      MoveKeeps(s, t, Freeze(h, i + 1));
    } else {
      assert Blocked(s, h.id, i) || Over(s, h.id);
      MoveKeeps(s, t, ReadFrozen(h, i));
    }
  }

  lemma BlockedNotFrozen(s: State, id: Id, i: nat)
    requires Blocked(s, id, i)
    ensures Dead(s, id) && !AllFrozen(s, id)
  {
    assert !FrozenAt(s, id, i);
  }

  /** With the all-frozen bit set the attempt is committed by now; without it, it is dead. */
  lemma ReadFrozenKeeps(s: State, t: nat, s': State)
    requires Inv(s) && t < |s.threads| == |s.desc| && s.threads[t].pc.ReadFrozen? && FreezeStep(s, t, s')
    ensures Inv(s')
  {
    var h, i := s.threads[t].pc.h, s.threads[t].pc.i;
    HelpView(s, t);
    var id := h.id;
    assert DescInv(s, id.tid);
    if Blocked(s, id, i) { BlockedNotFrozen(s, id, i); }
    Exclusive(s, id);
    hide Inv, View, OwnerInv, Blocked, AllFrozen, Dead, AllMarked, EntriesOk;
    MoveKeeps(s, t, s'.threads[t].pc);
  }

  // ---------------------------------------------------------------- writing the mutables word

  /** A bit or the state of an attempt in progress is set, in its descriptor and in the history. */
  function Marked(s: State, id: Id, m: Mutables, frozen: set<Id>, committed: set<Id>, aborted: set<Id>): State
    requires id.tid < |s.desc|
  {
    SetMutables(s, id.tid, m).(frozen := s.frozen + frozen, committed := s.committed + committed, aborted := s.aborted + aborted)
  }

  lemma MarkedGrows(s: State, id: Id, m: Mutables, frozen: set<Id>, committed: set<Id>, aborted: set<Id>)
    requires id.tid < |s.desc| && m.num == s.desc[id.tid].m.num
    ensures Grows(s, Marked(s, id, m, frozen, committed, aborted))
  {
    var s' := Marked(s, id, m, frozen, committed, aborted);
    forall a, k: nat | Blocked(s, a, k) ensures Blocked(s', a, k) {}
  }

  lemma MarkedKeeps(s: State, id: Id, m: Mutables, frozen: set<Id>, committed: set<Id>, aborted: set<Id>)
    requires Inv(s) && id in s.attempts && id.tid < |s.desc| && m.num == s.desc[id.tid].m.num == id.num
    requires AttemptInv(Marked(s, id, m, frozen, committed, aborted), id)
    requires DescInv(Marked(s, id, m, frozen, committed, aborted), id.tid)
    requires frozen <= {id} && committed <= {id} && aborted <= {id}
    ensures Inv(Marked(s, id, m, frozen, committed, aborted))
  {
    var s' := Marked(s, id, m, frozen, committed, aborted);
    MarkedGrows(s, id, m, frozen, committed, aborted);
    assert AttemptInv(s, id);
    assert id.num % 2 == 1;
    hide Grows;
    forall n ensures NodeInv(s', n) { assert NodeInv(s, n); }
    forall n, a ensures TagInv(s', n, a) { assert TagInv(s, n, a); TagStable(s, s', n, a); }
    forall a ensures AttemptInv(s', a) {
      assert AttemptInv(s, a);
      if a != id { AttemptStable(s, s', a); }
    }
    forall u | 0 <= u < |s.desc| ensures DescInv(s', u) && ThreadInv(s', u) {
      assert DescInv(s, u);
      if u != id.tid { DescStable(s, s', u); }
      ThreadStable(s, s', u);
    }
    hide NodeInv, TagInv, AttemptInv, DescInv, ThreadInv;
  }

  /** The descriptor whose word a compare-and-swap is about to change. */
  lemma CasTarget(s: State, t: nat)
    requires Inv(s) && t < |s.threads| && (s.threads[t].pc.AbortCas? || s.threads[t].pc.FrozenCas? || s.threads[t].pc.CommitCas?)
    ensures var pc := s.threads[t].pc;
            && pc.h.id in s.attempts && pc.h.id.tid < |s.desc| && pc.v.num == pc.h.id.num && AttemptInv(s, pc.h.id)
            && HelpInv(s, pc) && DescInv(s, pc.h.id.tid) && Id(pc.h.id.tid, pc.v.num) == pc.h.id
            && (pc.h.own ==> pc.h.id.tid == t)
  {
    HelpView(s, t);
    assert DescInv(s, s.threads[t].pc.h.id.tid);
  }

  lemma AbortAttempt(s: State, id: Id, m: Mutables)
    requires AttemptInv(s, id) && Dead(s, id) && id in s.attempts && id.tid < |s.desc| && DescInv(s, id.tid)
    requires s.desc[id.tid].m == m && m.num == id.num
    ensures AttemptInv(Marked(s, id, m.(state := Aborted), {}, {}, {id}), id)
    ensures DescInv(Marked(s, id, m.(state := Aborted), {}, {}, {id}), id.tid)
  {
    var s' := Marked(s, id, m.(state := Aborted), {}, {}, {id});
    MarkedGrows(s, id, m.(state := Aborted), {}, {}, {id});
    UpToStable(s, s', id, 0);
    EntriesStable(s, s', s.attempts[id]);
    if AllFrozen(s, id) { FrozenNotDead(s, id); }
    hide Grows, EntriesOk, AllFrozen, Dead, AllMarked;
    assert id !in s.frozen && id !in s.committed;
  }

  lemma FreezeAttempt(s: State, id: Id, m: Mutables)
    requires AttemptInv(s, id) && AllFrozen(s, id) && id in s.attempts && id.tid < |s.desc| && DescInv(s, id.tid)
    requires s.desc[id.tid].m == m && m.num == id.num
    ensures AttemptInv(Marked(s, id, m.(allFrozen := true), {id}, {}, {}), id)
    ensures DescInv(Marked(s, id, m.(allFrozen := true), {id}, {}, {}), id.tid)
  {
    var s' := Marked(s, id, m.(allFrozen := true), {id}, {}, {});
    MarkedGrows(s, id, m.(allFrozen := true), {id}, {}, {});
    UpToStable(s, s', id, 0);
    MarkedStable(s, s', id, 0);
    EntriesStable(s, s', s.attempts[id]);
    hide Grows, EntriesOk, AllFrozen, Dead, AllMarked;
  }

  lemma CommitAttempt(s: State, id: Id, m: Mutables)
    requires AttemptInv(s, id) && id in s.frozen && AllMarked(s, id) && id in s.attempts && id.tid < |s.desc| && DescInv(s, id.tid)
    requires s.desc[id.tid].m == m && m.num == id.num
    ensures AttemptInv(Marked(s, id, m.(state := Committed), {}, {id}, {}), id)
    ensures DescInv(Marked(s, id, m.(state := Committed), {}, {id}, {}), id.tid)
  {
    var s' := Marked(s, id, m.(state := Committed), {}, {id}, {});
    MarkedGrows(s, id, m.(state := Committed), {}, {id}, {});
    UpToStable(s, s', id, 0);
    MarkedStable(s, s', id, 0);
    EntriesStable(s, s', s.attempts[id]);
    FrozenNotDead(s, id);
    hide Grows, EntriesOk, AllFrozen, Dead, AllMarked;
    assert id !in s.aborted;
  }

  lemma AbortCasKeeps(s: State, t: nat, h: Help, v: Mutables)
    requires Inv(s) && t < |s.threads| == |s.desc| && s.threads[t].pc == AbortCas(h, v)
    requires h.id.tid < |s.desc| && s.desc[h.id.tid].m == v
    ensures Inv(Move(Marked(s, h.id, v.(state := Aborted), {}, {}, {h.id}), t, AfterHelp(h, false)))
  {
    CasTarget(s, t);
    hide Inv, AttemptInv, DescInv, Dead;
    AbortAttempt(s, h.id, v);
    MarkedKeeps(s, h.id, v.(state := Aborted), {}, {}, {h.id});
    MoveKeeps(Marked(s, h.id, v.(state := Aborted), {}, {}, {h.id}), t, AfterHelp(h, false));
  }

  lemma FrozenCasKeeps(s: State, t: nat, h: Help, v: Mutables)
    requires Inv(s) && t < |s.threads| == |s.desc| && s.threads[t].pc == FrozenCas(h, v)
    requires h.id.tid < |s.desc| && s.desc[h.id.tid].m == v
    ensures Inv(Move(Marked(s, h.id, v.(allFrozen := true), {h.id}, {}, {}), t, Mark(h, 0)))
  {
    CasTarget(s, t);
    var s1 := Marked(s, h.id, v.(allFrozen := true), {h.id}, {}, {});
    NothingMarked(s1, h.id) by { assert Sized(s.attempts[h.id], s.max); }
    hide Inv, AttemptInv, DescInv, AllFrozen, MarkedUpTo;
    FreezeAttempt(s, h.id, v);
    MarkedKeeps(s, h.id, v.(allFrozen := true), {h.id}, {}, {});
    MoveKeeps(s1, t, Mark(h, 0));
  }

  lemma NothingMarked(s: State, id: Id)
    requires id in s.attempts && Sized(s.attempts[id], s.max)
    ensures MarkedUpTo(s, id, 0)
  {
  }

  lemma CommitCasKeeps(s: State, t: nat, h: Help, v: Mutables)
    requires Inv(s) && t < |s.threads| == |s.desc| && s.threads[t].pc == CommitCas(h, v)
    requires h.id.tid < |s.desc| && s.desc[h.id.tid].m == v
    ensures Inv(Move(Marked(s, h.id, v.(state := Committed), {}, {h.id}, {}), t, AfterHelp(h, true)))
  {
    CasTarget(s, t);
    hide Inv, AttemptInv, DescInv, AllMarked;
    CommitAttempt(s, h.id, v);
    MarkedKeeps(s, h.id, v.(state := Committed), {}, {h.id}, {});
    MoveKeeps(Marked(s, h.id, v.(state := Committed), {}, {h.id}, {}), t, AfterHelp(h, true));
  }

  /** A failed compare-and-swap starts over. */
  lemma RetryKeeps(s: State, t: nat, pc: Pc)
    requires Inv(s) && t < |s.threads| == |s.desc|
    requires var was := s.threads[t].pc;
             (was.AbortCas? && pc == Abort(was.h)) || (was.FrozenCas? && pc == SetFrozen(was.h)) || (was.CommitCas? && pc == Commit(was.h))
    ensures Inv(Move(s, t, pc))
  {
    CasTarget(s, t);
    hide Inv, AttemptInv, DescInv, AllMarked, AllFrozen, Dead;
    MoveKeeps(s, t, pc);
  }

  lemma CasKeeps(s: State, t: nat, s': State)
    requires Inv(s) && t < |s.threads| == |s.desc| && WriteStep(s, t, s')
    requires s.threads[t].pc.AbortCas? || s.threads[t].pc.FrozenCas? || s.threads[t].pc.CommitCas?
    ensures Inv(s')
  {
    var pc := s.threads[t].pc;
    var h, v := pc.h, pc.v;
    CasTarget(s, t);
    hide Inv, AttemptInv, DescInv, HelpInv;
    if s.desc[h.id.tid].m == v {
      assert s.frozen + {} == s.frozen && s.committed + {} == s.committed && s.aborted + {} == s.aborted;
      if pc.AbortCas? { AbortCasKeeps(s, t, h, v); }
      else if pc.FrozenCas? { FrozenCasKeeps(s, t, h, v); }
      else { CommitCasKeeps(s, t, h, v); }
    } else {
      RetryKeeps(s, t, s'.threads[t].pc);
    }
  }

  /** The word is read: the attempt may turn out to be over already. */
  lemma ReadMutablesFacts(s: State, t: nat)
    requires Inv(s) && t < |s.threads| && (s.threads[t].pc.Abort? || s.threads[t].pc.SetFrozen? || s.threads[t].pc.Commit?)
    ensures var h := s.threads[t].pc.h;
            && h.id in s.attempts && h.id.tid < |s.desc| && View(s, h) == Snap(h.id.num, s.attempts[h.id])
            && AttemptInv(s, h.id) && HelpInv(s, s.threads[t].pc)
            && (h.own ==> s.desc[h.id.tid].m.num == h.id.num)
            && (s.desc[h.id.tid].m.num == h.id.num ==> DescInv(s, h.id.tid) && Id(h.id.tid, s.desc[h.id.tid].m.num) == h.id)
            && (s.desc[h.id.tid].m.num != h.id.num ==> Over(s, h.id))
  {
    HelpView(s, t);
    assert DescInv(s, s.threads[t].pc.h.id.tid);
    hide HelpInv, View;
  }

  lemma AbortReadKeeps(s: State, t: nat, s': State)
    requires Inv(s) && t < |s.threads| == |s.desc| && WriteStep(s, t, s') && s.threads[t].pc.Abort?
    ensures Inv(s')
  {
    ReadMutablesFacts(s, t);
    hide Inv, AttemptInv, View, Dead;
    MoveKeeps(s, t, s'.threads[t].pc);
  }

  lemma FrozenReadKeeps(s: State, t: nat, s': State)
    requires Inv(s) && t < |s.threads| == |s.desc| && WriteStep(s, t, s') && s.threads[t].pc.SetFrozen?
    ensures Inv(s')
  {
    var id := s.threads[t].pc.h.id;
    ReadMutablesFacts(s, t);
    FrozenNotDead(s, id);
    assert id in s.aborted ==> Dead(s, id);
    assert id in s.committed ==> id in s.frozen;
    NothingMarked(s, id);
    hide Inv, AttemptInv, View, Dead, AllFrozen, MarkedUpTo;
    MoveKeeps(s, t, s'.threads[t].pc);
  }

  lemma CommitReadKeeps(s: State, t: nat, s': State)
    requires Inv(s) && t < |s.threads| == |s.desc| && WriteStep(s, t, s') && s.threads[t].pc.Commit?
    ensures Inv(s')
  {
    ReadMutablesFacts(s, t);
    hide Inv, AttemptInv, View, AllMarked;
    MoveKeeps(s, t, s'.threads[t].pc);
  }

  lemma WriteKeeps(s: State, t: nat, s': State)
    requires Inv(s) && t < |s.threads| == |s.desc| && WriteStep(s, t, s')
    ensures Inv(s')
  {
    var pc := s.threads[t].pc;
    assert pc.Abort? || pc.AbortCas? || pc.SetFrozen? || pc.FrozenCas? || pc.Commit? || pc.CommitCas?;
    hide Inv, WriteStep;
    if pc.Abort? { AbortReadKeeps(s, t, s'); }
    else if pc.SetFrozen? { FrozenReadKeeps(s, t, s'); }
    else if pc.Commit? { CommitReadKeeps(s, t, s'); }
    else { CasKeeps(s, t, s'); }
  }

  // ---------------------------------------------------------------- marking and updating

  /** A node is marked, or a value swapped: nothing else changes. */
  predicate Effect(s: State, s': State)
  {
    && s' == s.(nodes := s'.nodes, values := s'.values)
    && s'.nodes.Keys == s.nodes.Keys && s'.values.Keys == s.values.Keys
    && (forall n :: n in s.nodes ==> s'.nodes[n].ptr == s.nodes[n].ptr && s'.nodes[n].past == s.nodes[n].past
                                     && (s.nodes[n].marked ==> s'.nodes[n].marked))
  }

  lemma EffectGrows(s: State, s': State)
    requires Effect(s, s')
    ensures Grows(s, s')
    ensures forall n, tag :: (Held(s', n, tag) <==> Held(s, n, tag)) && (Replaced(s', n, tag) <==> Replaced(s, n, tag))
  {
    forall a, k: nat | Blocked(s, a, k) ensures Blocked(s', a, k) {}
  }

  lemma EffectKeeps(s: State, s': State)
    requires Inv(s) && Effect(s, s')
    ensures Inv(s')
  {
    EffectGrows(s, s');
    forall n ensures NodeInv(s', n) { assert NodeInv(s, n); }
    forall n, id ensures TagInv(s', n, id) { assert TagInv(s, n, id); TagStable(s, s', n, id); }
    forall id ensures AttemptInv(s', id) { assert AttemptInv(s, id); AttemptStable(s, s', id); }
    forall u | 0 <= u < |s.desc| ensures DescInv(s', u) && ThreadInv(s', u) {
      assert DescInv(s, u);
      DescStable(s, s', u);
      ThreadStable(s, s', u);
    }
    hide NodeInv, TagInv, AttemptInv, DescInv, ThreadInv, Grows;
  }

  lemma MarkedNext(s: State, s': State, id: Id, i: nat)
    requires Effect(s, s') && id in s.attempts && MarkedUpTo(s, id, i) && i < s.attempts[id].count
    requires s.attempts[id].fin[i] ==> s.attempts[id].nodes[i] in s'.nodes && s'.nodes[s.attempts[id].nodes[i]].marked
    ensures MarkedUpTo(s', id, i + 1)
  {
  }

  lemma EffectThenMove(s: State, s1: State, t: nat, pc: Pc)
    requires Inv(s) && Effect(s, s1) && t < |s.threads| && Helping(s.threads[t].pc) && Helping(pc) && pc.h == s.threads[t].pc.h
    requires HelpInv(s1, pc)
    ensures Inv(Move(s1, t, pc))
  {
    EffectKeeps(s, s1);
    hide Inv, Effect, HelpInv;
    MoveKeeps(s1, t, pc);
  }

  lemma EffectStepKeeps(s: State, t: nat, s': State)
    requires Inv(s) && t < |s.threads| == |s.desc| && EffectStep(s, t, s')
    ensures Inv(s')
  {
    var pc := s.threads[t].pc;
    var id := pc.h.id;
    HelpView(s, t);
    var s1 := s.(nodes := s'.nodes, values := s'.values);
    hide Inv, View, AttemptInv;
    assert Effect(s, s1);
    if pc.Mark? && pc.i < s.attempts[id].count { MarkedNext(s, s1, id, pc.i); }
    if pc.Mark? && pc.i >= s.attempts[id].count { assert AllMarked(s, id); }
    EffectGrows(s, s1);
    MarkedStable(s, s1, id, 0);
    hide MarkedUpTo, AllMarked, Grows, Effect;
    assert HelpInv(s1, s'.threads[t].pc);
    EffectThenMove(s, s1, t, s'.threads[t].pc);
  }

  // ---------------------------------------------------------------- every step

  lemma FreezeStepsKeep(s: State, t: nat, s': State)
    requires Inv(s) && t < |s.threads| == |s.desc| && FreezeStep(s, t, s')
    ensures Inv(s')
  {
    var pc := s.threads[t].pc;
    assert pc.Freeze? || pc.Check? || pc.ReadFrozen?;
    hide Inv, FreezeStep;
    if pc.Freeze? { FreezeStepKeeps(s, t, s'); } else if pc.Check? { CheckKeeps(s, t, s'); } else { ReadFrozenKeeps(s, t, s'); }
  }

  lemma NextKeeps(s: State, s': State)
    requires Inv(s) && Next(s, s')
    ensures Inv(s')
  {
    hide Inv, LlxStep, SnapshotStep, CallStep, PrepareStep, FreezeStep, WriteStep, EffectStep;
    var t: nat :| t < |s.threads| && ThreadStep(s, t, s');
    if LlxStep(s, t, s') { LlxKeeps(s, t, s'); }
    else if SnapshotStep(s, t, s') { SnapshotKeeps(s, t, s'); }
    else if CallStep(s, t, s') { CallKeeps(s, t, s'); }
    else if PrepareStep(s, t, s') { PrepareKeeps(s, t, s'); }
    else if FreezeStep(s, t, s') { FreezeStepsKeep(s, t, s'); }
    else if WriteStep(s, t, s') { WriteKeeps(s, t, s'); }
    else { EffectStepKeeps(s, t, s'); }
  }
}
