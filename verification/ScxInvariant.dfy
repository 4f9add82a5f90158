/** What every reachable state of the LLX/SCX machine satisfies. */
module ScxInvariant {
  import opened Scx

  // ---------------------------------------------------------------- facts about attempts that stay true

  predicate Held(s: State, n: nat, tag: Tag) { n in s.nodes && (s.nodes[n].ptr == tag || tag in s.nodes[n].past) }

  predicate Replaced(s: State, n: nat, tag: Tag) { n in s.nodes && tag in s.nodes[n].past }

  predicate Over(s: State, id: Id) { id in s.committed || id in s.aborted }

  predicate IsEntry(s: State, id: Id, i: nat) { id in s.attempts && Sized(s.attempts[id], s.max) && i < s.attempts[id].count }

  /** The attempt has frozen its `i`-th node at some time. */
  predicate FrozenAt(s: State, id: Id, i: nat)
  {
    IsEntry(s, id, i) && Held(s, s.attempts[id].nodes[i], Tag(id))
  }

  /** The attempt has not frozen its `i`-th node and never will: the handle it expects there is gone. */
  predicate Blocked(s: State, id: Id, i: nat)
  {
    && IsEntry(s, id, i) && Replaced(s, s.attempts[id].nodes[i], s.attempts[id].seen[i])
    && !Held(s, s.attempts[id].nodes[i], Tag(id))
  }

  ghost predicate Dead(s: State, id: Id) { exists i: nat :: Blocked(s, id, i) }

  predicate FrozenUpTo(s: State, id: Id, k: nat)
  {
    id in s.attempts && forall i: nat :: i < k && i < s.attempts[id].count ==> FrozenAt(s, id, i)
  }

  predicate AllFrozen(s: State, id: Id) { id in s.attempts && FrozenUpTo(s, id, s.attempts[id].count) }

  predicate Finalizes(f: Fields, n: nat)
  {
    exists i :: 0 <= i < f.count && i < |f.nodes| && i < |f.fin| && f.nodes[i] == n && f.fin[i]
  }

  predicate MarkedUpTo(s: State, id: Id, k: nat)
  {
    id in s.attempts && Sized(s.attempts[id], s.max) &&
    forall i: nat :: i < k && i < s.attempts[id].count && s.attempts[id].fin[i] ==>
      s.attempts[id].nodes[i] in s.nodes && s.nodes[s.attempts[id].nodes[i]].marked
  }

  predicate AllMarked(s: State, id: Id) { id in s.attempts && MarkedUpTo(s, id, s.attempts[id].count) }

  /** The attempt behind a handle that llx has returned is over and has not finalized the node. */
  predicate Spent(s: State, n: nat, tag: Tag)
  {
    tag.Tag? ==> tag.id in s.attempts && Over(s, tag.id) && (tag.id in s.aborted || !Finalizes(s.attempts[tag.id], n))
  }

  predicate LinkOk(s: State, l: Link) { Held(s, l.node, l.tag) && Spent(s, l.node, l.tag) }

  // ---------------------------------------------------------------- nodes, attempts, descriptors

  ghost predicate TagInv(s: State, n: nat, id: Id)
  {
    && (Held(s, n, Tag(id)) ==>
         && FrozenAt(s, id, 0)
         && exists i: nat :: IsEntry(s, id, i) && s.attempts[id].nodes[i] == n && Replaced(s, n, s.attempts[id].seen[i]))
    && (Replaced(s, n, Tag(id)) ==> Spent(s, n, Tag(id)))
  }

  predicate NodeInv(s: State, n: nat) { n in s.nodes ==> s.nodes[n].ptr !in s.nodes[n].past }

  predicate EntriesOk(s: State, f: Fields)
  {
    && Sized(f, s.max)
    && (forall i :: 0 <= i < f.count ==> LinkOk(s, Link(f.nodes[i], f.seen[i])))
    && (forall i, j :: 0 <= i < j < f.count ==> f.nodes[i] != f.nodes[j])
  }

  ghost predicate AttemptInv(s: State, id: Id)
  {
    && (id in s.attempts ==>
         && EntriesOk(s, s.attempts[id]) && s.attempts[id].field in s.values
         && id.tid < |s.desc| && id.num % 2 == 1 && id.num <= s.desc[id.tid].m.num
         && (id.num < s.desc[id.tid].m.num ==> Over(s, id)))
    && (id in s.frozen ==> AllFrozen(s, id))
    && (id in s.aborted ==> Dead(s, id))
    && (id in s.committed ==> id in s.frozen && AllMarked(s, id))
  }

  predicate DescInv(s: State, t: nat)
    requires t < |s.desc|
  {
    var d, id := s.desc[t], Id(t, s.desc[t].m.num);
    && Sized(d.f, s.max)
    && (d.m.num % 2 == 1 ==> id in s.attempts && s.attempts[id] == d.f)
    && (d.m.allFrozen <==> id in s.frozen)
    && (d.m.state == Committed <==> id in s.committed)
    && (d.m.state == Aborted <==> id in s.aborted)
  }

  // ---------------------------------------------------------------- threads

  predicate Helping(pc: Pc)
  {
    || pc.Freeze? || pc.Check? || pc.ReadFrozen? || pc.Abort? || pc.AbortCas? || pc.SetFrozen? || pc.FrozenCas?
    || pc.Mark? || pc.Update? || pc.Commit? || pc.CommitCas?
  }

  predicate Own(pc: Pc) { Helping(pc) && pc.h.own }

  /** What is known of the attempt being helped, at each point of `help`. */
  ghost predicate HelpInv(s: State, pc: Pc)
    requires Helping(pc)
  {
    var id := pc.h.id;
    && id in s.attempts && (!pc.h.own ==> pc.h.snap == Snap(id.num, s.attempts[id]))
    && match pc
       case Freeze(_, i) => FrozenUpTo(s, id, i)
       case Check(_, i) => FrozenUpTo(s, id, i) && IsEntry(s, id, i) && Replaced(s, s.attempts[id].nodes[i], s.attempts[id].seen[i])
       case ReadFrozen(_, i) => Blocked(s, id, i) || (Over(s, id) && IsEntry(s, id, i))
       case Abort(_) => Dead(s, id)
       case AbortCas(_, v) => Dead(s, id) && v.num == id.num
       case SetFrozen(_) => AllFrozen(s, id)
       case FrozenCas(_, v) => AllFrozen(s, id) && v.num == id.num
       case Mark(_, i) => id in s.frozen && MarkedUpTo(s, id, i)
       case Update(_) => id in s.frozen && AllMarked(s, id)
       case Commit(_) => id in s.frozen && AllMarked(s, id)
       case CommitCas(_, v) => id in s.frozen && AllMarked(s, id) && v.num == id.num
       case _ => true
  }

  /** `l` has been copied and the copy is right. */
  predicate SameWord(snap: Snap, num: nat, f: Fields, l: Loc)
    requires |snap.f.nodes| == |snap.f.fin| == |snap.f.seen| == |f.nodes| == |f.fin| == |f.seen|
    requires IsLoc(l, |f.nodes|)
  {
    match l
    case NumLoc => snap.num == num
    case CountLoc => snap.f.count == f.count
    case NodeLoc(i) => snap.f.nodes[i] == f.nodes[i]
    case FinLoc(i) => snap.f.fin[i] == f.fin[i]
    case SeenLoc(i) => snap.f.seen[i] == f.seen[i]
    case FieldLoc => snap.f.field == f.field
    case OldLoc => snap.f.oldVal == f.oldVal
    case NewLoc => snap.f.newVal == f.newVal
  }

  predicate CopyInv(s: State, id: Id, got: set<Loc>, snap: Snap)
  {
    && FrozenAt(s, id, 0) && id.tid < |s.desc|
    && |snap.f.nodes| == |snap.f.fin| == |snap.f.seen| == s.max
    && (s.desc[id.tid].m.num == id.num ==>
         forall l {:trigger l in got} :: l in got && IsLoc(l, s.max) ==> SameWord(snap, id.num, s.attempts[id], l))
  }

  ghost predicate PcInv(s: State, pc: Pc)
  {
    match pc
    case LlxMarked(n) => n in s.nodes
    case LlxPtr(n) => n in s.nodes
    case LlxState(n, tag) => Held(s, n, tag)
    case LlxUnmarked(n, tag) => Held(s, n, tag) && (tag.Tag? ==> tag.id in s.attempts && Over(s, tag.id))
    case LlxAgain(n, tag) => Held(s, n, tag) && Spent(s, n, tag)
    case Copying(id, got, snap) => CopyInv(s, id, got, snap)
    case Adding(l, _, _) => LinkOk(s, l)
    case Executing(a, _, _, _) => a in s.values
    case _ => Helping(pc) ==> HelpInv(s, pc)
  }

  /** The owner's side: the descriptor is odd exactly while an attempt is under way. */
  ghost predicate OwnerInv(s: State, t: nat)
    requires t < |s.threads| == |s.desc|
  {
    var pc, d := s.threads[t].pc, s.desc[t];
    var id := Id(t, d.m.num);
    && (d.m.num % 2 == 1 <==> Own(pc) || pc.Renewing?)
    && (Own(pc) ==> pc.h.id == id)
    && (pc.Renewing? ==> if pc.ok then id in s.committed else id in s.aborted)
    && (d.m.num % 2 == 0 ==> d.m.state == InProgress && !d.m.allFrozen && EntriesOk(s, d.f))
    && (pc.Returned? ==> 0 < d.m.num && Id(t, d.m.num - 1) in s.attempts
                         && if pc.ok then Id(t, d.m.num - 1) in s.committed else Id(t, d.m.num - 1) in s.aborted)
    && (pc.Adding? ==>
         && d.f.count < s.max && Fresh(d.f, pc.l.node) && Sized(d.f, s.max)
         && (pc.stage >= 1 ==> d.f.nodes[d.f.count] == pc.l.node)
         && (pc.stage >= 3 ==> d.f.seen[d.f.count] == pc.l.tag))
    && (pc.Executing? && pc.stage >= 3 ==> d.f.field == pc.field)
  }

  ghost predicate ThreadInv(s: State, t: nat)
    requires t < |s.threads| == |s.desc|
  {
    && OwnerInv(s, t) && PcInv(s, s.threads[t].pc)
    && forall l :: l in s.threads[t].linked ==> LinkOk(s, l)
  }

  ghost predicate Inv(s: State)
  {
    && |s.threads| == |s.desc|
    && (forall n {:trigger NodeInv(s, n)} :: NodeInv(s, n))
    && (forall n, id {:trigger TagInv(s, n, id)} :: TagInv(s, n, id))
    && (forall id {:trigger AttemptInv(s, id)} :: AttemptInv(s, id))
    && (forall t {:trigger DescInv(s, t)} :: 0 <= t < |s.desc| ==> DescInv(s, t))
    && (forall t {:trigger ThreadInv(s, t)} :: 0 <= t < |s.desc| ==> ThreadInv(s, t))
  }

  // ---------------------------------------------------------------- what every step respects

  ghost predicate Grows(s: State, s': State)
  {
    && s'.max == s.max && |s'.threads| == |s.threads| && |s'.desc| == |s.desc|
    && s'.nodes.Keys == s.nodes.Keys && s'.values.Keys == s.values.Keys
    && s.frozen <= s'.frozen && s.committed <= s'.committed && s.aborted <= s'.aborted
    && (forall id :: id in s.attempts ==> id in s'.attempts && s'.attempts[id] == s.attempts[id])
    && (forall n, tag {:trigger Held(s', n, tag)} {:trigger Held(s, n, tag)} :: Held(s, n, tag) ==> Held(s', n, tag))
    && (forall n, tag {:trigger Replaced(s', n, tag)} {:trigger Replaced(s, n, tag)} :: Replaced(s, n, tag) ==> Replaced(s', n, tag))
    && (forall n :: n in s.nodes && s.nodes[n].marked ==> n in s'.nodes && s'.nodes[n].marked)
    && (forall id, i {:trigger Blocked(s', id, i)} {:trigger Blocked(s, id, i)} :: Blocked(s, id, i) ==> Blocked(s', id, i))
    && (forall t :: 0 <= t < |s.desc| ==> s.desc[t].m.num <= s'.desc[t].m.num)
  }

  lemma EntryStable(s: State, s': State, id: Id, i: nat)
    requires Grows(s, s')
    ensures IsEntry(s, id, i) ==> IsEntry(s', id, i)
    ensures FrozenAt(s, id, i) ==> FrozenAt(s', id, i)
  {
    hide Held;
  }

  lemma UpToStable(s: State, s': State, id: Id, k: nat)
    requires Grows(s, s')
    ensures FrozenUpTo(s, id, k) ==> FrozenUpTo(s', id, k)
    ensures AllFrozen(s, id) ==> AllFrozen(s', id)
    ensures Dead(s, id) ==> Dead(s', id)
  {
    if id in s.attempts {
      forall i: nat ensures FrozenAt(s, id, i) ==> FrozenAt(s', id, i) { EntryStable(s, s', id, i); }
    }
    hide FrozenAt, Blocked;
    if Dead(s, id) {
      var i: nat :| Blocked(s, id, i);
      assert Blocked(s', id, i);
    }
  }

  lemma MarkedStable(s: State, s': State, id: Id, k: nat)
    requires Grows(s, s')
    ensures MarkedUpTo(s, id, k) ==> MarkedUpTo(s', id, k)
    ensures AllMarked(s, id) ==> AllMarked(s', id)
  {
  }

  lemma SpentStable(s: State, s': State, n: nat, tag: Tag)
    requires Grows(s, s')
    ensures Spent(s, n, tag) ==> Spent(s', n, tag)
    ensures LinkOk(s, Link(n, tag)) ==> LinkOk(s', Link(n, tag))
  {
    hide Finalizes;
  }

  lemma EntriesStable(s: State, s': State, f: Fields)
    requires Grows(s, s') && EntriesOk(s, f)
    ensures EntriesOk(s', f)
  {
    forall i | 0 <= i < f.count ensures LinkOk(s', Link(f.nodes[i], f.seen[i])) { SpentStable(s, s', f.nodes[i], f.seen[i]); }
    hide LinkOk;
  }

  lemma HelpStable(s: State, s': State, pc: Pc)
    requires Grows(s, s') && Helping(pc) && HelpInv(s, pc)
    ensures HelpInv(s', pc)
  {
    var id := pc.h.id;
    var i := if pc.Freeze? || pc.Check? || pc.ReadFrozen? || pc.Mark? then pc.i else 0;
    UpToStable(s, s', id, i);
    MarkedStable(s, s', id, i);
    EntryStable(s, s', id, i);
    hide FrozenUpTo, AllFrozen, Dead, MarkedUpTo, AllMarked, Held, Blocked, Replaced, Sized;
  }

  lemma CopyStable(s: State, s': State, id: Id, got: set<Loc>, snap: Snap)
    requires Grows(s, s') && CopyInv(s, id, got, snap) && AttemptInv(s, id)
    ensures CopyInv(s', id, got, snap)
  {
    EntryStable(s, s', id, 0);
    hide Held, SameWord, Dead, AllFrozen, AllMarked, EntriesOk;
  }

  lemma PcStable(s: State, s': State, pc: Pc)
    requires Grows(s, s') && PcInv(s, pc) && (pc.Copying? ==> AttemptInv(s, pc.id))
    ensures PcInv(s', pc)
  {
    if pc.LlxUnmarked? || pc.LlxAgain? { SpentStable(s, s', pc.n, pc.tag); }
    else if pc.Adding? { SpentStable(s, s', pc.l.node, pc.l.tag); }
    else if Helping(pc) { HelpStable(s, s', pc); }
    else if pc.Copying? { CopyStable(s, s', pc.id, pc.got, pc.snap); }
    hide HelpInv, CopyInv, Held, Spent, LinkOk, Blocked, Replaced;
  }

  lemma LinkedStable(s: State, s': State, links: set<Link>)
    requires Grows(s, s') && forall l :: l in links ==> LinkOk(s, l)
    ensures forall l :: l in links ==> LinkOk(s', l)
  {
    forall l | l in links ensures LinkOk(s', l) { SpentStable(s, s', l.node, l.tag); }
  }
}
