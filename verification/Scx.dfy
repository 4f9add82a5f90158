/** LLX and SCX over reusable descriptors: common/scx_provider.h with common/descriptors/descriptors_impl.h.

    An SCX attempt freezes several nodes by swapping its tag into each of them, then either commits or
    aborts; anyone may help. Each step makes one access to shared memory. Components marked history are
    never read by the algorithm. */
module Scx {

  /** One attempt of one thread. */
  datatype Id = Id(tid: nat, num: nat)

  /** What a node's `scxPtr` holds: the handle every node starts with, or the tag of an attempt. */
  datatype Tag = InitTag | Tag(id: Id)

  /** `past`, history, collects the tags the node held before. */
  datatype Node = Node(ptr: Tag, marked: bool, past: set<Tag>)

  datatype Progress = InProgress | Committed | Aborted

  /** The immutable fields of a descriptor. Only the first `count` entries of the arrays count. */
  datatype Fields = Fields(count: nat, nodes: seq<nat>, fin: seq<bool>, seen: seq<Tag>, field: int, oldVal: int, newVal: int)

  /** The `mutables` word: sequence number, all-frozen bit, state. */
  datatype Mutables = Mutables(num: nat, allFrozen: bool, state: Progress)

  datatype Desc = Desc(m: Mutables, f: Fields)

  /** A successful llx of `node` returned `tag`. */
  datatype Link = Link(node: nat, tag: Tag)

  /** The words of a descriptor. */
  datatype Loc = NumLoc | CountLoc | NodeLoc(i: nat) | FinLoc(i: nat) | SeenLoc(i: nat) | FieldLoc | OldLoc | NewLoc

  /** A copy of another thread's descriptor. */
  datatype Snap = Snap(num: nat, f: Fields)

  datatype Help = Help(id: Id, own: bool, snap: Snap)

  datatype Pc =
    | Ready
    | LlxMarked(n: nat) | LlxPtr(n: nat) | LlxState(n: nat, tag: Tag)
    | LlxUnmarked(n: nat, tag: Tag) | LlxAgain(n: nat, tag: Tag)
    | Copying(id: Id, got: set<Loc>, snap: Snap)
    | Clearing
    | Adding(l: Link, fin: bool, stage: nat)
    | Executing(field: int, oldVal: int, newVal: int, stage: nat)
    | Freeze(h: Help, i: nat) | Check(h: Help, i: nat) | ReadFrozen(h: Help, i: nat)
    | Abort(h: Help) | AbortCas(h: Help, v: Mutables)
    | SetFrozen(h: Help) | FrozenCas(h: Help, v: Mutables)
    | Mark(h: Help, i: nat) | Update(h: Help)
    | Commit(h: Help) | CommitCas(h: Help, v: Mutables)
    | Renewing(ok: bool) | Returned(ok: bool)

  /** `linked`: the results of this thread's successful llx calls, from which scxAddNode takes its argument. */
  datatype Thread = Thread(pc: Pc, linked: set<Link>)

  /** History: the fields of every attempt, and the attempts whose all-frozen bit was set, that were committed,
      that were aborted. */
  datatype State = State(
    max: nat, nodes: map<nat, Node>, values: map<int, int>, desc: seq<Desc>, threads: seq<Thread>,
    attempts: map<Id, Fields>, frozen: set<Id>, committed: set<Id>, aborted: set<Id>)

  // ---------------------------------------------------------------- small steps

  function Move(s: State, t: nat, pc: Pc): State
    requires t < |s.threads|
  {
    s.(threads := s.threads[t := s.threads[t].(pc := pc)])
  }

  function SetFields(s: State, t: nat, f: Fields): State
    requires t < |s.desc|
  {
    s.(desc := s.desc[t := s.desc[t].(f := f)])
  }

  function SetMutables(s: State, t: nat, m: Mutables): State
    requires t < |s.desc|
  {
    s.(desc := s.desc[t := s.desc[t].(m := m)])
  }

  /** The descriptor a helper works with: the owner's own, or a copy. */
  function View(s: State, h: Help): Snap
    requires h.id.tid < |s.desc|
  {
    if h.own then Snap(s.desc[h.id.tid].m.num, s.desc[h.id.tid].f) else h.snap
  }

  predicate Sized(f: Fields, max: nat) { |f.nodes| == |f.fin| == |f.seen| == max && f.count <= max }

  // ---------------------------------------------------------------- llx

  predicate LlxStep(s: State, t: nat, s': State)
    requires t < |s.threads| == |s.desc|
  {
    var x := s.threads[t];
    match x.pc
    case LlxMarked(n) => n in s.nodes && s' == Move(s, t, LlxPtr(n))
    case LlxPtr(n) => n in s.nodes && s' == Move(s, t, LlxState(n, s.nodes[n].ptr))
    case LlxState(n, tag) =>
      if tag == InitTag then s' == Move(s, t, LlxUnmarked(n, tag))  // the dummy descriptor is committed
      else
        tag.id.tid < |s.desc| &&
        var m := s.desc[tag.id.tid].m;
        s' == Move(s, t, if m.num != tag.id.num || m.state == Committed then LlxUnmarked(n, tag)
                         else if m.state == Aborted then LlxAgain(n, tag)
                         else Copying(tag.id, {}, EmptySnap(s.max)))
    case LlxUnmarked(n, tag) =>
      n in s.nodes && s' == Move(s, t, if s.nodes[n].marked then Ready else LlxAgain(n, tag))
    case LlxAgain(n, tag) =>
      n in s.nodes &&
      s' == if s.nodes[n].ptr == tag then s.(threads := s.threads[t := Thread(Ready, x.linked + {Link(n, tag)})])
            else Move(s, t, Ready)
    case _ => false
  }

  function EmptySnap(max: nat): Snap
  {
    Snap(0, Fields(0, seq(max, i => 0), seq(max, i => false), seq(max, i => InitTag), 0, 0, 0))
  }

  function CopyWord(dst: Snap, src: Desc, l: Loc): Snap
    requires |dst.f.nodes| == |dst.f.fin| == |dst.f.seen| == |src.f.nodes| == |src.f.fin| == |src.f.seen|
    requires l.NodeLoc? || l.FinLoc? || l.SeenLoc? ==> l.i < |src.f.nodes|
  {
    match l
    case NumLoc => dst.(num := src.m.num)
    case CountLoc => dst.(f := dst.f.(count := src.f.count))
    case NodeLoc(i) => dst.(f := dst.f.(nodes := dst.f.nodes[i := src.f.nodes[i]]))
    case FinLoc(i) => dst.(f := dst.f.(fin := dst.f.fin[i := src.f.fin[i]]))
    case SeenLoc(i) => dst.(f := dst.f.(seen := dst.f.seen[i := src.f.seen[i]]))
    case FieldLoc => dst.(f := dst.f.(field := src.f.field))
    case OldLoc => dst.(f := dst.f.(oldVal := src.f.oldVal))
    case NewLoc => dst.(f := dst.f.(newVal := src.f.newVal))
  }

  predicate IsLoc(l: Loc, max: nat) { l.NodeLoc? || l.FinLoc? || l.SeenLoc? ==> l.i < max }

  /** DESC1_SNAPSHOT: copy word by word in any order, then check the sequence number. */
  ghost predicate SnapshotStep(s: State, t: nat, s': State)
    requires t < |s.threads| == |s.desc|
  {
    var x := s.threads[t];
    && x.pc.Copying? && x.pc.id.tid < |s.desc|
    && var d := s.desc[x.pc.id.tid];
       && Sized(d.f, s.max) && |x.pc.snap.f.nodes| == |x.pc.snap.f.fin| == |x.pc.snap.f.seen| == s.max
       && ((exists l: Loc :: l !in x.pc.got && CopyStep(s, t, d, l, s'))
           || ((forall l: Loc :: IsLoc(l, s.max) ==> l in x.pc.got)
               && s' == Move(s, t, if d.m.num == x.pc.id.num then Freeze(Help(x.pc.id, false, x.pc.snap), 1) else Ready)))
  }

  predicate CopyStep(s: State, t: nat, d: Desc, l: Loc, s': State)
    requires t < |s.threads| == |s.desc| && s.threads[t].pc.Copying?
    requires |s.threads[t].pc.snap.f.nodes| == |s.threads[t].pc.snap.f.fin| == |s.threads[t].pc.snap.f.seen| == s.max && Sized(d.f, s.max)
  {
    var pc := s.threads[t].pc;
    IsLoc(l, s.max) && s' == Move(s, t, Copying(pc.id, pc.got + {l}, CopyWord(pc.snap, d, l)))
  }

  // ---------------------------------------------------------------- preparing an attempt

  /** A call of llx, scxInit, scxAddNode or scxExecute. A node is added at most once to an attempt, with a handle
      that an llx of it by this thread returned. */
  ghost predicate CallStep(s: State, t: nat, s': State)
    requires t < |s.threads| == |s.desc|
  {
    var x, f := s.threads[t], s.desc[t].f;
    && (x.pc.Ready? || x.pc.Returned?)
    && (|| (exists n: nat :: n in s.nodes && s' == Move(s, t, LlxMarked(n)))
        || s' == Move(s, t, Clearing)
        || (exists l: Link, fin: bool :: l in x.linked && f.count < s.max && Fresh(f, l.node) && s' == Move(s, t, Adding(l, fin, 0)))
        || (exists a: int, v: int, w: int :: a in s.values && s' == Move(s, t, Executing(a, v, w, 0))))
  }

  predicate Fresh(f: Fields, n: nat) { forall i :: 0 <= i < f.count && i < |f.nodes| ==> f.nodes[i] != n }

  /** The stores of scxInit, scxAddNode and scxExecute, DESC1_INITIALIZED at its end, and DESC1_NEW after an attempt. */
  predicate PrepareStep(s: State, t: nat, s': State)
    requires t < |s.threads| == |s.desc|
  {
    var x, d := s.threads[t], s.desc[t];
    var f := d.f;
    match x.pc
    case Clearing => s' == Move(SetFields(s, t, f.(count := 0)), t, Ready)
    case Adding(l, fin, stage) =>
      f.count < s.max && Sized(f, s.max) &&
      if stage == 0 then s' == Move(SetFields(s, t, f.(nodes := f.nodes[f.count := l.node])), t, Adding(l, fin, 1))
      else if stage == 1 then s' == Move(SetFields(s, t, f.(fin := f.fin[f.count := fin])), t, Adding(l, fin, 2))
      else if stage == 2 then s' == Move(SetFields(s, t, f.(seen := f.seen[f.count := l.tag])), t, Adding(l, fin, 3))
      else s' == Move(SetFields(s, t, f.(count := f.count + 1)), t, Ready)
    case Executing(a, v, w, stage) =>
      if stage == 0 then s' == Move(SetFields(s, t, f.(oldVal := v)), t, Executing(a, v, w, 1))
      else if stage == 1 then s' == Move(SetFields(s, t, f.(newVal := w)), t, Executing(a, v, w, 2))
      else if stage == 2 then s' == Move(SetFields(s, t, f.(field := a)), t, Executing(a, v, w, 3))
      else
        var id := Id(t, d.m.num + 1);
        s' == Move(SetMutables(s, t, d.m.(num := d.m.num + 1)), t, Freeze(Help(id, true, Snap(0, f)), 0))
              .(attempts := s.attempts[id := f])
    case Renewing(ok) => s' == Move(SetMutables(s, t, Mutables(d.m.num + 1, false, InProgress)), t, Returned(ok))
    case _ => false
  }

  // ---------------------------------------------------------------- help

  function AfterHelp(h: Help, ok: bool): Pc { if h.own then Renewing(ok) else Ready }

  /** The loop that freezes the nodes. */
  predicate FreezeStep(s: State, t: nat, s': State)
    requires t < |s.threads| == |s.desc|
  {
    var pc := s.threads[t].pc;
    && (pc.Freeze? || pc.Check? || pc.ReadFrozen?)
    && pc.h.id.tid < |s.desc|
    && var f, me := View(s, pc.h).f, Tag(pc.h.id);
       && Sized(f, s.max)
       && match pc
          case Freeze(h, i) =>
            if i >= f.count then s' == Move(s, t, SetFrozen(h))
            else
              var n := f.nodes[i];
              n in s.nodes &&
              s' == if s.nodes[n].ptr == f.seen[i] then
                      Move(s, t, Freeze(h, i + 1)).(nodes := s.nodes[n := s.nodes[n].(ptr := me, past := s.nodes[n].past + {s.nodes[n].ptr})])
                    else Move(s, t, Check(h, i))
          case Check(h, i) =>
            i < f.count && f.nodes[i] in s.nodes &&
            s' == Move(s, t, if s.nodes[f.nodes[i]].ptr == me then Freeze(h, i + 1) else ReadFrozen(h, i))
          case ReadFrozen(h, i) =>
            var m := s.desc[h.id.tid].m;
            s' == Move(s, t, if m.num != h.id.num then AfterHelp(h, false)
                             else if m.allFrozen then AfterHelp(h, true) else Abort(h))
          case _ => false
  }

  /** MUTABLES1_WRITE_FIELD and MUTABLES1_WRITE_BIT: read the word, leave if there is nothing to do, otherwise
      compare-and-swap it and start over if that fails. */
  predicate WriteStep(s: State, t: nat, s': State)
    requires t < |s.threads| == |s.desc|
  {
    var pc := s.threads[t].pc;
    && (pc.Abort? || pc.AbortCas? || pc.SetFrozen? || pc.FrozenCas? || pc.Commit? || pc.CommitCas?)
    && pc.h.id.tid < |s.desc|
    && var o, num := pc.h.id.tid, View(s, pc.h).num;
       var m := s.desc[o].m;
       match pc
       case Abort(h) => s' == Move(s, t, if m.num != num || m.state == Aborted then AfterHelp(h, false) else AbortCas(h, m))
       case AbortCas(h, v) =>
         s' == if m == v then Move(SetMutables(s, o, v.(state := Aborted)), t, AfterHelp(h, false)).(aborted := s.aborted + {Id(o, v.num)})
               else Move(s, t, Abort(h))
       case SetFrozen(h) => s' == Move(s, t, if m.num != num || m.allFrozen then Mark(h, 0) else FrozenCas(h, m))
       case FrozenCas(h, v) =>
         s' == if m == v then Move(SetMutables(s, o, v.(allFrozen := true)), t, Mark(h, 0)).(frozen := s.frozen + {Id(o, v.num)})
               else Move(s, t, SetFrozen(h))
       case Commit(h) => s' == Move(s, t, if m.num != num || m.state == Committed then AfterHelp(h, true) else CommitCas(h, m))
       case CommitCas(h, v) =>
         s' == if m == v then Move(SetMutables(s, o, v.(state := Committed)), t, AfterHelp(h, true)).(committed := s.committed + {Id(o, v.num)})
               else Move(s, t, Commit(h))
       case _ => false
  }

  /** Marking the nodes to finalize, and the update compare-and-swap. */
  predicate EffectStep(s: State, t: nat, s': State)
    requires t < |s.threads| == |s.desc|
  {
    var pc := s.threads[t].pc;
    && (pc.Mark? || pc.Update?)
    && pc.h.id.tid < |s.desc|
    && var f := View(s, pc.h).f;
       && Sized(f, s.max)
       && match pc
          case Mark(h, i) =>
            if i >= f.count then s' == Move(s, t, Update(h))
            else if f.fin[i] then
              f.nodes[i] in s.nodes &&
              s' == Move(s, t, Mark(h, i + 1)).(nodes := s.nodes[f.nodes[i] := s.nodes[f.nodes[i]].(marked := true)])
            else s' == Move(s, t, Mark(h, i + 1))
          case Update(h) =>
            f.field in s.values &&
            s' == if s.values[f.field] == f.oldVal then Move(s, t, Commit(h)).(values := s.values[f.field := f.newVal])
                  else Move(s, t, Commit(h))
          case _ => false
  }

  // ---------------------------------------------------------------- the machine

  ghost predicate ThreadStep(s: State, t: nat, s': State)
    requires t < |s.threads| == |s.desc|
  {
    || LlxStep(s, t, s') || SnapshotStep(s, t, s') || CallStep(s, t, s') || PrepareStep(s, t, s')
    || FreezeStep(s, t, s') || WriteStep(s, t, s') || EffectStep(s, t, s')
  }

  ghost predicate Next(s: State, s': State)
  {
    |s.threads| == |s.desc| && exists t: nat :: t < |s.threads| && ThreadStep(s, t, s')
  }

  ghost predicate Init(s: State)
  {
    && |s.threads| == |s.desc|
    && (forall n :: n in s.nodes ==> s.nodes[n] == Node(InitTag, false, {}))
    && (forall t :: 0 <= t < |s.desc| ==> s.desc[t] == Desc(Mutables(2, false, InProgress), EmptySnap(s.max).f))
    && (forall t :: 0 <= t < |s.threads| ==> s.threads[t] == Thread(Ready, {}))
    && s.attempts == map[] && s.frozen == {} && s.committed == {} && s.aborted == {}
  }
}
