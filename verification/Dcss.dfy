/** Double-compare single-swap with reusable descriptors: common/dcss/dcss_impl.h over
    common/descriptors/descriptors_impl2.h.

    Every thread owns one descriptor, which it overwrites for each operation; a sequence number in the
    descriptor, even while it is being rewritten, tells operations apart. Each step makes one access to
    shared memory. Components marked history are never read by the algorithm. */
module Dcss {

  /** One operation of one thread: what a tagged pointer names. */
  datatype Id = Id(tid: nat, num: nat)

  /** The contents of a data word: a value with the tag bit clear, or a tagged pointer. */
  datatype Word = Val(v: int) | Tag(id: Id)

  datatype OpState = Undecided | Succeeded | Failed

  /** The immutable fields of a descriptor, in the order they are written. */
  const ADDR1: nat := 0
  const OLD1: nat := 1
  const ADDR2: nat := 2
  const OLD2: nat := 3
  const NEW2: nat := 4
  const FIELDS: nat := 5

  /** `num`, the sequence number, and `state` make up the `mutables` word. */
  datatype Desc = Desc(num: nat, state: OpState, f: seq<int>)

  datatype Op = NoOp | DcssOp(args: seq<int>) | ReadOp(addr: int)

  datatype Result = Success | FailedAddr1(v: int) | FailedAddr2(v: int) | ReadValue(v: int) | Ignored

  /** Helping operation `id`; `snap` is the copy of the descriptor that a helper of another thread works
      with, its last word the copied sequence number. The owner works on the descriptor itself. */
  datatype Help = Help(id: Id, own: bool, snap: seq<int>)

  datatype Pc =
    | Idle
    | New
    | Filling(k: nat)
    | Attempt
    | Copying(id: Id, got: set<nat>, snap: seq<int>)
    | ReadAddr1(h: Help)
    | ReadMutables(h: Help, val1: int)
    | CasState(h: Help, val1: int)
    | Cleanup(h: Help, val1: int, ok: bool)
    | Returned(res: Result)

  datatype Thread = Thread(op: Op, pc: Pc)

  /** `control` holds the words compared only, `data` the words that are swapped. History: the fields each
      operation published, the operations whose tag was installed, how each was decided, and those whose
      tag has been removed again. */
  datatype State = State(
    control: map<int, int>, data: map<int, Word>, desc: seq<Desc>, threads: seq<Thread>,
    published: map<Id, seq<int>>, installed: set<Id>, decided: map<Id, bool>, removed: set<Id>)

  // ---------------------------------------------------------------- steps of one thread

  /** One word of a descriptor as memcpy sees it. */
  function DescWord(d: Desc, k: nat): int
    requires |d.f| == FIELDS
  {
    if k < FIELDS then d.f[k] else d.num
  }

  /** The words a helper works with. */
  function Words(s: State, h: Help): seq<int>
    requires h.id.tid < |s.desc|
  {
    if h.own then s.desc[h.id.tid].f + [s.desc[h.id.tid].num] else h.snap
  }

  function Move(s: State, t: nat, pc: Pc): State
    requires t < |s.threads|
  {
    s.(threads := s.threads[t := s.threads[t].(pc := pc)])
  }

  function SetDesc(s: State, t: nat, d: Desc): State
    requires t < |s.desc|
  {
    s.(desc := s.desc[t := d])
  }

  predicate BeginStep(s: State, t: nat, op: Op, s': State)
    requires t < |s.threads|
  {
    && (s.threads[t].pc.Idle? || s.threads[t].pc.Returned?)
    && match op
       case NoOp => false
       case DcssOp(args) =>
         |args| == FIELDS && args[ADDR1] in s.control && args[ADDR2] in s.data && s' == s.(threads := s.threads[t := Thread(op, New)])
       case ReadOp(addr) => addr in s.data && s' == s.(threads := s.threads[t := Thread(op, Attempt)])
  }

  /** DESC_NEW, the five stores, DESC_INITIALIZED. */
  predicate PrepareStep(s: State, t: nat, s': State)
    requires t < |s.threads| == |s.desc|
  {
    var d, x := s.desc[t], s.threads[t];
    match x.pc
    case New => s' == Move(SetDesc(s, t, d.(num := d.num + 1, state := Undecided)), t, Filling(0))
    case Filling(k) =>
      x.op.DcssOp? && |x.op.args| == FIELDS && |d.f| == FIELDS &&
      if k < FIELDS then s' == Move(SetDesc(s, t, d.(f := d.f[k := x.op.args[k]])), t, Filling(k + 1))
      else s' == Move(SetDesc(s, t, d.(num := d.num + 1)), t, Attempt).(published := s.published[Id(t, d.num + 1) := d.f])
    case _ => false
  }

  const NO_WORDS: seq<int> := [0, 0, 0, 0, 0, 0]

  /** The compare-and-swap that installs the tag, or the read of dcssRead. */
  predicate AttemptStep(s: State, t: nat, s': State)
    requires t < |s.threads| == |s.desc|
  {
    var d, x := s.desc[t], s.threads[t];
    x.pc.Attempt? &&
    match x.op
    case NoOp => false
    case DcssOp(_) =>
      |d.f| == FIELDS && d.f[ADDR2] in s.data &&
      (match s.data[d.f[ADDR2]]
       case Tag(id) => s' == Move(s, t, Copying(id, {}, NO_WORDS))
       case Val(v) =>
         if v == d.f[OLD2] then
           s' == Move(s, t, ReadAddr1(Help(Id(t, d.num), true, [])))
                 .(data := s.data[d.f[ADDR2] := Tag(Id(t, d.num))], installed := s.installed + {Id(t, d.num)})
         else s' == Move(s, t, Returned(FailedAddr2(v))))
    case ReadOp(addr) =>
      addr in s.data &&
      (match s.data[addr]
       case Tag(id) => s' == Move(s, t, Copying(id, {}, NO_WORDS))
       case Val(v) => s' == Move(s, t, Returned(ReadValue(v))))
  }

  /** DESC_SNAPSHOT: memcpy, one word at a time in any order, then the check of the sequence number. */
  ghost predicate SnapshotStep(s: State, t: nat, s': State)
    requires t < |s.threads| == |s.desc|
  {
    var x := s.threads[t];
    && x.pc.Copying? && x.pc.id.tid < |s.desc| && |s.desc[x.pc.id.tid].f| == FIELDS && |x.pc.snap| == FIELDS + 1
    && var d := s.desc[x.pc.id.tid];
       || (exists k: nat :: k <= FIELDS && k !in x.pc.got
             && s' == Move(s, t, Copying(x.pc.id, x.pc.got + {k}, x.pc.snap[k := DescWord(d, k)])))
       || ((forall k: nat :: k <= FIELDS ==> k in x.pc.got)
             && s' == Move(s, t, if d.num == x.pc.id.num then ReadAddr1(Help(x.pc.id, false, x.pc.snap)) else Attempt))
  }

  /** dcssHelp returns: the owner's operation is over, a helper goes back to its own. */
  function AfterHelp(h: Help, res: Result): Pc { if h.own then Returned(res) else Attempt }

  /** dcssHelp. */
  predicate HelpStep(s: State, t: nat, s': State)
    requires t < |s.threads| == |s.desc|
  {
    var x := s.threads[t];
    && (x.pc.ReadAddr1? || x.pc.ReadMutables? || x.pc.CasState? || x.pc.Cleanup?)
    && x.pc.h.id.tid < |s.desc|
    && var o := x.pc.h.id.tid;
       var d, w := s.desc[o], Words(s, x.pc.h);
       |w| == FIELDS + 1 &&
       match x.pc
       case ReadAddr1(h) => w[ADDR1] in s.control && s' == Move(s, t, ReadMutables(h, s.control[w[ADDR1]]))
       case ReadMutables(h, val1) =>
         s' == Move(s, t, if d.num != w[FIELDS] then AfterHelp(h, Ignored) else CasState(h, val1))
       case CasState(h, val1) =>
         // the compare-and-swap covers the whole mutables word; a failed one returns whatever state is there
         if d.num == w[FIELDS] && d.state == Undecided then
           s' == Move(SetDesc(s, o, d.(state := if val1 == w[OLD1] then Succeeded else Failed)), t, Cleanup(h, val1, val1 == w[OLD1]))
                 .(decided := s.decided[h.id := val1 == w[OLD1]])
         else if d.state != Undecided then s' == Move(s, t, Cleanup(h, val1, d.state == Succeeded))
         else s' == Move(s, t, AfterHelp(h, Ignored))
       case Cleanup(h, val1, ok) =>
         w[ADDR2] in s.data &&
         var next := Move(s, t, AfterHelp(h, if ok then Success else FailedAddr1(val1)));
         if s.data[w[ADDR2]] == Tag(h.id) then
           s' == next.(data := s.data[w[ADDR2] := Val(if ok then w[NEW2] else w[OLD2])], removed := s.removed + {h.id})
         else s' == next
       case _ => false
  }

  // ---------------------------------------------------------------- the machine

  ghost predicate ThreadStep(s: State, t: nat, s': State)
    requires t < |s.threads| == |s.desc|
  {
    || (exists op :: BeginStep(s, t, op, s'))
    || PrepareStep(s, t, s') || AttemptStep(s, t, s') || SnapshotStep(s, t, s') || HelpStep(s, t, s')
  }

  predicate StoreControl(s: State, a: int, v: int, s': State)
  {
    a in s.control && s' == s.(control := s.control[a := v])
  }

  predicate StoreData(s: State, a: int, v: int, s': State)
  {
    a in s.data && s.data[a].Val? && s' == s.(data := s.data[a := Val(v)])
  }

  /** The rest of the program may change a control word at any time, and a data word that holds a value. */
  ghost predicate OutsideStep(s: State, s': State)
  {
    exists a: int, v: int :: StoreControl(s, a, v, s') || StoreData(s, a, v, s')
  }

  ghost predicate Next(s: State, s': State)
  {
    |s.threads| == |s.desc| && (OutsideStep(s, s') || exists t: nat :: t < |s.threads| && ThreadStep(s, t, s'))
  }

  ghost predicate Init(s: State)
  {
    && |s.threads| == |s.desc|
    && (forall t :: 0 <= t < |s.desc| ==> s.desc[t] == Desc(1, Undecided, [0, 0, 0, 0, 0]))
    && (forall t :: 0 <= t < |s.threads| ==> s.threads[t] == Thread(NoOp, Idle))
    && (forall a :: a in s.data ==> s.data[a].Val?)
    && s.published == map[] && s.installed == {} && s.decided == map[] && s.removed == {}
  }

  // ---------------------------------------------------------------- the invariant

  function Current(s: State, t: nat): Id
    requires t < |s.desc|
  {
    Id(t, s.desc[t].num)
  }

  predicate Helping(pc: Pc) { pc.ReadAddr1? || pc.ReadMutables? || pc.CasState? || pc.Cleanup? }

  /** The owner is finishing its own operation. */
  predicate Own(pc: Pc) { Helping(pc) && pc.h.own }

  /** The operation in progress has not been installed yet. */
  predicate Before(x: Thread) { x.op.DcssOp? && (x.pc.Attempt? || x.pc.Copying? || (Helping(x.pc) && !x.pc.h.own)) }

  /** The descriptor says what is known of its current operation. */
  predicate DescInv(s: State, t: nat)
    requires t < |s.desc|
  {
    var d, id := s.desc[t], Current(s, t);
    && |d.f| == FIELDS
    && (id in s.published ==> d.f == s.published[id])
    && (d.state == Undecided <==> id !in s.decided)
    && (d.state == Succeeded <==> id in s.decided && s.decided[id])
  }

  predicate OwnerInv(s: State, t: nat)
    requires t < |s.threads| == |s.desc|
  {
    var d, x, id := s.desc[t], s.threads[t], Current(s, t);
    && |d.f| == FIELDS
    && (x.pc.New? || x.pc.Filling? || Own(x.pc) ==> x.op.DcssOp?)
    && (x.op.DcssOp? ==> |x.op.args| == FIELDS && x.op.args[ADDR1] in s.control && x.op.args[ADDR2] in s.data)
    && (x.op.ReadOp? ==> x.op.addr in s.data)
    && (x.op.NoOp? ==> x.pc.Idle?) && (x.pc.Idle? ==> x.op.NoOp?)
    && (if x.pc.Filling? then d.num % 2 == 0 && x.pc.k <= FIELDS && (forall j :: 0 <= j < x.pc.k ==> d.f[j] == x.op.args[j])
        else d.num % 2 == 1)
    && (Before(x) || Own(x.pc) || (x.op.DcssOp? && x.pc.Returned?) ==>
          id in s.published && s.published[id] == x.op.args && d.f == x.op.args)
    && (Before(x) ==> id !in s.installed)
    && (Own(x.pc) ==> x.pc.h.id == id && id in s.installed && (x.pc.Cleanup? ==> id in s.decided && s.decided[id] == x.pc.ok))
    && (x.op.DcssOp? && x.pc.Returned? ==>
          match x.pc.res
          case Success => id in s.decided && s.decided[id]
          case FailedAddr1(_) => id in s.decided && !s.decided[id]
          case FailedAddr2(v) => id !in s.installed && v != x.op.args[OLD2]
          case ReadValue(_) => false
          case Ignored => false)
  }

  /** What a thread that helps another one's operation knows. */
  predicate HelperInv(s: State, t: nat)
    requires t < |s.threads| == |s.desc|
  {
    var x := s.threads[t];
    && (x.pc.Copying? ==>
          && KnownId(s, x.pc.id) && |x.pc.snap| == FIELDS + 1
          && (s.desc[x.pc.id.tid].num == x.pc.id.num ==>
                forall k: nat :: k <= FIELDS && k in x.pc.got ==> x.pc.snap[k] == PublishedWord(s, x.pc.id, k)))
    && (Helping(x.pc) && !x.pc.h.own ==>
          && KnownId(s, x.pc.h.id) && x.pc.h.snap == s.published[x.pc.h.id] + [x.pc.h.id.num]
          && (x.pc.Cleanup? ==>
                s.desc[x.pc.h.id.tid].num != x.pc.h.id.num || (x.pc.h.id in s.decided && s.decided[x.pc.h.id] == x.pc.ok)))
  }

  /** An operation whose tag has been in memory. */
  predicate KnownId(s: State, id: Id)
  {
    && id.tid < |s.desc| && id in s.installed && id in s.published && |s.published[id]| == FIELDS
    && id.num <= s.desc[id.tid].num
  }

  function PublishedWord(s: State, id: Id, k: nat): int
    requires id in s.published && |s.published[id]| == FIELDS
  {
    if k < FIELDS then s.published[id][k] else id.num
  }

  predicate DataInv(s: State, a: int)
    requires a in s.data
  {
    s.data[a].Tag? ==>
      var id := s.data[a].id;
      KnownId(s, id) && s.published[id][ADDR2] == a && id !in s.removed
  }

  /** An installed operation still has its tag in memory and its owner at work on it, or its tag has been
      removed after the decision. */
  predicate IdInv(s: State, id: Id)
    requires |s.threads| == |s.desc|
  {
    && (id in s.installed ==>
          && KnownId(s, id) && s.published[id][ADDR1] in s.control && s.published[id][ADDR2] in s.data
          && (id !in s.removed ==>
                Own(s.threads[id.tid].pc) && s.desc[id.tid].num == id.num && s.data[s.published[id][ADDR2]] == Tag(id)))
    && (id in s.decided ==> id in s.installed)
    && (id in s.removed ==> id in s.decided)
    && (id in s.published ==> id.tid < |s.desc| && id.num <= s.desc[id.tid].num && id.num % 2 == 1)
  }

  ghost predicate Inv(s: State)
  {
    && |s.threads| == |s.desc|
    && (forall t {:trigger DescInv(s, t)} :: 0 <= t < |s.desc| ==> DescInv(s, t))
    && (forall t {:trigger OwnerInv(s, t)} :: 0 <= t < |s.desc| ==> OwnerInv(s, t))
    && (forall t {:trigger HelperInv(s, t)} :: 0 <= t < |s.desc| ==> HelperInv(s, t))
    && (forall a {:trigger DataInv(s, a)} :: a in s.data ==> DataInv(s, a))
    && (forall id {:trigger IdInv(s, id)} :: IdInv(s, id))
  }
}
