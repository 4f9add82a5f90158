/** Hazard pointers: common/recordmgr/reclaimer_hazardptr.h over the array lists of common/recordmgr/arraylist.h
    and the hash set of common/recordmgr/hashtable.h. */
module HazardPointers {
  import opened Basics
  import opened ProbingSet

  const MAX_HAZARDPTRS_PER_THREAD: nat := 16

  /** The list after its `ix`-th element is overwritten by the last one, which is dropped. */
  function Erased(s: seq<Record>, ix: nat): seq<Record>
    requires ix < |s|
  {
    s[ix := s[|s| - 1]][..|s| - 1]
  }

  /** Erasing loses exactly one occurrence of the erased element and nothing else. */
  lemma ErasedElements(s: seq<Record>, ix: nat)
    requires ix < |s|
    ensures multiset(s) == multiset(Erased(s, ix)) + multiset{s[ix]}
  {
    var n, last := |s| - 1, s[|s| - 1];
    if ix == n {
      assert s == Erased(s, ix) + [last];
    } else {
      assert s == s[..ix] + [s[ix]] + s[ix + 1..n] + [last];
      assert Erased(s, ix) == s[..ix] + [last] + s[ix + 1..n];
    }
  }

  predicate Distinct(s: seq<Record>) { forall i, j :: 0 <= i < j < |s| ==> s[i] != s[j] }

  lemma ErasedDistinct(s: seq<Record>, ix: nat)
    requires ix < |s| && Distinct(s)
    ensures Distinct(Erased(s, ix)) && s[ix] !in Erased(s, ix)
  {
  }

  /** ArrayList, and AtomicArrayList as its only writer uses it. */
  class ArrayList {
    const capacity: nat
    const data: array<Record>
    var size: nat

    ghost predicate Valid()
      reads this
    {
      data.Length == capacity && size <= capacity
    }

    ghost function Contents(): seq<Record>
      reads this, data
      requires Valid()
    {
      data[..size]
    }

    constructor (capacity: nat)
      ensures Valid() && fresh(data) && this.capacity == capacity && Contents() == []
    {
      this.capacity := capacity;
      data := new Record[capacity](i => 1);
      size := 0;
    }

    method Get(ix: nat) returns (obj: Record)
      requires Valid() && ix < size
      ensures obj == Contents()[ix]
    {
      obj := data[ix];
    }

    method Add(obj: Record)
      requires Valid() && size < capacity
      modifies this`size, data
      ensures Valid() && Contents() == old(Contents()) + [obj]
    {
      data[size] := obj;
      size := size + 1;
    }

    method EraseAt(ix: nat)
      requires Valid() && ix < size
      modifies this`size, data
      ensures Valid() && Contents() == Erased(old(Contents()), ix)
    {
      size := size - 1;
      data[ix] := data[size];
    }

    method GetIndex(obj: Record) returns (ix: int)
      requires Valid()
      ensures ix == -1 ==> obj !in Contents()
      ensures ix != -1 ==> 0 <= ix < size && Contents()[ix] == obj && obj !in Contents()[..ix]
    {
      var i := 0;
      while i < size
        invariant i <= size && obj !in Contents()[..i]
      {
        if data[i] == obj { return i; }
        i := i + 1;
      }
      return -1;
    }

    method Contains(obj: Record) returns (found: bool)
      requires Valid()
      ensures found <==> obj in Contents()
    {
      var ix := GetIndex(obj);
      found := ix != -1;
    }

    /** Erases one occurrence, if there is one. */
    method Erase(obj: Record)
      requires Valid()
      modifies this`size, data
      ensures Valid() && multiset(Contents()) == multiset(old(Contents())) - multiset{obj}
    {
      var ix := GetIndex(obj);
      if ix != -1 {
        ErasedElements(Contents(), ix);
        EraseAt(ix);
      }
    }

    method Clear()
      requires Valid()
      modifies this`size
      ensures Valid() && Contents() == []
    {
      size := 0;
    }

    method IsFull() returns (full: bool)
      requires Valid()
      ensures full <==> |Contents()| == capacity
    {
      full := size == capacity;
    }
  }

  // ---------------------------------------------------------------- counting

  function Items(s: seq<Record>): set<Record> { set r | r in s }

  lemma {:induction false} ItemsSize(s: seq<Record>)
    ensures |Items(s)| <= |s|
    ensures Distinct(s) ==> |Items(s)| == |s|
  {
    if s != [] {
      var front, last := s[..|s| - 1], s[|s| - 1];
      ItemsSize(front);
      assert s == front + [last];
      assert Items(s) == Items(front) + {last};
    }
  }

  /** What the threads announce, thread by thread. */
  function Announced(lists: seq<seq<Record>>): set<Record>
  {
    if lists == [] then {} else Announced(lists[..|lists| - 1]) + Items(lists[|lists| - 1])
  }

  lemma OneMore(n: nat, bound: nat)
    ensures (n + 1) * bound == n * bound + bound
  {
  }

  lemma UnionSize(a: set<Record>, b: set<Record>)
    ensures |a + b| <= |a| + |b|
  {
    assert a + b == a + (b - a);
    SubsetSize(b - a, b);
  }

  lemma {:induction false} AnnouncedSize(lists: seq<seq<Record>>, bound: nat)
    requires forall i :: 0 <= i < |lists| ==> |lists[i]| <= bound
    ensures |Announced(lists)| <= |lists| * bound
  {
    if lists != [] {
      var front, last := lists[..|lists| - 1], lists[|lists| - 1];
      AnnouncedSize(front, bound);
      ItemsSize(last);
      OneMore(|front|, bound);
      UnionSize(Announced(front), Items(last));
    }
  }

  lemma AnnouncedNext(lists: seq<seq<Record>>, k: nat)
    requires k < |lists|
    ensures Announced(lists[..k + 1]) == Announced(lists[..k]) + Items(lists[k])
  {
    assert lists[..k + 1][..k] == lists[..k];
  }

  /** The contents of the announcement lists. */
  ghost function ListsOf(announce: seq<ArrayList>): (r: seq<seq<Record>>)
    reads announce, set l | l in announce :: l.data
    requires forall l :: l in announce ==> l.Valid()
    ensures |r| == |announce| && forall i :: 0 <= i < |announce| ==> r[i] == announce[i].Contents()
  {
    if announce == [] then [] else ListsOf(announce[..|announce| - 1]) + [announce[|announce| - 1].Contents()]
  }

  lemma ListsBounded(announce: seq<ArrayList>)
    requires forall l :: l in announce ==> l.Valid() && l.capacity == MAX_HAZARDPTRS_PER_THREAD
    ensures forall i :: 0 <= i < |announce| ==> |ListsOf(announce)[i]| <= MAX_HAZARDPTRS_PER_THREAD
  {
    forall i | 0 <= i < |announce| ensures |ListsOf(announce)[i]| <= MAX_HAZARDPTRS_PER_THREAD {
      assert announce[i] in announce;
    }
  }

  /** Every thread announces fewer records than its list can hold. */
  predicate NoneFull(lists: seq<seq<Record>>)
  {
    forall i :: 0 <= i < |lists| ==> |lists[i]| < MAX_HAZARDPTRS_PER_THREAD
  }

  /** The debug assertion of the scan, for every thread's list: it is stricter than what a list accepts. */
  method SizesChecked(announce: seq<ArrayList>) returns (checked: bool)
    requires forall l :: l in announce ==> l.Valid()
    ensures checked <==> NoneFull(ListsOf(announce))
  {
    checked := true;
    ghost var lists := ListsOf(announce);
    for tid := 0 to |announce|
      invariant checked <==> forall i :: 0 <= i < tid ==> |lists[i]| < MAX_HAZARDPTRS_PER_THREAD
    {
      assert announce[tid] in announce && |lists[tid]| == announce[tid].size;
      checked := checked && announce[tid].size < MAX_HAZARDPTRS_PER_THREAD;
    }
  }

  /** A thread's own lists and arrays are not among those that announce. */
  predicate Apart(l: ArrayList, retired: ArrayList, comparing: HashSet)
  {
    l != retired && l.data != retired.data && (l.data as object) != (comparing.keys as object)
  }

  // ---------------------------------------------------------------- the scan, on values

  /** After a scan: what is announced stays, what is not announced goes to the pool. */
  predicate Scanned(before: seq<Record>, after: seq<Record>, freed: seq<Record>, announced: set<Record>)
  {
    && multiset(before) == multiset(after) + multiset(freed)
    && (forall r :: r in after ==> r in announced)
    && (forall r :: r in freed ==> r !in announced)
  }

  /** Records are retired at most once, so what survives a scan is no more than what is announced. */
  lemma SurvivorsFewerThanAnnounced(after: seq<Record>, lists: seq<seq<Record>>, bound: nat)
    requires Distinct(after) && (forall r :: r in after ==> r in Announced(lists))
    requires forall i :: 0 <= i < |lists| ==> |lists[i]| <= bound
    ensures |after| <= |lists| * bound
  {
    ItemsSize(after);
    AnnouncedSize(lists, bound);
    SubsetSize(Items(after), Announced(lists));
  }

  lemma AfterScan(before: seq<Record>, after: seq<Record>, freed: seq<Record>, lists: seq<seq<Record>>, n: nat)
    requires Scanned(before, after, freed, Announced(lists)) && Distinct(after) && 0 < n == |lists|
    requires forall i :: 0 <= i < |lists| ==> |lists[i]| <= MAX_HAZARDPTRS_PER_THREAD
    ensures |after| <= MAX_HAZARDPTRS_PER_THREAD * n < 5 * n * MAX_HAZARDPTRS_PER_THREAD
    ensures multiset(before) == multiset(after) + multiset(freed)
    ensures (forall r :: r in after ==> r in Announced(lists)) && (forall r :: r in freed ==> r !in Announced(lists))
  {
    SurvivorsFewerThanAnnounced(after, lists, MAX_HAZARDPTRS_PER_THREAD);
  }

  // ---------------------------------------------------------------- one thread's reclaimer

  /** What one thread uses: everybody's announcements, its own retired list and comparison set, and the pool it
      hands records to. */
  class Reclaimer {
    const announce: seq<ArrayList>
    const retired: ArrayList
    const comparing: HashSet
    var pool: seq<Record>

    ghost predicate Shape()
      reads announce, retired, comparing
    {
      && 0 < |announce|
      && retired.capacity == 5 * |announce| * MAX_HAZARDPTRS_PER_THREAD
      && (forall l :: l in announce ==> l.Valid() && l.capacity == MAX_HAZARDPTRS_PER_THREAD && Apart(l, retired, comparing))
      && (retired.data as object) != (comparing.keys as object)
    }

    ghost predicate Valid()
      reads this, announce, retired, retired.data, comparing, comparing.keys
    {
      && Shape()
      && retired.Valid() && retired.size < retired.capacity && Distinct(retired.Contents())
      && comparing.Valid() && 2 * |announce| * MAX_HAZARDPTRS_PER_THREAD <= comparing.keys.Length
      && comparing.count <= |announce| * MAX_HAZARDPTRS_PER_THREAD
    }

    constructor (numProcesses: nat, hash: Record -> int)
      requires 0 < numProcesses
      ensures Valid() && |announce| == numProcesses && pool == [] && retired.Contents() == []
      ensures forall l :: l in announce ==> l.Contents() == []
    {
      var lists: seq<ArrayList> := [];
      var r := new ArrayList(5 * numProcesses * MAX_HAZARDPTRS_PER_THREAD);
      while |lists| < numProcesses
        invariant |lists| <= numProcesses && r.Valid() && r.Contents() == [] && fresh(r) && fresh(r.data)
        invariant r.capacity == 5 * numProcesses * MAX_HAZARDPTRS_PER_THREAD
        invariant forall l :: l in lists ==> fresh(l) && fresh(l.data) && l.Valid() && l.capacity == MAX_HAZARDPTRS_PER_THREAD
                                             && l != r && l.data != r.data && l.Contents() == []
      {
        var l := new ArrayList(MAX_HAZARDPTRS_PER_THREAD);
        lists := lists + [l];
      }
      var c := new HashSet(numProcesses * MAX_HAZARDPTRS_PER_THREAD, hash);
      announce, retired, comparing, pool := lists, r, c, [];
    }

    ghost function Hazards(): set<Record>
      reads announce, set l | l in announce :: l.data
      requires forall l :: l in announce ==> l.Valid()
    {
      Announced(ListsOf(announce))
    }

    /** Hash all announcements. */
    method Collect()
      requires Shape() && comparing.Valid() && 2 * |announce| * MAX_HAZARDPTRS_PER_THREAD <= comparing.keys.Length
      modifies comparing, comparing.keys
      ensures comparing.Valid() && comparing.Contents() == Hazards() == old(Hazards())
      ensures comparing.count <= |announce| * MAX_HAZARDPTRS_PER_THREAD
    {
      ghost var lists := ListsOf(announce);
      ListsBounded(announce);
      comparing.Clear();
      var tid := 0;
      while tid < |announce|
        invariant tid <= |announce| && comparing.Valid() && lists == ListsOf(announce)
        invariant comparing.Contents() == Announced(lists[..tid])
      {
        RoomFor(lists, tid);
        HashAnnouncements(comparing, announce[tid]);
        AnnouncedNext(lists, tid);
        tid := tid + 1;
      }
      assert lists[..tid] == lists;
      AnnouncedSize(lists, MAX_HAZARDPTRS_PER_THREAD);
    }

    /** Send every retired record that is not in the comparison set to the pool, compacting the list. */
    method FreeUnannounced()
      requires retired.Valid() && comparing.Valid() && comparing.count < comparing.keys.Length && Distinct(retired.Contents())
      modifies this`pool, retired`size, retired.data
      ensures retired.Valid() && Distinct(retired.Contents())
      ensures old(pool) <= pool
      ensures Scanned(old(retired.Contents()), retired.Contents(), pool[|old(pool)|..], comparing.Contents())
    {
      ghost var before, announced := retired.Contents(), comparing.Contents();
      ghost var freed: seq<Record> := [];
      hide Distinct, Elements, Table;
      var ix := 0;
      while ix < retired.size
        invariant retired.Valid() && ix <= retired.size && Distinct(retired.Contents())
        invariant pool == old(pool) + freed && comparing.Valid() && comparing.Contents() == announced
        invariant multiset(before) == multiset(retired.Contents()) + multiset(freed)
        invariant forall k :: 0 <= k < ix ==> retired.Contents()[k] in announced
        invariant forall r :: r in freed ==> r !in announced
        decreases retired.size - ix
      {
        var r := retired.Get(ix);
        var found := comparing.Contains(r);
        if found {
          ix := ix + 1;
        } else {
          ErasedElements(retired.Contents(), ix);
          ErasedDistinct(retired.Contents(), ix);
          pool := pool + [r];
          retired.EraseAt(ix);
          freed := freed + [r];
        }
      }
      assert pool[|old(pool)|..] == freed;
    }

    /** Scan everybody's announcements and free what is not among them. */
    method Scan() returns (checked: bool)
      requires Shape() && retired.Valid() && Distinct(retired.Contents())
      requires comparing.Valid() && 2 * |announce| * MAX_HAZARDPTRS_PER_THREAD <= comparing.keys.Length
      modifies this`pool, retired`size, retired.data, comparing, comparing.keys
      ensures retired.Valid() && Distinct(retired.Contents()) && old(pool) <= pool
      ensures comparing.Valid() && comparing.count <= |announce| * MAX_HAZARDPTRS_PER_THREAD
      ensures Scanned(old(retired.Contents()), retired.Contents(), pool[|old(pool)|..], old(Hazards()))
      ensures checked <==> NoneFull(old(ListsOf(announce)))
    {
      hide Announced, ListsOf, Scanned;
      checked := SizesChecked(announce);
      Collect();
      FreeUnannounced();
    }

    /** Retire a record. No record that is announced reaches the pool, none is lost or duplicated, and after a scan
        at most 16 records per thread of the 80 the list holds remain, so the list never overflows. The debug
        assertion of the scan holds exactly if no thread announces as many records as its list holds. */
    method Retire(p: Record) returns (checked: bool)
      requires Valid() && p !in retired.Contents()
      modifies this`pool, retired, retired.data, comparing, comparing.keys
      ensures Valid() && old(pool) <= pool
      ensures multiset(old(retired.Contents())) + multiset{p} == multiset(retired.Contents()) + multiset(pool[|old(pool)|..])
      ensures Hazards() == old(Hazards()) && forall r :: r in pool[|old(pool)|..] ==> r !in Hazards()
      ensures |old(retired.Contents())| + 1 < retired.capacity ==> pool == old(pool) && retired.Contents() == old(retired.Contents()) + [p]
      ensures |old(retired.Contents())| + 1 == retired.capacity ==>
                (forall r :: r in retired.Contents() ==> r in Hazards()) && |retired.Contents()| <= MAX_HAZARDPTRS_PER_THREAD * |announce|
      ensures checked <==> |old(retired.Contents())| + 1 < retired.capacity || NoneFull(old(ListsOf(announce)))
    {
      hide Scanned, Announced, ListsOf, NoneFull, Elements, Table;
      ghost var lists := ListsOf(announce);
      ListsBounded(announce);
      retired.Add(p);
      var full := retired.IsFull();
      ghost var all := retired.Contents();
      assert multiset(all) == multiset(old(retired.Contents())) + multiset{p};
      if full {
        checked := Scan();
        AfterScan(all, retired.Contents(), pool[|old(pool)|..], lists, |announce|);
      } else {
        checked := true;
        assert pool[|old(pool)|..] == [];
      }
    }
  }

  /** There is room for what the next thread announces. */
  lemma RoomFor(lists: seq<seq<Record>>, tid: nat)
    requires tid < |lists| && forall i :: 0 <= i < |lists| ==> |lists[i]| <= MAX_HAZARDPTRS_PER_THREAD
    ensures |Announced(lists[..tid])| + |lists[tid]| <= |lists| * MAX_HAZARDPTRS_PER_THREAD
  {
    AnnouncedSize(lists[..tid], MAX_HAZARDPTRS_PER_THREAD);
    assert (tid + 1) * MAX_HAZARDPTRS_PER_THREAD <= |lists| * MAX_HAZARDPTRS_PER_THREAD;
  }

  lemma NoItems(s: seq<Record>)
    requires s == []
    ensures Items(s) == {}
  {
  }

  lemma ItemsNext(s: seq<Record>, k: nat)
    requires k < |s|
    ensures Items(s[..k + 1]) == Items(s[..k]) + {s[k]}
  {
    assert s[..k + 1] == s[..k] + [s[k]];
  }

  method HashOne(hashed: HashSet, other: ArrayList, ix: nat)
    requires hashed.Valid() && other.Valid() && ix < other.size && hashed.count + 1 < hashed.keys.Length
    modifies hashed, hashed.keys
    ensures hashed.Valid() && hashed.count <= old(hashed.count) + 1
    ensures hashed.Contents() == old(hashed.Contents()) + {other.Contents()[ix]}
    ensures other.Valid() && other.Contents() == old(other.Contents())
  {
    var hp := other.Get(ix);
    hashed.Insert(hp);
  }

  /** Hash one thread's announcements. */
  method HashAnnouncements(hashed: HashSet, other: ArrayList)
    requires hashed.Valid() && other.Valid() && hashed.count + other.size < hashed.keys.Length
    modifies hashed, hashed.keys
    ensures hashed.Valid() && hashed.Contents() == old(hashed.Contents()) + Items(other.Contents())
  {
    var sz := other.size;
    var ix := 0;
    ghost var s, before := other.Contents(), hashed.Contents();
    ghost var seen: set<Record> := {};
    hide Items, Elements, Table;
    NoItems(s[..0]);
    while ix < sz
      invariant ix <= sz == other.size == |s| && other.Valid() && other.Contents() == s
      invariant hashed.Valid() && hashed.count <= old(hashed.count) + ix
      invariant seen == Items(s[..ix]) && hashed.Contents() == before + seen
    {
      ItemsNext(s, ix);
      HashOne(hashed, other, ix);
      assert (before + seen) + {s[ix]} == before + (seen + {s[ix]});
      seen := seen + {s[ix]};
      ix := ix + 1;
    }
    assert s[..sz] == s;
  }

  /** A full announcement list, which adding to it has allowed, fails the assertion. */
  method FullListFails() returns (checked: bool)
    ensures !checked
  {
    var list := new ArrayList(MAX_HAZARDPTRS_PER_THREAD);
    while list.size < MAX_HAZARDPTRS_PER_THREAD
      invariant fresh(list) && fresh(list.data) && list.Valid() && list.capacity == MAX_HAZARDPTRS_PER_THREAD
      decreases MAX_HAZARDPTRS_PER_THREAD - list.size
    {
      list.Add(1);
    }
    checked := SizesChecked([list]);
    assert |ListsOf([list])[0]| == MAX_HAZARDPTRS_PER_THREAD;
  }
}
