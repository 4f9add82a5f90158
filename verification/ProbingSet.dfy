/** The linear-probing hash set of common/recordmgr/hashtable.h (`hashset_new`). */
module ProbingSet {

  /** Records are pointers; zero is the null pointer and marks an empty cell. */
  type Record = r: nat | 0 < r witness 1

  const EMPTY: nat := 0

  const MIN_TABLE_SIZE: nat := 32

  ghost predicate PowerOfTwo(n: nat)
    decreases n
  {
    n == 1 || (n % 2 == 0 && 0 < n && PowerOfTwo(n / 2))
  }

  /** The table size for a given number of elements: a power of two, so that masking is taking a remainder. */
  method TableSizeFor(numberOfElements: nat) returns (size: nat)
    ensures MIN_TABLE_SIZE <= size && 2 * numberOfElements <= size && PowerOfTwo(size)
    ensures size == MIN_TABLE_SIZE || size < 4 * numberOfElements
  {
    size := MIN_TABLE_SIZE;
    assert PowerOfTwo(2) && PowerOfTwo(4) && PowerOfTwo(8) && PowerOfTwo(16) && PowerOfTwo(32);
    while size < 2 * numberOfElements
      invariant MIN_TABLE_SIZE <= size && PowerOfTwo(size)
      invariant size == MIN_TABLE_SIZE || size < 4 * numberOfElements
      decreases 2 * numberOfElements - size
    {
      assert (2 * size) / 2 == size;
      size := 2 * size;
    }
  }

  /** The cell after `ix`, wrapping around. */
  function NextIndex(ix: nat, size: nat): (r: nat)
    requires ix < size
    ensures r < size
  {
    if ix + 1 == size then 0 else ix + 1
  }

  /** The cell `d` steps after `first`. */
  function Probe(first: nat, d: nat, size: nat): (r: nat)
    requires first < size && d <= size
    ensures r < size
  {
    if first + d < size then first + d else first + d - size
  }

  /** The number of steps from `first` to `ix`. */
  function Distance(first: nat, ix: nat, size: nat): (d: nat)
    requires first < size && ix < size
    ensures d < size && Probe(first, d, size) == ix
  {
    if first <= ix then ix - first else ix + size - first
  }

  /** Every key can be found from its first cell without meeting an empty one, and no key is there twice. */
  ghost predicate Reachable(keys: seq<nat>, first: Record -> nat, ix: nat)
    requires ix < |keys| && keys[ix] != EMPTY && first(keys[ix]) < |keys|
  {
    forall d :: 0 <= d < Distance(first(keys[ix]), ix, |keys|) ==> keys[Probe(first(keys[ix]), d, |keys|)] != EMPTY
  }

  ghost predicate Table(keys: seq<nat>, first: Record -> nat)
  {
    && 0 < |keys|
    && (forall k: Record :: first(k) < |keys|)
    && (forall i {:trigger Reachable(keys, first, i)} :: 0 <= i < |keys| && keys[i] != EMPTY ==> Reachable(keys, first, i))
    && (forall i, j :: 0 <= i < j < |keys| && keys[i] == keys[j] ==> keys[i] == EMPTY)
  }

  /** What the table stands for. */
  function Elements(keys: seq<nat>): set<Record>
  {
    set i | 0 <= i < |keys| && keys[i] != EMPTY :: keys[i]
  }

  /** The key's cell is the first one of its probe sequence that holds it, or is empty. */
  ghost predicate CellOf(keys: seq<nat>, first: Record -> nat, key: Record, ix: nat)
  {
    && ix < |keys| && first(key) < |keys| && (keys[ix] == EMPTY || keys[ix] == key)
    && forall d :: 0 <= d < Distance(first(key), ix, |keys|) ==> keys[Probe(first(key), d, |keys|)] != EMPTY
                                                                 && keys[Probe(first(key), d, |keys|)] != key
  }

  /** A key that is in the table is in its cell. */
  lemma OnlyCell(keys: seq<nat>, first: Record -> nat, key: Record, ix: nat, j: nat)
    requires Table(keys, first) && CellOf(keys, first, key, ix) && j < |keys| && keys[j] == key
    ensures j == ix
  {
    assert Reachable(keys, first, j);
    var dj, di := Distance(first(key), j, |keys|), Distance(first(key), ix, |keys|);
    assert Probe(first(key), dj, |keys|) == j && Probe(first(key), di, |keys|) == ix;
  }

  /** If the key's cell is empty, the key is nowhere in the table. */
  lemma CellDecides(keys: seq<nat>, first: Record -> nat, key: Record, ix: nat)
    requires Table(keys, first) && CellOf(keys, first, key, ix)
    ensures key in Elements(keys) <==> keys[ix] == key
  {
    if key in Elements(keys) {
      var j :| 0 <= j < |keys| && keys[j] == key;
      OnlyCell(keys, first, key, ix, j);
    }
  }

  lemma InsertKeepsTable(keys: seq<nat>, first: Record -> nat, key: Record, ix: nat)
    requires Table(keys, first) && CellOf(keys, first, key, ix) && keys[ix] == EMPTY
    ensures Table(keys[ix := key], first)
    ensures Elements(keys[ix := key]) == Elements(keys) + {key} && key !in Elements(keys)
  {
    CellDecides(keys, first, key, ix);
    var keys' := keys[ix := key];
    forall i | 0 <= i < |keys'| && keys'[i] != EMPTY ensures Reachable(keys', first, i) {
      if i != ix { assert Reachable(keys, first, i); }
    }
    forall k | k in Elements(keys) + {key} ensures k in Elements(keys') {
      if k == key { assert keys'[ix] == k; }
      else {
        var i :| 0 <= i < |keys| && keys[i] == k;
        assert keys'[i] == k;
      }
    }
    forall k | k in Elements(keys') ensures k in Elements(keys) + {key} {
      var i :| 0 <= i < |keys'| && keys'[i] == k;
    }
  }

  /** The number of distinct keys bounds the number of full cells, so a table with fewer keys than cells has an
      empty cell. */
  lemma {:induction false} SizeOfElements(keys: seq<nat>)
    requires forall i, j :: 0 <= i < j < |keys| && keys[i] == keys[j] ==> keys[i] == EMPTY
    requires forall i :: 0 <= i < |keys| ==> keys[i] != EMPTY
    ensures |Elements(keys)| == |keys|
  {
    if keys != [] {
      var front, last := keys[..|keys| - 1], keys[|keys| - 1];
      SizeOfElements(front);
      assert Elements(keys) == Elements(front) + {last} by {
        forall k | k in Elements(front) + {last} ensures k in Elements(keys) {
          if k == last { assert keys[|keys| - 1] == k; }
          else {
            var i :| 0 <= i < |front| && front[i] == k;
            assert keys[i] == k;
          }
        }
        forall k | k in Elements(keys) ensures k in Elements(front) + {last} {
          var i :| 0 <= i < |keys| && keys[i] == k;
          if i < |front| { assert front[i] == k; }
        }
      }
      assert last !in Elements(front);
    }
  }

  lemma HasEmptyCell(keys: seq<nat>, first: Record -> nat)
    requires Table(keys, first) && |Elements(keys)| < |keys|
    ensures exists i :: 0 <= i < |keys| && keys[i] == EMPTY
  {
    if forall i :: 0 <= i < |keys| ==> keys[i] != EMPTY { SizeOfElements(keys); }
  }

  /** The mixing function is a parameter: any function of the key will do. */
  class HashSet {
    const first: Record -> nat
    const keys: array<nat>
    var count: nat

    ghost predicate Valid()
      reads this, keys
    {
      Table(keys[..], first) && count == |Elements(keys[..])|
    }

    ghost function Contents(): set<Record>
      reads this, keys
    {
      Elements(keys[..])
    }

    constructor (numberOfElements: nat, hash: Record -> int)
      ensures Valid() && fresh(keys) && Contents() == {}
      ensures MIN_TABLE_SIZE <= keys.Length && 2 * numberOfElements <= keys.Length && PowerOfTwo(keys.Length)
    {
      var size := TableSizeFor(numberOfElements);
      first := k => hash(k) % size;
      keys := new nat[size](i => EMPTY);
      count := 0;
    }

    /** Terminates because there is an empty cell as long as there are fewer keys than cells. */
    method GetIndex(key: Record) returns (ix: nat)
      requires Valid() && count < keys.Length
      ensures CellOf(keys[..], first, key, ix)
    {
      HasEmptyCell(keys[..], first);
      ghost var e :| 0 <= e < keys.Length && keys[..][e] == EMPTY;
      assert first(key) < keys.Length;
      ix := first(key);
      ghost var d := 0;
      while keys[ix] != EMPTY && keys[ix] != key
        invariant d <= Distance(first(key), e, keys.Length) && ix == Probe(first(key), d, keys.Length)
        invariant forall c :: 0 <= c < d ==> keys[..][Probe(first(key), c, keys.Length)] != EMPTY
                                             && keys[..][Probe(first(key), c, keys.Length)] != key
        decreases keys.Length - d
      {
        assert ix != e;
        ix := NextIndex(ix, keys.Length);
        d := d + 1;
      }
      assert Distance(first(key), ix, keys.Length) == d;
    }

    method Contains(key: Record) returns (found: bool)
      requires Valid() && count < keys.Length
      ensures found <==> key in Contents()
    {
      var ix := GetIndex(key);
      CellDecides(keys[..], first, key, ix);
      found := keys[ix] != EMPTY;
    }

    method Insert(key: Record)
      requires Valid() && count < keys.Length
      modifies this`count, keys
      ensures Valid() && Contents() == old(Contents()) + {key}
    {
      var ix := GetIndex(key);
      CellDecides(keys[..], first, key, ix);
      if keys[ix] == EMPTY {
        InsertKeepsTable(keys[..], first, key, ix);
        ghost var before := keys[..];
        keys[ix] := key;
        assert keys[..] == before[ix := key];
        count := count + 1;
      }
    }

    method Clear()
      requires Valid()
      modifies this`count, keys
      ensures Valid() && Contents() == {}
    {
      if count != 0 {
        forall i | 0 <= i < keys.Length { keys[i] := EMPTY; }
        count := 0;
      } else {
        assert Elements(keys[..]) == {};
      }
    }
  }
}
