/** A run of two transactions that loses a committed insert: the blind overwrite of BlindOverwrite, on a node
    whose new link has been committed but not yet written back. */
module LostUpdate {
  import opened Basics
  import opened ListHeap
  import opened Transactions
  import opened TxEveryRun
  import opened Serializability
  import opened ListSize
  import opened TxPaths

  const Q: Node := Node(1, 1)
  const R: Node := Node(2, 2)
  const M: Node := Node(3, 3)

  /** The list HEAD, Q, R. */
  const LIST: Heap := map[HEAD := Cell(Some(Q), false, true), Q := Cell(Some(R), false, true), R := Cell(None, false, true)]

  const MEM: map<Node, MemNode> := map[
    HEAD := MemNode(Some(Q), true, None, false, 0),
    Q := MemNode(Some(R), true, None, false, 0),
    R := MemNode(None, true, None, false, 0)]

  const STAMP: map<Node, nat> := map[HEAD := 0, Q := 0, R := 0]

  const START: State := State(Shared(MEM, 0, LIST, STAMP, {}), [NEW_TX, NEW_TX], [], [LIST])

  lemma StartIsWellFormed()
    ensures WellFormed(LIST)
  {
    assert forall n :: Live(LIST, n) <==> n == HEAD || n == Q || n == R;
  }

  lemma StartIsInitial()
    ensures Init(START)
  {
    hide WellFormed;
    StartIsWellFormed();
  }

  const COMMITTED_M: Heap := LIST[M := Cell(None, false, true)][R := Cell(Some(M), false, true)]

  const MEM_LOCKED: map<Node, MemNode> := MEM_M[R := MemNode(None, true, Some(0), false, 0)]

  /** Transaction 0 has put M after R, in its write set. */
  const INSERTER: Local := Local(0, 0, false, Put, 3, map[R := Cell(Some(M), false, true)], {R}, map[M := Cell(None, false, true)],
                                 {}, {}, map[R := Cell(None, false, true)], {(R, None)}, false, [Event(Put, 3, false)])

  const MEM_M: map<Node, MemNode> := MEM[M := MemNode(None, true, None, false, 0)]

  lemma InserterPuts() returns (s: State)
    ensures Reaches(START, s) && s.sh == Shared(MEM_M, 0, LIST, STAMP, {}) && s.txs == [Tx(Ready, INSERTER), NEW_TX] && s.order == []
  {
    hide Reaches;
    Here(START);
    s := With(START, 0, Tx(Ready, NEW_TX.d));
    LocalMove(START, START, 0, s.txs[0]);
    var d := NEW_TX.d.(kind := Put, key := 3, readOnly := false);
    BeginOp(START, s, 0, d);
    s := With(s, 0, Tx(GettingPred(Pick(3)), d));
    PredPath(START, s, 0, d, R);
    s := With(s, 0, Tx(GettingNext(Search, R, Start), d));
    NextPath(START, s, 0, d, Search, R);
    s := With(s, 0, Tx(GettingNext(Search, R, Done(None)), d));
    var m := MemNode(None, true, None, false, 0);
    var s' := Store(s, 0, Tx(Ready, INSERTER), M, m, {});
    assert InsertStep(s.sh, s.txs[0], s'.sh, s'.txs[0]);
    Memory(START, s, 0, s'.txs[0], M, m, {});
    s := s';
  }

  lemma InserterLocks() returns (s: State)
    ensures Reaches(START, s) && s.txs == [Tx(Locking, INSERTER.(held := {R})), NEW_TX] && s.order == []
    ensures s.sh == Shared(MEM_LOCKED, 0, LIST, STAMP, {})
  {
    hide Reaches;
    s := InserterPuts();
    var d := INSERTER.(todo := {R});
    LocalMove(START, s, 0, Tx(Locking, d));
    s := With(s, 0, Tx(Locking, d));
    LockPath(START, s, 0, d, R);
    assert d.todo - {R} == {} && d.held + {R} == {R};
    s := Store(s, 0, Tx(Locking, INSERTER.(held := {R})), R, s.sh.mem[R].(lock := Some(0)), s.sh.dirty);
  }

  /** It commits; the clock is 1, but R's new link has not reached memory. */
  lemma InserterCommits() returns (s: State)
    ensures Reaches(START, s) && s.txs == [Tx(WritingBack(PickNode), INSERTER.(wv := 1, held := {R}, todo := {R})), NEW_TX]
    ensures s.sh.mem == MEM_LOCKED && s.sh.gvc == 1 && s.sh.committed == COMMITTED_M && s.sh.dirty == {R} && s.order == [0]
    ensures R in s.sh.stamp && s.sh.stamp[R] == 1
  {
    hide Reaches;
    s := InserterLocks();
    var d := INSERTER.(held := {R});
    AcquirePath(START, s, 0, d);
    var d1 := d.(todo := {R});
    s := State(s.sh, s.txs[0 := Tx(Validating, d1)], s.order + [0], s.heaps + [s.sh.committed]);
    ValidatePath(START, s, 0, d1, R);
    assert d1.todo - {R} == {};
    s := With(s, 0, Tx(Validating, d));
    s := CommitPath(START, s, 0, d, 0);
    assert d.ws.Keys == {R};
    assert LIST + Writes(d) == COMMITTED_M;
  }

  /** Transaction 1 has overwritten Q, and then R, which it found through its own write set. The link it
      copied from R is the old one; what it should have read is M. */
  const FIRST: Local := Local(1, 0, false, Put, 1, map[Q := Cell(Some(R), false, true)], {Q}, map[], {}, {},
                              map[Q := Cell(Some(R), false, true)], {(Q, Some(R))}, false, [Event(Put, 1, true)])

  const SECOND: Local := Local(1, 0, false, Put, 2, map[Q := Cell(Some(R), false, true), R := Cell(None, false, true)], {Q, R},
                               map[], {}, {}, map[Q := Cell(Some(R), false, true), R := Cell(Some(M), false, true)],
                               {(Q, Some(R)), (R, None)}, true, [Event(Put, 1, true), Event(Put, 2, true)])

  lemma ReaderPuts(s0: State) returns (s: State)
    requires Reaches(START, s0) && |s0.txs| == 2 && s0.txs[1] == NEW_TX
    requires s0.sh.mem == MEM_LOCKED && s0.sh.gvc == 1 && s0.sh.committed == COMMITTED_M
    ensures Reaches(START, s) && s == With(s0, 1, Tx(Ready, FIRST))
  {
    hide Reaches;
    var d0 := NEW_TX.d.(rv := 1);
    LocalMove(START, s0, 1, Tx(Ready, d0));
    s := With(s0, 1, Tx(Ready, d0));
    var d := d0.(kind := Put, key := 1, readOnly := false);
    BeginOp(START, s, 1, d);
    s := With(s, 1, Tx(GettingPred(Pick(1)), d));
    PredPath(START, s, 1, d, HEAD);
    s := With(s, 1, Tx(GettingNext(Search, HEAD, Start), d));
    NextPath(START, s, 1, d, Search, HEAD);
    s := With(s, 1, Tx(GettingNext(Search, HEAD, Done(Some(Q))), d));
    OverwritePath(START, s, 1, d, HEAD, Q);
    assert Logged(Overwritten(s.sh, d, Q), true) == FIRST;
    s := With(s, 1, Tx(Ready, FIRST));
  }

  lemma ReaderOverwrites(s0: State) returns (s: State)
    requires Reaches(START, s0) && |s0.txs| == 2 && s0.txs[1] == Tx(Ready, FIRST)
    requires s0.sh.mem == MEM_LOCKED && s0.sh.gvc == 1 && s0.sh.committed == COMMITTED_M
    requires R in s0.sh.stamp && s0.sh.stamp[R] == 1
    ensures Reaches(START, s) && s == With(s0, 1, Tx(Ready, SECOND))
  {
    hide Reaches;
    var d := FIRST.(kind := Put, key := 2);
    BeginOp(START, s0, 1, d);
    s := With(s0, 1, Tx(GettingPred(Pick(2)), d));
    PredPath(START, s, 1, d, Q);
    s := With(s, 1, Tx(GettingNext(Search, Q, Start), d));
    LocalMove(START, s, 1, Tx(GettingNext(Search, Q, Done(Some(R))), d));
    s := With(s, 1, Tx(GettingNext(Search, Q, Done(Some(R))), d));
    OverwritePath(START, s, 1, d, Q, R);
    assert Logged(Overwritten(s.sh, d, R), true) == SECOND;
    s := With(s, 1, Tx(Ready, SECOND));
  }

  const MEM_LINKED: map<Node, MemNode> := MEM_M[R := MemNode(Some(M), true, None, false, 1)]

  const INSERTED: Tx := Tx(Committed, INSERTER.(wv := 1))

  /** Transaction 0 writes back and finishes: for a moment the list is HEAD, Q, R, M. */
  lemma InserterFinishes() returns (s: State)
    ensures Reaches(START, s) && s.txs == [INSERTED, Tx(Ready, SECOND)] && s.order == [0]
    ensures s.sh.mem == MEM_LINKED && s.sh.gvc == 1 && s.sh.committed == COMMITTED_M && s.sh.dirty == {}
  {
    hide Reaches;
    s := InserterCommits();
    s := ReaderPuts(s);
    s := ReaderOverwrites(s);
    var d := INSERTER.(wv := 1, held := {R}, todo := {R});
    WritePath(START, s, 0, d, R);
    var d1 := INSERTER.(wv := 1, held := {R});
    assert d.todo - {R} == {} && {R} - {R} == {};
    s := Store(s, 0, Tx(WritingBack(PickNode), d1), R, Written(s.sh.mem[R], d.ws[R], 1), {});
    LocalMove(START, s, 0, Tx(Unlocking(true), d1));
    s := With(s, 0, Tx(Unlocking(true), d1));
    UnlockPath(START, s, 0, d1, R);
    s := Store(s, 0, Tx(Unlocking(true), INSERTER.(wv := 1)), R, s.sh.mem[R].(lock := None), s.sh.dirty);
    LocalMove(START, s, 0, INSERTED);
    s := With(s, 0, INSERTED);
  }

  const MEM_BOTH: map<Node, MemNode> :=
    MEM_LINKED[Q := MemNode(Some(R), true, Some(1), false, 0)][R := MemNode(Some(M), true, Some(1), false, 1)]

  lemma ReaderLocks() returns (s: State)
    ensures Reaches(START, s) && s.txs == [INSERTED, Tx(Locking, SECOND.(held := {Q, R}))] && s.order == [0]
    ensures s.sh.mem == MEM_BOTH && s.sh.gvc == 1 && s.sh.committed == COMMITTED_M && s.sh.dirty == {}
  {
    hide Reaches;
    s := InserterFinishes();
    var d := SECOND.(todo := {Q, R});
    assert SECOND.ws.Keys == {Q, R};
    LocalMove(START, s, 1, Tx(Locking, d));
    s := With(s, 1, Tx(Locking, d));
    LockPath(START, s, 1, d, Q);
    var d1 := SECOND.(held := {Q}, todo := {R});
    assert d.todo - {Q} == {R} && d.held + {Q} == {Q};
    s := Store(s, 1, Tx(Locking, d1), Q, s.sh.mem[Q].(lock := Some(1)), {});
    LockPath(START, s, 1, d1, R);
    assert d1.todo - {R} == {} && d1.held + {R} == {Q, R};
    s := Store(s, 1, Tx(Locking, SECOND.(held := {Q, R})), R, s.sh.mem[R].(lock := Some(1)), {});
  }

  /** Both nodes pass validation: R's version is 1, and so is the read version. */
  lemma ReaderValidates() returns (s: State)
    ensures Reaches(START, s) && s.txs == [INSERTED, Tx(Validating, SECOND.(held := {Q, R}))] && s.order == [0, 1]
    ensures s.sh.mem == MEM_BOTH && s.sh.gvc == 1 && s.sh.committed == COMMITTED_M && s.sh.dirty == {}
  {
    hide Reaches;
    s := ReaderLocks();
    var d := SECOND.(held := {Q, R});
    AcquirePath(START, s, 1, d);
    var d1 := d.(todo := {Q, R});
    s := State(s.sh, s.txs[1 := Tx(Validating, d1)], s.order + [1], s.heaps + [s.sh.committed]);
    ValidatePath(START, s, 1, d1, Q);
    var d2 := d.(todo := {R});
    assert d1.todo - {Q} == {R};
    s := With(s, 1, Tx(Validating, d2));
    ValidatePath(START, s, 1, d2, R);
    assert d2.todo - {R} == {};
    s := With(s, 1, Tx(Validating, d));
  }

  const COMMITTED_LOST: Heap := COMMITTED_M[Q := Cell(Some(R), false, true)][R := Cell(None, false, true)]

  lemma ReaderCommits() returns (s: State)
    ensures Reaches(START, s) && s.order == [0, 1]
    ensures s.txs == [INSERTED, Tx(WritingBack(PickNode), SECOND.(wv := 2, held := {Q, R}, todo := {Q, R}))]
    ensures s.sh.mem == MEM_BOTH && s.sh.committed == COMMITTED_LOST && s.sh.dirty == {Q, R}
  {
    hide Reaches;
    s := ReaderValidates();
    var d := SECOND.(held := {Q, R});
    s := CommitPath(START, s, 1, d, 1);
    assert d.ws.Keys == {Q, R};
    assert COMMITTED_M + Writes(d) == COMMITTED_LOST;
  }

  lemma ReaderWrites() returns (s: State)
    ensures Reaches(START, s) && s.txs == [INSERTED, Tx(Unlocking(true), SECOND.(wv := 2, held := {Q, R}))]
    ensures s.sh.committed == COMMITTED_LOST && s.sh.dirty == {}
    ensures s.sh.mem == MEM_BOTH[Q := MemNode(Some(R), true, Some(1), false, 2)][R := MemNode(None, true, Some(1), false, 2)]
  {
    hide Reaches;
    s := ReaderCommits();
    var d := SECOND.(wv := 2, held := {Q, R}, todo := {Q, R});
    WritePath(START, s, 1, d, Q);
    var d1 := d.(todo := {R});
    assert d.todo - {Q} == {R} && {Q, R} - {Q} == {R};
    s := Store(s, 1, Tx(WritingBack(PickNode), d1), Q, Written(s.sh.mem[Q], d.ws[Q], 2), {R});
    WritePath(START, s, 1, d1, R);
    var d2 := d.(todo := {});
    assert d1.todo - {R} == {} && {R} - {R} == {};
    s := Store(s, 1, Tx(WritingBack(PickNode), d2), R, Written(s.sh.mem[R], d.ws[R], 2), {});
    LocalMove(START, s, 1, Tx(Unlocking(true), d2));
    s := With(s, 1, Tx(Unlocking(true), d2));
  }

  lemma ReaderFinishes() returns (s: State)
    ensures Reaches(START, s) && s.txs == [INSERTED, Tx(Committed, SECOND.(wv := 2))]
    ensures IsList(s.sh.mem, [HEAD, Q, R])
  {
    hide Reaches;
    s := ReaderWrites();
    var d := SECOND.(wv := 2, held := {Q, R});
    UnlockPath(START, s, 1, d, Q);
    var d1 := d.(held := {R});
    assert d.held - {Q} == {R};
    s := Store(s, 1, Tx(Unlocking(true), d1), Q, s.sh.mem[Q].(lock := None), {});
    UnlockPath(START, s, 1, d1, R);
    var d2 := d.(held := {});
    assert d1.held - {R} == {};
    s := Store(s, 1, Tx(Unlocking(true), d2), R, s.sh.mem[R].(lock := None), {});
    LocalMove(START, s, 1, Tx(Committed, d2));
    s := With(s, 1, Tx(Committed, d2));
  }

  // ---------------------------------------------------------------- what is wrong with it

  /** A key that was put and never removed is there at the end. */
  lemma {:induction false} PutsStay(keys: set<nat>, log: seq<Event>, k: nat)
    requires forall j :: 0 <= j < |log| ==> log[j].kind == Put
    requires k < |log|
    ensures log[k].key in After(keys, log)
  {
    if k < |log| - 1 { PutsStay(keys, log[..|log| - 1], k); }
  }

  lemma {:induction false} LogsOfPuts(txs: seq<Tx>, ids: seq<nat>, k: nat)
    requires forall j :: 0 <= j < |ids| ==> ids[j] < |txs|
    requires forall i, j :: 0 <= i < |txs| && 0 <= j < |txs[i].d.log| ==> txs[i].d.log[j].kind == Put
    requires k < |ids| && |txs[ids[k]].d.log| > 0
    ensures forall j :: 0 <= j < |Logs(txs, ids)| ==> Logs(txs, ids)[j].kind == Put
    ensures exists j :: 0 <= j < |Logs(txs, ids)| && Logs(txs, ids)[j] == txs[ids[k]].d.log[0]
    decreases |ids|
  {
    var rest, last := ids[..|ids| - 1], txs[ids[|ids| - 1]].d.log;
    LogsArePuts(txs, rest);
    if k < |ids| - 1 {
      LogsOfPuts(txs, rest, k);
      var j :| 0 <= j < |Logs(txs, rest)| && Logs(txs, rest)[j] == txs[ids[k]].d.log[0];
      assert Logs(txs, ids)[j] == Logs(txs, rest)[j];
    } else {
      assert Logs(txs, ids)[|Logs(txs, rest)|] == last[0];
    }
  }

  lemma {:induction false} LogsArePuts(txs: seq<Tx>, ids: seq<nat>)
    requires forall j :: 0 <= j < |ids| ==> ids[j] < |txs|
    requires forall i, j :: 0 <= i < |txs| && 0 <= j < |txs[i].d.log| ==> txs[i].d.log[j].kind == Put
    ensures forall j :: 0 <= j < |Logs(txs, ids)| ==> Logs(txs, ids)[j].kind == Put
  {
    if ids != [] { LogsArePuts(txs, ids[..|ids| - 1]); }
  }

  lemma NoSerialOrder(s: State, ids: seq<nat>, initial: set<nat>)
    requires s.txs == [INSERTED, Tx(Committed, SECOND.(wv := 2))]
    ensures !Serializes(s.txs, ids, initial, {1, 2})
  {
    if Serializes(s.txs, ids, initial, {1, 2}) {
      hide Explains, After;
      assert 0 in ids;
      var k: nat :| k < |ids| && ids[k] == 0;
      LogsOfPuts(s.txs, ids, k);
      var j :| 0 <= j < |Logs(s.txs, ids)| && Logs(s.txs, ids)[j] == Event(Put, 3, false);
      PutsStay(initial, Logs(s.txs, ids), j);
    }
  }

  lemma KeysOfStart()
    ensures Keys(LIST) == {1, 2}
  {
    assert Live(LIST, Q) && Live(LIST, R);
    assert 1 in Keys(LIST) && 2 in Keys(LIST);
  }

  lemma NetOfRun(s: State)
    requires s.txs == [INSERTED, Tx(Committed, SECOND.(wv := 2))]
    ensures Quiescent(s) && CommittedNet(s.txs, |s.txs|) == 1
  {
    assert Net([Event(Put, 3, false)]) == 1;
    NetConcat([Event(Put, 1, true)], [Event(Put, 2, true)]);
    assert SECOND.log == [Event(Put, 1, true)] + [Event(Put, 2, true)];
    assert CommittedNet(s.txs, 2) == CommittedNet(s.txs, 1) + Net(SECOND.log);
    assert CommittedNet(s.txs, 1) == CommittedNet(s.txs, 0) + Net(INSERTED.d.log);
  }

  lemma LostKeys()
    ensures PathKeys([HEAD, Q, R]) == {1, 2}
  {
    assert [HEAD, Q, R][1..] == [Q, R];
  }

  /** There is a run, ending with both transactions committed and nothing running, after which the list in
      memory is not what any serial order of the committed transactions leaves, and `get_size` is one less
      than the counters of the workers say. */
  lemma AnInsertIsLost() returns (tr: seq<State>)
    ensures Run(tr)
    ensures var s := tr[|tr| - 1];
            && Quiescent(s) && IsList(s.sh.mem, [HEAD, Q, R])
            && (forall ids :: !Serializes(s.txs, ids, Keys(tr[0].sh.committed), PathKeys([HEAD, Q, R])))
            && |[HEAD, Q, R]| - 1 < |Keys(tr[0].sh.committed)| + CommittedNet(s.txs, |s.txs|)
  {
    hide Next, Init, Run, Reaches, Quiescent, CommittedNet, Serializes, IsList, PathKeys, Keys;
    var s := ReaderFinishes();
    StartIsInitial();
    KeysOfStart();
    NetOfRun(s);
    LostKeys();
    tr := RunTo(START, s);
    forall ids ensures !Serializes(s.txs, ids, {1, 2}, {1, 2}) { NoSerialOrder(s, ids, {1, 2}); }
  }
}
