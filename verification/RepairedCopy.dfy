/** A run in which a transaction commits with a stale copy and yet nothing is wrong: a later operation of the
    same transaction replaces the link. So a stale copy alone does not decide whether results are right. */
module RepairedCopy {
  import opened Basics
  import opened ListHeap
  import opened Transactions
  import opened TxEveryRun
  import opened Serializability
  import opened ListSize
  import opened TxPaths

  const Q: Node := Node(1, 1)
  const R: Node := Node(2, 2)
  const S: Node := Node(3, 3)

  /** The list HEAD, Q, R, S. */
  const LIST: Heap := map[
    HEAD := Cell(Some(Q), false, true), Q := Cell(Some(R), false, true), R := Cell(Some(S), false, true), S := Cell(None, false, true)]

  /** Memory, given R and S. */
  function Mem(q: MemNode, r: MemNode, s: MemNode): map<Node, MemNode>
  {
    map[HEAD := MemNode(Some(Q), true, None, false, 0), Q := q, R := r, S := s]
  }

  const Q0: MemNode := MemNode(Some(R), true, None, false, 0)
  const R0: MemNode := MemNode(Some(S), true, None, false, 0)
  const S0: MemNode := MemNode(None, true, None, false, 0)

  const STAMP: map<Node, nat> := map[HEAD := 0, Q := 0, R := 0, S := 0]

  const START: State := State(Shared(Mem(Q0, R0, S0), 0, LIST, STAMP, {}), [NEW_TX, NEW_TX], [], [LIST])

  lemma StartIsWellFormed()
    ensures WellFormed(LIST)
  {
    assert forall n :: Live(LIST, n) <==> n == HEAD || n == Q || n == R || n == S;
    assert LinkOk(LIST, HEAD) && LinkOk(LIST, Q);
    assert LinkOk(LIST, R) && LinkOk(LIST, S);
  }

  lemma StartIsInitial()
    ensures Init(START)
  {
    hide WellFormed;
    StartIsWellFormed();
    assert Mem(Q0, R0, S0).Keys == LIST.Keys == STAMP.Keys == {HEAD, Q, R, S};
  }

  lemma KeysOfStart()
    ensures Keys(LIST) == {1, 2, 3}
  {
    assert LIST.Keys == {HEAD, Q, R, S};
    assert Live(LIST, Q) && Live(LIST, R) && Live(LIST, S);
    assert 1 in Keys(LIST) && 2 in Keys(LIST) && 3 in Keys(LIST);
  }

  // ---------------------------------------------------------------- transaction 0 removes S

  const REMOVER: Local := Local(0, 0, false, Remove, 3,
    map[R := Cell(None, false, true), S := Cell(None, true, true)], {R, S}, map[], {}, {},
    map[R := Cell(Some(S), false, true), S := Cell(None, false, true)], {(R, Some(S)), (S, None)}, false, [Event(Remove, 3, true)])

  lemma RemoverRemoves() returns (s: State)
    ensures Reaches(START, s) && s.sh == START.sh && s.txs == [Tx(Ready, REMOVER), NEW_TX] && s.order == []
  {
    hide Reaches;
    Here(START);
    s := With(START, 0, Tx(Ready, NEW_TX.d));
    LocalMove(START, START, 0, s.txs[0]);
    var d := NEW_TX.d.(kind := Remove, key := 3, readOnly := false);
    BeginOp(START, s, 0, d);
    s := With(s, 0, Tx(GettingPred(Pick(3)), d));
    PredPath(START, s, 0, d, R);
    s := With(s, 0, Tx(GettingNext(Search, R, Start), d));
    NextPath(START, s, 0, d, Search, R);
    s := With(s, 0, Tx(GettingNext(Search, R, Done(Some(S))), d));
    RemovePath(START, s, 0, d, R, S);
    assert Removed(s.sh, AddRead(s.sh, d, R, Some(S)), R, S, None, true) == REMOVER;
    s := With(s, 0, Tx(Ready, REMOVER));
  }

  const R_HELD: MemNode := R0.(lock := Some(0))
  const S_HELD: MemNode := S0.(lock := Some(0))

  lemma RemoverLocks() returns (s: State)
    ensures Reaches(START, s) && s.txs == [Tx(Locking, REMOVER.(held := {R, S})), NEW_TX] && s.order == []
    ensures s.sh == START.sh.(mem := Mem(Q0, R_HELD, S_HELD))
  {
    hide Reaches;
    s := RemoverRemoves();
    var d := REMOVER.(todo := {R, S});
    assert REMOVER.ws.Keys == {R, S};
    LocalMove(START, s, 0, Tx(Locking, d));
    s := With(s, 0, Tx(Locking, d));
    LockPath(START, s, 0, d, R);
    var d1 := REMOVER.(held := {R}, todo := {S});
    assert d.todo - {R} == {S} && d.held + {R} == {R};
    s := Store(s, 0, Tx(Locking, d1), R, R_HELD, {});
    LockPath(START, s, 0, d1, S);
    assert d1.todo - {S} == {} && d1.held + {S} == {R, S};
    s := Store(s, 0, Tx(Locking, REMOVER.(held := {R, S})), S, S_HELD, {});
    assert s.sh.mem == Mem(Q0, R_HELD, S_HELD);
  }

  /** The list without S. */
  const SHORTER: Heap := LIST[R := Cell(None, false, true)][S := Cell(None, true, true)]

  /** It commits; the clock is 1, but memory still links R to S. */
  lemma RemoverCommits() returns (s: State)
    ensures Reaches(START, s) && s.txs == [Tx(WritingBack(PickNode), REMOVER.(wv := 1, held := {R, S}, todo := {R, S})), NEW_TX]
    ensures s.sh.mem == Mem(Q0, R_HELD, S_HELD) && s.sh.gvc == 1 && s.sh.committed == SHORTER && s.sh.dirty == {R, S} && s.order == [0]
    ensures R in s.sh.stamp && s.sh.stamp[R] == 1
  {
    hide Reaches;
    s := RemoverLocks();
    var d := REMOVER.(held := {R, S});
    AcquirePath(START, s, 0, d);
    var d1 := d.(todo := {R, S});
    s := State(s.sh, s.txs[0 := Tx(Validating, d1)], s.order + [0], s.heaps + [s.sh.committed]);
    ValidatePath(START, s, 0, d1, R);
    var d2 := d.(todo := {S});
    assert d1.todo - {R} == {S};
    s := With(s, 0, Tx(Validating, d2));
    ValidatePath(START, s, 0, d2, S);
    assert d2.todo - {S} == {};
    s := With(s, 0, Tx(Validating, d));
    s := CommitPath(START, s, 0, d, 0);
    assert d.ws.Keys == {R, S};
    assert LIST + Writes(d) == SHORTER;
  }

  // ---------------------------------------------------------------- transaction 1 puts Q and R, copying R's stale link

  const FIRST: Local := Local(1, 0, false, Put, 1, map[Q := Cell(Some(R), false, true)], {Q}, map[], {}, {},
                              map[Q := Cell(Some(R), false, true)], {(Q, Some(R))}, false, [Event(Put, 1, true)])

  const SECOND: Local := Local(1, 0, false, Put, 2,
    map[Q := Cell(Some(R), false, true), R := Cell(Some(S), false, true)], {Q, R}, map[], {}, {},
    map[Q := Cell(Some(R), false, true), R := Cell(None, false, true)], {(Q, Some(R)), (R, Some(S))}, true,
    [Event(Put, 1, true), Event(Put, 2, true)])

  lemma PutsFirst(s0: State) returns (s: State)
    requires Reaches(START, s0) && |s0.txs| == 2 && s0.txs[1] == NEW_TX
    requires s0.sh.mem == Mem(Q0, R_HELD, S_HELD) && s0.sh.gvc == 1 && s0.sh.committed == SHORTER
    ensures Reaches(START, s) && s == With(s0, 1, Tx(Ready, FIRST))
  {
    hide Reaches;
    var d0 := NEW_TX.d.(rv := 1);
    LocalMove(START, s0, 1, Tx(Ready, d0));
    s := With(s0, 1, Tx(Ready, d0));
    var d := d0.(kind := Put, key := 1, readOnly := false);
    BeginOp(START, s, 1, d);
    s := With(s, 1, Tx(GettingPred(Pick(1)), d));
    PredPath(START, s, 1, d, HEAD);
    s := With(s, 1, Tx(GettingNext(Search, HEAD, Start), d));
    NextPath(START, s, 1, d, Search, HEAD);
    s := With(s, 1, Tx(GettingNext(Search, HEAD, Done(Some(Q))), d));
    OverwritePath(START, s, 1, d, HEAD, Q);
    assert Logged(Overwritten(s.sh, d, Q), true) == FIRST;
    s := With(s, 1, Tx(Ready, FIRST));
  }

  lemma PutsSecond(s0: State) returns (s: State)
    requires Reaches(START, s0) && |s0.txs| == 2 && s0.txs[1] == Tx(Ready, FIRST)
    requires s0.sh.mem == Mem(Q0, R_HELD, S_HELD) && s0.sh.gvc == 1 && s0.sh.committed == SHORTER
    requires R in s0.sh.stamp && s0.sh.stamp[R] == 1
    ensures Reaches(START, s) && s == With(s0, 1, Tx(Ready, SECOND))
  {
    hide Reaches;
    var d := FIRST.(kind := Put, key := 2);
    BeginOp(START, s0, 1, d);
    s := With(s0, 1, Tx(GettingPred(Pick(2)), d));
    PredPath(START, s, 1, d, Q);
    s := With(s, 1, Tx(GettingNext(Search, Q, Start), d));
    LocalMove(START, s, 1, Tx(GettingNext(Search, Q, Done(Some(R))), d));
    s := With(s, 1, Tx(GettingNext(Search, Q, Done(Some(R))), d));
    OverwritePath(START, s, 1, d, Q, R);
    assert Logged(Overwritten(s.sh, d, R), true) == SECOND;
    s := With(s, 1, Tx(Ready, SECOND));
  }

  // ---------------------------------------------------------------- transaction 0 writes back and finishes

  const R1: MemNode := MemNode(None, true, None, false, 1)
  const S1: MemNode := MemNode(None, false, None, true, 1)

  const REMOVED: Tx := Tx(Committed, REMOVER.(wv := 1))

  lemma RemoverWrites() returns (s: State)
    ensures Reaches(START, s) && s.txs == [Tx(Unlocking(true), REMOVER.(wv := 1, held := {R, S})), Tx(Ready, SECOND)] && s.order == [0]
    ensures s.sh.mem == Mem(Q0, R1.(lock := Some(0)), S1.(lock := Some(0)))
    ensures s.sh.gvc == 1 && s.sh.committed == SHORTER && s.sh.dirty == {}
  {
    hide Reaches;
    s := RemoverCommits();
    s := PutsFirst(s);
    s := PutsSecond(s);
    var d := REMOVER.(wv := 1, held := {R, S}, todo := {R, S});
    WritePath(START, s, 0, d, R);
    var d1 := d.(todo := {S});
    assert d.todo - {R} == {S} && {R, S} - {R} == {S};
    s := Store(s, 0, Tx(WritingBack(PickNode), d1), R, R1.(lock := Some(0)), {S});
    WriteDeadPath(START, s, 0, d1, S);
    var d2 := d.(todo := {});
    assert d1.todo - {S} == {} && {S} - {S} == {};
    s := Store(s, 0, Tx(WritingBack(PickNode), d2), S, S1.(lock := Some(0)), {});
    LocalMove(START, s, 0, Tx(Unlocking(true), d2));
    s := With(s, 0, Tx(Unlocking(true), d2));
    assert s.sh.mem == Mem(Q0, R1.(lock := Some(0)), S1.(lock := Some(0)));
  }

  lemma RemoverFinishes() returns (s: State)
    ensures Reaches(START, s) && s.txs == [REMOVED, Tx(Ready, SECOND)] && s.order == [0]
    ensures s.sh.mem == Mem(Q0, R1, S1) && s.sh.gvc == 1 && s.sh.committed == SHORTER && s.sh.dirty == {}
  {
    hide Reaches;
    s := RemoverWrites();
    var d := REMOVER.(wv := 1, held := {R, S});
    UnlockPath(START, s, 0, d, R);
    var d1 := d.(held := {S});
    assert d.held - {R} == {S};
    s := Store(s, 0, Tx(Unlocking(true), d1), R, R1, {});
    UnlockPath(START, s, 0, d1, S);
    var d2 := REMOVER.(wv := 1);
    assert d1.held - {S} == {};
    s := Store(s, 0, Tx(Unlocking(true), d2), S, S1, {});
    LocalMove(START, s, 0, REMOVED);
    s := With(s, 0, REMOVED);
    assert s.sh.mem == Mem(Q0, R1, S1);
  }

  // ---------------------------------------------------------------- transaction 1 removes the key of S and commits

  const THIRD: Local := Local(1, 0, false, Remove, 3,
    map[Q := Cell(Some(R), false, true), R := Cell(None, false, true), S := Cell(None, true, false)], {Q, R, S}, map[], {}, {},
    map[Q := Cell(Some(R), false, true), R := Cell(None, false, true), S := Cell(None, true, true)],
    {(Q, Some(R)), (R, Some(S)), (S, None)}, true,
    [Event(Put, 1, true), Event(Put, 2, true), Event(Remove, 3, false)])

  lemma RemovesNothing() returns (s: State)
    ensures Reaches(START, s) && s.txs == [REMOVED, Tx(Ready, THIRD)] && s.order == [0]
    ensures s.sh.mem == Mem(Q0, R1, S1) && s.sh.gvc == 1 && s.sh.committed == SHORTER && s.sh.dirty == {}
  {
    hide Reaches;
    s := RemoverFinishes();
    var d := SECOND.(kind := Remove, key := 3);
    BeginOp(START, s, 1, d);
    s := With(s, 1, Tx(GettingPred(Pick(3)), d));
    PredPath(START, s, 1, d, R);
    s := With(s, 1, Tx(GettingNext(Search, R, Start), d));
    LocalMove(START, s, 1, Tx(GettingNext(Search, R, Done(Some(S))), d));
    s := With(s, 1, Tx(GettingNext(Search, R, Done(Some(S))), d));
    RemovePath(START, s, 1, d, R, S);
    assert AddRead(s.sh, d, R, Some(S)) == d;
    assert Removed(s.sh, d, R, S, None, true) == THIRD;
    s := With(s, 1, Tx(Ready, THIRD));
  }

  function Held(m: MemNode): MemNode { m.(lock := Some(1)) }

  lemma RepairerLocks() returns (s: State)
    ensures Reaches(START, s) && s.txs == [REMOVED, Tx(Locking, THIRD.(held := {Q, R, S}))] && s.order == [0]
    ensures s.sh.mem == Mem(Held(Q0), Held(R1), Held(S1)) && s.sh.gvc == 1 && s.sh.committed == SHORTER && s.sh.dirty == {}
  {
    hide Reaches;
    s := RemovesNothing();
    var d := THIRD.(todo := {Q, R, S});
    assert THIRD.ws.Keys == {Q, R, S};
    LocalMove(START, s, 1, Tx(Locking, d));
    s := With(s, 1, Tx(Locking, d));
    LockPath(START, s, 1, d, Q);
    var d1 := THIRD.(held := {Q}, todo := {R, S});
    assert d.todo - {Q} == {R, S} && d.held + {Q} == {Q};
    s := Store(s, 1, Tx(Locking, d1), Q, Held(Q0), {});
    LockPath(START, s, 1, d1, R);
    var d2 := THIRD.(held := {Q, R}, todo := {S});
    assert d1.todo - {R} == {S} && d1.held + {R} == {Q, R};
    s := Store(s, 1, Tx(Locking, d2), R, Held(R1), {});
    LockPath(START, s, 1, d2, S);
    assert d2.todo - {S} == {} && d2.held + {S} == {Q, R, S};
    s := Store(s, 1, Tx(Locking, THIRD.(held := {Q, R, S})), S, Held(S1), {});
    assert s.sh.mem == Mem(Held(Q0), Held(R1), Held(S1));
  }

  lemma RepairerValidates() returns (s: State)
    ensures Reaches(START, s) && s.txs == [REMOVED, Tx(Validating, THIRD.(held := {Q, R, S}))] && s.order == [0, 1]
    ensures s.sh.mem == Mem(Held(Q0), Held(R1), Held(S1)) && s.sh.gvc == 1 && s.sh.committed == SHORTER && s.sh.dirty == {}
  {
    hide Reaches;
    s := RepairerLocks();
    var d := THIRD.(held := {Q, R, S});
    AcquirePath(START, s, 1, d);
    var d1 := d.(todo := {Q, R, S});
    s := State(s.sh, s.txs[1 := Tx(Validating, d1)], s.order + [1], s.heaps + [s.sh.committed]);
    ValidatePath(START, s, 1, d1, Q);
    var d2 := d.(todo := {R, S});
    assert d1.todo - {Q} == {R, S};
    s := With(s, 1, Tx(Validating, d2));
    ValidatePath(START, s, 1, d2, R);
    var d3 := d.(todo := {S});
    assert d2.todo - {R} == {S};
    s := With(s, 1, Tx(Validating, d3));
    ValidatePath(START, s, 1, d3, S);
    assert d3.todo - {S} == {};
    s := With(s, 1, Tx(Validating, d));
  }

  const DONE: Local := THIRD.(wv := 2, held := {Q, R, S})

  lemma RepairerCommits() returns (s: State)
    ensures Reaches(START, s) && s.txs == [REMOVED, Tx(WritingBack(PickNode), DONE.(todo := {Q, R, S}))]
    ensures s.sh.mem == Mem(Held(Q0), Held(R1), Held(S1)) && s.sh.dirty == {Q, R, S}
  {
    hide Reaches;
    s := RepairerValidates();
    var d := THIRD.(held := {Q, R, S});
    s := CommitPath(START, s, 1, d, 1);
    assert d.ws.Keys == {Q, R, S};
  }

  const Q2: MemNode := MemNode(Some(R), true, None, false, 2)
  const R2: MemNode := MemNode(None, true, None, false, 2)
  const S2: MemNode := MemNode(None, false, None, true, 2)

  lemma RepairerWrites() returns (s: State)
    ensures Reaches(START, s) && s.txs == [REMOVED, Tx(Unlocking(true), DONE)]
    ensures s.sh.mem == Mem(Held(Q2), Held(R2), Held(S2)) && s.sh.dirty == {}
  {
    hide Reaches;
    s := RepairerCommits();
    var d := DONE.(todo := {Q, R, S});
    WritePath(START, s, 1, d, Q);
    var d1 := DONE.(todo := {R, S});
    assert d.todo - {Q} == {R, S} && {Q, R, S} - {Q} == {R, S};
    s := Store(s, 1, Tx(WritingBack(PickNode), d1), Q, Held(Q2), {R, S});
    WritePath(START, s, 1, d1, R);
    var d2 := DONE.(todo := {S});
    assert d1.todo - {R} == {S} && {R, S} - {R} == {S};
    s := Store(s, 1, Tx(WritingBack(PickNode), d2), R, Held(R2), {S});
    WriteDeadPath(START, s, 1, d2, S);
    assert d2.todo - {S} == {} && {S} - {S} == {};
    s := Store(s, 1, Tx(WritingBack(PickNode), DONE), S, Held(S2), {});
    LocalMove(START, s, 1, Tx(Unlocking(true), DONE));
    s := With(s, 1, Tx(Unlocking(true), DONE));
    assert s.sh.mem == Mem(Held(Q2), Held(R2), Held(S2));
  }

  const REPAIRED: Tx := Tx(Committed, THIRD.(wv := 2))

  lemma RepairerFinishes() returns (s: State)
    ensures Reaches(START, s) && s.txs == [REMOVED, REPAIRED] && s.sh.mem == Mem(Q2, R2, S2)
  {
    hide Reaches;
    s := RepairerWrites();
    UnlockPath(START, s, 1, DONE, Q);
    var d1 := DONE.(held := {R, S});
    assert DONE.held - {Q} == {R, S};
    s := Store(s, 1, Tx(Unlocking(true), d1), Q, Q2, {});
    UnlockPath(START, s, 1, d1, R);
    var d2 := DONE.(held := {S});
    assert d1.held - {R} == {S};
    s := Store(s, 1, Tx(Unlocking(true), d2), R, R2, {});
    UnlockPath(START, s, 1, d2, S);
    var d3 := THIRD.(wv := 2);
    assert d2.held - {S} == {};
    s := Store(s, 1, Tx(Unlocking(true), d3), S, S2, {});
    LocalMove(START, s, 1, REPAIRED);
    s := With(s, 1, REPAIRED);
    assert s.sh.mem == Mem(Q2, R2, S2);
  }

  // ---------------------------------------------------------------- nothing is wrong with it

  /** Removing 3, then putting 1 and 2 and removing 3 again, returns what was returned. */
  lemma LogExplained()
    ensures Explains({1, 2, 3}, REMOVER.log + THIRD.log) && After({1, 2, 3}, REMOVER.log + THIRD.log) == {1, 2}
  {
    assert REMOVER.log == [] + [Event(Remove, 3, true)];
    ExplainsSnoc({1, 2, 3}, [], Event(Remove, 3, true));
    var log := REMOVER.log;
    ExplainsSnoc({1, 2, 3}, log, Event(Put, 1, true));
    log := log + [Event(Put, 1, true)];
    ExplainsSnoc({1, 2, 3}, log, Event(Put, 2, true));
    log := log + [Event(Put, 2, true)];
    ExplainsSnoc({1, 2, 3}, log, Event(Remove, 3, false));
    assert REMOVER.log + THIRD.log == log + [Event(Remove, 3, false)];
  }

  lemma SerialOrderOf(txs: seq<Tx>)
    requires txs == [REMOVED, REPAIRED]
    ensures Serializes(txs, [0, 1], {1, 2, 3}, {1, 2})
  {
    LogExplained();
    hide Explains, After;
    assert [0, 1][..1] == [0] && [0][..0] == [];
    assert Logs(txs, [0]) == [] + REMOVER.log;
    assert Logs(txs, [0, 1]) == REMOVER.log + THIRD.log;
  }

  lemma ListLeft(mem: map<Node, MemNode>)
    requires mem == Mem(Q2, R2, S2)
    ensures IsList(mem, [HEAD, Q, R]) && PathKeys([HEAD, Q, R]) == {1, 2}
  {
    assert [HEAD, Q, R][1..] == [Q, R];
  }

  /** There is a run, ending with nothing running, in which a transaction has committed after copying a stale
      link, and the list in memory and all results are those of a serial order. */
  lemma StaleYetRight() returns (tr: seq<State>)
    ensures Run(tr)
    ensures var s := tr[|tr| - 1];
            && Quiescent(s) && |s.txs| == 2 && s.txs[1].pc.Committed? && s.txs[1].d.stale
            && IsList(s.sh.mem, [HEAD, Q, R])
            && Serializable(s.txs, Keys(tr[0].sh.committed), PathKeys([HEAD, Q, R]))
  {
    hide Next, Init, Run, Reaches, Serializes, IsList, PathKeys, Keys;
    var s := RepairerFinishes();
    StartIsInitial();
    KeysOfStart();
    SerialOrderOf(s.txs);
    ListLeft(s.sh.mem);
    tr := RunTo(START, s);
  }
}
