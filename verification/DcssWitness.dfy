/** A run in which a dcss returns FAILED_ADDR1 together with old1: a helper reads another value in addr1 and
    decides the failure, after addr1 is back at old1 and the owner has read it. */
module DcssWitness {
  import opened Dcss
  import opened DcssRuns

  ghost predicate Reaches(s: State, s': State)
  {
    exists tr: seq<State> :: 0 < |tr| && tr[0] == s && tr[|tr| - 1] == s' && forall k: nat :: k + 1 < |tr| ==> Next(tr[k], tr[k + 1])
  }

  lemma Then(a: State, b: State, c: State)
    requires Reaches(a, b) && Next(b, c)
    ensures Reaches(a, c)
  {
    hide Next;
    var tr: seq<State> :| 0 < |tr| && tr[0] == a && tr[|tr| - 1] == b && forall k: nat :: k + 1 < |tr| ==> Next(tr[k], tr[k + 1]);
    var tr' := tr + [c];
    assert tr'[|tr'| - 1] == c;
  }

  lemma Step(a: State, s: State, t: nat, s': State)
    requires Reaches(a, s) && t < |s.threads| == |s.desc| && ThreadStep(s, t, s')
    ensures Reaches(a, s')
  {
    hide Reaches, ThreadStep, OutsideStep;
    Then(a, s, s');
  }

  lemma Store(a: State, s: State, addr: int, v: int)
    requires Reaches(a, s) && addr in s.control && |s.threads| == |s.desc|
    ensures Reaches(a, s.(control := s.control[addr := v]))
  {
    hide Reaches, ThreadStep;
    var s' := s.(control := s.control[addr := v]);
    assert StoreControl(s, addr, v, s');
    Then(a, s, s');
  }

  // ---------------------------------------------------------------- the run

  /** addr1 is 0, old1 is 5, addr2 is 1, old2 is 7, new2 is 9. */
  const ARGS: seq<int> := [0, 5, 1, 7, 9]

  const FREE: Desc := Desc(1, Undecided, [0, 0, 0, 0, 0])

  const ID: Id := Id(0, 3)

  const START: State := State(map[0 := 5], map[1 := Val(7)], [FREE, FREE], [Thread(NoOp, Idle), Thread(NoOp, Idle)], map[], {}, map[], {})

  /** Thread 0 is filling its descriptor. */
  function Half(k: nat, f: seq<int>): State
  {
    START.(desc := [Desc(2, Undecided, f), FREE], threads := [Thread(DcssOp(ARGS), Filling(k)), Thread(NoOp, Idle)])
  }

  lemma Fill(k: nat, f: seq<int>, f': seq<int>)
    requires k < FIELDS == |f| && Reaches(START, Half(k, f)) && f' == f[k := ARGS[k]]
    ensures Reaches(START, Half(k + 1, f'))
  {
    hide Reaches;
    var s, s' := Half(k, f), Half(k + 1, f');
    assert s' == Move(SetDesc(s, 0, s.desc[0].(f := f[k := ARGS[k]])), 0, Filling(k + 1));
    assert PrepareStep(s, 0, s');
    hide PrepareStep;
    Step(START, s, 0, s');
  }

  lemma Filled()
    ensures Reaches(START, Half(5, ARGS))
  {
    assert [START][0] == START;
    assert Reaches(START, START);
    hide Reaches;
    var s := START.(threads := [Thread(DcssOp(ARGS), New), Thread(NoOp, Idle)]);
    assert BeginStep(START, 0, DcssOp(ARGS), s);
    Step(START, START, 0, s);
    assert Half(0, FREE.f) == Move(SetDesc(s, 0, s.desc[0].(num := 2, state := Undecided)), 0, Filling(0));
    assert PrepareStep(s, 0, Half(0, FREE.f));
    Step(START, s, 0, Half(0, FREE.f));
    hide PrepareStep, BeginStep, Half;
    Fill(0, [0, 0, 0, 0, 0], [0, 0, 0, 0, 0]);
    Fill(1, [0, 0, 0, 0, 0], [0, 5, 0, 0, 0]);
    Fill(2, [0, 5, 0, 0, 0], [0, 5, 1, 0, 0]);
    Fill(3, [0, 5, 1, 0, 0], [0, 5, 1, 7, 0]);
    Fill(4, [0, 5, 1, 7, 0], ARGS);
  }

  const TAGGED: Desc := Desc(3, Undecided, ARGS)

  /** The tag is in; thread 0 works on its own operation, thread 1 is where `pc` says. */
  function Run0(control: int, own: Pc, pc: Pc): State
  {
    State(map[0 := control], map[1 := Tag(ID)], [TAGGED, FREE], [Thread(DcssOp(ARGS), own), Thread(ReadOp(1), pc)],
          map[ID := ARGS], {ID}, map[], {})
  }

  const OWN: Help := Help(ID, true, [])

  lemma Installs()
    ensures Reaches(START, Run0(5, ReadAddr1(OWN), Copying(ID, {}, NO_WORDS)))
  {
    Filled();
    hide Reaches;
    var s := Half(5, ARGS);
    var s1 := s.(desc := [TAGGED, FREE], threads := [Thread(DcssOp(ARGS), Attempt), Thread(NoOp, Idle)], published := map[ID := ARGS]);
    assert s1 == Move(SetDesc(s, 0, s.desc[0].(num := 3)), 0, Attempt).(published := s.published[ID := ARGS]);
    assert PrepareStep(s, 0, s1);
    Step(START, s, 0, s1);
    var s2 := s1.(threads := [Thread(DcssOp(ARGS), ReadAddr1(OWN)), Thread(NoOp, Idle)], data := map[1 := Tag(ID)], installed := {ID});
    assert s2 == Move(s1, 0, ReadAddr1(OWN)).(data := s1.data[1 := Tag(ID)], installed := s1.installed + {ID});
    assert AttemptStep(s1, 0, s2);
    Step(START, s1, 0, s2);
    var s3 := Run0(5, ReadAddr1(OWN), Attempt);
    assert s3 == s2.(threads := s2.threads[1 := Thread(ReadOp(1), Attempt)]);
    assert BeginStep(s2, 1, ReadOp(1), s3);
    Step(START, s2, 1, s3);
    var s4 := Run0(5, ReadAddr1(OWN), Copying(ID, {}, NO_WORDS));
    assert s4 == Move(s3, 1, Copying(ID, {}, NO_WORDS));
    assert AttemptStep(s3, 1, s4);
    Step(START, s3, 1, s4);
  }

  lemma CopyOne(k: nat, got: set<nat>, snap: seq<int>, got': set<nat>, snap': seq<int>)
    requires k <= FIELDS && k !in got && |snap| == FIELDS + 1
    requires got' == got + {k} && snap' == snap[k := if k < FIELDS then ARGS[k] else 3]
    requires Reaches(START, Run0(5, ReadAddr1(OWN), Copying(ID, got, snap)))
    ensures Reaches(START, Run0(5, ReadAddr1(OWN), Copying(ID, got', snap')))
  {
    hide Reaches;
    var s := Run0(5, ReadAddr1(OWN), Copying(ID, got, snap));
    var s' := Run0(5, ReadAddr1(OWN), Copying(ID, got', snap'));
    assert s' == Move(s, 1, Copying(ID, got + {k}, snap[k := DescWord(TAGGED, k)]));
    assert SnapshotStep(s, 1, s');
    hide SnapshotStep;
    Step(START, s, 1, s');
  }

  const COPY: seq<int> := [0, 5, 1, 7, 9, 3]

  const OTHER: Help := Help(ID, false, COPY)

  lemma Copies()
    ensures Reaches(START, Run0(5, ReadAddr1(OWN), ReadAddr1(OTHER)))
  {
    hide Reaches, Run0;
    Installs();
    CopyOne(0, {}, NO_WORDS, {0}, [0, 0, 0, 0, 0, 0]);
    CopyOne(1, {0}, [0, 0, 0, 0, 0, 0], {0, 1}, [0, 5, 0, 0, 0, 0]);
    CopyOne(2, {0, 1}, [0, 5, 0, 0, 0, 0], {0, 1, 2}, [0, 5, 1, 0, 0, 0]);
    CopyOne(3, {0, 1, 2}, [0, 5, 1, 0, 0, 0], {0, 1, 2, 3}, [0, 5, 1, 7, 0, 0]);
    CopyOne(4, {0, 1, 2, 3}, [0, 5, 1, 7, 0, 0], {0, 1, 2, 3, 4}, [0, 5, 1, 7, 9, 0]);
    CopyOne(5, {0, 1, 2, 3, 4}, [0, 5, 1, 7, 9, 0], {0, 1, 2, 3, 4, 5}, COPY);
    Copied();
  }

  lemma Copied()
    requires Reaches(START, Run0(5, ReadAddr1(OWN), Copying(ID, {0, 1, 2, 3, 4, 5}, COPY)))
    ensures Reaches(START, Run0(5, ReadAddr1(OWN), ReadAddr1(OTHER)))
  {
    hide Reaches;
    var s, s' := Run0(5, ReadAddr1(OWN), Copying(ID, {0, 1, 2, 3, 4, 5}, COPY)), Run0(5, ReadAddr1(OWN), ReadAddr1(OTHER));
    assert s' == Move(s, 1, ReadAddr1(OTHER));
    assert SnapshotStep(s, 1, s');
    hide SnapshotStep;
    Step(START, s, 1, s');
  }

  /** addr1 changes, the helper reads it, addr1 changes back, the owner reads it. */
  lemma BothRead()
    ensures Reaches(START, Run0(5, ReadMutables(OWN, 5), ReadMutables(OTHER, 6)))
  {
    Copies();
    hide Reaches;
    var s0 := Run0(5, ReadAddr1(OWN), ReadAddr1(OTHER));
    Store(START, s0, 0, 6);
    var s1 := Run0(6, ReadAddr1(OWN), ReadAddr1(OTHER));
    assert s1 == s0.(control := s0.control[0 := 6]);
    var s2 := Run0(6, ReadAddr1(OWN), ReadMutables(OTHER, 6));
    assert s2 == Move(s1, 1, ReadMutables(OTHER, 6));
    assert HelpStep(s1, 1, s2);
    Step(START, s1, 1, s2);
    Store(START, s2, 0, 5);
    var s3 := Run0(5, ReadAddr1(OWN), ReadMutables(OTHER, 6));
    assert s3 == s2.(control := s2.control[0 := 5]);
    var s4 := Run0(5, ReadMutables(OWN, 5), ReadMutables(OTHER, 6));
    assert s4 == Move(s3, 0, ReadMutables(OWN, 5));
    assert Words(s3, OWN) == COPY;
    assert HelpStep(s3, 0, s4);
    Step(START, s3, 0, s4);
  }

  const FAILED: Desc := Desc(3, Failed, ARGS)

  /** Thread 1 has decided that the operation fails. */
  function Over(own: Pc, pc: Pc, word: Word, removed: set<Id>): State
  {
    State(map[0 := 5], map[1 := word], [FAILED, FREE], [Thread(DcssOp(ARGS), own), Thread(ReadOp(1), pc)],
          map[ID := ARGS], {ID}, map[ID := false], removed)
  }

  lemma BothCompare()
    ensures Reaches(START, Run0(5, CasState(OWN, 5), CasState(OTHER, 6)))
  {
    BothRead();
    hide Reaches;
    var s0 := Run0(5, ReadMutables(OWN, 5), ReadMutables(OTHER, 6));
    var s1 := Run0(5, CasState(OWN, 5), ReadMutables(OTHER, 6));
    assert s1 == Move(s0, 0, CasState(OWN, 5)) && Words(s0, OWN) == COPY;
    assert HelpStep(s0, 0, s1);
    Step(START, s0, 0, s1);
    var s2 := Run0(5, CasState(OWN, 5), CasState(OTHER, 6));
    assert s2 == Move(s1, 1, CasState(OTHER, 6));
    assert HelpStep(s1, 1, s2);
    Step(START, s1, 1, s2);
  }

  lemma HelperDecides()
    ensures Reaches(START, Over(CasState(OWN, 5), Cleanup(OTHER, 6, false), Tag(ID), {}))
  {
    BothCompare();
    hide Reaches;
    var s := Run0(5, CasState(OWN, 5), CasState(OTHER, 6));
    var s' := Over(CasState(OWN, 5), Cleanup(OTHER, 6, false), Tag(ID), {});
    assert s' == Move(SetDesc(s, 0, FAILED), 1, Cleanup(OTHER, 6, false)).(decided := s.decided[ID := false]);
    assert s.desc[0] == TAGGED && Words(s, OTHER) == COPY;
    assert HelpStep(s, 1, s');
    hide HelpStep;
    Step(START, s, 1, s');
  }

  lemma HelperCleans()
    ensures Reaches(START, Over(CasState(OWN, 5), Attempt, Val(7), {ID}))
  {
    HelperDecides();
    hide Reaches;
    var s := Over(CasState(OWN, 5), Cleanup(OTHER, 6, false), Tag(ID), {});
    var s' := Over(CasState(OWN, 5), Attempt, Val(7), {ID});
    assert s' == Move(s, 1, Attempt).(data := s.data[1 := Val(7)], removed := s.removed + {ID});
    assert Words(s, OTHER) == COPY && s.data[1] == Tag(ID);
    assert HelpStep(s, 1, s');
    hide HelpStep;
    Step(START, s, 1, s');
  }

  lemma OwnerReturns()
    ensures Reaches(START, Over(Returned(FailedAddr1(5)), Attempt, Val(7), {ID}))
  {
    HelperCleans();
    hide Reaches;
    var s0 := Over(CasState(OWN, 5), Attempt, Val(7), {ID});
    var s1 := Over(Cleanup(OWN, 5, false), Attempt, Val(7), {ID});
    assert s1 == Move(s0, 0, Cleanup(OWN, 5, false)) && Words(s0, OWN) == COPY;
    assert HelpStep(s0, 0, s1);
    Step(START, s0, 0, s1);
    var s2 := Over(Returned(FailedAddr1(5)), Attempt, Val(7), {ID});
    assert s2 == Move(s1, 0, Returned(FailedAddr1(5))) && Words(s1, OWN) == COPY;
    assert HelpStep(s1, 0, s2);
    Step(START, s1, 0, s2);
  }

  /** There is such a run. */
  lemma FailsWithOld1() returns (tr: seq<State>)
    ensures Run(tr)
    ensures var s := tr[|tr| - 1];
            |s.threads| == 2 && s.threads[0] == Thread(DcssOp(ARGS), Returned(FailedAddr1(ARGS[OLD1])))
  {
    OwnerReturns();
    assert Init(START);
    hide Next, Init;
    tr :| 0 < |tr| && tr[0] == START && tr[|tr| - 1] == Over(Returned(FailedAddr1(5)), Attempt, Val(7), {ID})
      && forall k: nat :: k + 1 < |tr| ==> Next(tr[k], tr[k + 1]);
  }
}
