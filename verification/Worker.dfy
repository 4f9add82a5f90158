/** The benchmark's worker loop (main.cpp): it groups tasks into transactions and counts what committed. */
module Workers {
  import opened ListHeap
  import opened ListSize

  datatype Task = Task(kind: Kind, key: nat)

  /** What the list and the transaction manager answer while a task is worked on: the operation aborts, or returns
      a value or null, and TXend, if it is called after this task, commits or aborts. */
  datatype Reply = Reply(aborts: bool, result: bool, commits: bool)

  /** The operations of the committed transactions among the tasks from `k` on, when the operations `current` of the
      transaction under way have succeeded so far. */
  function Committed(tasks: seq<Task>, replies: seq<Reply>, opsPerTx: nat, k: nat, current: seq<Event>): seq<Event>
    requires k <= |tasks| == |replies|
    decreases |tasks| - k
  {
    if k == |tasks| then []
    else if replies[k].aborts then Committed(tasks, replies, opsPerTx, k + 1, [])
    else
      var current' := current + [Event(tasks[k].kind, tasks[k].key, replies[k].result)];
      if |current'| == opsPerTx || k == |tasks| - 1 then
        (if replies[k].commits then current' else []) + Committed(tasks, replies, opsPerTx, k + 1, [])
      else Committed(tasks, replies, opsPerTx, k + 1, current')
  }

  function Inserts(log: seq<Event>): nat
  {
    if log == [] then 0
    else Inserts(log[..|log| - 1]) + if log[|log| - 1].kind == Put && !log[|log| - 1].result then 1 else 0
  }

  function Removes(log: seq<Event>): nat
  {
    if log == [] then 0
    else Removes(log[..|log| - 1]) + if log[|log| - 1].kind == Remove && log[|log| - 1].result then 1 else 0
  }

  lemma {:induction false} CountsConcat(a: seq<Event>, b: seq<Event>)
    ensures Inserts(a + b) == Inserts(a) + Inserts(b) && Removes(a + b) == Removes(a) + Removes(b)
  {
    if b == [] {
      assert a + b == a;
    } else {
      CountsConcat(a, b[..|b| - 1]);
      assert (a + b)[..|a + b| - 1] == a + b[..|b| - 1];
    }
  }

  /** The two counters together say by how much a log changes the size of the set. */
  lemma {:induction false} NetOfCounts(log: seq<Event>)
    ensures Net(log) == Inserts(log) - Removes(log)
  {
    if log != [] { NetOfCounts(log[..|log| - 1]); }
  }

  /** One task that does not end its transaction, one whose transaction commits, one whose transaction aborts. */
  lemma CommittedStep(tasks: seq<Task>, replies: seq<Reply>, opsPerTx: nat, k: nat, current: seq<Event>, done: seq<Event>)
    requires k < |tasks| == |replies|
    ensures var current' := current + [Event(tasks[k].kind, tasks[k].key, replies[k].result)];
            var ends := |current'| == opsPerTx || k == |tasks| - 1;
            var all := done + Committed(tasks, replies, opsPerTx, k, current);
            && (replies[k].aborts || (ends && !replies[k].commits) ==> all == done + Committed(tasks, replies, opsPerTx, k + 1, []))
            && (!replies[k].aborts && ends && replies[k].commits ==>
                  all == (done + current') + Committed(tasks, replies, opsPerTx, k + 1, []))
            && (!replies[k].aborts && !ends ==> all == done + Committed(tasks, replies, opsPerTx, k + 1, current'))
  {
  }

  lemma CountOne(log: seq<Event>, e: Event)
    ensures Inserts(log + [e]) == Inserts(log) + if e.kind == Put && !e.result then 1 else 0
    ensures Removes(log + [e]) == Removes(log) + if e.kind == Remove && e.result then 1 else 0
  {
    assert (log + [e])[..|log|] == log;
  }

  class Worker {
    var succOps: nat
    var failOps: nat
    var insertsOccurred: nat
    var removesOccurred: nat

    constructor ()
      ensures succOps == failOps == insertsOccurred == removesOccurred == 0
    {
      succOps, failOps, insertsOccurred, removesOccurred := 0, 0, 0, 0;
    }

    /** A transaction has committed. */
    method CountCommitted(ops: nat, inserts: nat, removes: nat)
      modifies this
      ensures insertsOccurred == old(insertsOccurred) + inserts && removesOccurred == old(removesOccurred) + removes
      ensures succOps == old(succOps) + ops && failOps == old(failOps)
    {
      insertsOccurred := insertsOccurred + inserts;
      removesOccurred := removesOccurred + removes;
      succOps := succOps + ops;
    }

    /** The counters end up with exactly what committed transactions did: operations of aborted ones count as
        failed, whichever of their operations aborted, and for nothing else. */
    method Work(tasks: seq<Task>, replies: seq<Reply>, opsPerTx: nat)
      requires |tasks| == |replies|
      modifies this
      ensures var log := Committed(tasks, replies, opsPerTx, 0, []);
              && insertsOccurred == old(insertsOccurred) + Inserts(log)
              && removesOccurred == old(removesOccurred) + Removes(log)
              && succOps == old(succOps) + |log|
      ensures succOps + failOps == old(succOps + failOps) + |tasks|
    {
      ghost var all := Committed(tasks, replies, opsPerTx, 0, []);
      var opsInTx, insertsInTx, removesInTx := 0, 0, 0;
      ghost var done: seq<Event>, current: seq<Event> := [], [];
      var k := 0;
      hide Inserts, Removes, Committed;
      Start(tasks, replies, opsPerTx);
      while k < |tasks|
        invariant k <= |tasks| && opsInTx == |current| && (k == |tasks| ==> current == [])
        invariant done + Committed(tasks, replies, opsPerTx, k, current) == all
        invariant insertsInTx == Inserts(current) && removesInTx == Removes(current)
        invariant insertsOccurred == old(insertsOccurred) + Inserts(done) && removesOccurred == old(removesOccurred) + Removes(done)
        invariant succOps == old(succOps) + |done|
        invariant succOps + failOps + opsInTx == old(succOps + failOps) + k
      {
        CommittedStep(tasks, replies, opsPerTx, k, current, done);
        opsInTx := opsInTx + 1;
        var aborted := replies[k].aborts;
        if !aborted {
          var task, result := tasks[k], replies[k].result;
          CountOne(current, Event(task.kind, task.key, result));
          current := current + [Event(task.kind, task.key, result)];
          if task.kind == Put && !result { insertsInTx := insertsInTx + 1; }
          if task.kind == Remove && result { removesInTx := removesInTx + 1; }
          if opsInTx == opsPerTx || k == |tasks| - 1 {
            aborted := !replies[k].commits;
            if !aborted {
              CountCommitted(opsInTx, insertsInTx, removesInTx);
              CountsConcat(done, current);
              done := done + current;
              opsInTx, insertsInTx, removesInTx, current := 0, 0, 0, [];
            }
          }
        }
        if aborted {
          failOps := failOps + opsInTx;
          opsInTx, insertsInTx, removesInTx, current := 0, 0, 0, [];
        }
        k := k + 1;
      }
      assert done + [] == done;
    }
  }

  lemma Start(tasks: seq<Task>, replies: seq<Reply>, opsPerTx: nat)
    requires |tasks| == |replies|
    ensures Inserts([]) == Removes([]) == 0 && Committed(tasks, replies, opsPerTx, |tasks|, []) == []
  {
  }

  /** What a worker adds to the expected size of the list is the net count of its committed operations. */
  method ExpectedChange(w: Worker, tasks: seq<Task>, replies: seq<Reply>, opsPerTx: nat) returns (change: int)
    requires |tasks| == |replies| && w.insertsOccurred == w.removesOccurred == 0
    modifies w
    ensures change == Net(Committed(tasks, replies, opsPerTx, 0, []))
  {
    w.Work(tasks, replies, opsPerTx);
    NetOfCounts(Committed(tasks, replies, opsPerTx, 0, []));
    change := w.insertsOccurred - w.removesOccurred;
  }
}
