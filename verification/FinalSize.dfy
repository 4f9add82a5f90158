/** The benchmark's final check (main.cpp): what the counters of all workers say is what `get_size` finds. */
module FinalSize {
  import opened ListHeap
  import opened Transactions
  import opened TxEveryRun
  import opened TxMachine
  import opened Serializability
  import opened ListSize
  import Workers

  /** The transactions of all workers, worker by worker. */
  function Flat(work: seq<seq<nat>>): seq<nat>
  {
    if work == [] then [] else Flat(work[..|work| - 1]) + work[|work| - 1]
  }

  /** The workers of a run: worker `w` ran the transactions `work[w]` and saw them commit, each committed
      transaction was run by one worker, and its operations are those it counted. */
  predicate Staffed(txs: seq<Tx>, work: seq<seq<nat>>, logs: seq<seq<Event>>)
  {
    && |logs| == |work|
    && (forall k :: 0 <= k < |Flat(work)| ==> Flat(work)[k] < |txs| && txs[Flat(work)[k]].pc.Committed?)
    && (forall j, k :: 0 <= j < k < |Flat(work)| ==> Flat(work)[j] != Flat(work)[k])
    && (forall i: nat :: i < |txs| && txs[i].pc.Committed? ==> i in Flat(work))
    && (forall w :: 0 <= w < |work| ==> (forall k :: 0 <= k < |work[w]| ==> work[w][k] < |txs|) && logs[w] == Logs(txs, work[w]))
  }

  /** What the counters of all workers say the size has changed by. */
  function Expected(logs: seq<seq<Event>>): int
  {
    if logs == [] then 0
    else Expected(logs[..|logs| - 1]) + Workers.Inserts(logs[|logs| - 1]) - Workers.Removes(logs[|logs| - 1])
  }

  lemma {:induction false} FlatNet(txs: seq<Tx>, work: seq<seq<nat>>, logs: seq<seq<Event>>)
    requires |logs| == |work| && forall k :: 0 <= k < |Flat(work)| ==> Flat(work)[k] < |txs|
    requires forall w :: 0 <= w < |work| ==> (forall k :: 0 <= k < |work[w]| ==> work[w][k] < |txs|) && logs[w] == Logs(txs, work[w])
    ensures Expected(logs) == Net(Logs(txs, Flat(work)))
  {
    if work != [] {
      var front, last := work[..|work| - 1], work[|work| - 1];
      forall k | 0 <= k < |Flat(front)| ensures Flat(front)[k] < |txs| { assert Flat(work)[k] == Flat(front)[k]; }
      FlatNet(txs, front, logs[..|logs| - 1]);
      LogsOfBoth(txs, Flat(front), last);
      NetConcat(Logs(txs, Flat(front)), Logs(txs, last));
      Workers.NetOfCounts(logs[|logs| - 1]);
    }
  }

  lemma {:induction false} LogsOfBoth(txs: seq<Tx>, a: seq<nat>, b: seq<nat>)
    requires (forall k :: 0 <= k < |a| ==> a[k] < |txs|) && forall k :: 0 <= k < |b| ==> b[k] < |txs|
    ensures Logs(txs, a + b) == Logs(txs, a) + Logs(txs, b)
  {
    if b == [] {
      assert a + b == a;
    } else {
      LogsOfBoth(txs, a, b[..|b| - 1]);
      assert (a + b)[..|a + b| - 1] == a + b[..|b| - 1];
    }
  }

  lemma StaffedNet(txs: seq<Tx>, work: seq<seq<nat>>, logs: seq<seq<Event>>)
    requires Staffed(txs, work, logs)
    ensures Expected(logs) == CommittedNet(txs, |txs|)
  {
    var n := |txs|;
    var f := seq(n, i requires 0 <= i < n => NetOf(txs[i]));
    FlatNet(txs, work, logs);
    LogsNet(txs, Flat(work), f);
    SumInAnyOrder(f, Flat(work));
    CommittedNetIs(txs, n);
  }

  /** The benchmark's check of the final size: once all workers are done, `get_size` returns the initial size plus
      what their counters say. */
  method FinalSizeMatches(ghost tr: seq<State>, ghost k: nat, mem: map<Node, MemNode>,
                          ghost work: seq<seq<nat>>, ghost logs: seq<seq<Event>>) returns (size: nat)
    requires Run(tr) && k < |tr| && Faithful(tr[k]) && Quiescent(tr[k]) && mem == tr[k].sh.mem
    requires Staffed(tr[k].txs, work, logs)
    ensures size == |Keys(tr[0].sh.committed)| + Expected(logs)
  {
    StaffedNet(tr[k].txs, work, logs);
    hide Run, Faithful, Quiescent, Staffed, Expected, CommittedNet;
    size := SizeIsConserved(tr, k, mem);
  }
}
