/**
 The controller's fan-in report (`controller_process` in random_walk.cpp).

 Rank 0 receives `world_size - 1` messages from any source. For each it
 writes "Walker <source> finished in <steps> steps.", taking the source rank
 from the message's metadata and the step count from its payload; afterwards
 it writes "All walkers have completed their walks." once.

 The message transport is abstracted: `arrivals` is the order in which
 messages are delivered, and the i-th receive returns `arrivals[i]`. The
 console lines are returned as records.
 */
module Controller {

  /** A received message: the sender's rank (from the status) and the payload. */
  datatype Message = Message(source: int, steps: int)

  /** One line of the controller's report. */
  datatype Line = WalkerFinished(walker: int, steps: int) | AllCompleted

  /** The number of receives the loop makes: `world_size - 1`, none when that
      is not positive. */
  function Walkers(worldSize: int): nat
  {
    if worldSize <= 1 then 0 else worldSize - 1
  }

  /** `lines` is the report for `arrivals`: one walker line per message
      received, in arrival order, followed by a single completion line. */
  predicate IsReport(worldSize: int, arrivals: seq<Message>, lines: seq<Line>)
  {
    |lines| == Walkers(worldSize) + 1 &&
    Walkers(worldSize) <= |arrivals| &&
    (forall i :: 0 <= i < Walkers(worldSize) ==>
       lines[i] == WalkerFinished(arrivals[i].source, arrivals[i].steps)) &&
    lines[Walkers(worldSize)] == AllCompleted
  }

  /** The controller's loop. Only the first `world_size - 1` arrivals are
      received; the runtime delivers at least that many. */
  method ControllerProcess(worldSize: int, arrivals: seq<Message>) returns (lines: seq<Line>)
    requires |arrivals| >= worldSize - 1
    ensures IsReport(worldSize, arrivals, lines)
  {
    var numWalkers := worldSize - 1;
    lines := [];
    var i := 0;
    while i < numWalkers
      invariant 0 <= i <= Walkers(worldSize)
      invariant |lines| == i
      invariant forall k :: 0 <= k < i ==>
        lines[k] == WalkerFinished(arrivals[k].source, arrivals[k].steps)
    {
      var received := arrivals[i];
      lines := lines + [WalkerFinished(received.source, received.steps)];
      i := i + 1;
    }
    lines := lines + [AllCompleted];
  }

  /** The completion line appears exactly once, as the last line, and every
      other line reports a walker. */
  lemma CompletionLineOnce(worldSize: int, arrivals: seq<Message>, lines: seq<Line>)
    requires IsReport(worldSize, arrivals, lines)
    ensures forall i :: 0 <= i < |lines| ==> (lines[i] == AllCompleted <==> i == |lines| - 1)
    ensures forall i :: 0 <= i < |lines| - 1 ==> lines[i].WalkerFinished?
  {
  }

  /** The report is determined by the arrivals: all that differs between two
      runs is the arrival order. */
  lemma ReportDeterminedByArrivals(worldSize: int, arrivals: seq<Message>, lines1: seq<Line>, lines2: seq<Line>)
    requires IsReport(worldSize, arrivals, lines1)
    requires IsReport(worldSize, arrivals, lines2)
    ensures lines1 == lines2
  {
  }

  /** With no walker ranks the controller writes only the completion line. */
  lemma NoWalkers(worldSize: int, arrivals: seq<Message>, lines: seq<Line>)
    requires worldSize <= 1
    requires IsReport(worldSize, arrivals, lines)
    ensures lines == [AllCompleted]
  {
  }
}
