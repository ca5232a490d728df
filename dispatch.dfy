/**
 Role dispatch and exit codes (`main` in random_walk.cpp), and the whole run
 that the ranks make together.

 Each rank starts with zeroed globals. Rank 0 selects the parameters and may
 stop there with status 1; otherwise the broadcast gives every rank rank 0's
 values, rank 0 runs the controller, every other rank runs the walker, and
 the process returns 0.

 The runtime itself is not modelled: the broadcast is the passing of rank 0's
 chosen parameters to the other ranks, a walker's send is its returned
 effect, and the order in which the controller receives the messages is an
 arbitrary permutation of the walker ranks given as input.
 */
module Dispatch {
  import opened Parameters
  import Walker
  import Controller

  /** The fixed mapping from rank to behaviour. */
  datatype Role = RunsController | RunsWalker

  function RoleOf(rank: int): Role
  {
    if rank == 0 then RunsController else RunsWalker
  }

  /** What a rank does besides returning its exit status. */
  datatype Effect =
    | UsageReported(message: string)
    | Reported(lines: seq<Controller.Line>)
    | Sent(dest: int, payload: int)

  /** The signal that walker rank `rank` sends, given rank 0's startup inputs. */
  function WalkerSignal(s: Startup, draws: int -> nat -> int, rank: int): int
    requires Choose(s).Chosen?
  {
    Walker.CompletionSignal(
      Walker.Run(draws(rank), Choose(s).params.domainSize, Choose(s).params.maxSteps))
  }

  /** `main` on one rank. `draws` stands for that rank's random stream and
      `arrivals` for the order in which rank 0 receives the walkers' messages.
      A rank other than 0 gets past the broadcast only when rank 0 chose
      parameters; rank 0 receives `world_size - 1` messages when it reports. */
  method RankMain(s: Startup, rank: int, worldSize: int, draws: nat -> int,
                  arrivals: seq<Controller.Message>)
    returns (exit: int, effect: Effect)
    requires 0 <= rank < worldSize
    requires rank != 0 ==> Choose(s).Chosen?
    requires rank == 0 && Choose(s).Chosen? ==> |arrivals| >= worldSize - 1
    ensures exit == (if rank == 0 && Choose(s).UsageError? then 1 else 0)
    ensures rank == 0 && Choose(s).UsageError? ==> effect == UsageReported(UsageMessage(s.program))
    ensures rank == 0 && Choose(s).Chosen? ==>
      effect.Reported? && Controller.IsReport(worldSize, arrivals, effect.lines)
    ensures rank != 0 ==> effect == Sent(0, Walker.CompletionSignal(
      Walker.Run(draws, Choose(s).params.domainSize, Choose(s).params.maxSteps)))
  {
    var globals := new Globals();
    if rank == 0 {
      var usage := globals.SelectParameters(s);
      if usage.Some? {
        return 1, UsageReported(usage.value);
      }
    } else {
      // Rank 0's globals after its own selection are what the broadcast carries.
      var root := new Globals();
      var _ := root.SelectParameters(s);
      globals.ReceiveBroadcast(root.Current());
    }
    match RoleOf(rank) {
      case RunsController =>
        var lines := Controller.ControllerProcess(worldSize, arrivals);
        effect := Reported(lines);
      case RunsWalker =>
        var signal, _ := Walker.WalkerProcess(globals.domainSize, globals.maxSteps, draws);
        effect := Sent(0, signal);
    }
    exit := 0;
  }

  /** `order` lists each walker rank `1 .. worldSize - 1` once. */
  predicate IsArrivalOrder(worldSize: int, order: seq<int>)
  {
    |order| == Controller.Walkers(worldSize) &&
    (forall i :: 0 <= i < |order| ==> 1 <= order[i] < worldSize) &&
    (forall i, j :: 0 <= i < j < |order| ==> order[i] != order[j])
  }

  /** The integers `lo .. hi - 1`. */
  function Range(lo: int, hi: int): (rs: set<int>)
    ensures forall x :: x in rs <==> lo <= x < hi
    decreases hi - lo
  {
    if lo >= hi then {} else {lo} + Range(lo + 1, hi)
  }

  lemma {:induction false} RangeSize(lo: int, hi: int)
    requires lo <= hi
    ensures |Range(lo, hi)| == hi - lo
    decreases hi - lo
  {
    if lo < hi {
      RangeSize(lo + 1, hi);
    }
  }

  lemma {:induction false} DistinctSize(order: seq<int>)
    requires forall i, j :: 0 <= i < j < |order| ==> order[i] != order[j]
    ensures |set x | x in order| == |order|
  {
    if order != [] {
      var rest := order[1..];
      assert (set x | x in order) == (set x | x in rest) + {order[0]};
      assert order[0] !in rest;
      DistinctSize(rest);
    }
  }

  /** An arrival order contains every walker rank: `worldSize - 1` distinct
      ranks drawn from `1 .. worldSize - 1` are all of them. */
  lemma ArrivalOrderCovers(worldSize: int, order: seq<int>)
    requires worldSize >= 1 && IsArrivalOrder(worldSize, order)
    ensures forall r :: 1 <= r < worldSize ==> r in order
  {
    var seen := set x | x in order;
    var ranks := Range(1, worldSize);
    DistinctSize(order);
    RangeSize(1, worldSize);
    assert seen <= ranks;
    assert |ranks - seen| == |ranks| - |seen|;
    assert ranks - seen == {};
    forall r | 1 <= r < worldSize
      ensures r in order
    {
      assert r in ranks;
    }
  }

  /** A report that follows an arrival order names every walker rank, each with
      the signal of its own walk. */
  lemma EveryWalkerReported(s: Startup, draws: int -> nat -> int, worldSize: int, order: seq<int>,
                            report: seq<Controller.Line>)
    requires Choose(s).Chosen?
    requires worldSize >= 1 && IsArrivalOrder(worldSize, order) && |report| >= worldSize - 1
    requires forall i :: 0 <= i < worldSize - 1 ==>
      report[i] == Controller.WalkerFinished(order[i], WalkerSignal(s, draws, order[i]))
    ensures forall r :: 1 <= r < worldSize ==>
      Controller.WalkerFinished(r, WalkerSignal(s, draws, r)) in report[..worldSize - 1]
  {
    ArrivalOrderCovers(worldSize, order);
    forall r | 1 <= r < worldSize
      ensures Controller.WalkerFinished(r, WalkerSignal(s, draws, r)) in report[..worldSize - 1]
    {
      assert r in order;
      var i :| 0 <= i < |order| && order[i] == r;
      assert report[..worldSize - 1][i] == Controller.WalkerFinished(r, WalkerSignal(s, draws, r));
    }
  }

  /** How a whole run ends: rank 0 stops with its usage message, or every rank
      returns and rank 0 has written its report. */
  datatype RunOutcome =
    | Aborted(rootExit: int, message: string)
    | Finished(exitCodes: seq<int>, report: seq<Controller.Line>)

  /** All ranks of one run. `draws(r)` is rank r's random stream and `order`
      the order in which rank 0 receives the walkers' messages. */
  method RunAll(s: Startup, worldSize: int, draws: int -> nat -> int, order: seq<int>)
    returns (outcome: RunOutcome)
    requires worldSize >= 1
    requires IsArrivalOrder(worldSize, order)
    ensures outcome.Aborted? <==> Choose(s).UsageError?
    ensures outcome.Aborted? ==> outcome == Aborted(1, UsageMessage(s.program))
    ensures outcome.Finished? ==>
      |outcome.exitCodes| == worldSize &&
      (forall r :: 0 <= r < worldSize ==> outcome.exitCodes[r] == 0) &&
      |outcome.report| == worldSize &&
      outcome.report[worldSize - 1] == Controller.AllCompleted
    ensures outcome.Finished? ==>
      forall i :: 0 <= i < worldSize - 1 ==>
        outcome.report[i] == Controller.WalkerFinished(order[i], WalkerSignal(s, draws, order[i]))
    ensures outcome.Finished? ==>
      forall r :: 1 <= r < worldSize ==>
        Controller.WalkerFinished(r, WalkerSignal(s, draws, r)) in outcome.report[..worldSize - 1]
    ensures outcome.Finished? ==>
      forall i, j :: 0 <= i < j < worldSize - 1 ==> outcome.report[i].walker != outcome.report[j].walker
  {
    if Choose(s).UsageError? {
      var exit, effect := RankMain(s, 0, worldSize, draws(0), []);
      return Aborted(exit, effect.message);
    }
    // Every walker rank runs and sends its signal; signals[r - 1] is rank r's.
    var signals: seq<int> := [];
    var exitCodes: seq<int> := [];
    var r := 1;
    while r < worldSize
      invariant 1 <= r <= worldSize
      invariant |signals| == r - 1 && |exitCodes| == r - 1
      invariant forall k :: 0 <= k < r - 1 ==> signals[k] == WalkerSignal(s, draws, k + 1)
      invariant forall k :: 0 <= k < r - 1 ==> exitCodes[k] == 0
    {
      var exit, effect := RankMain(s, r, worldSize, draws(r), []);
      signals := signals + [effect.payload];
      exitCodes := exitCodes + [exit];
      r := r + 1;
    }
    var arrivals := seq(|order|, i requires 0 <= i < |order| =>
      Controller.Message(order[i], signals[order[i] - 1]));
    var rootExit, rootEffect := RankMain(s, 0, worldSize, draws(0), arrivals);
    outcome := Finished([rootExit] + exitCodes, rootEffect.lines);
    EveryWalkerReported(s, draws, worldSize, order, outcome.report);
  }
}
