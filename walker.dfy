/**
 A walker's bounded random walk (`walker_process` in random_walk.cpp).

 The walker starts at position 0 and, for at most `maxSteps` iterations,
 moves one cell left or right; it stops early, through a `break`, as soon as
 its position satisfies `position <= -domainSize || position >= domainSize`.
 Afterwards it reports `steps + 1`, where `steps` is the loop counter.

 The coin flips `rand() % 2` are replaced by an oracle `draws`: `draws(k)` is
 the value the k-th call of `rand()` returns, so the walk is deterministic in
 its inputs.
 */
module Walker {

  /** The move chosen from one value of `rand()`: even values move left, odd
      values move right. C's `%` truncates and Dafny's is Euclidean, but both
      give 0 exactly for the even values, so the two agree on every input. */
  function Direction(r: int): (d: int)
    ensures d == -1 || d == 1
  {
    if r % 2 == 0 then -1 else 1
  }

  /** Position after the first `k` moves of the walk. */
  function Position(draws: nat -> int, k: nat): int
  {
    if k == 0 then 0 else Position(draws, k - 1) + Direction(draws(k - 1))
  }

  /** The absorption test made after every move. */
  predicate Outside(position: int, domainSize: int)
  {
    position <= -domainSize || position >= domainSize
  }

  /** How a walk ends, with the number of moves it applied. */
  datatype Ending = Absorbed(moves: nat) | Exhausted(moves: nat)

  /** The walk's state machine from the state in which `k` moves have been
      made and none of them was absorbing. */
  function RunFrom(draws: nat -> int, domainSize: int, maxSteps: int, k: nat): Ending
    decreases maxSteps - k
  {
    if k >= maxSteps then Exhausted(k)
    else if Outside(Position(draws, k + 1), domainSize) then Absorbed(k + 1)
    else RunFrom(draws, domainSize, maxSteps, k + 1)
  }

  /** The whole walk, from position 0 with no move made. */
  function Run(draws: nat -> int, domainSize: int, maxSteps: int): Ending
  {
    RunFrom(draws, domainSize, maxSteps, 0)
  }

  /** The integer the walker sends: the loop counter plus one. A `break` on the
      absorbing move leaves the counter one below the number of moves; an
      exhausted loop leaves it equal to the number of moves. */
  function CompletionSignal(e: Ending): int
  {
    match e
    case Absorbed(m) => (m - 1) + 1
    case Exhausted(m) => m + 1
  }

  /** `max(maxSteps, 0)`: the number of iterations the loop may run. */
  function Budget(maxSteps: int): nat
  {
    if maxSteps <= 0 then 0 else maxSteps
  }

  /** Every move changes the position by one, so `k` moves stay within `k` of 0. */
  lemma {:induction false} PositionBound(draws: nat -> int, k: nat)
    ensures -(k as int) <= Position(draws, k) <= k
  {
    if k > 0 {
      PositionBound(draws, k - 1);
    }
  }

  /** What the state machine does from an unabsorbed state with `k` moves made:
      it is absorbed at the first later move that lands outside, or it
      exhausts the budget with every move inside. */
  lemma {:induction false} RunFromSpec(draws: nat -> int, domainSize: int, maxSteps: int, k: nat)
    requires k == 0 || k <= maxSteps
    requires forall i :: 1 <= i <= k ==> !Outside(Position(draws, i), domainSize)
    ensures match RunFrom(draws, domainSize, maxSteps, k)
      case Absorbed(j) =>
        k < j <= maxSteps && Outside(Position(draws, j), domainSize) &&
        forall i :: 1 <= i < j ==> !Outside(Position(draws, i), domainSize)
      case Exhausted(j) =>
        j == Budget(maxSteps) &&
        forall i :: 1 <= i <= maxSteps ==> !Outside(Position(draws, i), domainSize)
    decreases maxSteps - k
  {
    if k < maxSteps && !Outside(Position(draws, k + 1), domainSize) {
      RunFromSpec(draws, domainSize, maxSteps, k + 1);
    }
  }

  /** The loop runs at most `max(maxSteps, 0)` times and the signal lies in
      `1 .. max(maxSteps, 0) + 1`. */
  lemma WalkBounds(draws: nat -> int, domainSize: int, maxSteps: int)
    ensures Run(draws, domainSize, maxSteps).moves <= Budget(maxSteps)
    ensures 1 <= CompletionSignal(Run(draws, domainSize, maxSteps)) <= Budget(maxSteps) + 1
  {
    RunFromSpec(draws, domainSize, maxSteps, 0);
  }

  /** An absorbed walk reports the number of moves it made, at most `maxSteps`;
      its last position is outside the domain and every earlier one inside. */
  lemma AbsorbedWalk(draws: nat -> int, domainSize: int, maxSteps: int)
    requires Run(draws, domainSize, maxSteps).Absorbed?
    ensures var j := Run(draws, domainSize, maxSteps).moves;
      CompletionSignal(Run(draws, domainSize, maxSteps)) == j && 1 <= j <= maxSteps &&
      Outside(Position(draws, j), domainSize) &&
      forall i :: 1 <= i < j ==> -domainSize < Position(draws, i) < domainSize
  {
    RunFromSpec(draws, domainSize, maxSteps, 0);
  }

  /** No move within the budget lands outside the domain. */
  predicate NeverAbsorbed(draws: nat -> int, domainSize: int, maxSteps: int)
  {
    forall i :: 1 <= i <= maxSteps ==> !Outside(Position(draws, i), domainSize)
  }

  /** The signal is `max(maxSteps, 0) + 1` exactly when no move is absorbing;
      an exhausted walk therefore reports one more than the moves it made. */
  lemma ExhaustedWalk(draws: nat -> int, domainSize: int, maxSteps: int)
    ensures Run(draws, domainSize, maxSteps).Exhausted? <==> NeverAbsorbed(draws, domainSize, maxSteps)
    ensures CompletionSignal(Run(draws, domainSize, maxSteps)) == Budget(maxSteps) + 1
      <==> NeverAbsorbed(draws, domainSize, maxSteps)
    ensures Run(draws, domainSize, maxSteps).Exhausted? ==>
      CompletionSignal(Run(draws, domainSize, maxSteps)) == Run(draws, domainSize, maxSteps).moves + 1
  {
    RunFromSpec(draws, domainSize, maxSteps, 0);
    var e := Run(draws, domainSize, maxSteps);
    if e.Absorbed? {
      assert !NeverAbsorbed(draws, domainSize, maxSteps) by {
        assert 1 <= e.moves <= maxSteps && Outside(Position(draws, e.moves), domainSize);
      }
    }
  }

  /** With `domainSize <= 1` the first move is absorbing, so the signal is 1. */
  lemma SmallDomain(draws: nat -> int, domainSize: int, maxSteps: int)
    requires domainSize <= 1 && maxSteps >= 1
    ensures Run(draws, domainSize, maxSteps) == Absorbed(1)
    ensures CompletionSignal(Run(draws, domainSize, maxSteps)) == 1
  {
  }

  /** With `maxSteps <= 0` the loop body never runs: the walker stays at 0 and
      reports 1. */
  lemma NoBudget(draws: nat -> int, domainSize: int, maxSteps: int)
    requires maxSteps <= 0
    ensures Run(draws, domainSize, maxSteps) == Exhausted(0)
    ensures Position(draws, Run(draws, domainSize, maxSteps).moves) == 0
    ensures CompletionSignal(Run(draws, domainSize, maxSteps)) == 1
  {
  }

  /** A single move cannot reach a boundary that is more than one cell away, so
      a one-step budget in a wide domain reports 2 (the loop counter ends at 1). */
  lemma WideDomainOneStep(draws: nat -> int, domainSize: int)
    requires domainSize >= 2
    ensures Run(draws, domainSize, 1) == Exhausted(1)
    ensures CompletionSignal(Run(draws, domainSize, 1)) == 2
  {
  }

  /** The walker's loop. Returns the signal it sends and its final position. */
  method WalkerProcess(domainSize: int, maxSteps: int, draws: nat -> int)
    returns (signal: int, position: int)
    ensures signal == CompletionSignal(Run(draws, domainSize, maxSteps))
    ensures position == Position(draws, Run(draws, domainSize, maxSteps).moves)
    ensures 1 <= signal <= Budget(maxSteps) + 1
  {
    position := 0;
    var steps: nat := 0;
    while steps < maxSteps
      invariant steps == 0 || steps <= maxSteps
      invariant position == Position(draws, steps)
      invariant Run(draws, domainSize, maxSteps) == RunFrom(draws, domainSize, maxSteps, steps)
      decreases maxSteps - steps
    {
      var direction := Direction(draws(steps));
      position := position + direction;
      if Outside(position, domainSize) {
        break;
      }
      steps := steps + 1;
    }
    signal := steps + 1;
    WalkBounds(draws, domainSize, maxSteps);
  }
}
