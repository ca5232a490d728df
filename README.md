# Bounded random walkers with an MPI controller — Dafny model

The program runs one controller (rank 0) and `world_size - 1` walkers. Rank 0
decides two integers, the domain half-width `domain_size` and the step budget
`max_steps`, and broadcasts them. Every walker then does a random walk from
position 0. It stops as soon as its position is `<= -domain_size` or
`>= domain_size`, or after `max_steps` iterations, and sends `steps + 1` to rank 0.
Rank 0 prints one line per message it receives, in arrival order, and then a
completion line.

The model has four modules, following the parts of `random_walk.cpp`:

- `Walker` (walker.dfy): the walk loop as a method, `WalkerProcess`. It is
  proved against a state-machine function, `Run`, that says how the walk ends
  (`Absorbed(moves)` or `Exhausted(moves)`). `CompletionSignal` is the integer
  that gets sent. The lemmas state what that integer means.
- `Parameters` (parameters.dfy): the precedence rule as a function, `Choose`.
  A class, `Globals`, holds the two process-wide globals. Its
  `SelectParameters` method assigns them step by step, in the order `main`
  does.
- `Controller` (controller.dfy): the receive-and-report loop, specified by
  the predicate `IsReport`.
- `Dispatch` (dispatch.dfy): `main` on one rank (`RankMain`). It covers role
  selection, the broadcast and the exit status. `RunAll` puts every rank of
  one run together, with an arbitrary arrival order.

Inputs that stand in for what the model leaves out:

- `draws: nat -> int`: `draws(k)` is the value the k-th call of `rand()`
  returns. The move is `-1` for an even value and `+1` for an odd one.
- `Startup`: the argument count, the parsed `argv[1]` and `argv[2]`,
  `argv[0]`, and the outcome of reading two integers from standard input.
- `arrivals` / `order`: the order in which the controller's receives return
  messages.

Where the code departs from the "steps taken" meaning its comment at
random_walk.cpp:88 gives, the model follows the code:

- An exhausted walk reports `max_steps + 1`, not `max_steps`. The loop counter
  leaves the `for` loop equal to `max_steps`, and line 88 adds one. So a budget
  of 1 in a wide domain reports 2 (`WideDomainOneStep`). Every signal lies in
  `1 .. max(max_steps, 0) + 1` (`WalkBounds`). An absorbed walk reports exactly its
  number of moves (`AbsorbedWalk`).
- With `max_steps <= 0` the walker reports 1 after zero moves (`NoBudget`).
- The usage message is `Usage: mpirun -np <p> <argv[0]> <domain_size> <max_steps>`,
  the text at line 37.

## Model

| member | source | states |
|---|---|---|
| `Walker.Direction` | random_walk.cpp:76 | every value drawn from `rand()` gives a move of exactly -1 or +1 |
| `Walker.PositionBound` | random_walk.cpp:69-77 | after k moves from 0 the position lies within -k .. k |
| `Walker.RunFromSpec` | random_walk.cpp:73-84 | from an unabsorbed state, the walk is absorbed at the first later move that lands outside the domain, with every earlier move inside; otherwise it ends after `max(max_steps, 0)` moves, all inside |
| `Walker.WalkBounds` | random_walk.cpp:73-88 | the loop makes at most `max(max_steps, 0)` moves, and the signal lies in `1 .. max(max_steps, 0) + 1` |
| `Walker.AbsorbedWalk` | random_walk.cpp:73-88 | an absorbed walk's signal equals its number of moves j, with `1 <= j <= max_steps`; position j is outside the domain and positions 1 .. j-1 are strictly inside |
| `Walker.ExhaustedWalk` | random_walk.cpp:73-88 | the walk is exhausted iff no move within the budget is absorbing, iff the signal is `max(max_steps, 0) + 1`; an exhausted walk reports one more than its number of moves |
| `Walker.SmallDomain` | random_walk.cpp:76-82 | with `domain_size <= 1` and a positive budget, the first move is absorbing and the signal is 1 |
| `Walker.NoBudget` | random_walk.cpp:69-88 | with `max_steps <= 0` no move is made, the position stays 0 and the signal is 1 |
| `Walker.WideDomainOneStep` | random_walk.cpp:73-88 | with `domain_size >= 2` and `max_steps == 1` the single move is not absorbing and the signal is 2 |
| `Walker.WalkerProcess` | random_walk.cpp:62-90 | the loop returns the signal of the state machine `Run` and the position after its moves; the signal lies in `1 .. max(max_steps, 0) + 1` |
| `Parameters.Choose` | random_walk.cpp:25-40 | parameters are chosen iff the stdin read succeeded or `argc == 3`; they are the stdin pair or, with `argc == 3`, the argv pair; otherwise the error carries the usage message |
| `Parameters.StdinOverridesArgv` | random_walk.cpp:26-34 | a successful stdin read decides the parameters whatever `argc` and argv hold |
| `Parameters.ArgvOnlyAsFallback` | random_walk.cpp:26-35 | when the stdin read failed and parameters were chosen, `argc == 3` and they are the argv values |
| `Parameters.UsageErrorExactly` | random_walk.cpp:32-39 | the usage error happens exactly when the stdin read failed and `argc != 3` |
| `Parameters.Globals.constructor` | random_walk.cpp:9-10 | the globals start at 0 |
| `Parameters.Globals.SelectParameters` | random_walk.cpp:25-40 | the step-by-step assignment leaves the globals equal to `Choose`'s parameters, or returns the usage message and leaves them unchanged |
| `Parameters.Globals.ReceiveBroadcast` | random_walk.cpp:43-44 | after the broadcast a rank's globals equal rank 0's values |
| `Controller.ControllerProcess` | random_walk.cpp:92-104 | makes exactly `world_size - 1` receives; writes one walker line per message, in arrival order, with the source rank and the payload, then one completion line |
| `Controller.CompletionLineOnce` | random_walk.cpp:95-103 | in a report, the completion line occurs once, as the last line; every earlier line reports a walker |
| `Controller.ReportDeterminedByArrivals` | random_walk.cpp:95-103 | the report depends only on the arrival sequence |
| `Controller.NoWalkers` | random_walk.cpp:94-103 | with `world_size <= 1` the report is only the completion line |
| `Dispatch.RankMain` | random_walk.cpp:14-59 | rank 0 returns 1 with the usage message exactly when no parameters can be chosen; otherwise it returns 0 with the controller's report; every other rank returns 0 after sending to rank 0 the walk signal computed from rank 0's parameters |
| `Dispatch.RunAll` | random_walk.cpp:43-59 | a run aborts with status 1 exactly when `Choose` fails; otherwise every rank returns 0, and report line i is walker `order[i]` with the signal of its walk under rank 0's parameters; every walker rank is reported exactly once, followed by the completion line |

## Left out

- MPI start-up and shutdown (`MPI_Init`, `MPI_Finalize`, `MPI_Comm_size`, `MPI_Comm_rank`): concurrency runtime. Rank and world size are inputs.
- The blocking `MPI_Bcast` rendezvous: concurrency. It is modelled as passing rank 0's chosen values to every rank.
- `Dispatch.RankMain`: requires that rank 0 chose parameters when the rank is not 0. Otherwise rank 0 has already returned 1, and such a rank would stay blocked in the broadcast, which the model cannot express.
- `MPI_Send` / `MPI_Recv` with `MPI_ANY_SOURCE`: non-deterministic transport. Arrival order is an input sequence.
- `Controller.ControllerProcess`: requires at least `world_size - 1` delivered messages. With fewer, the real receive blocks forever, and a lost or duplicated message is not handled.
- `srand(time(NULL) + world_rank)` and `rand()`: time-dependent foreign calls. They are replaced by the `draws` oracle, one stream per rank in `RunAll`.
- `atoi` and `std::cin >> d >> m`: C/C++ library parsing. The parsed integers and the success of the read are inputs. A partial read counts as a failed read. It writes only the locals `d` and `m`, so it cannot change the globals.
- `std::cout` / `std::cerr` stream mechanics and decimal formatting: report lines are records (`WalkerFinished(walker, steps)`, `AllCompleted`). The usage message is a string.
- `Walker.WalkerProcess`: integers are unbounded, so the 32-bit overflow of `steps + 1` when `max_steps` is `INT_MAX` is not modelled. The same holds for the C `int` width of `domain_size` and `max_steps`.
