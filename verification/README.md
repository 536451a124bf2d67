# Verified models of the labs

Dafny models of the concurrent, process and algorithmic programs of these labs, with proofs of
what the programs are for. Each program is modelled in its own terms: its variables, its
statements, its constants as parameters.

* **Gas station** (`GasStation`, `GasStationBounds`, `GasStationThreads`): one refiller and any number of customers
  share `fuel` and `cars` under a mutex and two condition variables. Every lock, unlock, signal and
  statement on shared variables is a step of its own; only inside the critical section are reading
  all cars, and filling a car with emptying the station, one step each, and testing a wait's
  condition with falling asleep. A signal wakes one waiter of the scheduler's choosing and is not
  remembered, and a waiter may wake for no reason. One model covers the program that signals one
  waiter (`cond_wait_signal_4.c`) and the one that broadcasts (`cond_wait_signal_5.c`).
* **Warehouse** (`Warehouse`, `WarehouseRefinement`, `WarehouseFinish`, `WarehouseProcesses`):
  consumers and suppliers over one flat shared segment with a binary semaphore per supplier and
  one for `jobs`. Every `+=`, `-=` and `--` is a load and a store. The processes are shown to
  refine a system with indivisible steps, and always to be able to finish. The System V program
  follows the same protocol; its comment states the guarantees proved here.
* **Counters** (`Races`, `LockedCounters`, `CounterThreads`): five programs in which threads
  increment one variable, without a lock and with one, over all interleavings of loads and stores.
* **Spiral** (`Spiral`, `SpiralFill`, `SpiralFlat`): a closed form for the number of each cell,
  its properties, and the two programs that fill a matrix measured against it, in unsigned
  32-bit arithmetic.
* **Shell** (`Kernel`, `CommandLine`, `CommandLineUsage`, `CommandLineParsers`,
  `CommandLineRoundTrip`, `Wiring`, `WiringEffect`, `WiringRedirected`, `ShellPipeline`, `MiniBash`): words into commands and redirections, and
  pipe, fork, dup2, close and open over descriptor tables, for pipelines of any length.
* **Framing** (`Framing`, `FramingLimit`, `FramingServer`): the lines of a byte stream, which
  streams a bounded buffer can and must lose, and the server that finds the lines in a fixed
  buffer whatever reads the stream arrives in.
* **Calculator** (`Calculator`, `CalculatorMeaning`, `CalculatorValues`): the 256-slot stack and the
  token loop of the reverse Polish calculator, against the meaning of expressions in arithmetic.

A main theorem is about a specification (a closed form, an indivisible system, the lines of a
stream, the value of an expression, `Parse` of any words); a class or a method carries the
program's own loops and assignments and is proved to compute it. Thread and process bodies are
methods that perform the one statement the thread has reached, proved to be exactly a step of the
system whose runs are reasoned about; a scheduler method
composes them in any order, to the end where every run ends.

## What the code does that its texts do not say

* The wait of `cond_wait_signal_4.c` tests a `do_refill` computed before it. The value does go
  stale, and does no harm: `GasStation.SleeperHasCompany` and `GasStation.NoDeadlock`.
* The comment of the System V program has the parent kill the suppliers when all consumers have
  left (item 10). In the code they leave by themselves when `jobs` reaches 0; the model follows
  the code (`WarehouseRefinement.SuppliersLeaveLast`).
* `pipe5.c` moves its index into the redirections on by one per command. A command with two
  leaves it stuck, and no later command gets any: `ShellPipeline.RedirectionsReachTheirCommand`.
* The usage messages ask for a command on both sides of every `|`. The programs look at the last
  one only, so that `| a | b` is accepted: `CommandLineUsage.UsageErrorIff`. A word behind a
  redirection swallows the next command: `CommandLineUsage.WordBehindRedirection`.
* `mini_bash.c` carries out at most two redirections of a command. It attaches a middle command's
  output pipe after the first, whose output file is then lost; it opens the second for writing
  whatever its direction, so that `a >y <x` truncates x; and a command with two or more leaves its
  index behind for good, so that `a <x >y | b >z` loses b's: `MiniBash.RedirectionTakesEffect`.
* The framing server's limit is not a limit on lines alone. A line of 512 bytes or more, without
  its newline, is always dropped, as is an unfinished line of more than 512; a stream that never
  has more of an unfinished line than leaves room for a read is always kept; the cutting into
  reads decides about the others (`FramingLimit.KeptBySomeCutting`,
  `FramingLimit.DroppedBySomeCutting`, `FramingLimit.CuttingDecides`).
* The calculator's reset stops at a stored 0 (`CalculatorMeaning.ResetEmptiesIff`), and a refused
  `%` leaves the line's type to the next line (`CalculatorMeaning.TypeOutlivesLine`,
  `CalculatorMeaning.RefusedAfterAnotherLine`). A number with a stray character is announced as
  invalid but still pushed; the token model keeps this (`Malformed`).

## Model

| member | source | states |
|---|---|---|
| GasStation.InvKept | LABS/LAB_13/task_cond_wait/src/cond_wait_signal_4.c:38-141 | no statement of any thread, and no wake-up out of nowhere, breaks the invariant: one mutex owner, fuel 0 or a full store, per-car accounting, and the waking condition that unsold fuel with an unfinished customer means some unfinished customer is not asleep |
| GasStation.RunsKeepInv | LABS/LAB_13/task_cond_wait/src/cond_wait_signal_5.c:38-146 | the invariant holds along every run, for the program that signals one waiter and for the one that broadcasts |
| GasStation.MutualExclusion | LABS/LAB_13/task_cond_wait/src/cond_wait_signal_4.c:45-84 | in every reachable state at most one thread is between lock and unlock (a thread asleep in a wait is outside) |
| GasStation.FuelConserved | LABS/LAB_13/task_cond_wait/src/cond_wait_signal_4.c:119-128 | in every reachable state all cars together with the station hold what the refills brought; the station holds nothing or one full store, a refill only ever meets an empty station, no car exceeds the rounded-up number of stores, and a car that left holds exactly that |
| GasStation.RefillsCounted | LABS/LAB_13/task_cond_wait/src/cond_wait_signal_4.c:76-82 | every refill has been bought, except at most the one still in store |
| GasStation.RefillsBounded | LABS/LAB_13/task_cond_wait/src/cond_wait_signal_4.c:50-76 | there are at most as many refills as all customers need, and one more |
| GasStation.OneRefillAfterTheLastPurchase | LABS/LAB_13/task_cond_wait/src/cond_wait_signal_4.c:50-76 | from any reachable state in which every car is full, at most one refill has been made beyond the purchases |
| GasStation.SleeperHasCompany | LABS/LAB_13/task_cond_wait/src/cond_wait_signal_4.c:50-61 | although the wait tests a do_refill computed before it fell asleep, a sleeping refiller is over a full store that some car still needs, with some unfinished customer awake, or the store has just been bought and the buyer is about to signal |
| GasStation.NoDeadlock | LABS/LAB_13/task_cond_wait/src/cond_wait_signal_4.c:50-87 | for any number of customers, tank and store, in either program a reachable state is stuck if and only if all threads are done; wake-ups out of nowhere do not count as moving |
| GasStation.NotifyWakes | LABS/LAB_13/task_cond_wait/src/cond_wait_signal_5.c:80-81 | a broadcast after a refill leaves no customer asleep and changes nobody else; a signal wakes exactly one sleeper if there is one and changes nobody else; nothing else the refiller does wakes anybody |
| GasStationBounds.RunMeasured | LABS/LAB_13/task_cond_wait/src/cond_wait_signal_5.c:45-143 | along any run the steps taken and the measure still left never exceed the measure at its start, plus seven for each wake-up out of nowhere |
| GasStationBounds.RunsAreBounded | LABS/LAB_13/task_cond_wait/src/cond_wait_signal_5.c:45-143 | an explicit bound on the length of every run, in the number of customers and of the refills each needs |
| GasStationBounds.FinishedRunsServeEverybody | LABS/LAB_13/task_cond_wait/src/cond_wait_signal_4.c:123-128 | a run that cannot go on by itself ends with all threads done, each car filled with the rounded-up number of stores, which is its tank and less than a store more, and the refills accounted for |
| GasStationBounds.NotificationsCounted | LABS/LAB_13/task_cond_wait/src/cond_wait_signal_4.c:70-82 | over a run to the refiller's end there is one notification of the customers for each refill, and one more in the program that wakes one at a time |
| GasStationBounds.EverybodyCanFinish | LABS/LAB_13/task_cond_wait/src/cond_wait_signal_4.c:143-170 | from every state with the invariant some scheduling without wake-ups out of nowhere finishes all threads |
| GasStationThreads.Station.constructor | LABS/LAB_13/task_cond_wait/src/cond_wait_signal_4.c:19-24 | the globals start empty, as the first state of the step system |
| GasStationThreads.Station.IsRefillNeeded | LABS/LAB_13/task_cond_wait/src/cond_wait_signal_4.c:26-36 | the loop answers whether some car is not full |
| GasStationThreads.Station.Refill | LABS/LAB_13/task_cond_wait/src/cond_wait_signal_4.c:38-91 | each statement of the refiller thread over the shared variables is the step the theorems are about; its notification wakes all sleepers in one program and exactly one in the other |
| GasStationThreads.Station.Purchase | LABS/LAB_13/task_cond_wait/src/cond_wait_signal_4.c:93-141 | each statement of a customer thread over the shared variables is the step the theorems are about |
| GasStationThreads.Station.RunThreads | LABS/LAB_13/task_cond_wait/src/cond_wait_signal_4.c:143-170 | whatever order the threads run in, they all end, with every car holding the same number of full stores, its tank and less than a store more, and the refills accounted for |
| Warehouse.StepsWriteOnlyTheirCells | LABS/LAB_16/task_posix_semaphores_2/src/consumer_supplier.c:376-391 | a step changes at most a cell the process is entitled to: its own demand, a stock whose semaphore it holds, or `jobs` while holding that semaphore |
| Warehouse.OneHolder | LABS/LAB_16/task_system_v_semaphores_2/src/consumer_supplier.c:67-91 | no two consumers, and no consumer and supplier, are in the critical section of one stock |
| Warehouse.InvKept | LABS/LAB_16/task_posix_semaphores_2/src/consumer_supplier.c:363-488 | every load, store, wait and post keeps the invariant: semaphore values match their holders, loaded values are still current, `take` fits demand and stock, `jobs` counts those who have not left |
| WarehouseRefinement.DeliveryRefines | LABS/LAB_16/task_posix_semaphores_2/src/consumer_supplier.c:389-391 | the separate loads and stores of demand and stock amount to one indivisible transfer, of no more than either and all of one |
| WarehouseRefinement.TakesAllItCan | LABS/LAB_16/task_posix_semaphores_2/src/consumer_supplier.c:388-389 | over the cells of the segment, in every reachable state: a consumer about to take is taking no more than its demand and no more than the stock, and all of one of them; when it comes to its check its demand or that stock is 0 |
| WarehouseRefinement.DeliveryEmptiesOne | LABS/LAB_16/task_posix_semaphores_2/src/consumer_supplier.c:389-391 | the store that completes a delivery leaves the demand or the stock at 0, and lowers the stock by what was taken |
| WarehouseRefinement.LeavingRefines | LABS/LAB_16/task_posix_semaphores_2/src/consumer_supplier.c:406-407 | the load and store of `jobs` amount to one satisfied consumer counting itself off |
| WarehouseRefinement.RunRefines | LABS/LAB_16/task_posix_semaphores_2/src/consumer_supplier.c:363-488 | for every run of the processes over the segment the sequence of its states, seen abstractly one by one, is a run of the system with indivisible transfers, restocks and departures |
| WarehouseRefinement.GoodsConserved | LABS/LAB_16/task_posix_semaphores_2/src/consumer_supplier.c:455-456 | in every reachable state the stocks are what they began with plus restocks minus the demand already satisfied, counting what a consumer has in its hands |
| WarehouseRefinement.NothingGoesNegative | LABS/LAB_16/task_posix_semaphores_2/src/consumer_supplier.c:378-391 | no demand, no stock and not `jobs` is ever negative |
| WarehouseRefinement.SuppliersLeaveLast | LABS/LAB_16/task_posix_semaphores_2/src/consumer_supplier.c:464-480 | a supplier that has left or decided to leaves `jobs` at 0, every demand at 0 and every consumer counted off |
| WarehouseRefinement.JobsCountConsumers | LABS/LAB_16/task_posix_semaphores_2/src/consumer_supplier.c:400-416 | `jobs` equals the number of consumers that have not counted themselves off, and nobody with open demand has |
| WarehouseRefinement.SemaphoresExclude | LABS/LAB_16/task_system_v_semaphores_2/src/consumer_supplier.c:67-91 | each stock's semaphore and that of `jobs` has at most one process between its wait and post, and no process holds two |
| WarehouseRefinement.ProgressIsBounded | LABS/LAB_16/task_posix_semaphores_2/src/consumer_supplier.c:363-425 | however long a run is, goods are moved at most once for each unit of demand and each consumer leaves once; the rest is empty visits and restocks |
| WarehouseRefinement.NoDeadlock | LABS/LAB_16/task_posix_semaphores_2/src/consumer_supplier.c:369-424 | a reachable state is stuck if and only if every process has exited |
| WarehouseFinish.LetGo | LABS/LAB_16/task_posix_semaphores_2/src/consumer_supplier.c:375-423 | from any reachable state the processes that hold semaphores can all reach their posts without waiting for anything |
| WarehouseFinish.CanBeServed | LABS/LAB_16/task_posix_semaphores_2/src/consumer_supplier.c:366-396 | whatever the stocks, a waiting consumer can be brought to a state in which less is wanted, a supplier restocking first if it must |
| WarehouseFinish.EverybodyCanFinish | LABS/LAB_16/task_posix_semaphores_2/src/consumer_supplier.c:307-308 | from every reachable state some continuation ends with every process gone and every demand 0, which is what the program prints at its end |
| WarehouseProcesses.Shared.constructor | LABS/LAB_16/task_posix_semaphores_2/src/consumer_supplier.c:214-223 | the loops that lay out the segment produce demands, stocks and `jobs` at their offsets, as the first state of the step system |
| WarehouseProcesses.Shared.Consume | LABS/LAB_16/task_posix_semaphores_2/src/consumer_supplier.c:363-425 | each statement of a consumer over the flat segment is the step the theorems are about |
| WarehouseProcesses.Shared.Supply | LABS/LAB_16/task_posix_semaphores_2/src/consumer_supplier.c:448-488 | each statement of a supplier over the flat segment is the step the theorems are about |
| WarehouseProcesses.Shared.RunProcesses | LABS/LAB_16/task_posix_semaphores_2/src/consumer_supplier.c:268-284 | under any schedule the segment stays in order: goods conserved, nothing negative, and every demand 0 when all have exited |
| Spiral.BeforeClosedForm | LABS/LAB_2/task_matrix_as_snake/src/matrix_as_snake.c:137-156 | what is numbered outside ring d is the matrix less the rectangle of (rows-2d) by (columns-2d) cells |
| Spiral.SpiralPeels | LABS/LAB_2/task_matrix_as_snake/src/matrix_as_snake.c:137-156 | the numbers go along the top row, down the right column, back along the bottom row, up the left column, and then on in the same way in the matrix without its border |
| Spiral.ValueInjective | LABS/LAB_2/task_matrix_as_snake/src/matrix_as_snake.c:137-156 | no two cells have the same number |
| Spiral.NextIsNeighbour | LABS/LAB_2/task_matrix_as_snake/src/matrix_as_snake.c:137-156 | the cell with the next number is a horizontal or vertical neighbour, along sides, around corners and into the next ring |
| Spiral.Cell | LABS/LAB_2/task_matrix_as_snake/src/matrix_as_snake.c:137-156 | every number from 1 to rows*columns has a cell |
| Spiral.EachNumberOnce | LABS/LAB_2/task_matrix_as_snake/src/matrix_as_snake.c:132-157 | each number from 1 to rows*columns is in exactly one cell and no cell has any other number, for all shapes |
| Spiral.SpiralIsAPath | LABS/LAB_2/task_matrix_as_snake/src/matrix_as_snake.c:137-156 | the cells in the order of their numbers are a Hamiltonian path: from the top left corner, always to a neighbouring cell, every cell visited and none twice |
| SpiralFill.TopRow | LABS/LAB_2/task_matrix_as_snake/src/matrix_as_snake.c:139-141 | the first loop of a round extends the numbered part by the top of the ring, or leaves a finished matrix alone |
| SpiralFill.RightColumn | LABS/LAB_2/task_matrix_as_snake/src/matrix_as_snake.c:143-145 | the second loop extends it by the right side, stopping where the last ring is cut short |
| SpiralFill.BottomRow | LABS/LAB_2/task_matrix_as_snake/src/matrix_as_snake.c:147-149 | the third loop extends it by the bottom; when the unsigned `rows - depth - 1` has wrapped around it writes nothing |
| SpiralFill.LeftColumn | LABS/LAB_2/task_matrix_as_snake/src/matrix_as_snake.c:151-153 | the fourth loop extends it by the left side up to the next ring |
| SpiralFill.SnakeMatrix | LABS/LAB_2/task_matrix_as_snake/src/matrix_as_snake.c:132-157 | the two-dimensional program leaves in every cell its number by the closed form, with unsigned wrap-around and for all shapes of at least 2 by 2 below the word size |
| SpiralFlat.TopRow | LABS/LAB_2/task_matrix_as_snake/src/matrix_as_snake.c:74-78 | the flat first loop numbers the top of the ring, or leaves a finished matrix and all behind it alone |
| SpiralFlat.RightColumn | LABS/LAB_2/task_matrix_as_snake/src/matrix_as_snake.c:83-92 | the flat second loop, stepping row offsets, numbers the same cells without its offsets wrapping |
| SpiralFlat.BottomRow | LABS/LAB_2/task_matrix_as_snake/src/matrix_as_snake.c:97-106 | the flat third loop numbers the bottom of the ring, and writes nothing when its unsigned row offset has wrapped around |
| SpiralFlat.LeftColumn | LABS/LAB_2/task_matrix_as_snake/src/matrix_as_snake.c:112-121 | the flat fourth loop, counting offsets down, numbers the same cells |
| SpiralFlat.SnakeMatrix | LABS/LAB_2/task_matrix_as_snake/src/matrix_as_snake.c:69-129 | the flat program leaves at r*columns+c what the two-dimensional one leaves at [r][c], and changes nothing behind the matrix |
| Framing.SplitIsSplit | LABS/LAB_17/task_af_local_tcp_socket/src/server.c:107-129 | joining the lines with newlines and adding the leftover gives the stream back; no line and no leftover contains a newline |
| Framing.SplitIsUnique | LABS/LAB_17/task_af_local_tcp_socket/src/server.c:107-129 | there is no other way to cut a stream like that |
| Framing.FrameCount | LABS/LAB_17/task_af_local_tcp_socket/src/server.c:113-123 | there are as many frames as newlines |
| Framing.SplitConcat | LABS/LAB_17/task_af_local_tcp_socket/src/server.c:107-129 | cutting the stream anywhere and carrying the leftover over gives the same lines and leftover |
| Framing.ConnectionSplits | LABS/LAB_17/task_af_local_tcp_socket/src/server.c:88-139 | a connection that is not dropped delivers exactly the lines of everything received, keeps the rest, and has numbered as many frames as there were newlines |
| Framing.ChunkingDoesNotMatter | LABS/LAB_17/task_af_local_tcp_socket/src/server.c:88-139 | two ways of cutting one stream into reads, neither dropped, have the same outcome |
| Framing.DroppedIffOverflow | LABS/LAB_17/task_af_local_tcp_socket/src/server.c:98-106 | a connection is dropped if and only if some read does not fit beside the text behind the last newline before it |
| Framing.ShortLinesAreNeverDropped | LABS/LAB_17/task_af_local_tcp_socket/src/server.c:98-106 | a stream whose newline-free stretches fit beside a read is never dropped, however it is cut: 256 and 256 in 512 in the server |
| Framing.LongLinesAreDropped | LABS/LAB_17/task_af_local_tcp_socket/src/server.c:98-106 | a connection that is kept had only complete lines shorter than the buffer, so that they fit with their newline, and a leftover that fits: any longer one is dropped however the stream is cut |
| Framing.InBetweenChunkingDecides | LABS/LAB_17/task_af_local_tcp_socket/src/server.c:98-106 | for every read size an example of a stream that is dropped in one cutting and kept in another |
| FramingLimit.KeptBySomeCutting | LABS/LAB_17/task_af_local_tcp_socket/src/server.c:91-129 | a stream is kept by some cutting into reads of at most n bytes if and only if every complete line is shorter than the buffer and the leftover is no longer than it |
| FramingLimit.BytewiseIsKept | LABS/LAB_17/task_af_local_tcp_socket/src/server.c:91-129 | such a stream is kept when it arrives byte by byte |
| FramingLimit.DroppedBySomeCutting | LABS/LAB_17/task_af_local_tcp_socket/src/server.c:98-106 | a stream is dropped by some cutting into reads of at most n bytes if and only if at some position the unfinished line and a longest read do not fit the buffer together |
| FramingLimit.CuttingDecides | LABS/LAB_17/task_af_local_tcp_socket/src/server.c:91-129 | the cutting decides about a stream exactly when its lines fit and such a position exists |
| FramingLimit.ShortStreamsAreKept | LABS/LAB_17/task_af_local_tcp_socket/src/server.c:98-106 | a stream no longer than the buffer is never dropped |
| FramingServer.Server.FindNewline | LABS/LAB_17/task_af_local_tcp_socket/src/server.c:110-123 | the search for the next newline in the buffer ends where the line ends |
| FramingServer.Server.ShiftDown | LABS/LAB_17/task_af_local_tcp_socket/src/server.c:124-126 | the overlapping move brings the leftover to the front unchanged |
| FramingServer.Server.Append | LABS/LAB_17/task_af_local_tcp_socket/src/server.c:107-108 | the buffer holds what it held and then the read |
| FramingServer.Server.ReplyToLines | LABS/LAB_17/task_af_local_tcp_socket/src/server.c:109-123 | one numbered reply for each complete line, in order, and `p` behind the last newline |
| FramingServer.Server.Receive | LABS/LAB_17/task_af_local_tcp_socket/src/server.c:97-129 | one read: drops exactly when it does not fit, and otherwise replies to the lines completed and keeps exactly the leftover at the front of the buffer |
| FramingServer.Server.Serve | LABS/LAB_17/task_af_local_tcp_socket/src/server.c:88-140 | a whole connection over the fixed buffer sends the frames of the stream numbered from 0, or those before it is dropped, and leaves the buffer empty for the next client |
| FramingServer.KeptConnectionAnswers | LABS/LAB_17/task_af_local_tcp_socket/src/server.c:88-140 | a client that is kept and sends these lines, each ended by a newline character, gets these lines back, numbered from 0, however they arrive |
| FramingServer.DroppedConnectionAnswers | LABS/LAB_17/task_af_local_tcp_socket/src/server.c:97-129 | one that is dropped got the lines that were complete before the first read that did not fit, numbered from 0 |
| Kernel.Process.Pipe | LABS/LAB_14/task_pipe3/src/pipe3.c:119-129 | pipe(2) opens two new descriptors, the read end on the lowest free one and the write end on the next, and changes no other |
| Kernel.Process.Fork | LABS/LAB_14/task_pipe3/src/pipe3.c:131-137 | fork(2) gives the child an equal table of its own |
| Kernel.Process.Dup2 | LABS/LAB_14/task_pipe3/src/pipe3.c:142-156 | dup2(2) fails without effect on a closed source, and otherwise replaces only its target |
| Kernel.Process.Close | LABS/LAB_14/task_pipe3/src/pipe3.c:158-188 | close(2) fails without effect on a closed descriptor, and otherwise removes only it |
| Kernel.Process.Open | LABS/LAB_14/task_pipe5/src/pipe5.c:308-312 | open(2) of a file that can be opened takes the lowest free descriptor |
| Wiring.AttachPipes | LABS/LAB_14/task_pipe3/src/pipe3.c:140-188 | the dup2 and close calls of child i succeed and leave it exactly the inherited table with its own read end as standard input and write end as standard output, at the ends of the pipeline the inherited ones |
| Wiring.CloseInParent | LABS/LAB_14/task_pipe3/src/pipe3.c:200-211 | after each child the shell holds nothing of the pipes but the read end the next child needs |
| Wiring.MyPipe | LABS/LAB_14/task_pipe3/src/pipe3.c:119-212 | for any number of commands each child ends with its intended table and the shell with the one it began with |
| Wiring.OneWriterOneReader | LABS/LAB_14/task_pipe3/src/pipe3.c:119-212 | with those tables each pipe has exactly one process and descriptor that writes it and one that reads it |
| Wiring.WiredTable | LABS/LAB_14/task_pipe3/src/pipe3.c:119-212 | descriptor by descriptor: 0 is the pipe from the command before, 1 the pipe to the command behind, and all else, at the ends of the pipeline 0 or 1 too, is what the shell has |
| CommandLineParsers.TakeWords | LABS/LAB_14/task_pipe5/src/pipe5.c:117-136 | collects pointers to exactly the words up to the next operator |
| CommandLineParsers.TakeRedirections | LABS/LAB_14/task_pipe5/src/pipe5.c:139-171 | collects the operator and file pairs, each attached by walking back to the pipe before it |
| CommandLineParsers.ParseOneBased | LABS/LAB_14/task_pipe5/src/pipe5.c:53-178 | the loops return what the total definition `Parse` says, for any words, malformed ones included, and refuse them exactly when the last word beginning with a pipe character, or the last beginning with `<` or `>`, stands at argv[1] or at the end, or there is no word |
| CommandLineParsers.ParseZeroBased | LABS/LAB_14/task_pipe7/src/mini_bash.c:231-362 | the same for the parser that starts at argv[0] |
| CommandLineUsage.UsageErrorIff | LABS/LAB_14/task_pipe5/src/pipe5.c:53-74 | words are refused if and only if some operator stands first or last with no other of its kind behind it, or the one-based program has no word at all |
| CommandLineUsage.WordBehindRedirection | LABS/LAB_14/task_pipe5/src/pipe5.c:117-177 | a word behind a redirection is no argument: it is taken for the operator before the next command, which comes out without words |
| CommandLineUsage.EmptyWord | LABS/LAB_14/task_pipe7/src/mini_bash.c:299-302 | an empty word ends a command of the zero-based program and is an argument in the other |
| CommandLineRoundTrip.ParseUndoesPrint | LABS/LAB_14/task_pipe5/src/pipe5.c:53-178 | parsing a printed pipeline gives back its commands and its redirections in order, each attached to its own command's first word, in the one-based and the zero-based program |
| CommandLineRoundTrip.ExpectedWords | LABS/LAB_14/task_pipe5/src/pipe5.c:129-135 | the pointers of parsed command i lead to exactly its words |
| CommandLineRoundTrip.InAndOut | LABS/LAB_14/task_pipe5/src/pipe5.c:139-171 | the line `a < f > g`, piped into `b`, in full: two commands, `f` to be read and `g` to be written, both for the first, in the one-based and the zero-based program |
| WiringRedirected.ApplyRedirections | LABS/LAB_14/task_pipe5/src/pipe5.c:305-332 | the child's loop opens the files in order and puts each in the place of its standard descriptor; the last file for each descriptor ends up on it, and all else is kept |
| WiringRedirected.MyPipe | LABS/LAB_14/task_pipe5/src/pipe5.c:217-364 | what each child runs with is the unredirected pipeline's table with all the redirections the shell's index gives it: the last file read on 0, the last written on 1, a descriptor without one as before, every other unchanged, and one more open file for each redirection |
| WiringRedirected.RedirectedPerforms | LABS/LAB_14/task_pipe5/src/pipe5.c:305-332 | for any number of redirections the files opened one after the other come to that, by descriptors written as 0 and 1 |
| WiringEffect.PipesStay | LABS/LAB_14/task_pipe5/src/pipe5.c:305-332 | a pipe end survives redirections exactly where it was and only on a descriptor no file is for |
| WiringRedirected.OneRedirection | LABS/LAB_14/task_pipe5/src/pipe5.c:305-332 | the file wins on its descriptor; all other descriptors and pipe ends are as without it |
| ShellPipeline.IndexKeepsStep | LABS/LAB_14/task_pipe5/src/pipe5.c:360-363 | while no earlier command had more than one redirection, the shell's index stands at the command's own first one |
| ShellPipeline.IndexIsStuck | LABS/LAB_14/task_pipe5/src/pipe5.c:360-363 | behind a command with more than one it stays on that command's second one for good |
| ShellPipeline.RedirectionsReachTheirCommand | LABS/LAB_14/task_pipe5/src/pipe5.c:217-364 | a command gets the redirections it was written with if and only if it has none or no command before it has more than one |
| ShellPipeline.RunPipeline | LABS/LAB_14/task_pipe5/src/pipe5.c:45-364 | from words to descriptors: each child whose earlier commands have at most one redirection runs with all of its own, both files of `a < f > g` included, and with its other pipe ends in place; behind a command with two the others run without theirs; and the shell is left as it was |
| ShellPipeline.InAndOutRuns | LABS/LAB_14/task_pipe5/src/pipe5.c:305-332 | a child that carries out `< f > g` reads `f` on 0 and writes `g` on 1 |
| MiniBash.Attach | LABS/LAB_14/task_pipe7/src/mini_bash.c:442-511 | the calls that attach the first pipe end, a redirection, the second pipe end and a second redirection succeed and act on the table in that order |
| MiniBash.ClosePipes | LABS/LAB_14/task_pipe7/src/mini_bash.c:513-550 | the closing calls succeed and remove exactly the descriptors at which the child got the pipes |
| MiniBash.ClosedTableIs | LABS/LAB_14/task_pipe7/src/mini_bash.c:440-551 | together they leave the child the table it is meant to have |
| MiniBash.StartChild | LABS/LAB_14/task_pipe7/src/mini_bash.c:440-551 | a child keeps the inherited descriptors and has no pipe end but its own; its standard descriptors are those of the intended table but for the at most two redirections it carries out: the second wins, opened for writing whatever its direction, and the first loses to the pipe on a middle command's output |
| MiniBash.OwnPipeEndsOnly | LABS/LAB_14/task_pipe7/src/mini_bash.c:513-550 | whatever a child carries out, of the pipes it holds only its own ends, on its standard descriptors |
| MiniBash.ExecCmdList | LABS/LAB_14/task_pipe7/src/mini_bash.c:409-589 | the same for every command of a pipeline, with the shell left as it began |
| MiniBash.ShellIndexKeepsStep | LABS/LAB_14/task_pipe7/src/mini_bash.c:579-588 | the shell's index reaches command i at its own first redirection if and only if no command before had more than one; otherwise it falls short, for good |
| MiniBash.WhatIsCarried | LABS/LAB_14/task_pipe7/src/mini_bash.c:440-588 | for any numbers of redirections, the child of command i carries out the first two of its own if no command before had several, and none otherwise |
| MiniBash.RedirectionTakesEffect | LABS/LAB_14/task_pipe7/src/mini_bash.c:440-588 | for any numbers of redirections, exactly what each child runs with: as without redirections behind a command with several; else the second one's file, opened for writing even if it is to be read, the first one's unless it is a middle command's output, and nothing of a third; and one more open descriptor for each it carried out |
| MiniBash.RunPipeline | LABS/LAB_14/task_pipe7/src/mini_bash.c:231-589 | from words to descriptors, for every pipeline: that is what each child runs with, and the shell is left as it was |
| Races.StepKeepsInv | LABS/LAB_13/task_mutex_no_mutex/src/thread_partial_overwrite.c:50-70 | each load, addition and store keeps what the bounds rest on, in both programs |
| Races.ResultsAreBounded | LABS/LAB_13/task_mutex_no_mutex/src/thread_total_overwrite.c:50-64 | no interleaving ends below the least result or above threads times iterations |
| Races.LastFrom | LABS/LAB_13/task_mutex_no_mutex/src/thread_total_overwrite.c:50-64 | for every value the others can have counted to, some interleaving ends that far above one thread's own iterations |
| Races.FewAreLeft | LABS/LAB_13/task_mutex_no_mutex/src/thread_partial_overwrite.c:50-70 | when every iteration loads, every result from 2 up to the iterations of one thread is possible |
| Races.ResultsAreExactly | LABS/LAB_13/task_mutex_no_mutex/src/thread_partial_overwrite.c:50-70 | the possible results are exactly an interval: up to threads times iterations, from 2 (at most one thread's iterations) when several threads load in every iteration, and from one thread's iterations when they load once |
| LockedCounters.StepRefines | LABS/LAB_13/task_mutex_no_mutex/src/thread_mutex_fine_grained.c:53-59 | under the mutex a load and a store are one indivisible addition; every other step adds nothing |
| LockedCounters.RunRefines | LABS/LAB_13/task_mutex_no_mutex/src/thread_mutex_local_accum.c:53-63 | every run of each of the three programs is a run of the same indivisible counter |
| LockedCounters.NothingIsLost | LABS/LAB_13/task_mutex_no_mutex/src/thread_mutex_coarse_grained.c:55-60 | at any time the counter is the sum of what the threads have contributed, and threads times iterations when all are done |
| LockedCounters.OneAtATime | LABS/LAB_13/task_mutex_no_mutex/src/thread_mutex_fine_grained.c:55-57 | never two threads between lock and unlock, and a reachable state is stuck if and only if all are done |
| LockedCounters.LocksTaken | LABS/LAB_13/task_mutex_no_mutex/src/thread_mutex_fine_grained.c:53-61 | over a complete run the mutex is taken threads times iterations times in the fine-grained program, as its comment says, and once for each thread in the other two |
| LockedCounters.StepAdds | LABS/LAB_13/task_mutex_no_mutex/src/thread_mutex_local_accum.c:53-63 | a step adds nothing or 1 to the shared counter, or all the iterations of a thread at once where they are counted privately |
| CounterThreads.Unlocked.ThreadIncrement | LABS/LAB_13/task_mutex_no_mutex/src/thread_partial_overwrite.c:41-73 | each statement over the shared variable is the step the interval theorem is about |
| CounterThreads.Unlocked.RunThreads | LABS/LAB_13/task_mutex_no_mutex/src/thread_partial_overwrite.c:18-39 | whatever order the threads run in, they all end, with a result in the interval |
| CounterThreads.Locked.ThreadIncrement | LABS/LAB_13/task_mutex_no_mutex/src/thread_mutex_local_accum.c:42-67 | each statement of the three locked programs is the step the refinement is about |
| CounterThreads.Locked.RunThreads | LABS/LAB_13/task_mutex_no_mutex/src/thread_mutex_fine_grained.c:19-40 | whatever order the threads run in, they all end, with threads times iterations |
| Calculator.Stack.constructor | LABS/LAB_7/task_static_calc/src/stack_init.c:4-9 | the stack starts empty |
| Calculator.Stack.Push | LABS/LAB_7/task_static_calc/src/push.c:5-22 | appends the number, or changes nothing when all 256 slots are taken |
| Calculator.Stack.Pop | LABS/LAB_7/task_static_calc/src/pop.c:5-13 | returns and removes the top, or returns 0 and changes nothing when empty |
| Calculator.Stack.PopToZero | LABS/LAB_7/task_static_calc/src/calculator.c:73-76 | pops until a 0 comes off or the stack is empty |
| Calculator.Operate | LABS/LAB_7/task_static_calc/src/calculator.c:48-72 | the operator cases as a transition of the abstract stack: operands in order, the refusals, and the remainder that has no defined value |
| Calculator.CalculateLine | LABS/LAB_7/task_static_calc/src/calculator.c:38-93 | the token loop over one line is the line semantics, with its printed value and the type it leaves behind |
| Calculator.Calculator | LABS/LAB_7/task_static_calc/src/calculator.c:21-102 | the whole loop prints, line by line, what the session semantics says |
| CalculatorMeaning.RunConcat | LABS/LAB_7/task_static_calc/src/calculator.c:40-85 | running tokens one list after another is running them together |
| CalculatorMeaning.PostfixRuns | LABS/LAB_7/task_static_calc/src/calculator.c:40-85 | a postfix expression that fits the stack pushes its value and leaves all below untouched exactly when it has a value, and is cut short exactly when one of its operators refuses |
| CalculatorMeaning.LineShowsValue | LABS/LAB_7/task_static_calc/src/calculator.c:38-93 | a line with one expression prints its value and restores the stack if and only if the expression has a value |
| CalculatorMeaning.SessionShowsValues | LABS/LAB_7/task_static_calc/src/calculator.c:36-97 | a session of such lines prints each line's own value |
| CalculatorMeaning.ResetStopsAtZero | LABS/LAB_7/task_static_calc/src/calculator.c:73-76 | a reset leaves what is below the topmost stored 0 |
| CalculatorMeaning.ResetEmptiesIff | LABS/LAB_7/task_static_calc/src/calculator.c:73-76 | a reset empties the stack if and only if no 0 is stored above the bottom slot |
| CalculatorMeaning.TypeOutlivesLine | LABS/LAB_7/task_static_calc/src/calculator.c:60-93 | the next line starts as DOUBLE if and only if an operator was refused on a line with a decimal point |
| CalculatorMeaning.WholeLineShownIff | LABS/LAB_7/task_static_calc/src/calculator.c:63-66 | a line of whole numbers that has a value shows it if and only if it takes no remainder or starts as INT |
| CalculatorMeaning.RefusedAfterAnotherLine | LABS/LAB_7/task_static_calc/src/calculator.c:63-76 | after the line `1.5 2 %` the line `5 3 %` is refused, though alone it shows 2 |
| CalculatorValues.ComputeIs | LABS/LAB_7/task_static_calc/src/ops.c:6-29 | what is computed is the sum, the difference, the product, the number whose product with the divisor is the dividend, or the remainder of the whole parts that a division towards zero leaves; nothing where there is no such number or C defines none |
| CalculatorValues.OperatorMeans | LABS/LAB_7/task_static_calc/src/calculator.c:48-72 | on any stack an operator puts that result of its top two numbers, the lower first, in their place, exactly when there is one and it is no remainder on a DOUBLE line |
| CalculatorValues.OperatorRefuses | LABS/LAB_7/task_static_calc/src/calculator.c:59-76 | an operator is refused exactly on division by 0 and a remainder on a DOUBLE line; the stack then ends below its topmost stored 0 and the type stays |
| CalculatorValues.OperatorIsUndefined | LABS/LAB_7/task_static_calc/src/calculator.c:70 | the remainders C does not define, by the whole parts of the operands |
| CalculatorValues.TwoNumbers | LABS/LAB_7/task_static_calc/src/calculator.c:38-91 | the line `x y op` shows v if and only if v is the result of the operator on x and y, and it is no remainder where a number has a point |
| CalculatorValues.OneNumber | LABS/LAB_7/task_static_calc/src/pop.c:5-13 | an operand that is missing is 0 |
| CalculatorValues.LineShowsDenoted | LABS/LAB_7/task_static_calc/src/calculator.c:38-93 | a line with one expression shows v if and only if the expression denotes v in arithmetic and takes no remainder while DOUBLE |
| CalculatorValues.SessionShowsDenoted | LABS/LAB_7/task_static_calc/src/calculator.c:36-97 | what the calculator prints for a list of such expressions is what they denote, line by line |
| CalculatorValues.ManyNumbers | LABS/LAB_7/task_static_calc/src/push.c:5-22 | of many numbers the 256th is shown: those behind it are dropped |
| CalculatorValues.BadTokens | LABS/LAB_7/task_static_calc/src/calculator.c:73-102 | a number out of range ends the program, any other bad token only its line |

## Left out

- Error returns of system and pthread calls, `kill` and `waitpid`, option parsing, printing, sleeping: plumbing. Calls that cannot fail in the modelled states are shown to succeed where the model has them fail at all (`dup2`, `close`).
- `rand()`, the scheduler and the choice of the waiter a signal wakes: arbitrary choices.
- `int` and `long` overflow of stocks, fuel and counters: integers are unbounded there. The spiral's unsigned arithmetic is modelled with wrap-around.
- Memory models: loads and stores of the unlocked counters are atomic and sequentially consistent.
- The literal 35 that refills the station and the constant `GAS_STORAGE` are one parameter.
- `cond_wait_signal_1.c` and `cond_wait_signal_3.c`: two threads only, easier members of the same family. `cond_wait_signal_2.c` likewise.
- EverybodyCanFinish of the warehouse: that some continuation finishes, not that all do; a consumer may pick empty suppliers for ever.
- `pipe2.c`, `pipe4.c`, `pipe6.c`: the first handles one pipe, the others repeat `pipe5.c` and `mini_bash.c`. The parser of `pipe3.c` is that of `pipe5.c` without redirections.
- WiringRedirected.MyPipe: at most two redirections reach one child, and in ShellPipeline.RunPipeline a command that gets its redirections has at most two, because the program keeps their descriptors in an array of two. What they come to (`WiringRedirected.RedirectedPerforms`) holds for any number.
- CommandLineParsers.ParseOneBased: words that make the program read behind argv are given the result the index arithmetic suggests; their memory behaviour is not modelled.
- CommandLineRoundTrip.ParseUndoesPrint: pipelines of non-empty commands, arguments before redirections, no word beginning with an operator character; other words are covered by `Parse`, not by the round trip.
- `mini_bash.c`: the prompt, `cd`, `exit`, cutting a line into words, and files that cannot be opened.
- A failing `open` of a redirected file; descriptors 0, 1 and 2 are assumed open when the shell starts.
- Reply formatting of the framing server with `snprintf`, which cuts at its buffer and at NUL: a reply is its number and the bytes of its line. Only one connection at a time exists, as in the program.
- Floating-point rounding (numbers are exact reals), text-to-number conversion and the line buffer of the calculator: it starts from tokens.
- CalculatorMeaning.PostfixRuns: expressions that need more than the 256 slots; `push` then drops numbers silently.
- Queues, shared-memory readers and writers, the chat room, sockets other than the framing server, the ledger, and the labs on strings, files and libraries: easier, or without a claim to prove.
