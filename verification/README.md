# Verified models of four concurrent course programs

The course material holds four small programs in which several threads or processes share state.
This project models each of them twice and proves the two views equal:

* a **step machine** on values: one atomic step per system call, slot access and index update of
  each thread, executed under an arbitrary schedule (`Exec`); a thread picked while it is blocked
  does nothing, so a theorem about `Exec` holds for every interleaving;
* the **program**, a class whose fields and arrays are assigned in place, one statement of the
  machine at a time, with a program counter per thread in place of the C control flow. Its `Run`
  method is proved to do what `Exec` says, and states what that means for the output, the ledger or
  the tokens. For the FIFO the classes follow the C code itself: buffers cleared, filled and edited
  by the library calls, without a program counter.

State fields commented as history record what happened (claims, posts, probes, answers); no step
depends on them.

| files | program |
|---|---|
| `RingModel`, `RingInvariant`, `RingFifo`, `RingBoundary`, `RingBounds`, `RingSharing`, `RingProgress`, `RingOutput`, `RingTurns`, `RingProgram` | N producers and one spooler over a ring of MAX slots with three semaphores (`clase7/ejemplo-sem2`), opened with any values |
| `CStrings`, `Framing`, `FramingFiles`, `FramingProgram` | writer and reader joined by a FIFO (`TP_Corregido`) |
| `PoolModel`, `PoolRuns`, `PoolTurns`, `PoolProgram` | TCP server with a pool of connection slots (`clase6/practica_resolviendo`) |
| `TokenModel`, `TokenRuns`, `TokenTurns`, `TokenProgram` | token server over message queues (`clase7/ejemplo-msq`) |
| `Sums` | weighted sums over sequences, used by the counting arguments |

The constants of the C files (10 buffers, 10 producers, 10 strings, 100 slots, 10 messages) are
parameters. `dafny verify dfyconfig.toml` checks everything.

## What the proofs found

* **Ring.** The slot is written and signalled after the mutex is released. From fresh semaphores
  every run is FIFO if and only if there is one producer, one buffer or nothing to print; otherwise
  the spooler can print a slot nobody wrote. In a given run the output is right exactly when each
  print found its own string written, and this can be seen from the output alone: it is right
  exactly when it shows no blank slot and no string twice. Two producers can hold the same slot exactly when the others
  have a lap of strings to claim while one sleeps. main's poll of the signal semaphore can read
  zero while the spooler has taken the last string and not printed it, so one string can be lost at
  shutdown, and every run that exits is complete only if there was nothing to print.
* **Semaphores that exist.** `named.c` opens its semaphores with O_CREAT and without O_EXCL, so an
  existing name keeps its value. With m, b and s for the values found, T = b + s tokens, N
  producers of M strings and MAX slots:
  * every run keeps producers from meeting in the section iff m <= 1, N <= 1, T <= 1 or M = 0;
  * no run leaves the array iff producers cannot meet or N M <= MAX;
  * no run prints more than was claimed iff s = 0;
  * every run that signals in order prints in order iff s = 0 and either m = 0, or producers cannot
    meet and b <= MAX or N M <= MAX;
  * some run exits iff N M = 0, or m >= 1 and T >= 1.

  So after an aborted run the next one still excludes and stays in the array; it can exit iff the
  first was not stopped inside the section or with every token in a thread's hands, and it keeps
  order iff no signal was left.
* **FIFO.** Frames survive every schedule if and only if all but the last are full; otherwise one
  read can swallow two frames and a signal ends up in the log. The first read that does so spoils a
  file for good, whatever the payloads are. `TP_Corregido/README.md` allows 20
  characters per message; the code shows a line unchanged in `log.txt` only up to 18, and without a
  NUL. Input that is not typed, from a pipe or a file, keeps its text exactly if every short read
  ends in a newline: a short read loses its last byte whatever it is. The newline of
  a 19-character line stays in its payload, and a 20-character line sends an empty second frame.
  The last store into the reader's 22-byte array falls on the byte behind it for a full payload,
  and the handler's 7-byte array receives an eighth byte; both bytes are part of the model.
* **Pool.** The missing mutex around `free` breaks none of the properties below once accesses are
  sequentially consistent: only main marks slots busy, so a connection accepted while a slot is free
  is never dropped. A connection can still be dropped at a moment when the whole pool is free.
* **Tokens.** `server.c` compares the result of `mq_open` with 1 instead of -1, so a failed open is
  only noticed by the failing send, and a valid descriptor 1 is treated as a failure. Either way the
  request is given up and its client waits for ever; `LostReachable` is such a run. Every
  request is answered or given up within a bounded number of server turns, and which of the two
  depends on its own open and send alone; so one client's failure reaches another only through what
  the other's `mq_open` returns. While the server is about to send on a descriptor that failed to
  open, its next call cannot succeed. A failed `mq_close` makes the next client
  receive the same token.

## Model

| member | source | states |
|---|---|---|
| RingInvariant.StepKeepsInv | material-clases/clase7/ejemplo-sem2/unnamed.c:120-190 | every statement of every thread, in any interleaving and from any opening of the semaphores, keeps the whole invariant, and stays inside `buf` where producers cannot meet in the section |
| RingInvariant.MutualExclusion | material-clases/clase7/ejemplo-sem2/named.c:140-155 | with a mutex opened at 1 or 0, or one producer, one token or no strings: at most one producer is between `sem_wait` and `sem_post` on the mutex, and the mutex has its opening value exactly when none is |
| RingTurns.BlockedByOwnWait | material-clases/clase7/ejemplo-sem2/unnamed.c:76-190 | in every reachable state before the exit a turn does nothing exactly where its own `sem_wait` finds zero, main's join finds an unfinished producer or its poll a pending signal, a finished producer has nothing left, or a write would leave `buf` |
| RingTurns.TurnOrder | material-clases/clase7/ejemplo-sem2/unnamed.c:120-190 | a turn that does something takes its thread to the next statement of its loop, out of it after the last string, and leaves all other threads where they are |
| RingTurns.BuffersRunOut | material-clases/clase7/ejemplo-sem2/unnamed.c:126-136 | with at least as many producers as buffers some run hands out every buffer while one producer is in the section: the wait for a buffer does not need the mutex |
| RingFifo.TokenConservation | material-clases/clase7/ejemplo-sem2/unnamed.c:126-187 | free buffers, producers holding one, pending signals and the busy spooler always add up to what was opened (MAX when fresh); releases <= posts + leftover signals, posts <= claims, and claims stay within the opened buffers of the releases |
| RingFifo.ProduceIndexCountsClaims | material-clases/clase7/ejemplo-sem2/unnamed.c:132-149 | where producers cannot meet in the section: outside it the wrapped index is the number of claims modulo MAX, and each producer's `j` is its own claim number modulo MAX |
| RingFifo.PrintIndexCountsReleases | material-clases/clase7/ejemplo-sem2/named.c:174-198 | the spooler's wrapped index is the number of buffers it has handed back, one ahead just before the hand-back |
| RingFifo.FifoExactlyWhenReady | material-clases/clase7/ejemplo-sem2/unnamed.c:151-174 | where producers exclude each other and no claim can be a lap ahead (always so when fresh): the k-th print shows the k-th claim's string for all k if and only if every print found its own string already written |
| RingOutput.FifoIsVisible | material-clases/clase7/ejemplo-sem2/unnamed.c:151-174 | under the same premises: the prints follow the claims if and only if no printed slot is blank and no string is printed twice |
| RingFifo.InOrderIsFifo | material-clases/clase7/ejemplo-sem2/unnamed.c:151-174 | under the same premises and with no leftover signal, runs that signal in claim order print in claim order, for any N and MAX |
| RingFifo.LiveClaimsHaveOwnSlots | material-clases/clase7/ejemplo-sem2/unnamed.c:126-159 | with at most MAX buffers opened, or at most MAX strings in all, claims handed out and not yet released never share a slot, in any run |
| RingFifo.SlotExclusive | material-clases/clase7/ejemplo-sem2/unnamed.c:140-187 | under the premises of `InOrderIsFifo`, with signals in claim order no slot is rewritten between its signal and the end of its print, and no two unsignalled producers share one |
| RingFifo.RefinesBoundedQueue | material-clases/clase7/ejemplo-sem2/unnamed.c:120-190 | under those premises, with signals in claim order every step is an enqueue, a dequeue-and-print or a stutter of a FIFO queue bounded by the buffers opened, MAX when fresh |
| RingFifo.OutputIsInterleaving | material-clases/clase7/ejemplo-sem2/unnamed.c:122-152 | in a FIFO run each producer's part of the output is 1, 2, 3, ... without gap or repeat |
| RingBoundary.LockedIsStalled | material-clases/clase7/ejemplo-sem2/unnamed.c:126-143 | opened with a zero mutex, or with neither buffers nor signals, no producer ever takes an index |
| RingBoundary.MutexBoundary | material-clases/clase7/ejemplo-sem2/named.c:43-64 | in every run at most one producer is in the section if and only if the mutex opens at most at 1, or there is at most one producer, at most one token, or no string |
| RingBoundary.EarlyPrintBoundary | material-clases/clase7/ejemplo-sem2/named.c:60-64 | no run prints more strings than were claimed if and only if no signal was left over |
| RingBoundary.LeftoverSignalPrintsBlank | material-clases/clase7/ejemplo-sem2/named.c:60-64 | a signal left in an existing semaphore makes the spooler print a blank slot before anyone claimed one |
| RingBoundary.NarrowKeepsOrder | material-clases/clase7/ejemplo-sem2/unnamed.c:125-159 | with one producer, one token or no strings every schedule signals in claim order |
| RingBoundary.OrderBoundary | material-clases/clase7/ejemplo-sem2/unnamed.c:125-159 | every run signals in claim order if and only if there is at most one producer, at most one token, no string, or a mutex that opens at 0 |
| RingBoundary.BlankPrintReachable | material-clases/clase7/ejemplo-sem2/unnamed.c:145-174 | with two producers and two buffers some run prints a claimed, unwritten slot; with a single slot and two tokens it prints the later claim's string |
| RingBoundary.MeetingOverwrites | material-clases/clase7/ejemplo-sem2/named.c:138-158 | where two producers can meet, some run signals in order and yet prints the second string in the first one's place |
| RingBoundary.LapOverwrites | material-clases/clase7/ejemplo-sem2/named.c:50-56 | with more buffers opened than slots and strings enough, so does some run in which one producer after the other works undisturbed |
| RingBoundary.InOrderBoundary | material-clases/clase7/ejemplo-sem2/named.c:43-64 | every run that signals in order prints in order if and only if no signal was left over and either nobody can claim or producers exclude each other and no claim can be a lap ahead |
| RingBoundary.FifoBoundary | material-clases/clase7/ejemplo-sem2/unnamed.c:120-190 | from any opening, the exact condition for every run to be FIFO; from fresh semaphores, at most one producer, one buffer or no string |
| RingBounds.BoundsBoundary | material-clases/clase7/ejemplo-sem2/named.c:145-158 | no statement of any run leaves `buf` if and only if producers cannot meet in the section or there is a slot for every string; else the index passes MAX unwrapped and is read there |
| RingSharing.SharingBoundary | material-clases/clase7/ejemplo-sem2/unnamed.c:125-159 | the exact condition for two unsignalled producers to hold the same slot, from any opening; from fresh semaphores, N >= 2, MAX >= 2 and MAX strings among the other producers |
| RingSharing.SharingNeedsLap | material-clases/clase7/ejemplo-sem2/unnamed.c:139-149 | if p and q hold the same slot and p claimed first, then q's claim is at least MAX later and no claim after p's up to q's is p's own; so the others claimed a whole lap while p slept |
| RingProgress.StuckMeansDrained | material-clases/clase7/ejemplo-sem2/unnamed.c:120-190 | unless strings are to be produced without a mutex or a token, producers and spooler are all blocked or done exactly when all strings are printed, all buffers free and no signal is left |
| RingProgress.NoDeadlock | material-clases/clase7/ejemplo-sem2/unnamed.c:76-190 | under the same premise some thread can move in every state before the exit |
| RingProgress.ExecAccounts | material-clases/clase7/ejemplo-sem2/unnamed.c:76-190 | executed plus remaining statements are constant along every schedule |
| RingProgress.RunLength | material-clases/clase7/ejemplo-sem2/unnamed.c:76-190 | no run executes more than 13 N M + N + 2 statements, five more per leftover signal, and a run of that length has exited |
| RingProgress.FairTermination | material-clases/clase7/ejemplo-sem2/unnamed.c:76-190 | any schedule made of that many rounds, each giving every thread a turn, reaches the exit, from any opening that can start and stays inside `buf` |
| RingProgress.Shutdown | material-clases/clase7/ejemplo-sem2/unnamed.c:76-96 | after the joins and the poll that reads 0, exactly N M strings are signalled, these and the leftover signals are taken, at most one take is incomplete, and the only one that can be unprinted is the one the spooler is about to print |
| RingProgress.CompleteOutput | material-clases/clase7/ejemplo-sem2/unnamed.c:76-96 | if the spooler is past its printf, a FIFO run printed every producer's full sequence |
| RingOutput.CompleteExactlyWhenFifo | material-clases/clase7/ejemplo-sem2/unnamed.c:76-96 | past the last printf, without leftover signals: the output is every producer's full sequence if and only if the run was FIFO, and if and only if it shows no blank slot and no string twice |
| RingProgress.LastStringCanBeLost | material-clases/clase7/ejemplo-sem2/unnamed.c:83-96 | whenever there is something to print and the program can start, some run exits with one string unprinted |
| RingProgress.CompleteExitBoundary | material-clases/clase7/ejemplo-sem2/unnamed.c:83-96 | every run that exits has printed everything if and only if there was nothing to print or no run exits |
| RingProgress.ExitBoundary | material-clases/clase7/ejemplo-sem2/named.c:43-64 | some run exits if and only if there is nothing to produce, or the mutex opens above 0 and a buffer or a signal is there |
| RingProgress.AbortedRunLeaves | material-clases/clase7/ejemplo-sem2/named.c:43-119 | what the semaphores of a run stopped anywhere mean for the next: exclusion and array bounds hold; it can exit iff the first came to its exit and unlinked the names, or there is nothing to produce, or nobody was in the section and a token was free; it keeps order iff the first exited or left no signal |
| RingProgram.Spool.constructor | material-clases/clase7/ejemplo-sem2/unnamed.c:37-75 | initialisation gives the machine's initial state, with the semaphores as opened |
| RingProgram.Spool.MoveSemaphore | material-clases/clase7/ejemplo-sem2/unnamed.c:126-149 | the producer's waits and the mutex post do their step in place |
| RingProgram.Spool.MoveProduceIndex | material-clases/clase7/ejemplo-sem2/unnamed.c:139-143 | the critical section's read, increment and wrap do their step in place |
| RingProgram.Spool.WriteOrSignal | material-clases/clase7/ejemplo-sem2/unnamed.c:151-160 | the write into `buf[j]` and the signal do their step in place |
| RingProgram.Spool.RunSpooler | material-clases/clase7/ejemplo-sem2/unnamed.c:166-190 | the spooler's loop does its steps in place |
| RingProgram.Spool.RunMain | material-clases/clase7/ejemplo-sem2/unnamed.c:76-96 | join, poll, cancel and exit do their steps in place |
| RingProgram.Spool.Run | material-clases/clase7/ejemplo-sem2/unnamed.c:33-190 | under any schedule the program in place ends in the machine's state; at the exit all strings are in the output but one the spooler has taken; where every run is FIFO, or this one's output shows no blank and no repeat, each producer's part is a prefix of 1, 2, ..., M, the whole of it at the exit past the printf |
| Framing.DemuxInvertsMerge | material-clases/TP_Corregido/reader.c:173-217 | for every interleaving of data and signals read one frame per read, the log gets each payload and the signals file each digit, in order, a newline behind each |
| Framing.FramedExactlyWhenClean | material-clases/TP_Corregido/reader.c:104-133 | the reads reproduce the frames if and only if every read that meets a short frame finds it alone in the FIFO |
| Framing.IntactUnderEverySchedule | material-clases/TP_Corregido/reader.c:107-108 | a list of frames is read back under every schedule if and only if all frames but the last are full |
| FramingFiles.FilesRightIffClean | material-clases/TP_Corregido/reader.c:104-217 | for any messages waiting and to come, both files hold what was sent, up to lines still to come, if and only if every read that meets a short frame finds it alone in the FIFO |
| FramingFiles.FilesRightUnderEverySchedule | material-clases/TP_Corregido/reader.c:104-217 | messages come through into the files under every schedule if and only if all but the last are data of 20 bytes |
| Framing.MergedReadLosesSignal | material-clases/TP_Corregido/reader.c:107-132 | a short data frame and a signal taken by one read put the signal into the log and nothing into the signals file |
| FramingFiles.TailGoesNowhere | material-clases/TP_Corregido/reader.c:104-217 | a short and a full data frame waiting together and taken by two reads: the log gains one line, the short one joined with the start of the second frame, and the rest is written nowhere if and only if it begins with neither header, as when the first read ends inside one |
| Framing.ChunkingConservation | material-clases/TP_Corregido/writer.c:73-107 | a line of L characters becomes ceil((L+1)/20) frames; their payloads join to the line, plus its newline when 20 divides L+1, if and only if it holds no NUL |
| Framing.PayloadsKeepText | material-clases/TP_Corregido/writer.c:75-107 | for any sequence of non-empty reads of standard input, the payloads joined are the input up to newlines if and only if no read holds a NUL and every read shorter than 20 bytes ends in a newline |
| Framing.LogIsTextIffShortLines | material-clases/TP_Corregido/writer.c:94-107 | the log equals the typed text if and only if every line has at most 18 characters and holds no NUL |
| Framing.SplitRecoversPayloads | material-clases/TP_Corregido/reader.c:178-185 | cutting the log at newlines gives the payloads back if and only if none holds a newline |
| Framing.LineSurvivesLog | material-clases/TP_Corregido/writer.c:96-107 | for a typed line that is the case if and only if 20 does not divide L+1, or a NUL among its last 19 characters hides the newline kept by the last read |
| Framing.EndToEnd | material-clases/TP_Corregido/reader.c:104-217 | typed lines and signals, merged anyhow and read on any clean schedule, leave exactly the payloads in the log and the signals in the signals file; the log is the typed text iff no line is longer than 18 characters or holds a NUL |
| FramingProgram.WriterSendsSession | material-clases/TP_Corregido/writer.c:71-117 | the writer's data frames carry the session's payloads however signals are mixed in |
| FramingProgram.WriterSendsWire | material-clases/TP_Corregido/writer.c:71-155 | the frames of a run are, byte for byte, `DATA: ` with the cut chunk for each read, `SIGN: 1` for each SIGUSR1 and `SIGN: 2` for each SIGUSR2, in order |
| FramingProgram.Writer.TrimChunk | material-clases/TP_Corregido/writer.c:73-99 | the cleared and cut `msg` holds the chunk without the last byte of a short read |
| FramingProgram.Writer.SendChunk | material-clases/TP_Corregido/writer.c:71-107 | one turn of the loop appends exactly one data frame |
| FramingProgram.Writer.SendSignal | material-clases/TP_Corregido/writer.c:142-155 | the handler appends exactly one signal frame and writes the byte behind its array |
| FramingProgram.Writer.Run | material-clases/TP_Corregido/writer.c:71-163 | a whole run appends exactly those bytes, which are the frames of its inputs in order |
| FramingProgram.Reader.TerminateLine | material-clases/TP_Corregido/reader.c:175-183 | `aux` holds the text and a newline; the byte behind the array is written exactly for a 20-byte text |
| FramingProgram.Reader.CheckAndWrite | material-clases/TP_Corregido/reader.c:173-217 | the text behind `DATA: ` goes to the log and the text behind `SIGN: ` to the signals file, with a newline; a text with neither header changes neither file |
| FramingProgram.Reader.ReadOnce | material-clases/TP_Corregido/reader.c:104-133 | one turn takes min(26, available) bytes and dispatches them |
| FramingProgram.Reader.Run | material-clases/TP_Corregido/reader.c:104-217 | reads and arrivals in any order leave the files the specification delivers |
| PoolModel.StepKeepsInv | material-clases/clase6/practica_resolviendo/server_tcp.c:10-94 | every step of main and the workers uses indices in the pool and open descriptors, and keeps the invariant |
| PoolRuns.SlotExclusivity | material-clases/clase6/practica_resolviendo/server_tcp.c:33-93 | unreleased workers never share a slot; a slot is free exactly when neither one nor main's setup holds it |
| PoolRuns.WorkersBounded | material-clases/clase6/practica_resolviendo/server_tcp.c:84-93 | unreleased workers plus main's setup are the busy slots, at most the pool's length |
| PoolRuns.DescriptorLedger | material-clases/clase6/practica_resolviendo/server_tcp.c:16-93 | accepted = dropped + closed + open; every open descriptor has exactly one owner even when numbers are reused |
| PoolRuns.WorkerServesItsOwn | material-clases/clase6/practica_resolviendo/server_tcp.c:13-31 | a worker's descriptor is open and is its own connection's, and it answers that connection once |
| PoolRuns.CloseIsOwn | material-clases/clase6/practica_resolviendo/server_tcp.c:30-31 | a close takes only the closer's own open descriptor and leaves every other owner's open |
| PoolRuns.QuietMeansServed | material-clases/clase6/practica_resolviendo/server_tcp.c:71-95 | when all is quiet each connection was answered once or dropped, all slots are free and each thread was detached once |
| PoolRuns.ScanUnderRelease | material-clases/clase6/practica_resolviendo/server_tcp.c:84-90 | with releases between any two probes, the claimed slot is free and no higher than the lowest one free at the accept; a drop means the pool was full at the accept |
| PoolRuns.UndisturbedScan | material-clases/clase6/practica_resolviendo/clientdata.c:9-15 | without interference the interleaved scan finds the lowest free slot |
| PoolRuns.DropDespiteFreeSlots | material-clases/clase6/practica_resolviendo/server_tcp.c:84-87 | for any pool some run drops a connection while every slot is free |
| PoolTurns.AcceptNeverWaits | material-clases/clase6/practica_resolviendo/server_tcp.c:71-80 | in every reachable state at accept, any number the kernel has free is accepted on main's next turn, whatever the workers are doing, and changes neither pool nor workers |
| PoolTurns.MainReturns | material-clases/clase6/practica_resolviendo/server_tcp.c:71-95 | main is back at accept within a fixed number of its own turns and one per slot, whatever the workers do in between |
| PoolTurns.WorkerFinishes | material-clases/clase6/practica_resolviendo/server_tcp.c:10-36 | a worker has answered, closed and released within four turns of its own, whatever everybody else does in between |
| PoolTurns.NumberReissued | material-clases/clase6/practica_resolviendo/server_tcp.c:30-34 | some run reissues a descriptor number between a worker's close and its release: two running workers' slots show it and only the second owns it |
| PoolProgram.CdInit | material-clases/clase6/practica_resolviendo/clientdata.c:3-7 | marks the first len slots free and changes nothing else |
| PoolProgram.CdGetFreeIndex | material-clases/clase6/practica_resolviendo/clientdata.c:9-15 | the lowest free index, or -1 exactly when all are busy |
| PoolProgram.Server.constructor | material-clases/clase6/practica_resolviendo/server_tcp.c:38-41 | initialisation gives the machine's initial state |
| PoolProgram.Server.RunMain | material-clases/clase6/practica_resolviendo/server_tcp.c:71-95 | the accept loop does its steps in place |
| PoolProgram.Server.RunWorker | material-clases/clase6/practica_resolviendo/server_tcp.c:10-36 | the worker does its steps in place |
| PoolProgram.Server.Run | material-clases/clase6/practica_resolviendo/server_tcp.c:10-95 | under any schedule the server in place ends in the machine's state: accepted = dropped + closed + open, running workers have slots of their own, and at rest every connection was dropped or answered once and the pool is free |
| TokenModel.StepKeepsInv | material-clases/clase7/ejemplo-msq/server.c:55-85 | every step of the server and the clients, failing or not, keeps the invariant |
| TokenRuns.RequestConservation | material-clases/clase7/ejemplo-msq/client.c:56-75 | a waiting client has exactly one request queued, in service, answered or lost, any other none; queued names are waiting clients and reply queues hold at most one message |
| TokenTurns.BlockedByOwnQueue | material-clases/clase7/ejemplo-msq/client.c:56-72 | in every reachable state a turn does nothing exactly where a client sends to a full request queue, receives from its own empty queue or is gone, or the server receives from an empty queue or has reply queues without room for one message |
| TokenTurns.QueueFills | material-clases/clase7/ejemplo-msq/client.c:59-63 | with more clients than slots some run fills the request queue, and the next client to ask blocks |
| TokenTurns.ClientRound | material-clases/clase7/ejemplo-msq/client.c:56-75 | a client reads a line, puts its request at the end of the queue, takes the oldest reply of its own queue and prompts again; no other client changes |
| TokenTurns.FailedSendAsksAgain | material-clases/clase7/ejemplo-msq/client.c:59-63 | a failed send leaves the queue alone and takes the client back to its prompt, from where a line brings it to the same send again |
| TokenTurns.EndOfInput | material-clases/clase7/ejemplo-msq/client.c:56-88 | at the end of its input a client leaves its loop and with its next turn is gone |
| TokenTurns.EndedIsFinal | material-clases/clase7/ejemplo-msq/client.c:77-88 | a client that has left never asks or receives again under any schedule, and one that is gone stays gone |
| TokenRuns.TokensSequential | material-clases/clase7/ejemplo-msq/server.c:71-84 | the replies carry exactly 1, 2, 3, ... if and only if no close before the last reply failed |
| TokenRuns.TokensUniqueIffClosed | material-clases/clase7/ejemplo-msq/server.c:78-84 | a token is handed out twice exactly when such a close failed |
| TokenRuns.NoSharedToken | material-clases/clase7/ejemplo-msq/server.c:71-84 | with those closes successful no two clients receive the same token |
| TokenRuns.AnswersInArrivalOrder | material-clases/clase7/ejemplo-msq/server.c:56-84 | token order is the arrival order of the requests that were answered |
| TokenRuns.LostClientIsStuck | material-clases/clase7/ejemplo-msq/server.c:66-76 | a client whose request was given up waits for ever under every schedule |
| TokenRuns.ServerNeverBlocks | material-clases/clase7/ejemplo-msq/server.c:55-81 | with a request in hand or queued the server can make its next call, whatever failed before and whatever that call returns |
| TokenRuns.NoDeadlock | material-clases/clase7/ejemplo-msq/client.c:56-72 | some call can be made whenever a client is about to send, queue full or not, or waits for a request not given up; and it can succeed unless the server is about to send on a descriptor that failed to open |
| TokenRuns.CleanStepBoundary | material-clases/clase7/ejemplo-msq/server.c:66-76 | then some call can succeed if and only if the server is not about to make that send, or a client's call can be made and succeed |
| TokenRuns.OnlyFailingSendLeft | material-clases/clase7/ejemplo-msq/server.c:66-76 | a run in which one client waits, its request not given up, and the failing send is the only call left |
| TokenRuns.DealtWith | material-clases/clase7/ejemplo-msq/server.c:55-84 | in every run, failures included, the r-th request, once arrived, is answered or given up after at most 4r + 3 further server turns, less those already executed |
| TokenRuns.ServeOutcome | material-clases/clase7/ejemplo-msq/server.c:66-76 | a request in service is answered if and only if its own `mq_open` returns a descriptor other than 1 and its own `mq_send` succeeds, whatever clients do in between |
| TokenRuns.AnsweredWithinTurns | material-clases/clase7/ejemplo-msq/server.c:55-84 | within those turns the r-th request has the answer that follows those of the answered requests before it, sent to its own client, or was given up and its client waits |
| TokenRuns.CleanRunAnswersAll | material-clases/clase7/ejemplo-msq/server.c:55-84 | in a run without failures it has the r-th answer |
| TokenRuns.WaitsForeverIffGivenUp | material-clases/clase7/ejemplo-msq/server.c:66-76 | a waiting client waits under every schedule if and only if its own request was given up or its own open has failed |
| TokenRuns.LostReachable | material-clases/clase7/ejemplo-msq/server.c:66-76 | a client's first request is given up, and the client left waiting, in the run whose open returns 1 or a negative value |
| TokenProgram.TokenService.constructor | material-clases/clase7/ejemplo-msq/server.c:34-53 | initialisation gives the machine's initial state |
| TokenProgram.TokenService.RunClient | material-clases/clase7/ejemplo-msq/client.c:56-86 | the client's loop and exit path do their steps in place |
| TokenProgram.TokenService.RunServer | material-clases/clase7/ejemplo-msq/server.c:55-85 | the server's loop does its steps in place |
| TokenProgram.TokenService.Run | material-clases/clase7/ejemplo-msq/server.c:34-86 | under any schedule the processes in place end in the machine's state: the answers are 1, 2, 3, ... iff every close before the last succeeded, then no two clients received the same token, and a waiting client's request is queued, in service, answered or given up |

## Left out

- Memory order: accesses to shared variables are sequentially consistent, a slot write is one step and `free` is read and written atomically; the C code has unsynchronised accesses to `buf` and `free`.
- Failing system calls other than those of the token server's loop: the programs print a message and exit.
- The server's failing `mq_open == 1` and `mq_send` paths leave the client's descriptor open; descriptors of the token server are not counted, and what later opens return is the environment's choice.
- The text of a ring string: `"Producer %d: %d\n"` is kept as the pair of numbers.
- Names that exist before a run: the model starts with empty message queues and empty files; an old `log.txt` would be overwritten from its start and not truncated. The semaphores of `named.c` may start from any values.
- A thread that would write outside `buf` is stopped where it is, since C gives the write no meaning; `BoundsBoundary` says exactly when that can happen, and `RingProgram.Spool` is only built where it cannot.
- FIFO capacity: appends never block; a frame is far below PIPE_BUF, so each write is one append (`write()`, System Interfaces volume of POSIX.1-2017, chapter 3).
- The signal handler runs between two turns of the writer's loop; inside a turn it only touches its own array and the FIFO, so any other moment before or after the turn's single write is equivalent.
- Thread cancellation: after `pthread_cancel` the spooler may stop at any point or run on until the process exits; cancellation points are not told apart.
- A run stopped between its `sem_unlink` calls: the model's exit unlinks all three names or none.
- `sem_getvalue` is taken to return the non-negative Linux value.
- Integer overflow of the token counter, and the 128-byte message buffer of the TCP worker, which reads and echoes nothing of the client's text.
- A TCP worker's read and write always succeed on its next turn; failing `pthread_create`.
- `material-clases/TP` and `clase6/practica` hold earlier versions of the same logic; the other examples are straight-line uses of system calls.
