# The application launcher, modelled and proved

An `invoker` asks a pre-forked `booster` over a Unix socket to become an application. The booster tells its parent, the
daemon, who forks the next booster, waits for its children, and reports how each application ended to the invoker that
asked for it. This project models that system in Dafny and proves what it keeps over every run, what its two halves of
the wire format agree on, and when its guarantees fail.

Each file models one part. The code that works by changing things step by step is a class or a method with its loops;
each is proved against a function of its old state or an outright property, and the theorems are about those functions.

| file | part |
|---|---|
| `Protocol.dfy`, `Wire.dfy` | message words; a stream of bytes that carry open files; what a sender writes |
| `Invoker.dfy` | the invoker: senders, receivers, option loop; and how a session looks from its end |
| `Connection.dfy`, `WireTheorems.dfy`, `WireLimits.dfy` | the booster's receivers; round trip, order, arbitrary streams; limits and layouts in numbers and bytes |
| `Daemon.dfy` | the daemon's tables and handlers, `reapZombies` as a loop over the vector it changes |
| `World.dfy`, `WorldInvariant.dfy`, `WorldTheorems.dfy`, `Attribution.dfy`, `Witnesses.dfy` | daemon, boosters and invokers as one transition system, every interleaving; runs that show what can happen |
| `SingleInstance.dfy` | record locks, the plugin, any number of boosters and standalone launchers; the booster's accept loop |
| `ProcessTitle.dfy`, `ExecLine.dfy`, `Splitting.dfy`, `DirPrefixes.dfy`, `Descriptors.dfy`, `Fallback.dfy`, `SocketPath.dfy` | the buffer and loop cores |

## What is assumed

- `fork` succeeds and returns a pid that is not an unreaped child. A pid reaped earlier may come back at once.
- `waitpid` returns 0 or the pid asked for; a status is "exited" or "signaled". Signals reach the pipe at any time and
  in any number, with or without cause.
- `read` returns the smaller of what was asked for and what is left before the end of the stream. Words have the same
  byte order at both ends of a local socket, least significant byte first here.
- Received descriptors are numbers that were free. The peer pid of a connection is positive.
- The lock files are not removed while the system runs, and an application leaves its lock's descriptor alone.
- A string is shorter than 0x10fd0000 bytes and a list shorter than 2^31 entries, which the system's own limits on
  arguments are far below. (A size word at or above 0x10fd0000 could be taken for a message word.)

## Where the code does less than one might expect

- The status of an application can go to the wrong invoker: `reapZombies` may find the current booster dead while its
  datagram is unread, and the datagram is then put down to the next booster. `Attribution.AttributionOverRuns` says that
  there is no other way, `Attribution.StatusLost` that the invoker then never gets its own application's status, and
  `Attribution.WrongStatusDelivered` is a run in which it gets another's.
- A request outside the receiver's limits is refused, although `receiveActions` ignores what its receivers return: what
  is left in the stream is never a message word. Acceptance is exactly being within the limits
  (`WireTheorems.RequestRoundTrip`).
- A stream the invoker would not send can be accepted with a count of arguments and no arguments: `receiveActions` goes
  on after `receiveArgs` has failed, and `renameProcess` then reads slots that are not there.
  `WireTheorems.AcceptedArgv` says exactly when the two fit, and `WireTheorems.BadCountAccepted` gives such streams.
- `receiveMagic` accepts any word whose high half is not the magic; `WireTheorems.AnyStream` claims no more.
- The option text says that `-w` is the default; it is also without effect after `-n`, as the comment in the code says.
- `mkpath` reports success when a directory could not be made, and failure only when chmod is refused on one it has made
  (`DirPrefixes.SameDirectories`).
- The array of an expanded Exec line has no room for a terminating NULL when the number of arguments is a multiple of
  ten, and none is written in any case.
- Without `XDG_RUNTIME_DIR` and with a booster type of 88 characters, the daemon binds a path other than the one the
  invoker connects to (`SocketPath.PathsAgree`).
- A received descriptor that is itself 0, 1 or 2 may be closed or overwritten by the loop before it has been installed
  (`Descriptors.StreamsInstalled` says exactly when all goes well).
- `invoke` returns 0 for a session that its recursive call had (`Fallback.Invoker.Invoke`).
- Single instances are not exclusive among boosters without the plugin (`SingleInstance.NotExclusiveWithoutPlugin`).

## Model

| member | source | states |
|---|---|---|
| Protocol.WordRoundTrip | src/invoker/invokelib.cpp:29-59 | A word written as four bytes is read back, for every 32-bit word. |
| Protocol.StringDataIsNoAction | src/common/protocol.h:40-53 | Four bytes of string data are never a message word: each such word has a zero byte in its low half. |
| Invoking.Socket.SendStr | src/invoker/invokelib.cpp:61-77 | Appends to the stream the size with the NUL, modulo 2^32, and that many bytes. |
| Invoking.Socket.SendArgs | src/invoker/invoker.cpp:295-306 | The loop appends the tag, the count and every string in order. |
| Invoking.Socket.SendEnv | src/invoker/invoker.cpp:330-346 | The same for the environment. |
| Invoking.Socket.SendIo | src/invoker/invoker.cpp:349-384 | Appends one byte, whatever its value, with the descriptors attached to it. |
| Invoking.Socket.SendRequest | src/invoker/invoker.cpp:558-567 | The calls in their order put one whole request on the stream, as a message of blocks between a header and END. |
| Invoking.Socket.RecvMsg | src/invoker/invokelib.cpp:35-59 | A short read gives failure and zero. |
| Invoking.Socket.InvokeRemote | src/invoker/invoker.cpp:547-577 | The outcome of a session as a function of the bytes that arrive, including every place where the invoker dies. |
| Invoking.Socket.RecvExit | src/invoker/invoker.cpp:252-273 | A status comes only from an EXIT word followed by a whole word; otherwise the connection is lost. |
| Invoking.Socket.WaitForLaunchedProcessToExit | src/invoker/invoker.cpp:455-544 | Nothing is read without waiting; with it, PID, a nonzero pid and then the exit, or the invoker dies. |
| Invoking.ParseOptions | src/invoker/invoker.cpp:698-794 | For every list of options the bits sent depend only on which options occur, the WAIT bit agrees with the invoker's own waiting, and usage is printed exactly for the first of `-h` or an unknown option. |
| Invoking.OptionsSetTheirBits | src/common/protocol.h:28-35 | Each of the bits 0x01, 0x02, 0x04, 0x08 and 0x20 is set exactly for its option (the first for the absence of `-n`), and no other bit is ever set. |
| Invoking.WaitBit | src/invoker/invoker.cpp:698-751 | The WAIT bit, and the parity of the byte it is sent in, say whether `-n` is absent. |
| Session.ReadingOfWords | src/invoker/invoker.cpp:174-273 | For any words at all that an invoker reads: where it dies, with what pid the connection is lost, and with what status it exits. |
| Session.GreetingsAreAcknowledgement | src/launcherlib/connection.cpp:478-484 | The words a booster acknowledges with in the transition system are the bytes the modelled receiver sends. |
| Session.InvokerUnderstands | src/invoker/invoker.cpp:174-273 | In every state of every run, an invoker that reads its reply to the end dies exactly when the acknowledgement is incomplete, learns its booster's pid before anything else, and exits with the status in a whole reply. |
| Receiving.Connection.RecvStr | src/launcherlib/connection.cpp:149-189 | Refuses sizes 0 and above 65536, consumes what it read of a short string, and cuts at the first NUL. |
| WireLimits.AnyString | src/launcherlib/connection.cpp:149-189 | On any stream: a size from 1 to 65536 and as many bytes give a string, fewer bytes are used up for nothing, any other size gives nothing and uses up four bytes. |
| WireLimits.WordsAreToldApart | src/common/protocol.h:40-53 | The numbers of the twelve words, no two the same. |
| WireLimits.ShortString | src/launcherlib/connection.cpp:122-147 | A stream of fewer than four bytes gives no string and is used up. |
| WireLimits.MagicLayout | src/invoker/invoker.cpp:276-280 | The magic word sent has 0xb007, version 3 and the options in their places. |
| WireLimits.StringLayout | src/invoker/invokelib.cpp:61-77 | A string on the wire is its length with the NUL, its bytes and the NUL. |
| WireLimits.RequestLayout | src/invoker/invoker.cpp:558-567 | A request on the wire, word for word and block for block. |
| WireLimits.TwosComplement | src/invoker/invoker.cpp:308-327 | Signed numbers and their unsigned words differ by 0 or 2^32, and each conversion undoes the other. |
| WireLimits.MagicRefusedIff | src/launcherlib/connection.cpp:207-225 | The magic word is refused if and only if its high half is 0xb007 and its version is not 3; otherwise its low byte is the options and its lowest bit says whether the invoker waits. |
| WireLimits.AcceptedHead | src/launcherlib/connection.cpp:227-249 | An accepted stream begins with a magic word that is not refused, the word NAME and a nonempty string, the name. |
| WireLimits.OtherWordsRefuse | src/launcherlib/connection.cpp:438-490 | At the place of an action every word but eight refuses the request, with nothing more read or sent. |
| WireLimits.FailedSlots | src/launcherlib/connection.cpp:298-308 | When a string of argv fails, the slots before hold strings, its own is NULL and the later ones are untouched. |
| WireLimits.ArrivedArePut | src/launcherlib/connection.cpp:337-368 | Whatever the stream, exactly the entries that arrive are put into the environment, in order. |
| WireLimits.BadEnvCountEmpties | src/launcherlib/connection.cpp:328-375 | An ENV action with a count of 0 or at least 1024 leaves an empty environment. |
| WireLimits.BadExecKeepsFile | src/launcherlib/connection.cpp:251-260 | An EXEC action whose string fails leaves the file name. |
| Receiving.Connection.ReceiveMagic | src/launcherlib/connection.cpp:207-225 | Only a wrong version under the right magic is refused. |
| Receiving.Connection.ReceiveAppName | src/launcherlib/connection.cpp:227-249 | No NAME word or no string gives the empty name. |
| Receiving.Connection.ReceiveArgs | src/launcherlib/connection.cpp:281-326 | The loop fills the slots one by one; a failed string leaves NULL there and the rest unset; true is returned exactly for a count within the limits whose strings all arrive. |
| Receiving.Connection.ReceiveEnv | src/launcherlib/connection.cpp:328-375 | The loop puts each entry into the environment and stops at the first that fails; true is returned exactly for a count within the limits whose strings all arrive. |
| Receiving.Connection.ReceiveIO | src/launcherlib/connection.cpp:377-425 | One byte is consumed; the descriptors are taken, and true returned, exactly if there are three. |
| Receiving.Connection.ReceiveActions | src/launcherlib/connection.cpp:427-491 | The loop ends on every finite stream, and sends the acknowledgement only on END. |
| Receiving.Connection.ReceiveApplicationData | src/launcherlib/connection.cpp:493-529 | Options, then name, then actions; any of the three can refuse, and then nothing is kept. |
| WireTheorems.RequestRoundTrip | src/launcherlib/connection.cpp:493-529 | A request sent by the invoker is accepted if and only if its name is not empty, no string exceeds 65536 bytes with its NUL and there are at most 1023 arguments and 1023 variables, and then everything in it is received as it was sent, exactly its bytes are consumed, and the acknowledgement is sent. |
| WireTheorems.TakeStrOfCells | src/launcherlib/connection.cpp:149-189 | A string sent is received whole if it has at most 65536 bytes with its NUL; if not, its bytes stay in the stream. |
| WireTheorems.BlocksOutcome | src/launcherlib/connection.cpp:427-491 | Any list of blocks is accepted if and only if every block is within the limits; the effect is that of applying the blocks in turn. |
| WireTheorems.BlockDerails | src/launcherlib/connection.cpp:440-467 | A block outside the limits leaves the stream where no message word can follow, so ignoring the receivers' results never accepts it. |
| WireTheorems.EnvironmentIsLastWins | src/launcherlib/connection.cpp:346-368 | A variable is set if and only if an entry with '=' names it, and it has the last such entry. |
| WireTheorems.RepeatedBlocksAreLastWins | src/launcherlib/connection.cpp:431-490 | Of repeated blocks the last of each kind counts. |
| WireTheorems.OrderIndependence | src/launcherlib/connection.cpp:431-490 | Any reordering of a request's blocks is received alike. |
| WireTheorems.AcceptsOnlyAtEnd | src/launcherlib/connection.cpp:427-491 | On any stream the action loop consumes a beginning of it, acknowledges exactly when it accepts, and accepts only with an END word read last. |
| WireTheorems.AnyStream | src/launcherlib/connection.cpp:493-529 | Any accepted stream had good options, a nonempty name and END; nothing is sent to an invoker that is refused. |
| WireTheorems.LastArgsDecides | src/launcherlib/connection.cpp:440-446 | Whatever the stream, the last ARGS action read decides whether argc and argv fit. |
| WireTheorems.AcceptedArgv | src/launcherlib/connection.cpp:281-311 | In any accepted stream argc counts the slots of argv, each a string, if and only if no ARGS action was read, or the last succeeded, or it asked for none when there were none. |
| WireTheorems.BadCountAccepted | src/launcherlib/connection.cpp:440-446 | Every stream of a header, ARGS, a count of 1024 or more and END is accepted with that count and no arguments. |
| DaemonProcess.Daemon.constructor | src/launcherlib/daemon.cpp:148-180 | At start the first booster is the only child and is the current one. |
| DaemonProcess.Daemon.ForkBooster | src/launcherlib/daemon.cpp:352-438 | The new pid is appended and becomes the current booster, in the present mode; the vector grows only when it was full. |
| DaemonProcess.Daemon.ReadFromBoosterSocket | src/launcherlib/daemon.cpp:264-316 | The datagram is put down to the current booster in both maps, then a booster is forked; the tables stay consistent; if nothing can be received the daemon exits with nothing changed. |
| DaemonProcess.Daemon.Bury | src/launcherlib/daemon.cpp:449-504 | One dead child: its invoker gets the exit frame or the signal, its entries go, and it is replaced if it was the current booster. |
| DaemonProcess.Daemon.ReapZombies | src/launcherlib/daemon.cpp:440-511 | For any set of dead children: the loop ends with no zombie left, survivors keep their order, the dead leave both maps, a booster is appended exactly when the current one died, each farewell is sent in order, and the vector's block never moves under the iterator. |
| DaemonState.FarewellIs | src/launcherlib/daemon.cpp:457-504 | What the invoker of a buried child gets, in order, and the pause of the booster that replaces it: two seconds, or none in boot mode. |
| DaemonState.SurvivorsAreAlive | src/launcherlib/daemon.cpp:444-451 | What remains is exactly the children that are not dead. |
| DaemonState.DatagramKeepsConsistent | src/launcherlib/daemon.cpp:264-316 | Consistency is kept: distinct children with the current booster among them, equal keys of the maps, all of them other children, distinct descriptors. |
| DaemonState.DeathKeepsConsistent | src/launcherlib/daemon.cpp:440-511 | The same for a death, even if the new booster gets the pid just reaped. |
| DaemonProcess.Daemon.EnterNormalMode | src/launcherlib/daemon.cpp:649-664 | SIGTERM goes to the current booster exactly when the mode changes; the pid is kept. |
| DaemonProcess.Daemon.EnterBootMode | src/launcherlib/daemon.cpp:666-681 | The same in the other direction. |
| WorldInvariant.EventKeeps | src/launcherlib/daemon.cpp:182-262 | Every event of daemon, booster, invoker or kernel keeps the invariant that ties tables, processes, descriptors, datagrams and replies together. |
| WorldInvariant.RunsKeepInvariant | src/launcherlib/daemon.cpp:182-262 | So every state of every run has it. |
| WorldTheorems.ReplyShape | src/launcherlib/daemon.cpp:457-475 | In every state of every run a reply is a prefix of ACK, PID, pid, EXIT, status if the invoker waits and of ACK if not; a settled connection whose child exited has the whole reply with its code. |
| WorldTheorems.EventChanges | src/launcherlib/daemon.cpp:182-262 | A connection changes in five ways only: its booster writes its next word, or goes on or ends without writing; the daemon receives it; the daemon buries the child mapped to it; its application's end is noted. |
| WorldTheorems.ExitHasOneSender | src/launcherlib/daemon.cpp:462-475 | The words of EXIT are written only by the booster that serves the connection, for an application that runs already, or by the daemon, when it lets go of a connection it held because the child mapped to it has exited. |
| WorldTheorems.ReceivedOnce | src/launcherlib/daemon.cpp:289-302 | Over any run, a connection received with a nonzero invoker pid is held in every later state until it is settled, and is then closed once, with one exit frame or none, for good. |
| WorldTheorems.HeldUntilChildDies | src/launcherlib/daemon.cpp:453-498 | A connection the daemon holds changes only when the child mapped to it is found dead; then it is closed, with that child's code written before if it exited. |
| WorldTheorems.Conservation | src/launcherlib/daemon.cpp:289-302 | In every state of every run a held connection has one descriptor and one mapped child and is not closed, a settled one is closed once and any other never; the signals sent to invokers are those of the children that were signaled, once each, in order. |
| WorldTheorems.ModeSafety | src/launcherlib/daemon.cpp:649-690 | In every state of every run the current booster was forked in the present mode or has been sent SIGTERM, and every replacement is forked in the mode of its moment. |
| WorldTheorems.SignalEffects | src/launcherlib/daemon.cpp:213-259 | Everything a signal taken from the pipe does: SIGUSR1 leaves and SIGUSR2 enters boot mode, with the current booster terminated exactly on a change; SIGCHLD starts polling at the first child; SIGTERM stops; any other does nothing. |
| WorldTheorems.OnlySignalsSwitch | src/launcherlib/daemon.cpp:649-690 | No other event changes the mode, and no process is told to end but the current booster on a change of mode. |
| WorldTheorems.ModeIsLastAskedFor | src/launcherlib/daemon.cpp:649-681 | Over any run the mode is that of the last SIGUSR1 or SIGUSR2 taken, or the initial one. |
| WorldTheorems.DaemonRound | src/launcherlib/daemon.cpp:182-213 | A datagram is read before a signal of the same round, and the signal only if select has reported it. |
| WorldTheorems.PollTables | src/launcherlib/daemon.cpp:444-510 | One poll: a child alive is passed over; a dead one leaves the children and the processes, the next takes its place, and a booster in the present mode replaces the current one. |
| WorldTheorems.AcceptedConnection | src/launcherlib/connection.cpp:75-89 | A new connection has its invoker, its wish to wait and its booster's pid, and no reply. |
| WorldTheorems.LaunchTells | src/launcherlib/booster.cpp:165-220 | A launch comes after the whole acknowledgement, and its datagram names the invoker exactly if it waits. |
| WorldTheorems.SignalPassedOn | src/launcherlib/daemon.cpp:477-494 | An invoker is sent a signal only when its connection is settled for a child killed by that signal. |
| Witnesses.ModeSwitchCarriedOut | src/launcherlib/daemon.cpp:649-690 | A run in which SIGUSR1 has the booster end and be replaced by one in normal mode. |
| Witnesses.AlreadyRunningAnswered | src/launcherlib/booster.cpp:110-124 | A run in which a waiting invoker gets the whole reply from the booster. |
| Attribution.EventAttributes | src/launcherlib/daemon.cpp:212-223 | From an attributed state an event leads to an attributed one if and only if it does not reap the current booster over an unread datagram. |
| Attribution.AttributionOverRuns | src/launcherlib/daemon.cpp:182-262 | A run is attributed throughout if and only if that never happens in it; then at most one datagram is queued, it is the current booster's, and every invoker gets its own application's status. |
| Attribution.StatusLost | src/launcherlib/daemon.cpp:440-511 | Once that has happened from an attributed state, as it does the first time in a run, in every later state of every run no process is the one launched for the invoker of the unread datagram, and the step that settles its connection does so for the end of another. |
| Attribution.WrongStatusDelivered | src/launcherlib/daemon.cpp:440-511 | A run in which an invoker whose application exited with 3 is told 5. |
| SingleInstance.Plugin.Lock | src/single-instance/main.cpp:98-131 | Succeeds exactly when the file opens and no other process has it locked; a failed attempt leaves no descriptor open, keeps the number of the one it closed, and costs the process a lock it already had on that file. |
| SingleInstance.Plugin.Unlock | src/single-instance/main.cpp:134-141 | Gives back what a successful attempt took; nothing the second time. |
| SingleInstance.RunsKeepInvariant | src/launcherlib/booster.cpp:97-141 | Over every interleaving, locks and their owners match: who runs as a single instance owns its file's lock, and no one else owns any. |
| SingleInstance.MutualExclusion | src/single-instance/main.cpp:98-131 | In every state of every run of any number of boosters and launchers, two processes that run one application, were asked for a single instance and lock, with one runtime directory, are the same; a process runs with a lock exactly when asked for a single instance and the plugin is there. |
| SingleInstance.PathTellsName | src/single-instance/main.cpp:98-107 | Under one runtime directory different applications have different lock files. |
| SingleInstance.LockGrantedByName | src/single-instance/main.cpp:98-130 | With one runtime directory, an attempt without error is granted if and only if no other process runs the application of that name with its lock. |
| SingleInstance.NameIsLatest | src/launcherlib/booster.cpp:100-111 | A process's name is that of its latest request, or of its start as a launcher. |
| SingleInstance.AttemptIsLock | src/single-instance/main.cpp:98-131 | The steps of an attempt in the system succeed, and leave descriptors and locks, exactly as lock() in one call. |
| SingleInstance.NoFileIsRefused | src/single-instance/main.cpp:101-124 | Without a directory or a file an attempt is refused and changes no lock. |
| SingleInstance.RefusedThenGranted | src/launcherlib/booster.cpp:97-141 | A run in which a booster is refused while another runs the application, and granted the lock after that has ended. |
| SingleInstance.LockGrantedIff | src/single-instance/main.cpp:126-130 | An attempt that gets to the lock succeeds exactly when the call does not fail otherwise and no other live process runs that application as a single instance. |
| SingleInstance.FailedAttemptKeepsLocks | src/single-instance/main.cpp:126-130 | In every run, closing the file after a failed attempt gives up no lock, its own included. |
| SingleInstance.LoserAcceptsAgain | src/launcherlib/booster.cpp:105-124 | A refused booster accepts again and has told the daemon nothing; each booster tells it once, on starting an application; a refused launcher exits. |
| SingleInstance.ExecFailureIsExit | src/single-instance/main.cpp:212-220 | Unlocking after a failed exec gives back exactly what the process held. |
| SingleInstance.NotExclusiveWithoutPlugin | src/launcherlib/booster.cpp:133-136 | A run of two boosters without the plugin that run the same single-instance application. |
| BoosterLoop.Booster.Initialize | src/launcherlib/booster.cpp:97-146 | The loop calls lock() for each single-instance request. A request is launched, and ends the loop, exactly if it asks for no single instance, there is no plugin, or its lock is free; each earlier one is answered, if its invoker waits, with whether the running instance came up; the daemon gets one message, for the launched request only. |
| ProcessTitle.Renamer.RenameProcess | src/launcherlib/booster.cpp:287-324 | Nothing outside the block is written; the block shows the new arguments cut to the original space, ends them with NUL and is zero after. |
| ProcessTitle.Renamer.AddUp | src/launcherlib/booster.cpp:294-296 | The strlen loop adds up the strings at the pointers. |
| ProcessTitle.Renamer.Join | src/launcherlib/booster.cpp:302-307 | The loop builds the arguments, each with its NUL. |
| ProcessTitle.OriginalSpace | src/launcherlib/booster.cpp:294-296 | On a contiguous block of arguments that sum is the size of the block. |
| ProcessTitle.LatestTitleOnly | src/launcherlib/booster.cpp:287-324 | After any sequence of renamings the block depends on the latest arguments alone and uses the whole original space. |
| ProcessTitle.ShownBytes | src/launcherlib/booster.cpp:309-322 | Byte for byte, the block shows as much of the text as fits before its last byte, which is NUL, and zeros after it. |
| ProcessTitle.TitleReadsBack | src/launcherlib/booster.cpp:309-322 | Splitting the block at NULs gives the arguments back if and only if only NULs of theirs were cut off, so whenever they fit. |
| ExecLine.ExpandExec | src/invoker/invoker.cpp:826-889 | The desktop file's path followed by the expansion of every token, or the arguments as they are if one looks like an option; room for a NULL exactly when their number is no multiple of ten. |
| ExecLine.ArgumentArray.Append | src/invoker/invoker.cpp:870-876 | The slot written is inside the array and no earlier slot is lost when it grows. |
| ExecLine.ArgumentArray.Grow | src/invoker/invoker.cpp:676-682 | Ten more slots, the old ones kept. |
| ExecLine.CodeInPlace | src/invoker/invoker.cpp:850-869 | Wherever it stands in the line, a file or URL code puts all user arguments in its place and any other two-character code leaves nothing. |
| ExecLine.LiteralsStay | src/invoker/invoker.cpp:870-876 | Tokens that are not '%' and one character are passed on in order. |
| ExecLine.LiteralInPlace | src/invoker/invoker.cpp:850-876 | Such a word stays in its place wherever it stands in a line. |
| ExecLine.PlainLine | src/invoker/invoker.cpp:836-884 | For a line of a program and such words, and arguments without options, the new argument vector is the desktop path and exactly those words. |
| ExecLine.OptionStops | src/invoker/invoker.cpp:825-834 | One argument that begins with '-' leaves all arguments as they are. |
| ExecLine.ProgramIsFirstWord | src/invoker/invoker.cpp:841-842 | The program is the first run of characters that are not white space. |
| Splitting.TokensAreSeparated | src/invoker/invoker.cpp:844-847 | The nonempty pieces of two texts with a separator between them are those of the one and then those of the other. |
| Splitting.TokensOfWord | src/invoker/invoker.cpp:844-847 | A text without separators is one piece, or none if empty. |
| DirPrefixes.FileSystem.MkPath | src/single-instance/main.cpp:48-70 | The index loop tries exactly the component prefixes in order, and the whole path again after a trailing slash; it stops only over a refused chmod. |
| DirPrefixes.FileSystem.MkdirRecursive | src/launcherlib/booster.cpp:414-438 | The iterator loop tries the same sequence for every path; it stops at the first prefix that is no directory and cannot be made one. |
| DirPrefixes.ParentsFirst | src/launcherlib/booster.cpp:422-435 | Every directory is tried after its parent and the last one is the whole path. |
| DirPrefixes.SameDirectories | src/single-instance/main.cpp:48-70 | On every tree and path mkdirRecursive makes exactly the prefixes whose shorter ones were all there or could be made, and tells whether the path is there. mkpath succeeds if and only if chmod is refused on none of those, and then makes the same ones; otherwise it has made them up to one on which chmod is refused. |
| Descriptors.Process.Install | src/launcherlib/booster.cpp:534-541 | The loop's effect on the descriptor table is that of its three turns. |
| Descriptors.StreamsInstalled | src/launcherlib/booster.cpp:534-541 | The streams are installed, the temporaries closed and everything else untouched if, and for distinct files only if, each later stream's descriptor is above it and none carries another stream's number that is not replaced; so whenever all are at least three. |
| Fallback.Invoker.TryTypes | src/invoker/invoker.cpp:630-638 | The strtok_r loop tries the listed types in order and stops at the first connection. |
| Fallback.InvokedMeans | src/invoker/invoker.cpp:630-667 | Every attempt before the last opened no socket or was refused; an invalid type is death; a connection is a session, whose status is lost after a recursion; all attempts failing is a direct start. |
| Fallback.ChainEndsGeneric | src/invoker/invoker.cpp:648-659 | The chain is the types listed, and "generic" after them unless it is the last of them. |
| Fallback.Invoker.Invoke | src/invoker/invoker.cpp:611-673 | The recursive code tries the flat chain of listed types and then the generic booster, from its start until an attempt does not fail, for every list and every availability; it ends in one session, one direct start, which replaces the invoker exactly if it waits and succeeds, or death, and gives the session's status back exactly when it did not recurse. |
| SocketPath.InvokerPath | src/invoker/invoker.cpp:201-214 | Every write is within the 108 characters and the path has at most 107; it goes on for every type without slashes for which 92 characters of the directory, the 15 after them and the type make at most 107, and for no other. |
| SocketPath.ManagerPath | src/launcherlib/socketmanager.cpp:86-91 | The path bound is the first 107 characters of directory and type. |
| SocketPath.PathsWithoutDirectory | src/launcherlib/socketmanager.cpp:35-56 | Both paths in words without a runtime directory, with the daemon's cut. |
| SocketPath.PathsWithDirectory | src/invoker/invoker.cpp:206-214 | Both paths in words with one, with the invoker's cut. |
| SocketPath.PathsAgree | src/launcherlib/socketmanager.cpp:35-56 | For every runtime directory and every type the invoker accepts, both paths are the same up to repeated slashes if and only if it is not the case that there is no directory and the type has 88 characters. |

## Left out

- DaemonProcess.Daemon.ReapZombies: children that die while the loop runs, and a booster that dies as soon as it is forked there; in the transition system, where each poll is an event of its own, they may.
- WorldTheorems.ReplyShape: writes to a connection whose invoker is gone; the words then reach nobody.
- WireTheorems.AnyStream: the value of the options under a word that does not have the magic; any is accepted.
- Invoking.ParseOptions: `-t`, `-d`, `-r` and their values, `-T`, `-F` and the options without effect.
- Descriptors.StreamsInstalled: which of two descriptors with the same open file a stream refers to cannot be told apart; the "only if" half is for different files.
- Fallback.Invoker.Invoke: whether `execve` succeeds in a child that was forked, of which the invoker hears nothing.
- ExecLine.ExpandExec: reading the desktop file and looking the program up in `PATH`.
- ProcessTitle.Renamer.RenameProcess: `prctl` and the `_` variable.
- DirPrefixes.SameDirectories: the modes of the directories.
- Signals sent to the invoker and forwarded by it, and what it does to an application whose daemon is gone, other than that the connection is lost.
- Errors of `read`, `accept` and `select`, and a connection whose peer pid cannot be found.
- A `fork` that fails in the daemon, `SIGTERM` to the daemon beyond its end, the pid file, `daemonize`, `systemd`, logging and usage texts.
- Preloading, Qt and DTK boosters, `dlopen` and the jump to `main`; cgroups, user and group ids, priorities and out-of-memory adjustment.
- Window activation over D-Bus, which is only a yes or a no.
- Sleeping, respawn delays beyond their value, and that anything happens eventually.
- The maps of `SocketManager`, the accessors of `AppData`, the privileges file and program search, which would only add easy members.
