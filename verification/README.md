# Multithreaded chat application: a verified model

The chat application is a UDP server and client written in C with POSIX threads. This project models its
concurrent core and its text pipeline in Dafny and proves what they guarantee over all inputs and all runs.
Where a promise turns out not to hold of the code, the code is kept as it is and the exact condition under
which the promise does hold is proved instead.

Each routine that changes state is modelled twice. A method, a class with the source's fields or an array
updated in place, follows the C code. A function or step relation says what one critical section does, and
the method is proved against it. The theorems are then about the functions and about runs of steps.

| files | what they model |
|---|---|
| `Threads`, `Monitor`, `MonitorTheorems`, `MonitorCode` | the reader-writer monitor: N threads, signals that wake at least one waiter, spurious wakeups |
| `CStrings`, `Tokeniser`, `Ring`, `QueueCode`, `TokenCopy`, `QueueRun`, `QueueTheorems`, `QueueRequests` | the bounded queue, its in-place tokeniser, the tokens borrowed from a freed slot, N producers and M consumers |
| `Net`, `Sequences`, `Clients`, `Registry`, `ServerRun`, `ServerTheorems`, `Handlers`, `ServerCode` | the linked list of clients, the command handlers, and all their interleavings |
| `Inactivity`, `Gaps`, `Waiting`, `Eviction`, `Renaming`, `Starvation` | pings and evictions over time: the manager's pass in its parts, the gaps between them, and how long a silent client can stay |
| `Lockout` | the monitor and the server together |
| `Commands`, `Pipeline`, `Delivery`, `EndToEnd`, `History`, `Wire` | the lines on the wire, what each end takes them for and does about them, a message's way from one keyboard to every screen, and the history replay |
| `MuteTable`, `ClientCode`, `Handoff` | the client: mute table, display filter, and the hand-off between its two input threads |

## What the proofs found

- `writer_checkin` increments `WW` for every wait and never decrements it. As written, once any writer has
  waited no reader is ever admitted again (`AsWrittenReaderAdmittedIff`). With the `WW--` that the reader's
  side suggests, nobody is ever stranded (`IntendedDrains`). Theorems say which variant they are about.
- For the server this means that after one such wait, once the readers of that moment have left, there is never
  again a scan for inactive clients, an admin check or a lookup for a disconnect (`NoScanNoKickNoLeave`). Nobody
  is evicted, kicked or disconnected any more except by removals already under way. Broadcasts and private
  messages, which begin as a reader too, end likewise. The results on eviction in time are about a server in
  which that has not happened.
- The borrowed tokens that client_interface.c worries about at line 371 are safe, because the queue has one
  consumer (`BorrowedTokensStay`, `PopThenCopy`). With two consumers they are not (`TwoPopsExposeTheSlot`).
- A broadcast arrives whole exactly when the sender's name has at most 18 characters and at most 47 words
  are sent. A private message needs a name of at most 10 characters: its heading's first word is the name
  with ":(private" after it, and the client clips words to 19.
- A muted name hides exactly the messages that `extract_username` takes to be from it (`MuteHidesIff`): those of
  every sender whose name is the muted one up to its first colon ("al" also hides "al:ice"), and, if "SERVER" is
  muted, the kick notices. A bare `mute$` mutes "", which hides everybody whose name has 19 characters and no
  colon, and one's own copies of private messages to names of 13 characters or more (`MuteHidesCopiesIff`). A
  sender's messages are hidden under its own name exactly when that has at most 18 characters and no colon.
- README.md of the repository (lines 184-188) promises new clients the last 15 broadcasts from a circular
  buffer. Storing stops at 100, so later clients always get broadcasts 86 to 100 (`ReplayFreezes`).
- With one pass a second, whatever falls in its gaps, a silent client is evicted within `192 + 2m` seconds when
  m < 85 clients are ahead of it, and within `192 + 194m` when m <= 180; from 181 on there is no bound
  (`NeverEvicted`). One step does spoil it: a client picked for eviction that takes another name before it is
  removed. Without such renames a bound exists if and only if m <= 180, with them for no m (`EvictionBoundedIff`).
- A pass scans as a reader, and only afterwards records the ping or takes the writer's lock to remove the client
  under a name copied in the scan; activity takes no lock at all. A ping is recorded rightly if and only if its
  client was not heard from since the scan (`PingIsEarnedIff`), an eviction is still fair if and only if the same
  holds and its ping was right (`EvictionIsFairIff`), and it takes the client meant if and only if that is still the
  first of the copied name (`EvictionTakesIff`). Runs from the start show an eviction after 181 seconds with an
  answered ping, one after no silence at all, and one that takes a newcomer while every name is in use once.
- `disconnect` and the eviction remove by name; they remove the right client exactly when nobody ahead of it
  has the same name. No code makes names unique.

## Assumptions

- The connection manager's pass is made in its parts in `ServerRun`, `Inactivity`, `Gaps` and `Eviction`, with any other steps in
  between: reading the time, the scan, and the write of `ping_sent` or the removal. The walk over the nodes is one
  step. For eviction in time there is one pass a second, over before the next second begins; it may be in its parts
  or whole (`PassIsItsParts` says what that means).
- Unique names are assumed where a theorem says `UniqueNames` or `TakesFreeName` (server_interface.c:6).
  Eviction in time needs none. Names are at most 19 characters long, so the name copied in a scan is the whole name.
- A C string has no NUL in it (`IsCStr`); `char` is signed in the hash, as on the platforms the code is built for.
- Sends append to a log; clocks, addresses and the scheduler's choices are parameters.

## Model

| member | source | states |
|---|---|---|
| `Monitor.StepKeepsInv` | server_types.h:240-280 | every check-in, wait return, check-out and spurious wakeup, in either variant, keeps: the counters count the threads, writers exclude everybody, a sleeping reader has a writer active or waiting, and a free lock with a sleeping writer has a woken one |
| `MonitorTheorems.MutualExclusion` | server_types.h:240-280 | over all runs of N threads, an active writer is the only active thread |
| `MonitorTheorems.CountersCountThreads` | server_types.h:49-60 | over all runs AR, AW and WR are head counts; WW is one only in the intended variant and an upper bound as written |
| `MonitorTheorems.WriterWakeupPending` | server_types.h:251-279 | no writer wakeup is lost, in either variant: with the lock free and a writer asleep, another is on its way |
| `MonitorTheorems.IntendedWakeupPending` | server_types.h:240-280 | intended variant: with the lock free and anybody asleep, a woken writer is on its way |
| `MonitorTheorems.NotTheLastWakesNobody` | server_types.h:251-258 | a reader that leaves others reading wakes nobody |
| `MonitorTheorems.LastOutWakes` | server_types.h:251-279 | whoever leaves last wakes only sleeping writers while WW is positive, one at least if one sleeps; otherwise a writer wakes every sleeping reader; nobody else's place changes |
| `MonitorTheorems.SpuriousWakes` | server_types.h:240-269 | a spurious wakeup may wake any sleeper and changes nothing else |
| `MonitorTheorems.InternalRunsEnd` | server_types.h:240-280 | with no new check-ins the monitor comes to rest in a bounded number of steps, in any order |
| `MonitorTheorems.RestIsReached` | server_types.h:240-280 | from every state there is a run to rest |
| `MonitorTheorems.IntendedDrains` | server_types.h:240-280 | intended variant: whenever it comes to rest, every thread is out; nobody is stranded |
| `MonitorTheorems.AsWrittenDrainsIff` | server_types.h:240-280 | as written: at rest everybody is out if and only if WW was 0 or no reader was waiting |
| `MonitorTheorems.AsWrittenLocksReadersOut` | server_types.h:242-246 | as written: WW never falls, and while it is positive no thread starts reading and every waiting reader keeps waiting, in every continuation |
| `MonitorTheorems.AsWrittenReaderAdmittedIff` | server_types.h:240-269 | as written: a thread can read in some continuation if and only if WW is 0 or it is reading already |
| `MonitorTheorems.OneWaitLocksReadersOutForever` | server_types.h:263-266 | the same six steps let the reader in under the intended variant and, as written, reach a state with no writer active or waiting where nobody ever reads again |
| `MonitorCode.ClientMonitor.ReaderCheckinLoop` | server_types.h:240-249 | the wait loop as written, others acting in every wait, is a run of monitor steps that ends with the reader in or asleep |
| `MonitorCode.ClientMonitor.WriterCheckinLoop` | server_types.h:261-269 | likewise for the writer's loop |
| `MonitorCode.ClientMonitor.ReaderCheckoutCode` | server_types.h:251-258 | the check-out is the step: the last reader wakes one waiting writer |
| `MonitorCode.ClientMonitor.WriterCheckoutCode` | server_types.h:271-280 | the check-out is the step: one waiting writer is woken, or else all waiting readers |
| `CStrings.WordsCat` | queue.h:45-51 | strtok on " " splits at any space: the words around it are the words of the two sides |
| `CStrings.WordsOfJoin` | queue.h:45-51 | strtok gives back exactly the words that were printed with single spaces |
| `CStrings.RemoveDollarIs` | queue.h:36-41 | a text without '$' stays as it is; from any other exactly the first '$' goes |
| `Pipeline.PlainLineParses` | queue.h:43-55 | a line without '$' is parsed into its first 49 words |
| `Tokeniser.RemoveDollarSign` | queue.h:36-41 | in place, the buffer's string loses its first '$' and nothing else |
| `Tokeniser.Strtok` | queue.h:45-51 | one strtok call hands out the next word, leaves the rest for the next call and touches nothing before |
| `Tokeniser.GetAndTokenise` | queue.h:43-55 | after tokenising in place, the pointers read as the first 49 words of the message without its '$' |
| `Ring.SizeDecides` | queue.h:27-34 | size is tail minus head modulo 256, at most 255; full and empty are what the two tests say |
| `Ring.AppendIsFifo` | queue.h:65-77 | an append adds the message, clipped to 511 characters, with its sender, at the end of the sequence held |
| `Ring.PopIsFifo` | queue.h:91-101 | a pop takes the front off, whatever tokenising does to its buffer |
| `Ring.AppendSparesBehind` | queue.h:61-76 | no append can touch the slot just behind head |
| `QueueCode.Queue.QAppend` | queue.h:58-81 | one pass of the wait loop: a full queue is left alone, otherwise the ring's slots, tail and size are those of the append |
| `QueueCode.Queue.QPop` | queue.h:84-105 | one pass of the wait loop: the tokens read as the parse of the front message, with its sender, and the front is gone |
| `TokenCopy.PopThenCopy` | client_interface.c:363-382 | the tokens copied after any number of other appends are the parse of the message popped |
| `TokenCopy.PopThenHandle` | server_interface.c:455-462 | the command executed is the one in the message popped |
| `QueueRun.StepKeepsInv` | queue.h:58-105 | every append, pop, block, wait return and spurious wakeup keeps the queue's order and its wakeups |
| `QueueTheorems.FifoOverRuns` | queue.h:58-105 | over all runs, the messages appended are those popped followed by those held, in order, each with its sender |
| `QueueRequests.NoRequestIsLost` | queue.h:58-81 | over all runs, every message, clipped to 511 characters and with its sender, has been appended or is still waited with exactly as often as calls of q_append asked for it |
| `QueueRequests.RequestIsKept` | queue.h:58-81 | a producer waits with its own message and sender, and its call ends in the step that appends exactly those |
| `QueueRequests.OthersKeepIt` | queue.h:58-81 | nobody else's step touches a waiting producer's request, or ends its call |
| `QueueRequests.PopIsServed` | queue.h:84-105 | a consumer's call ends with the tokens of the front message, which is then gone from the queue, or leaves it waiting |
| `QueueRequests.NobodyIsRefused` | queue.h:58-105 | full or empty, an idle thread can call and a woken one go on |
| `QueueRequests.WhoWakes` | queue.h:60-104 | an append wakes the consumers its signal chooses, a pop those producers, a call that has to wait nobody |
| `QueueTheorems.WakeupsCoverWork` | queue.h:60-63 | over all runs, while a consumer sleeps there is a woken one for every message held, and while a producer sleeps a woken one for every free slot |
| `QueueTheorems.AtRest` | queue.h:60-63 | with nobody on the way back from a wait, a sleeping consumer means all was popped, a sleeping producer means 255 are held, and not both sleep |
| `QueueTheorems.ResumesEnd` | queue.h:60-89 | with no new calls, the returns from waits come to an end in any order |
| `QueueTheorems.BorrowedTokensStay` | queue.h:91-100 | with one consumer and any number of producers, the tokens of the last pop read as its message until the next pop |
| `QueueTheorems.TwoPopsExposeTheSlot` | queue.h:91-100 | with a second consumer they do not: from any full queue two pops and two appends overwrite the first pop's slot |
| `Registry.ClientList.AddClientToList` | server_types.h:62-81 | the new node goes to the tail of a chain that stays acyclic, head and tail right |
| `Registry.ClientList.RemoveClientFromList` | server_types.h:110-143 | exactly the first node with that name is unlinked, its address returned, the order of the rest kept |
| `Registry.ClientList.UpdateClientActivity` | server_types.h:84-94 | the first client at that address is heard from now and has no ping pending; nobody else changes |
| `Registry.ClientList.FindClient` | server_interface.c:98-108 | the first node with that name, or none |
| `Registry.ClientList.FindClientByAddress` | server_interface.c:52-58 | the first node at that address, or none |
| `Registry.ClientList.RenameClient` | server_interface.c:296-303 | the first client at that address takes the name |
| `Registry.ClientList.IsAdmin` | server_interface.c:321-325 | true exactly for the address of the head |
| `Registry.ClientList.FindActionable` | server_interface.c:487-508 | the first client silent for more than 180 seconds that was not pinged, or was pinged more than 10 seconds ago |
| `Registry.ClientList.Scan` | server_interface.c:483-509 | what a scan hands on: the first client due for a ping, or the first due for eviction with a copy of its name, or nothing |
| `Registry.ClientList.WritePing` | server_interface.c:512-516 | the write of ping_sent changes that node's and nothing else |
| `Registry.ClientList.ConnectionTick` | server_interface.c:477-534 | a pass pings that client, or removes by its name the one whose ping timed out, and tells it so |
| `ServerRun.StepKeepsInv` | server_interface.c:62-370 | every step of every handler and every part of a pass keeps the list in order of connection, times sensible, pending kicks authorised, and whoever a scan picked silent for over 180 seconds or heard from since |
| `ServerRun.PassIsItsParts` | server_interface.c:474-535 | a whole pass is its scan and its write or removal with nothing in between |
| `ServerTheorems.AdminIsEarliest` | server_types.h:73-79 | over every interleaving the head is the earliest-connected client present |
| `ServerTheorems.KickerIsStillAdmin` | server_interface.c:321-345 | when a kick removes someone, the client that was head at its check is still the head or has left |
| `Handlers.KickCheckAdmitsTheHead` | server_interface.c:321-337 | a kick from any address but the head's changes nothing; the head's adds exactly one removal, in its name and for its target |
| `Handlers.KicksAreConserved` | server_interface.c:317-345 | over all runs, the removals made and those pending are exactly those that a head asked for from its address, each once and for its own target |
| `Handlers.KickTakesFirstNamed` | server_types.h:115-135 | a kick's removal takes the first client of the name asked for and nobody else |
| `Handlers.KickIsItsParts` | server_interface.c:317-345 | the kick handler does to the list what its check and its removal do, with nothing in between |
| `ServerTheorems.AdminUntilGone` | server_interface.c:321-325 | whoever was ever the head is the head for as long as it is listed at all |
| `ServerTheorems.GoneForGood` | server_types.h:115-135 | a node off the list never comes back |
| `ServerTheorems.RenamedIsFound` | server_interface.c:288-303 | after a rename to a free name, that name finds the renamed client |
| `ServerTheorems.ConnectedIsFound` | server_interface.c:62-75 | after a connect under a free name, that name finds the new client, at the tail |
| `ServerTheorems.RemoveByOwnNameIff` | server_types.h:115-135 | removing a client by its own name removes it if and only if nobody before it has the name |
| `ServerTheorems.DisconnectRemovesItsNode` | server_interface.c:222-237 | with unique names, a disconnect's removal takes exactly the node handed on from its lookup, even if renamed in between |
| `Handlers.DisconnectTakesTheSender` | server_interface.c:222-237 | from lookup to removal, whatever falls in between: with unique names at the removal, exactly the client that was first at the sender's address at the lookup is taken out, if still listed |
| `Handlers.UnknownLeavesNobody` | server_interface.c:222-230 | a disconnect from an unknown address changes nothing |
| `Handlers.LeaveIsItsParts` | server_interface.c:215-248 | the disconnect handler does to the list what its lookup and its removal do, with nothing in between |
| `Handlers.RenameRenamesTheSender` | server_interface.c:296-303 | a rename takes effect whether or not the name is in use: the first client at that address has it, everything else stays |
| `Handlers.NobodyIsKeptOut` | server_interface.c:62-370 | no handler waits for another's step; only a rename and a leave need their client listed |
| `Handlers.ManagerIsKeptOutOnlyByItself` | server_interface.c:474-535 | a pass can start whenever the one before is over, by any time already past, and what a scan picked can always be seen to |
| `ServerTheorems.DisconnectCanRemoveAnother` | server_interface.c:222-237 | without them, a run in which a disconnect removes another client of that name |
| `ServerCode.Server.Say` | server_interface.c:161-194 | everybody listed is sent the formatted message once, in list order, and the history gets it |
| `ServerCode.Server.Sayto` | server_interface.c:110-145 | the first client of that name gets the message and the sender its copy, or the sender an error |
| `ServerCode.Server.ConnectToServer` | server_interface.c:62-90 | the new client is added at the tail and sent its success and the history, in order |
| `ServerCode.Server.Disconnect` | server_interface.c:215-248 | an unknown address changes nothing; otherwise the client found is removed by its name and whoever was removed is told |
| `ServerCode.Server.Kick` | server_interface.c:317-364 | anybody but the head is refused; a kick by the head removes the first client of that name, tells it, and tells all who are left |
| `ServerCode.Server.Handle` | server_interface.c:402-440 | each kind of command changes the list and sends what its handler does |
| `ServerCode.Server.Execute` | server_interface.c:392-440 | any command but connect first counts as its sender's activity, then its handler runs |
| `Wire.HandledIsStep` | server_interface.c:402-440 | connect and rename do to the list what their steps do, and all but these, disconnect and kick nothing |
| `Wire.HandledIsRun` | server_interface.c:402-440 | disconnect and kick do to the list what their two steps do |
| `Wire.EverybodyIsTold` | server_interface.c:161-194 | what is said is sent once to everybody listed |
| `Wire.TwoAreTold` | server_interface.c:110-145 | a private message is sent to the first client of the name and back, or an error back |
| `Wire.OneIsTold` | server_interface.c:62-90 | a rename and a connect are answered, and a disconnect to whoever is removed |
| `Wire.AllAreToldOfAKick` | server_interface.c:317-364 | a kick is refused, or whoever is removed and all who are left are told |
| `Inactivity.StepFollows` | server_types.h:84-94 | in one step of the server, a node's last_active changes only by its activity, and ping_sent only by that or by the ping recorded for it |
| `Inactivity.EvictionIsEarned` | server_interface.c:486-504 | over every run in which nobody is heard from while picked, whoever is about to be evicted was silent for at least 192 seconds, with a ping unanswered for at least 11 |
| `Inactivity.WholePassEvictionIsEarned` | server_interface.c:474-535 | the same of whoever a pass with nothing in between takes off a list with unique names |
| `Inactivity.WholePassesAreClean` | server_interface.c:474-535 | runs of whole passes are runs in which nobody is heard from while picked |
| `Inactivity.ActivityProtects` | server_interface.c:398-400 | any command but connect cancels its sender's ping, and unless a pass had picked the sender already, none evicts it for the next 191 seconds, over every run, in parts or whole |
| `Inactivity.ActivityProtectsIff` | server_interface.c:398-400 | the sender is safe from eviction for the next 180 seconds, over every run, if and only if no pass had picked it for eviction already |
| `Inactivity.ConnectProtects` | server_types.h:62-70 | connecting protects in the same way |
| `Gaps.PingIsEarnedIff` | server_interface.c:509-516 | whatever falls between the scan and the write of ping_sent, the ping recorded was preceded by over 180 seconds of silence if and only if its client was not heard from in between |
| `Gaps.EvictionIsFairIff` | server_interface.c:494-530 | whatever falls between the scan and the removal, the client was silent for 192 seconds with a ping unanswered for 11 if and only if it was not heard from in between and its ping was earned; otherwise its silence may be no longer than the gap |
| `Gaps.EvictionTakesIff` | server_interface.c:498-530 | the removal takes the client picked, and nobody else, if and only if it is the first of the copied name; else whoever is, or nobody |
| `Gaps.PingGapEvictsEarly` | server_interface.c:509-516 | a run from the start in which an answered ping stays pending and its client is picked for eviction 181 seconds later |
| `Gaps.EvictionGapEvictsAtOnce` | server_interface.c:509-530 | a run from the start in which a client is evicted after no silence at all |
| `Gaps.RenameGapEvictsAnother` | server_interface.c:498-530 | a run from the start in which, no name in use twice in any state of it, the removal takes a client that connected in the same second, and the silent one stays |
| `ServerRun.FreeNamesStayUnique` | server_interface.c:6 | if nobody takes a name in use, names stay unique over whole runs |
| `Eviction.EvictedInTime` | server_interface.c:474-535 | a client silent since L with m clients ahead is gone by L + 192 + m(q + 2) for any q with m(q + 2) <= 181q + 168, with one pass a second and anything in its gaps but a rename of the client picked for eviction, names unique or not |
| `Eviction.EvictedSoon` | server_interface.c:474-535 | with m < 85 ahead it is gone by L + 192 + 2m |
| `Eviction.EvictedAtLast` | server_interface.c:474-535 | with m <= 180 ahead it is gone by L + 192 + 194m |
| `Eviction.EvictedByWholePasses` | server_interface.c:474-535 | the same bound for whole passes, whatever is renamed |
| `Renaming.RenamesStarve` | server_interface.c:498-530 | with renames of the client picked, for every m, 0 included, there is a reachable state with m clients ahead and arbitrarily long runs, a pass a second and nobody heard from, in which a silent client stays listed |
| `Starvation.NeverEvicted` | server_interface.c:487-508 | for every m >= 181 there is a reachable state with m clients ahead and arbitrarily long runs, a pass a second, in which a silent client stays listed |
| `Starvation.EvictionBoundedIff` | server_interface.c:474-535 | without renames of clients picked for eviction, some bound on the eviction of a client with m ahead of it holds if and only if m <= 180; with them none does for any m |
| `Lockout.NoScanNoKickNoLeave` | server_interface.c:222-530 | monitor as written: once a writer has waited and nobody is reading, no run of the server scans, checks an admin or looks up a leaver again, and no more clients leave than removals were under way |
| `Lockout.OneWaitLocks` | server_types.h:263-266 | a run of both from their starts, with one wait of one writer, reaches such a state |
| `Lockout.CanLookIff` | server_types.h:240-269 | some continuation scans, checks an admin or looks up a leaver if and only if somebody is reading, or WW is 0 and there is a thread |
| `Commands.Dispatch` | cmd.h:33-64 | the kind is the one whose keyword the word is, and unknown for no keyword |
| `Commands.NamesOneKind` | cmd.h:33-64 | no word names two kinds |
| `Commands.NamesOnTheWire` | cmd.h:33-64 | the fourteen keywords, word by word |
| `Wire.TypedLineIsOfKind` | cmd.h:86-100 | what a user types, "say$", "sayto$" and the rest, whatever follows, is taken for the command it is |
| `Wire.SentLineIsOfKind` | client_interface.c:304-337 | what the server sends is taken for "say", a successful connect, a disconnect, a rename, an error or a ping as meant |
| `Wire.WelcomeNames` | server_interface.c:77-80 | a client takes from its welcome the name the server has |
| `Commands.Command.Handle` | cmd.h:31-84 | the fifty slots hold the arguments clipped to 19 characters, the rest empty; an empty token list changes nothing |
| `Commands.FittedIsLongest` | server_types.h:15-36 | join_args prints the longest prefix of its words that fits, never more than max_len - 1 characters |
| `Commands.JoinArgs` | server_types.h:15-36 | the loop computes that prefix, and a space where the next word did not fit |
| `Commands.JoinSlots` | client_types.h:125-140 | join prints all arguments, and reads no slot past the first empty one |
| `Pipeline.StoredText` | client_types.h:142-149 | of the first 506 characters of any text sent, a client stores the first 48 words, each clipped to 19 characters, with single spaces |
| `Pipeline.ArrivesUnchangedIff` | client_types.h:142-149 | any text arrives unchanged if and only if it has at most 506 characters and single spaces only, between at most 48 words of at most 19 characters |
| `Delivery.BroadcastFits` | server_interface.c:166-181 | no buffer cuts a broadcast: 288, 512, a queue slot, and join's 300 all suffice |
| `Delivery.BroadcastArrivesIff` | server_interface.c:168-181 | a broadcast arrives, but for a trailing space, if and only if the name has at most 18 characters and at most 47 words are sent |
| `Delivery.PrivateArrivesIff` | server_interface.c:130-134 | no buffer cuts a private message; it arrives, but for a trailing space, if and only if the sender's name has at most 10 characters and at most 46 words are sent |
| `Delivery.CopyArrivesIff` | server_interface.c:136-139 | no buffer cuts the sender's copy; it arrives so if and only if the receiver's name has at most 10 characters and at most 44 words are sent |
| `Delivery.NoticeArrivesIff` | server_interface.c:353-361 | no buffer cuts a kick notice or the answer that nobody has the name; a notice arrives whole if and only if the name is not empty |
| `EndToEnd.TypedTextArrivesIff` | server_interface.c:161-194 | from keyboard to screen: the server takes the line for something to say and the client what it is sent for something to store, and a typed text arrives as "name: text" if and only if the name has at most 18 characters and the text is 1 to 47 words of at most 19 characters, singly spaced, 254 characters in all |
| `EndToEnd.SenderSeen` | custom_hash_table.h:80-94 | extract_username takes a stored broadcast to be from what stands before the first ':' of the sender's name, or, without one, from the name if it has at most 18 characters and else from nobody |
| `EndToEnd.SenderSeenIff` | custom_hash_table.h:80-94 | it finds the sender itself if and only if the name has at most 18 characters and no ':' |
| `EndToEnd.PrivateSenderSeen` | custom_hash_table.h:80-94 | a private message is taken to be from the same as a broadcast |
| `EndToEnd.CopySenderSeen` | custom_hash_table.h:80-94 | the sender's own copy is taken to be from "you to" and the receiver's name up to a ':', if that part has at most 12 characters, and else from nobody |
| `EndToEnd.NoticeSenderSeen` | custom_hash_table.h:80-94 | a kick notice is taken to be from "SERVER" |
| `EndToEnd.LimitsAreReached` | queue.h:47-53 | a 19-character name and 48 sent words do occur |
| `History.ChatHistory.Store` | server_interface.c:184-187 | a broadcast is stored while there is room for it |
| `History.ChatHistory.Replay` | server_interface.c:81-88 | a new client is sent the last 15 broadcasts stored, oldest first |
| `History.ReplaysTheLastIff` | server_interface.c:81-88 | these are the last 15 made while at most 100 were; for broadcasts all different, only then |
| `History.ReplayedAt` | server_interface.c:81-88 | how many broadcasts a new client is sent, and which one is each |
| `History.ReplayFreezes` | server_interface.c:184-187 | from the hundredth on they are always broadcasts 86 to 100 |
| `MuteTable.Hash` | custom_hash_table.h:16-23 | the loop computes 64-bit wrapping djb2 modulo 100 |
| `MuteTable.HashOfShortKeys` | custom_hash_table.h:16-23 | the hash of the empty key and of some short ones, one with a negative char |
| `MuteTable.Table.Insert` | custom_hash_table.h:26-42 | the key joins the set; chains stay acyclic, without duplicates, every key in its bucket |
| `MuteTable.Table.Contains` | custom_hash_table.h:45-55 | true exactly for the keys of the set |
| `MuteTable.Table.RemoveKey` | custom_hash_table.h:58-77 | the key leaves the set, the chains stay well formed |
| `ClientCode.ExtractUsername` | custom_hash_table.h:80-94 | the text before the first ':', if it is 1 to max_len - 1 characters long |
| `ClientCode.Client.SayExec` | client_types.h:142-149 | the joined arguments are stored after the messages already there |
| `ClientCode.Client.ExecuteServerCommand` | client_interface.c:304-337 | what each kind of response changes of messages, mute table, connection and name, and that it changes nothing else |
| `ClientCode.Client.Receive` | client_interface.c:339-346 | of a line taken for "say" its stored text joins the messages; any other but a disconnect leaves them |
| `ClientCode.Client.Render` | client_interface.c:132-139 | the lines drawn are the stored messages at increasing places, exactly those whose sender is not muted |
| `ClientCode.VisibleInOrder` | client_interface.c:132-139 | so is the view of any messages under any set of muted names |
| `ClientCode.AllVisible` | client_interface.c:132-139 | with nobody muted everything stored is drawn |
| `ClientCode.Client.MuteAndUnmute` | client_types.h:151-169 | muting hides exactly that sender's lines, and unmuting a name that was not muted brings the earlier view back |
| `ClientCode.VisibleAfterMute` | client_types.h:151-159 | one more muted name takes that sender's messages out of the view and nothing else |
| `ClientCode.VisibleCounts` | client_interface.c:132-139 | a message is drawn exactly as often as it is stored, or never if its sender is muted |
| `ClientCode.MuteHidesIff` | client_interface.c:132-139 | a broadcast, a private message, a copy or a kick notice is hidden if and only if whom it is taken to be from is muted |
| `ClientCode.MuteHidesItsOwnIff` | client_types.h:151-159 | muting a name hides what is heard from it, broadcast or private, if and only if the name has at most 18 characters and no ':' |
| `ClientCode.MuteHidesCopiesIff` | client_types.h:151-159 | a copy is hidden by muting one name if and only if that is the empty one and more than 12 characters stand before the ':' |
| `ClientCode.Client.ExecuteConnectResponse` | client_types.h:184-193 | connected and the name are set, and the two input threads take the hand-off's step |
| `ClientCode.Client.ExecuteDisconnectResponse` | client_types.h:229-250 | connected is cleared, the messages are dropped, and the two input threads take the hand-off's step |
| `Handoff.NoWakeupLost` | client_types.h:187-193 | over every run, redundant responses included, the input thread whose turn it is is awake, so one signal is enough |
| `Handoff.TestSleepsIff` | client_interface.c:170-175 | after its test a thread is asleep exactly when it is not its turn |
| `Handoff.NothingIsHeldUp` | client_interface.c:170-175 | a thread that is awake can always test, and a response can always come and wake any one that sleeps |
| `Handoff.WhoWakes` | client_types.h:187-193 | a response sets the connection and wakes those asleep that its signal chooses, one at least |
| `Handoff.BothAsleepLosesIt` | client_types.h:229-242 | with both threads asleep a signal could wake the wrong one; the invariant is what rules it out |

## Left out

- QAppend: the method is one pass of the wait loop; the waits, signals and wakeups are in `QueueRun`.
- QPop: likewise one pass of the wait loop.
- NoWakeupLost: the hand-off's thread loops (client_interface.c:168-206, 247-264) are a step relation, not methods; what they do with the input lines is not modelled.
- SayExec: requires room for one more message, an empty 49th slot and a text that fits join's buffer; the source checks none of these. The parser never fills the 49th slot (`Tokeniser.Parse`), and `Delivery` bounds every text the server sends with say or sayto; the room is up to the caller, since the client stores at most 100 messages.
- ExecuteServerCommand: requires the same of a line taken for "say".
- Receive: requires a line with a word in it; the source leaves the kind unset otherwise (cmd.h:32).
- Handle: does nothing for the relays of `mute`, `unmute` and unknown commands; so does `Execute`.
- RenameClient: requires the sender to be listed, as do `Say` and `Sayto`; the source dereferences a null pointer otherwise.
- KickerIsStillAdmin: the step between the two critical sections is in `ServerRun`; `ServerCode.Server.Kick` is the handler with nothing in between.
- DisconnectRemovesItsNode: a node that leaves the list between the two critical sections is freed memory in the source; that step is not modelled.
- ConnectionTick: time is whole seconds; the three parts run with nothing in between. `ServerRun` and `Gaps` have what falls between them, but the walk over the nodes is one step there too: a `last_active` that changes during the walk counts as changed before or after it.
- EvictedInTime: each second's pass goes by the time of that second and is over before the next begins; a pass that takes longer, as one that waits for the writer's lock may, is not covered.
- PingIsEarnedIff: a `ping_sent` written to a node that has left the list is a write to freed memory in the source; in `ServerRun` it changes no client.
- Say: runs with nothing between the lookup of the sender, the store and the sending loop; so do `Sayto` and `ConnectToServer`.
- Sayto: nothing runs between the two lookups and the sends.
- ConnectToServer: nothing runs between the list's update and the history replay.
- Disconnect: nothing runs between its critical sections here; `ServerRun` has the interleavings.
- Kick: likewise.
- JoinSlots: requires an empty slot up to the 49th argument and a text that fits join's 300 characters; the source checks neither. `Delivery` shows that no say or private message of the server exceeds them.
- The sockets of udp.h, terminal drawing, reading lines, sleeping and exiting: input and output only.
- `chat_display` waits with no predicate, so no claim is made that every change is drawn.
- The worker limit: a worker checks out right after its thread is started, so the counter bounds nothing but the starting.
- Data races on `chat_historyc`, torn reads of `last_active` and `ping_sent`, and use of freed nodes: not modelled.
- The server's relays `mute`, `unmute` and `handle_unknown_command`, the client's `execute_connect_failed` and `execute_error_response`, and the argument structs: easy members.
- red_black.c, sample_client.c, sample_server.c: not part of the application.
