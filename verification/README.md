# A verified model of libcpdlc and cpdlcd

libcpdlc carries controller-pilot data link messages: a library with a wire codec, a client and a list of message
threads, and a daemon, `cpdlcd`, that authenticates stations and forwards or stores their messages. This project states
in Dafny what the hard parts of that code do, and proves what they promise for every input, every run and every
interleaving. `dafny verify dfyconfig.toml` checks all of it.

| files | part of the system |
|---|---|
| `Registry`, `MailStore`, `Daemon`, `DaemonSafety`, `DaemonRuns`, `DaemonTrace`, `DaemonLaws`, `DaemonStories`, `DaemonImpl` | the daemon: logons, authentication sessions, the identity index, store-and-forward, accounting |
| `MsgList`, `MsgListImpl`, `TwoParty`, `ThreadLaws`, `ThreadStories` | message threads: status machine, MIN/MRN correlation, timeouts; two lists joined by a link |
| `Text`, `Escape`, `Printer`, `Split`, `Route`, `Codec`, `CodecArgs`, `CodecRoundTrip`, `CodecWhole`, `CodecReads`, `CodecLimits`, `CodecImpl` | the plain wire format |
| `Framing`, `WireFraming`, `WireLocal`, `WireChunks`, `Client`, `ClientLaws` | reassembly of the byte stream, and the client's data-authority machine |
| `Crc`, `WordWrap` | the FANS checksum and the line wrapper |
| `Options` | `Option` |

## How it is built

* **Daemon.** One event is one critical section. Auth workers finish and connections open or close between any two
  events; the main loop is the cycle input, completing logons, draining the queue. `Inv` is kept by every event
  (`StepKeepsInv`), so it holds in every run. The classes of `DaemonImpl` hold the mutable tables; each method is proved
  to leave exactly the state of its step function, and the loop of the program is proved to be such a run
  (`LoopTailIsRun`). A history (accepted messages, fates, marks) is kept beside the state to speak about order and
  conservation; no decision depends on it.
* **Threads.** `Threads` is the list as a value, `MsgListImpl.MsgList` the object whose methods refine it. `TwoParty` joins
  an aircraft's and a controller's list by two FIFO links, on which messages may be lost, and lets both users act freely.
* **Codec.** `Codec` gives the format as functions on C strings; the loops that run over buffers are the methods of
  `CodecImpl`, `Escape`, `Printer`, `Split` and `Route`. 32-bit conversions saturate and wrap as in C. Where the program's
  result is undefined or outside this model the decoder's result is `Undef`/`Unspecified`, never a made-up value.
* **Laws and stories.** The `Laws` files and `CodecReads` say what each operation gives by message numbers, digits, positions
  and names, not through the tests the model makes; the `Stories` files say what lies behind a state in every run.
* **Streams.** `Framing` proves what a generic decoder needs for reads not to matter; `WireLocal` and `WireChunks` show which
  streams give the real decoder that, and that the condition is exact.

## What turned out not to hold

Each of these is in the code as it stands, and the model keeps it. For each there is the exact
condition and, unless the condition already names one, an input or a run.

* **Daemon.** A logged-on client that sends a PONG (any packet without segments other than PING) trips an assertion
  (`PongAborts`); no other event ever does (`AbortsExactlyOn`).
* An identity list that is not empty does not imply a completed logon: an ATC station that logs on as A and then,
  refused, as B is left without a logon while A stays registered (`SecondLogonLingers`). Only a LOGON on a complete
  ATC connection with an identity besides the one asked for does that (`LingersIff`), in every run (`LingeringStory`).
* An END SERVICE logs its receiver off if and only if it is forwarded at once (`EndServiceResetsIff`). A run in which
  one was stored and its receiver stays logged on: `StoredEndServiceKeepsLogon`.
* The exemption of ATC stations from the quota is dead: the only caller of `store_msg` passes `false`, so every stored
  message is charged to its sender (`EveryStoredIsCharged`).
* **Threads.** The status ERROR is never given (`NeverJudgedError`). The error that a timed-out thread sends is a
  downlink, which fits an aircraft's role and not a controller's (`TimeoutFitsIff`). A run in which a controller's
  list sends one: `ControllerTimesOut`; the daemon refuses it (`AtcForwardsIff`).
* A DISREGARD is looked up among the received messages although its MRN is the number of a sent one. A run in which it
  lands in an unrelated thread: `DisregardMisfiled`; exactly when it is filed right: `EveryDisregardFiledIff`.
* **Codec.** Every byte above 127 is escaped as `%ff`; escaping is undone exactly for 7-bit bytes and 0xff
  (`Escape.RoundTripIff`). The escaper needs a spare byte unless the last character is plain (`FitsExactly`).
* Runways lose their first two characters when a route is read back, or the parser reads past the end
  (`ParseSerialized`, `Route.RoundTripIff`).
* The direction of the first segment is not checked (`OtherDirectionAccepted`), that of the others is
  (`DirectionIff`). A position of unknown type is accepted and left unset (`PositionUnsetIff`, `UnknownTypeAccepted`).
  OPTIONS headers, each counted for at most four, add up beyond the four slots (`FiveOptionsOverrun`,
  `OptionsOverrunIff`). LOGON data with a broken escape is left undefined (`BadLogonEscape`, `LogonUndefinedIff`).
  Empty free text is not read back, any other is (`FreeTextBackIff`).
* **Streams.** `sscanf` and `atof` skip white space, line ends included, so a blank number at the end of a line takes
  its value from the next line if that has arrived: a blank MRN an integer, a blank Mach number also `.85`
  (`BlankMachReadsOn`). A text changes no line before it if and only if it does not go on, behind white space, with an
  integer or with a number that is accepted as a Mach number (`QuietIff`); for every text that does, `LoudTextsMatter`
  gives a stream whose cut into reads matters.
* A message that ends in CR LF is taken at the CR, and the LF that follows in the next read ends the session
  (`SplitCrLfHalts`). Such streams arrive if and only if no read ends between a CR and its LF
  (`CrLfStreamArrivesIff`).
* **Client.** Of the calls modelled, two abort it: an aircraft that calls for a logon without a station while its
  logon is complete crashes on the next message (`NamelessLogonAborts`), and a logoff by identity before any logon
  call crashes at once (`EarlyLogoffAborts`). Nothing else does (`AbortsIff`), and an aircraft's program that avoids
  both never crashes (`CarefulNeverAborts`).
* A logon call is lost if and only if the worker is on its way out (`LogonServedIff`); a run: `LateLogonIsLost`.
* **Wrapper.** A word that is too long makes a line too long (`LongWord`), and a tab at which a line is broken is lost
  (`TabLost`). The result is a faithful wrapping if and only if every word fits and every line is broken at a space,
  where `Breaks` says line by line what a text is broken at (`WrapIff`); if the space is the only white space, if and
  only if every word fits.

## Model

| member | source | states |
|---|---|---|
| `Lists.UnlinkFirst` | cpdlcd/cpdlcd.c:1022-1031 | the list walk unlinks exactly the first node holding the connection |
| `Registry.UnlinkLookup` | cpdlcd/cpdlcd.c:1053-1057 | emptying an identity list takes the connection out of the index under exactly those identities and no other connection out of any |
| `Registry.ResetSound` | cpdlcd/cpdlcd.c:1043-1077 | resetting a logon keeps the index, the sessions and the logon states in agreement |
| `Registry.CloseSound` | cpdlcd/cpdlcd.c:1083-1099 | so does closing a connection: nothing refers to it any more |
| `Registry.WorkerSound` | cpdlcd/auth.c:149-167 | so does the end of an auth worker, killed or not |
| `Registry.CompleteSound` | cpdlcd/cpdlcd.c:1148-1207 | so does completing a logon in all four outcomes |
| `Registry.RemoveIdentSound` | cpdlcd/cpdlcd.c:1235-1251 | so does removing one identity, before the caller settles the status |
| `Registry.ClearSound` | cpdlcd/cpdlcd.c:1278-1293 | so does the clean-up before a new logon or a logoff; afterwards the connection is not Started and does not hold the identity |
| `Registry.StartSound` | cpdlcd/cpdlcd.c:1298-1319 | so does starting a logon, whether the authenticator is remote or answers at once |
| `Registry.ProcessLogonSound` | cpdlcd/cpdlcd.c:1258-1320 | so does the whole handling of LOGON and LOGOFF |
| `Registry.StartedIffOneLiveSession` | cpdlcd/auth.c:421-450 | a connection is Started if and only if exactly one live session names it |
| `MailStore.StoreBalanced` | cpdlcd/cpdlcd.c:1561-1597 | storing keeps both accounts equal to what is stored and within limits; it succeeds exactly when both limits allow it, and a refusal stores nothing |
| `MailStore.DequeueBalanced` | cpdlcd/cpdlcd.c:2247-2263 | removal never underflows an account and keeps both balanced |
| `MailStore.SumsWithout` | cpdlcd/msgquota.c:121-136 | taking one message out lowers the global sum and its sender's sum by its size, and no other sender's |
| `DaemonSafety.BroadcastEffect` | cpdlcd/cpdlcd.c:1667-1677 | a delivery loop appends exactly one item to each target and none to anyone else, and registrations only shrink |
| `DaemonSafety.PlanDisciplined` | cpdlcd/cpdlcd.c:1726-1837 | whatever the input, a message that is forwarded obeys the forwarding discipline |
| `DaemonSafety.StepKeepsInv` | cpdlcd/cpdlcd.c:2555-2564 | every event keeps the daemon's invariant |
| `DaemonSafety.RunKeepsInv` | cpdlcd/cpdlcd.c:2555-2564 | so does every sequence of events |
| `DaemonRuns.IndexAgreementInEveryRun` | cpdlcd/cpdlcd.c:1015-1207 | in every run the index is exactly the inverse of all identity lists, holds only open connections, without repetition, and a completed logon has an identity |
| `DaemonRuns.AuthSafetyInEveryRun` | cpdlcd/auth.c:149-167 | in every interleaving Started means one live session, no two live sessions share a connection, and a live session's callback finds its connection open and Started |
| `DaemonRuns.KilledStaysKilled` | cpdlcd/auth.c:439-450 | a session that is dead or gone is never live again, in any run |
| `DaemonRuns.KilledNeverCallsBack` | cpdlcd/auth.c:149-167 | and its worker, whenever it ends, changes no connection, no registration and no stored message |
| `DaemonRuns.DeliveryReachesAll` | cpdlcd/cpdlcd.c:1650-1685 | a delivering step appends the message once to each connection of the recipient and to no other connection |
| `DaemonRuns.DeliveryRaisesMark` | cpdlcd/cpdlcd.c:2270-2308 | a delivery is not older than anything delivered to that identity before |
| `DaemonRuns.PerRecipientFifo` | cpdlcd/cpdlcd.c:2270-2308 | per-recipient FIFO over every run: deliveries to one identity, queued or direct, over any connections, come in acceptance order and never twice |
| `DaemonRuns.OutputInAcceptanceOrder` | cpdlcd/cpdlcd.c:1650-1685 | the same inside one connection's output, and each delivery is an encoding of the accepted message |
| `DaemonRuns.QueueNamesNoOneOnline` | cpdlcd/cpdlcd.c:2555-2564 | outside the window from completing logons to the end of the drain no queued message names a registered identity |
| `DaemonRuns.ConservationInEveryRun` | cpdlcd/cpdlcd.c:1561-1597 | in every run both accounts equal the stored sizes and respect the limits, and a stored message is queued exactly once or has a fate, never both (`DeliveredExactlyOnce` ties the fate to the deliveries) |
| `DaemonRuns.FateIsFinal` | cpdlcd/cpdlcd.c:2270-2308 | a message that was delivered from the store or expired never comes back and keeps its fate |
| `DaemonRuns.DisciplineInEveryRun` | cpdlcd/cpdlcd.c:1698-1837 | in every run, aircraft traffic starts with a downlink, is stamped with the connection's own identity and goes to its logon target unless a lone DM63; ATC traffic starts with an uplink and names a target |
| `DaemonRuns.AbortsExactlyOn` | cpdlcd/cpdlcd.c:1741-1814 | from a state that meets the invariant, so from every reachable one, an event trips an assertion if and only if it is a segment-less packet other than LOGON, LOGOFF and PING from a logged-on connection with a known target |
| `DaemonRuns.PongAborts` | cpdlcd/cpdlcd.c:1798-1799 | the concrete input: an empty PONG from a logged-on aircraft |
| `DaemonTrace.DeliveredExactlyOnce` | cpdlcd/cpdlcd.c:1650-1685 | over every run, exactly one event delivers a message that was forwarded at once or is marked delivered, and none delivers one that is still stored or has expired |
| `DaemonTrace.EndServiceResetsIff` | cpdlcd/cpdlcd.c:1439-1447 | a delivery logs its receiver off if and only if it is an END SERVICE forwarded at once; otherwise the receiver changes only by its output |
| `DaemonTrace.StoredEndServiceKeepsLogon` | cpdlcd/cpdlcd.c:2270-2308 | the run: END SERVICE is sent to an aircraft that is away, delivered after its logon, and leaves it logged on |
| `DaemonTrace.LingersIff` | cpdlcd/cpdlcd.c:1277-1319 | from a completed logon, a LOGON or LOGOFF leaves identities without a completed logon if and only if it is a LOGON on an ATC connection with an identity besides the one asked for |
| `DaemonTrace.LingeringStory` | cpdlcd/cpdlcd.c:1197-1202 | over every run, a connection with identities and no completed logon was sent such a LOGON when it was last complete |
| `DaemonTrace.SecondLogonLingers` | cpdlcd/cpdlcd.c:1197-1202 | the run: an ATC station logs on as A, then, refused, as B; A stays registered |
| `DaemonLaws.BeforeLogon` | cpdlcd/cpdlcd.c:1739-1750 | before its logon a connection gets an error for everything but LOGON, and LOGOFF does nothing |
| `DaemonLaws.BusyLogonRefused` | cpdlcd/cpdlcd.c:1267-1272 | a LOGON while another is under way only gets an error |
| `DaemonLaws.PingAnswered` | cpdlcd/cpdlcd.c:1757-1766 | a PING only gets a PONG with its number |
| `DaemonLaws.VersionSwallowed` | cpdlcd/cpdlcd.c:1767-1773 | a lone version number of an aircraft changes nothing |
| `DaemonLaws.TargetMissing` | cpdlcd/cpdlcd.c:1797-1806 | an ATC message without a target only gets an error |
| `DaemonLaws.AircraftForwardsIff` | cpdlcd/cpdlcd.c:1774-1837 | a message of a logged-on aircraft goes on, in its name and with its target, if and only if it starts with a downlink and goes to its own station or is a lone DM63; the exact answer otherwise |
| `DaemonLaws.AtcForwardsIff` | cpdlcd/cpdlcd.c:1807-1837 | a message of a logged-on ATC station goes on if and only if it starts with an uplink and, if its sender is AUTO, the recipient is online; with which sender and target; and the exact answer otherwise |
| `DaemonLaws.ForwardOutcome` | cpdlcd/cpdlcd.c:1650-1685 | a message that goes on reaches each connection of its recipient, in that connection's format, or is stored with the time, or, exactly if there is no room, its sender's connections are told |
| `DaemonLaws.AircraftIsHeard` | cpdlcd/cpdlcd.c:1726-1837 | so a downlink of an aircraft to its own station does one of these |
| `DaemonLaws.AtcIsHeard` | cpdlcd/cpdlcd.c:1726-1837 | and so does an uplink of an ATC station to a target |
| `DaemonLaws.DrainDecides` | cpdlcd/cpdlcd.c:2278-2305 | a stored message is delivered if and only if its recipient is registered, expires if and only if it is not and more than 600 seconds have passed, and else stays |
| `DaemonLaws.LogoffDrops` | cpdlcd/cpdlcd.c:1277-1297 | LOGOFF drops the identity named, on an aircraft's connection all; a connection left without one is logged off |
| `DaemonLaws.LogonAsks` | cpdlcd/cpdlcd.c:1298-1319 | LOGON asks for the identity and target it names, with the formats its options choose, keeps other identities of an ATC connection and grants nothing yet |
| `DaemonLaws.CompleteAnswers` | cpdlcd/cpdlcd.c:1148-1207 | completing a logon grants it exactly if the answer was yes and an aircraft named a target; which identity, target and reply |
| `DaemonLaws.WorkerDecides` | cpdlcd/cpdlcd.c:1123-1141 | the answer of a live worker, once completed, grants or refuses exactly the logon its connection waits for |
| `DaemonLaws.LocalDecides` | cpdlcd/auth.c:395-402 | so does the answer of a local authenticator |
| `DaemonStories.RegistrationStory` | cpdlcd/cpdlcd.c:1123-1207 | in every run each registration has behind it a LOGON for that identity on that connection, a positive answer of the session it opened (or at once), and its completion, with the connection waiting, answered and registered in between and since |
| `DaemonStories.ExpiryStory` | cpdlcd/cpdlcd.c:2270-2308 | in every run each expired message was accepted by one event, stayed in the store, and was dropped more than 600 seconds later with nobody registered for its recipient |
| `DaemonImpl.ConnTable.IndexRemove` | cpdlcd/cpdlcd.c:1015-1036 | the object form leaves exactly the modelled index |
| `DaemonImpl.ConnTable.ResetLogon` | cpdlcd/cpdlcd.c:1043-1077 | its loop over the identity list leaves exactly the modelled state |
| `DaemonImpl.ConnTable.Close` | cpdlcd/cpdlcd.c:1083-1099 | likewise for closing |
| `DaemonImpl.ConnTable.WorkerDone` | cpdlcd/cpdlcd.c:1123-1141 | likewise for the callback of an auth worker |
| `DaemonImpl.ConnTable.CompleteLogon` | cpdlcd/cpdlcd.c:1148-1207 | likewise for one logon |
| `DaemonImpl.ConnTable.CompleteLogons` | cpdlcd/cpdlcd.c:1217-1233 | the loop over all connections is the fold of the single completions |
| `DaemonImpl.ConnTable.RemoveIdent` | cpdlcd/cpdlcd.c:1235-1251 | likewise for one identity; a missing one is tolerated |
| `DaemonImpl.ConnTable.ProcessLogon` | cpdlcd/cpdlcd.c:1258-1320 | likewise for LOGON and LOGOFF messages |
| `DaemonImpl.ConnTable.Broadcast` | cpdlcd/cpdlcd.c:1667-1677 | the delivery loop, with the logon reset of an END SERVICE |
| `DaemonImpl.MsgStore.QuotaIncr` | cpdlcd/msgquota.c:106-119 | charging a sender, or refusing it beyond its quota |
| `DaemonImpl.MsgStore.QuotaDecr` | cpdlcd/msgquota.c:121-136 | discharging a sender; an entry at zero disappears |
| `DaemonImpl.MsgStore.StoreMsg` | cpdlcd/cpdlcd.c:1561-1597 | the object form of storing |
| `DaemonImpl.MsgStore.Dequeue` | cpdlcd/cpdlcd.c:2247-2263 | the object form of removal |
| `DaemonImpl.HasEndSvc` | cpdlcd/cpdlcd.c:1422-1428 | the scan finds an END SERVICE uplink exactly when there is one |
| `DaemonImpl.Process.Forward` | cpdlcd/cpdlcd.c:1650-1685 | forwarding or storing leaves exactly the modelled state |
| `DaemonImpl.Process.StampAndForward` | cpdlcd/cpdlcd.c:1698-1714 | likewise for the sender stamp |
| `DaemonImpl.Process.Direct` | cpdlcd/cpdlcd.c:1807-1837 | likewise for the checks of direction and the sender AUTO |
| `DaemonImpl.Process.Address` | cpdlcd/cpdlcd.c:1774-1806 | the choice of the target, or the refusal, leaves exactly the modelled state |
| `DaemonImpl.Process.Dispatch` | cpdlcd/cpdlcd.c:1739-1773 | the first tests, with their answers |
| `DaemonImpl.Process.Receive` | cpdlcd/cpdlcd.c:1726-1837 | processing one message keeps the invariant and leaves exactly the modelled state |
| `DaemonImpl.Process.DrainOne` | cpdlcd/cpdlcd.c:2278-2305 | one turn of the drain: delivered, expired or kept |
| `DaemonImpl.Process.HandleQueuedMsgs` | cpdlcd/cpdlcd.c:2270-2308 | a whole pass ends with no queued message for anybody online |
| `DaemonImpl.Process.FinishTurn` | cpdlcd/cpdlcd.c:2558-2559 | the tail of the main loop keeps the invariant and leaves exactly the modelled state |
| `DaemonImpl.DrainAllIsRun` | cpdlcd/cpdlcd.c:2270-2308 | a drain pass is a run of drain events |
| `DaemonImpl.CompleteAllIsRun` | cpdlcd/cpdlcd.c:1217-1233 | completing all logons is a run of completion events |
| `DaemonImpl.LoopTailIsRun` | cpdlcd/cpdlcd.c:2555-2564 | so the main loop is a run, and everything proved of runs holds of it |
| `Threads.SentMinsDistinct` | src/cpdlc_msglist.c:499-517 | sent MINs are below the counter and pairwise distinct over all threads, so an MRN matches at most one sent message |
| `Threads.StatusUpdOk` | src/cpdlc_msglist.c:221-281 | a status update keeps a thread sound, only appends to it, and leaves a final status alone |
| `Threads.StepOk` | src/cpdlc_msglist.c:382-537 | every operation keeps the list's invariant: unique ids, no empty thread, distinct MINs, at most one timeout each |
| `Threads.RunDescends` | src/cpdlc_msglist.c:295-318 | over every run ids are never reused, and each surviving thread holds all it held before, in order, and keeps a final status |
| `Threads.FinalStatusIsFinal` | src/cpdlc_msglist.c:188-195 | over every run a final status never changes again |
| `Threads.RemovedIdStaysGone` | src/cpdlc_msglist.c:767-781 | the id of a removed thread never returns |
| `Threads.OneTimeoutPerThread` | src/cpdlc_msglist.c:221-281 | over every run a thread sends at most one timeout error, and then is TIMEDOUT |
| `ThreadLaws.SentAnswersLast` | src/cpdlc_msglist.c:499-517 | a sent message gets the next MIN and, as MRN, the MIN of the last message of the other direction in its thread; its own MRN where there is none |
| `ThreadLaws.LateIff` | src/cpdlc_msglist.c:257-258 | a thread times out if and only if it is not on standby and some segment's timeout has passed since the last message |
| `ThreadLaws.FinishedStays` | src/cpdlc_msglist.c:188-195 | a thread with one of the eight final statuses is left alone |
| `ThreadLaws.StatusTable` | src/cpdlc_msglist.c:221-281 | the status of an unfinished thread, by the numbers of its last message: alone, own request, standby, accepted, timed out, rejected, closed, disregarded, connection ended |
| `ThreadLaws.UpdateSends` | src/cpdlc_msglist.c:257-266 | an update sends a DM62 exactly if the thread times out, and changes no message |
| `ThreadLaws.ReceivedIsNews` | src/cpdlc_msglist.c:383-432 | a received message becomes the last of its thread, which is marked as changed unless the connection has ended |
| `ThreadLaws.CloseCloses` | src/cpdlc_msglist.c:800-813 | closing closes the thread named unless it is finished, and no other |
| `ThreadLaws.RemoveRemoves` | src/cpdlc_msglist.c:767-781 | removal takes out the thread named and no other |
| `ThreadLaws.SendLands` | src/cpdlc_msglist.c:482-537 | a message sent into an unfinished thread joins it at the end, and only that thread changes |
| `ThreadLaws.SendOpens` | src/cpdlc_msglist.c:482-537 | a message sent into no thread opens a new one in front |
| `ThreadStories.RepliesAnswerLast` | src/cpdlc_msglist.c:499-517 | over every run each sent message answers the last message of the other direction that its thread held before it |
| `ThreadStories.EveryReplyAnswersLast` | src/cpdlc_msglist.c:499-517 | in every run of two lists each message sent into a thread answers the last message of the peer that the thread held |
| `ThreadStories.StatusStory` | src/cpdlc_msglist.c:221-281 | over every run a thread that is accepted, rejected, disregarded, timed out or failed became so at a call behind which its last message was one that says so |
| `MsgListImpl.GetTimeout` | src/cpdlc_msglist.c:197-219 | the loops compute the thread's timeout, 0 when no segment has one or the least is the code's own mark for none |
| `MsgListImpl.BucketsTimeoutIsLeast` | src/cpdlc_msglist.c:197-219 | which is at most every timeout in the thread, and positive as soon as there is one |
| `MsgListImpl.NeedsResponse` | src/cpdlc_msglist.c:95-107 | a message needs a response exactly when one of its segments does |
| `MsgListImpl.FindThread` | src/cpdlc_msglist.c:355-381 | the search returns the first usable thread holding a matching message |
| `MsgListImpl.Decide` | src/cpdlc_msglist.c:221-281 | the cascade of tests reaches the modelled verdict |
| `MsgListImpl.FindId` | src/cpdlc_msglist.c:295-318 | the search by id returns the thread with that id, or none |
| `MsgListImpl.MsgList.UpdateStatus` | src/cpdlc_msglist.c:221-281 | the object form of a status update, with the timeout error it may send |
| `MsgListImpl.MsgList.Send` | src/cpdlc_msglist.c:482-537 | sending into a thread or a new one, or refusing, leaves exactly the modelled list |
| `MsgListImpl.MsgList.Receive` | src/cpdlc_msglist.c:383-432 | filing a received message, likewise |
| `MsgListImpl.MsgList.Update` | src/cpdlc_msglist.c:468-478 | the update loop over all threads, likewise |
| `MsgListImpl.MsgList.Close` | src/cpdlc_msglist.c:800-813 | closing, likewise |
| `MsgListImpl.MsgList.Remove` | src/cpdlc_msglist.c:767-781 | removal, likewise |
| `TwoParty.MatchIsAnswered` | src/cpdlc_msglist.c:336-353 | a sent message that a reply's MRN matches is the very message the reply answers |
| `TwoParty.SearchFindsOrigin` | src/cpdlc_msglist.c:355-381 | if the thread a reply belongs to is still usable, the search finds that thread |
| `TwoParty.EveryDeliveryFiledRight` | src/cpdlc_msglist.c:383-432 | in every run of two lists over lossy FIFO links each delivered message but DISREGARD is filed in the thread of the message it answers, or alone in a fresh thread if that one was closed or removed or it answers nothing |
| `TwoParty.DisregardFiledIff` | src/cpdlc_msglist.c:336-381 | a DISREGARD is filed right if and only if the oldest open thread with a received message of that number is the thread of the message disregarded, or there is neither |
| `TwoParty.EveryDisregardFiledIff` | src/cpdlc_msglist.c:383-432 | the same for every delivery of every run |
| `TwoParty.ControllerTimesOut` | src/cpdlc_msglist.c:257-266 | the run: a clearance that is not answered in time makes the controller's list send a downlink, which its link does not take |
| `TwoParty.RepliesFollowTheirQuestions` | src/cpdlc_msglist.c:383-432 | in every reachable state a received reply inside a thread sits behind the very message that the peer answered with it |
| `TwoParty.DisregardMisfiled` | src/cpdlc_msglist.c:336-353 | a run from two empty lists, six events long, whose last one files a DISREGARD in a thread that does not hold the message it answers |
| `Escape.UnescapeEscaped` | src/cpdlc_msg.c:74-134 | what unescaping the escaped form gives, for every C string |
| `Escape.RoundTripIff` | src/cpdlc_msg.c:74-134 | escaping is undone if and only if every byte is 7-bit or 0xff |
| `Escape.EscapeIs` | src/cpdlc_msg.c:74-134 | an escape is a percent sign and the two hexadecimal digits of the byte, the higher one first, written and read |
| `Escape.UnescapedIff` | src/cpdlc_msg.c:101-134 | a text can be unescaped if and only if every percent sign is followed by two hexadecimal digits that are not both zero |
| `Escape.EscapedIsSafe` | src/cpdlc_msg.c:74-99 | the output consists of letters, digits, `.`, `,` and `%`: never a slash, blank, CR or LF |
| `Escape.FitsExactly` | src/cpdlc_msg.c:79-96 | the output is whole if and only if the capacity exceeds the returned length, or equals it and the last character is plain |
| `Escape.EscapePercent` | src/cpdlc_msg.c:74-99 | the returned length is independent of the capacity; a fitting string is written whole with its NUL; a zeroed buffer always ends up with a prefix of whole characters |
| `Escape.UnescapedIntoHolds` | src/cpdlc_msg.c:101-134 | a well-formed text leaves the decoded string in the buffer, cut to its size and terminated |
| `Escape.UnescapePercent` | src/cpdlc_msg.c:101-134 | the loop returns the decoded length and NUL, or -1 for a bad escape or an escaped NUL, and leaves exactly the modelled buffer |
| `Printer.Printer.Append` | src/cpdlc_msg_impl.h:33-40 | one append: the buffer holds the prefix of the ideal text that fits, followed by NUL |
| `Printer.Render` | src/cpdlc_msg_impl.h:33-40 | for any chunks and any capacity the total is the ideal length, and the buffer holds exactly the prefix that fits |
| `Printer.MeasureThenWrite` | src/cpdlc_msg.c:1389-1445 | measuring with no buffer and writing into one of that size loses nothing |
| `Printer.HeldText` | src/cpdlc_msg_impl.h:33-40 | the whole text can be read off the buffer if and only if it has room for it |
| `Split.FindSubIsFirst` | src/cpdlc_string.c:39-52 | the separator occurs nowhere before the place found |
| `Split.JoinPieces` | src/cpdlc_string.c:30-80 | joining the pieces with the separator restores the input |
| `Split.PiecesFree` | src/cpdlc_string.c:30-80 | no piece contains the separator |
| `Split.WantedIs` | src/cpdlc_string.c:30-80 | what both passes go through is all pieces, or exactly the non-empty ones in order |
| `Split.Count` | src/cpdlc_string.c:39-52 | the counting pass counts the pieces the filling pass writes |
| `Split.Fill` | src/cpdlc_string.c:56-75 | the filling pass writes exactly these pieces, within the array |
| `Split.StrSplit` | src/cpdlc_string.c:30-80 | the array returned holds all pieces, or exactly the non-empty ones in order |
| `Route.ParseSerialized` | src/cpdlc_msg.c:1710-1903 | exactly what reading a printed route gives: everything but the runways, which lose two characters, or undefined when one has a single character |
| `Route.RoundTripIff` | src/cpdlc_msg.c:1737-1743 | a route of at most 128 components comes back unchanged if and only if it names no runway |
| `Route.TooManyComponents` | src/cpdlc_msg.c:1877-1903 | a route of more than 128 components is refused |
| `Route.ParseRoute` | src/cpdlc_msg.c:1877-1903 | the loop over the components computes the modelled route or error |
| `Route.SerializeRoute` | src/cpdlc_msg.c:291-361 | the printing loops leave as much of the modelled text in the buffer as fits |
| `CodecArgs.ArgBack` | src/cpdlc_msg.c:873-1170 | every argument in its valid range, printed and read again, is the same argument, whatever follows |
| `CodecArgs.ArgsBack` | src/cpdlc_msg.c:2395-2790 | so are all arguments of a segment, read one after the other |
| `CodecRoundTrip.SegBack` | src/cpdlc_msg.c:2325-2803 | a printed segment is read back as the same segment |
| `CodecRoundTrip.FieldTakes` | src/cpdlc_msg.c:2840-2965 | each printed header has exactly its effect on the message being read, whatever follows |
| `CodecRoundTrip.FieldsBack` | src/cpdlc_msg.c:2840-2965 | a line of printed headers leads through exactly the expected drafts |
| `CodecWhole.FinishLast` | src/cpdlc_msg.c:1505-1563 | the last draft passes validation and is the message |
| `CodecWhole.RoundTrip` | src/cpdlc_msg.c:2805-2979 | decoding an encoded message, whatever follows it in the buffer, gives the same message and consumes exactly its encoding |
| `CodecWhole.LineCrLf` | src/cpdlc_msg.c:2819-2827 | the same with CR LF at the end of the line |
| `CodecReads.NumberReads` | src/cpdlc_msg.c:2543-2769 | a numeric argument is read exactly if it is in the range of its kind, and as the number its digits write |
| `CodecReads.SquawkReads` | src/cpdlc_msg.c:1586-1597 | four digits are read as a squawk if and only if each is 0 to 7 |
| `CodecReads.TimeReads` | src/cpdlc_msg.c:1955-1976 | four digits are read as a time if and only if there is such a time |
| `CodecReads.AltitudeReads` | src/cpdlc_msg.c:1978-2015 | an altitude in feet, metres or flight levels is read exactly if it is in range |
| `CodecReads.DegreesReads` | src/cpdlc_msg.c:2652-2660 | so are degrees, with T for true |
| `CodecReads.DurationReads` | src/cpdlc_msg.c:2422-2430 | a duration is a number of minutes |
| `CodecReads.KnotsRead` | src/cpdlc_msg.c:2018-2037 | a speed without M is in knots |
| `CodecReads.TwoPlacesRead` | src/cpdlc_msg.c:2026-2032 | a Mach number is read exactly if it is at least .10 |
| `CodecReads.AtisReads` | src/cpdlc_msg.c:2770-2776 | ATIS codes are A to Z |
| `CodecReads.DirReads` | src/cpdlc_msg.c:2451-2533 | each direction is read from its letters exactly if the message can give it |
| `CodecReads.ToFromReads` | src/cpdlc_msg.c:2550-2562 | TO and FROM are read as such |
| `CodecReads.PosMeans` | src/cpdlc_msg.c:1905-1953 | what FIX, NAV, ARPT and no type mean |
| `CodecReads.TypeDecides` | src/cpdlc_msg.c:2354-2396 | what the type number decides: DM0 to DM80, UM0 to UM198, subtypes b to i of DM67 only |
| `CodecReads.TypeTooHigh` | src/cpdlc_msg.c:2354-2361 | a higher number is refused whatever the table says |
| `CodecReads.OtherLettersRefused` | src/cpdlc_msg.c:2341-2348 | a segment starts with DM or UM |
| `CodecReads.SixthSegmentRefused` | src/cpdlc_msg.c:2915-2919 | a sixth segment is refused |
| `CodecReads.StampReads` | src/cpdlc_msg.c:2857-2872 | six digits are accepted as a time stamp if and only if they are a time of day |
| `CodecReads.HeaderRulesIff` | src/cpdlc_msg.c:1505-1563 | a printed message whose parts fit is read back if and only if it obeys the header rules, and is malformed otherwise |
| `CodecReads.NeedsPktAndMin` | src/cpdlc_msg.c:1505-1563 | a line without a packet type or a MIN is malformed |
| `CodecReads.WireText` | src/cpdlc_msg.c:1389-1445 | the text of every message, header by header |
| `CodecLimits.DecodedDirected` | src/cpdlc_msg.c:2911-2931 | whatever is decoded, all its segments but the first are of the reader's direction |
| `CodecLimits.DirectionIff` | src/cpdlc_msg.c:2911-2931 | a printed message whose segments are each valid is read back if and only if those behind the first are of the reader's direction |
| `CodecLimits.OtherDirectionAccepted` | src/cpdlc_msg.c:2925-2930 | the input: a lone segment of the other direction is accepted |
| `CodecLimits.PositionUnsetIff` | src/cpdlc_msg.c:1905-1953 | a position is never refused for its type, and is left unset exactly when it has a type the reader does not know |
| `CodecLimits.OptionsOverrunIff` | src/cpdlc_msg.c:2940-2953 | a line of headers overruns the option slots if and only if it would be valid and its OPTIONS headers, each counted for at most four, name more than four in all |
| `CodecLimits.FiveOptionsOverrun` | src/cpdlc_msg.c:2940-2953 | the input: two OPTIONS headers, with three and two options |
| `CodecLimits.LogonUndefinedIff` | src/cpdlc_msg.c:2885-2894 | LOGON data is left undefined if and only if some percent sign does not start an escape |
| `CodecLimits.FreeTextBackIff` | src/cpdlc_msg.c:2397-2400 | of the free texts that fit, exactly the non-empty ones are read back |
| `CodecImpl.FindArgEnd` | src/cpdlc_msg.c:1599-1605 | the loop finds the end of the argument |
| `CodecImpl.SkipSpace` | src/cpdlc_msg_impl.h:42-47 | the loop skips exactly the blanks before the end |
| `CodecImpl.DecodeArgs` | src/cpdlc_msg.c:2395-2790 | the argument loop computes the modelled arguments or error |
| `CodecImpl.DecodeTailBy` | src/cpdlc_msg.c:2386-2400 | what follows the type of a segment is read as modelled |
| `CodecImpl.DecodeType` | src/cpdlc_msg.c:2354-2384 | the tests of type and subtype reach the modelled verdict, or hand the modelled key on |
| `CodecImpl.DecodeSegBy` | src/cpdlc_msg.c:2325-2803 | the segment as a whole is read as modelled |
| `CodecImpl.DecodeOpts` | src/cpdlc_msg.c:2940-2953 | the copying loop fills the modelled slots and counts |
| `CodecImpl.DecodeNamed` | src/cpdlc_msg.c:2848-2957 | the branches of the header loop have the modelled effect |
| `CodecImpl.DecodeFields` | src/cpdlc_msg.c:2840-2965 | the header loop computes the modelled draft or error |
| `CodecImpl.DecodeMsg` | src/cpdlc_msg.c:2805-2979 | the decoder as a whole computes the modelled result |
| `CodecImpl.EncodeArgs` | src/cpdlc_msg.c:1173-1189 | the chunks of a segment's arguments make up the modelled text |
| `CodecImpl.EncodeFields` | src/cpdlc_msg.c:1389-1445 | the chunks of all headers make up the modelled line |
| `CodecImpl.EncodeMsg` | src/cpdlc_msg.c:1389-1445 | the encoder returns the length of the whole text for any buffer, which holds as much of it as fits |
| `Framing.ChunkingIrrelevant` | src/cpdlc_client.c:1450-1494 | any way to cut a sturdy stream into reads that do not end in CR gives the messages, the end and the remainder of a single read |
| `Framing.ChunkingIrrelevantIff` | src/cpdlc_client.c:1450-1494 | for a decoder of lines and a stream without CR the cut never matters if and only if the stream is sturdy |
| `Framing.EncodedArrive` | src/cpdlc_client.c:1450-1494 | texts the decoder accepts in any context arrive complete and in order under every cut |
| `Framing.CrLfArriveIff` | src/cpdlc_client.c:1450-1494 | lines that end in CR LF arrive complete if and only if no read ends between CR and LF; any other cut ends the session |
| `Framing.ProcessInput` | src/cpdlc_client.c:1450-1494 | the loop takes exactly the decodable messages off the buffer, in order |
| `WireFraming.WireIsLineSized` | src/cpdlc_msg.c:2819-2834 | without CR the decoder waits for an LF and a message ends at the first one |
| `WireFraming.WireEncodes` | src/cpdlc_msg.c:2969-2978 | what the encoder prints is taken with any continuation, and no proper part of it is enough |
| `WireFraming.StreamArrives` | src/cpdlc_client.c:1450-1494 | however encoded messages and part of a further line are cut into reads, the receiver gets exactly these messages in order and keeps exactly the part |
| `WireFraming.CrLfStreamArrivesIff` | src/cpdlc_msg.c:2819-2827 | encoded messages with CR LF arrive in order, with part of a further line kept, if and only if no read ends between a CR and its LF; a read that does ends the session |
| `WireFraming.SplitCrLfHalts` | src/cpdlc_msg.c:2819-2827 | the smallest case, for any message: CR in one read and LF in the next end the session, both in one do not |
| `WireLocal.ScanTwins` | src/cpdlc_msg.c:2860-2884 | an integer conversion depends only on the line if what follows it is quiet: it does not go on with an integer or an acceptable Mach number |
| `WireLocal.MachTwins` | src/cpdlc_msg.c:2026-2032 | so does the conversion of a Mach number, as far as it is accepted |
| `WireLocal.ReadArgTwins` | src/cpdlc_msg.c:2395-2790 | so does reading any argument |
| `WireLocal.LineIsLocal` | src/cpdlc_msg.c:2805-2979 | so does the decoder's verdict on a line ended by LF or CR LF, well-formed or not |
| `WireChunks.QuietStreamsArriveAlike` | src/cpdlc_client.c:1450-1494 | chunking independence of the real decoder: if every line end is followed by quiet text, and CR comes only before LF, every cut that does not part CR from LF yields the same messages, the same end at the first malformed line and the same remainder |
| `WireChunks.QuietIff` | src/cpdlc_msg.c:2860-2884 | with a table that knows a speed, a text changes the reading of no line before it if and only if it is quiet |
| `WireChunks.LoudTextsMatter` | src/cpdlc_msg.c:2860-2884 | for every text that is not quiet there is a stream whose cut into reads matters |
| `WireChunks.BlankMachReadsOn` | src/cpdlc_msg.c:2026-2032 | the input: a blank Mach number is malformed alone, and is .85 if the next line starts with that |
| `ClientAuthority.StepInv` | src/cpdlc_client.c:1274-1448 | every event keeps the client's invariant |
| `ClientAuthority.QueuedCameFromAuthority` | src/cpdlc_client.c:1335-1381 | in every run each message an aircraft client queues came from its current data authority at that moment, on a complete logon |
| `ClientAuthority.NextWasOffered` | src/cpdlc_client.c:1320-1333 | a next data authority was named in a UM160 by the current one, which has been the current one since |
| `ClientAuthority.AuthorityChain` | src/cpdlc_client.c:1274-1333 | between logon calls the authority changes only to a station named in a UM160 by the authority being replaced, while it was the authority |
| `ClientAuthority.FirstAuthorityIsChosen` | src/cpdlc_client.c:1967-1997 | only a logon call gives a client without authority one |
| `ClientAuthority.AbortsIff` | src/cpdlc_client.c:1344-1344 | a client aborts if and only if a CPDLC message without logon data reaches an aircraft whose logon is complete and which has no authority, or it is told to log off by identity before any logon call |
| `ClientAuthority.NamelessLogonAborts` | src/cpdlc_client.c:1984-1987 | the run: a logon call without a station while the logon is complete, then any message |
| `ClientAuthority.EarlyLogoffAborts` | src/cpdlc_client.c:2000-2014 | the input: a logoff by identity as the first call |
| `ClientAuthority.CarefulNeverAborts` | src/cpdlc_client.c:1967-2022 | an aircraft whose program names a station in every logon call, and makes one before it logs off by identity, never aborts |
| `ClientAuthority.LogonServedIff` | src/cpdlc_client.c:1990-1993 | a logon call can still lead to its request if and only if the worker is not on its way out |
| `ClientAuthority.LateLogonIsLost` | src/cpdlc_client.c:1990-1993 | the run: a logon call after the link was taken down and before the worker has finished |
| `ClientLaws.ReplyDecides` | src/cpdlc_client.c:1412-1432 | SUCCESS completes an open request, any other reply refuses it, anything else is discarded |
| `ClientLaws.Discarded` | src/cpdlc_client.c:1398-1448 | off line, pings and unasked logon replies are discarded |
| `ClientLaws.StrangerRefused` | src/cpdlc_client.c:1344-1359 | a station that is not the authority is answered with DM63 and not heard |
| `ClientLaws.SegsLeave` | src/cpdlc_client.c:1360-1372 | for every sequence of segments: the next authority is the one last named, and the last END SERVICE leads to a logon with the next authority of that point, or down |
| `ClientLaws.AuthorityHeard` | src/cpdlc_client.c:1335-1381 | a message of the authority is queued, and its segments decide so |
| `ClientLaws.EndOfService` | src/cpdlc_client.c:1303-1318 | END SERVICE without a next authority takes the link down |
| `ClientLaws.Handover` | src/cpdlc_client.c:1274-1333 | from any complete logon: UM160, UM161, the request to the next authority and its consent make that the authority |
| `ClientLaws.LogonCall` | src/cpdlc_client.c:1967-1997 | what a logon call sets |
| `ClientLaws.LogoffCall` | src/cpdlc_client.c:1999-2022 | a logoff by identity sends LOGOFF exactly while complete; one without takes the link down |
| `ClientLaws.RequestGoesTo` | src/cpdlc_client.c:1274-1301 | the request goes to the next authority if there is one |
| `ClientAuthority.Client.CallLogon` | src/cpdlc_client.c:1967-1997 | the object form leaves exactly the modelled state |
| `ClientAuthority.Client.CallLogoff` | src/cpdlc_client.c:1999-2022 | likewise for logging off, with an identity or without |
| `ClientAuthority.Client.SendLogonRequest` | src/cpdlc_client.c:1274-1301 | likewise for the logon request: the next authority, if any, becomes the current one |
| `ClientAuthority.Client.EndSvc` | src/cpdlc_client.c:1303-1318 | likewise for END SERVICE: on to the next authority, or down |
| `ClientAuthority.Client.SetNext` | src/cpdlc_client.c:1320-1333 | likewise for NEXT DATA AUTHORITY |
| `ClientAuthority.Client.QueueMsg` | src/cpdlc_client.c:1335-1381 | likewise for the loop over the segments and the queueing |
| `ClientAuthority.Client.Process` | src/cpdlc_client.c:1398-1448 | likewise for one incoming message |
| `ClientAuthority.Client.ResetLink` | src/cpdlc_client.c:736-812 | likewise for the loss of the link |
| `Crc.Division` | src/cpdlc_crc.h:57-99 | long division over GF(2): every word is quotient times generator plus remainder |
| `Crc.DirectIsRemainder` | src/cpdlc_crc.h:94-97 | the register fed bit by bit is the remainder of the preset message shifted by sixteen places |
| `Crc.TableIsEightShifts` | src/cpdlc_crc.h:59-93 | every table entry is its index shifted eight times modulo the generator |
| `Crc.TableTurn` | src/cpdlc_crc.h:95-97 | one turn of the table loop is eight bit steps |
| `Crc.Crc16` | src/cpdlc_crc.h:56-99 | the table loop computes the inverted remainder modulo x^16+x^12+x^5+1, for every byte string |
| `Crc.BurstDetected` | src/cpdlc_crc.h:56-99 | different messages that differ only within sixteen consecutive bits leave different registers |
| `Crc.ChecksumDetectsBurst` | src/cpdlc_crc.h:56-99 | two byte strings of one length that differ, but only within sixteen consecutive bits, have different checksums |
| `WordWrap.WrappedWordsFit` | fans/fans_text_proc.c:66-86 | no wrapping into lines of the width exists unless every word fits |
| `WordWrap.Wrap` | fans/fans_text_proc.c:66-86 | the loop terminates with the modelled lines |
| `WordWrap.WrapFits` | fans/fans_text_proc.c:66-86 | if every word fits, the lines keep to the width, put together with what they were broken at they are the text, they are broken at white space only, and none ends early if the space is the only white space |
| `WordWrap.GoBreaks` | fans/fans_text_proc.c:72-85 | if every word fits, the character loop breaks the text where the line-by-line rule says: at the last white space seen before the width, or at the next space |
| `WordWrap.WrapIff` | fans/fans_text_proc.c:66-86 | the result, joined by single spaces, is the text in lines of the width if and only if every word fits and every line is broken at a space; if the space is the only white space, if and only if every word fits |
| `WordWrap.LongWord` | fans/fans_text_proc.c:76-81 | the input: a word longer than the width makes a line longer than the width |
| `WordWrap.TabLost` | fans/fans_text_proc.c:83-84 | the input: a text whose words all fit, broken at a tab, which is lost |

## Left out

- TLS, sockets, polling, libwebsockets, curl, XML, fork/exec: foreign calls; here they are events.
- The RPC router, which is taken as switched off; with it forwarding is asynchronous.
- Lock order, real scheduling, allocation, `logoff_time` and logging; no claim of deadlock freedom is made.
- Shutdown (`fini_structs`, `auth_fini`), time-outs and blocklists of connections other than as a close event.
- Client calls other than logon and logoff, such as those that set the host or the callback.
- The version message that an ARINC 622 client sends behind its logon.
- `do_msg_output` and message tokens of the client: send status is never advanced there.
- ARINC 622 and its ASN.1 encoding; of the FANS code only the checksum and the line wrapper.
- Floating-point arguments (coordinates, frequency, altimeter setting, distance), position reports, departure clearances, procedures, facility names and leg types in the message round trip. A Mach number is an exact decimal of at most three places, where the program uses a `double`; infinities, NaN, hexadecimal and exponent forms and negative numbers are `Undef`.
- WireChunks.QuietIff: exact for the argument kinds modelled; the other arguments read with `atof` (distance, frequency, altimeter setting) also take a blank number from the next line. Where the verdict on a line is `Unspecified`, the stream theorems say only that it is so under every cut.
- The rows of the message table: an abstract table with keys, argument kinds, response kinds and timeouts. `TwoParty` relies on one fact about it, that no downlink has a timeout (`src/cpdlc_infos.c`).
- Timestamps and format flags of a message; the line prefix and the 1024-byte buffer of the wrapper.
- Readable (human) text forms, hex coding, configuration, minilist.
- Connections and threads are records in tables keyed by number, not heap objects; aliasing of `conn_t` is the key. A closed connection's number may be used again.
- The multi-value hash table is modelled as appending at the tail; its source is not part of this model.
- Counters of the message list and the daemon are unbounded; 32-bit and 64-bit conversions are explicit in the codec.
- `cpdlc_msg_encode` is modelled as printing a list of headers in its order, not as one sequence of statements.
- WireChunks.QuietStreamsArriveAlike: one direction only for whole streams; a stream with a number behind a line end is still independent of its reads when no line before it ends in a blank number. The exact condition is proved for the text behind a line (`QuietIff`) and, in terms of the decoder, for whole streams without CR (`Framing.ChunkingIrrelevantIff`).
- Streams with a CR that is not followed by LF.
- WordWrap.Wrap: does not say what becomes of a line of negative length (a space passed while the loop was behind a long word), where the program's length wraps around.
