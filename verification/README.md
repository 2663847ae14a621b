# Verified models of the MeshCentral agent's control logic

The MeshCentral agent keeps one authenticated connection to its server, runs a JavaScript core
module that the server manages, updates its own executable, and gives scripts native calls and
streams. This project models the parts of that work where the agent's own code decides something:
which server to try and when, who may command it, what core runs, which bytes of a file are
hashed, how two threads hand a call over, and how the stream buffers move. Hashes, signatures,
certificates, zlib, the cipher, sockets, timers and the data store are functions, maps and
environment steps; every flag, index, queue, buffer and branch of the code itself is kept. The
build modelled has TLS and the proxy code compiled in.

Code that updates fields in place is a class whose methods are proved against a function of the
old state; what the repository promises is then proved about that function, over every run.
A run is a sequence of states and events, each event possible in its state and leading to the next.

| module | subject |
|---|---|
| `ControlChannel`, `ControlChannelProofs`, `ControlChannelRuns`, `ControlAuth`, `ControlWaits`, `ControlAgent`, `ServerRotation` | connecting, retrying, server and proxy rotation, authentication, Connected events |
| `CoreModule` | the stored core, the running engine, the start timer, the acknowledgements |
| `FileHash`, `SelfUpdate` | the masked streaming hash, the embedded trailer, the update transfer |
| `AsyncCall`, `AsyncCallProofs`, `AsyncService`, `AsyncOverlap` | asynchronous native calls on one record: the script thread, the worker, and when calls are served |
| `AsyncSystem`, `AsyncResults`, `AsyncOutcome`, `AsyncBlocking`, `AsyncRuns` | all records together: flag, promises, frames, progress, outcome, blocking calls |
| `CallbackPool` | the 22 native callback slots |
| `Decompressor`, `InflateDeflate` | the streaming decompressor and the whole-buffer coders |
| `MemoryStream`, `EncryptionStream` | the growable buffer, chunked counter mode |
| `DataStore`, `MshImport`, `MshImportResults`, `MshText` | the store's plain and compressed records, the settings import |
| `RateLimiter`, `MacCheck`, `Strings` | console text, MAC comparison, string search |
| `Bytes` | bytes and fixed-width integers |

## What was found

Most promises hold on every run. These hold only under a condition, which is proved exactly:

- A connection completed with an HTTP answer of its own (a response header) does not reconnect
  (meshcore/agentcore.c:3735); the agent then has no request, timer or lookup exactly if none was
  pending (`CompletionStalls`, with a concrete run in `StalledRun`). Without such an answer it
  never stalls.
- Without a proxy the server index of this build never advances (meshcore/agentcore.c:3893-3899).
- A listener for Connected events is called with 1 twice in a row, once the next event comes,
  exactly if it was attached by a script that a handler of a fully authenticated agent runs: on the
  way to the announcement
  (meshcore/agentcore.c:2684-2703), or between Connected(0) and the reset of the state
  (3683-3717). `SeesOneTwiceWhileAnnouncing` and `SeesOneTwiceWhileCompleting` are runs.
- An invalid argument is noticed after the promise was stored, and nothing clears it: the native
  function refuses every later call, exactly if that ever happened (`AcceptsIffNeverBad`).
- waitingForResult stays set from any blocking call of the function, also one that is redirected,
  refused or invalid, to the next report on its record (`FlagIff`, `LeftFlagIff`). A call that finds
  it set makes no promise (`PromiseIff`): pushing the absent one gives undefined, on which the next
  line sets a property (microscript/ILibDuktape_GenericMarshal.c:1633-1638,
  microscript/duktape.c:23793-23796 and 60507-60516), so it ends in a TypeError, blocking or not,
  while the worker still serves it, and its result reaches nobody.
- A blocking call never hands its own result back. On its own record, or redirected to one whose
  flag is left set, it ends in that error (`BlockingCallThrowsIff`, `FlaggedCalleeThrows`).
  Otherwise the script thread waits for the caller's record, where the call does no work: for ever,
  if nothing is left over there (`BlocksForEverHolds`, `LostIff`, `ForeignWaitDeadlocks`); if an
  earlier call has left or will leave a post, it returns on that (`BlockingCallReturns`), with what
  its own record holds.
- A call is served as it should be (on its own arguments, once, reported by a callback exactly if it
  made a promise, which is resolved with its own result) if and only if it is not begun while the
  worker is about to run, or to store the result of, an earlier one, or to clear its redirection; no
  invalid call names another function just before the worker runs it; and no report clears, and no
  blocking call sets, the flag it left (`ServedOnceIff`). If no other blocking or invalid call
  interferes, that is: exactly if no call is begun between an earlier one's announcement and its
  report (`OverlapIff`). With interference it can go either way: `OverlapMadeGood` is an overlap
  that a third call repairs, `RefusedWaitLosesPromise` a promise that a refused blocking call loses.
- A compressed core that fails to inflate loses the handle of the start timer while the timer
  lives, exactly then (`HandleLostIffFailedInflate`); confirmations no longer launch the core.
- A removal while the core waits leaves the handle of a timer that is gone, until a new core or
  the next confirmation, which uses it (`DeadHandleIffRemovedWhileWaiting`).
- If the store has both a plain and a compressed core, which the settings import can bring about,
  a removal deletes only the plain one, and its bare acknowledgement is untrue, exactly then.
- The limiter sends one message more than its rate per window, and up to twice the rate plus one
  in some second; the settings documentation (meshcore/agentcore.h:281) says the rate per second.
- The importer's protection of the `CoreModule` entry fails exactly for files with a line whose
  key is `CoreModule` and a NUL byte, which the store drops, or that names the compressed record
  in which the agent keeps its core, `CoreModule` and the bytes C0 22 A4 56 of its checksum
  (`CoreModuleKeptIff`; `NulKeyReplacesCore` and `PackedKeyRemovesCore` are files).
- Importing a file twice can differ from importing it once: a delete removes one record, the plain
  or else the compressed one, and the second delete the other (`SecondDeleteRemovesTheOther`). The
  exact condition is `ImportIsIdempotentIff`, and for files that name no compressed record
  `OrdinaryFileIsIdempotentIff`.
- An embedded trailer leaves the hash unchanged exactly when something stands in front of it and
  all of that was hashed before: an end index of 0 means "unknown", and the whole file is hashed.
- A write or resume that completes a compressed stream, past all pauses, is taken for a pause
  exactly when the output still to come is a multiple of 16384 bytes, because the library's end
  code and a pause share the value 1; the writer then waits for ever. In mid-stream such an output,
  with all input read, fails the stream. The end handler drops what is left when it exceeds a chunk,
  and a full chunk unless the library reports the end with its last byte.
- An update block without payload is never acknowledged.
- Adapters exchanged one at a time reset the node identity in the end, although successive lists
  overlap: the remembered list is that of the last reset.

## Model

| member | source | states |
|---|---|---|
| ServerRotation.AttemptFollowsClosedForm | meshcore/agentcore.c:3884-3900 | with a usable proxy, each attempt moves index, tried index and the two proxy flags along one closed form, and picks the server and route that form announces |
| ServerRotation.AllServersWithinBound | meshcore/agentcore.c:3985-4008 | starting at server s of N, every server is tried through the proxy and directly afterwards within 2s+2(N-1) attempts |
| ServerRotation.OneRoundPerLap | meshcore/agentcore.c:3884-3900 | after the first server, any N consecutive rounds visit N different servers, so each gets one proxied and one direct attempt per lap |
| ControlChannelProofs.StepKeeps | meshcore/agentcore.c:3544-3755 | the session invariant survives every event, from any state that has it; except for a completion with a header it also leaves the agent alive |
| ControlChannelProofs.DelayRange | meshcore/agentcore.c:4256-4345 | the delays that some random number makes: from the back-off so far to less than twice as much, and from 240000 on from there to 359999 |
| ControlChannelProofs.FirstBackOffRange | meshcore/agentcore.c:4256-4345 | the first back-off is any time from 500 to 1999 milliseconds |
| ControlChannelRuns.AtMostOneRequest | meshcore/agentcore.c:3853-3853 | under all connect triggers there is at most one live request, exactly while the state is not idle; retry times and delays are 0 or in [500, 480000); tried index <= index <= N |
| ControlChannelRuns.EventsAlternate | meshcore/agentcore.c:2617-2646 | the Connected events of every run alternate, starting with 1 |
| ControlChannelRuns.ListenerSeesAlternation | meshcore/agentcore.c:1656-1668 | a listener attached in any state, in the middle of a handler too, sees an alternating sequence for ever if and only if it was not attached inside a handler of a fully authenticated agent; else it sees 1, 1 |
| ControlChannelRuns.SeesOneTwiceWhileCompleting | microscript/ILibduktape_EventEmitter.c:240-240 | a concrete run: attached by a script that Connected(0) runs, called by the hook, and the next event is 1 again |
| ControlChannelRuns.SeesOneTwiceWhileAnnouncing | meshcore/agentcore.c:2684-2722 | a concrete run: attached by the script that sending the agent information runs, before Connected(1) |
| ControlAuth.AcceptedIffProven | meshcore/agentcore.c:2954-3019 | before full authentication a packet sets the server bit, stores the peer's certificate hash and sends the agent information if and only if it is the command 2, two length bytes, a certificate whose key digest is the configured ServerID (SHA-384, or SHA-256 in its first 32 bytes), and a signature by that key of the peer's hash and the two nonces |
| ControlAuth.PacketEffects | meshcore/agentcore.c:2860-3052 | what every packet changes, by its bytes: request, proof and confirmation before full authentication, and which commands are delivered after it |
| ControlAuth.NoncesAt | meshcore/agentcore.c:2904-2904 | the nonces that a signature must cover are the last one sent by a connection and the last one received in an accepted request, or zeros |
| ControlAuth.ServerIdIsOfTheAttempt | meshcore/agentcore.c:4067-4106 | while a request is live the ServerID in use is the one configured for the server of the last attempt, filled up with zeros |
| ControlAuth.KnownFromTheStart | meshcore/agentcore.c:3621-3650 | a connection starts with the server bit if and only if its first packet was sent and the stored hash is the peer's |
| ControlAuth.ServerBitIsEarned | meshcore/agentcore.c:3005-3009 | over any number of connections, while the server bit is set the peer's certificate hash was the one stored at start, or an earlier packet of the run proved it so |
| ControlAuth.NonceIsOfThisConnection | meshcore/agentcore.c:3660-3666 | the nonce a signature must cover was drawn when this very connection was established, if its first packet could be sent |
| ControlAuth.DeliveredIsAuthenticated | meshcore/agentcore.c:2873-3042 | every command that took effect arrived in the fully authenticated state, over a connection whose certificate is vouched for, and is not an authentication packet |
| ControlChannelRuns.StallsOnlyAfterHttpAnswer | meshcore/agentcore.c:4256-4345 | with usable settings and no HTTP answer so far, there is always a live request, an armed timer or a pending lookup |
| ControlChannelRuns.CompletionStalls | meshcore/agentcore.c:3735-3752 | a completion leaves the agent stuck if and only if it carries a header and neither timer nor lookup is pending |
| ControlChannelRuns.StalledRun | meshcore/agentcore.c:3674-3752 | a concrete run that ends stuck |
| ControlChannelRuns.AttemptsFollowClosedForm | meshcore/agentcore.c:3830-4194 | over a whole run with a steady proxy, attempt number k is the k-th of the closed form, whatever fails in between |
| ControlChannelRuns.EveryServerIsTried | meshcore/agentcore.c:3884-4008 | in a run of 2s+2(N-1) attempts every server was tried both ways, and one direct attempt follows each proxied one |
| ControlChannelRuns.WithoutProxyNeverMovesOn | meshcore/agentcore.c:3893-3899 | without a proxy all attempts of a run go to the server picked first |
| ControlWaits.AttemptsWait | meshcore/agentcore.c:3860-3961 | in every run a local entry is tried only after some server has answered the discovery packet, and where every attempt looks the proxy up first none is made before a lookup has resolved |
| ControlAgent.Agent.Connect | meshcore/agentcore.c:4256-4345 | in-place handler and its mutual recursion with ConnectEx terminate and do what the specification says |
| ControlAgent.Agent.ConnectEx | meshcore/agentcore.c:3830-3881 | leaves everything alone when not idle or without servers, else starts one attempt |
| ControlAgent.Agent.BeginAttempt | meshcore/agentcore.c:3860-3961 | proxy lookup, server choice, and the fall-back to a retry while a local server is undiscovered |
| ControlAgent.Agent.SelectServer | meshcore/agentcore.c:3884-3900 | the index updates equal the rotation function the closed form is about |
| ControlAgent.Agent.ChooseRoute | meshcore/agentcore.c:3985-4008 | the route and flag updates equal the route function the closed form is about |
| ControlAgent.Agent.TryServer | meshcore/agentcore.c:4067-4194 | settings checks in order, then one request or one retry |
| ControlAgent.Agent.Request | meshcore/agentcore.c:4134-4187 | one new live request with its 20 second timer, and the outcome of configuring the proxy |
| ControlAgent.Agent.OnEstablished | meshcore/agentcore.c:3621-3673 | no authentication bit survives from an earlier connection; the server bit is set only for the stored hash |
| ControlAgent.Agent.OnCompleteEmit | meshcore/agentcore.c:3674-3716 | Connected(0) only after full authentication, with the authenticated state still in place |
| ControlAgent.Agent.OnCompleteReset | meshcore/agentcore.c:3717-3752 | then the reset to idle, and the reconnection without a header |
| ControlAgent.Agent.OnComplete | meshcore/agentcore.c:3674-3752 | both halves in one call, as cancelling runs them |
| ControlAgent.Agent.OnData | meshcore/agentcore.c:3721-3731 | data reaches the command handler only on a switched connection |
| ControlAgent.Agent.ProcessCommand | meshcore/agentcore.c:2860-3128 | before full authentication only the three authentication packets have an effect, after it only other commands |
| ControlAgent.Agent.AuthRequest | meshcore/agentcore.c:2879-2953 | the server nonce is taken only from a packet of the right size naming the peer's certificate or key |
| ControlAgent.Agent.AuthVerify | meshcore/agentcore.c:2954-3023 | the server bit and the stored hash change exactly when certificate, ServerID and signature check out |
| ControlAgent.Agent.SendAgentInfo | meshcore/agentcore.c:2651-2723 | resets the back-off, and announces the connection if both sides are authenticated |
| ControlAgent.Agent.AnnounceAgent | meshcore/agentcore.c:2706-2722 | the second half of it, after the script has run |
| ControlAgent.Agent.ServerAuthenticated | meshcore/agentcore.c:2617-2646 | Connected(1) exactly in the fully authenticated state |
| ControlAgent.Agent.OnRetryTimer | meshcore/agentcore.c:4342-4342 | the timer is used up and one attempt starts |
| ControlAgent.Agent.OnNetworkTimeout | meshcore/agentcore.c:3774-3787 | the request is given up before a new attempt starts, whether or not the web client reports it |
| ControlAgent.Agent.OnDiscovery | meshcore/agentcore.c:666-683 | remembers the found server and connects only when idle |
| ControlAgent.Agent.OnAddressChanged | meshcore/agentcore.c:4634-4641 | re-arms the timer with 3000 milliseconds only when idle |
| ControlAgent.Agent.OnLookupDone | meshcore/agentcore.c:3797-3828 | the lookup is consumed and an attempt made |
| ControlAgent.Agent.AttachListener | meshcore/agentcore.c:1656-1668 | a listener is called at once with 1 exactly when connected |
| CoreModule.EngineMatchesStore | meshcore/agentcore.c:3137-3244 | the engine runs nothing or exactly the stored module's script, launched once; a stored core runs or waits for its timer, except exactly after a removal that left the second of two records |
| CoreModule.NeglectedIff | microstack/ILibSimpleDataStore.c:910-951 | a stored core neither runs nor waits if and only if a removal found both records and nothing made up for it since |
| CoreModule.BothRecordsOnlyFromTheStart | microstack/ILibSimpleDataStore.c:665-673 | both records of the core exist only as found at the start, before the first removal or new core |
| CoreModule.AcksAreTrue | meshcore/agentcore.c:3218-3261 | a full acknowledgement carries the store's own hash and, for an install, the requested one; after a 4-byte one nothing runs, and nothing is stored if and only if the removal did not find both records |
| CoreModule.CoreIsAnswered | meshcore/agentcore.c:3153-3220 | a core is answered exactly once unless it does not inflate: with its hash if it is the stored one or has the announced hash, which then is stored and run without its first four bytes, and otherwise with the bare header, nothing being stored or running any more |
| CoreModule.RemovalIsAnswered | meshcore/agentcore.c:3223-3242 | a removal is answered exactly once, removes one record and stops the engine |
| CoreModule.HashIsAnswered | meshcore/agentcore.c:3245-3262 | a request for the hash is answered exactly once, with the core's own hash, with zeros or with the bare header, and changes nothing |
| CoreModule.StartsWithStored | meshcore/agentcore.c:4663-4693 | what a stored core does at agent start |
| CoreModule.ConfirmationLaunchesIffAllInflated | meshcore/agentcore.c:3285-3334 | in every run a confirmation launches the waiting core, instead of the timer, if and only if no compressed core failed to inflate before |
| CoreModule.HandleLostIffFailedInflate | meshcore/agentcore.c:3153-3178 | while the timer is pending, its handle is gone if and only if a new compressed core failed to inflate |
| CoreModule.DeadHandleIffRemovedWhileWaiting | meshcore/agentcore.c:3223-3242 | the agent holds the handle of a timer that is gone if and only if the core was removed while waiting and neither a new core nor a confirmation came since |
| CoreModule.Agent.OnCoreModule | meshcore/agentcore.c:3137-3244 | install, replace, reject and remove change store, engine and answers as specified |
| CoreModule.Agent.OnCoreModuleHash | meshcore/agentcore.c:3245-3262 | the answer to a hash request |
| CoreModule.Agent.OnCoreOk | meshcore/agentcore.c:3263-3336 | cancels the timer and launches, or does nothing |
| CoreModule.Agent.OnServerTimeout | meshcore/agentcore.c:4663-4693 | the elapsed timer launches what is stored |
| CoreModule.Agent.ScriptEngineStop | meshcore/agentcore.c:2433-2451 | the new engine has run nothing, and the old one's timers are gone |
| AsyncOutcome.ServedOnceIff | microscript/ILibDuktape_GenericMarshal.c:1304-1337 | in every interleaving, when a record is at rest: for every accepted call event on it, in order, the caller's function ran once on exactly the arguments of that event (without the first when redirected), the call was reported by a callback if and only if it made a promise, and that promise was resolved once with the value the function returned, if and only if no call was begun at the three places of the worker's loop that overwrite it, no invalid call misnamed one before it ran, and no call's flag was cleared or set before its report |
| AsyncOutcome.LogsAreOfTheRun | microscript/ILibDuktape_GenericMarshal.c:1582-1611 | the record's logs are exactly the accepted call events of the run, with the caller's function and the arguments of each, and the values that native functions returned |
| AsyncOutcome.ExactlyOnce | microscript/ILibDuktape_GenericMarshal.c:1304-1337 | the same at any time for the calls finished by then, as long as nothing was spoiled so |
| AsyncOutcome.OverlapIff | microscript/ILibDuktape_GenericMarshal.c:1571-1583 | where no other blocking call and no badly timed invalid call touches the record: exactly if no call was begun after the worker announced an earlier one and before it reported it |
| AsyncOutcome.MisnamedIff | microscript/ILibDuktape_GenericMarshal.c:1583-1615 | the worker finds another redirection than its call's if and only if an invalid call has named one and none since has named the right one |
| AsyncResults.FlagIff | microscript/ILibDuktape_GenericMarshal.c:1672-1672 | in every run waitingForResult is set exactly from a blocking call of the function, whatever becomes of it, to the next report on its record |
| AsyncResults.LeftFlagIff | microscript/ILibDuktape_GenericMarshal.c:1328-1335 | on a record at rest the flag is set if and only if a blocking call of its function went to another record, was refused or invalid, with no report since |
| AsyncResults.PromiseIff | microscript/ILibDuktape_GenericMarshal.c:1571-1581 | an accepted call makes a promise if and only if it is not a blocking one of the record's own function and the flag is not left set |
| AsyncResults.AcceptsIffResolved | microscript/ILibDuktape_GenericMarshal.c:1571-1571 | in every run a record accepts a call, while the script is in none, if and only if every promise stored on it was resolved |
| AsyncResults.RefusesForEver | microscript/ILibDuktape_GenericMarshal.c:1275-1290 | a promise left on a record at rest stays for ever |
| AsyncResults.FrameOutlivesCopy | microscript/ILibDuktape_GenericMarshal.c:1305-1312 | in every run the worker copies only while the owner of the arguments waits, and never more than its array holds; it takes something else for the owner's frame if and only if a call was begun while it was about to run an earlier one or to store its result |
| AsyncResults.SemaphoreCounts | microscript/ILibDuktape_GenericMarshal.c:1305-1335 | in every run workAvailable and workStarted never exceed 1, and every report is one post taken or left over, or one callback run or queued |
| AsyncResults.WorkIsBounded | microscript/ILibDuktape_GenericMarshal.c:1275-1335 | under any schedule and any overlap the moves made on a record and those still needed are covered by 2n+12 for each call with n arguments |
| AsyncCallProofs.StepProgresses | microscript/ILibDuktape_GenericMarshal.c:1291-1343 | every move of either thread brings the record nearer to rest |
| AsyncResults.SomeThreadCanMove | microscript/ILibDuktape_GenericMarshal.c:1627-1628 | no deadlock in any run but one: while the script thread is in a call or a record is not at rest, some thread has a move, unless the script thread is lost |
| AsyncBlocking.BlockingCallThrowsIff | microscript/ILibDuktape_GenericMarshal.c:1633-1638 | a blocking call ends in an error, with script and record open for the next call, if and only if it was made on its own record or on one whose flag was set; else the script thread goes on to wait |
| AsyncBlocking.BlocksForEverHolds | microscript/ILibDuktape_GenericMarshal.c:1683-1687 | a blocking call redirected to a record whose flag is clear never returns if nothing is left over on the caller's record, and no promise is resolved any more |
| AsyncBlocking.BlockingCallReturns | microscript/ILibDuktape_GenericMarshal.c:1331-1336 | and only then: else the caller's worker needs at most five moves of its own for the post, can always make the next, and then the script thread can take it |
| AsyncBlocking.LostIff | microscript/ILibDuktape_GenericMarshal.c:1684-1684 | in every run the script thread is blocked with no post to come if and only if such a call has blocked it |
| AsyncBlocking.LostForEver | microscript/ILibDuktape_GenericMarshal.c:1684-1684 | and then it stays so, and no promise is resolved |
| AsyncRuns.ForeignWaitDeadlocks | microscript/ILibDuktape_GenericMarshal.c:1642-1687 | a concrete run of thirteen steps after which no thread can ever move |
| AsyncRuns.PlainCallIsServed | microscript/ILibDuktape_GenericMarshal.c:1597-1628 | a concrete run: a call on the argument 7 runs the function on 7 and its promise is resolved with the value returned |
| AsyncRuns.FlaggedCalleeThrows | microscript/ILibDuktape_GenericMarshal.c:1572-1638 | a concrete run: an abandoned call, a wait that returns on its post and leaves the flag set, and a blocking call redirected there, which throws although nothing is left over |
| AsyncRuns.OverlapLosesArguments | microscript/ILibDuktape_GenericMarshal.c:1305-1318 | a concrete run: a second blocking call made over an abandoned one loses its arguments |
| AsyncRuns.OverlapMadeGood | microscript/ILibDuktape_GenericMarshal.c:1328-1335 | a concrete run: a call begun before the earlier one's report is served as it should be, because another blocking call sets the flag again |
| AsyncRuns.RefusedWaitLosesPromise | microscript/ILibDuktape_GenericMarshal.c:1672-1672 | a concrete run: a refused blocking call turns the report of the pending call into a post, and its promise is never resolved |
| AsyncOutcome.AcceptsIffNeverBad | microscript/ILibDuktape_GenericMarshal.c:1571-1617 | on a record at rest on which nothing was spoiled, the next call is accepted if and only if no call ever had an invalid parameter |
| AsyncCall.CopyArguments | microscript/ILibDuktape_GenericMarshal.c:1307-1311 | the copy loop yields the arguments, or all but the first when redirected |
| CallbackPool.SlotsArePartitioned | microscript/ILibDuktape_GenericMarshal.c:2684-2709 | in every run each slot is free or held by exactly one variable, and the three arrays agree with that |
| CallbackPool.ParmsAreAskedFor | microscript/ILibDuktape_GenericMarshal.c:2840-2853 | while a variable holds a slot, the slot's parameter count is the one it was asked for with |
| CallbackPool.GetGivesASlot | microscript/ILibDuktape_GenericMarshal.c:2840-2853 | a get with at least one parameter gives its new variable a free slot, one without changes nothing |
| CallbackPool.IssuesFollowReleases | microscript/ILibDuktape_GenericMarshal.c:2840-2853 | the first 22 slots handed out are 21 down to 0, and number 22+r is the one released as number r |
| CallbackPool.ReleasedSlotWaitsForTheFreeOnes | microscript/ILibDuktape_GenericMarshal.c:2684-2709 | after a release the slots free then are handed out first, last one first, and then the released one |
| CallbackPool.Pool.Take | microscript/ILibDuktape_GenericMarshal.c:2840-2853 | pops the last free slot into the parallel arrays, refuses fewer than one argument without a change, keeps the partition |
| CallbackPool.Pool.GiveBack | microscript/ILibDuktape_GenericMarshal.c:2684-2709 | clears the arrays, puts the slot at the front, keeps the partition |
| FileHash.StreamHash | meshcore/agentcore.c:2583-2611 | for every buffer size the digest is fed exactly the file up to the end index with the checksum and certificate-table bytes zeroed (Microsoft PE Format, optional header), or the file's last 8 bytes if it ends before that table entry |
| FileHash.ReadHeaders | meshcore/agentcore.c:2587-2599 | the two masked header reads |
| FileHash.GenerateFileHash | meshcore/agentcore.c:2488-2614 | locating the end and streaming together; malformed executables are refused |
| FileHash.HashOfExecutable | meshcore/agentcore.c:2513-2589 | by the bytes of the file: what is fed to the digest of a Portable Executable is the file up to the position its certificate table's entry names, or to its trailer, with the four bytes 88 behind the headers' offset and the eight bytes 152 behind it (168 in the 64-bit form) zeroed |
| FileHash.OnlySignatureFieldsDoNotCount | meshcore/agentcore.c:2583-2589 | two such files of one length and end are fed alike if and only if they agree on every other byte before the end |
| FileHash.HashOfOtherFile | meshcore/agentcore.c:2564-2581 | any other file is fed as it is, up to its trailer |
| FileHash.HashOfCutHeaders | meshcore/agentcore.c:2583-2600 | a file that ends inside the certificate table's entry is fed whole, with the checksum and its last eight bytes zeroed |
| FileHash.TrailerEndIs | meshcore/agentcore.c:2564-2581 | for every file, by its last 20 bytes: where the trailer begins, modulo 32 bits |
| FileHash.ExtractReadsWhatWasEmbedded | meshcore/agentcore.c:4371-4384 | the extractor returns exactly the settings embedded, and the hash stops where they start |
| FileHash.ExtractIs | meshcore/agentcore.c:4371-4394 | for every file, by its last 20 bytes: what the extractor gives |
| FileHash.ReadersAgree | meshcore/agentcore.c:2564-2581 | on any file ending in the marker the extractor returns the bytes between the hash's end and the trailer if and only if the declared length fits |
| FileHash.TrailerDoesNotChangeHash | meshcore/agentcore.c:2564-2581 | for every file, appending a trailer leaves the hashed bytes unchanged if and only if the file is not empty and no earlier trailer cut anything off |
| FileHash.TrailerDoesNotChangeExecutableHash | meshcore/agentcore.c:2506-2581 | the same for a Portable Executable without certificate table, whose masked ranges stay put: unchanged if and only if all of it was hashed before |
| FileHash.CertificateTableFixesTheEnd | meshcore/agentcore.c:2529-2550 | with a certificate table nothing behind its offset is hashed, whatever is appended |
| FileHash.HashSeesUnmaskedPrefix | meshcore/agentcore.c:2583-2611 | two files with the same bytes masked and the same end feed the digest alike if and only if they agree on every unmasked byte before the end |
| SelfUpdate.FileIsAcceptedBlocks | meshcore/agentcore.c:3456-3493 | in every run the update file is the accepted blocks since the last discard, each once and in order, and exactly those were acknowledged |
| SelfUpdate.AppendedOnce | meshcore/agentcore.c:3469-3476 | four tries append a block once or not at all, and succeed if and only if it is not empty and one of the tries writes it |
| SelfUpdate.ContinuesOnlyWhenVerified | meshcore/agentcore.c:3383-3453 | an event continues the update if and only if it is an end marker whose hash is the digest of the masked bytes of the accepted blocks |
| SelfUpdate.AllContinuedVerified | meshcore/agentcore.c:3388-3388 | everything ever continued with had the digest its end marker announced |
| SelfUpdate.EmptyBlockIsNeverAcknowledged | meshcore/agentcore.c:3469-3483 | a block without payload changes neither the file's bytes nor the acknowledgements |
| SelfUpdate.Agent.AgentUpdate | meshcore/agentcore.c:3366-3454 | start and end markers in place, using the streaming hash |
| SelfUpdate.Agent.AgentUpdateBlock | meshcore/agentcore.c:3456-3493 | the retry loop equals the tries of the specification, and acknowledges on success only |
| RateLimiter.SlidingBound | meshcore/agentcore.c:797-813 | any closed 1000 millisecond interval of any trace has at most 2M+1 sent messages |
| RateLimiter.SlidingBoundIsTight | meshcore/agentcore.c:797-813 | for every rate some trace reaches that number |
| RateLimiter.WindowSendsFirst | meshcore/agentcore.c:797-813 | each window sends exactly its first M+1 messages and the next opens more than 1000 milliseconds later |
| RateLimiter.ConsoleText.Send | meshcore/agentcore.c:797-813 | the two fields' update in place |
| MshImport.ImportSettings | meshcore/agentcore.c:4414-4478 | the in-place importer equals a fold of put and delete over the parsed lines of the original file |
| MshText.SettingTakesEffect | meshcore/agentcore.c:4424-4473 | by the text of the file: the last line that names a key leaves the decoded digits of a value that starts with 0x, no record for an empty value, and any other value with a NUL, whatever blanks and carriage return surround it, unless a later delete falls back on that record |
| MshText.LineMeans | meshcore/agentcore.c:4424-4469 | every line is read as the key and value it sets, and skipped if it sets none |
| MshText.NothingSetNothingChanged | meshcore/agentcore.c:4425-4447 | a file of comments, lines without a key and lines that set CoreModule changes no store |
| MshText.LinesOfJoin | microstack/ILibParsers.c:6108-6191 | the lines of a text of lines joined by newlines are these lines |
| MshImport.ParseLines | microstack/ILibParsers.c:6108-6191 | start and length of every line |
| MshImport.SpansCutAtNewlines | microstack/ILibParsers.c:6108-6191 | the lines are the text cut at its newlines, without gap or overlap |
| MshImport.TrimRange | microstack/ILibParsers.c:6089-6094 | trimming in the buffer |
| MshImport.ImportLine | meshcore/agentcore.c:4428-4473 | one line's action; nothing behind the line's end changes, so later lines are read as they were |
| MshImport.ImportPair | meshcore/agentcore.c:4437-4469 | key, value and the comparison with the core's key, read in the buffer |
| MshImport.StoreValue | meshcore/agentcore.c:4447-4469 | delete for an empty value, decoded hexadecimal or a terminated string otherwise |
| MshImportResults.LastLineWins | meshcore/agentcore.c:4414-4478 | for every record of every store: the last line that names it decides it, unless a later delete of a key without a plain record falls back on it; records not named and not fallen back on keep their value |
| MshImportResults.ImportIsIdempotentIff | meshcore/agentcore.c:4414-4478 | importing a file twice equals importing it once if and only if no delete falls back on a record in only one of the two imports |
| MshImportResults.OrdinaryFileIsIdempotentIff | microstack/ILibSimpleDataStore.c:910-951 | for files naming no compressed record of a deleted key, decided by the store and the order of the lines alone |
| MshImportResults.SecondDeleteRemovesTheOther | microstack/ILibSimpleDataStore.c:910-951 | a concrete file and store where the second import removes the other record |
| DataStore.DeleteRemovesOneRecord | microstack/ILibSimpleDataStore.c:910-951 | after a delete the key is gone exactly unless both its records were there |
| MshImportResults.CoreModuleKeptIff | meshcore/agentcore.c:4447-4447 | what reading the core finds is unchanged in every store if and only if no line puts the key with a NUL behind it or names the core's compressed record |
| MshImportResults.NulKeyReplacesCore | microstack/ILibSimpleDataStore.c:664-664 | a concrete file that replaces it |
| MshImportResults.PackedKeyRemovesCore | microstack/ILibSimpleDataStore.c:676-681 | a concrete file that removes the core the agent stored |
| Strings.IndexOf | microstack/ILibParsers.c:9268-9288 | the search loop finds the first occurrence |
| Strings.FirstIsLeast | microstack/ILibParsers.c:9268-9288 | no occurrence is before the one found, and one is found if there is any |
| Strings.TrimRemovesExactlyTheBlanks | microstack/ILibParsers.c:6089-6094 | only blanks are cut off, and none is left at either end |
| MacCheck.Check | meshcore/agentcore.c:5119-5158 | the loops over the flat strings reset exactly when the current list has a non-zero address and shares none with the stored one |
| MacCheck.ResetsIff | meshcore/agentcore.c:5126-5156 | a reset needs a remembered list, a current address other than `[00:00:00:00:00:00]`, and no such address in both lists |
| MacCheck.ZerosAreNotShared | meshcore/agentcore.c:5144-5148 | two different addresses that have only zeros beside them in common reset |
| MacCheck.FindAddress | meshcore/agentcore.c:5130-5136 | the first loop decides whether there is an address other than zeros |
| MacCheck.FindRemembered | meshcore/agentcore.c:5140-5152 | the second loop decides whether a remembered one is still there |
| MacCheck.SearchIsMembership | meshcore/agentcore.c:5148-5148 | substring search in a well-formed list is membership: a match never straddles two tokens |
| MacCheck.RecheckNeverResets | meshcore/agentcore.c:5152-5156 | checking the same list again never resets and changes nothing, after a reset in particular |
| MacCheck.RememberedSinceLastReset | meshcore/agentcore.c:5119-5158 | over many starts the remembered list is that of the last reset or the first kept |
| MacCheck.GradualExchangeResets | meshcore/agentcore.c:5140-5156 | two successive overlaps do not prevent a reset |
| Decompressor.OutputIsInflation | microscript/ILibDuktape_CompressedStream.c:233-315 | for every pattern of writes, pauses and resumes the output is an in-order prefix of the inflation of what was fed, and after an end without error it is the inflation of all that was accepted |
| Decompressor.PausedExactly | microscript/ILibDuktape_CompressedStream.c:254-282 | after a write, or a resume with saved input, that did not fail the stream is paused if and only if the stream behind answered the last output, a full chunk or not, with a pause; and it went past no earlier one |
| Decompressor.WaitsExactly | microscript/ILibDuktape_CompressedStream.c:254-282 | the writer is told or left to wait if and only if the stream is paused so, or was completed in full chunks past all pauses |
| Decompressor.AcceptedIsFedAndSaved | microscript/ILibDuktape_CompressedStream.c:59-113 | accepted bytes are the fed ones followed by the saved ones if and only if the stream was not brought to a stop by an event with saved input |
| Decompressor.StuckExactlyAfterFullChunks | microscript/ILibDuktape_CompressedStream.c:282-282 | in every run nothing can happen any more if and only if the stream failed, ended, or the last event was a write or resume that completed it in full chunks past all pauses |
| Decompressor.FailsExactlyOnAChunk | microscript/ILibDuktape_CompressedStream.c:246-249 | in every run over sound data, a write or resume fails the stream if and only if in mid-stream its output fills its chunks exactly past all pauses and the last chunk used up the input |
| Decompressor.SilentExactlyOnFullChunks | microscript/ILibDuktape_CompressedStream.c:242-282 | for every pattern of pauses, a loop that completes the stream is taken for a pause if and only if its output is a multiple of the chunk and no chunk of it was paused at |
| Decompressor.SpuriousErrorExactlyOnAChunk | microscript/ILibDuktape_CompressedStream.c:246-249 | for every pattern of pauses, a loop over sound data fails if and only if in mid-stream its output fills its chunks exactly, unpaused, with the input used up |
| Decompressor.EndDeliversAtMostAChunk | microscript/ILibDuktape_CompressedStream.c:284-309 | the end delivers a whole stream's rest below a chunk, and nothing of a rest above one; a rest of exactly one chunk is delivered if and only if the library reports the end with its last byte, and otherwise nothing of it |
| Decompressor.Stream.Loop | microscript/ILibDuktape_CompressedStream.c:242-273 | the do/while loop over the library terminates, keeps the output order and sets aside the unread input on a pause |
| Decompressor.Stream.OnWrite | microscript/ILibDuktape_CompressedStream.c:233-283 | the write handler and its answer |
| Decompressor.Stream.OnResume | microscript/ILibDuktape_CompressedStream.c:59-113 | the resume handler and whether it releases the writer |
| Decompressor.Stream.OnEnd | microscript/ILibDuktape_CompressedStream.c:284-315 | the end handler |
| InflateDeflate.Deflate | microscript/ILibDuktape_CompressedStream.c:408-473 | sizing returns the filling length; filling succeeds if and only if the data fits, writes it whole, and never writes past the capacity |
| InflateDeflate.Inflate | microscript/ILibDuktape_CompressedStream.c:475-540 | the same for inflating, with the length added to its initial value when sizing, and code 2 exactly for a wrong checksum |
| InflateDeflate.Phase | microscript/ILibDuktape_CompressedStream.c:429-445 | one loop terminates and delivers the output in order with its running checksum, or stops at a chunk that does not fit |
| InflateDeflate.RoundTrip | microstack/ILibSimpleDataStore.c:729-750 | sizing and filling both ways gives back the input, for every length and every cut into chunks |
| MemoryStream.GrowthIsAmortised | microscript/ILibDuktape_MemoryStream.c:64-87 | after any operations: capacity at most the larger of the initial size and twice the content, bytes moved by all growth at most the capacity, logarithmically many resizes, for an initial size of 0 too |
| MemoryStream.WriteKeepsAmortised | microscript/ILibDuktape_MemoryStream.c:68-81 | a growth fits the write and at least doubles the capacity |
| MemoryStream.NumbersReadBack | microscript/ILibDuktape_MemoryStream.c:102-138 | a 16 or 32-bit number, negative or not, reads back modulo its width in network order |
| MemoryStream.Stream.OnWrite | microscript/ILibDuktape_MemoryStream.c:64-87 | the content grows by exactly the data, across a resize too |
| MemoryStream.WriteAll | microscript/ILibDuktape_MemoryStream.c:93-138 | any sequence of byte and number writes leaves their concatenation |
| EncryptionStream.Side.WriteSink | microscript/ILibDuktape_EncryptionStream.c:42-74 | the 4096-byte loop is counter mode over the whole write from the stream's position, in pieces that fit, answered by the last piece |
| EncryptionStream.Side.WriteAll | microscript/ILibDuktape_EncryptionStream.c:42-74 | any split into writes is one counter-mode pass (section 6.5 of NIST SP 800-38A) |
| EncryptionStream.CtrIsCounterMode | microscript/ILibDuktape_EncryptionStream.c:42-74 | byte j of block b is combined with byte j of the cipher of the counter b more than the initial one (section 6.5 of NIST SP 800-38A) |
| EncryptionStream.Transfer | microscript/ILibDuktape_EncryptionStream.c:42-74 | any split of the plaintext and any other split of its ciphertext give the plaintext back |

## Assumptions

- The web client reports at most one established event and exactly one completion per request that
  is not cancelled. Cancelling on the agent's own thread runs the completion before it returns
  (microstack/ILibWebClient.c:3058-3179), if the client still holds the request.
- The first random server pick is not negative. A lookup that was started resolves.
- Claims about rotation take settings without a "local" entry and a proxy setting that does not change.
- zlib keeps the promise stated in `Decompressor.KeepsPromise` (`HonestLibraryExists` shows that it
  can be kept); the update file's failed appends write nothing; file reads return all there is;
  positions fit 31 bits.
- The data store is backed by a file, and hashing a value is a function of the value. A checksum is
  four bytes; those of `CoreMo` are BF F1 BA 1B, and `CoreModuleKeptIff` needs only that they are
  not `dule`.
- zlib reports corrupt data only for corrupt data, where a lemma requires `Sound`.
- A promise of a native call is not collected while it is pending. The worker reads the redirection
  in one step when it runs a function, and tests and clears the flag in one when it reports.

## Left out

- ControlAgent.Agent.OnNetworkTimeout: the freed request record that the timer and the response handler share is not modelled, because memory lifetime is not part of the model.
- ControlAgent.Agent.ProcessCommand: packets shorter than two bytes are not modelled, because the code reads past them.
- CoreModule.Agent.OnCoreModule: modules of fewer than four bytes and the debug-port prefix are not modelled, because lengths become negative there and the launched text differs on purpose.
- FileHash.StreamHash: requires the masked headers to lie inside the scratch buffer, and the file to go on for 8 bytes behind the checksum, because the code writes outside the buffer otherwise.
- FileHash.ReadHeaders: the same.
- FileHash.GenerateFileHash: the same; and short reads leave older bytes in the shared scratch buffer, where the model reads zeros and finds no trailer in files under 16 bytes.
- FileHash.ReadersAgree: declared lengths of 2^31 or more are not modelled, because the allocation fails first.
- SelfUpdate.Agent.AgentUpdate: requires of the stored file what hashing it requires; the fake update and the unzipping of zipped updates are not modelled, because they only choose what runs after the check.
- CoreModule.Agent.OnCoreModuleHash: a compressed record whose bytes the import has overwritten is not modelled, because reading it back depends on zlib's treatment of arbitrary data.
- Decompressor.Stream.OnResume: the running checksum and the reuse of the old resume buffer while it is replaced are not modelled, because they do not decide the output.
- InflateDeflate.Deflate: input consumption is inside the coder's function of what was delivered, and failed initialisation of the library is not modelled.
- EncryptionStream.Side.WriteSink: the final calls of the cipher are not modelled, because counter mode has nothing left to deliver then.
- MemoryStream.Stream.OnWrite: sizes beyond the machine word are not modelled.
- RateLimiter.ConsoleText.Send: a clock that runs backwards is not part of the claims.
- AsyncBlocking.BlockingCallReturns: does not say what value the call returns, because it is whatever the caller's record holds then, the result of another call or an address.
- Asynchronous calls: what a worker does after it has taken a stored result for its caller's frame is modelled as running its function all the same, because the source then reads memory at that address; abort and dispatch by APC on Windows are left out, because they concern memory lifetime and threads the agent does not own.
- Self-test mode, shutdown, the Windows DNS and ID locks, keep-alive pings, manual core restart, and builds without TLS.
- Windows PE header offsets of 2^31 or more, and the internals of SHA-384, RSA, AES, zlib and the data store.
- Remote desktop, process spawning and module registration, because what they do is in the operating system and in scripts; Duktape's value stack and the argument-count switch of native calls, because the model passes values and argument lists instead.
