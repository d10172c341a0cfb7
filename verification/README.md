# TunProxy: model and proofs

TunProxy is a daemon and a command-line client that run a sing-box core as a transparent proxy: the core
captures traffic through a TUN interface and sends it to a SOCKS5 upstream, while a list of CIDR blocks
bypasses the tunnel. This project models the parts of TunProxy whose correctness depends on more than one
function, in Dafny, and proves what they promise. `dafny verify dfyconfig.toml` checks all of it.

## The parts

| file | models |
|---|---|
| `World.dfy` | the process table, the TUN interface and the state file; every system call is a step, the environment moves before each one, and the run so far is kept so that a crash can cut it anywhere |
| `ProxyManager.dfy` | `start`, `stop`, `status`, `terminateCore`, `waitForTun`, `awaitTunRemoval` as methods over that world |
| `LifecycleRuns.dfy` | any sequence of commands with crashes at any step, and the theorems about all such runs |
| `RuntimeState.dfy` | the text of the state file, its loader and the store |
| `AtomicWrite.dfy` | `writeFileAtomic` over directory entries and inodes, with short writes, failures and concurrent readers |
| `CoreManager.dfy` | the verified download and installation of the core |
| `Cidr.dfy` | CIDR blocks: masking, containment and overlap on bytes and bits, against sets of numeric addresses |
| `BypassPolicy.dfy` | CIDR text, the scan of interface addresses, and the minimised list of all blocks |
| `Routing.dfy` | what the generated first-match rules do to a packet |
| `SingBoxConfig.dfy` | the generated JSON document and a reader for it |
| `RouteDocument.dfy` | the route section of that document, read back as JSON objects and as first-match rules |
| `Config.dfy` | the upstream URI and the configuration file |
| `Ipc.dfy` | framing over a byte stream with short reads, short writes and interruptions |
| `Session.dfy` | one command over the socket: the worker that serves it, the client that waits for it |
| `Daemon.dfy` | all clients, `--direct` processes and the shutdown as a transition system without bounds |
| `Controller.dfy` | the bypass listing, its size, and the record that `start` makes of configuration and policy |
| `Common.dfy`, `Text.dfy` | result types; searching and decimal conversion |

## Assumptions

- `/proc` reads are faithful, `weakly_canonical` of the recorded executable neither fails nor changes
  (`src/runtime_state.cpp:177-181`; otherwise a live core counts as unmanaged), a core never re-executes itself,
  a reused pid has a later start time, and an identity check together with the signal right after it is one step.
- A `spawnCore` that fails kills and reaps its own child (`src/proxy_manager.cpp:166-190`); that is part of its
  failing step.
- Only the holder of the file lock writes the state file (`Daemon.AtMostOneIsCritical` is why), and a state
  file is replaced as a whole or not at all (`AtomicWrite.WriteFileAtomic` is why).
- `inet_pton` and `inet_ntop` are a codec with the laws `BypassPolicy.CodecLaws`, and they read the twelve
  fixed texts as written in `BypassPolicy.FIXED_BLOCKS`. SHA-256 is an arbitrary function; what curl and tar
  deliver is arbitrary; a symbolic link is taken to keep showing the same content.
- Signals interrupt a call only finitely often, deadlines are poll counts, and a blocking wait for a killed
  child ends.
- What start() prepares before its loop (TUN device, configuration, upstream probe, policy, core) enters it
  as one result; `Controller.StartPlansAreRecordable` says when this result fits the state file.

## Where a promise fails

- The state file forgets a live core when `load()` cannot open or read it: `start()` and `stop()` take that
  for an absent record and clear it (`src/proxy_manager.cpp:284-302`, `471-474`), so `off` can succeed over a
  running core. `LifecycleRuns.SavedCoreStaysRecorded` says that a saved live core is recorded exactly if no
  clear() hit its record, `LifecycleRuns.ForgetsOnlyUnread` that clear() does so only after a load() that failed
  to read this record, and `LifecycleRuns.FailedLoadForgets` that any run with a live recorded core can go on so.
- At most one core: the failed cleanups at `src/proxy_manager.cpp:387-390` and `407-410` are not the only way
  to a second core. A controller that crashes between the spawn and the provisional save leaves a core
  without a record as well, and a failed load() forgets one; a later start can then bring up another.
  `LifecycleRuns.AtMostOneCore` gives the condition, `LifecycleRuns.LostCoreAllowsTwo` and
  `LifecycleRuns.FailedLoadAllowsTwo` show that it is needed, and `LifecycleRuns.CrashBeforeSaveAllowsTwo` and
  `LifecycleRuns.FailedReadAllowsTwo` are concrete runs.
- `status()` reports no core when its load() fails, and `if_nametoindex` failing counts as TUN being absent;
  the theorems about both name that case.
- An installed core is downloaded again when sha256sum or the version command fails in that call; without such a
  failure it never is (`CoreManager.CoreManager.EnsureCore`, `CoreManager.CoreManager.EnsureTwice`).
- A record whose executable or version is empty or holds a newline is saved but never read back;
  `Controller.StartPlansAreRecordable` is the exact condition, which the fixed paths of the program meet.
- A host that starts with a bracket, or that has both a colon and a closing bracket, is accepted by the
  configuration but not read back from its URI (`Config.ParseInvertsFormat`); a host that begins or ends with
  a vertical tab or form feed is not read back from the file (`Config.LoadInvertsSave`).
- A result text over 64 KiB is refused by the sender, so the client reports a closed connection; an error
  message over 64 KiB is cut (`Session.RemoteEqualsDirectIffItFits`).
- A log line is printed the same remotely and directly exactly when it is progress, or is not empty and fits
  one frame (`Session.PrintsTheSameIff`): an empty one is not sent at all (`Session.EmptyMessagePrints`), and a
  longer one is printed as several lines (`Session.LongMessagePrints`).

## Model

| member | source | states |
|---|---|---|
| Worlds.RunsAreSafe | src/proxy_manager.cpp:282-495 | in every state of every lawful run, failed loads included, a live core is recorded in the file, on its way to be, left behind without a record, or was forgotten by a clear() |
| Worlds.StepKeepsSafe | src/proxy_manager.cpp:340-466 | every step of the machine taken by the rules keeps that invariant, environment moves and crashes included |
| Worlds.EnvKeepsCores | src/runtime_state.cpp:160-183 | death, reaping and pid reuse never bring up a core and never change whether a live one is recorded |
| Worlds.RulesSurviveEnv | src/proxy_manager.cpp:282-495 | what allows a spawn, save or clear cannot be undone by the environment between the check and the call |
| Worlds.FileAfterSave | src/runtime_state.cpp:106-122 | a savable record is read back from the file that save leaves |
| Worlds.World.Load | src/runtime_state.cpp:69-73 | what the file is, unless it cannot be read; a record that is not read stays in the file |
| Worlds.World.TunExists | src/proxy_manager.cpp:94-96 | true only if there is a TUN interface; false also when the look itself fails |
| Worlds.World.Save | src/runtime_state.cpp:106-122 | the file holds the record exactly after a success, and is unchanged after a failure |
| Worlds.World.Clear | src/runtime_state.cpp:124-131 | the file is absent exactly after a success; a live core it recorded is forgotten then, which may only happen after a failed load |
| Worlds.World.IsManaged | src/runtime_state.cpp:160-183 | true exactly when pid, start ticks and executable of a process that is no zombie match the record |
| Worlds.World.PollChild | src/proxy_manager.cpp:200-207 | a reaped child is gone from the table; otherwise nothing the manager relies on changes |
| Worlds.World.CheckAndTerminate | src/proxy_manager.cpp:228-237 | SIGTERM is sent only to a process that matches the record |
| Worlds.World.CheckAndKill | src/proxy_manager.cpp:253-263 | SIGKILL is sent only after the full SIGTERM budget and a fresh match |
| Worlds.World.Spawn | src/proxy_manager.cpp:109-192 | a new child with fresh start ticks, or none; never while another core that was not lost is alive, before a look that found no TUN, or with the configuration unchecked |
| Worlds.World.CrashAt | src/proxy_manager.cpp:282-495 | a crash after any step of the run leaves a lawful run and a settled state |
| ProxyManager.AwaitTunRemoval | src/proxy_manager.cpp:98-107 | at most 30 polls; success exactly when the last look reported no TUN |
| ProxyManager.WaitForTun | src/proxy_manager.cpp:194-222 | ready means TUN was seen for this identity while its child was not reaped; exited means the child is reaped |
| ProxyManager.PollUntilGone | src/proxy_manager.cpp:238-252 | the whole budget is used up unless the process was found gone |
| ProxyManager.TerminateCore | src/proxy_manager.cpp:224-280 | success only if the recorded process is gone, within 50 + 20 polls, with file and other cores untouched |
| ProxyManager.RecordTells | src/proxy_manager.cpp:284-298 | between commands the record of the file names the only core alive besides lost ones, or none is |
| ProxyManager.ClearPrevious | src/proxy_manager.cpp:283-308 | a running core is reported as it is; otherwise only lost cores are alive and the file is gone, or the failure names what is left; a core is lost here only if its record could not be read |
| ProxyManager.Attempt | src/proxy_manager.cpp:340-465 | one round ends with this core recorded as running, with no core, or with a failure that says where a core is left |
| ProxyManager.Adopt | src/proxy_manager.cpp:383-404 | a child without readable start ticks is killed and reaped, or the exit says that it is left behind |
| ProxyManager.Launch | src/proxy_manager.cpp:405-416 | without a provisional record the core is stopped, or the exit says that it is left behind |
| ProxyManager.Supervise | src/proxy_manager.cpp:417-465 | a round that goes on leaves no core and no file; a core that could not be stopped stays recorded |
| ProxyManager.Confirm | src/proxy_manager.cpp:427-443 | the record turns to running only over its own provisional record after TUN was seen, or the core is stopped again |
| ProxyManager.Start | src/proxy_manager.cpp:282-468 | at most two spawns; success reports the recorded core and its routing mode; every failure leaves only lost cores, or a recorded one, or is one of the two exits that leave one behind; a recorded core is forgotten only if load() failed |
| ProxyManager.Stop | src/proxy_manager.cpp:470-495 | stopped means no core but lost ones, no file, and, if a signal was sent, TUN not seen any more after it; a core that stays alive stays recorded; a recorded core is forgotten only if load() failed |
| ProxyManager.Status | src/proxy_manager.cpp:497-517 | reports the recorded core exactly when its record was read, says running and matches a live process |
| LifecycleRuns.Run | src/proxy_manager.cpp:282-517 | any sequence of commands, each crashing at any step or not at all, continues a lawful run lawfully |
| LifecycleRuns.StatusAfterStart | src/proxy_manager.cpp:497-517 | while the core of a successful start lives, status returns the very status start returned, whatever commands and crashes came in between and at every step inside them, unless a load failed since |
| LifecycleRuns.StatusAtAnyStep | src/proxy_manager.cpp:497-517 | an unlocked status that loads the file and looks for the process at any two steps of a run reports the running record of a core that lives, unless a load failed |
| LifecycleRuns.ReportedCoreHadTun | src/proxy_manager.cpp:427-513 | whatever core a status reports at any steps of a run, TUN was seen for it before |
| LifecycleRuns.RunningRecordStays | src/proxy_manager.cpp:282-495 | a running record stays in the file, unchanged, as long as its core lives and no load fails |
| LifecycleRuns.SavedCoreStaysRecorded | src/proxy_manager.cpp:405-466 | at every moment of every run a live core whose record was saved is in the state file exactly if no clear() removed it from there |
| LifecycleRuns.ForgetsOnlyUnread | src/proxy_manager.cpp:284-302 | clear() removes the record of a live core only after a load that failed to read that record, the core being recorded ever since |
| LifecycleRuns.FailedLoadForgets | src/proxy_manager.cpp:471-474 | any run that ends with a live recorded core can go on with a failed load and a clear() that forgets it |
| LifecycleRuns.ClearForgetsNoCore | src/proxy_manager.cpp:458-461 | in a run without failed loads no core whose record was saved is alive when the file is removed |
| LifecycleRuns.AtMostOneCore | src/proxy_manager.cpp:340-466 | two live cores are the same unless an earlier step left one behind without a record or cleared the record of a live one |
| LifecycleRuns.LostCoreAllowsTwo | src/proxy_manager.cpp:299-302 | any run that ends with a lost core alone goes on, by the steps of a start(), to two live cores |
| LifecycleRuns.FailedLoadAllowsTwo | src/proxy_manager.cpp:284-302 | any settled run with a live recorded core goes on, by the steps of a start() whose load fails, to two live cores |
| LifecycleRuns.CrashBeforeSaveAllowsTwo | src/proxy_manager.cpp:377-405 | the concrete run: a start() that crashes between spawn and provisional save, then a second start() |
| LifecycleRuns.FailedReadAllowsTwo | src/proxy_manager.cpp:284-302 | the concrete run: a start() that crashes after its provisional save, then a second start() that cannot read the record |
| LifecycleRuns.SpawnOnlyWithoutTun | src/proxy_manager.cpp:341-376 | every spawn follows a look that found no TUN or failed, later than any spawn or SIGTERM, and a check that accepted the configuration, later than any other attempt to spawn |
| LifecycleRuns.FileOnlyMovesAlong | src/proxy_manager.cpp:404-461 | the file only moves absent, starting, running, absent, or is cleared, and only by save and clear |
| LifecycleRuns.ListsArePolicies | src/proxy_manager.cpp:395-404 | at every step the bypass list on file is one that a policy can yield |
| LifecycleRuns.RunningOnlyAfterTun | src/proxy_manager.cpp:427-429 | running is written only after TUN was seen for that pid and ticks and over that provisional record |
| LifecycleRuns.SignalsReachOnlyOwnCores | src/proxy_manager.cpp:228-263 | every signal of every run hits a core the manager spawned: SIGTERM and SIGKILL of terminateCore the live process of the record in the file or of the core just spawned, by pid, ticks and executable, the SIGKILL at line 387 the unreaped child just spawned |
| LifecycleRuns.RunsKeepOwned | src/proxy_manager.cpp:282-495 | at every step the saved records and the core on its way belong to cores, never to foreign processes |
| LifecycleRuns.KillOnlyAfterFullTermBudget | src/proxy_manager.cpp:235-263 | every SIGKILL of terminateCore comes exactly 50 polls after a SIGTERM to the same process |
| RuntimeStates.LoadInvertsSave | src/runtime_state.cpp:69-122 | load returns the saved record exactly when it is complete, in range, free of newlines and its CIDRs are listable |
| RuntimeStates.SplitJoin | src/runtime_state.cpp:36-63 | the CIDR list is read back exactly when no entry is empty or holds a comma |
| RuntimeStates.ReadCidrs | src/runtime_state.cpp:36-52 | the offset loop yields the non-empty pieces between commas |
| RuntimeStates.WriteCidrs | src/runtime_state.cpp:54-63 | the index loop yields the pieces joined by commas |
| RuntimeStates.ReadLines | src/runtime_state.cpp:74-83 | the line loop yields the map with the first value of each key, or rejects a line without separator |
| RuntimeStates.DecodedIsOneLine | src/runtime_state.cpp:69-104 | whatever is loaded is free of newlines and has a listable CIDR list |
| RuntimeStates.RuntimeStateStore.Load | src/runtime_state.cpp:69-104 | the loader's result for the present file; one that cannot be read counts as absent |
| RuntimeStates.RuntimeStateStore.Save | src/runtime_state.cpp:106-122 | a savable record loads as itself after a success; a failure leaves what load returns unchanged |
| RuntimeStates.RuntimeStateStore.Clear | src/runtime_state.cpp:124-131 | a missing file is no error; afterwards load fails |
| AtomicWrite.WriteFileAtomic | src/filesystem.cpp:46-95 | every snapshot shows the old file, a success ends with the whole new one in place, synced, with the mode asked for; a failure keeps the old file and leaves no temporary file when unlink works |
| AtomicWrite.WriteAll | src/filesystem.cpp:65-79 | under any short writes and interruptions the temporary file holds a prefix, and all of it on success |
| AtomicWrite.MoveIntoPlace | src/filesystem.cpp:84-87 | only a synced file takes the name |
| AtomicWrite.ReaderSeesWholeContent | src/filesystem.cpp:33-44 | a reader that opened the name at any moment reads the whole old or whole new content at any later one |
| CoreManager.RemoveStaleArtifacts | src/core_manager.cpp:77-102 | only entries with the prefix and of the exact kind go, whole or, for a directory, in part; no symbolic link among them |
| CoreManager.CoreManager.VerifyCandidate | src/core_manager.cpp:117-153 | success means size and hash match; the file is executed only after both did |
| CoreManager.CoreManager.VerifyInstalledCore | src/core_manager.cpp:155-163 | success means core and license on disk are the pinned ones, and the pinned ones succeed when reads do |
| CoreManager.CoreManager.RepairCore | src/core_manager.cpp:176-312 | at every step, partial extractions and removals included, core and license are each as before or verified; at most three downloads |
| CoreManager.CoreManager.Install | src/core_manager.cpp:286-309 | nothing unverified is renamed into place, also when it stops between the two renames |
| CoreManager.CoreManager.EnsureCore | src/core_manager.cpp:165-174 | success means installed; an installed core that reads faithfully is used without download or change |
| CoreManager.CoreManager.EnsureThenExecute | src/proxy_manager.cpp:327-377 | every execution of a core, version, check and run, is of the pinned content |
| CoreManager.CoreManager.EnsureTwice | src/core_manager.cpp:165-174 | after a success the next call succeeds without a download, if neither sha256sum nor the version command fails in that call, whatever failed in the first |
| Cidrs.MaskAddress | src/bypass_policy.cpp:59-67 | the in-place masking yields the masked address |
| Cidrs.MaskedBits | src/bypass_policy.cpp:59-67 | masking keeps exactly the bits before the prefix |
| Cidrs.MaskingRoundsDown | src/bypass_policy.cpp:59-67 | the value becomes value minus value mod 2^(W-prefix), and the block keeps its addresses |
| Cidrs.MaskingIsIdempotent | src/bypass_policy.cpp:59-67 | masking again changes nothing |
| Cidrs.ContainsCidr | src/bypass_policy.cpp:95-107 | the bit loop decides agreement of the leading bits |
| Cidrs.ContainsIffSubset | src/bypass_policy.cpp:95-107 | containment holds exactly when every address of the inner block is in the outer one |
| Cidrs.NestedOrDisjoint | src/bypass_policy.cpp:95-107 | two blocks share an address exactly when one contains the other |
| Cidrs.OverlapsTunAddressSpace | src/bypass_policy.cpp:79-93 | true exactly when the block shares an address with 198.18.0.0/15 |
| Cidrs.TunSpaceInNumbers | include/tunproxy/constants.hpp:17-20 | that space is 198.18.0.0 to 198.19.255.255 |
| Cidrs.HostContainsOnlyItself | src/bypass_policy.cpp:126-131 | a host block contains another exactly when they are equal |
| Cidrs.ValueOfBytes | src/bypass_policy.cpp:19-23 | the value of an address is its bytes in network order |
| BypassPolicy.ParseCidr | src/bypass_policy.cpp:25-69 | whatever parses is a well-formed block in masked form |
| BypassPolicy.ParseInvertsFormat | src/bypass_policy.cpp:71-77 | formatting a masked block and parsing it gives the block |
| BypassPolicy.Collector.Append | src/bypass_policy.cpp:116-142 | a wanted new host is added once; it fails exactly when that would be the 1025th |
| BypassPolicy.CollectInterfaceAddresses | src/bypass_policy.cpp:144-174 | success exactly when at most 1024 distinct hosts are wanted, and then exactly those, each once |
| BypassPolicy.EnumerationOrderDoesNotMatter | src/bypass_policy.cpp:152-171 | the wanted hosts depend on the set of interfaces only |
| BypassPolicy.CollectBypassPolicy | src/bypass_policy.cpp:268-285 | exactly when it succeeds, and what the policy then is made of |
| BypassPolicy.AllCidrs | src/bypass_policy.cpp:229-266 | the loops build the list of the specification |
| BypassPolicy.AllCidrsKeeps | src/bypass_policy.cpp:229-266 | the list covers exactly the addresses of its parsable inputs, upstream first, no entry in an earlier one, at most 1 + fixed + interface entries |
| BypassPolicy.AllCidrsDistinct | src/bypass_policy.cpp:246-254 | no block and no text is listed twice |
| BypassPolicy.MinimisingAgainChangesNothing | src/bypass_policy.cpp:229-266 | minimising the list again with the same upstream gives the list |
| Routing.PolicyDecides | src/singbox_config.cpp:82-87 | a packet goes direct exactly when the policy before minimisation covers it, else port 53 is hijacked, else UDP rejected, else proxied |
| Routing.UpstreamCoversItsAddress | src/bypass_policy.cpp:268-285 | the upstream's block covers exactly the one resolved address |
| Routing.OnlyTheUpstreamLeavesTunSpace | src/bypass_policy.cpp:118-120 | with a collected policy the one resolved upstream address always goes direct, and no other address in 198.18.0.0/15 does |
| Routing.CollectedTextsAvoidTunSpace | src/bypass_policy.cpp:116-142 | no collected interface block covers an address of 198.18.0.0/15 |
| Routing.FixedTextsAvoidTunSpace | src/bypass_policy.cpp:178-194 | neither does a fixed block |
| SingBoxConfig.JsonEscape | src/singbox_config.cpp:8-30 | the character loop yields the escaped text |
| SingBoxConfig.WriteStringArray | src/singbox_config.cpp:32-41 | the element loop yields the array text |
| SingBoxConfig.ReadInvertsEscape | src/singbox_config.cpp:8-30 | a JSON reader ends an escaped string exactly at its closing quote and gives back the original |
| SingBoxConfig.ReadInvertsStringArray | src/singbox_config.cpp:32-41 | the array reads back as the same list before any following text |
| SingBoxConfig.BuildSingBoxConfig | src/singbox_config.cpp:45-91 | success exactly for a non-empty address and list, and then the document of the specification |
| SingBoxConfig.GeneratedConfigReadsBack | src/singbox_config.cpp:54-90 | every string and array of the document reads back as given and ends where the fixed text goes on |
| SingBoxConfig.BothArraysAreThePolicy | src/singbox_config.cpp:72-83 | route_exclude_address and ip_cidr both read back as the bypass list |
| RouteDocument.ReadInvertsObjectArray | src/singbox_config.cpp:82-87 | an array of JSON objects in the document's layout reads back as those objects before any following text |
| RouteDocument.DocumentHasRules | src/singbox_config.cpp:82-87 | the rules of the generated document read back as three objects, the first with the bypass list |
| RouteDocument.DocumentHasFinal | src/singbox_config.cpp:88-90 | what follows them reads back as the final outbound proxy |
| RouteDocument.DocumentRoutesAsDecided | src/singbox_config.cpp:81-88 | the rules in the document mean the first-match rules by which the packets of the policy are decided |
| Config.ParseInvertsFormat | src/config.cpp:42-112 | for a valid upstream, the URI reads back exactly when the host has a colon and no closing bracket, or no colon and no leading bracket |
| Config.LoadInvertsSave | src/config.cpp:116-177 | for a valid upstream, the file reads back exactly when the host has no vertical tab or form feed at its ends |
| Config.LoadOfSaved | src/config.cpp:116-177 | loading a saved upstream validates it again with the host trimmed |
| Config.ConfigManager.Load | src/config.cpp:116-161 | the line loop yields the specified result |
| Config.ConfigManager.Save | src/config.cpp:163-177 | an invalid upstream or a failed write leaves the file alone |
| Config.UriIsOneLine | src/config.cpp:101-112 | the URI of a valid upstream is one non-empty line |
| Ipc.CommandsInvert | include/tunproxy/ipc.hpp:30-32 | a code is decoded to a command exactly when the command encodes to it |
| Ipc.DecodeInvertsEncode | src/ipc.cpp:69-130 | an encoded frame is decoded as itself and what follows is left over |
| Ipc.EncodeInvertsDecode | src/ipc.cpp:95-130 | whatever is accepted is the encoding of the frame returned |
| Ipc.DecodeAllInvertsEncodeAll | src/ipc.cpp:69-130 | the encodings of a sequence of frames decode to that sequence with no residue |
| Ipc.SendThenReceive | src/ipc.cpp:69-130 | under any short writes, short reads and interruptions a sequence of frames is received unchanged and the stream is empty after it |
| Ipc.SendAll | src/ipc.cpp:18-34 | under any short writes and interruptions all bytes go out in order, or a prefix on failure |
| Ipc.ReceiveAll | src/ipc.cpp:36-53 | under any short reads the bytes come in order, and all of them exactly on success |
| Ipc.SendIpcFrame | src/ipc.cpp:69-93 | success writes the encoding, a failed write a part from its front; an oversized payload writes nothing |
| Ipc.ReceiveIpcFrame | src/ipc.cpp:95-130 | success consumes exactly the encoding of the frame; the outcome is the decoder's, errors included, or a read error where the connection may fail |
| Session.ChunksConcatenate | src/daemon_main.cpp:229-238 | the chunks of a log message concatenate back to it |
| Session.MessageIsCarried | src/daemon_main.cpp:229-238 | so do the payloads of its log frames |
| Session.SendLog | src/daemon_main.cpp:220-239 | the message's frames are sent, or a part of them when a write fails; after that nothing is sent and the name stays |
| Session.ServeClient | src/daemon_main.cpp:189-254 | the worker sends log frames and then one terminal frame, or one error frame, as specified for request, lock and controller; to a client that goes away a part from their front; and what it runs, never beside the holder of the mutex |
| Session.RunCommand | src/daemon_main.cpp:215-253 | a mutating command runs between taking and giving back the operation mutex, and the name is cleared, whether or not the client stays |
| Session.FirstOfPart | src/ipc.cpp:95-130 | what is received of a part of some frames is the first of them |
| Session.PartIsNotMalformed | src/ipc.cpp:95-130 | a stream cut anywhere is never taken for a malformed frame |
| Session.AwaitAnswer | src/main.cpp:28-79 | the client loop ends and yields the outcome and the printed log lines of the frames, or a read error after a part of the lines when the stream is cut |
| Session.SessionTellsTheOutcome | src/daemon_main.cpp:240-253 | a whole session tells the client the controller's outcome and prints every message in order, piece by piece |
| Session.RemoteEqualsDirectIffItFits | src/daemon_main.cpp:181-187 | the client of a session gets the controller's own outcome exactly when its text or message fits one frame |
| Session.PrintsTheSameIff | src/main.cpp:28-37 | a message prints the same remotely and directly exactly when it is progress, or is not empty and at most 64 KiB |
| Session.EmptyMessagePrints | src/main.cpp:28-37 | an empty info message prints a line directly and nothing remotely |
| Session.LongMessagePrints | src/daemon_main.cpp:229-238 | a message of one byte more than 64 KiB is printed remotely as two messages |
| Session.OutputsAgree | src/main.cpp:28-37 | if every message is of the first kind, all that is printed is the same |
| Session.ExecuteRemote | src/main.cpp:39-80 | on reliable streams remote execution returns the direct outcome, cut at 64 KiB, and prints every message frame by frame; on any streams it returns that or a connection error, never another outcome |
| Session.Execute | src/main.cpp:82-92 | remote and direct execution return and print the same when everything fits its frame; without root, direct execution is refused |
| Daemon.StepKeepsInv | src/daemon_main.cpp:189-361 | every step of every thread and process keeps the lock, name, counter and shutdown invariant |
| Daemon.AtMostOneIsCritical | src/controller.cpp:116-121 | of all workers, direct processes and the shutdown at most one is past the locks |
| Daemon.ShownNameMeansExecuting | src/daemon_main.cpp:204-244 | a non-empty name means that the mutex holder executes a mutating command |
| Daemon.CounterCountsWorkers | src/daemon_main.cpp:321-340 | the counter equals the workers that have not decremented it, plus a client whose thread is being started |
| Daemon.ShutdownRunsAlone | src/daemon_main.cpp:348-363 | the shutdown off starts and runs with no worker and no mutex taken |
| Daemon.NoDeadlock | src/daemon_main.cpp:203-254 | in every reachable state an unfinished actor can go on, or waits for one that can, or waits for one that waits for one that can |
| Controller.WriteListing | src/controller.cpp:91-100 | the loop yields heading, upstream line and one line per CIDR |
| Controller.ListingFitsOneFrame | src/controller.cpp:91-100 | a listing of at most 1037 CIDR texts of at most 49 characters fits 65536 bytes |
| Controller.CollectedIsModerate | src/bypass_policy.cpp:268-285 | a collected policy has at most 12 + 1024 texts and an upstream, each of at most 49 characters without comma or newline |
| Controller.PreviewFits | src/controller.cpp:84-90 | so does every preview of such a policy |
| Controller.ActiveListingFits | src/controller.cpp:75-83 | so does the listing read back from the state that start saved, which is the policy's list |
| Controller.BypassCommand | src/controller.cpp:63-101 | which listing is answered, of any recorded list or of a policy collected now, when it fails, and that it fits one frame for a list as a policy yields it |
| Controller.StartPlansAreRecordable | src/proxy_manager.cpp:395-404 | a valid configuration and a policy within those limits make a record the state file can hold exactly if executable and version are non-empty lines and the address holds no newline |
| Controller.ReportedListsAreListed | src/controller.cpp:75-83 | whatever an unlocked status reports at any steps of a run, its list is one that a policy can yield |
| Controller.BypassAfterRun | src/controller.cpp:63-101 | after any commands and crashes every answer to bypass fits one frame |

## Left out

- `src/process.cpp` and the fork, exec and pipe details of `spawnCore`: only its outcomes are modelled, a live child, a child that died since, or none.
- `src/upstream.cpp`: the resolved address enters as a value.
- `src/authorization.cpp`, socket creation, systemd activation and capability dropping: foreign calls without state of their own.
- `ensureDirectory`, `ensureTunDevice`, the interactive setting dialogue, `formatStatus` and log formatting: input and output, or easy claims only.
- The fields of `/proc/<pid>/stat` and the " (deleted)" suffix of `/proc/<pid>/exe`: a process has start ticks and an executable in the model.
- `FileLock` move semantics: the lock is a holder that the kernel frees when its process ends.
- AtomicWrite.WriteFileAtomic: does not model the sync of the directory, so it covers process crashes and readers, not a power loss after the rename.
- CoreManager.CoreManager.RepairCore: does not model the directory modes.
- BypassPolicy.ParseCidr: does not model the error messages, only that parsing fails.
- Message texts of `start` failures: each exit is a case of `ProxyManager.StartFailure` instead.
