# A verified model of the Pandora node agent

This project models, in Dafny 4.11, the stateful core of the node agent `pdnd/` and proves what its comments
promise. Each module follows one component, in the component's own form: objects that change are classes with
contracts and invariants, loops are loops with invariants, interleavings are step systems over which every run is
considered. Check it with `dafny verify dfyconfig.toml`.

What is modelled, by theme:

- **Traffic accounting.** `UserSessions` is the per-adapter table of connections, counters and revocations;
  `KernelTraffic` follows one tag's traffic through every generation of its adapter; `Report` is the report buffer,
  the link that may lose, repeat and reorder, and the panel that books each report id once; `Billing` runs kernel
  and report system together, from the relays' counters to the panel's books.
- **Roster and configuration.** `Roster` is the user table, the mirror and the diffs between lists; `NodeConfig` is
  the node installing configurations and lists under every mix of failures; `PortClaims` is the process-wide port
  table under concurrent applies and deletions; `Admission` is the race between authenticating and being deleted.
- **Streams.** `VisionReader`, `VisionWriter`, `VisionHello` and `TlsTap` are XTLS Vision; `VmessCodec`, `ShadowStreams` and
  `Ss2022Response` are the VMess, Shadowsocks and Shadowsocks 2022 streams over `BlockStream`, a reader of any block
  codec. `Aead` keeps encryption abstract: opening undoes sealing, and a sealed text is sixteen bytes longer.
- **Bounded queues, filters and slots.** `XhttpQueue` and `XhttpBroker` are the reordering queue and its shared byte
  budget; `ReplayFilter` and `SaltBloom` are the two replay filters; `UdpResources`, `UdpSessions` and `UotBridge` are
  quota and device slots; `GsoBatch` is batched sending.

Conventions. What the code leaves to the outside (random numbers, clocks, sockets, whether an adapter starts) is a
parameter or an arbitrary step. A run is a sequence of states from the initial one in which each state follows from
the last by a step; a theorem about `states[n]` of a run is about every reachable state. Ghost fields record what has
happened (`shipped`, `history`, `born`, `log`), so that a class invariant can speak of the whole past. Heap objects
whose identity matters to the code (sessions, counters, adapter generations, UDP sessions) are named by their index
in the order of creation where a step system needs them as values; the report's entries are objects, because the
claim there is that two parts of the program share none.

Five properties hold only under a condition:

- The Vision read side gives back exactly what was framed and sent, for every raw tail and every cut into reads, if and
  only if two things do not happen (`VisionReader.ReadsBackExactly`). Unpadding decides that padding is over from the
  command byte even in the middle of the last frame's header (`pdnd/kernel/vision.go:533-543`); a piece read behind such
  a cut makes it hand up too much (`VisionReader.ReadsTooMuch`). And while TLS recognition goes on behind an End frame,
  the first 21 raw bytes are looked at as if they might be a first frame (`pdnd/kernel/vision.go:283-299,457-478`; a
  comment there says that this is done only once per connection); if they look like one, at least sixteen bytes are lost
  (`VisionReader.ReadsTooLittle`, with an input in `VisionReader.TailTakenForFrame`).
- Traffic counted without holding the counter arrives, whatever happens to the table between looking it up and counting,
  if and only if no snapshot in between found the counter held by nobody (`UserSessions.UnheldCountArrives`, with a run in
  which it is lost).
- An id with a timestamp is accepted at most once if twice its window is within all but one of the kept periods
  (`ReplayFilter.Guard.Accept`), and with any wider window it can be accepted twice (`ReplayFilter.AcceptedTwice`).
- A connection that had looked a deleted user up is refused or closed if it registers within the keeping time of
  revocation markers (`Admission.NoneSlipsThrough`). Any connection is refused if and only if its user was revoked since
  it began and no later revocation pruned that marker (`Admission.RefusedExactly`), so that a slower one can be registered
  (`Admission.SlipsThroughLate`).
- Direct mode is enabled for TLS 1.3 with a strong suite if and only if the server hello has at least 79 bytes, its first
  packet reaches the cipher suite, and the bytes of the extension lie within one packet (`VisionHello.HelloRecognised`);
  these bytes are looked for anywhere in the hello, so that a random number with them is taken for the extension
  (`VisionHello.RandomTakenForExtension`).

## Model

| member | source | states |
|---|---|---|
| Report.SortKeys | pdnd/node/report.go:125-134 | the buffered keys come out strictly ordered by node and then uid, all of them and nothing else |
| Report.Order | pdnd/node/report.go:129-134 | that order is total, irreflexive and transitive, so a report's content is determined |
| Report.LessExactly | pdnd/node/report.go:129-134 | nodes come in the order of strings, by the first place where they differ, and users of one node by id |
| Report.AddStaysBounded | pdnd/node/report.go:78-86 | merging, making room or refusing keeps the buffer within 2^17 entries and never leaves an empty sealed report |
| Report.AddOneExactly | pdnd/node/report.go:72-94 | only a record whose user has nothing pending while 131072 entries are buffered costs anything: the report under way if there is one, else the record itself; any other adds its upload and download to what that user has pending and touches nothing else |
| Report.AddAllFits | pdnd/node/report.go:72-94 | a batch that fits costs nothing |
| Report.TrafficBuffer.AddRecord | pdnd/node/report.go:72-94 | one record changes the buffer's value as specified, drops nothing unless all 131072 places are taken by others, and changes the content of no report ever sealed |
| Report.TrafficBuffer.Add | pdnd/node/report.go:68-96 | a whole batch does; a batch that fits drops nothing; and the returned bytes are exactly what the drop counter grew by |
| Report.TrafficBuffer.Drop | pdnd/node/report.go:106-115 | dropping the sealed report counts it once with exactly its bytes |
| Report.TrafficBuffer.Seal | pdnd/node/report.go:121-140 | seals the least keys, at most 5000, with their amounts, leaves the others, and makes the sealed entries unreachable from pending; every earlier report keeps its content |
| Report.TrafficBuffer.Flush | pdnd/node/report.go:192-204 | sends the report under way unchanged, sealing one only if there is none; sends nothing when not connected |
| Report.TrafficBuffer.OnAck | pdnd/node/report.go:207-216 | only the acknowledgement of the report under way discards it; then the next one is sealed and sent |
| Report.TakesBalance | pdnd/node/report.go:135-139 | for every user and direction, sealing moves amounts from pending into the report and changes no total |
| Report.TakesSize | pdnd/node/report.go:135-139 | entries sealed and entries left add up to the entries there were |
| Report.AddBalance | pdnd/node/report.go:72-94 | a record is in pending or refused, and what had to make room is counted as dropped, for every user and direction |
| Report.DeliverKeepsBalance | pdnd/node/report.go:15-27 | a panel that books by report id books a report the first time it arrives and only then |
| Report.RetireKeepsBalance | pdnd/node/report.go:207-212 | retiring an acknowledged report loses nothing from the node's ledger |
| Report.StepKeeps | pdnd/node/report.go:68-216 | every step of node, link and panel keeps both ledgers exact and each sealed report acknowledged, dropped or under way |
| Report.NeverOvercounts | pdnd/node/report.go:13-27 | in every run with loss, repetition and reordering: acknowledged is at most booked is at most added, added is exactly acknowledged plus under way plus pending plus dropped plus refused, and the buffer is within its bound |
| Report.NothingLost | pdnd/node/report.go:13-27 | drained with nothing dropped, the panel has exactly what was added |
| Report.ResendsAreIdentical | pdnd/node/report.go:17-21 | two messages of one report id are the same, whatever was added in between |
| Report.DropsAreCounted | pdnd/node/report.go:53-55 | the drop counter is exactly the bytes of all dropped reports and refused records |
| Report.DropsOnlyWhenFull | pdnd/node/report.go:79-88 | in every run, what was dropped or refused grows exactly with a record of a user with nothing pending that finds 131072 entries buffered; every other record leaves the report under way |
| Report.AddedIsOffered | pdnd/node/report.go:72-94 | the node's ledger of added traffic is, per user and direction, the sum of all positive uploads or downloads handed to it |
| Report.NeverBooksMore | pdnd/node/report.go:13-27 | in every run the panel books at most what the kernel handed over |
| Report.FlushSends | pdnd/node/report.go:192-204 | connected, a flush sends the report under way unchanged, or seals and sends the next of at most 5000 entries; not connected it does nothing |
| Report.AckGoesOn | pdnd/node/report.go:207-216 | the acknowledgement of the report under way ends it and sends the next at once; no other acknowledgement does anything |
| Report.Drains | pdnd/node/report.go:13-27 | no run is stuck: every one can go on to an empty buffer with nothing more dropped |
| Report.DrainsInFull | pdnd/node/report.go:13-27 | and then, if nothing was dropped before, the panel has exactly what the kernel handed over |
| UserSessions.SessionTable.OpenSession | pdnd/kernel/user_sessions.go:83-104 | registers unless the user was revoked after the epoch, and only then refuses; keeps live, reference counts and findability of counters exact |
| UserSessions.SessionTable.CloseSession | pdnd/kernel/user_sessions.go:119-138 | takes exactly this connection off the table, counts it off once if it was registered, gives back exactly one reference of its counter, and does nothing when called again |
| UserSessions.SessionTable.RetainCounter | pdnd/kernel/user_sessions.go:153-159 | the counter returned is the one the next snapshot finds, and stays it until released |
| UserSessions.SessionTable.ReleaseCounter | pdnd/kernel/user_sessions.go:161-165 | gives back exactly one reference |
| UserSessions.SessionTable.Snapshot | pdnd/kernel/user_sessions.go:184-199 | reports for every user and direction exactly what was counted, leaves nothing, discards only counters nobody holds, touches no connection |
| UserSessions.SessionTable.Revoke | pdnd/kernel/user_sessions.go:203-232 | marks every id with a later number, prunes only old markers, and returns exactly the users' connections to close |
| UserSessions.VictimsAreTheirs | pdnd/kernel/user_sessions.go:213-224 | a connection is a victim if and only if it is registered for one of the revoked users |
| UserSessions.RevokeAllMarks | pdnd/kernel/user_sessions.go:213-224 | after revoking, each id has a marker above every earlier number and no connection, and other users keep theirs |
| UserSessions.OpenKeeps | pdnd/kernel/user_sessions.go:83-116 | registering keeps live equal to the registered connections, references equal to the holders, and held counters in the traffic map |
| UserSessions.CloseKeeps | pdnd/kernel/user_sessions.go:119-138 | closing keeps the same three |
| UserSessions.CloseExactly | pdnd/kernel/user_sessions.go:119-138 | after closing, the connection is registered for nobody and all others are as before; live falls by one exactly if it was registered; its counter loses one reference exactly if it was open |
| UserSessions.RetainKeeps | pdnd/kernel/user_sessions.go:106-159 | retaining keeps the same three |
| UserSessions.ReleaseKeeps | pdnd/kernel/user_sessions.go:161-165 | releasing keeps the same three |
| UserSessions.RevokeAllKeeps | pdnd/kernel/user_sessions.go:203-232 | revoking and pruning keep the same three |
| UserSessions.TakeKeeps | pdnd/kernel/user_sessions.go:188-197 | a snapshot keeps the same three |
| UserSessions.HeldCountArrives | pdnd/kernel/user_sessions.go:83-199 | bytes counted on a counter that a connection or a retain holds are in the next snapshot, and in no other user's |
| UserSessions.FoundNext | pdnd/kernel/user_sessions.go:83-232 | of all operations on the table only a snapshot that finds the user's counter held by nobody makes it another one, and for good |
| UserSessions.UnheldCountArrives | pdnd/kernel/user_sessions.go:168-199 | after any operations between lookup and count, the bytes counted without a hold are in the next snapshot if and only if no snapshot in between found the counter with no references |
| UserSessions.UnheldCountCanBeLost | pdnd/kernel/user_sessions.go:168-199 | a lookup, a snapshot and a count in this order lose the count |
| UserSessions.ValuesKept | pdnd/kernel/user_sessions.go:83-165 | registering, closing, retaining and revoking move no traffic |
| UserSessions.TakeZeroes | pdnd/kernel/user_sessions.go:188-197 | taking one user's counts leaves the others' |
| Admission.RegisterKeeps | pdnd/kernel/user_sessions.go:83-104 | registering in any interleaving keeps every stale connection due for refusal or closing |
| Admission.RevokeKeepsGood | pdnd/kernel/user_sessions.go:203-232 | so does revoking: markers cover every stale connection that has yet to register, and pruning takes none that still matters |
| Admission.RevokeLeaves | pdnd/kernel/user_sessions.go:213-232 | a marker that covers a user is pruned only when it is older than the keeping time |
| Admission.DeleteKeeps | pdnd/kernel/vless_users.go:65-83 | deleting from the table before revoking leaves every connection that had looked the user up due |
| Admission.NoneSlipsThrough | pdnd/kernel/user_sessions.go:27-30 | in every interleaving, once a deletion has finished no connection that had looked the user up is registered, and one yet to register is refused, if it registers within the markers' keeping time of its epoch |
| Admission.RefusedExactly | pdnd/kernel/user_sessions.go:83-89 | in every run a connection about to register is refused if and only if its user was revoked after it read its epoch and no later revocation of others left more than 1024 markers with that one older than 120 seconds |
| Admission.MarkerNext | pdnd/kernel/user_sessions.go:203-232 | a step makes a user count as revoked since an epoch exactly by revoking that user, and undoes it exactly by pruning |
| Admission.SlipsThroughLate | pdnd/kernel/user_sessions.go:203-232 | the condition is needed: a run in which a slower one is registered, after more than 1024 markers made an old one be pruned |
| Admission.RegisteredAreVictims | pdnd/kernel/user_sessions.go:213-238 | a stale connection that did register is among the connections the revocation closes |
| Admission.LiveIsRegistered | pdnd/kernel/user_sessions.go:255-259 | in every run the live count is the number of registered connections |
| Admission.FinishedForGood | pdnd/kernel/user_sessions.go:119-138 | in every run, once a connection has finished, its session is never registered again, for anyone |
| Admission.DeletedIsNotFound | pdnd/kernel/vless_users.go:65-83 | deleting takes exactly the listed credentials out of the table and is followed by revoking exactly their users |
| KernelTraffic.CountStepKeeps | pdnd/kernel/user_sessions.go:140-149 | counting through a held counter conserves the total |
| KernelTraffic.SessionStepKeeps | pdnd/kernel/user_sessions.go:83-165 | so does every session operation of any generation |
| KernelTraffic.StashKeeps | pdnd/kernel/port_claims.go:237-248 | so does stashing a closed generation's traffic |
| KernelTraffic.ReadKeeps | pdnd/kernel/nativecore.go:492-522 | so does GetTraffic between its two critical sections, with a published, missing, closed or failing inbound |
| KernelTraffic.ReadHandsOut | pdnd/kernel/nativecore.go:492-522 | a read hands out all that was retired and all its generation has counted, and leaves that at zero; a failed one hands out nothing and puts the retired traffic back |
| KernelTraffic.StashTakes | pdnd/kernel/port_claims.go:237-248 | stashing retires exactly what the closed generation had counted |
| KernelTraffic.OtherStepKeeps | pdnd/kernel/port_claims.go:251-255 | so do taking the retired traffic, publishing, unpublishing and closing |
| KernelTraffic.TrafficIsConserved | pdnd/kernel/nativecore.go:490-522 | in every interleaving of relays, reads, replacements, deletions and failed snapshots, for every user and direction: counted is exactly handed out plus in a reader's hand plus stashed plus live |
| KernelTraffic.TagTraffic.GetTraffic | pdnd/kernel/nativecore.go:492-522 | succeeds exactly if the snapshot does, or without an inbound if anything was retired; then it hands out everything owed, else nothing, and nothing is lost |
| KernelTraffic.TagTraffic.Replace | pdnd/kernel/nativecore.go:299-306 | replacing or removing an inbound leaves what is owed to every user as it was |
| KernelTraffic.TagTraffic.Stash | pdnd/kernel/port_claims.go:237-248 | the old inbound's counts move to the retired traffic, all of them and once |
| Billing.StepKeeps | pdnd/node/report.go:174-188 | collecting, buffering and reporting together keep every byte handed out buffered or about to be, exactly once |
| Billing.NeverBilledForMore | pdnd/node/report.go:13-27 | in every run of kernel, buffer, link and panel, no user is booked for more than the relays counted for that user |
| Billing.BilledInFull | pdnd/node/report.go:13-27 | collected, sent and acknowledged with nothing dropped, every user is booked for exactly what was counted |
| PortClaims.Conflict | pdnd/kernel/port_claims.go:160-190 | reports a conflict exactly if another tag holds one of the keys: the first such key, its holder, and all transports that holder has among the keys |
| PortClaims.ReleasePorts | pdnd/kernel/port_claims.go:208-221 | frees exactly the tag's own keys that are released and not kept |
| PortClaims.NativeCore.ApplyInbound | pdnd/kernel/nativecore.go:213-379 | refused exactly for a conflict or a candidate that cannot be built, and then nothing changes; published exactly if it starts, restored exactly if it does not and the previous one does again, lost otherwise; each leaves exactly the claims of the inbound that then serves, restored the claims as they were |
| PortClaims.NativeCore.TakeOver | pdnd/kernel/nativecore.go:268-306 | claiming before taking the old inbound down keeps every port claimed by exactly its holder |
| PortClaims.NativeCore.Settle | pdnd/kernel/nativecore.go:308-370 | however starting and restoring turn out, only the surviving inbound's keys stay claimed |
| PortClaims.NativeCore.DelInbound | pdnd/kernel/nativecore.go:415-437 | after a deletion the tag holds no key |
| PortClaims.OwnKeeps | pdnd/kernel/nativecore.go:233-379 | a step of a tag keeps its own claims exact and touches no key of another |
| PortClaims.StepKeeps | pdnd/kernel/nativecore.go:233-437 | every step keeps all claims exact |
| PortClaims.ClaimsAreExact | pdnd/kernel/nativecore.go:233-437 | in every interleaving of applies and deletions, a key is claimed by a tag if and only if it is among that tag's inbound's ports or being claimed by its apply under way |
| PortClaims.InboundsAreDisjoint | pdnd/kernel/port_claims.go:14-31 | two published inbounds never share a port and transport |
| PortClaims.ApplyEndsExact | pdnd/kernel/nativecore.go:308-370 | when no apply of a tag is under way, it holds exactly its published inbound's ports |
| PortClaims.BeginChecks | pdnd/kernel/nativecore.go:233-243 | an apply gets past its check exactly if no other tag holds one of its ports |
| PortClaims.CanPublish | pdnd/kernel/nativecore.go:268-373 | and then it can go all the way: its inbound is published with its ports, and no other tag's inbound is touched |
| PortClaims.FailedApplyLeavesNoTrace | pdnd/kernel/nativecore.go:233-353 | in every run: applies of a tag that were refused at either check, abandoned, or failed with the previous inbound started again leave its inbound and its claims as they were, whatever other tags do meanwhile |
| Roster.UserTable.AddUsers | pdnd/kernel/vless_users.go:18-39 | all or nothing on validity; credentials already present keep their record |
| Roster.UserTable.UpsertUsers | pdnd/kernel/vless_users.go:41-63 | all or nothing on validity; the last record of a credential wins |
| Roster.UserTable.DelUsers | pdnd/kernel/vless_users.go:65-83 | removes exactly the credentials given and returns exactly the ids of the users removed |
| Roster.Normalize | pdnd/node/users.go:82-97 | one record per id, the last with a credential, and none without |
| Roster.DeltaTargets | pdnd/node/users.go:176-200 | both short forms and the general form give one record per id, the last one, removals first |
| Roster.DiffLists | pdnd/node/users.go:26-43 | the three lists are exactly the changed credentials, the users to add and the users to update |
| Roster.DeltaLists | pdnd/node/users.go:138-157 | a delta's lists are exactly the difference between the mirror and the patched mirror |
| Roster.PatchMirror | pdnd/node/users.go:161-167 | writing the records one by one patches the mirror as a whole |
| Roster.WantedArrives | pdnd/node/users.go:59-76 | every wanted user ends up in the table under their own credential, also when credentials are swapped or moved |
| Roster.NothingElseStays | pdnd/node/users.go:59-76 | no credential outside the wanted list survives |
| Roster.NobodyIsKicked | pdnd/node/users.go:14-42 | a user whose credential stays is neither deleted nor added again, and is updated exactly if something else changed |
| Roster.DeltaMeans | pdnd/node/users.go:131-137 | what a delta makes of an id: the last upserted record, nothing if that has no credential, nothing if only removed, else what it was |
| Roster.WantIsLatest | pdnd/node/users.go:18-25 | of a full list the last record of an id that has a credential counts |
| Roster.AddAllFirst | pdnd/kernel/vless_users.go:33-37 | of several new records with one credential the first is added |
| Roster.UpsertAllLast | pdnd/kernel/vless_users.go:56-61 | and the last is upserted |
| Roster.DiffApplies | pdnd/node/users.go:54-76 | delete, then add, then upsert takes a table that agrees with the old mirror to one that agrees with the new, whatever the order inside each list |
| Roster.AgreeIsExact | pdnd/node/users.go:11-16 | a mirror determines the table that agrees with it |
| Roster.DeltaRefinesFullList | pdnd/node/users.go:131-170 | a delta and the full list it amounts to lead to the same table |
| NodeConfig.Node.ApplyThroughCore | pdnd/kernel/nativecore.go:213-379 | run through the port table, the node is told that an inbound serves exactly when one is published, that the previous one is preserved exactly when it still is with its claims unchanged, and its idea of the published inbound stays with the core's |
| NodeConfig.Node.MarkInboundLost | pdnd/node/users.go:126-129 | the node is stopped with an empty mirror and no version |
| NodeConfig.Node.PrepareInstallUsers | pdnd/node/install_users.go:35-54 | the list comes from the mirror, else from what was staged, else from the cache, else is empty, one record per id |
| NodeConfig.Node.AdoptInstalledUsers | pdnd/node/install_users.go:57-78 | the mirror becomes what went in with the inbound, or empty if that did not load, and then the panel is told |
| NodeConfig.Node.KeepPrevious | pdnd/node/config_apply.go:69-77 | a preserved inbound serves the mirror's users again exactly if they can be added, else the node is marked lost and the panel told |
| NodeConfig.Node.PutPreviousBack | pdnd/node/config_apply.go:82-96 | a reinstalled previous configuration serves the mirror's users again exactly if it starts and they can be added, else the node is marked lost and the panel told |
| NodeConfig.Node.ApplyConfigOnce | pdnd/node/config_apply.go:55-106 | an apply succeeds exactly if the kernel serves it; a loaded list is then the node's own, else the staged, else the cached one, with its version; a list that did not load leaves no users and a refusal for its version; after a failure a started node stays started exactly if the previous inbound was kept or put back and its users could be added; under every mix of failures started means that the kernel publishes the active configuration and type with a table equal to the mirror |
| NodeConfig.Node.ApplyKernelUsers | pdnd/node/users.go:59-76 | success means all three changes are in the table; failure changes nothing but users |
| NodeConfig.Node.ApplyUsers | pdnd/node/users.go:17-52 | success leaves kernel and mirror both at the wanted list, failure leaves the mirror |
| NodeConfig.Node.ApplyUserDelta | pdnd/node/users.go:138-170 | success leaves kernel and mirror both at the patched list, failure leaves the mirror |
| NodeConfig.Node.OnUsersFull | pdnd/node/users.go:219-246 | a list that cannot be installed yet is staged; an installed one sets the version it is acknowledged with, a failed one clears it |
| NodeConfig.Node.OnUsersDelta | pdnd/node/users.go:250-275 | a delta is applied only on exactly the version it starts from, and otherwise changes nothing |
| NodeConfig.LoadAgrees | pdnd/node/install_users.go:10-20 | a fresh table loaded with a list agrees with that list |
| NodeConfig.ReloadAgrees | pdnd/node/config_apply.go:69-96 | putting a mirror's users back agrees with the mirror, into an emptied table and into an untouched one |
| VisionReader.FeedFrame | pdnd/kernel/vision.go:481-529 | the byte-level parser takes one frame to its content and the next header, or to the end of padding |
| VisionReader.FeedStream | pdnd/kernel/vision.go:452-545 | a whole padded stream and its raw tail parse back to what was framed |
| VisionReader.FrameLayout | pdnd/kernel/vision.go:606-636 | a frame on the wire: command, content and padding length with the high byte first, content, padding |
| VisionReader.VisionState.MatchCandidate | pdnd/kernel/vision.go:429-444 | finds a candidate exactly if the piece opens with an authorised UUID and a legal command |
| VisionReader.VisionState.TakeBlock | pdnd/kernel/vision.go:481-529 | one round of the loop does exactly what the byte-level parser does on the bytes it takes, and takes some |
| VisionReader.VisionState.Strip | pdnd/kernel/vision.go:480-529 | the loop over a piece is the byte-level parser on that piece |
| VisionReader.VisionState.Unpad | pdnd/kernel/vision.go:452-545 | one call, with probing, pending bytes and flags, is the reference reader's step |
| VisionReader.FeedAppend | pdnd/kernel/vision.go:452-545 | parsing a stream in two pieces is parsing it whole |
| VisionReader.SentPosition | pdnd/kernel/vision.go:533-543 | after any prefix of a sent stream: padding is over exactly past the last frame, and the flags are set early exactly at a cut inside the last frame's header |
| VisionReader.RunAgrees | pdnd/kernel/vision.go:254-342 | undisturbed by a spoiling cut or raw bytes taken for a first frame, the connection agrees with the byte-level parser after every read |
| VisionReader.ReadsBack | pdnd/kernel/vision.go:254-342 | then it hands up exactly the framed contents and the tail |
| VisionReader.GivesUpAt | pdnd/kernel/vision.go:533-543 | at the first spoiling cut exactly the contents framed so far have been handed up |
| VisionReader.ReadsTooMuch | pdnd/kernel/vision.go:533-543 | behind it more is handed up than was sent as content |
| VisionReader.ReprobedIsReprobes | pdnd/kernel/vision.go:283-299 | past an End frame, a read is taken for a first frame exactly if filtering goes on, fewer than 21 bytes had come in since, and with this piece they look like one |
| VisionReader.ReadsTooLittle | pdnd/kernel/vision.go:283-309 | from the first such read on at least sixteen of the bytes sent are missing |
| VisionReader.TailTakenForFrame | pdnd/kernel/vision.go:283-309 | an input for it: a tail that opens with the user's own UUID and a legal command, read by itself |
| VisionReader.ReadsBackExactly | pdnd/kernel/vision.go:254-342 | for every raw tail and every cut of the stream into reads: handed up is exactly what was framed and sent if and only if no piece is read behind a spoiling cut and none completes raw bytes that look like a first frame while filtering goes on |
| VisionReader.FlagsFlipAtLastFrame | pdnd/kernel/vision.go:531-543 | undisturbed, the padding flags change in the very read that completes the last frame, and the direct flag exactly if that frame is Direct |
| VisionReader.PassesThrough | pdnd/kernel/vision.go:452-478 | past the padding a piece is handed up untouched if and only if it does not open like a first frame |
| VisionWriter.ChunksFit | pdnd/kernel/vision.go:655-673 | cutting an overlong write loses nothing, every chunk fits one frame, and a write shorter than 8171 bytes is not cut |
| VisionWriter.CutAtLastRecord | pdnd/kernel/vision.go:655-673 | the cut is the last place between 21 and 8168 where an application-data record seems to start, or else at 4096 |
| VisionWriter.Reshape | pdnd/kernel/vision.go:655-673 | the loop cuts at the last record start, else at half a buffer, until the rest fits |
| VisionWriter.IsCompleteTLSRecord | pdnd/kernel/vision.go:678-693 | the loop decides whether the data is whole records |
| VisionWriter.RecordsAreComplete | pdnd/kernel/vision.go:678-693 | every sequence of whole application-data records is recognised |
| VisionWriter.CompleteAreRecords | pdnd/kernel/vision.go:678-693 | and nothing else is |
| VisionWriter.EndsPaddingExactly | pdnd/kernel/vision.go:559-600 | a write ends the padding if and only if recognition of traffic below TLS 1.2 has run out, or the traffic is TLS and the write is whole application-data records of at least six bytes |
| VisionWriter.FilterStaysSound | pdnd/kernel/vision.go:701-745 | after any packets, XTLS is enabled only for TLS 1.2 or above |
| VisionHello.Layout | pdnd/kernel/vision.go:706-718 | the fields of a server hello record lie where recognition reads them |
| VisionHello.Begins | pdnd/kernel/vision.go:701-743 | the packet a server hello begins in sets TLS, its version and, if long enough, the cipher suite |
| VisionHello.HelloRecognised | pdnd/kernel/vision.go:701-743 | a server hello, whole or in several packets, ends recognition as TLS 1.2 or later, and enables direct mode if and only if it has 79 bytes, the first packet reaches the suite, the suite is 0x1301 to 0x1304, and the extension selecting TLS 1.3 lies within one packet |
| VisionHello.WholeHelloRecognised | pdnd/kernel/vision.go:701-743 | the same for one packet, with any data behind it |
| VisionHello.ExtensionIsContained | pdnd/kernel/vision.go:725-738 | a hello with that extension anywhere among its extensions is one that contains it |
| VisionHello.RandomTakenForExtension | pdnd/kernel/vision.go:725-738 | its bytes in the random number are taken for it |
| VisionHello.ClientHelloSeen | pdnd/kernel/vision.go:720-721 | a client hello marks the traffic as TLS and nothing else |
| VisionHello.OtherDataSeen | pdnd/kernel/vision.go:701-745 | other data marks nothing |
| VisionHello.DirectBehindHello | pdnd/kernel/vision.go:380-417 | behind a hello of a strong suite with TLS 1.3 selected, a write of whole application records ends the padding with a Direct frame |
| VisionWriter.PaddingLength | pdnd/kernel/vision.go:607-619 | whatever the random number, content and padding fit one frame; short content of TLS traffic is padded to between 900 and 1399 bytes, other by less than 256 |
| VisionWriter.VisionWriter.Pad | pdnd/kernel/vision.go:606-636 | one well-formed frame of at most 8192 bytes with the given command and content, the UUID in the first only |
| VisionWriter.VisionWriter.PadChunk | pdnd/kernel/vision.go:559-600 | one chunk's frame, and padding ends here exactly for inner data or early for traffic that is not TLS |
| VisionWriter.VisionWriter.BuildPaddedFrames | pdnd/kernel/vision.go:553-602 | exactly the last padded frame of a write that ends padding carries End or Direct, raw chunks follow only it, every frame fits in 8192 bytes, and the direct flag is set exactly if that frame is Direct |
| VisionWriter.VisionWriter.Observe | pdnd/kernel/vision.go:310-312 | what the read side shows the shared recognition keeps the writer's invariant |
| VisionWriter.VisionWriter.Write | pdnd/kernel/vision.go:380-417 | every write's bytes are in the log of frames and raw chunks exactly once; once padding is over, data goes out as it is |
| VisionWriter.AsStream | pdnd/kernel/vision.go:553-602 | what a connection sent is a well-formed stream whose contents are the bytes written |
| VisionWriter.VisionRoundTrip | pdnd/kernel/vision.go:254-602 | for all writes and all cuts by the peer's reads, the peer hands up exactly the bytes written if and only if it never reads behind a spoiling cut and never takes raw bytes for a first frame |
| VisionWriter.PaddedSoFar | pdnd/kernel/vision.go:553-602 | while padding goes on, everything written is in the frames already sent |
| TlsTap.ParseBody | pdnd/kernel/vision_tls_tap.go:134-155 | skipping a stretch of record body is parsing it byte by byte |
| TlsTap.RecordEndUnique | pdnd/kernel/vision_tls_tap.go:108-131 | a piece has one place where the current record ends |
| TlsTap.RecordEndOfRecord | pdnd/kernel/vision_tls_tap.go:108-131 | that is where a record laid out as in section 5.1 of RFC 8446 ends |
| TlsTap.Tap.RecordEndOf | pdnd/kernel/vision_tls_tap.go:108-131 | finds that place for every piece and every parser position |
| TlsTap.Tap.Advance | pdnd/kernel/vision_tls_tap.go:134-155 | header bytes, their count and the body left are the parser's state after the bytes handed up |
| TlsTap.Tap.Deliver | pdnd/kernel/vision_tls_tap.go:84-98 | hands up held bytes in order, and while aligned never past the end of a record |
| TlsTap.Tap.ReadAligned | pdnd/kernel/vision_tls_tap.go:62-80 | hands up the bytes read to the end of the current record and holds the rest with the socket's error |
| TlsTap.Tap.Read | pdnd/kernel/vision_tls_tap.go:51-81 | handed up and held together are exactly the bytes read, in order, and no result crosses a record boundary while aligned |
| TlsTap.Tap.Passthrough | pdnd/kernel/vision_tls_tap.go:158-162 | giving up alignment loses no held byte |
| TlsTap.Tap.SwitchDirect | pdnd/kernel/vision_tls_tap.go:166-173 | returns exactly the bytes read and never handed up |
| BlockStream.ReadSizesDoNotMatter | pdnd/kernel/vmess_codec.go:136-219 | whatever sizes a block stream is read with, what comes out next is the decoded data in order |
| BlockStream.ReadsAll | pdnd/kernel/shadowsocks.go:419-474 | enough positive reads hand up everything and then the end |
| BlockStream.AllChunksLoseNothing | pdnd/kernel/vmess_codec.go:264-308 | splitting writes into chunks loses nothing |
| BlockStream.SplitIsFull | pdnd/kernel/vmess_codec.go:262-269 | every chunk of a write but the last is as long as can be, and a short write is one chunk |
| VmessCodec.LengthFits | pdnd/kernel/vmess_codec.go:251-300 | no chunk's length with tag and padding overflows sixteen bits, for every option and padding |
| VmessCodec.DecodeUndoesEncode | pdnd/kernel/vmess_codec.go:136-219 | decoding a chunk undoes encoding it, drawing the same words of the mask stream, and no data chunk looks like the end |
| VmessCodec.ChunkLayout | pdnd/kernel/vmess_codec.go:270-300 | the i-th chunk on the wire: the length masked with the word drawn after the one for the padding length, the text sealed under a nonce that starts with the counter i, the padding |
| VmessCodec.NoncesDiffer | pdnd/kernel/vmess_codec.go:276-280 | no nonce comes again within 2^16 chunks |
| VmessCodec.XorBits | pdnd/kernel/vmess_codec.go:292-297 | a masked length differs from the length in exactly the bits of the mask |
| VmessCodec.TruncatedIsBroken | pdnd/kernel/vmess_codec.go:146-200 | a chunk cut short is an error, never an end or other data |
| VmessCodec.ChunkWriter.WriteChunk | pdnd/kernel/vmess_codec.go:270-305 | one chunk drawn from the mask stream in the order padding, then mask |
| VmessCodec.ChunkWriter.Write | pdnd/kernel/vmess_codec.go:251-310 | a write is the encoding of its chunks at consecutive turns |
| VmessCodec.ChunkReader.NextChunk | pdnd/kernel/vmess_codec.go:146-208 | one chunk off the connection is the reference decoder's, errors and end included |
| VmessCodec.ChunkReader.Read | pdnd/kernel/vmess_codec.go:136-219 | a read is the block reader's, whatever was left over before |
| VmessCodec.OutputIsChunks | pdnd/kernel/vmess_codec.go:251-310 | all writes together are the encoding of all chunks of at most 15000 bytes, or 65455 for packets, each turn following the last |
| VmessCodec.VmessRoundTrip | pdnd/kernel/vmess_codec.go:136-310 | for every option, partition into writes and sequence of read sizes, and whether the stream ends with the empty chunk or is just closed, the reader hands up exactly the bytes written and then the end |
| ShadowStreams.FillNonce | pdnd/kernel/shadowsocks.go:410-417 | the loop that stops at the highest byte writes the whole little-endian counter |
| ShadowStreams.NonceBytes | pdnd/kernel/shadowsocks.go:410-417 | byte i of a nonce is byte i of the counter, least significant first |
| ShadowStreams.NoncesDiffer | pdnd/kernel/shadowsocks.go:410-417 | different 64-bit counters give different nonces |
| ShadowStreams.BlocksUseFreshNonces | pdnd/kernel/shadowsocks.go:476-503 | no two blocks of one direction share a nonce before the counter wraps around |
| ShadowStreams.DecodeUndoesEncode | pdnd/kernel/shadowsocks.go:419-503 | decoding a block undoes encoding it, whatever follows |
| ShadowStreams.BlockLayout | pdnd/kernel/shadowsocks.go:419-503 | the i-th block: its length sealed under counter 2i, its content under the next |
| ShadowStreams.TruncatedIsBroken | pdnd/kernel/shadowsocks.go:419-503 | a block cut short is an error, never an end or other data |
| ShadowStreams.SsStream.NextBlock | pdnd/kernel/shadowsocks.go:429-466 | one block off the connection is the reference decoder's, errors and end included |
| ShadowStreams.SsStream.Read | pdnd/kernel/shadowsocks.go:419-474 | decrypting in place and through a pooled buffer both are the block reader's read |
| ShadowStreams.SsStream.Write | pdnd/kernel/shadowsocks.go:476-503 | a write is the encoding of its chunks at consecutive counters |
| ShadowStreams.OutputIsBlocks | pdnd/kernel/shadowsocks.go:476-503 | all writes together are the encoding of all chunks |
| ShadowStreams.ShadowsocksRoundTrip | pdnd/kernel/shadowsocks.go:419-503 | for every partition into writes and sequence of read sizes, exactly the bytes written are handed up and then the end |
| Ss2022Response.ResponseWriter.Send | pdnd/kernel/shadowsocks2022_stream.go:147-186 | a packet takes the next two counters whether or not it reaches the connection; the header stays due until one does |
| Ss2022Response.ResponseWriter.Write | pdnd/kernel/shadowsocks2022_stream.go:105-144 | header first and data once, in order, up to the reported count, which is the whole of the data or 16383 bytes for each write to the connection that succeeded |
| Ss2022Response.ResponseWriter.CloseWrite | pdnd/kernel/shadowsocks2022_stream.go:188-200 | sends the header alone if none was sent, and otherwise nothing |
| Ss2022Response.FixedHeaderFields | pdnd/kernel/shadowsocks2022_stream.go:157-172 | the header's fields read back: type, time, the request's salt, the first block's length |
| Ss2022Response.ClientOpensHeader | pdnd/kernel/shadowsocks2022_stream.go:147-186 | a client that reads a block of exactly the declared length recovers header and first block and nothing beyond |
| Ss2022Response.ClientReadsAll | pdnd/kernel/shadowsocks2022_stream.go:105-200 | one header, first, then every block in order: a client recovers exactly the data written |
| XhttpQueue.PacketQueue.PushPacket | pdnd/kernel/xhttp_packet.go:47-74 | stale exactly below the expected number; stored exactly if open, new, and within all limits, and then under its number next to what was there; otherwise nothing changes |
| XhttpQueue.PacketQueue.TryPush | pdnd/kernel/xhttp_packet.go:139-201 | an attempt of a waiting writer with a number: as above, but a packet already queued is an error |
| XhttpQueue.PacketQueue.TryAppend | pdnd/kernel/xhttp_packet.go:145-201 | an attempt of an appending writer takes the next free number only when it stores, so giving up leaves no hole |
| XhttpQueue.PacketQueue.ReadPacket | pdnd/kernel/xhttp_packet.go:203-236 | delivers exactly the expected number with the first payload stored under it |
| XhttpQueue.PacketQueue.ResumeFrom | pdnd/kernel/xhttp_packet.go:241-262 | moves forward only, drops exactly what lies below, and gives exactly its bytes back |
| XhttpQueue.PacketQueue.UseBudget | pdnd/kernel/xhttp_packet.go:105-109 | a new session's queue counts against the budget from its first byte |
| XhttpQueue.PacketQueue.LeaveBudget | pdnd/kernel/xhttp_packet.go:112-120 | the budget gets back exactly what the queue holds, once |
| XhttpQueue.PacketQueue.DiscardAll | pdnd/kernel/xhttp_packet.go:123-133 | nothing waits any more and the budget has it all back, unless the queue had left it |
| XhttpQueue.PacketQueue.ChargeFor | pdnd/kernel/xhttp_packet.go:78-86 | charges both the queue and the budget, or neither |
| XhttpQueue.SharedBudget.Take | pdnd/kernel/xhttp_budget.go:48-56 | takes all or nothing, never over the limit |
| XhttpQueue.StoreIsTold | pdnd/kernel/xhttp_packet.go:96-102 | storing keeps the history true: order, first payloads, and the appended order when there are only appending writers |
| XhttpQueue.ReadIsTold | pdnd/kernel/xhttp_packet.go:211-222 | so does reading: no gap, no repeat, and append order |
| XhttpQueue.ResumeIsTold | pdnd/kernel/xhttp_packet.go:241-262 | so does resuming, the only place where the order restarts |
| XhttpQueue.PushKeeps | pdnd/kernel/xhttp_packet.go:47-102 | pushing keeps held bytes equal to the waiting payloads, waiting keys at or above next, both limits, and moves the budget by the same amount |
| XhttpQueue.ReordersAll | pdnd/kernel/xhttp_packet.go:47-74 | the next packets, pushed in any order for which there is room, are read in the order of their numbers, each with its payload |
| XhttpQueue.PushAllStores | pdnd/kernel/xhttp_packet.go:47-74 | pushed in any order within the limits, every packet waits under its number, and what waited before still does |
| XhttpQueue.AppendKeeps | pdnd/kernel/xhttp_packet.go:145-201 | appending keeps the same and never hits a number in use |
| XhttpQueue.ReadKeeps | pdnd/kernel/xhttp_packet.go:203-236 | reading keeps the same |
| XhttpQueue.ResumeKeeps | pdnd/kernel/xhttp_packet.go:241-262 | resuming keeps the same |
| XhttpQueue.DiscardKeeps | pdnd/kernel/xhttp_packet.go:123-133 | discarding keeps the same and takes the queue off the budget |
| XhttpBroker.QueueSteps | pdnd/kernel/xhttp_packet.go:78-133 | every step on a queue changes the shared budget by exactly what it changes in the queue |
| XhttpBroker.SessionsExact | pdnd/kernel/xhttp_packet.go:385-425 | authenticating, closing and expiring keep the unauthenticated count equal to the flagged sessions, each counted once |
| XhttpBroker.OpenExact | pdnd/kernel/xhttp_packet.go:342-371 | so does opening, which is refused at the limits |
| XhttpBroker.StepKeepsAccounted | pdnd/kernel/xhttp_budget.go:101-112 | a queue on the budget belongs to an unauthenticated session or is about to be taken off |
| XhttpBroker.Broker.OpenDuplex | pdnd/kernel/xhttp_packet.go:342-371 | an existing session is found whatever the limits, a new one opens only within both; the unauthenticated count stays the number of flagged sessions |
| XhttpBroker.Broker.Authenticated | pdnd/kernel/xhttp_budget.go:101-112 | only the first authentication of a session takes it off the count and names its queue |
| XhttpBroker.Broker.CloseSession | pdnd/kernel/xhttp_packet.go:385-401 | ends that session alone and takes it off the count exactly if it was unauthenticated |
| XhttpBroker.Broker.Expire | pdnd/kernel/xhttp_packet.go:403-425 | the loop ends exactly the idle sessions, names exactly their queues, and leaves the count exact |
| XhttpBroker.BudgetIsExact | pdnd/kernel/xhttp_packet.go:342-425 | in every interleaving over all sessions: the budget's use is exactly what the attached queues hold and within its limit, and the unauthenticated count is exact |
| XhttpBroker.AllReturned | pdnd/kernel/xhttp_packet.go:385-425 | once every session has ended and been cleaned up, both are zero |
| XhttpBroker.CanOpen | pdnd/kernel/xhttp_packet.go:342-371 | a session can be opened whenever there are fewer than 8192, and fewer than 256 unauthenticated |
| XhttpBroker.AuthenticatedIsFree | pdnd/kernel/xhttp_budget.go:101-112 | authenticating takes the session's queue off the budget and gives back what it holds, and keeps what waits |
| XhttpBroker.EndingIsEmptied | pdnd/kernel/xhttp_packet.go:385-401 | ending a session closes its queue, drops what waits and gives exactly that back |
| ReplayFilter.Filter.Shift | pdnd/kernel/replay_filter.go:82-86 | moves every generation one back in place and drops the oldest |
| ReplayFilter.Filter.Rotate | pdnd/kernel/replay_filter.go:62-79 | begins as many generations as periods have passed and keeps every key in the generation of its time |
| ReplayFilter.Filter.Check | pdnd/kernel/replay_filter.go:45-60 | always: an accepted key is refused exactly until as many generations have begun as are kept, by time or because one was full; unless a full one was cut short: for at least all but one of the kept periods and at most all of them |
| ReplayFilter.KeptPeriods | pdnd/kernel/replay_filter.go:45-79 | with generations of one period each, a key is found for at least all but one of the kept periods after its time and never after all of them |
| ReplayFilter.WithinShifts | pdnd/kernel/replay_filter.go:70-78 | beginning m generations later puts every time m generations further back |
| ReplayFilter.KeptWhile | pdnd/kernel/replay_filter.go:49-53 | a key is in some generation exactly while its time is not before the oldest |
| ReplayFilter.CountBounded | pdnd/kernel/replay_filter.go:54-57 | all generations together hold at most what each may, times how many are kept |
| ReplayFilter.Guard.Accept | pdnd/kernel/vmess.go:611-627 | accepted again exactly if within the window and all generations since have been dropped; if twice the window is within all but one of the kept periods and no generation was cut short, no id is accepted a second time |
| ReplayFilter.AcceptedTwice | pdnd/kernel/vmess.go:611-627 | for every wider window an id is accepted twice: at the end of a generation and when that is dropped |
| SaltBloom.Bit | pdnd/kernel/replay_filter_bloom.go:198-200 | every computed bit lies inside the block, for all hashes |
| SaltBloom.Block.Test | pdnd/kernel/replay_filter_bloom.go:202-213 | says yes to everything added, and only if each probed bit was set by something added; an empty block says no to everything |
| SaltBloom.Block.Add | pdnd/kernel/replay_filter_bloom.go:215-221 | sets the salt's bits and no other, and clears nobody's, within the block's capacity |
| SaltBloom.Chain.Expire | pdnd/kernel/replay_filter_bloom.go:134-158 | drops only salts accepted a period ago or more, and sizes the next generation by the last |
| SaltBloom.Chain.DropOldest | pdnd/kernel/replay_filter_bloom.go:121-125 | makes room from the oldest end only, and never drops the newest block |
| SaltBloom.Chain.Append | pdnd/kernel/replay_filter_bloom.go:120-131 | the chain grows by one block of the current generation within twice the largest size |
| SaltBloom.Chain.Current | pdnd/kernel/replay_filter_bloom.go:93-116 | the block written to has room and is of the current generation; a full one is followed by one of twice its size |
| SaltBloom.Chain.Check | pdnd/kernel/replay_filter_bloom.go:85-108 | a salt accepted at some time is refused by every check before that time plus the period, unless the very block it went into was dropped for space; a refusal means that some block has all its bits |
| SaltBloom.RemembersSuffix | pdnd/kernel/replay_filter_bloom.go:120-125 | dropping the oldest blocks forgets only what went into them |
| SaltBloom.ForgottenByThen | pdnd/kernel/replay_filter_bloom.go:139-157 | whatever a change of generation drops was accepted a period ago or more |
| UdpResources.UdpSessionQuota.Acquire | pdnd/kernel/udp_session_quota.go:32-47 | one slot more exactly if the user is below the limit, and nobody else changes |
| UdpResources.UdpSessionQuota.Release | pdnd/kernel/udp_session_quota.go:50-62 | one slot less, never below zero |
| UdpResources.OnlineDevices.Enter | pdnd/kernel/online_devices.go:35-56 | a device already online always enters; a new one only below the user's limit |
| UdpResources.OnlineDevices.Leave | pdnd/kernel/online_devices.go:60-77 | undoes one entry; the device goes with its last connection, the user with the last device |
| UdpResources.EnterCounts | pdnd/kernel/online_devices.go:35-56 | entering adds one connection to that user's device and to no other, and at most one device |
| UdpResources.LeaveCounts | pdnd/kernel/online_devices.go:60-77 | leaving takes exactly that one away |
| UdpSessions.DeviceStep | pdnd/kernel/shadowsocks_udp_uplink.go:42-110 | each step of a session changes the device counts by exactly what it changes in what the session holds |
| UdpSessions.QuotaStep | pdnd/kernel/shadowsocks_udp_session.go:105-236 | and the quota likewise |
| UdpSessions.SlotsAreExact | pdnd/kernel/shadowsocks_udp_session.go:105-236 | in every interleaving of opening, idling, holding, roaming and finishing: quota use is the unfinished sessions, each device's connections are the sessions holding it at their present address, and no user exceeds the device limit |
| UdpSessions.AllReturned | pdnd/kernel/shadowsocks_udp_session.go:209-236 | when all of a user's sessions have finished or failed to open, everything is returned |
| UdpSessions.CanOpen | pdnd/kernel/shadowsocks_udp_session.go:105-200 | a session can be opened whenever its user has fewer than 1024 and its device is online or within the limit, and then has both slots |
| UdpSessions.LiveSteps | pdnd/kernel/shadowsocks_udp_uplink.go:42-110 | holding and roaming take a device exactly if it is online or within the limit; idling and finishing give it up |
| UdpSessions.DeviceHold.HoldDevice | pdnd/kernel/shadowsocks_udp_uplink.go:42-60 | succeeds exactly if the session holds its device, or is not finished and the device is online or within the limit; changes nothing of anybody else's |
| UdpSessions.DeviceHold.ReleaseIdleDevice | pdnd/kernel/shadowsocks_udp_uplink.go:65-73 | gives the device up only when idle and held, and changes nothing of anybody else's |
| UdpSessions.DeviceHold.ReleaseDevice | pdnd/kernel/shadowsocks_udp_uplink.go:76-85 | gives it up for good, once |
| UdpSessions.DeviceHold.RoamTo | pdnd/kernel/shadowsocks_udp_uplink.go:90-110 | the hold moves with the address exactly if, after leaving, the new device is online or within the limit; else it is lost with the session cancelled; nobody else's changes |
| UotBridge.StepExact | pdnd/kernel/uot_bridge.go:103-178 | every step keeps the quota equal to the slots out |
| UotBridge.StepTabled | pdnd/kernel/uot_bridge.go:103-178 | a slot is published exactly if the table has its target with it, and a closed stream has none |
| UotBridge.RanksGrow | pdnd/kernel/uot_bridge.go:103-178 | in every run a slot goes from in progress to published to owed to returned and never back |
| UotBridge.ReturnedOnce | pdnd/kernel/uot_bridge.go:162-178 | in every run a slot is given back at most once |
| UotBridge.DroppedOnce | pdnd/kernel/uot_bridge.go:162-178 | in every run, once a target was taken off the table, taking the same one off again changes nothing, whatever was published in between |
| UotBridge.TakenOffIsOwed | pdnd/kernel/uot_bridge.go:162-178 | a target leaves the table only by being dropped or with its stream, and then its slot is owed |
| UotBridge.CanPublish | pdnd/kernel/uot_bridge.go:103-150 | a new target of an open stream can be published whenever its user is below the limit |
| UotBridge.QuotaIsExact | pdnd/kernel/uot_bridge.go:103-309 | in every interleaving a user's quota use is the published targets plus acquisitions and returns under way |
| UotBridge.AllReturned | pdnd/kernel/uot_bridge.go:293-309 | once the user's streams are closed and nothing is under way, every slot is back |
| UotBridge.RoutedPacketConn.EnsureUpstream | pdnd/kernel/uot_bridge.go:103-150 | succeeds exactly if the target is there, or the user is below the quota, the listening works and the stream is open; a slot is kept exactly for a new target that is published; everything else leaves the others' slots and the table as they were |
| UotBridge.RoutedPacketConn.DropIdle | pdnd/kernel/uot_bridge.go:155-178 | gives a slot back exactly if it took the target off the table, never for a newer target under the same key |
| UotBridge.RoutedPacketConn.CloseStream | pdnd/kernel/uot_bridge.go:293-309 | gives back one slot per target, once, and nobody else's |
| GsoBatch.CutJoined | pdnd/kernel/hysteria2_udp_gso.go:19-22 | cutting joined equal-length packets every segment length gives back exactly the packets |
| GsoBatch.RunEnd | pdnd/kernel/hysteria2_udp_gso.go:65-84 | the longest run that may be one message: one address, equal lengths but for a shorter last, within both limits |
| GsoBatch.RunArrives | pdnd/kernel/hysteria2_udp_gso.go:41-62 | the message built for a run arrives as exactly its packets |
| GsoBatch.CoversWire | pdnd/kernel/hysteria2_udp_gso.go:41-62 | any stretch of messages puts exactly the packets between its bounds on the wire, in order, with their bytes |
| GsoBatch.BatchWriter.Build | pdnd/kernel/hysteria2_udp_gso.go:41-62 | the messages cover all packets from the start, in order, each once |
| GsoBatch.BatchWriter.FlushBatch | pdnd/kernel/hysteria2_udp.go:281-306 | whatever the system answers, what went out is a prefix in order with each packet once and the byte count is that prefix's; a refusal of a message that joins packets is never what is returned, but turns segmenting off and sends on packet by packet |
| GsoBatch.BatchWriter.Flush | pdnd/kernel/hysteria2_udp.go:265-278 | the same for the whole queue; an error is one the system reported last |

## Left out

- Sockets, TLS, QUIC and REALITY handshakes, HTTP servers, the gRPC link and file I/O: foreign code, represented by arbitrary steps or parameters.
- Encryption, hashing and SHAKE themselves: only inverse, length and determinism are used.
- Integer widths of traffic counters, drop counters and sequence numbers: unbounded here; the 64-bit nonce counters and 16-bit chunk lengths and counts are modelled with their widths.
- XHTTP sequence numbers near 2^64, where the next number wraps around.
- UUID spellings: the table and the mirror use one canonical spelling.
- Node type trimming and the parsing of ports and routing out of a configuration: an install refused for them is one of the fates of an apply.
- Closing the whole core: port claims, traffic and roster are modelled until then.
- A retired adapter that goes on counting after its bounded close has returned: counted bytes are conserved up to the close.
- Connection write errors inside the Vision, VMess and classic Shadowsocks writers: they end the connection.
- Clocks finer than a second and clocks that step back: the filters use one nondecreasing integer clock.
- The Bloom filter's false-positive rate and the floating-point sizing of its blocks: a block has some number of bits and probes.
- Packing of Bloom bits into 64-bit words: a bit is an array element.
- Buffer pools, scratch buffers, wake-ups of waiting writers and readers, janitors and retry timing.
- Speed limiters, online reports, caches on disk and acknowledgement messages beyond their version and success.
- Adapters other than VLESS for the user table, and the mieru adapter's late loading of users.
- Deriving port keys from a configuration: an inbound's keys are a given list.
- Report.TrafficBuffer.Seal: report ids are given and never repeat, because generating them is left to the UUID library.
- PortClaims.NativeCore.ApplyInbound: runs one apply without interleaving, because interleavings are the step system's (`PortClaims.ClaimsAreExact`).
- XhttpBroker.BudgetIsExact: expiry ends sessions one at a time, because every order of ending the expired ones is then covered.
- Admission.NoneSlipsThrough: one administrator deletes at a time, as the agent's single main loop does.
- NodeConfig.Node.ApplyConfigOnce: equality of table and mirror is claimed from an install on until a roster batch fails halfway or a list has two users with one credential (`intact`); the next install restores it.
