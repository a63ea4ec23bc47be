# EasyConnection: verified models

EasyConnection is a Linux tunnelling client with a privileged helper. This project models in Dafny
the parts of it that carry a protocol, shared state or a wire format, and proves what they promise
for every input, every schedule and every interleaving.

| module | models |
|---|---|
| `Bytes`, `IpNets` | bytes, machine integers and address blocks, shared by the others |
| `HelperSession` | the helper's session protocol as a machine: any number of connection handlers interleave at their lock and await points over one session slot, the TUN device, the nftables table, the DNS setting and the journal |
| `HelperRequests` | what each request has done by the time it is answered, in every interleaving |
| `HelperHandler` | one handler as a program, with other handlers moving wherever it waits; it is shown to be a run of that machine |
| `HelperShutdown` | the helper's own end on a signal: its teardown beside the handlers, and the exit that drops them |
| `NftPolicy` | the nftables table as two compiled rule chains, against a declared policy |
| `RouteJournal`, `RoutePlan` | the transactional route journal over a kernel table, and longest-prefix selection over the split-default plan |
| `UdpgwWire`, `UdpgwMux`, `UdpgwFlows` | the UDPGW packet format and stream reader, the multiplexer with its two maps, two locks and wrapping ids, and exactly what it hands on |
| `IdlePool`, `IdleStreams` | the idle transport pool under concurrent takes and fills, and where every stream it dials ends up |
| `ShadowsocksStream` | the Shadowsocks AEAD stream over an abstract cipher (the "TCP" section of SIP004) |
| `WebSocket` | RFC 6455 frames (sections 5.2, 5.3 and 5.5) and the byte pipe over them |
| `MessagePack` | the recursive MessagePack parser of smart links (the "Formats" section of the MessagePack specification) |
| `IpcFrame` | the helper's socket frames with partial sends, chunks and a file descriptor |
| `DnsTcpPool`, `DnsTcpResults` | the shared, reused DNS-over-TCP stream (section 4.2.2 of RFC 1035), and what every call comes to |
| `SshShim` | the SSH shim: marker search and prefix replay |
| `DnsCache` | the cache of DNS messages |

Concurrent components are machines with a total `Next`: an event that cannot happen leaves the state
alone, so a theorem about `Run` holds for every sequence of events. Where the code is a loop over
buffers or an object that changes its fields, the model is a method or a class, proved against a
specification function, and the theorems are about that function. Sockets, the kernel, clocks and
random keys are parameters: byte sequences, lists of outcomes, numbers.

What a machine has done is stated by its events: a thing is there, a reply was handed on, a call has
failed if and only if such and such events happened in the run. Limits, address ranges, flags and
opcodes are written out as numbers in these statements, not by the names the code gives them.

Places where the code does less than one might expect, each with a lemma that gives the exact condition
or the case that fails:

- A refused route command counts as "already there" if its message contains `exists`, and the
  message repeats the command. A device whose name contains that word hides every refusal
  (`RouteJournal.RefusalsReportedIff`, `RouteJournal.RefusalSwallowed`).
- The signed MessagePack forms 0xd0 to 0xd2 are read as unsigned: the number is right exactly when it
  is not negative (`MessagePack.SignedFormsRead`).
- A failed journal write in an Apply leaves the table and the DNS setting with nobody responsible for
  them (`HelperSession.FailedJournalWriteLeaks`, `HelperSession.LeftBehindIff`).
- On SIGTERM or SIGINT the helper tears down and ends, which `SECURITY.md` line 26 promises restores
  networking. An Apply under way can load its table after the teardown has deleted it
  (`HelperShutdown.SignalLeaks`); what remains is given exactly (`HelperShutdown.ShutdownLeavesIff`).
- Bytes behind an IPC frame survive exactly when some chunk ends where the frame does
  (`IpcFrame.RestKeptIff`).
- The 65,537th UDPGW id repeats the first, and can take over its flow: callers are kept apart exactly
  up to 65,536 allocations (`UdpgwMux.WrapMisroutes`, `UdpgwMux.CallersKeptApartIff`).
- A route whose deletion fails in a rollback stays (`RouteJournal.LeftIff`).

## Model

| member | source | states |
|---|---|---|
| `HelperSession.WorkKeepsDuty` | services/privileged-helper/src/main.rs:314-391 | in one step a handler sheds responsibility for a thing only by deleting it or by a failure that leaves it loose, and becomes responsible for whatever it creates |
| `HelperSession.MakerIsResponsible` | crates/tun/src/device.rs:13-31 | the TUN device is made only where there is none, by a handler that is then responsible for it; the session is never left loose |
| `HelperSession.NextKeepsInv` | services/privileged-helper/src/main.rs:186-296 | whatever any handler, any client or the kernel does next, everything present stays covered by a live handler, the device by its maker, or has been left loose by a failure |
| `HelperSession.RunKeepsInv` | services/privileged-helper/src/main.rs:186-296 | the same over every interleaving |
| `HelperSession.SessionHasOwner` | services/privileged-helper/src/main.rs:186-296 | in every interleaving, failures included, an active session has a live handler with the owner flag that has not yet taken it |
| `HelperSession.NothingOutlivesTheClients` | services/privileged-helper/src/main.rs:289-294 | once every handler is gone there is no session, and what is there is exactly what failures have left loose |
| `HelperSession.LooseIff` | services/privileged-helper/src/main.rs:456-478 | in every run a thing is loose if and only if some deletion of it, or a journal write after it was set up, failed and no later event removes it; and it is there if and only if an Apply set it up and no later event removes it |
| `HelperSession.MakerMadeIt` | services/privileged-helper/src/main.rs:328 | a device that is there was made by the handler noted as its maker, at an event after which none removed it |
| `HelperSession.LeftBehindIff` | services/privileged-helper/src/main.rs:186-296 | once every handler is gone, TUN, table, DNS setting or journal is still there if and only if such a failure happened to it and no later event of the run is a removal of it |
| `HelperSession.FailedJournalWriteLeaks` | services/privileged-helper/src/main.rs:369 | such a run exists: one Apply whose journal cannot be written ends with nobody there and table and DNS setting in place, the device gone with its descriptor |
| `HelperSession.WorkKeepsSound` | services/privileged-helper/src/main.rs:318-326 | in serial runs a step keeps: the flag means an active session, an Apply past its check has none, only an owner tears down |
| `HelperSession.NextKeepsSerialInv` | services/privileged-helper/src/main.rs:186-296 | with requests handled one at a time and teardown asked for by the owner only, at most one handler is busy and at most one owns |
| `HelperSession.AtMostOneOwner` | services/privileged-helper/src/main.rs:186-296 | over every such run there is at most one owner, and an owner not tearing down owns an active session |
| `HelperSession.TunnelIsStable` | services/privileged-helper/src/main.rs:318-326 | while the owner rests, other clients' requests, second Applies included, leave session, TUN, table, DNS and journal exactly as they are |
| `HelperSession.HealthChecksAreInvisible` | services/privileged-helper/src/main.rs:186-189 | in every interleaving, striking out all events of a client that only pings, however it exits, changes neither the shared state nor any other handler |
| `HelperRequests.Entered` | services/privileged-helper/src/main.rs:314-391 | a handler that stands at a step of a request came there by a step of its own from the only place that leads there |
| `HelperRequests.RestoreTries` | services/privileged-helper/src/main.rs:230-257 | by the reply to a Teardown, Cleanup or EmergencyRestore, from an owner or not, its handler has given up the flag and has tried to remove session, DNS setting, table, device and journal; after the last two it has tried everything but the session twice |
| `HelperRequests.RestoreLeavesIff` | services/privileged-helper/src/main.rs:230-257 | at that reply a thing is there if and only if an operation failed on it, or an Apply set it up after the last attempt of the handler to remove it, and no later event removed it |
| `HelperRequests.PingDoesNothing` | services/privileged-helper/src/main.rs:223-229 | until the reply to a Ping its handler takes no step, and keeps its flag |
| `HelperRequests.ApplyIff` | services/privileged-helper/src/main.rs:258-284 | by its reply an Apply has published a session if and only if it gave up at none of its steps: lock or active session, device, address, flush, table, journal; the handler holds the flag if and only if it did before or a session was published |
| `HelperRequests.PublishedIsBuilt` | services/privileged-helper/src/main.rs:314-391 | an Apply that publishes has made device, table and journal before, has come to the DNS setting, and before the device it tried to remove everything stale |
| `HelperHandler.Handler.CleanupStale` | services/privileged-helper/src/main.rs:465-478 | with others moving before every command, the four deletions are four steps of the machine and end where the caller goes on |
| `HelperHandler.Handler.TeardownSession` | services/privileged-helper/src/main.rs:456-463 | revert, take, clean up: the handler no longer holds the flag afterwards |
| `HelperHandler.Handler.ApplySpec` | services/privileged-helper/src/main.rs:314-391 | it answers in every case, and becomes owner exactly when it reports success |
| `HelperHandler.Handler.ConfigureAndLoad` | services/privileged-helper/src/main.rs:329-360 | success leads on to DNS, any failure to the removal of the device; that the old table cannot be deleted stops nothing |
| `HelperHandler.Handler.SaveJournal` | services/privileged-helper/src/main.rs:480-489 | a failed write is a failed Apply, and takes the handler's own device with it |
| `HelperHandler.Handler.Serve` | services/privileged-helper/src/main.rs:209-284 | up to the reply only steps of its own have followed the request; a Ping changes nothing, an Apply makes it owner if and only if it published a session, and after a restoring request it is not owner, has tried to remove everything, and what is there is what failed or was set up since |
| `HelperHandler.Handler.Hearken` | services/privileged-helper/src/main.rs:190-284 | a request received is served: the run holds its receipt and from there on nothing of the client but the steps that serve it, up to the reply |
| `HelperHandler.Handler.HandleClient` | services/privileged-helper/src/main.rs:186-296 | for every list of requests, outcomes and interference the handler receives the list in order, all of it unless a reply could not be sent, and ends gone, not owning; if all others are gone too, nothing is left but what failures have left loose |
| `HelperHandler.OthersKeep` | services/privileged-helper/src/main.rs:186-190 | the owner flag and position of a handler change by its own events only |
| `HelperShutdown.NextKeepsAttended` | services/privileged-helper/src/main.rs:314-391 | without a session, whatever is there is loose or some handler's position is at work on it; an owner flag that is out of date counts for nothing |
| `HelperShutdown.QuietExit` | services/privileged-helper/src/main.rs:98-107 | an exit with no session and no handler past its check leaves nothing but what failures have left loose |
| `HelperShutdown.ShutdownLeavesIff` | services/privileged-helper/src/main.rs:98-130 | the signal has tried to remove everything; after signal and exit a thing is still there if and only if an operation failed on it, or an Apply set it up after the signal had last tried to remove it, no later event removed it, and it is not the device of an Apply under way |
| `HelperShutdown.SignalLeaks` | services/privileged-helper/src/main.rs:98-107 | such a run exists without any failure: an Apply under way loads its table after the signal has deleted the table, and the exit leaves it |
| `NftPolicy.RenderTable` | crates/nftables/src/apply.rs:24-109 | the loops produce exactly the two specified chains, in order |
| `NftPolicy.RenderFilter` | crates/nftables/src/apply.rs:74-101 | the same for the filter chain |
| `NftPolicy.ExemptRulesDecide` | crates/nftables/src/apply.rs:34-49 | the guard rules hit a packet exactly when it is exempt: loopback, TUN, server or bypassed |
| `NftPolicy.ExemptIff` | crates/nftables/src/apply.rs:34-49 | a packet is exempt if and only if it is on lo or the TUN, or its address is in the loopback range, a server's, or in a bypassed net |
| `NftPolicy.NatDecides` | crates/nftables/src/apply.rs:33-72 | first match in the nat chain returns exactly the exempt and redirects exactly what the policy intercepts, to its port |
| `NftPolicy.FilterDecides` | crates/nftables/src/apply.rs:74-101 | first match in the filter chain rejects exactly the unwanted non-exempt new flows |
| `NftPolicy.RedirectedIsExempt` | crates/nftables/src/apply.rs:75-79 | a redirected packet comes back exempt whatever interface it is then on |
| `NftPolicy.TableImplementsPolicy` | crates/nftables/src/apply.rs:24-109 | for every configuration and every new packet, nat then filter equals the declared policy |
| `NftPolicy.EstablishedPasses` | crates/nftables/src/apply.rs:75 | a packet of an established flow passes the filter under every configuration |
| `NftPolicy.OnlyExemptFlowsLeave` | crates/nftables/src/apply.rs:33-101 | a new flow leaves directly if and only if it is exempt, or it is neither TCP nor UDP with the kill switch off and its family on |
| `NftPolicy.PrivateBypass` | services/privileged-helper/src/main.rs:336-344 | with the helper's bypass list, a new TCP flow is left alone if and only if it goes to 127.0.0.0-127.255.255.255 or ::1, a server, an extra net or, if asked for, one of the private address ranges, given as numbers |
| `IpNets.IsPrivateIff` | crates/routing/src/cidrs.rs:6-30 | an address is private if and only if its value is in one of four IPv4 ranges or two IPv6 ranges |
| `IpNets.SplitDefaults` | crates/routing/src/cidrs.rs:20-26 | the split default of either family is its lower and its upper half |
| `RouteJournal.Kernel.AddIgnoringExists` | crates/routing/src/apply.rs:41-67 | a route is added to a free slot only; the answer tells added, already there and refused apart as far as the message test does |
| `RouteJournal.Kernel.ApplyJournal` | crates/routing/src/apply.rs:212-237 | it fails exactly when some refusal is reported, and then the table is the starting one and what the rollback could not delete; otherwise the table is the journal installed and the result is what was added |
| `RouteJournal.Kernel.RestoreAdded` | crates/routing/src/apply.rs:239-255 | deletes the listed routes last to first, going on past commands that fail |
| `RouteJournal.UndoLeaves` | crates/routing/src/apply.rs:239-255 | undoing what was added, duplicates and taken slots included, leaves the starting table and exactly the routes whose deletion failed |
| `RouteJournal.LeftIff` | crates/routing/src/apply.rs:250-252 | no route that was there is lost, and the table is the starting one if and only if every deletion took effect |
| `RouteJournal.ApplyThenRestore` | crates/routing/src/apply.rs:212-255 | transaction and undoing, its own or by restore_added, leaves the starting table and exactly those of the routes added before the first reported refusal whose deletion failed; so it is the identity on every kernel table if and only if all those deletions take effect |
| `RouteJournal.InstalledSlots` | crates/routing/src/apply.rs:212-237 | a slot is taken afterwards if and only if it was before or a command for it went through; old routes are kept |
| `RouteJournal.RefusalsReportedIff` | crates/routing/src/apply.rs:51-63 | every other refusal of a route is reported if and only if its device name does not contain the word looked for |
| `RouteJournal.SuccessMeansPresent` | crates/routing/src/apply.rs:212-237 | with such names, success means that every destination is in the table |
| `RouteJournal.RefusalSwallowed` | crates/routing/src/apply.rs:62-64 | a concrete device name under which a refused route is a silent success |
| `RoutePlan.BuildPlan` | crates/routing/src/apply.rs:148-210 | the loops produce the specified plan |
| `RoutePlan.FirstWins` | crates/routing/src/apply.rs:224-228 | of several routes planned for one free slot the first ends up in it |
| `RoutePlan.OffRoutesComplete` | crates/routing/src/apply.rs:158-185 | every server and every bypassed address of a family that is on has a planned route by the original device that covers it, of length at least one |
| `RoutePlan.OffRoutesSound` | crates/routing/src/apply.rs:158-185 | and such a route covers only servers and bypassed addresses, with the hop expected for them |
| `RoutePlan.SelectedIsLong` | crates/routing/src/cidrs.rs:20-26 | the split default beats every default route |
| `RoutePlan.TunnelTakesTheRest` | crates/routing/src/apply.rs:148-210 | over any table, the selected route of an address enters the tunnel if and only if its family is on, it is neither a server nor bypassed, and no more specific own route covers it |
| `RoutePlan.SplitDefault` | crates/routing/src/apply.rs:148-210 | over any table, for both families: a server has a route through the original gateway, a private or extra address, if bypassed, one by the original device, through the gateway if that is of its family, every other address of a family that is on one into the TUN; the selected route is that, unless it is an own route more specific than the split default, which a table of default routes has none of |
| `UdpgwWire.Data` | crates/udpgw/src/proto.rs:36-53 | the flags read back as given, and the packet is flag-consistent unless an IPv6 scope or flow label would be lost |
| `UdpgwWire.DataFlags` | crates/udpgw/src/proto.rs:13-53 | the flags of a data packet are 2 for rebind, 4 for DNS and 8 for IPv6, added up |
| `UdpgwWire.Layout` | crates/udpgw/src/proto.rs:68-93 | which packets encode, and every byte of what they encode to |
| `UdpgwWire.DecodesIff` | crates/udpgw/src/proto.rs:95-136 | a body decodes if and only if it has a header and, unless it is a keepalive, the whole address its flags announce |
| `UdpgwWire.KnownBody` | crates/udpgw/src/proto.rs:176-187 | a body in the layout other implementations send: id little-endian, address and port in network order |
| `UdpgwWire.BodyRoundTrip` | crates/udpgw/src/proto.rs:68-136 | decoding inverts encoding if and only if the packet is flag-consistent |
| `UdpgwWire.BodyRestored` | crates/udpgw/src/proto.rs:68-136 | encoding a decoded body gives its bytes back, of a keepalive its header |
| `UdpgwWire.ReadLoop` | crates/udpgw/src/client.rs:150-162 | the loop parses exactly the packets of the specified reading, and stops for the same reason |
| `UdpgwWire.ReadExactly` | crates/udpgw/src/client.rs:150-162 | any stream is a number of frames whose bodies decode to the packets returned, and then the reason for stopping: an unfinished frame, a zero length, or a body that does not decode |
| `UdpgwWire.WireRead` | crates/udpgw/src/client.rs:150-162 | frames one after the other read as their packets, and reading goes on with whatever follows |
| `UdpgwWire.WholeWireRead` | crates/udpgw/src/proto.rs:57-66 | a stream of such frames and nothing else reads as exactly those packets and then ends |
| `UdpgwMux.ConidsRepeat` | crates/udpgw/src/client.rs:85-87 | two allocations share an id if and only if they are a multiple of 65,536 apart |
| `UdpgwMux.NextKeepsInv` | crates/udpgw/src/client.rs:40-87 | every step of every caller and of the reader keeps ids, keys, flows and what was handed out in agreement, within 65,536 allocations |
| `UdpgwMux.RunKeepsInv` | crates/udpgw/src/client.rs:40-187 | the same over every interleaving |
| `UdpgwMux.KeysAndFlowsAgree` | crates/udpgw/src/client.rs:47-57 | no two keys share an id, and whenever the key lock is free every key leads to the live flow of its own sender |
| `UdpgwMux.SendersUseTheirFlow` | crates/udpgw/src/client.rs:47-59 | a sender that goes on to write has the id opened for its pair of sockets, the same as every sender of that pair and no other, and the flow for the replies is there already |
| `UdpgwMux.RepliesReachTheirSender` | crates/udpgw/src/client.rs:166-178 | every datagram is handed to the socket that opened its id, and no other caller has that id |
| `UdpgwMux.NextKeepsTraced` | crates/udpgw/src/client.rs:162-186 | every reply and answer carries the payload of a packet received, in the order received, and no packet is handed on twice |
| `UdpgwMux.BytesReachTheirSocket` | crates/udpgw/src/client.rs:150-187 | from a stream that begins with the server's frames, a reply made from one of its packets carries that payload to the only socket that opened its id, and no packet makes two |
| `UdpgwMux.BytesReachTheirQuery` | crates/udpgw/src/client.rs:150-170 | likewise an answer carries the payload of one packet to the only query with its id, once, and that packet goes to no socket |
| `UdpgwMux.QueriesAnsweredOnce` | crates/udpgw/src/client.rs:62-83 | every query gets at most one answer, on the id it allocated and no other caller has |
| `UdpgwFlows.UdpFlowIff` | crates/udpgw/src/client.rs:54 | an id leads to a socket if and only if it was ever registered for it |
| `UdpgwFlows.DnsFlowIff` | crates/udpgw/src/client.rs:62-83 | it leads to a query if and only if it was registered for it and since then no data packet for it came and the query did not withdraw |
| `UdpgwFlows.ReplyIff` | crates/udpgw/src/client.rs:162-178 | in every run of at most 65,536 allocations a packet read becomes a datagram for a socket if and only if it is a data packet and its id was registered for that socket before |
| `UdpgwFlows.AnswerIff` | crates/udpgw/src/client.rs:162-170 | it becomes the answer to a query if and only if it is the first data packet for the id since that was registered for the query, and the query has not given up |
| `UdpgwFlows.QueryEndsIff` | crates/udpgw/src/client.rs:71-83 | a query ends in an error if and only if its write failed or it timed out unanswered, and returns its answer if and only if it found it waiting |
| `UdpgwMux.WrapMisroutes` | crates/udpgw/src/client.rs:85-87 | for every number of allocations beyond 65,536 there is a run from the start in which a query takes over the id of a live UDP flow and is handed its datagram |
| `UdpgwMux.CallersKeptApartIff` | crates/udpgw/src/client.rs:40-187 | replies and answers go to the only caller with their id in all runs of n allocations if and only if n is at most 65,536 |
| `IdlePool.Pool.TakePooled` | crates/tls/src/pool.rs:37-44 | the loop under the lock is the specified pop |
| `IdlePool.Pool.FillOne` | crates/tls/src/pool.rs:70-87 | with others moving wherever it waits, the program of a fill task is a run of the machine and ends for the reason it returns: queue full, too many fills, dial failed, stream queued, or queue at the limit by then; a stream queued is the last of the queue, with the time of the push |
| `IdlePool.Pool.CountAndDial` | crates/tls/src/pool.rs:74-86 | counting, backing out or dialling, and offering are the machine's steps in order and end the fill for the reason returned |
| `IdlePool.Pool.Take` | crates/tls/src/pool.rs:35-48 | it returns the first fresh stream of the queue at its hold of the lock, a dialled one if there is none, and none only if that dial fails; a stream returned was never handed out before, all that stays queued is under 25 s old, and one more fill task is started |
| `IdlePool.NextKeepsCounted` | crates/tls/src/pool.rs:70-87 | every step keeps the counter equal to the fills dialling or backing out, and both limits |
| `IdlePool.NextKeepsSorted` | crates/tls/src/pool.rs:35-87 | every step keeps the queue times sorted and not in the future |
| `IdlePool.NextKeepsApart` | crates/tls/src/pool.rs:35-87 | every step keeps queued, offered and handed-out streams apart |
| `IdlePool.LimitsHold` | crates/tls/src/pool.rs:26-87 | in every interleaving counter, dials in progress and queue length are within the limit, which is at least one |
| `IdlePool.HandedOutOnce` | crates/tls/src/pool.rs:35-48 | no stream is handed out twice or while it is still queued |
| `IdlePool.TakenIsFresh` | crates/tls/src/pool.rs:35-45 | a pooled stream returned and all left behind it are under 25 s old; a take that finds none has dropped only older ones |
| `IdleStreams.TakeMoves` | crates/tls/src/pool.rs:35-48 | a take removes from the queue exactly the streams that are too old and the first fresh one, and hands out that one or the one it dialled |
| `IdleStreams.EveryStreamIsSomewhere` | crates/tls/src/pool.rs:35-87 | in every run every stream ever dialled is exactly one of: queued, on offer, handed out, dropped by a take that found it too old, dropped by a push that found the queue at the limit |
| `IdleStreams.StoppedIff` | crates/tls/src/pool.rs:70-87 | a fill has stopped if and only if it found the queue full, found as many fills as the limit, failed to dial, or offered its stream |
| `ShadowsocksStream.NoncesDistinctIff` | crates/shadowsocks/src/aead.rs:66-70 | the nonces of the first counter values are all different if and only if there are at most 2^64 |
| `ShadowsocksStream.NoNonceTwice` | crates/shadowsocks/src/aead.rs:185-211 | for every list of buffers the stream written is its blocks, each sealed under the nonce in its place, and those nonces are all different if and only if there are at most 2^64 blocks |
| `ShadowsocksStream.CipherIsAead` | crates/shadowsocks/src/aead.rs:89-115 | taking the nonce from the counter keeps what AES-GCM promises |
| `ShadowsocksStream.NonceDigits` | crates/shadowsocks/src/aead.rs:66-70 | byte i of a nonce is digit i of the counter in base 256, the last four are zero |
| `ShadowsocksStream.SealedInTurn` | crates/shadowsocks/src/aead.rs:203-211 | the blocks, a length and a body in turn, are encrypted under the nonces of consecutive counter values, each its own |
| `ShadowsocksStream.ChunksSound` | crates/shadowsocks/src/aead.rs:203 | chunking loses nothing and every length is in 1..0x3fff |
| `ShadowsocksStream.ChunkCount` | crates/shadowsocks/src/aead.rs:195-203 | it cuts as few chunks as the bound allows; a full 16 KiB read becomes two |
| `ShadowsocksStream.Writer.Write` | crates/shadowsocks/src/aead.rs:203-211 | the wire grows by the sealed chunks under consecutive counters, two for each |
| `ShadowsocksStream.Writer.WriteAll` | crates/shadowsocks/src/aead.rs:196-213 | buffer after buffer the wire is that of all their chunks under one counter |
| `ShadowsocksStream.Reader.ReadChunk` | crates/shadowsocks/src/aead.rs:225-259 | salt first, then data, clean end or error exactly as the specified reading says, with the counter moved by two for data |
| `ShadowsocksStream.ReadToEnd` | crates/shadowsocks/src/aead.rs:214-220 | repeated reads give the chunks and the end of the specified reading, and its counter after a clean end |
| `ShadowsocksStream.SealedIsRead` | crates/shadowsocks/src/aead.rs:239-258 | a sealed chunk in front of anything is read back |
| `ShadowsocksStream.CutIsNotRead` | crates/shadowsocks/src/aead.rs:240-255 | cut short, it is a clean end inside the length block and an error inside the body |
| `ShadowsocksStream.ReadOneIff` | crates/shadowsocks/src/aead.rs:239-258 | on any bytes a chunk is read if and only if they begin with an authentic length block announcing 1 to 0x3fff bytes and an authentic body of that size; they are a clean end if and only if there are fewer than 18 |
| `ShadowsocksStream.ReadsOnlySealed` | crates/shadowsocks/src/aead.rs:225-259 | what is read from any bytes is chunk after chunk authentic under consecutive counter values, up to a clean end or to bytes that begin with no chunk |
| `ShadowsocksStream.PrefixIsRead` | crates/shadowsocks/src/aead.rs:225-259 | a wire cut anywhere yields exactly the complete chunks in order; uncut, both counters are equal |
| `ShadowsocksStream.StreamRoundTrip` | crates/shadowsocks/src/aead.rs:185-259 | for every sequence of buffers the peer reads their concatenation and ends cleanly with its counter where the writer's is |
| `ShadowsocksStream.Transfer` | crates/shadowsocks/src/aead.rs:185-259 | the same of the writer and the reader themselves, fed buffer by buffer and read to the end |
| `ShadowsocksStream.TruncatedStream` | crates/shadowsocks/src/aead.rs:225-259 | cut anywhere, salt included, the peer reads a prefix, and ends cleanly if and only if the cut is not in the salt or a body |
| `WebSocket.MaskedBits` | crates/websocket/src/ws.rs:113-117 | bit j of payload byte i is turned over if and only if bit j of key byte i modulo 4 is set |
| `WebSocket.MaskedTwice` | crates/websocket/src/ws.rs:113-117 | masking twice with one key is the identity |
| `WebSocket.KnownMasked` | crates/websocket/src/ws.rs:90-117 | the masked text frame of section 5.7 of RFC 6455, for any key and text of that length |
| `WebSocket.KnownBinary` | crates/websocket/src/ws.rs:94-102 | the 256-byte binary frame of section 5.7, with its two length bytes |
| `WebSocket.FrameRead` | crates/websocket/src/ws.rs:88-117 | a frame in any length form, with any reserved bits, masked or not, in front of anything is read back, or refused as too large |
| `WebSocket.CutFrame` | crates/websocket/src/ws.rs:90-112 | a frame short of one byte or more yields nothing |
| `WebSocket.RefusedFrame` | crates/websocket/src/ws.rs:106-126 | close, unknown opcodes and oversize frames end the stream at once, each with its own reason |
| `WebSocket.StreamRead` | crates/websocket/src/ws.rs:87-129 | for every sequence of data frames, pings and pongs the payloads come out in order, and each ping is answered with its payload, whatever follows |
| `WebSocket.CutStream` | crates/websocket/src/ws.rs:87-129 | a stream cut anywhere has delivered and answered exactly the frames that arrived whole |
| `WebSocket.WriteFrame` | crates/websocket/src/ws.rs:131-160 | the bytes are those of the final frame in the shortest form for the length |
| `WebSocket.SentShortest` | crates/websocket/src/ws.rs:131-160 | the first two bytes and the size of what is written: FIN and opcode, mask bit, and the length in the shortest of its three forms |
| `WebSocket.SentIsRead` | crates/websocket/src/ws.rs:131-164 | reading inverts writing for every opcode, payload and key, up to the reader's limit |
| `WebSocket.PipeRoundTrip` | crates/websocket/src/ws.rs:58-81 | buffers written one after the other are what the peer reads, for any keys |
| `WebSocket.AnswersRead` | crates/websocket/src/ws.rs:121-123 | the bytes sent in answer read as one pong for each ping, with its payload |
| `WebSocket.Unmask` | crates/websocket/src/ws.rs:113-117 | the in-place loop masks the whole payload |
| `WebSocket.Socket.TakeFrame` | crates/websocket/src/ws.rs:89-117 | the reads of one round return the specified frame or error and consume exactly it |
| `WebSocket.Socket.ReadDataFrame` | crates/websocket/src/ws.rs:87-129 | it returns the next data payload or the error that ends the stream; what was sent plus what the unread stream will have sent is unchanged |
| `WebSocket.Socket.Pump` | crates/websocket/src/ws.rs:70-79 | repeated reads deliver all data payloads, send all answers and end for the right reason |
| `MessagePack.HeadComplete` | crates/config/src/smart_link.rs:307-345 | every tag and count that may announce a value is recognised |
| `MessagePack.HeadSound` | crates/config/src/smart_link.rs:307-361 | and nothing else is |
| `MessagePack.Accepts` | crates/config/src/smart_link.rs:303-363 | every legal message, in whichever forms, parses to its value and exactly its bytes are consumed, whatever follows |
| `MessagePack.AcceptsOnly` | crates/config/src/smart_link.rs:303-363 | whatever is accepted is a legal message with that value |
| `MessagePack.ParsesExactly` | crates/config/src/smart_link.rs:303-363 | the parser succeeds if and only if the input begins with a legal message |
| `MessagePack.AnyInput` | crates/config/src/smart_link.rs:247-363 | on any bytes success advances, depends on the consumed bytes only, gives no more nodes than bytes and no more height than the depth left |
| `MessagePack.RoundTrip` | crates/config/src/smart_link.rs:194-201 | every tree within the limits is read back from its encoding |
| `MessagePack.SignedFormsRead` | crates/config/src/smart_link.rs:324-326 | a signed form gives the meant number if and only if it is not negative |
| `MessagePack.PackedParser.TakeBytes` | crates/config/src/smart_link.rs:247-258 | the next bytes or a truncation error; the position moves by their number on success and stays on failure |
| `MessagePack.PackedParser.TakeNumber` | crates/config/src/smart_link.rs:264-269 | the loop computes the big-endian number of the bytes |
| `MessagePack.PackedParser.TakeItems` | crates/config/src/smart_link.rs:277-286 | the loop collects the specified elements, or the first error |
| `MessagePack.PackedParser.TakePairs` | crates/config/src/smart_link.rs:288-301 | the loop collects the specified entries, or the first error |
| `MessagePack.PackedParser.TakeValue` | crates/config/src/smart_link.rs:303-363 | the recursive parser is the specified one and its position moves by the size of what it returns |
| `IpcFrame.SendFrame` | crates/tun/src/frame.rs:26-63 | under every list of partial sends, retries and failures the wire holds a prefix of the frame, all of it if and only if the call succeeds, with the descriptor on the first segment and no other |
| `IpcFrame.RecvChunk` | crates/tun/src/frame.rs:154-163 | retries are invisible |
| `IpcFrame.RecvFrame` | crates/tun/src/frame.rs:102-152 | the loops are the specified reception |
| `IpcFrame.FrameReceived` | crates/tun/src/frame.rs:102-152 | a frame that came in full before any fault is received with the first descriptor of its chunks, taking no more events than needed |
| `IpcFrame.ReceivedIff` | crates/tun/src/frame.rs:102-152 | for all events a payload is received if and only if it is within the limit and its frame arrives before any fault or end |
| `IpcFrame.RefusedIff` | crates/tun/src/frame.rs:102-163 | a frame is refused for its size if and only if more than a mebibyte is announced before any fault or end; for a fault, an end or silence if and only if that comes before the frame is whole |
| `IpcFrame.FrameDelivered` | crates/tun/src/frame.rs:26-152 | one frame in flight: for all segments sent and all chunks received, payload and descriptor arrive and no byte is left |
| `IpcFrame.RestKeptIff` | crates/tun/src/frame.rs:126-151 | bytes behind the frame stay for the next call if and only if some chunk ends where the frame does |
| `DnsTcpPool.WriteKeeps` | crates/dns/src/lib.rs:31-37 | writing a query takes a stream from a message boundary to owing exactly its reply, or fails |
| `DnsTcpPool.ReadKeeps` | crates/dns/src/lib.rs:39-50 | reading takes it from there to the next boundary with the reply as its last, or fails |
| `DnsTcpPool.ExchangedKeeps` | crates/dns/src/lib.rs:27-51 | the steps of an exchange yield a reply if and only if the query has a legal size and no write or read fails or is empty, and then the stream is at the next boundary |
| `DnsTcpPool.Connection.Exchange` | crates/dns/src/lib.rs:27-51 | the program takes exactly those steps; a reply leaves the stream at the next boundary with query and reply as its last exchange; a query of the wrong size leaves it untouched |
| `DnsTcpPool.NextKeepsInv` | crates/tunnel/src/transproxy.rs:220-270 | every step of every caller keeps each stream, pooled or private, at its point of its holder's exchange |
| `DnsTcpPool.PooledStreamAtBoundary` | crates/tunnel/src/transproxy.rs:226-249 | in every interleaving, whatever servers send, a pooled stream with the lock free is at a message boundary with as many replies as queries, and one caller at most is on it |
| `DnsTcpPool.ReplyIsAnswer` | crates/dns/src/lib.rs:39-50 | on a stream in order, the next framed reply of an in-order server is the answer to the query owed |
| `DnsTcpPool.RepliesAreOwn` | crates/tunnel/src/transproxy.rs:220-270 | in every interleaving with in-order servers a caller that gets a reply gets the answer of its host to its own query |
| `DnsTcpResults.ResultIff` | crates/tunnel/src/transproxy.rs:220-270 | in every run a call returns nothing if and only if its connection failed or the exchange on its own stream broke off, and returns a message if and only if an exchange of its own was completed with it, on the pooled stream, or on its own which it has then stored |
| `DnsTcpResults.TurnsIff` | crates/tunnel/src/transproxy.rs:226-249 | a call turns to a stream of its own if and only if it found none to its host or the exchange on the pooled one broke off |
| `DnsTcpResults.SlotIff` | crates/tunnel/src/transproxy.rs:226-264 | the slot holds a stream to a host if and only if a call stored one and no later call found it to be to another host, broke off on it or stored its own |
| `SshShim.Find` | crates/ssh/src/smart.rs:301-303 | the first position of the marker, or none if it is nowhere |
| `SshShim.PrefixedTcp.PollRead` | crates/ssh/src/smart.rs:245-261 | the next bytes, from prefix or stream, nothing lost or repeated; none only without room or at the end |
| `SshShim.PrefixedTcp.ReadMany` | crates/ssh/src/smart.rs:245-261 | any sequence of read sizes returns the bytes to come in order, at least one for each buffer with room until all are read |
| `SshShim.OpenShim` | crates/ssh/src/smart.rs:281-317 | success if and only if some read ends behind the first marker and within the limit before any fault; then the bytes to come are the server's stream from that marker on |
| `SshShim.Session` | crates/ssh/src/smart.rs:245-317 | opening and then reading, for every chunking and every read size, returns the server's stream from the first marker on, all of it once there are as many buffers with room as bytes |
| `DnsCache.Readdressed` | crates/dns/src/cache.rs:38-43 | bytes 0 and 1 are the asker's, all others the stored ones |
| `DnsCache.Cache.Get` | crates/dns/src/cache.rs:27-44 | a hit if and only if the entry is there and at most 45 s old; an expired entry is removed and nothing else changes |
| `DnsCache.Cache.Put` | crates/dns/src/cache.rs:46-55 | short messages are ignored, a full table is emptied first, the bound is kept |
| `DnsCache.NeverOverfull` | crates/dns/src/cache.rs:10 | at most 512 entries after every history |
| `DnsCache.EntryIsLatest` | crates/dns/src/cache.rs:27-55 | an entry is the latest accepted put for its key, with no emptying since |
| `DnsCache.HitIff` | crates/dns/src/cache.rs:27-55 | in every history a get returns an answer if and only if it is that of the latest accepted put for the same question, at most 45 s old and not emptied since, with the asker's ID |

## Left out

- The text of the nft script, addresses and route commands: rules, addresses and routes are data.
- Packets of established connections and flows opened before the table was loaded: the policy is about new flows.
- `tokio::select!` cancelling a half-finished read: each read is taken to finish.
- Failures of the pong writes, which the client ignores: the model's pongs are all sent.
- HelperSession.LooseIff: the temporary file that a failed journal write can leave beside the journal is not counted, because nothing reads it.
- IdlePool.Pool.Take: its dial is taken together with its look at the queue, because it touches nothing shared. The prefill is a number of fill tasks.
- Peer authorisation and the IPC version check of the helper: a client refused there has no handler in the model, or only a reply. The cleanup at the helper's start, which precedes all handlers.
- The helper's routes: it passes an empty list of added routes, so restoring them does nothing there.
- UdpgwMux.RunKeepsInv: covers runs of up to 65,536 id allocations, because beyond them the property is false, as UdpgwMux.CallersKeptApartIff states.
- UdpgwMux.NextKeepsInv: the maps are values of a machine rather than fields of a class, because callers interleave between their two locks; the order of lock hand-over is not modelled.
- RoutePlan.SplitDefault: routes of both families are added with the lowest metric; that the kernel gives an IPv6 route without one the metric 1024 is not modelled.
- HelperSession.TunnelIsStable: supposes that the kernel does not remove the device by itself meanwhile.
- DnsTcpPool.RepliesAreOwn: supposes that servers answer each stream in order, as the code does.
- Which of its error texts a refused MessagePack message gets: that it is refused is exact.
- The cipher, key derivation, UTF-8, base64, zlib, JSON and SHA-1 are not modelled; AES-GCM is a pair of functions of a nonce, decryption inverting encryption, and UTF-8 a predicate.
- The WebSocket handshake, the Shadowsocks handshake and the connect steps: string handling with branch-level facts only.
- Writes of the SSH shim and of pooled transports: passed through unchanged.
- Desktop UI, CLI, connection manager, store, secrets, diagnostics, engine process and packaging.
