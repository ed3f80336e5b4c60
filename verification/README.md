# Verified models from the RDMA core sources

A Dafny model of the parts of this repository's bundled RDMA core library whose correctness is not
visible from any single function. `dafny verify dfyconfig.toml` checks the whole project.

**The iWARP port mapper (iwpmd).** Clients ask the daemon to map their local addresses to TCP
ports and to find out a peer's mapping by a handshake of request, accept, ack and reject messages.
`SockAddrs` and `WireMsgs` model addresses and the 48- or 64-byte wire message, `PortTables` the
reference-counted table of mapped ports, `MapRequests` the list of tracked requests and the timer's
pass over it. `Daemons` puts them together as a step function with one step for each client
request, wire message, timer pass and send, and proves what holds in every state of every run.
`Server` is the same daemon as a class whose handlers search, count up and down and delete as the
code does, each proved to have the effect its step specifies; the methods that dispatch to them keep
the invariant of every reachable state. `Networks` runs any number of daemons
over a network that may lose, repeat and reorder, and proves that the two ends of a mapping agree;
`Handshakes` shows a run that reaches that situation for any pair of ordinary addresses, and
`Rejections` traces every rejection to a moment when the address was not mapped. `RefCounts` counts
who holds a mapping from what clients asked for, `Effects` says what each message makes a daemon
track, send and tell, and `Verdicts` when a reply leads to the answer a client waits for. `Collisions`
says when a request is answered and `LateAcks` when an ack counts. `TimerBounds` carries the timeouts
of single requests over to runs of the whole daemon.
`TimerThread` and `SenderThread` model the two helper threads lock by lock and signal by signal.

**Other components.** `CcanLists` is the intrusive circular list on a heap of nodes, with its
checker. `LibGraphs` is the in-place transitive reduction of library dependencies. `Routes` is the
unicast trace through forwarding tables (sections 14.2.2 and 14.2.5 of the InfiniBand Architecture
Specification, Volume 1). `MadRpcs` is request and reply over management datagrams with retries and
redirection (section 13.4.6 there, for transaction ids). `Ilogs` holds the implementations of the
integer logarithm, `DrPaths` the direct-route printer and parser, `Parse256` the 256-bit hex parser.

**Assumptions made explicit.**

- The handle of a new query is not null and was not given to an earlier query of the same run (the
  code uses the address of the tracking object). It is the enabling condition of the query step, also
  where the daemon class dispatches a query.
- A message handler, a timer pass and a send are each atomic in `Daemons` and `Networks`; the two
  thread models look inside.
- What the host decides is a parameter: whether memory was found, whether a client message could be
  sent, which port `bind` gave, what buffers held before.
- `compute_graph` is given an acyclic graph.

**Properties that do not hold as one might expect.** Each has an input that shows it and the exact
condition under which the property holds.

- The sender thread takes its first wait without looking at the queue. A message posted and
  signalled before that wait stays there until another signal comes
  (`SenderThread.FirstWaitCanBeStuck`). A run never gets stuck if and only if just before the first
  wait the queue was empty or a poster had yet to signal (`SenderThread.NeverStuckIff`).
- A client that shares another client's wildcard mapping cannot take its share back
  (`PortTables.SharerLeavesMapping`); `PortTables.AddThenRemove` says when a removal undoes an
  addition.
- A request is taken for a repetition by its handle and mapped address, whoever sent it, and each
  host gives out handles on its own. A second host with an equal handle gets no answer while the
  first one's accept is tracked (`Collisions.TwinIsNotServed`); `Collisions.ServedIff` says when a
  request is served.
- A query whose local and remote addresses are of different families, or whose local address is a
  wildcard, is started but never answered: the replies to it do not name the address it was started
  from, and are ignored (`Verdicts.RefusalArrives` has the run). `Verdicts.ReplyLeadsToVerdict` says
  when a reply leads to a verdict, and `Verdicts.AnswerableIff` which queries that is true of.
- An ack that arrives after the mapping was removed is ignored (`LateAcks.LateAck`);
  `LateAcks.AckCompletesIff` says when an ack ends the retransmission of an accept.

Names in the models follow the code. Fields such as `id`, `born`, `history`, `issued` and the entry
numbers carried by messages and reports only record where things came from; no handler branches on
them.

## Model

| member | source | states |
|---|---|---|
| Networks.Agreement | dtld-ibverbs/rdma-core-55.0/iwpmd/iwarp_pm_server.c:640-796 | In every run of any number of daemons over a network that loses, repeats and reorders, once the active host has reported an accepted query and the passive host the same query, with the entries involved still mapped: local/remote and mapped local/mapped remote are mirror images; against a passive wildcard entry the active end has the address it asked for, on the port the passive end has mapped |
| Networks.RejectionAnswersQuery | dtld-ibverbs/rdma-core-55.0/iwpmd/iwarp_pm_server.c:806-855 | In every run a rejection goes to the owner of the mapping, comes from the host that was asked, names the address asked for and carries the header of the client message that asked |
| Rejections.RejectionHasReason | dtld-ibverbs/rdma-core-55.0/iwpmd/iwarp_pm_server.c:655-663 | In every run a rejection goes back to a moment after its query was started at which no entry of the asked host answered the address |
| Rejections.MappedIsNotRejected | dtld-ibverbs/rdma-core-55.0/iwpmd/iwarp_pm_server.c:655-663 | A query about an address its host kept mapped since the query was started is never rejected: its verdict is success |
| Rejections.StepBacked | dtld-ibverbs/rdma-core-55.0/iwpmd/iwarp_pm_server.c:655-855 | Every reject on a queue or the wire and every rejection reported keeps being founded on such a moment, and no reject is ever kept for retransmission |
| Collisions.ServedIff | dtld-ibverbs/rdma-core-55.0/iwpmd/iwarp_pm_server.c:674-704 | After a request for a mapped address is handled, an accept for its sender is tracked if and only if one was before, or none with its handle and mapped address was and there was memory |
| Collisions.OwnHandleIsServed | dtld-ibverbs/rdma-core-55.0/iwpmd/iwarp_pm_server.c:640-716 | In every run a request for a mapped address whose handle no other host's query has is served when it arrives, if there is memory |
| Collisions.TwinIsNotServed | dtld-ibverbs/rdma-core-55.0/iwpmd/iwarp_pm_server.c:674-683 | Two hosts that ask for one address with one handle: there is a run in which the second request changes nothing and gets neither accept nor reject |
| Networks.WorldRunKeeps | dtld-ibverbs/rdma-core-55.0/iwpmd/iwarp_pm_server.c:418-882 | Every message on the wire, in a queue or kept for retransmission, and every report to a client, in every reachable world, comes from a query that was started and, for accepts, from a table entry that answers it |
| Networks.WorldStepKeeps | dtld-ibverbs/rdma-core-55.0/iwpmd/iwarp_pm_server.c:1245-1291 | One step of any host, or the delivery of any message ever sent, keeps that |
| Networks.SendMoves | dtld-ibverbs/rdma-core-55.0/iwpmd/iwarp_pm_server.c:166-176 | Sending takes the message at the head of the queue, and that message is on the wire unless lost |
| Networks.MirrorAddresses | dtld-ibverbs/rdma-core-55.0/iwpmd/iwarp_pm_server.c:664-672 | The accept built from an entry names the entry's mapped address, or for a wildcard entry the address that was asked for on its mapped port |
| Networks.AcceptCarries | dtld-ibverbs/rdma-core-55.0/iwpmd/iwarp_pm_server.c:735-796 | The accept a host sees brings back its own handle, IP version and connecting address |
| Networks.StartedQueryIsGood | dtld-ibverbs/rdma-core-55.0/iwpmd/iwarp_pm_server.c:464-513 | A started query's message decodes to the asked-for remote address and to the mapped address of the entry it uses |
| Verdicts.ReplyLeadsToVerdict | dtld-ibverbs/rdma-core-55.0/iwpmd/iwarp_pm_server.c:735-855 | In every run, an accept or reject that arrives while its query is open, its entry mapped and the client reachable adds exactly that query's verdict, with the header of the client message, if the query's message names the address it was started from; if not, it changes nothing |
| Verdicts.AnswerableIff | dtld-ibverbs/rdma-core-55.0/iwpmd/iwarp_pm_server.c:447-491 | A started query's message names the address it was started from if and only if local and remote are of one family; never for a wildcard of that family |
| Verdicts.RefusalArrives | dtld-ibverbs/rdma-core-55.0/iwpmd/iwarp_pm_server.c:418-851 | For every query there is a run in which its host has nothing mapped and the reject comes back: the client is told it was rejected, unless the families differ, when nothing changes |
| Verdicts.RepeatedAcceptInRun | dtld-ibverbs/rdma-core-55.0/iwpmd/iwarp_pm_server.c:768-793 | In every run, an accept that comes again while its ack is tracked is acknowledged once more, the ack's wait starts again, and nothing else changes |
| Verdicts.StepAcks | dtld-ibverbs/rdma-core-55.0/iwpmd/iwarp_pm_server.c:314-957 | Every step keeps that a tracked ack is for a query reported accepted and comes before whatever else is tracked for it |
| Effects.QueryEffect | dtld-ibverbs/rdma-core-55.0/iwpmd/iwarp_pm_server.c:447-511 | A query is started if and only if its local address has a non-wildcard entry or can get one, its remote address has a known family and there is memory; then it is tracked, open and with its whole wait, and its message to the asked host names remote, local and mapped address; otherwise nothing changes |
| Effects.UnmappedIsRefused | dtld-ibverbs/rdma-core-55.0/iwpmd/iwarp_pm_server.c:653-663 | A request for an unmapped address queues one reject to its sender, with its handle and addresses, and changes nothing else |
| Effects.MappedIsAccepted | dtld-ibverbs/rdma-core-55.0/iwpmd/iwarp_pm_server.c:664-716 | A request for a mapped address is accepted, that is tracked, queued and its owner told, if there is memory and no accept with its handle and mapped address is tracked; otherwise it changes nothing |
| Effects.AcceptNames | dtld-ibverbs/rdma-core-55.0/iwpmd/iwarp_pm_server.c:664-672 | An accept names the entry's mapped address, or the asked-for address on the mapped port of a wildcard entry |
| Effects.RejectIsReported | dtld-ibverbs/rdma-core-55.0/iwpmd/iwarp_pm_server.c:822-851 | A reject for an open query closes it and, if the client can be told, adds one report: rejected, with that query's handle and header, to the entry's owner |
| Effects.AcceptIsReported | dtld-ibverbs/rdma-core-55.0/iwpmd/iwarp_pm_server.c:746-792 | An accept for an open query closes it and, if the client can be told, adds one report with the peer's mapped address; with memory the ack is tracked |
| Effects.AcceptIsAcked | dtld-ibverbs/rdma-core-55.0/iwpmd/iwarp_pm_server.c:784-793 | And then one ack goes back to the accept's sender, with its handle and addresses |
| Effects.RepeatedAcceptIsAcked | dtld-ibverbs/rdma-core-55.0/iwpmd/iwarp_pm_server.c:768-793 | A repeated accept is acknowledged and restarts the wait of its tracked ack |
| Effects.ClosedIsIgnored | dtld-ibverbs/rdma-core-55.0/iwpmd/iwarp_pm_server.c:757-767 | A reply whose handle has no open query and no tracked ack to meet changes nothing |
| Handshakes.HandshakeCompletes | dtld-ibverbs/rdma-core-55.0/iwpmd/iwarp_pm_server.c:418-796 | For any two non-wildcard addresses of one family, and a listener on the one asked for or on the wildcard of its port, there is a run in which both clients are told of one query with everything still mapped, so the agreement is about something that happens |
| Handshakes.ActiveLearns | dtld-ibverbs/rdma-core-55.0/iwpmd/iwarp_pm_server.c:774-783 | At its end the active client has been told the server's address on the port the listener has mapped, and its own mapped address |
| Handshakes.PassiveLearns | dtld-ibverbs/rdma-core-55.0/iwpmd/iwarp_pm_server.c:709-715 | And the listener the client's address and the one it is mapped to |
| Handshakes.HandshakeEnds | dtld-ibverbs/rdma-core-55.0/iwpmd/iwarp_pm_server.c:861-882 | That run can go on: the ack is found by the mapped address, completes the tracked accept, and the next timer pass forgets it and sends nothing |
| LateAcks.AckCompletesIff | dtld-ibverbs/rdma-core-55.0/iwpmd/iwarp_pm_server.c:861-882 | After an ack its accept is complete if and only if it was before or an entry is still mapped to the address; without one the ack changes nothing |
| LateAcks.AckEndsAccept | dtld-ibverbs/rdma-core-55.0/iwpmd/iwarp_pm_server.c:861-882 | In every run, an accept whose ack finds the address mapped is gone after the timer pass that follows, which sends nothing for it |
| LateAcks.LateAck | dtld-ibverbs/rdma-core-55.0/iwpmd/iwarp_pm_server.c:868-873 | There is a run in which the ack comes after the mapping was removed and is ignored, so the accept goes on being sent |
| Daemons.AtMostOneVerdict | dtld-ibverbs/rdma-core-55.0/iwpmd/iwarp_pm_server.c:757-851 | However accepts, rejects and timer passes repeat and interleave, a query is answered at most once, by success or rejection but not both, with the header of the client message that asked |
| Daemons.LaterAcceptsOnlyAck | dtld-ibverbs/rdma-core-55.0/iwpmd/iwarp_pm_server.c:757-796 | After the verdict, an accept for the query is ignored or answered by one more ack; no report and no change of the port table |
| Daemons.RefcountDiscipline | dtld-ibverbs/rdma-core-55.0/iwpmd/iwarp_pm_server.c:383-575 | In every reachable state a linked entry's count is at least 1 and equals one plus reuses minus accepted removals; it is linked once and not freed |
| RefCounts.CountIsBalance | dtld-ibverbs/rdma-core-55.0/iwpmd/iwarp_pm_server.c:338-575 | In every run an entry's count is the number of times additions, queries and mapping records took it, less the number of times its owner removed it, both counted from what was asked; it is in the table exactly while that is not zero |
| RefCounts.StepHolders | dtld-ibverbs/rdma-core-55.0/iwpmd/iwarp_pm_server.c:338-575 | One step adds the holder that takes the entry and takes off the one that gives it back |
| RefCounts.QueryTakesReference | dtld-ibverbs/rdma-core-55.0/iwpmd/iwarp_pm_server.c:447-450 | A query from a mapped address raises that entry's count by one and links nothing |
| RefCounts.QueryOutlivesRemoval | dtld-ibverbs/rdma-core-55.0/iwpmd/iwarp_pm_server.c:447-575 | In every run, after such a query one removal by the owner leaves the address mapped |
| RefCounts.EntryHasItsStep | dtld-ibverbs/rdma-core-55.0/iwpmd/iwarp_pm_helper.c:250-331 | In every run each entry was linked by a step that asked for it, and has that step's address and client, and its mapped address with the port that was bound or given |
| RefCounts.NewEntryIsFor | dtld-ibverbs/rdma-core-55.0/iwpmd/iwarp_pm_server.c:925-947 | An addition, query or mapping record for a free address links, at the head, one entry with its own local and mapped address |
| RefCounts.RecordIsRestored | dtld-ibverbs/rdma-core-55.0/iwpmd/iwarp_pm_server.c:939-946 | A mapping record for a free address, whose port the host gives back, is linked at the head with its own local and mapped address |
| RefCounts.AddOutcomes | dtld-ibverbs/rdma-core-55.0/iwpmd/iwarp_pm_server.c:338-398 | An addition is reported done exactly if its client has become a holder |
| RefCounts.QueryOutcomes | dtld-ibverbs/rdma-core-55.0/iwpmd/iwarp_pm_server.c:447-531 | A query is reported started exactly if it was |
| RefCounts.MapInfoOutcomes | dtld-ibverbs/rdma-core-55.0/iwpmd/iwarp_pm_server.c:925-957 | A mapping record is taken as new exactly if it links an entry, and as known exactly if some entry has both its addresses |
| Daemons.FreedOnce | dtld-ibverbs/rdma-core-55.0/iwpmd/iwarp_pm_server.c:559-575 | Every entry ever linked has been freed exactly once if it is off the list, and not at all while it is on it |
| Daemons.PortsStayApart | dtld-ibverbs/rdma-core-55.0/iwpmd/iwarp_pm_helper.c:394-413 | In every reachable state two linked entries on one local port have different, non-wildcard addresses, so a search for a non-wildcard address has at most one hit |
| Daemons.RunKeeps | dtld-ibverbs/rdma-core-55.0/iwpmd/iwarp_pm_server.c:314-957 | The table, request-list and verdict invariants hold after every run of client requests, wire messages, timer passes and sends |
| Daemons.StepKeeps | dtld-ibverbs/rdma-core-55.0/iwpmd/iwarp_pm_server.c:314-957 | Each single step keeps them |
| Daemons.VerdictKeeps | dtld-ibverbs/rdma-core-55.0/iwpmd/iwarp_pm_server.c:758-777 | Answering a query that is still open, and closing it with the same step, keeps at most one verdict per query |
| Daemons.WireAcceptKeeps | dtld-ibverbs/rdma-core-55.0/iwpmd/iwarp_pm_server.c:735-796 | Processing any accept keeps the daemon's invariants |
| Daemons.WireRejectKeeps | dtld-ibverbs/rdma-core-55.0/iwpmd/iwarp_pm_server.c:806-855 | Processing any reject keeps them |
| Daemons.WireRequestKeeps | dtld-ibverbs/rdma-core-55.0/iwpmd/iwarp_pm_server.c:640-716 | Processing any request keeps them |
| Daemons.QueryMappingKeeps | dtld-ibverbs/rdma-core-55.0/iwpmd/iwarp_pm_server.c:418-531 | Starting a query, or failing to at any point, keeps them |
| PortTables.FindMapping | dtld-ibverbs/rdma-core-55.0/iwpmd/iwarp_pm_helper.c:394-413 | The position of the first entry on the same port that has the same address or where either side is a wildcard; None exactly when there is none |
| PortTables.FindsIff | dtld-ibverbs/rdma-core-55.0/iwpmd/iwarp_pm_helper.c:394-413 | A search by local or mapped address succeeds if and only if an entry is on the same port with the same address or a wildcard on either side |
| PortTables.FindSame | dtld-ibverbs/rdma-core-55.0/iwpmd/iwarp_pm_helper.c:423-438 | The position of the first entry with the same local address; None exactly when there is none |
| PortTables.HitIsUnique | dtld-ibverbs/rdma-core-55.0/iwpmd/iwarp_pm_helper.c:394-413 | In a table satisfying the invariant, two hits for a non-wildcard address are one entry |
| PortTables.FindIsOrderFree | dtld-ibverbs/rdma-core-55.0/iwpmd/iwarp_pm_helper.c:394-413 | Two orders of the same entries give the same entry, or none, for a non-wildcard address |
| PortTables.SameHitIsSameEntry | dtld-ibverbs/rdma-core-55.0/iwpmd/iwarp_pm_helper.c:394-413 | Two linked entries that answer one search are one, if the address or one of the entries rules out ambiguity |
| PortTables.SameLocalIsSameEntry | dtld-ibverbs/rdma-core-55.0/iwpmd/iwarp_pm_helper.c:423-438 | Two linked entries with the same local address are one |
| PortTables.AddMappingKeeps | dtld-ibverbs/rdma-core-55.0/iwpmd/iwarp_pm_server.c:314-398 | The table invariant is kept, and any outcome but success leaves the table exactly as it was |
| PortTables.AddThenRemove | dtld-ibverbs/rdma-core-55.0/iwpmd/iwarp_pm_server.c:314-578 | A removal by the client that added undoes an addition, leaving the list as before both, if and only if the entry was shared and is that client's own or was new and of a known family |
| PortTables.SharerLeavesMapping | dtld-ibverbs/rdma-core-55.0/iwpmd/iwarp_pm_server.c:338-578 | Two clients on one wildcard address: the second one's removal is refused, and after the first one's the address is still mapped |
| PortTables.AddTwice | dtld-ibverbs/rdma-core-55.0/iwpmd/iwarp_pm_server.c:338-346 | Adding a mapped address again succeeds exactly for a wildcard, which gets one more owner and no new entry; otherwise the table is untouched |
| PortTables.MapInfoKeeps | dtld-ibverbs/rdma-core-55.0/iwpmd/iwarp_pm_server.c:901-957 | Recording a client's mapping after a restart keeps the invariant |
| PortTables.RemoveMappingKeeps | dtld-ibverbs/rdma-core-55.0/iwpmd/iwarp_pm_server.c:539-578 | Removing a mapping keeps the invariant |
| PortTables.ReleaseKeeps | dtld-ibverbs/rdma-core-55.0/iwpmd/iwarp_pm_server.c:572-575 | Taking an owner away keeps the invariant; exactly the last owner unlinks the entry, and only that entry |
| PortTables.LinkKeeps | dtld-ibverbs/rdma-core-55.0/iwpmd/iwarp_pm_helper.c:337-344 | Linking a new entry whose address has no hit keeps the invariant and links nothing else |
| PortTables.ReuseKeeps | dtld-ibverbs/rdma-core-55.0/iwpmd/iwarp_pm_server.c:338-341 | One more owner keeps the invariant and links or unlinks nothing |
| SockAddrs.SameIsPartialEquivalence | dtld-ibverbs/rdma-core-55.0/iwpmd/iwarp_pm_helper.c:350-383 | check_same_sockaddr is symmetric and transitive, reflexive exactly on known families, and respects ports and wildcards |
| SockAddrs.PackUnpack | dtld-ibverbs/rdma-core-55.0/iwpmd/iwarp_pm_common.c:528-578 | Copying an address into a message and rebuilding it gives the same address exactly when the message has its family; the port always survives |
| SockAddrs.SameOnTheWire | dtld-ibverbs/rdma-core-55.0/iwpmd/iwarp_pm_helper.c:350-383 | Two addresses are the same exactly when family, port and wire bytes are, and a wildcard is exactly all zeros on the wire |
| WireMsgs.RoundTrip | dtld-ibverbs/rdma-core-55.0/iwpmd/iwarp_pm_common.c:379-438 | Parsing a formed message gives every field back, the mapped connecting address exactly for requests |
| WireMsgs.MagicRoundTrip | dtld-ibverbs/rdma-core-55.0/iwpmd/iwarp_pm_common.c:425-428 | The packed IP version, protocol version and type come apart again |
| WireMsgs.HandleRoundTrip | dtld-ibverbs/rdma-core-55.0/iwpmd/iwarp_pm_common.c:424 | The 64-bit handle survives big-endian conversion |
| WireMsgs.BytesRoundTrip | dtld-ibverbs/rdma-core-55.0/iwpmd/iwarp_pm.h:146-157 | The message structure survives being sent as its 64 bytes |
| WireMsgs.StructureRoundTrip | dtld-ibverbs/rdma-core-55.0/iwpmd/iwarp_pm.h:146-157 | Any 64 bytes are those of the structure they are read as |
| WireMsgs.ShortMessageRoundTrip | dtld-ibverbs/rdma-core-55.0/iwpmd/iwarp_pm_common.c:458-490 | For accept, ack and reject the first 48 bytes alone give the parameters back, whatever the receive buffer held |
| WireMsgs.TransportRoundTrip | dtld-ibverbs/rdma-core-55.0/iwpmd/iwarp_pm_server.c:1245-1268 | What is received is what was sent, for both message sizes and any stale buffer contents |
| WireMsgs.Layout | dtld-ibverbs/rdma-core-55.0/iwpmd/iwarp_pm.h:146-157 | The byte positions of every parameter in a message as sent, the handle as a big-endian number, the first byte as a sum |
| WireMsgs.AddressBytes | dtld-ibverbs/rdma-core-55.0/iwpmd/iwarp_pm_common.c:528-578 | An IPv4 address is the first four bytes of its field, an IPv6 one all sixteen |
| WireMsgs.WireBuffer.FormMsg | dtld-ibverbs/rdma-core-55.0/iwpmd/iwarp_pm_common.c:420-438 | Filling the structure field by field gives the message that the round trips are about |
| MapRequests.UnansweredLife | dtld-ibverbs/rdma-core-55.0/iwpmd/iwarp_pm_server.c:115-138 | In every run of posts, replies and passes, a request that no reply matches is gone on the 11th pass; the message of a query or accept has been put on the queue on passes 2 to 10, nine times, less the passes that found no memory, and for an ack nothing has |
| MapRequests.QueueAfterPass | dtld-ibverbs/rdma-core-55.0/iwpmd/iwarp_pm_server.c:118-135 | The exact queue after a pass: what later requests put there, what this one did, what earlier ones did, and what was there |
| TimerBounds.TimerBound | dtld-ibverbs/rdma-core-55.0/iwpmd/iwarp_pm_server.c:115-138 | The same bound in every run of the whole daemon, counted in its timer steps |
| TimerBounds.PassFillsQueue | dtld-ibverbs/rdma-core-55.0/iwpmd/iwarp_pm_server.c:118-135 | In every run, what a tracked request is recorded to have put on the queue is what each timer pass added to the daemon's queue for it |
| TimerBounds.CompletedInRun | dtld-ibverbs/rdma-core-55.0/iwpmd/iwarp_pm_helper.c:145-153 | In every run, a completed request is gone after the next timer pass, which adds nothing to the queue for it |
| TimerBounds.StepOnList | dtld-ibverbs/rdma-core-55.0/iwpmd/iwarp_pm_server.c:314-957 | Every step of the daemon acts on the list of requests by posts, replies and passes only, and makes a pass exactly when it is a timer step |
| MapRequests.CompletedIsRemoved | dtld-ibverbs/rdma-core-55.0/iwpmd/iwarp_pm_helper.c:145-153 | A request completed by a reply is gone after the next pass, and the queue after that pass is what other requests put there in front of what it held |
| MapRequests.PassSpendsBudget | dtld-ibverbs/rdma-core-55.0/iwpmd/iwarp_pm_server.c:115-138 | Each pass lowers the sum of timeout + 1 by exactly the number of requests |
| MapRequests.ListDrains | dtld-ibverbs/rdma-core-55.0/iwpmd/iwarp_pm_server.c:115-138 | Without posts or refreshes the list is empty after eleven passes |
| MapRequests.FollowIsRun | dtld-ibverbs/rdma-core-55.0/iwpmd/iwarp_pm_server.c:115-138 | Following one request through a run observes the run without changing it |
| MapRequests.FindReq | dtld-ibverbs/rdma-core-55.0/iwpmd/iwarp_pm_helper.c:125-160 | The first request with the handle, one of the kinds and the source address; None exactly when there is none |
| MapRequests.ServiceReaches | dtld-ibverbs/rdma-core-55.0/iwpmd/iwarp_pm_helper.c:125-160 | A reply changes only the first request with its handle, kind and address: an open query or accept is complete with no time left, a tracked ack has ten seconds again |
| MapRequests.PassOrigin | dtld-ibverbs/rdma-core-55.0/iwpmd/iwarp_pm_server.c:118-135 | Whatever a pass leaves on the list was on it, one second younger |
| MapRequests.ResendOrigin | dtld-ibverbs/rdma-core-55.0/iwpmd/iwarp_pm_server.c:119-131 | Whatever a pass leaves on the queue was there before or is kept by a tracked request |
| Server.Iwpmd.FindIwpmMapping | dtld-ibverbs/rdma-core-55.0/iwpmd/iwarp_pm_helper.c:394-413 | The list walk finds the specified entry |
| Server.Iwpmd.FindIwpmSameMapping | dtld-ibverbs/rdma-core-55.0/iwpmd/iwarp_pm_helper.c:423-438 | The list walk finds the specified entry |
| Server.Iwpmd.UpdateIwpmMapRequest | dtld-ibverbs/rdma-core-55.0/iwpmd/iwarp_pm_helper.c:125-160 | The copy is the matching request before the update; the list afterwards is the specified one |
| Server.Iwpmd.AddIwpmMappedPort | dtld-ibverbs/rdma-core-55.0/iwpmd/iwarp_pm_helper.c:337-344 | A new entry is linked at the head under a number no entry had before; an entry with more than one owner is not linked a second time |
| Server.Iwpmd.ProcessAddMapping | dtld-ibverbs/rdma-core-55.0/iwpmd/iwarp_pm_server.c:314-398 | The handler that raises the count and lowers it again on errors has the specified net effect on the whole state |
| Server.Iwpmd.ProcessQueryMapping | dtld-ibverbs/rdma-core-55.0/iwpmd/iwarp_pm_server.c:418-531 | Same, with every error path restoring the table exactly |
| Server.Iwpmd.ProcessRemoveMapping | dtld-ibverbs/rdma-core-55.0/iwpmd/iwarp_pm_server.c:539-578 | Same for removal, which only the owner may ask for |
| Server.Iwpmd.ProcessMapInfo | dtld-ibverbs/rdma-core-55.0/iwpmd/iwarp_pm_server.c:901-957 | Same for mapping records |
| Server.Iwpmd.ProcessWireRequest | dtld-ibverbs/rdma-core-55.0/iwpmd/iwarp_pm_server.c:640-716 | Same for a peer's request |
| Server.Iwpmd.AcceptWireRequest | dtld-ibverbs/rdma-core-55.0/iwpmd/iwarp_pm_server.c:664-716 | Same for a request whose entry was found |
| Server.Iwpmd.ProcessWireAccept | dtld-ibverbs/rdma-core-55.0/iwpmd/iwarp_pm_server.c:735-796 | Same for an accept |
| Server.Iwpmd.ProcessWireReject | dtld-ibverbs/rdma-core-55.0/iwpmd/iwarp_pm_server.c:806-855 | Same for a reject |
| Server.Iwpmd.ProcessWireAck | dtld-ibverbs/rdma-core-55.0/iwpmd/iwarp_pm_server.c:861-882 | Same for an ack |
| Server.Iwpmd.TimerPass | dtld-ibverbs/rdma-core-55.0/iwpmd/iwarp_pm_server.c:115-138 | The pass that deletes from the list it walks leaves the specified list and queue |
| Server.Iwpmd.ProcessIwpmNetlinkMsg | dtld-ibverbs/rdma-core-55.0/iwpmd/iwarp_pm_server.c:1189-1227 | Whatever a client asks, the daemon object makes the specified step and keeps the table, count, request and verdict invariants |
| Server.Iwpmd.ProcessIwpmMsg | dtld-ibverbs/rdma-core-55.0/iwpmd/iwarp_pm_server.c:1245-1291 | Whatever bytes arrive, the daemon object ignores them or makes the step of the message they hold, and keeps those invariants |
| Server.Iwpmd.MappingReqsHandler | dtld-ibverbs/rdma-core-55.0/iwpmd/iwarp_pm_server.c:115-138 | A timer pass keeps those invariants and needs no other condition: every tracked query and accept has its message |
| Server.Iwpmd.PopPending | dtld-ibverbs/rdma-core-55.0/iwpmd/iwarp_pm_server.c:166-167 | Taking the next message keeps those invariants |
| Server.Iwpmd.ValidMeans | dtld-ibverbs/rdma-core-55.0/iwpmd/iwarp_pm_server.c:314-957 | In any state of the daemon object no query has two verdicts, every count is one plus reuses minus removals, and no two entries can answer one search |
| TimerThread.NoLostWakeup | dtld-ibverbs/rdma-core-55.0/iwpmd/iwarp_pm_server.c:95-142 | In every interleaving with posters and repliers, the blocked, unsignalled timer thread has an empty list whenever the mutex is free; otherwise the holder is a poster whose next step wakes it |
| TimerThread.RunKeeps | dtld-ibverbs/rdma-core-55.0/iwpmd/iwarp_pm_server.c:95-142 | The mutex and wake-flag invariant behind it holds in every reachable state |
| TimerThread.StepKeeps | dtld-ibverbs/rdma-core-55.0/iwpmd/iwarp_pm_helper.c:88-96 | Each atomic step of any thread keeps it, and the flag is clear while the thread looks or waits and set from its first pass on |
| TimerThread.PassFollows | dtld-ibverbs/rdma-core-55.0/iwpmd/iwarp_pm_server.c:100-139 | With the mutex free and requests tracked, the timer thread alone makes its pass over these very requests within six steps |
| TimerThread.WokenForWork | dtld-ibverbs/rdma-core-55.0/iwpmd/iwarp_pm_helper.c:88-96 | In every run what wakes the timer thread, other than a spurious wakeup, is a poster's signal, and the list is not empty |
| TimerThread.IdleWaits | dtld-ibverbs/rdma-core-55.0/iwpmd/iwarp_pm_server.c:95-139 | With the mutex free and nothing tracked, the timer thread alone is back at its wait within ten steps |
| TimerThread.PostIsWalked | dtld-ibverbs/rdma-core-55.0/iwpmd/iwarp_pm_helper.c:88-96 | In every run, wherever the timer thread is, a poster can go on to its end and the timer thread's pass that follows within six steps goes over the list with the new request at its head |
| TimerThread.PostedWhileWaiting | dtld-ibverbs/rdma-core-55.0/iwpmd/iwarp_pm_helper.c:90-94 | There is a run in which the timer thread is blocked over a list that is not empty, with the poster about to signal |
| TimerThread.WorkOnList | dtld-ibverbs/rdma-core-55.0/iwpmd/iwarp_pm_helper.c:91 | A post puts its request at the head, a reply serves the request it matches |
| SenderThread.Conservation | dtld-ibverbs/rdma-core-55.0/iwpmd/iwarp_pm_server.c:147-191 | Every message posted is queued, in hand, or freed once after one to three attempts, fewer than three only if the last one worked |
| SenderThread.NeverStuckIff | dtld-ibverbs/rdma-core-55.0/iwpmd/iwarp_pm_server.c:154-163 | The sender is never blocked over a non-empty queue with no signal due, at any time of a run, if and only if just before its first wait the queue was empty or a poster had yet to signal |
| SenderThread.FirstWaitCanBeStuck | dtld-ibverbs/rdma-core-55.0/iwpmd/iwarp_pm_server.c:154-163 | A message posted and signalled before the first wait stays on the queue while the sender sleeps |
| SenderThread.BlockedMeansSignalComing | dtld-ibverbs/rdma-core-55.0/iwpmd/iwarp_pm_helper.c:494-509 | When it is not stuck, blocked over a non-empty queue with the mutex free, some poster is between unlocking and signalling and its signal wakes the sender |
| SenderThread.StepUnstuck | dtld-ibverbs/rdma-core-55.0/iwpmd/iwarp_pm_helper.c:494-509 | Past the first wait no step makes the sender stuck |
| SenderThread.SenderDrains | dtld-ibverbs/rdma-core-55.0/iwpmd/iwarp_pm_server.c:165-185 | A sender with the mutex empties the queue from its head, each message sent at the first attempt or given up after three, and then waits |
| SenderThread.PostIsSent | dtld-ibverbs/rdma-core-55.0/iwpmd/iwarp_pm_helper.c:503-508 | In every run, a message posted while the sender waits makes it, once signalled, deal with this message and then with all that was queued, newest first |
| SenderThread.SendWithRetries | dtld-ibverbs/rdma-core-55.0/iwpmd/iwarp_pm_server.c:168-183 | One to three attempts, stopping at the first that works |
| CcanLists.ListCheckNode | dtld-ibverbs/rdma-core-55.0/ccan/list.c:20-36 | Terminates on every finite closed heap and succeeds exactly when the node lies on a well-formed ring |
| CcanLists.NotOnRing | dtld-ibverbs/rdma-core-55.0/ccan/list.c:25-33 | One failed prev test on the walk shows the start lies on no ring |
| CcanLists.ListAddAfter | dtld-ibverbs/rdma-core-55.0/ccan/list.h:178-188 | Insertion after a node of a ring |
| CcanLists.ListAddBefore | dtld-ibverbs/rdma-core-55.0/ccan/list.h:227-237 | Insertion before a node of a ring; before the first means at the end |
| CcanLists.ListAdd | dtld-ibverbs/rdma-core-55.0/ccan/list.h:204-209 | Insertion at the front of the sequence |
| CcanLists.ListAddTail | dtld-ibverbs/rdma-core-55.0/ccan/list.h:250-255 | Insertion at its end |
| CcanLists.ListDel | dtld-ibverbs/rdma-core-55.0/ccan/list.h:324-333 | Removal of the node from its ring |
| CcanLists.ListSwap | dtld-ibverbs/rdma-core-55.0/ccan/list.h:405-417 | Replacement of one node by another on a ring; a node alone on its ring ends up on one ring with the other |
| CcanLists.ListPop | dtld-ibverbs/rdma-core-55.0/ccan/list.h:475-484 | The first element, removed, or null exactly when the list is empty |
| CcanLists.ListEmpty | dtld-ibverbs/rdma-core-55.0/ccan/list.h:267-271 | True exactly on the empty list |
| CcanLists.ListAppendList | dtld-ibverbs/rdma-core-55.0/ccan/list.h:640-656 | Concatenation at the end, the source left empty, also when either list is empty |
| CcanLists.ListPrependList | dtld-ibverbs/rdma-core-55.0/ccan/list.h:672-688 | Concatenation at the front, the source left empty, also when either list is empty |
| CcanLists.ForEachSafe | dtld-ibverbs/rdma-core-55.0/ccan/list.h:698-706 | With a body that deletes any chosen current elements, every original element is visited once and in order and exactly the others remain |
| CcanLists.ListNode.constructor | dtld-ibverbs/rdma-core-55.0/ccan/list.h:143-158 | A new node is a ring of its own |
| LibGraphs.LibSets.ComputeGraph | dtld-ibverbs/rdma-core-55.0/buildlib/sanitize_static_lib.py:197-214 | On any finite acyclic library graph, in whatever order sets are walked: terminates, keeps reachability exactly, leaves no edge implied by a longer path, keeps needs and needed inverse; the result is the transitive reduction |
| LibGraphs.LibSets.Prune | dtld-ibverbs/rdma-core-55.0/buildlib/sanitize_static_lib.py:206-210 | Removes from the target exactly what the current library reaches, although it walks the graph it changes |
| LibGraphs.LibSets.PruneAll | dtld-ibverbs/rdma-core-55.0/buildlib/sanitize_static_lib.py:212-214 | Removes exactly the edges of one library that its neighbours imply |
| LibGraphs.LibSets.PruneEach | dtld-ibverbs/rdma-core-55.0/buildlib/sanitize_static_lib.py:206-214 | Doing that library by library, in any order, gives the transitive reduction of the graph it started from |
| LibGraphs.LibSets.AddEdges | dtld-ibverbs/rdma-core-55.0/buildlib/sanitize_static_lib.py:200-203 | One edge for every pair where one library defines what another needs |
| LibGraphs.EdgeIsSymbol | dtld-ibverbs/rdma-core-55.0/buildlib/sanitize_static_lib.py:198-203 | An edge is exactly a symbol that one library defines and another needs |
| LibGraphs.ReductionKeepsReach | dtld-ibverbs/rdma-core-55.0/buildlib/sanitize_static_lib.py:206-214 | Dropping the implied edges of any set of libraries changes no reachability and creates no cycle |
| LibGraphs.DetourSurvives | dtld-ibverbs/rdma-core-55.0/buildlib/sanitize_static_lib.py:206-214 | A path over a dropped edge can be replaced by a longer surviving one, and that ends because paths fit the graph |
| LibGraphs.ReductionIsLeast | dtld-ibverbs/rdma-core-55.0/buildlib/sanitize_static_lib.py:197-214 | Every graph with the same reachability contains the reduction |
| LibGraphs.ReductionIsReduced | dtld-ibverbs/rdma-core-55.0/buildlib/sanitize_static_lib.py:197-214 | The reduction has the reachability of the graph, and no edge of it is implied by others of it |
| Routes.FindRoute | dtld-ibverbs/rdma-core-55.0/infiniband-diags/ibtracert.c:262-403 | Stops within 63 passes; succeeds if and only if the forwarding tables lead from the first port to the target along a trail of at most 62 ports that pass the activity test (63 if the last is a switch's own agent), and then has followed that very trail, over ports in state 4 and by the switches' tables and cables; otherwise it says why, and the reason is true of the port where its path has led it; the path is full only if the hops it began with and the ports visited are at least 63 together |
| Routes.TrailsAgree | dtld-ibverbs/rdma-core-55.0/infiniband-diags/ibtracert.c:172-360 | There is only one trail from a port: at a switch its forwarding entry decides, at an adapter or router the path that led there or its own port |
| Routes.RouteIsFound | dtld-ibverbs/rdma-core-55.0/infiniband-diags/ibtracert.c:303-385 | If the tables lead to the target, no reason to stop early can hold on the way: the trace succeeds, by that route |
| Routes.SuccessReaches | dtld-ibverbs/rdma-core-55.0/infiniband-diags/ibtracert.c:303-385 | A trace that succeeds has followed the tables to the target |
| Routes.RouteOnFabric | dtld-ibverbs/rdma-core-55.0/infiniband-diags/ibtracert.c:123-199 | On a route every port that is not a switch's is in state 4, a switch's if it has an enhanced port 0, and every switch is left by its own entry for the LID and the cable there |
| Routes.PassesIff | dtld-ibverbs/rdma-core-55.0/infiniband-diags/ibtracert.c:123-131 | The activity test on the port: state 4, for a switch only with an enhanced port 0 |
| Routes.ForwardsIff | dtld-ibverbs/rdma-core-55.0/infiniband-diags/ibtracert.c:172-199 | A switch has no usable entry exactly if the LID is beyond both limits or outside the table or the entry is no port of it |
| Routes.OneSwitchRoute | dtld-ibverbs/rdma-core-55.0/infiniband-diags/ibtracert.c:262-385 | Through one switch whose entry points at the target, with all ports active, there is a route, so the trace finds it |
| Routes.OnePass | dtld-ibverbs/rdma-core-55.0/infiniband-diags/ibtracert.c:303-378 | One pass ends the trace with an outcome true of its trail, or makes the trail one port longer |
| Routes.MoveOn | dtld-ibverbs/rdma-core-55.0/infiniband-diags/ibtracert.c:303-378 | One pass: the move follows the tables, and the port it goes to passes the tests, or the pass says why not |
| Routes.LeaveSwitch | dtld-ibverbs/rdma-core-55.0/infiniband-diags/ibtracert.c:310-327 | Leaving a switch goes where its forwarding entry and the link lead |
| Routes.LeaveEndNode | dtld-ibverbs/rdma-core-55.0/infiniband-diags/ibtracert.c:328-360 | Leaving an adapter or router, which must have the first port's GUID, goes back to the port its path came from or through its own port, and the path leads to the new port |
| Routes.BackCrossesLink | dtld-ibverbs/rdma-core-55.0/infiniband-diags/ibtracert.c:341-359 | Going back crosses the link the node was entered by; only from its own agent does it stay |
| Routes.ExtendWalks | dtld-ibverbs/rdma-core-55.0/infiniband-diags/ibtracert.c:203-210 | Extending the direct route by a port leads one hop further and changes nothing before |
| MadRpcs.MadRpc | dtld-ibverbs/rdma-core-55.0/libibmad/rpc.c:191-270 | For every finite sequence of receives: data comes back exactly when the last destination answered with a matching id and status 0, and is that answer's data; body, and a nonzero id, are the same in all sends; each later destination is the one the previous answer redirected to; at most the allowed retries per destination; a destination without answer has one of four reasons, and the error field is that reason's code, 0 on success |
| MadRpcs.DoMadRpc | dtld-ibverbs/rdma-core-55.0/libibmad/rpc.c:119-189 | The answer is the first delivered reply with the low 32 id bits, and its length is returned; each earlier attempt used up one undelivered match; a call without answer ended for one of four stated reasons, with the error code of that reason |
| MadRpcs.TridSource.MadTrid | dtld-ibverbs/rdma-core-55.0/libibmad/mad.c:57-69 | Counts up from a random start and hands out the low half; consecutive ids differ |
| MadRpcs.RpcCall.Encode | dtld-ibverbs/rdma-core-55.0/libibmad/mad.c:118-122 | A request gets an id only if it has none, the next of the counter, and keeps it |
| MadRpcs.CallGrows | dtld-ibverbs/rdma-core-55.0/libibmad/rpc.c:212-270 | Adding a round that follows the last redirection keeps the shape of a call |
| MadRpcs.CallOnTheWire | dtld-ibverbs/rdma-core-55.0/libibmad/rpc.c:148-233 | The answer of a destination is the first datagram received from then on with the low 32 id bits that was delivered or found no memory; the next destination is where an answer of status 2 with a LID points |
| Ilogs.Ilog32FormsAgree | dtld-ibverbs/rdma-core-55.0/ccan/ilog.c:20-66 | On every 32-bit word the de Bruijn, branchless and macro forms agree and equal floor(log2 v) + 1, or 0 at 0 |
| Ilogs.Ilog64FormsAgree | dtld-ibverbs/rdma-core-55.0/ccan/ilog.c:73-135 | The same for every 64-bit word and the four 64-bit forms |
| Ilogs.Ilog32NoDebruijn | dtld-ibverbs/rdma-core-55.0/ccan/ilog.c:35-52 | The branchless steps, collecting bits with or, compute the recursive branchless form |
| Ilogs.Ilog64NoDebruijn | dtld-ibverbs/rdma-core-55.0/ccan/ilog.c:74-95 | The same in 64 bits |
| Ilogs.Ilog64AtTop | dtld-ibverbs/rdma-core-55.0/ccan/ilog.c:115-132 | If bit k is the highest, the de Bruijn form returns k + 1 |
| Ilogs.SmearedTop64 | dtld-ibverbs/rdma-core-55.0/ccan/ilog.c:123-130 | Smearing the top bit downwards, halving and adding one leaves the top bit alone |
| Ilogs.Table64 | dtld-ibverbs/rdma-core-55.0/ccan/ilog.c:116-121 | The 64-entry table inverts the de Bruijn product on every power of two |
| Ilogs.Ilog64HalvesIsLog | dtld-ibverbs/rdma-core-55.0/ccan/ilog.c:98-113 | The form for hosts without 64-bit words is the logarithm |
| Ilogs.Static5IsLog | dtld-ibverbs/rdma-core-55.0/ccan/ilog.h:139-147 | The macro form on 32-bit values is the logarithm |
| Ilogs.Static6IsLog | dtld-ibverbs/rdma-core-55.0/ccan/ilog.h:139-149 | The macro form on 64-bit values is the logarithm |
| Ilogs.LogIsUnique | dtld-ibverbs/rdma-core-55.0/ccan/ilog.h:139-149 | Only one number is the logarithm of a word |
| DrPaths.RoundTrip | dtld-ibverbs/rdma-core-55.0/libibmad/portid.c:79-123 | For every non-empty hop sequence, reading what is printed number by number gives back both LIDs and the same hops |
| DrPaths.PrintedFits | dtld-ibverbs/rdma-core-55.0/libibmad/portid.c:110-123 | A buffer of 280 characters holds every path of 1 to 64 hops uncut |
| DrPaths.DrPath.Str2DrPath | dtld-ibverbs/rdma-core-55.0/libibmad/portid.c:79-108 | Stays within its array exactly for up to 64 hops, and then count and bytes are those the text stands for, the rest of the array is untouched, absent routes give -1, zero LIDs become the permissive LID |
| DrPaths.DrPath.DrPath2Str | dtld-ibverbs/rdma-core-55.0/libibmad/portid.c:110-123 | The buffer holds the printed path, cut to what fits, whatever its size |
| DrPaths.PrintThenParse | dtld-ibverbs/rdma-core-55.0/libibmad/portid.c:79-123 | Printing any path of 1 to 64 hops into a buffer of at least 280 characters and parsing what follows the prefix gives the same count and bytes |
| DrPaths.AtoiOfDecimal | dtld-ibverbs/rdma-core-55.0/libibmad/portid.c:96 | atoi undoes %d on every natural number, whatever follows the digits |
| DrPaths.AtoiOfSigned | dtld-ibverbs/rdma-core-55.0/libibmad/portid.c:96 | atoi reads a sign |
| DrPaths.HopIsLowByte | dtld-ibverbs/rdma-core-55.0/libibmad/portid.c:96 | A hop is the low byte of the number read, also of a negative one |
| DrPaths.HopsOfPieces | dtld-ibverbs/rdma-core-55.0/libibmad/portid.c:91-100 | On any text, the hops are the low bytes of what atoi makes of the pieces between commas, but for an empty piece at the end |
| DrPaths.TextIsPieces | dtld-ibverbs/rdma-core-55.0/libibmad/portid.c:91-100 | Every text is made of such pieces |
| DrPaths.HopsOfHopList | dtld-ibverbs/rdma-core-55.0/libibmad/portid.c:93-100 | Splitting the comma-separated list gives back every hop |
| DrPaths.CutHopList | dtld-ibverbs/rdma-core-55.0/libibmad/portid.c:115-121 | Stopping when the buffer is full loses nothing that would have fitted |
| Parse256.Parse | dtld-ibverbs/rdma-core-55.0/infiniband-diags/ibccconfig.c:172-220 | Accepts exactly strings of at most 64 hex digits after an optional 0x; the 32 bytes of a zeroed buffer read as one big-endian integer are the string's value; errors leave the buffer alone |
| Parse256.Fill | dtld-ibverbs/rdma-core-55.0/infiniband-diags/ibccconfig.c:195-217 | The bytes from the start index on have the value of the digits, the ones before are untouched |
| Parse256.ValueOfHex | dtld-ibverbs/rdma-core-55.0/infiniband-diags/ibccconfig.c:205-216 | The value of digits is the number they are the printed form of, in either case |
| Parse256.PrefixIsSkipped | dtld-ibverbs/rdma-core-55.0/infiniband-diags/ibccconfig.c:179-180 | 0x and 0X are no part of the digits and nothing else is left away |
| Parse256.PrintThenParse | dtld-ibverbs/rdma-core-55.0/infiniband-diags/ibccconfig.c:172-220 | Printing any 256-bit number, with a prefix or without, and parsing it gives its big-endian bytes |
| Parse256.LeadingZeros | dtld-ibverbs/rdma-core-55.0/infiniband-diags/ibccconfig.c:191-195 | Zero bytes in front do not change the value |
| Parse256.ValueOfPair | dtld-ibverbs/rdma-core-55.0/infiniband-diags/ibccconfig.c:205-216 | Two more digits are one more byte |

## Left out

- Netlink attribute parsing, client registration, the hello and error messages, the count of mapping records and the restart exchange: message plumbing around the modelled handlers.
- Sockets, `bind`, `select`, signals, syslog and configuration files: their outcomes are parameters, their effects are not modelled. Closing the socket of a freed entry is not modelled.
- PortTables.AddMapping: an address family that is neither IPv4 nor IPv6 always fails to get a port here; the code returns the negated errno of some earlier call, which it takes for success when that is 0.
- Which host a socket address names: a query's destination host is a parameter.
- The 32-bit width of reference counts, sequence numbers and list counts: counts are unbounded.
- The exit of either helper thread when waiting on its condition variable fails.
- Allocation of two objects in one handler is one parameter, since each failure undoes what went before.
- CcanLists.ListCheckNode: the optional abort with a message on a corrupt list, and null links, which the code does not test for.
- The type-safe list macros, and the debug poisoning of deleted nodes.
- Routes.FindRoute: the force option, which skips tests, is not modelled; the fabric does not change during the trace, and every query to a port is answered or not once and for all.
- The multicast trace, node maps and printing of ibtracert.c.
- MadRpcs.MadRpc: the bit layout of datagrams, timeouts and the copy of the caller's buffers; a datagram is a record of its id, statuses, redirection and data. The multi-packet variant is not modelled.
- Ilogs: the de Bruijn forms are straight-line code and are written as functions. The variants built on compiler intrinsics are not modelled.
- DrPaths.DrPath.Str2DrPath: what the code does once a route of more than 64 hops has left its array is not defined and not modelled; numbers too large for an int, for which atoi is undefined, are read as their true value.
- DrPaths.DrPath.DrPath2Str: buffer sizes beyond the range of an int are not considered.
- Parse256.Parse: the string is what precedes its terminating zero. For the empty string the code copies the terminator and the byte after it; the model reads nothing and, like the code, writes a zero byte.
- The other diagnostic tools, the providers and kernel drivers, and the Rust driver: option parsing, printing, hardware access and glue code.
