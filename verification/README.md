# A model of the BNG Blaster session machinery

BNG Blaster emulates subscribers of a broadband network gateway. This project
models the part of it that runs the sessions, and proves what whole runs of it do:

- the PPPoE/PPP client of one session: discovery, LCP, PAP/CHAP, IPCP/IP6CP,
  keepalive, timers, termination and restart;
- the A10NSP responder, the other end of the same protocol, with its address pool;
- the two of them talking to each other over two FIFO channels;
- the counters over all sessions, and the control job that starts sessions at a
  limited rate below a cap and tears them down at a limited rate, over intrusive
  circular queues;
- IGMP zapping, join-delay statistics and multicast loss;
- the TLV filters behind Configure-Reject;
- IPoE establishment by ARP and router advertisement, and the broadcast fan-out.

## How it is built

Code that changes state step by step is a class or a loop over an array, and each
method is proved equal to a function on values: `PppoeClient` to the functions of
`ClientSpec`, `Controller` to `Scheduler` and its runs, `MulticastSession` to `ZappingSpec`,
`Responder` to `A10nsp.Replies`, `IpoeClient` to the functions of `Ipoe`. The
theorems are about those functions, over every sequence of events. `Subscription`
wraps a client, handles every event, and keeps what all runs keep as its invariant.

The client is projected onto a small control skeleton (`Skeleton`: the phase, the
three automaton states and the negotiated protocol) with an explicit stimulus per
event, and `Skeleton.Project` shows that every event of the full client moves the
skeleton in that way. A monitor (`ClientRuns.Monitor`) remembers what was heard
since the last PADS. Run theorems are inductive invariants of skeleton and monitor.

What the skeleton leaves out is split by field: `Learned` says for every value a session
has from outside which event may tell it, `Requests` and `Responses` say for every bit of
the send mask, every request code, identifier and retry counter which events touch it.
`Wire` says what the frames are made of, down to option bytes that read back.

The two-party theorem uses a potential: every packet in a channel and every
pending send bit has a weight that bounds the actions it can still cause. The retry
loops use one as well. The end of a teardown is stated with fairness: a round brings
every session a timeout of its LCP timer and later a transmission, with anything else
in between, and the potential of a session is the number of rounds it still needs.

Under the control job queues are sequences. The links hold such a queue up to the
first reconnect of a session that is still queued; a run is meaningful up to there.

Addresses and identifiers that the program copies as raw memory are the number a
little-endian host reads. Received packets are the decoder's output. Random
numbers, clock readings and the answer of the network are parameters.

## Files

| file | contents |
|---|---|
| Types | phases, packets, configuration, the session record |
| ClientSpec, Client, Subscriber | the client as functions, as a class, and as an object with its invariant |
| Skeleton, ClientRuns, NcpTrace | projection, and theorems about runs of the client |
| Responses, Requests, Retries | what is sent in answer, what is asked, and how a silent peer is given up |
| Learned, Wire | what a session knows, and what its frames say |
| Options | TLV lists and the two Configure-Reject filters |
| A10nsp | address pool and responder |
| Convergence, NetworkPhase, TwoParty, Incompatible, RoundTrips | client and responder together |
| Census | counters over all sessions |
| Rings, Scheduler, Controller, SchedulerRuns, Commands | queues, control job and its runs |
| SchedulerCounts, Shutdown, Rounds | counters under the control job, how a session ends, and how a teardown ends |
| ZappingSpec, Multicast, ZappingRuns, Views | zapping: rotation, slots, views |
| Reports, DelayTimes, JoinDelays, McLoss | IGMP reports, delays and their statistics, multicast loss |
| Ipoe | IPoE establishment and ARP fan-out |

## What turned out not to hold as one might expect

Each of these is settled by a lemma with the exact condition, and shown by one with a
concrete case.

- A Protocol-Reject runs the established check in almost any phase. It makes a
  session established without an open link or without authentication
  (`ClientRuns.SafeIff`, `ClientRuns.RejectEstablishesEarly`), lifts a session out of
  the terminating phase (`ClientRuns.TerminationLeftIff`), and makes the counter of
  outstanding sessions wrong (`Census.OutstandingExactIff`,
  `Census.EarlyRejectMiscounts`).
- A Configure-Request that is refused after an earlier one was acknowledged clears
  the negotiated protocol and nothing else, so the network phase is entered without
  authentication (`ClientRuns.ConfiguredAuthIff`, `ClientRuns.NakAfterAckSkipsAuth`).
- Either success message ends the authentication phase, whichever protocol was
  negotiated (`ClientRuns.AuthEndsIff`, `ClientRuns.ChapEndsPap`).
- A response that is due can be replaced or cancelled before it is sent, options that
  exceed the 64-byte buffer are acknowledged with stale ones, and a reject for which
  nothing fits names known options (`Responses.AckSentIff`,
  `Responses.AckCancelledByLogin`, `Responses.AckLostToEcho`,
  `Responses.OversizedAckIsStale`, `Responses.RejectSentIff`,
  `Responses.EmptyRejectNamesKnown`).
- The LCP filter looks at eight options only (`Options.LcpRejectContents`,
  `Options.NinthOptionMissing`).
- With 255 retries, which the configuration allows, a silent peer is never given up
  (`Retries.GivesUpIff`, `Retries.NeverGivesUp`), and with one NCP disabled the failure
  of the other does not end the session (`Retries.GivingUp`, `Retries.LoneNcpHangs`).
- A session that is cleared while it waits for its start stays on the idle queue and
  is started nevertheless. The counters are then wrong, the event loop can exit early,
  and a start command in between puts the session on the queue twice, which destroys
  the queue (`SchedulerRuns.IdleExactIff`, `SchedulerRuns.ClearedWhileWaiting`,
  `SchedulerCounts.CountersExactIff`, `SchedulerCounts.ExitsEarly`,
  `SchedulerCounts.DistinctIff`, `SchedulerCounts.StoppedAndStarted`,
  `Rings.InsertLinksIff`, `Rings.ReinsertBreaks`).
- A peer that keeps sending Terminate-Requests of its own keeps a session in termination
  for ever; without them every teardown ends (`Rounds.TeardownCompletes`,
  `Rounds.LoopEnds`, `Rounds.StirredNeverEnds`).
- The zapping rotation fails when the step after the last group wraps around 32
  bits (`ZappingRuns.RotationIff`, `ZappingRuns.WrapsToZero`).
- A packet that arrives before its join was reported makes the join delay the time since
  the zero of the clock (`DelayTimes.JoinDelayIs`, `DelayTimes.UnreportedJoin`).
- A missed join is counted again on every tick while zapping is stopped
  (`JoinDelays.VerdictsConserved`, `JoinDelays.StoppedRecounts`).
- A reconnect clears minimum, maximum and average of the join delay but not sum and
  count (`JoinDelays.StatisticsAcrossResets`, `JoinDelays.ResetSoundIff`,
  `JoinDelays.ResetSkewsAverage`).
- A packet that follows the largest sequence number is counted as a loss, and with
  several joined groups one group can hide the loss of another
  (`McLoss.CountsGapsIff`, `McLoss.OverrunCounted`, `McLoss.InterleavedIff`,
  `McLoss.OtherGroupHidesLoss`).

## Model

| member | source | states |
|---|---|---|
| Options.ParseEncode | code/bngblaster/src/bbl_protocols.c:4080-4130 | parsing the encoding of any list of valid options gives the list back |
| Options.EncodeParse | code/bngblaster/src/bbl_protocols.c:4080-4130 | encoding what was parsed from well-formed bytes gives the bytes back, up to a tolerated trailing byte |
| Options.FitIsAllIff | code/bngblaster/src/bbl_access.c:1121-1132 | copying option by option drops none exactly when all fit the buffer together |
| Options.IpcpRejectContents | code/bngblaster/src/bbl_access.c:1111-1138 | the IPCP Configure-Reject fits its buffer, is well formed, and parses to the options that are not addresses, unmodified and in order, exactly when they fit (section 5.4 of RFC 1661) |
| Options.LcpRejectContents | code/bngblaster/src/bbl_access.c:1283-1312 | the same for LCP without MRU, authentication and magic number; complete exactly when the rest fits and none of it lies beyond the eighth option |
| Options.NinthOptionMissing | code/bngblaster/src/bbl_access.c:1283-1312 | nine unknown options that would all fit: the reject lists eight |
| Options.FilterIpcp | code/bngblaster/src/bbl_access.c:1111-1138 | the loop terminates on every well-formed list, never writes past the buffer, and leaves exactly the specified bytes in it |
| Options.OptionPointers | code/bngblaster/src/bbl_protocols.c:4080-4130 | the decoder's pointer array points at the first eight options, in order |
| Options.FilterLcp | code/bngblaster/src/bbl_access.c:1283-1312 | the loop over the decoder's pointer array leaves exactly the specified bytes in the buffer |
| Client.PppoeClient.UpdateState | code/bngblaster/src/bbl_session.c:522-652 | refines ClientSpec.UpdateState: a phase change closes the NCPs on the way down and LCP on termination, and touches nothing else of the session |
| Client.PppoeClient.Clear | code/bngblaster/src/bbl_session.c:662-707 | refines ClientSpec.ClearSession, which SchedulerRuns.ClearTerminates shows to reach a terminating phase from every phase |
| Client.PppoeClient.CheckEstablished | code/bngblaster/src/bbl_access.c:951-1002 | the session becomes established exactly when every NCP is disabled, rejected or opened, and nothing else changes |
| Client.PppoeClient.RxDiscovery | code/bngblaster/src/bbl_access.c:1652-1757 | refines ClientSpec.RxDiscovery: a PADS is accepted only in the request phase, with a session id and matching service name and host-unique |
| Client.PppoeClient.LcpOpened | code/bngblaster/src/bbl_access.c:1348-1385 | refines ClientSpec.LcpOpened, the one place where the run theorems let authentication or the network phase begin |
| Client.PppoeClient.RxLcpConfRequest | code/bngblaster/src/bbl_access.c:1445-1508 | refines ClientSpec.RxLcpConfRequest: three answers, and the negotiated protocol changes even when the answer is a refusal |
| Client.PppoeClient.RxLcp | code/bngblaster/src/bbl_access.c:1388-1599 | refines ClientSpec.RxLcp for every code and state, with the phases in which LCP is ignored |
| Client.PppoeClient.RxPap | code/bngblaster/src/bbl_access.c:807-860 | refines ClientSpec.RxPap; only an Ack in the authentication phase opens the network phase |
| Client.PppoeClient.RxChap | code/bngblaster/src/bbl_access.c:863-939 | refines ClientSpec.RxChap; only a Success in the authentication phase opens the network phase, and an empty challenge or any other code terminates the link |
| Client.PppoeClient.RxIpcp | code/bngblaster/src/bbl_access.c:1141-1271 | refines ClientSpec.RxIpcp for every code and state; nothing happens unless LCP is open |
| Client.PppoeClient.RxIp6cp | code/bngblaster/src/bbl_access.c:1005-1108 | refines ClientSpec.RxIp6cp for every code and state; nothing happens unless LCP is open |
| Client.PppoeClient.Receive | code/bngblaster/src/bbl_access.c:1952-1972 | dispatch by protocol; idle and terminated sessions ignore packets |
| Client.PppoeClient.Transmit | code/bngblaster/src/bbl_tx.c:1423-1489 | one pending bit of the send mask is served with the specified packet |
| Subscriber.Subscription.Handle | code/bngblaster/src/bbl_access.c:806-1997 | the public face of a session: every event, packet, timer or command makes the step of the specification and keeps the invariant of all runs, with the record of what was heard |
| Subscriber.Subscription.Reliable | code/bngblaster/src/bbl_access.c:1348-1599 | so whoever holds a session can rely on it: LCP opened at most once since the last PADS and only with both halves heard, authentication and network phase only with LCP open, and established safely unless a premature Protocol-Reject was received |
| Retries.GivesUpWithin | code/bngblaster/src/bbl_tx.c:258-942 | in each of the seven retry loops (PADR, LCP, PAP, CHAP, IPCP, IP6CP, keepalive) a run of the timer and the transmit job that stays in the loop has fewer helpful events than the weight it began with, if the limit is below 255 |
| Retries.NeverGivesUp | code/bngblaster/src/bbl_tx.c:258-942 | with a limit of 255 the attempts, kept in a byte, never exceed it, and no such run leaves the loop |
| Retries.GivesUpIff | code/bngblaster/src/bbl_tx.c:802-832 | a silent peer is given up if and only if the configured retries are below 255 |
| Retries.GivingUp | code/bngblaster/src/bbl_tx.c:600-714 | what giving up leads to in each loop; a closed NCP ends the session exactly when the other one is closed too |
| Retries.LoneNcpHangs | code/bngblaster/src/bbl_tx.c:696-714 | with IP6CP disabled, the timeout that gives up IPCP leaves the session in the network phase with IPCP closed, and every run of timers and transmissions after it does too |
| Skeleton.Project | code/bngblaster/src/bbl_access.c:806-1757 | every event of the full client changes phase, automaton states and negotiated protocol as its stimulus says: the skeleton simulates the client |
| Skeleton.StimulusEnabled | code/bngblaster/src/bbl_access.c:806-1757 | stimuli occur only in the phases in which the client listens for them |
| ClientRuns.LcpOpensOnce | code/bngblaster/src/bbl_access.c:1348-1599 | in every run LCP opens, and authentication starts, at most once per accepted PADS, and only after a Conf-Ack was heard and a peer request accepted; its state is determined by which of the two was heard |
| ClientRuns.SafeIff | code/bngblaster/src/bbl_access.c:1572-1583 | a run keeps "established implies link open and, if opened with PAP or CHAP, confirmed" throughout if and only if no Protocol-Reject in it comes in the link, authentication or terminating phase with the NCPs done |
| ClientRuns.RejectEstablishesEarly | code/bngblaster/src/bbl_access.c:1572-1583 | a Protocol-Reject for IPCP establishes a session in the link, authentication or terminating phase |
| ClientRuns.EntersEstablishedComplete | code/bngblaster/src/bbl_access.c:951-1002 | without Protocol-Reject the established phase is entered from the network phase, by the event that opens the last enabled NCP |
| ClientRuns.TerminationLeftIff | code/bngblaster/src/bbl_access.c:1400-1408 | a reachable session leaves the terminating phases by exactly two kinds of events: a premature Protocol-Reject and an explicit restart |
| ClientRuns.TerminationAbsorbs | code/bngblaster/src/bbl_access.c:1546-1571 | termination is absorbing over every continuation without Protocol-Reject and restart |
| ClientRuns.ConfiguredAuthIff | code/bngblaster/src/bbl_access.c:1450-1503 | LCP opens with the configured protocol exactly when the last peer request was acknowledged, otherwise with none; always if no request is refused after one was acknowledged |
| ClientRuns.NetworkNeedsSuccess | code/bngblaster/src/bbl_access.c:819-937 | then the network phase is reached only through a success message |
| ClientRuns.OpeningEntersAuthIff | code/bngblaster/src/bbl_access.c:1348-1377 | opening LCP enters the authentication phase exactly when a protocol was negotiated, and the network phase otherwise |
| ClientRuns.NakAfterAckSkipsAuth | code/bngblaster/src/bbl_access.c:1450-1480 | a concrete run with configured authentication that ends in the network phase without it |
| ClientRuns.AuthEndsIff | code/bngblaster/src/bbl_access.c:819-937 | a reachable session passes from authentication to the network phase exactly on a PAP Ack or a CHAP Success |
| ClientRuns.ChapEndsPap | code/bngblaster/src/bbl_access.c:863-939 | PAP was negotiated and a CHAP Success ends the authentication phase |
| Responses.SlotStep | code/bngblaster/src/bbl_access.c:1005-1599 | which events write the response slot of LCP, IPCP or IP6CP, drop its options or leave it alone, for every event and state |
| Responses.BitStep | code/bngblaster/src/bbl_access.c:1005-1757 | a response is pending after an event exactly when the event filled its slot, or it was pending before and the event neither sent nor cancelled it; which events cancel it, for every event and state |
| Responses.AckSentIff | code/bngblaster/src/bbl_access.c:1488-1508 | for LCP, IPCP and IP6CP: in any run after an acceptable request some transmission serves its acknowledgement, with the same identifier and options, if and only if the options fit, the response comes to its turn, and until then no event filled the slot, cancelled the response, or dropped the options (unless they equal the fallback) (section 5.2 of RFC 1661) |
| Responses.AckCancelledByLogin | code/bngblaster/src/bbl_access.c:834-848 | a PAP Ack while an IPCP acknowledgement is pending leaves the slot alone and cancels the acknowledgement: no run after it sends it |
| Responses.AckLostToEcho | code/bngblaster/src/bbl_access.c:1534-1542 | an Echo-Request before the transmit job replaces the acknowledgement, which is never sent |
| Responses.OversizedAckIsStale | code/bngblaster/src/bbl_access.c:1488-1493 | 66 bytes of options are acknowledged with the options of the answer before |
| Responses.RejectSentIff | code/bngblaster/src/bbl_access.c:1283-1312 | the same for a Configure-Reject: some transmission of the run serves it with exactly what the filter copied if and only if it comes to its turn with nothing written or cancelled before, and the filter copied something that was not dropped, or the fallback is the same (section 5.4 of RFC 1661) |
| Responses.EmptyRejectNamesKnown | code/bngblaster/src/bbl_tx.c:879-919 | an unknown option that does not fit is answered with a reject of the known option MRU |
| Responses.BuffersFit | code/bngblaster/src/bbl_access.c:1283-1312 | over every run the option bytes kept for a response of LCP, IPCP or IP6CP fit their 64 bytes |
| Responses.CodeRejectCopies | code/bngblaster/src/bbl_access.c:1585-1597 | an unknown code is rejected with the longest part of the packet that fits (section 5.6 of RFC 1661) |
| Requests.MaskStep | code/bngblaster/src/bbl_access.c:807-1757 | which events make a discovery packet, a request, a login or a router solicitation pending, and which wipe it, for every event and state; with Responses.BitStep the whole send mask |
| Requests.AskingStep | code/bngblaster/src/bbl_access.c:1005-1599 | for every event and state and each of LCP, IPCP and IP6CP: the code of the pending request, whether an identifier was taken, and whether the attempts are counted on or anew |
| Requests.CountingStep | code/bngblaster/src/bbl_access.c:1652-1757 | the same for the attempts of discovery and of the login |
| Requests.RequestsCounted | code/bngblaster/src/bbl_tx.c:835-876 | over every run: the retry counter is the number of attempts since the peer was last heard, the identifier the number of packets that took one, both modulo 256, and the pending request the one asked for last |
| Requests.RequestSays | code/bngblaster/src/bbl_tx.c:717-765 | the request that is sent has that code and the next identifier; one of an NCP that is closed or open is not sent |
| Learned.LearnStep | code/bngblaster/src/bbl_access.c:807-1757 | for 18 values that a session has from outside, and for every event and state: who may tell a value, and that nobody else changes it |
| Learned.KnowsWhatItWasTold | code/bngblaster/src/bbl_access.c:807-1757 | over every run each of them is the one that was told last |
| Learned.KnowsNothingElse | code/bngblaster/src/bbl_access.c:807-1757 | and the first one if none was told |
| Wire.LcpOptionsRead | code/bngblaster/src/bbl_protocols.c:1466-1530 | MRU, authentication protocol and magic number can be read back from the option bytes, and absent ones are absent |
| Wire.IpcpOptionsRead | code/bngblaster/src/bbl_protocols.c:1399-1452 | the same for the address and the two DNS servers, each under its own option |
| Wire.Ip6cpOptionsRead | code/bngblaster/src/bbl_protocols.c:1360-1393 | the same for the interface identifier |
| Wire.LcpRequestSays | code/bngblaster/src/bbl_tx.c:835-876 | the LCP request is made of the MRU and the magic number known last, in fields and bytes |
| Wire.IpcpRequestSays | code/bngblaster/src/bbl_tx.c:717-765 | the IPCP request asks for an address when one is known or wanted, and for exactly the DNS servers wanted, each with the value known last |
| Wire.Ip6cpRequestSays | code/bngblaster/src/bbl_tx.c:621-657 | the IP6CP request names the interface identifier known last |
| Wire.Ip6cpResponseSays | code/bngblaster/src/bbl_tx.c:660-693 | so does a response that has no options of its own |
| Wire.IpcpNakHeeded | code/bngblaster/src/bbl_access.c:1224-1239 | after a Conf-Nak and any events that tell no other value, the next Configure-Request asks for exactly the values suggested, for address and both DNS servers each, in fields and bytes (section 3.3 of RFC 1332) |
| Wire.LcpNakHeeded | code/bngblaster/src/bbl_access.c:1522-1533 | the same for MRU and magic number (section 5.3 of RFC 1661) |
| Wire.Ip6cpNakHeeded | code/bngblaster/src/bbl_access.c:1065-1073 | the same for the interface identifier |
| Wire.SessionIdLasts | code/bngblaster/src/bbl_access.c:1728-1733 | over every run, from an accepted PADS until the next one or a reconnect, the session id is its non-zero id, and a PADT names it |
| Wire.PadrEchoes | code/bngblaster/src/bbl_access.c:1660-1703 | the PADR after an accepted PADO brings back its cookie and service name, and the session talks to its sender (section 5.3 of RFC 2516) |
| Wire.PadiAsks | code/bngblaster/src/bbl_tx.c:1053-1107 | a PADI asks for the service name and the host-unique value of the session |
| Wire.ChapAnswers | code/bngblaster/src/bbl_access.c:889-898 | a CHAP response has the identifier of the last challenge (section 4.1 of RFC 1994) |
| Wire.SuggestionIsAcceptable | code/bngblaster/src/bbl_access.c:1452-1485 | a Configure-Request refused for its authentication is answered with a Conf-Nak from whose bytes a protocol can be read, and the same request with that protocol is acknowledged |
| NcpTrace.NcpTraceTheorem | code/bngblaster/src/bbl_access.c:951-1271 | for every sequence of ordinary NCP packets each NCP state is determined by whether a request was accepted and a Conf-Ack heard, and the session is established exactly when every enabled NCP has both |
| NcpTrace.EstablishedOnce | code/bngblaster/src/bbl_access.c:971-1002 | the established phase is entered exactly once, on the event that completes the last enabled NCP |
| A10nsp.SwapInvolution | code/bngblaster/src/bbl_a10nsp.c:13-21 | the byte swap of a 32-bit word undoes itself |
| A10nsp.IndexClosedForm | code/bngblaster/src/bbl_a10nsp.c:13-21 | closed form of the allocator's index after any number of calls |
| A10nsp.AllocatedEqualIff | code/bngblaster/src/bbl_a10nsp.c:13-21 | two allocations coincide exactly when their call numbers are congruent modulo 16,000,000 |
| A10nsp.ConsecutiveDistinct | code/bngblaster/src/bbl_a10nsp.c:13-21 | any 16,000,000 consecutive allocations are pairwise distinct |
| A10nsp.AllocatedNonZero | code/bngblaster/src/bbl_a10nsp.c:13-21 | an allocated address is never zero |
| A10nsp.Responder.NextAddress | code/bngblaster/src/bbl_a10nsp.c:13-21 | the n-th call returns the n-th allocation |
| A10nsp.Responder.Contact | code/bngblaster/src/bbl_a10nsp.c:643-654 | a session is created on first contact, with a new address, and otherwise left alone |
| A10nsp.Responder.Rx | code/bngblaster/src/bbl_a10nsp.c:639-681 | a session keeps the address of its first contact, gets the specified replies, and no other session is touched |
| A10nsp.Responder.HandleDiscovery | code/bngblaster/src/bbl_a10nsp.c:157-206 | rewriting the discovery packet in place gives the specified reply |
| TwoParty.LcpRoundTripIff | code/bngblaster/src/bbl_a10nsp.c:209-250 | the request of the client, the two replies and their reception open LCP exactly when the client can do with PAP, and leave a Conf-Nak due otherwise |
| TwoParty.Ip6cpRoundTripIff | code/bngblaster/src/bbl_a10nsp.c:327-362 | the same round trip opens IP6CP exactly when it is not switched off globally |
| A10nsp.Responder.HandleIpcp | code/bngblaster/src/bbl_a10nsp.c:274-324 | an IPCP request is acknowledged or corrected to the session's address |
| A10nsp.Responder.Free | code/bngblaster/src/bbl_a10nsp.c:130-154 | freeing forgets exactly this session |
| A10nsp.Responder.LiveDistinct | code/bngblaster/src/bbl_a10nsp.c:643-654 | live sessions have different addresses unless the pool wrapped between them |
| TwoParty.Converges | code/bngblaster/src/bbl_a10nsp.c:157-386 | every interleaving of a compatible client with the responder takes at most 37 actions and one Conf-Nak; at rest the session is established, every enabled NCP open, and the client holds the responder's session id, the allocated address and, when it was corrected, the DNS servers it asked for |
| TwoParty.ConvergesToAllocated | code/bngblaster/src/bbl_a10nsp.c:643-654 | at rest the client holds the non-zero address of the allocation made on first contact |
| TwoParty.AlwaysCompletes | code/bngblaster/src/bbl_access.c:1141-1757 | however a play has gone so far, it can be played on to an established session |
| Incompatible.NeverEstablished | code/bngblaster/src/bbl_a10nsp.c:157-386 | a client that differs in service name, authentication or NCPs, or whose session id is zero modulo 65536, is never established, under any interleaving |
| Incompatible.EstablishedAtRestIff | code/bngblaster/src/bbl_a10nsp.c:157-386 | a play that has come to rest is established if and only if client and responder are compatible |
| RoundTrips.AnswersIdentify | code/bngblaster/src/bbl_a10nsp.c:157-386 | every answer of the responder has the identifier of the packet it answers, and an acknowledgement repeats the request (section 5.2 of RFC 1661) |
| RoundTrips.OwnRequestsRead | code/bngblaster/src/bbl_a10nsp.c:209-362 | the option bytes of the responder's own requests say what their fields say |
| RoundTrips.NakReads | code/bngblaster/src/bbl_a10nsp.c:286-301 | so do those of a correction, which names DNS servers only to a client that asked for them |
| RoundTrips.CorrectionIsAccepted | code/bngblaster/src/bbl_a10nsp.c:274-324 | a corrected client asks for the address and the servers it was told, each in its place, and is acknowledged |
| RoundTrips.DiscoveryRoundTrip | code/bngblaster/src/bbl_a10nsp.c:157-206 | PADI, PADO, PADR, PADS: the client goes on exactly when the service agrees, brings the cookie back and ends with the responder's session id |
| RoundTrips.LoginRoundTrip | code/bngblaster/src/bbl_a10nsp.c:253-271 | the client's PAP request is acknowledged with its identifier, and the acknowledgement opens the network phase with a request for every enabled NCP |
| RoundTrips.EchoRoundTrip | code/bngblaster/src/bbl_a10nsp.c:235-240 | the answer to an Echo-Request of an established client changes nothing but that its retries are zero |
| RoundTrips.TerminateRoundTrip | code/bngblaster/src/bbl_a10nsp.c:241-246 | the answer to a Terminate-Request makes the client give up the link with a PADT pending |
| RoundTrips.ClearRoundTrip | code/bngblaster/src/bbl_session.c:662-707 | a cleared session: Terminate-Request, Terminate-Ack, a PADT with its session id, terminated |
| RoundTrips.CloseIpcpRoundTrip | code/bngblaster/src/bbl_a10nsp.c:315-320 | IPCP closed by command: the answer closes it, and it can be opened again |
| RoundTrips.CloseIp6cpRoundTrip | code/bngblaster/src/bbl_a10nsp.c:353-358 | the same for IP6CP |
| RoundTrips.KeepaliveIff | code/bngblaster/src/bbl_access.c:1315-1345 | in every interleaving of the keepalive timer with sending, answering and delivering the session stays established if and only if the timer never finds more requests unanswered than configured |
| RoundTrips.AnsweredForEver | code/bngblaster/src/bbl_access.c:1315-1345 | any number of keepalives answered in time leaves the session as it is, but for two identifiers each |
| Census.CountedExactly | code/bngblaster/src/bbl_session.c:522-652 | in every run of all sessions the established and terminated counters equal the number of such sessions, and outstanding never exceeds the cap |
| Census.OutstandingExactIff | code/bngblaster/src/bbl_session.c:546-550 | the outstanding counter equals the number of sessions in setup throughout a run if and only if no established session completes its LCP negotiation in it |
| Census.AssertionsHold | code/bngblaster/src/bbl_session.c:546-576 | while the counters are exact, the program's assertions about them hold |
| Census.OwnRun | code/bngblaster/src/bbl_session.c:522-652 | a session of a fleet makes the run of its own events |
| Census.SafeFleetCounts | code/bngblaster/src/bbl_session.c:546-550 | in a fleet run without premature Protocol-Reject the outstanding counter is exact throughout |
| Census.EarlyRejectMiscounts | code/bngblaster/src/bbl_access.c:1572-1583 | two packets after which a session is in setup while the counter says none is |
| Census.StopsIffAllTerminated | code/bngblaster/src/bbl.c:636-657 | the exit condition of the event loop holds exactly when every session is terminated |
| Rings.InsertLinksIff | code/bngblaster/src/bbl.c:281-284 | inserting at the tail leaves links that thread the longer queue in order and in both directions, with a null link exactly on the others, if the session was free; if it was queued, the links hold no queue at all |
| Rings.ReinsertBreaks | code/bngblaster/src/bbl_session.c:501-501 | the forward link of a session that is inserted again leads to the head, cutting off those behind it, or to itself |
| Rings.Ring.InsertTail | code/bngblaster/src/bbl.c:281-284 | the insertion, without looking whether the session is queued, has exactly that effect |
| Rings.RemoveLinks | code/bngblaster/src/bbl.c:301-304 | removing from any position does the same |
| Rings.Ring.Remove | code/bngblaster/src/bbl.c:301-304 | the link updates take one session out and mark it as not queued |
| Scheduler.DrainLenMeaning | code/bngblaster/src/bbl.c:294-309 | a drain tick takes the shortest prefix that holds as many non-idle sessions as the stop rate, or the whole queue |
| Scheduler.MissingMeaning | code/bngblaster/src/bbl.c:276-287 | the sessions a request adds are exactly those not queued, in the order of the list, so that each is queued once |
| Scheduler.StartCountMeaning | code/bngblaster/src/bbl.c:324-375 | a start tick stops at the start rate, at the cap or at the end of the queue, and at none of them before |
| Control.Controller.constructor | code/bngblaster/src/bbl_session.c:1033-1039 | with autostart all sessions are idle and queued in the order of the list, without it all are terminated and counted so |
| SchedulerRuns.BeginsExact | code/bngblaster/src/bbl_session.c:1033-1039 | either way the queue, the counters and the gate begin as the run theorems need them |
| Control.Controller.StartAgain | code/bngblaster/src/bbl_session.c:488-503 | a terminated session is reset and queued again; the links hold a queue afterwards if and only if it was not on the queue |
| SchedulerRuns.NothingStartsAfterRequest | code/bngblaster/src/bbl.c:54-60 | a request ends all starting for good, over every further run |
| Control.Controller.StartTick | code/bngblaster/src/bbl.c:324-375 | starts exactly min(start rate, cap minus outstanding, queue length) sessions, the front of the idle queue, and changes no other session |
| Control.Controller.QueueAll | code/bngblaster/src/bbl.c:277-287 | puts every session on the teardown queue that is not on it, recognised by its null link |
| Control.Controller.DrainTick | code/bngblaster/src/bbl.c:293-309 | clears exactly the specified prefix of the teardown queue, with the counters of each clearing |
| Control.Controller.GatewaysResolved | code/bngblaster/src/bbl.c:248-266 | the nested loops find out whether any awaited gateway is unresolved |
| Control.Controller.CtrlJob | code/bngblaster/src/bbl.c:231-377 | one tick: wait for the gateways, serve a request, drain, or start |
| Commands.Obey | code/bngblaster/src/bbl.c:231-377 | a tick, a teardown request, a stop or a start command does to the object what the happening of that name does to a run, refused start commands included |
| Commands.ObeyAll | code/bngblaster/src/bbl.c:231-377 | any sequence of them leaves the object where the run ends, if none queues a session twice: what is proved of runs holds of the linked queues and the session array |
| SchedulerRuns.NeverAboveCap | code/bngblaster/src/bbl.c:324-333 | over every run of ticks, requests and session events outstanding never exceeds the cap |
| SchedulerRuns.NothingStartsUnresolved | code/bngblaster/src/bbl.c:246-269 | as long as no tick finds every awaited gateway resolved, no session is ever started |
| SchedulerRuns.GateOpensIff | code/bngblaster/src/bbl.c:248-268 | over every run the gate is closed exactly until a tick outside teardown finds every interface not waiting or resolved, and never closes again |
| SchedulerRuns.RequestQueuesAll | code/bngblaster/src/bbl.c:276-292 | the tick that serves a request leaves every session queued exactly once |
| SchedulerRuns.Drains | code/bngblaster/src/bbl.c:293-309 | whatever happens to the sessions meanwhile, they leave the queue in order, each once, at least stop-rate many per tick |
| SchedulerRuns.AllClearedOnce | code/bngblaster/src/bbl.c:276-309 | within ceil(sessions / stop rate) drain ticks every session has been cleared exactly once |
| SchedulerRuns.TeardownTerminatesAll | code/bngblaster/src/bbl.c:272-310 | then every session is in a terminating phase, unless a premature Protocol-Reject revived one |
| SchedulerRuns.IdleExactIff | code/bngblaster/src/bbl.c:325-368 | the idle queue holds exactly the idle sessions, each once, throughout a run if and only if no command clears a waiting session |
| SchedulerRuns.ClearedWhileWaiting | code/bngblaster/src/bbl_session.c:667-671 | a session cleared while it waits is started nevertheless and stays counted as terminated |
| SchedulerCounts.HistoryIsFleetRunIff | code/bngblaster/src/bbl.c:231-377 | a run under the control job is at every point the fleet run of the session events it amounts to, if and only if every tick starts only idle sessions, each once |
| SchedulerCounts.CountersExactIff | code/bngblaster/src/bbl.c:331-333 | in any run under the control job the established and terminated counters are exact throughout if and only if no tick starts an established or terminated session |
| SchedulerCounts.LoopExitsIff | code/bngblaster/src/bbl.c:636-657 | in such a run the exit test of the event loop holds exactly when every session is terminated |
| SchedulerCounts.DistinctIff | code/bngblaster/src/bbl_session.c:488-503 | no session is on the idle queue twice throughout a run if and only if no reconnect hits a session still on it |
| SchedulerCounts.StoppedAndStarted | code/bngblaster/src/bbl_session.c:1608-1694 | a stop and a start command for a waiting session queue it twice |
| SchedulerCounts.BusyLaunchIff | code/bngblaster/src/bbl.c:325-368 | without such a reconnect one condition decides both counters and the fleet run: no tick starts a session that is not idle |
| SchedulerCounts.AssertionsHoldScheduled | code/bngblaster/src/bbl_session.c:546-576 | then, without a reopened session, every state change under the control job meets the program's assertions, drain ticks included |
| SchedulerCounts.ExitsEarly | code/bngblaster/src/bbl.c:646-652 | after a waiting session was cleared and started, the exit test holds while it is being set up, and its next clearing breaks an assertion |
| Shutdown.SettleStep | code/bngblaster/src/bbl_tx.c:802-832 | a session in termination has at most eighteen steps left; no event adds to them but another clearing, a Terminate-Request of the peer, a premature Protocol-Reject or a restart, and the LCP timer or the transmit job always takes some away |
| Shutdown.TeardownSettles | code/bngblaster/src/bbl.c:272-310 | once every session was cleared after a request, all of them are in termination with what they need to end |
| Shutdown.FewHelpfulEvents | code/bngblaster/src/bbl_tx.c:802-832 | in any run that does not stir a session, the timeouts and transmissions that bring one forward number at most eighteen per session |
| Rounds.RoundStep | code/bngblaster/src/bbl_tx.c:802-832 | a session in termination needs at most seven more rounds; no event that does not stir it adds one, and a timeout of the LCP timer followed by a transmission, whatever is between them, takes one away |
| Rounds.LoopEnds | code/bngblaster/src/bbl.c:636-657 | once all sessions are in termination, any run of seven rounds, each of which brings every session a timeout and later a transmission, terminates all of them, and the event loop exits |
| Rounds.StirredNeverEnds | code/bngblaster/src/bbl_access.c:1546-1558 | with a Terminate-Request of the peer in every round, the session stays in termination for ever: it discards the own request that is pending |
| Rounds.BeginsOrderly | code/bngblaster/src/bbl_session.c:1033-1039 | with or without autostart a fleet begins orderly: queue, counters and pending PADTs are as the teardown needs them |
| Rounds.StaysOrderly | code/bngblaster/src/bbl.c:231-377 | every run in which no reconnect hits a queued session and no tick starts a counted one keeps that; in particular every session in the terminating state has its PADT pending whenever a request comes |
| Rounds.TeardownCompletes | code/bngblaster/src/bbl.c:231-377 | the whole run from an orderly fleet: anything such, a request, the tick that serves it, drain ticks for all sessions and seven fair rounds leave every session terminated, and the event loop exits |
| Rounds.TeardownCanComplete | code/bngblaster/src/bbl.c:272-310 | with a positive stop rate such drain ticks and rounds exist after every request |
| ZappingRuns.RotationIff | code/bngblaster/src/bbl_access.c:306-311 | stepping from group to group follows the rotation at every index if and only if the step after the last group stays within 32 bits or lands on the first |
| ZappingRuns.WrapsToZero | code/bngblaster/src/bbl_access.c:306-311 | two groups for which it does not: the group after the last is 0.0.0.0 |
| ZappingRuns.Watch | code/bngblaster/src/bbl_access.c:210-448 | every run of joins, zaps, reports, queries, traffic and resets keeps the slot invariant |
| ZappingRuns.SlotsStayApart | code/bngblaster/src/bbl_access.c:313-377 | in every run joined and leaved group are the first two slots, and at most one of them is active or joining |
| ZappingRuns.Rotation | code/bngblaster/src/bbl_access.c:301-377 | from the initial join on, through stops and resumptions, the n-th join is base + ((start + n) mod count) * step, and after a zap the two slots hold different groups |
| ZappingRuns.EveryWindowVisitsAll | code/bngblaster/src/bbl_access.c:306-311 | among the joins of a run, the initial one included, any window of as many joins as there are groups joins each group exactly once |
| Views.InitialJoinIn | code/bngblaster/src/bbl_access.c:393-440 | the initial join asks for one of the configured groups, in the first slot, and only when the session is up |
| Views.WatchingIff | code/bngblaster/src/bbl_access.c:238-247 | a view lasts exactly the configured time |
| Views.ViewsTakeTurns | code/bngblaster/src/bbl_access.c:382-390 | over every run a view is on exactly when as many zaps were made since the last one as configured, and began with the last of them |
| Views.StaleCounted | code/bngblaster/src/bbl_access.c:647-653 | over every run the counter of late packets counts those of the group left last that came after the first of the group joined since |
| JoinDelays.DelayMeans | code/bngblaster/src/bbl_access.c:255-259 | the recorded delay is the elapsed time in milliseconds, rounded up and at least one |
| JoinDelays.TimeSubExact | code/common/src/timer.c:84-107 | the time difference is exact, and zero when the times are reversed |
| JoinDelays.StatisticsMatchHistory | code/bngblaster/src/bbl_access.c:260-287 | without reset and for up to 2^32 - 1 measurements, sum, count, minimum, maximum, average and the five buckets are those of the delays measured so far; 1 <= min <= avg <= max, and the buckets split the delays above 125 ms |
| JoinDelays.CountWraps | code/bngblaster/src/bbl_access.c:261-269 | the next measurement makes the count zero, by which the program divides |
| JoinDelays.MeasuredOncePerJoin | code/bngblaster/src/bbl_access.c:250-254 | each join is measured at most once |
| JoinDelays.VerdictsConserved | code/bngblaster/src/bbl_access.c:250-299 | delays measured plus misses counted are the joins, but for one pending, plus the misses counted again: each join gets one verdict exactly when none is counted again |
| JoinDelays.OnlyStopsRecount | code/bngblaster/src/bbl_access.c:289-303 | while zapping is not stopped no miss is counted again |
| JoinDelays.StoppedRecounts | code/bngblaster/src/bbl_access.c:289-303 | while it is stopped every tick counts the same miss again |
| JoinDelays.StatisticsAcrossResets | code/bngblaster/src/bbl_session.c:471-473 | over any run, resets included: sum, count and buckets are of all delays measured, minimum and maximum of those since the last reset, and the average, once there is one, is over all |
| JoinDelays.ResetSoundIff | code/bngblaster/src/bbl_session.c:471-473 | after a reset the next measurement keeps min <= avg <= max whatever it is, if and only if nothing had been measured before |
| JoinDelays.ResetSkewsAverage | code/bngblaster/src/bbl_session.c:471-473 | delays of 100 before and 2 after a reset give an average of 51 between a minimum and maximum of 2 |
| DelayTimes.TimesMatchHistory | code/bngblaster/src/bbl_tx.c:120-237 | over every run: the join and the leave time of a slot are those of the first report that took it since the join or leave, later reports and queries do not move them; first and last packet likewise |
| DelayTimes.JoinDelayIs | code/bngblaster/src/bbl_access.c:248-259 | so every measured delay runs from the first report of the join to the first packet, or from the zero of the clock if none was sent |
| DelayTimes.UnreportedJoin | code/bngblaster/src/bbl_access.c:248-259 | a packet 100 s after the zero of the clock, before the report: a delay of 100 s |
| DelayTimes.LeaveStatistics | code/bngblaster/src/bbl_access.c:322-339 | over every run, resets included, the leave-delay statistics are those of the times from the first report of each leave to the last packet, with sum and count of all and minimum and maximum since the last reset |
| McLoss.CountsGapsIff | code/bngblaster/src/bbl_access.c:634-645 | the counted loss is never less than the sum of the gaps, and equal to it if and only if no packet follows the largest sequence number |
| McLoss.OverrunCounted | code/bngblaster/src/bbl_access.c:634-645 | a number that starts over at five after the largest one is counted as a loss of five |
| McLoss.GapsSpanIff | code/bngblaster/src/bbl_access.c:634-645 | the gaps are at least last - first + 1 minus the packets received, with equality exactly for strictly increasing numbers |
| McLoss.CountersAfter | code/bngblaster/src/bbl_access.c:614-656 | the group, session and interface counters grow by the same amount, each within its width |
| McLoss.LossNeverUndercounts | code/bngblaster/src/bbl_access.c:614-656 | all three counters of one joined group grow by an amount that is at least the gaps and at least the span, with equality exactly for increasing numbers |
| McLoss.InterleavedIff | code/bngblaster/src/bbl_access.c:631-645 | for any interleaving of several joined groups every packet adds the right loss to its group if and only if the one last number of the session does for the group's own at each of them |
| McLoss.OtherGroupHidesLoss | code/bngblaster/src/bbl_access.c:631-645 | 48 missing packets that a packet of another group hides: the loss counter of the group does not move |
| Multicast.MulticastSession.JoinFirst | code/bngblaster/src/bbl_access.c:393-448 | the initial join |
| Multicast.MulticastSession.ZapTick | code/bngblaster/src/bbl_access.c:210-390 | one tick of the zapping timer, with the viewing profile |
| Multicast.MulticastSession.RetryTick | code/bngblaster/src/bbl_tx.c:16-59 | one tick of the robustness timer over all groups |
| Multicast.MulticastSession.SendReport | code/bngblaster/src/bbl_tx.c:62-255 | one IGMP report: which groups it takes, by version and combination of joins and leaves |
| Reports.ReportTakes | code/bngblaster/src/bbl_tx.c:120-237 | a report takes exactly the groups that are due and for which it has room: the first one before version 3, otherwise all, but joins and leaves together only if told to |
| Reports.SlotBecomes | code/bngblaster/src/bbl_access.c:210-449 | what every event does to a slot, and that nothing else happens to it |
| Reports.Announcements | code/bngblaster/src/bbl_tx.c:120-237 | over every run each join and leave is announced as often as the robustness said, the group does not settle before, and the first announcement stays pending |
| Reports.TimerRepeats | code/bngblaster/src/bbl_tx.c:16-59 | the robustness timer asks for the next announcement or settles the group, and nothing else |
| Reports.LeaveIsReported | code/bngblaster/src/bbl_access.c:313-320 | over every run a group that is left is reported as left by the next report that has room for it |
| Reports.RobustnessHeard | code/bngblaster/src/bbl_igmp.c:37-39 | the robustness is the one of the last query that carried one |
| Multicast.MulticastSession.RxQuery | code/bngblaster/src/bbl_igmp.c:35-66 | a query marks the active groups it asks for and sets the robustness |
| Multicast.MulticastSession.RxMulticast | code/bngblaster/src/bbl_access.c:614-656 | the loop over all groups for one packet |
| Ipoe.Confluence | code/bngblaster/src/bbl_access.c:479-566 | any sequence of ARP packets and advertisements ends in the state that the first reply of the gateway and the first advertisement decide, and is established at most once |
| Ipoe.DualStack | code/bngblaster/src/bbl_access.c:479-526 | a dual-stack session is established exactly when both arrived, and then uses the sender of the first reply, whatever the order |
| Ipoe.EstablishedIff | code/bngblaster/src/bbl_access.c:479-526 | for every configuration, every DHCP state and any sequence of frames: established exactly when a frame counted and, for each enabled family, the ARP reply or advertisement arrived and DHCP is disabled, bound, renewing or released |
| Ipoe.LearnsFirst | code/bngblaster/src/bbl_access.c:529-592 | prefix of the first advertisement, gateway of the first reply or else of the first advertisement |
| Ipoe.RepliesWhenAsked | code/bngblaster/src/bbl_access.c:1760-1786 | a reply is due exactly when the gateway asked for the session's address; an idle or terminated session takes nothing |
| Ipoe.IpoeClient.CheckEstablished | code/bngblaster/src/bbl_access.c:479-526 | the two gates |
| Ipoe.IpoeClient.HandleArp | code/bngblaster/src/bbl_access.c:1760-1786 | the effect of an ARP packet |
| Ipoe.IpoeClient.HandleRa | code/bngblaster/src/bbl_access.c:540-566 | the effect of a router advertisement |
| Ipoe.Broadcast | code/bngblaster/src/bbl_access.c:1872-1905 | the loop over all sessions gives each eligible one what processing the frame alone would give, leaves the others alone, and counts the eligible ones |

## Left out

- Packet encoding and decoding beyond TLV options, checksums, MD5, PPPoE tags.
- The timer wheel: a timer may fire whenever its handler would act; that timers are set and deleted is not modelled.
- DHCP, DHCPv6, L2TP, CFM, TCP, streams and routing protocols; IPoE sessions appear only in the Ipoe module.
- The other exits of the event loop: waiting for L2TP tunnels and routing sessions, and leaving after repeated requests.
- Reply-Message parsing, access-line attributes, logging, JSON reports, control-socket parsing, ncurses.
- IGMP join and leave commands of the control socket, which do not use the slots of zapping.
- The IPv6 address, DNS servers and traffic endpoints that a router advertisement or the established check set up.
- The multicast fan-out of router advertisements: its first handler rewrites the shared frame.
- ARP, DHCP, DHCPv6 and ICMPv6 handlers of the responder.
- Options.FilterIpcp: requires well-formed options, which the decoder guarantees, because the loop trusts the length bytes.
- Options.FilterLcp: requires well-formed options for the same reason.
- ZappingRuns.Rotation: the configured groups themselves stay below 2^32, as the source assumes for its largest group.
- Control.Controller.StartTick: starts PPPoE sessions only; IPoE sessions, connectivity checks and the transmit queue of the interface are not modelled.
- Control.Controller.CtrlJob: stopping L2TP tunnels and routing protocols is not modelled.
- Options.LcpRejectContents: is about the buffer; Responses.RejectSentIff is about the frame.
- Census.AssertionsHold: fleet runs start only idle sessions; SchedulerCounts.AssertionsHoldScheduled and SchedulerCounts.ExitsEarly are about the control job.
- Wire.IpcpNakHeeded: the values fit the fields of the program (16, 32 and 64 bits), as in the other lemmas about option bytes.
- DelayTimes.TimesMatchHistory: the clock has passed its first second, because the program takes zero seconds for "never".
- Reports.LeaveIsReported: the robustness is not zero to begin with; the program begins with two and queries never set zero.
- Views.ViewsTakeTurns: the number of zaps fits its byte, and the initial join comes while nothing is joined.
- RoundTrips.KeepaliveIff: begins with nothing but echoes on the way and no other timer.
- Responses.AckSentIff: another request with the same identifier that is acknowledged in between is taken as the request to look at.
- Responses.RejectSentIff: another rejected request with the same identifier is treated likewise.
- Rounds.LoopEnds: speaks of rounds instead of time, since the timer wheel is not modelled; events that start a termination over (another clearing, a Terminate-Request of the peer, a premature Protocol-Reject, the start delay of LCP) are excluded during the rounds.
- Rounds.TeardownCompletes: as Rounds.LoopEnds, and during the drain no premature Protocol-Reject lifts a session out of termination.
- TwoParty.Converges: no timer of the client fires and no packet is lost; Retries is about timers and a silent peer, RoundTrips.KeepaliveIff about the keepalive timer.
- Commands.Obey: packets and timers of a session reach it through Client.PppoeClient, not through the controller.
