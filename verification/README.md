# A verified model of KNE's concurrent and wiring core

Kubernetes Network Emulation (KNE) builds emulated networks out of pods. This project models the parts of it that
are hard to get right by reading, and proves what they promise over every input and every interleaving:

* the **link-state protocol of the bridge**: two bridges watch one interface each, report carrier to the other over a
  stream, and take their own interface up or down on receipt (`LinkReporter`, `LatestChannel`, `LinkProtocol`,
  `LinkSafety`, `LinkLatch`, `LinkConvergence`, `LinkCrossing`, `LinkComeback`, `LinkHistory`);
* the **demux and the server's cache of demuxes**: subscriber channels, bounded queues, teardown races, frame
  conservation (`Demux`, `DemuxHistory`, `DemuxLinks`, `FramePath`, `ServerCache`, `ServerHistory`);
* **topology wiring**: from the list of links through `load`, interface renaming and peer resolution to the emitted
  mesh links, and the generated ring as an input (`TopologyLoad`, `InterfaceNames`, `TopologySpecs`, `TopologyWiring`,
  `TopologyOutcome`, `RingTopology`);
* the **log shim**, sequentially and under overlapping calls (`LogShim`, `LogShimRaces`, `LogShimOrder`), the **address pool**
  (`AddressPool`), the **root cause of a failed concurrent deployment** (`DeployErrors`, `DeployHistory`), **service creation with
  rollback** (`NodeServices`), and the **pod watcher** with its filter of repeated updates (`PodStatus`, `PodWatcher`).

Code that updates things in place is a class or a method, proved against functions on values; protocols are state
machines whose steps are the sections the source makes atomic (a locked section, a channel operation, one look at a
context), and the theorems hold for every sequence of steps from the start. The modules called `...History` say what
each part of a state is in terms of the steps that led to it, without the step functions.

## Assumptions about the environment

* An interface has carrier exactly if it and the device beyond it are admin up, both flags are read together, setting
  an interface up or down succeeds, and the kernel notifies after every change.
* Streams are first-in first-out; a served interface has one client; a message of an old stream is not applied once the
  handler of the new stream has subscribed.
* Node names are non-empty; in `TopologyWiring` no interface has a peer set beforehand and each node emits one spec.
* An errgroup records the first error before it cancels the group.
* Cancelling the server's context cancels the contexts of all its demuxes in one step (Go cancels them one by one, before
  the cancelling call returns).
* All flushes of the log shim are made by one goroutine, as `New` starts it; writes may come from any number.
* A Service that could not be deleted during rollback is one of the set `undeletable`; a refused one of `refused`.
* In the pod watcher the clock is read once per status. That a deletion timestamp is never taken back is assumed only
  where watching with and without the filter are compared (`PodWatcher.Plausible`).

## Where the code differs from what its comments say

* The comment of `linkReporter` says it avoids latching both ends down. When two DOWN reports cross, both interfaces
  end admin down for good (`LinkLatch.LatchIsForever`, `LinkConvergence.LatchIsReachable`). With a live stream, some order
  of the remaining work ends there if and only if at both ends a DOWN may still be the last word
  (`LinkCrossing.LatchesExactlyWhen`).
* It also says that the first observation after coming back up is always reported. An observation that is consumed is
  reported if and only if it is the first of an open Link, or one of the interface being down was consumed since the
  last, or the carrier differs (`LinkComeback.ComebackIsReportedExactlyWhen`); coalescing may replace the one of being
  down, and then the comeback goes unreported (`LinkComeback.ComebackMayGoUnreported`).
* `Server.Close` says it waits for the read loops. It does so exactly if no demux evicted by a lookup is still winding
  down (`ServerCache.CloseAwaitsAllButEvicted`, with a run where it does not in `ServerCache.EvictedIsNotAwaited`).
* A demux may be created after `Server.Close` has cancelled the server, by a call that holds the mutex and by no other
  (`ServerCache.CreatedAfterShutdown`, `ServerCache.CreatesAfterShutdownExactlyWhen`).
* `droppedWriteFrames` counts an oversized frame twice (`FramePath.DroppedWriteFramesCount`).
* `renameInterfaces` loses an interface exactly if an assigned name `ethN` is also the name of an interface that is kept
  (`InterfaceNames.RenamesExactlyWithoutClash`).
* `Write` of an empty buffer with nothing buffered indexes out of range (`LogShim.Shim.Write` returns `None`). No call
  does so if and only if every empty write comes in the middle of a line (`LogShim.PanicsExactlyWhenUnsafe`).
* Overlapping calls of the log shim may log lines out of order. The order is certain if and only if calls that can
  overlap find only lines of one text (`LogShimOrder.OrderIsCertainExactlyWhen`).
* The comment of `componentErr` wants the one real error reported. It is the error of the first goroutine to record, not
  always of the first to fail (`DeployErrors.FirstToRecordIsReported`, `DeployErrors.FirstToFailNeedNotBeReported`); that
  a component is the one reported is certain if and only if all others have succeeded
  (`DeployErrors.ReportIsCertainExactlyWhen`).
* `MaxPullTime` is described as the time a pod gets after an `ErrImagePull`. The filter of repeated updates hides the
  timeout of a pod whose status does not change (`PodWatcher.StuckPullIsNeverReported`), and hides nothing else
  (`PodWatcher.RepeatsHideOnlyTimeouts`); the watcher behind it gives up if and only if an event that is not a repeat
  ends the watch (`PodWatcher.FilteredGivesUpExactlyWhen`).

## Model

| member | source | states |
|---|---|---|
| LinkReporter.Reporter.constructor | bridge/link.go:183-185 | nothing is reported yet |
| LinkReporter.Reporter.Observe | bridge/link.go:189-203 | what is returned to be sent and what counts as reported afterwards, from the observation and the state before |
| LinkReporter.EmissionsKeepPeerInStep | bridge/link.go:173-203 | for every sequence of observations, a peer that applies exactly the emitted reports ends in the reporter's state whenever that is not UNKNOWN; UNKNOWN is never emitted |
| LinkReporter.EmissionsAlternateWhileUp | bridge/link.go:189-203 | while the interface stays admin up the emitted reports alternate: none repeats the one before |
| LatestChannel.Channel.TryReceive | bridge/link.go:117-120 | the non-blocking receive takes what is there, if anything |
| LatestChannel.Channel.TrySend | bridge/link.go:121-124 | the non-blocking send succeeds exactly if the slot is free |
| LatestChannel.Channel.PublishLatest | bridge/link.go:116-125 | uninterrupted, the channel holds the published value afterwards, whatever it held |
| LatestChannel.DrainKeepsInvariant | bridge/link.go:117-120 | draining keeps the channel invariant, whoever took the old value |
| LatestChannel.TrySendKeepsInvariant | bridge/link.go:121-124 | the send of the single sender always finds room |
| LatestChannel.ReceiverEndsOnLatest | bridge/link.go:114-125 | with one sender and a receiver interleaved at any point, no publication is lost by its own send, the received values are a subsequence of the published ones, and a receiver that drains ends on the latest |
| LatestChannel.EachCallPublishes | bridge/link.go:114-125 | over every run the values published are those of the calls, in their order, and every receive takes one value |
| LinkSafety.ConsumeServerKeepsInvariant | bridge/bridge.go:398-409 | observing and publishing to the subscribed stream keeps the protocol invariant |
| LinkSafety.ConsumeClientKeepsInvariant | bridge/client.go:203-223 | observing and sending on the stream keeps the protocol invariant |
| LinkSafety.StartServerKeepsInvariant | bridge/bridge.go:362-384 | attaching a Link and reading its current flags keeps the protocol invariant |
| LinkSafety.StartClientKeepsInvariant | bridge/client.go:194-202 | reading and sending the current state when a stream starts keeps the protocol invariant |
| LinkSafety.StepKeepsInvariant | bridge/bridge.go:362-445 | every step of either side, with reconnects and demux restarts, keeps: the newest observation in flight is current, an idle reporter is current, and the other end is heading for what was last reported |
| LinkSafety.ExecutionInvariant | bridge/client.go:149-327 | the invariant holds in every state of every run |
| LinkSafety.AgreementAtQuiescence | proto/wire/wire.pb.go:88-96 | in every reachable quiescent state the interfaces agree with the devices if and only if some interface is up or both devices are down; an interface that is up shows the device beyond it to the other end |
| LinkSafety.SteadyStep | bridge/bridge.go:432-445 | while the device at one end is up and only UP is under way from it, every step keeps that and none takes the far interface down |
| LinkSafety.NeverTakenDown | bridge/bridge.go:432-445 | if one device stays up for a whole run, only UP is ever under way from that end and no step takes the far interface down, whatever state it started in |
| LinkLatch.LatchIsForever | bridge/link.go:189-203 | both interfaces down with no UP and no admin-up observation under way is absorbing under every step, reconnects included |
| LinkLatch.QuiescentBothDownIsLatched | bridge/link.go:173-182 | a quiescent state with both interfaces down is latched |
| LinkLatch.ExecutionMeaningful | bridge/bridge.go:401-404 | in every state of every run no UNKNOWN is under way as a message |
| LinkLatch.OneSidedRun | bridge/bridge.go:413-445 | once one interface is down and no DOWN of that end is under way, no run leads to both down without passing both up |
| LinkLatch.TakenDown | bridge/bridge.go:432-445 | only applying a received DOWN ends a state with both interfaces up |
| LinkLatch.LatchNeedsCrossedDowns | bridge/link.go:173-182 | a run from both up to both down has a last step out of both-up; it applied a DOWN at one end while a DOWN of that same end was still under way to the other |
| LinkLatch.SteadyDevice | bridge/client.go:317-327 | if one device stays up for a whole run, a far interface that started up is up throughout; and at quiescence the near interface is up exactly when the other device is, if and only if not both interfaces started down or the other device is down |
| LinkConvergence.RankDecreases | bridge/link.go:103-125 | every productive step (notify, publish, consume, send, deliver) lowers a rank read off the state |
| LinkConvergence.StaysLive | bridge/client.go:193-224 | productive steps keep the stream established and leave the devices alone |
| LinkConvergence.WorkUnlessQuiescent | bridge/link.go:103-112 | a state that is not quiescent has a productive step |
| LinkConvergence.WorkIsBounded | bridge/bridge.go:580-614 | any order of work takes at most as many steps as the rank |
| LinkConvergence.Converges | bridge/link.go:173-203 | whatever happened before, any order of work ends within the bound, in a quiescent state that agrees with the devices or is latched |
| LinkConvergence.Settles | bridge/client.go:193-224 | every run with a live stream can be extended to quiescence with the devices unchanged |
| LinkConvergence.LatchIsReachable | bridge/link.go:173-182 | a run from an initial state in which both devices end up, all is quiescent and both interfaces are down for good |
| LinkCrossing.SparedForGood | bridge/link.go:189-203 | through any work: an end whose device is up, with UP as its last word, stays so; an end that is down before a device that is down, and that no UP reaches before a last DOWN, stays so until the other end has said UP for good |
| LinkCrossing.CanLatch | bridge/link.go:116-125 | if both ends can end down as they are, an order of work that crosses the two DOWNs and lets the observations of being down replace whatever is left |
| LinkCrossing.MayLatch | bridge/link.go:116-125 | if both ends may end down, an order of work that first brings up those that have to be up to observe it |
| LinkCrossing.LatchesExactlyWhen | bridge/link.go:173-182 | in every run, in every state with a live stream, some order of the work ends in the latch if and only if at both ends a DOWN is what the other end is heading for, or is observed but not consumed, or is about to be observed, or will be because the end is down before a device that is down and an UP reaches it before a last DOWN |
| LinkCrossing.AgreesExactlyWhen | proto/wire/wire.pb.go:88-96 | in the same states, every order of the work ends in agreement with the devices if and only if one end cannot end down in this sense or both devices are down |
| LinkComeback.ReporterReflects | bridge/link.go:183-203 | in every run the reporter's state is told by the observations consumed since the Link was opened |
| LinkComeback.ComebackIsReportedExactlyWhen | bridge/link.go:180-203 | in every run an admin-up observation that is consumed next is reported if and only if it is the first since the Link was opened, an admin-down one was consumed since the last admin-up one, or the carrier differs from it |
| LinkComeback.ComebackMayGoUnreported | bridge/link.go:116-125 | a run in which an interface is set down and up again and the next consumed observation, of it being up, reports nothing |
| LinkHistory.AdminIsLastApplied | bridge/client.go:317-327 | over every run an interface is admin up exactly if the last message applied to it, from the stream or left over from the previous one, said UP, and as it was at the start if there was none |
| LinkHistory.LinksAreOpenSince | bridge/client.go:149-224 | over every run which Links are open, whose event loops run, and whether the stream is connected and subscribed, from the last step that opened, started, subscribed or ended each |
| LinkHistory.ObservationsInOrder | bridge/link.go:103-125 | since a Link was opened its notifications carry the flags at their moments, in order, and the channel holds the one published last unless it was consumed |
| LinkHistory.DirtyIsChanged | bridge/link.go:103-112 | a notification is due exactly if the flags have changed since the last one or the opening of the Link |
| LinkHistory.MessagesInOrder | bridge/bridge.go:580-614 | over every run what an end has sent is what was taken off, in order, followed by what is still under way |
| LinkHistory.SlotIsLatest | bridge/bridge.go:398-422 | the channel of the subscribed stream holds the last report since subscription, or the state at subscription, unless it was sent |
| Demux.InterfaceDemux.constructor | bridge/bridge.go:222-244 | a new demux has no subscriber and is open |
| Demux.InterfaceDemux.Subscribe | bridge/bridge.go:330-342 | refused exactly if closed, cancelled or at 32 subscribers; otherwise a new open channel is registered |
| Demux.InterfaceDemux.Unsubscribe | bridge/bridge.go:345-352 | a registered channel is removed and closed, any other is left alone |
| Demux.InterfaceDemux.CloseChan | bridge/bridge.go:349-349 | closing requires a channel not closed before (a second close would panic) |
| Demux.InterfaceDemux.TrySend | bridge/bridge.go:313-321 | sending requires an open channel (a send after close would panic); it succeeds exactly if the queue has room |
| Demux.InterfaceDemux.FanOut | bridge/bridge.go:312-322 | the frame is offered to every registered channel once, and every full one is counted as a drop |
| Demux.InterfaceDemux.Broadcast | bridge/bridge.go:307-323 | one captured frame: the new state of queues, drops and history |
| Demux.InterfaceDemux.Teardown | bridge/bridge.go:272-282 | every registered channel is closed and none stays registered |
| Demux.InterfaceDemux.Close | bridge/bridge.go:355-358 | cancels and changes nothing else |
| Demux.LifecycleStep | bridge/bridge.go:271-358 | every step keeps: registered channels are open, every other one ever handed out was closed exactly once, at most 32 registered, no queue over 1000 |
| Demux.ChannelsClosedOnce | bridge/bridge.go:271-358 | over every run no channel is closed twice, after teardown each was closed exactly once, and then or after cancelling nobody can subscribe |
| Demux.NothingSentAfterClose | bridge/bridge.go:307-352 | a channel once closed is never closed again nor sent to, in any run |
| Demux.BroadcastConserves | bridge/bridge.go:312-322 | a broadcast adds one copy or one drop per subscriber and keeps every subscriber's frames in capture order |
| Demux.StepConserves | bridge/bridge.go:271-352 | every step keeps copies plus drops equal to the frames offered, and every subscriber's frames in capture order |
| Demux.ReceiveCommutes | bridge/bridge.go:312-322 | a receive that falls between two sends of a broadcast commutes with the sends to other channels |
| Demux.FramesConserved | bridge/bridge.go:271-325 | over every run enqueued copies plus dropped frames are the sum over broadcasts of the number of subscribers, and each subscriber's frames are a subsequence of those captured |
| DemuxHistory.ListenersAreSubscribed | bridge/bridge.go:330-352 | over every run a channel is registered exactly if an accepted subscription handed it out and neither its unsubscription nor the teardown came since |
| DemuxHistory.ChannelsWereHandedOut | bridge/bridge.go:330-342 | a channel exists exactly if an accepted subscription handed it out |
| DemuxHistory.ClosedExactlyWhenEnded | bridge/bridge.go:272-282 | a channel handed out is closed, once, exactly if its subscription was ended |
| DemuxHistory.ClosedExactlyByTeardown | bridge/bridge.go:272-282 | the demux is closed exactly by its teardown, and cancelled exactly by that or a cancellation |
| DemuxHistory.AcceptedExactlyWhen | bridge/bridge.go:330-342 | a subscription is accepted exactly if fewer than 32 channels are registered and nothing was cancelled or torn down before |
| DemuxHistory.EachGetsItsFrames | bridge/bridge.go:307-323 | over every run each channel got exactly the frames broadcast while it was registered and held fewer than 1000, in order, and every receive took the oldest one waiting |
| DemuxHistory.CapturedAreBroadcasts | bridge/bridge.go:307-311 | the captured frames are those of the broadcasts |
| DemuxHistory.DroppedExactly | bridge/bridge.go:312-322 | the drops are, at each broadcast, one for every registered channel that held 1000 frames |
| DemuxLinks.LinkHub.constructor | bridge/bridge.go:370-374 | the reporter starts with the current state if it can be read |
| DemuxLinks.LinkHub.ObserveLink | bridge/bridge.go:398-409 | the reporter's state, and the latest state in every registered channel if there is one to report |
| DemuxLinks.LinkHub.SubscribeLinkState | bridge/bridge.go:413-422 | the new channel holds the current state if there is one |
| DemuxLinks.LinkHub.UnsubscribeLinkState | bridge/bridge.go:425-429 | the channel is no longer published to |
| DemuxLinks.FollowStep | bridge/bridge.go:398-429 | every step keeps: a state other than UNKNOWN is the last one published to each subscriber |
| DemuxLinks.EverySubscriberFollows | bridge/bridge.go:362-429 | over every run, and a subscriber that drained its channel holds the reporter's state |
| DemuxLinks.ListenersAreSubscribed | bridge/bridge.go:413-429 | over every run a channel is published to exactly if a subscription handed it out and it was not given back since |
| DemuxLinks.SubscribedFollows | bridge/bridge.go:398-429 | every channel handed out and not given back follows the reporter |
| DemuxLinks.NothingAfterUnsubscribing | bridge/bridge.go:425-429 | nothing is published to a channel after it was given back, in any run |
| DemuxLinks.ReportedIsLastObserved | bridge/bridge.go:398-409 | the state to be reported is that of the last observation: UP or DOWN by the carrier, nothing while admin down |
| DemuxLinks.EachReceiveTakesOne | bridge/bridge.go:595-596 | every receive, and nothing else, adds one state to what a subscriber received |
| DemuxLinks.ObservationReaches | bridge/bridge.go:398-409 | an observation replaces the state in exactly the subscribers' channels, and only if it differs from what was reported |
| DemuxLinks.LinkClosedExactlyOnce | bridge/bridge.go:362-395 | whichever of attachLink and teardown comes first, in any interleaving the Link is closed at most once, and exactly once when both are through |
| DemuxLinks.HalvesRunOnce | bridge/bridge.go:362-395 | each half takes the lock once, and the Link is closed once for every close a half goes on to make |
| FramePath.ServerIngress.Write | bridge/bridge.go:254-266 | which error, which counter and which frame written, for cancelled, empty, oversized and other frames |
| FramePath.ServerIngress.Ingress | bridge/bridge.go:617-648 | the loop stops at the first fatal write error; frames written, counter and link states applied are those of the packets before it |
| FramePath.ClientIngress.Handle | bridge/client.go:281-300 | one message at the client: link state applied, frame written, dropped or fatal |
| FramePath.ClientIngress.Ingress | bridge/client.go:265-302 | the same for the client, which drops oversized frames itself |
| FramePath.DroppedWriteFramesCount | bridge/bridge.go:632-646 | the counter is twice the oversized frames plus the other failed writes that did not stop the loop |
| FramePath.ClientWritesExactly | bridge/client.go:284-300 | the client writes exactly the frames of 1 to 65535 bytes that the socket accepts, in order |
| FramePath.ClientStopsExactly | bridge/bridge.go:682-700 | its loop stops exactly at the first such frame whose write ends in one of the seven fatal errors, named one by one |
| FramePath.ServerWritesExactly | bridge/bridge.go:629-646 | the server, up to where its loop stops, writes exactly the frames of 1 to 65535 bytes that the socket accepts, in order |
| FramePath.ServerStopsExactly | bridge/bridge.go:632-640 | its loop stops exactly at the first frame with a fatal write error or after the cancellation |
| FramePath.EachLinkStateIsApplied | bridge/bridge.go:629-631 | every state a message carries is applied, in its place among those that carry one |
| FramePath.NothingElseIsApplied | bridge/client.go:281-283 | as many states are applied as messages carry one |
| FramePath.PutIsSubsequence | bridge/client.go:284-300 | the frames the client writes are an in-order subsequence of those received |
| FramePath.ServerIngress.Handle | bridge/bridge.go:629-646 | one message: link state applied, frame written, counted or fatal |
| FramePath.ServerPutIsSubsequence | bridge/bridge.go:617-648 | the frames the server writes are an in-order subsequence of those received |
| FramePath.EndToEndOrder | bridge/bridge.go:580-615 | from capture at the server to the client's interface: frames arrive in capture order, none added |
| FramePath.EndToEndOrderToServer | bridge/client.go:228-263 | from capture at the client to the server's interface: the same |
| ServerCache.WireServer.GetOrCreateDemux | bridge/bridge.go:496-534 | refused after shutdown; the live cached demux, or a new one in place of a dead one, or the opener's error with the dead one gone |
| ServerCache.WireServer.OnClose | bridge/bridge.go:518-522 | a terminating demux removes itself from the cache, only if it is the cached one |
| ServerCache.InvariantStep | bridge/bridge.go:496-534 | every step keeps: live demuxes are cached, cached ones are not torn down, every other one was torn down or evicted |
| ServerCache.OneLiveDemuxPerInterface | bridge/bridge.go:496-534 | in every reachable state at most one uncancelled demux per interface, and it is the cached one (so a late teardown never evicts a replacement); after shutdown all are cancelled |
| ServerCache.AtMostOneMore | bridge/bridge.go:659-666 | after shutdown, in every run, at most the call that holds the mutex creates a demux, and what is created is born cancelled |
| ServerCache.CreatesAfterShutdownExactlyWhen | bridge/bridge.go:496-534 | after shutdown, in every run, another demux can still be created if and only if a call holds the mutex |
| ServerCache.CreatedAfterShutdown | bridge/bridge.go:500-525 | for every interface name, a run in which a demux is created after Close has cancelled the server |
| ServerCache.NoneCreatedAfterClose | bridge/bridge.go:659-666 | once Close has collected the demuxes no run creates another |
| ServerCache.CloseAwaitsAllButEvicted | bridge/bridge.go:658-676 | Close waits for every running read loop if and only if every demux evicted by a lookup has terminated |
| ServerCache.EvictedIsNotAwaited | bridge/bridge.go:504-509 | for every interface name, a run in which Close misses a read loop |
| ServerHistory.CancelledExactlyWhen | bridge/bridge.go:659-660 | over every run a demux is cancelled exactly by its own cancellation or by the shutdown, before or after its creation, and torn down exactly by its callback |
| ServerHistory.ShutdownExactlyByClose | bridge/bridge.go:659-660 | the server is shut down exactly by Close |
| ServerHistory.LockIsHeldSince | bridge/bridge.go:496-534 | the mutex is held for a name exactly from the step that took it until the socket was tried or a live demux found in the cache |
| ServerHistory.CreatedUnderItsName | bridge/bridge.go:511-525 | every demux was created by a call that held the mutex for its name |
| ServerHistory.EachCreationAddsOne | bridge/bridge.go:516-525 | every creation, and nothing else, makes one more demux |
| ServerHistory.EvictedExactlyWhen | bridge/bridge.go:504-509 | a demux is evicted exactly by a lookup that finds it cached and cancelled |
| ServerHistory.CachedExactlyWhen | bridge/bridge.go:496-534 | a demux is cached, under its own name, exactly from its creation until a lookup evicts it or it is torn down |
| ServerHistory.CollectedIsTheCache | bridge/bridge.go:661-666 | what Close waits for is what was cached when it listed the demuxes |
| TopologyLoad.Manager.Ensure | topo/topo.go:564-570 | a missing interface is added with its name, an existing one stays |
| TopologyLoad.Manager.ConnectLink | topo/topo.go:559-593 | one link: the error of the first failing check with what was already changed, or both ends joined |
| TopologyLoad.Manager.ConnectLinks | topo/topo.go:557-595 | the loop with its counter: link after link, stopping at the first error |
| TopologyLoad.Manager.CheckLoops | topo/topo.go:615-622 | accepts exactly if every link between ports of one node is on nodes that support it; otherwise names an offending link |
| TopologyLoad.ConnectMeaning | topo/topo.go:560-593 | one link succeeds exactly if both nodes exist and both ends are free, and then changes just these two interfaces |
| TopologyLoad.LoadSucceedsExactlyWhenWirable | topo/topo.go:557-595 | the link pass succeeds if and only if all end nodes exist, no used interface has a peer and none is used by two links; link i then has UID i and mutual peers at both ends and all other interfaces are untouched |
| TopologyLoad.LoadedEnds | topo/topo.go:564-593 | field by field, after a successful pass both ends of link i have UID i and each other's node and interface, keep MTU and name, and a new interface has its own name and no MTU |
| TopologyLoad.OthersAreUntouched | topo/topo.go:557-595 | an interface that no link names is as it was |
| TopologyLoad.FirstFailureIsBlamed | topo/topo.go:560-587 | the error is of the first link that cannot be made: a missing node of it, A before Z, or an end with a peer from before or from an earlier link, A before Z |
| InterfaceNames.RenameInterfaces | topo/node/alpine/alpine.go:74-87 | in whatever order the keys come, the k-th Ethernet key becomes ethk, other keys stay, and the output holds the values under the new keys |
| InterfaceNames.NewNames | topo/node/alpine/alpine.go:77-84 | every key that begins with Ethernet becomes eth and a decimal number of its own, from 1 to the number of such keys; every other key stays |
| Names.DecimalReads | topo/node/alpine/alpine.go:79-79 | the numeral is the decimal one: digits only, no leading zero, reading back as the number |
| InterfaceNames.InjectiveExactlyWithoutClash | topo/node/alpine/alpine.go:74-87 | for every order the renaming is injective if and only if no kept key is one of the assigned names |
| InterfaceNames.RenamesExactlyWithoutClash | topo/node/sonic/sonic.go:71-84 | no interface is lost, and the output is the input under a bijection of keys, if and only if there is no clash |
| InterfaceNames.ClashLosesInterface | topo/node/alpine/alpine.go:78-82 | any node with an Ethernet key and a key eth1 loses an interface |
| TopologySpecs.GetNodeLinks | topo/node/node.go:1062-1086 | fails exactly if an interface other than eth0 lacks a peer name or peer interface; otherwise one link for each of them, with its UID and peer |
| TopologySpecs.LinksShowInterfaces | topo/node/node.go:1064-1084 | every interface but eth0 has exactly one link, with its UID, MTU, peer node and peer interface, and eth0 has none |
| TopologySpecs.SetLinkPeer | topo/topo.go:627-639 | finds the first link of the peer's specs with the same UID that is not the link itself, sets pod and interface from it, or fails |
| TopologySpecs.VisitLink | topo/topo.go:662-671 | resolving one link in a table some of whose links are already rewritten gives what resolving it from the originals gives |
| TopologySpecs.ResolveSpec | topo/topo.go:662-672 | the loop over the links of one spec |
| TopologySpecs.ResolveNode | topo/topo.go:661-674 | the loop over the specs of one node |
| TopologySpecs.WhollyIsSimultaneous | topo/topo.go:660-675 | when all links are visited, the table is the simultaneous resolution of the originals |
| TopologySpecs.TopologySpecs | topo/topo.go:643-678 | for every order of the nodes: succeeds if and only if every link resolves from the originals, and then the result is the simultaneous resolution, in that order |
| TopologyWiring.ResolvesToMate | topo/topo.go:627-639 | a resolved link gets the other end of the topology link with its UID, under the renamed key although the stored peer interface is stale |
| TopologyWiring.OnlyTwo | topo/topo.go:544-595 | a UID lies on at most two emitted links |
| TopologyWiring.LinksAreMutual | topo/topo.go:641-678 | if load and resolution succeed, then for any renaming every UID that occurs lies on exactly two emitted links, and each is the other's peer by pod and interface |
| TopologyWiring.OutputIsPeered | topo/topo.go:659-677 | the emitted specs keep their name, order and number of links, each with its peer resolved |
| TopologyWiring.EmittedKeepsMtu | topo/node/node.go:1082-1082 | an emitted and resolved link has the MTU its interface was given before loading, and keeps UID and local interface |
| TopologyWiring.LinkEndIsFound | topo/node/node.go:188-206 | every end of a loaded link that is not eth0 after renaming is emitted by its node |
| TopologyWiring.ResolvesExactlyWhenConnectable | topo/topo.go:627-678 | resolution succeeds if and only if of every link both ends are emitted or none is, and no link joins an interface with itself |
| RingTopology.GenerateRing | cmd/topology/topology.go:189-239 | refused exactly for no links or fewer than two nodes; otherwise the nodes and count times links links |
| RingTopology.RingOfNodes | cmd/topology/topology.go:213-223 | the node loop |
| RingTopology.RingOfLinks | cmd/topology/topology.go:225-239 | the two link loops |
| RingTopology.RingLinkAt | cmd/topology/topology.go:225-239 | which node and number the k-th link belongs to |
| RingTopology.HasRingLink | cmd/topology/topology.go:225-239 | every link of every node is there, node after node |
| RingTopology.RingLinkJoins | cmd/topology/topology.go:226-238 | link j of node i goes from its port ethj to port eth(j+links) of the next node, the first after the last |
| RingTopology.RingLinksDisjoint | cmd/topology/topology.go:226-238 | no two links of a ring share a port |
| RingTopology.RingIsWirable | cmd/topology/topology.go:213-239 | every ring of two or more nodes passes the link pass and the loop check of load |
| RingTopology.RingInterfaces | topo/topo.go:557-595 | loading it gives every node exactly the interfaces eth1 to eth(2*links) |
| TopologyOutcome.SucceedsExactlyWhen | topo/topo.go:544-678 | link pass, loop check, GetNodeLinks at every node and peer resolution all succeed if and only if the links are wirable, their loops supported, unlinked interfaces are the management one, far ends of emitted ends have names, and of every link both ends are emitted or none, and they differ |
| RingTopology.RingSucceedsExactlyWhen | topo/topo.go:643-678 | a ring, under any renaming of interfaces, succeeds if and only if no link has just one end renamed to the management interface |
| RingTopology.RingResolves | topo/topo.go:643-678 | in particular it does if no interface but the management one is given the management name |
| LogShim.Shim.Write | logshim/logshim.go:74-100 | lines logged and rest kept, from the segments of the text at hand; an empty write with an empty buffer panics |
| LogShim.Shim.Emit | logshim/logshim.go:94-98 | the non-empty lines, in order |
| LogShim.Shim.Flush | logshim/logshim.go:103-112 | the rest is logged if there is one and the buffer emptied |
| LogShim.JoinSplit | logshim/logshim.go:82-82 | joining the segments with newlines gives back the text |
| LogShim.SplitAppend | logshim/logshim.go:77-89 | splitting a text in two writes at any byte gives the segments of the whole |
| LogShim.BufferedIsUnfinished | logshim/logshim.go:80-92 | the buffer is the unfinished line of the text since the last flush |
| LogShim.PanicsExactlyWhenUnsafe | logshim/logshim.go:84-84 | no call of a sequence panics if and only if every empty write comes while the text since the last flush stands in the middle of a line |
| LogShim.WritesSplitTheStream | logshim/logshim.go:74-100 | after any writes, none of which panics, the buffer is the last segment of all the text written and the logged lines are the others that are not empty |
| LogShim.LinesAreExactlyTheSegments | logshim/logshim.go:66-71 | after Close the logger got exactly the non-empty lines of the text, however it was cut into writes that do not panic |
| LogShim.LoggedLinesAreLines | logshim/logshim.go:94-112 | however writes and flushes alternate, no logged line is empty or holds a newline |
| LogShim.EachSegmentAsOftenAsItOccurs | logshim/logshim.go:94-98 | after Close every non-empty segment of the text was logged as often as it occurs, in order |
| LogShim.WriteAccounts | logshim/logshim.go:74-100 | a write keeps: logged text plus buffer is the text without newlines |
| LogShim.FlushAccounts | logshim/logshim.go:103-112 | so does a flush |
| LogShim.FlushesLoseNothing | logshim/logshim.go:43-64 | with flushes at any points between writes, as long as none panics, no byte is lost, added or reordered |
| LogShimRaces.FoundAreTheLines | logshim/logshim.go:80-92 | all calls together find the lines the sequential shim logs |
| LogShimRaces.LockIsSequential | logshim/logshim.go:80-92 | the locked sections find what they would find one after the other, in the order of the lock |
| LogShimRaces.ExecutionKeeps | logshim/logshim.go:74-116 | in every interleaving each call's lines are handed over or still to be, in the call's order |
| LogShimRaces.ExecutionIsOrderly | logshim/logshim.go:51-62 | a line is logged before one of an earlier call only if the two calls can overlap: flushes cannot overlap flushes |
| LogShimRaces.RacesLoseNothing | logshim/logshim.go:94-98 | when no call is under way the log is an orderly interleaving of what the calls found, each line once; in turn, it is the sequential log |
| LogShimRaces.ExclusiveUseKeepsOrder | logshim/logshim.go:74-116 | without overlap the log is that of the sequential shim |
| LogShimOrder.EveryInterleavingComesAbout | logshim/logshim.go:74-116 | every orderly interleaving of what the calls find is the log of some run |
| LogShimOrder.Distinguishable | logshim/logshim.go:92-98 | two calls that can overlap and find two different lines have an orderly interleaving that looks different |
| LogShimOrder.Indistinguishable | logshim/logshim.go:94-98 | if only lines of the same text change places, the log is the sequential one |
| LogShimOrder.OrderIsCertainExactlyWhen | logshim/logshim.go:74-116 | for every sequence of calls in lock order, all runs log the lines in order if and only if calls that can overlap find only lines of one text |
| LogShimOrder.WritesAreCertainExactlyWhen | logshim/logshim.go:74-100 | for writes alone: if and only if at most one finds a line or all lines found are the same text |
| LogShimOrder.OverlapReorders | logshim/logshim.go:92-98 | two overlapping one-line writes logged the wrong way round, for any two different lines |
| LogShimOrder.InOrderExactlyInTurn | logshim/logshim.go:94-98 | if no text is found by two calls, a run logs the lines in order if and only if the calls came in turn |
| AddressPool.IncrementCounts | deploy/deploy.go:1170-1175 | carrying from the last byte adds one to the big-endian value, modulo 256^n |
| AddressPool.IncrementInPlace | deploy/deploy.go:1170-1175 | the inner loop on the array does that |
| AddressPool.WrappedIsModulo | deploy/deploy.go:1168-1178 | counting with wrap-around is the remainder |
| AddressPool.Inc | deploy/deploy.go:1168-1178 | the value grows by cnt modulo 256^n for every array and every cnt (nothing for cnt below one) |
| AddressPool.MakePool | deploy/deploy.go:1180-1196 | start and end values of the pool; the network's array is unchanged |
| AddressPool.PoolSize | deploy/deploy.go:1180-1196 | the pool starts 50 above the network and has count + 1 addresses if and only if nothing wraps around |
| DeployErrors.InvariantStep | deploy/deploy.go:316-361 | every step, with contexts ending between any two looks, keeps: the group ends only after an error was recorded or the outer context ended, and a recorded "abandoned" error means the latter |
| DeployErrors.RootCauseIsReported | deploy/deploy.go:384-407 | while the outer context is active the returned error is a component's own error or own health timeout, raised before the group was cancelled, never the "abandoned" form |
| DeployErrors.FirstToRecordIsReported | deploy/deploy.go:319-360 | exactly one goroutine records, the returned error is its own, and it is never replaced |
| DeployErrors.FirstToFailNeedNotBeReported | deploy/deploy.go:330-352 | a run in which the component that fails second is the one reported |
| DeployErrors.ReportIsCertainExactlyWhen | deploy/deploy.go:330-360 | in every run, as long as nothing is recorded, every continuation that records reports a given component if and only if all others have succeeded already |
| DeployErrors.AbandonedAfterOuterCancel | deploy/deploy.go:400-403 | after an outer cancellation the "abandoned" form can be returned |
| DeployErrors.WaitReturnsErrorExactlyOnFailure | deploy/deploy.go:355-360 | when all goroutines are through, an error is returned exactly if some component failed |
| DeployHistory.ReportSaysWhatWasSeen | deploy/deploy.go:392-407 | in every run the returned error is of a call that failed, with that call's error, and its shape is the one that the overall, own and group contexts call for, each as it was when the component looked at it |
| DeployHistory.NotHealthyIsTheOwnBudget | deploy/deploy.go:398-399 | unless the whole deployment ran out of time, not healthy means that the component's own budget ran out |
| DeployHistory.OwnMeetsItsDeadline | deploy/deploy.go:345-346 | a component's health context has met a deadline exactly if its own timer ended it or the overall deadline reached it through the group |
| DeployHistory.OverallFollowsItsTimer | deploy/deploy.go:317-318 | the overall context has exceeded its deadline exactly by its timer, and is cancelled exactly from outside |
| DeployHistory.GroupEnds | deploy/deploy.go:319-319 | the group ends exactly with the overall context, in its state, or when the recorded failure cancels it |
| DeployHistory.RecorderCancels | deploy/deploy.go:319-330 | whoever recorded has the group still to cancel exactly until it is cancelled |
| DeployHistory.ComponentsEnd | deploy/deploy.go:330-352 | a component has succeeded exactly if its health check did, and is failing or finished exactly if a call of it failed |
| DeployHistory.ErrorExactlyOnFailedCall | deploy/deploy.go:355-360 | when all goroutines are through, an error is returned exactly if some call failed |
| NodeServices.SortedKeys | topo/node/node.go:600-604 | the ports, ascending, each once |
| NodeServices.GroupPorts | topo/node/node.go:606-628 | fails exactly if a port or node port exceeds 65535, naming the least such port and which of the two it is; otherwise the ports by mapped type |
| NodeServices.NamesDiffer | topo/node/node.go:565-574 | the three types give three different Service names |
| NodeServices.Cluster.CreateAll | topo/node/node.go:639-684 | succeeds exactly if the API server takes every Service; what exists and what is recorded as created after any number of types |
| NodeServices.Cluster.Rollback | topo/node/node.go:631-637 | the created Services are gone except those that cannot be deleted |
| NodeServices.Cluster.ProxyPorts | topo/node/node.go:686-724 | a proxy for exactly the created ports that ask for external IPv6 and got a node port |
| NodeServices.Cluster.CreateAndProxy | topo/node/node.go:630-786 | creation and proxying together; restored on error |
| NodeServices.Cluster.CreateService | topo/node/node.go:594-787 | when it succeeds, what then exists and is proxied; on any error the Services before are all there, unchanged, and of the new ones at most those that cannot be deleted remain |
| NodeServices.GroupIsSorted | topo/node/node.go:604-628 | the ports of each type are ascending |
| NodeServices.EachPortOnce | topo/node/node.go:600-684 | every port is in exactly one place of exactly one Service, the one of its mapped type, whose ports ascend |
| NodeServices.EachPortAsAsked | topo/node/node.go:612-628 | field by field, each port is created with its own number, target port and name, with the node port asked for or else assigned, in the Service named and typed after the type asked for: node port, cluster IP, and load balancer for every other |
| NodeServices.CreatedExactlyHomes | topo/node/node.go:645-684 | the Services created are exactly those that some port belongs to |
| NodeServices.AcceptedExactlyWhen | topo/node/node.go:678-681 | creation goes through exactly if no port's Service exists already or is refused |
| NodeServices.ProxiedExactlyWhen | topo/node/node.go:686-724 | the proxied node ports are exactly the non-zero ones that ports asking for external IPv6 end up with |
| PodStatus.ToContainers | pods/pods.go:196-213 | the loop that converts containers (ready if reported ready or running, reason and message from the waiting state) and the sort after it; the flag is true exactly if it was and all are ready |
| PodStatus.SortByName | pods/pods.go:211-213 | the same containers, with the same multiplicities, sorted by name |
| PodStatus.ToStatus | pods/pods.go:184-234 | the pod's fields, its containers converted and sorted by name, and ready exactly if it has a container and all are ready |
| PodStatus.StatusShowsContainers | pods/pods.go:196-232 | each listed container has the name, image, readiness (ready or running), reason and message of a reported one, every reported one is listed, and there are as many |
| NameOrder.LessMeans | pods/pods.go:211-213 | the order of names: at the first difference one ends or has the smaller character |
| PodStatus.SortedIsUnique | pods/pods.go:211-213 | with distinct names any two sorted listings of the same containers are equal |
| PodStatus.OrderOfContainersIsForgotten | pods/pods.go:211-232 | pods that differ only in the order in which their containers are listed have the same status |
| PodStatus.Equal | pods/pods.go:62-84 | true exactly if the statuses differ at most in readiness and deletion timestamp |
| PodStatus.EqualContainers | pods/pods.go:72-82 | the element-wise comparison |
| PodStatus.DropRepeats | pods/pods.go:162-179 | the loop that remembers one status a pod forwards exactly the events that do not repeat the pod's previous event |
| PodStatus.ForwardedIsCurrent | pods/pods.go:164-176 | what was last forwarded of a pod equals, in the sense of Equal, its last status: no change is hidden |
| PodStatus.ForwardedNeverRepeat | pods/pods.go:164-176 | the forwarded events are a subsequence, and no pod has two consecutive Equal ones |
| PodWatcher.FirstFatal | pods/status.go:194-232 | the first container, in order, that ends the watch |
| PodWatcher.Watcher.constructor | pods/status.go:55-73 | no error, no cancellation, no pull recorded |
| PodWatcher.Watcher.Fail | pods/status.go:187-188 | an error is sent into an empty channel and comes with one cancellation |
| PodWatcher.Watcher.CheckContainers | pods/status.go:194-233 | the container loop: the first fatal container decides, the first failed pull of the pod is remembered |
| PodWatcher.Watcher.UpdatePod | pods/status.go:134-234 | one status: the new state, and whether to go on |
| PodWatcher.Watcher.Follow | pods/status.go:109-121 | over every stream at most one error is sent, with exactly as many cancellations, and nothing is handled after it |
| PodWatcher.Watcher.Cleanup | pods/status.go:92-107 | the watcher's error if there is one, else the given one |
| PodWatcher.StartsAreFirstPulls | pods/status.go:212-223 | the remembered instants are those of each pod's first failed pull |
| PodWatcher.GivesUpExactlyWhen | pods/status.go:185-233 | when and with which error the watcher gives up, from the events alone: a failed pod, a missing image, or a failing pull more than MaxPullTime after the same pod's first one |
| PodWatcher.CondemnsExactlyWhen | pods/status.go:200-220 | a container ends the watch exactly if it is not ready, its reason is ErrImagePull, and its message holds "code = NotFound" anywhere or the pod's first failed pull is more than 15 minutes ago |
| PodWatcher.FirstPullIsFirst | pods/status.go:212-223 | the first failed pull is the first event of the pod, neither deleted nor failed, with a container that is not ready for ErrImagePull |
| PodWatcher.ErrorNamesTheCulprit | pods/status.go:185-220 | the error names the failed pod, or namespace, pod, container and image of the first container that ends the watch, and says not found exactly if its message does |
| PodWatcher.RepeatOnlyTimesOut | pods/status.go:212-220 | handling a repeated status can do nothing but find a pull overdue |
| PodWatcher.RepeatsHideOnlyTimeouts | pods/pods.go:164-176 | watching the forwarded events gives the same error as watching all of them if and only if the event that ends the watch is not a repeat, and only timeouts are ever missed |
| PodWatcher.ReportedForGood | pods/status.go:109-121 | the error then stands whatever is reported later |
| PodWatcher.FilterKeepsFirstPulls | pods/pods.go:164-176 | the first failed pull of a pod is never a repeat, so the filter leaves it in place |
| PodWatcher.FilteredGivesUpExactlyWhen | pods/status.go:109-121 | over every whole stream the watcher behind the filter gives up if and only if some event that is not a repeat fails its pod or condemns a container, told from the stream alone |
| PodWatcher.FilteredReportsFirst | pods/status.go:185-233 | and then it reports the error of the first such event: the failed pod, or the first condemned container of its status, whatever comes later |
| PodWatcher.StuckPullIsNeverReported | pods/status.go:17-19 | for every stream that repeats one failing pull: watching all of it times out exactly if some report is late enough, the watcher behind the filter never does |

## Left out

- System calls and transport (`SocketHandler`, netlink subscriptions, gRPC, Kubernetes, Docker, kubectl, scrapligo): they appear as parameters, steps or an abstract map of Services.
- The retry loop of `Client.Run` and its back-off: reconnecting is a step of the protocol that may happen at any time.
- The egress loop's choice between link states and frames: the two travel on separate paths, so their relative order is not modelled.
- Handlers of the server that fail to open a Link: then no link state is propagated, which adds no step.
- Interleavings inside the iteration of one broadcast or one publication: each is one step. Other senders are kept out by a lock; receivers are not, but a receive commutes with the sends to other channels (`Demux.ReceiveCommutes`).
- LatestChannel.Channel.PublishLatest: states the uninterrupted call; the interleavings with a receiver are in `LatestChannel.ReceiverEndsOnLatest`.
- ServerCache.WireServer.GetOrCreateDemux: states the call during which nothing is cancelled; calls interleaved with cancellation are the steps `Enter`, `Look`, `OpenFails` and `Create` of the machine.
- LinkLatch.LatchNeedsCrossedDowns: a necessary condition only, over all runs with reconnects and device changes; the exact one, while a live stream is worked off, is `LinkCrossing.LatchesExactlyWhen`.
- TopologyWiring.ResolvesExactlyWhenConnectable: takes it that GetNodeLinks succeeded at every node; `TopologyOutcome.SucceedsExactlyWhen` does not.
- TopologyLoad.LoadSucceedsExactlyWhenWirable: requires that no node has the empty name, because the source takes an empty peer name to mean that there is no peer.
- DeployErrors.RootCauseIsReported: one direction only, because after the outer context has ended either form may be returned.
- Nodes listed twice, default interface names, vendor defaults and the set_pid_max script in `load`: field filling without a deep property.
- Vendors that emit several pods for a node: `TopologySpecs` allows any number of specs a node, `TopologyWiring` takes the default of one.
- Pod specs, the owner and the content of the proxy DaemonSet, the timer that triggers a flush, and the progress lines the pod watcher prints with the fields kept only for them.
- The algorithm of `sort.Slice`: an insertion sort stands for it, and only its contract, sorted and the same elements, is used.
- PodStatus.DropRepeats: watch events that are not pods are dropped before and do not appear.
- Configuration loading, command-line handling, `x/webhook`, `cmd/release`, and the small functions `topologyState`, `calculateServiceTimeout`, `isNodeReady`: plumbing, or settled by reading one body.
