# A verified model of the LAN, room and server protocols

The repository lets friends share a virtual LAN, rooms of files with chat and voice, and
game servers, without a central server. Every member keeps its own copy of the state and
changes it on signed messages that arrive in any order, late, twice, or again after a
restart. This project models the state those members keep and what each message does to
it, and proves what the protocols are for: members that have heard the same things agree,
nothing that was revoked comes back, a relay can neither loop nor forge, floods end, and
budgets hold.

`dafny verify dfyconfig.toml` checks everything (Dafny 4.11).

The model follows the source's own form. Objects whose methods update their fields are
classes with those fields (`LanSessionCore`, `FrameReader`, `LanReachTable`, `FolderMaps`,
`Guest`, `Edits`, `GuestVoice`, `Machine`); each method is proved to take the state exactly
where a function of the old state says, and the theorems are about those functions and
their runs. Loops of the source are loops here.

Modules, in reading order:

- `Numbers`, `Ids`, `Dicts`: safe integers, strings ordered by code unit, and
  insertion-ordered maps with a FIFO cap.
- `VirtualIp`, `Packet`, `Framing`: addresses and their arbitration, IPv4 headers and the
  RFC 1071 checksum, the stream framing.
- `Admission`, `AdmissionSteps`, `Convergence`, `SessionCore`, `LanPrefs`, `TokenBucket`: the
  admission state machine of a LAN session, what each message does to it, its convergence, its
  replay floors across restarts, its budgets.
- `Router`, `RelayFrame`, `Relay`, `LanSystem`, `ReachFloors`, `ReachTable`: routing, the relay
  envelope, one-hop relaying, and statements across several members, from gossip to delivery.
- `RoomFolders`, `FolderGroups`: replicated folders and how files are grouped under them.
- `RoomAuthority`, `GuestState`, `GuestRoom`, `GuestSafety`, `GuestTheorems`: who owns a
  room, and the browser guest's frame processing with what every run of it keeps.
- `GuestAuthority`, `GuestGrants`, `GuestFrames`: who may delete and revive, what is taken up
  from others, and what each kind of frame does, in terms of keys, signatures and members.
- `Gossip`, `Flood`, `ChatEdits`: flooding and whom a flood reaches, and chat edits.
- `Voice`, `VoiceRoster`, `VoiceSelf`: the voice mesh, who is on the roster over runs, and a
  client's own part.
- `GameServer`, `ServerFields`, `ServerFsm`: the server state machine, its crash budget and its
  fields one by one.
- `Supervisor`, `SupervisorRuns`: the supervisor of the process that drives it, and what its flags
  and timers say about the past.
- `Magnet`: infohash normalisation.

Signatures are a function from key, payload and signature to bool that nothing is assumed
of. The 32-bit hash behind virtual addresses is an arbitrary function into 32 bits. Clocks,
random ids and the outcome of I/O are parameters.

## Where the obvious claim fails

Each of these is proved, with the exact condition under which the claim does hold where one
exists:

- A packet for the sender's *own* address is routed to the best other claimant, one that has
  lost that address to the sender and owns none, and that member takes it
  (`Router.SelfAddressedIsMisrouted`). Among members that resolve the same claims this is the
  only way a packet goes to a member that does not own its destination
  (`Router.MisroutedIff`); between members that own their addresses everything routed
  arrives, directly and over a relay (`Router.DirectDelivery`, `Relay.RelayDelivers`).
- Per-member replay floors are capped at 512 and evicted in order of arrival; the 513th
  member lets the first one's admit, or evict, be replayed. Nothing is ever applied twice if
  and only if at most 512 members are targeted (`Convergence.ReplayFreeIff`). The watermark
  seeds, and so replay safety across restarts, do not depend on the cap.
- A grant can be applied again after a restart: no grant ever is if and only if, on every
  night but the last, nothing rotates and no other session is ever remembered
  (`LanPrefs.ReplaySafeIff`). The watermark is noted when it grows, not when the night ends,
  so a detour to another session and back loses it; and as a session is recorded only once
  it has started, so does starting one while another is still remembered
  (`LanPrefs.DetoursReplay`).
- A key that a full table drops starts from a full bucket again. The bound on what a key gets
  through holds for all runs over a set of keys if and only if they fit into the table
  (`TokenBucket.TableBoundIff`).
- A clock that goes back and forth refills a token bucket, if and only if the bucket is short
  of something its rate gives (`TokenBucket.BackwardClockRefills`).
- Replicas agree on the folders in any order of arrival if and only if upserts that tie for
  an id place the same folder, and the newest upsert of an id inherits its parent only where
  there is none to inherit (`RoomFolders.FolderOrderIrrelevantIff`). They agree on the
  tombstones if and only if no id that was ever deleted is live in the end
  (`RoomFolders.TombOrderIrrelevantIff`).
- Grouping folders that share an id shows the files under that id more than once, and a
  nested folder as the last one of its id (`FolderGroups.GroupedIsPartitionIff`).
- A file can be listed and deleted at once: a deletion that waited for its author takes
  effect on a later listing under another author's name without taking the file off the
  list (`GuestTheorems.LiveAndDeleted`). From joining on it never is if and only if no offer
  does that (`GuestTheorems.NeverLiveAndDeletedIff`).
- An edit that waits for its message can be pushed out by a newer one of somebody else's,
  which is then dropped too (`ChatEdits.AuthorsEditStandsIff`, `AuthorsEditDropped`).
- A flood does not reach everybody within its four hops: a copy that comes a long way round
  first uses up the budget of the node it reaches (`Flood.DetourStarves`). When copies with
  more of the budget left come first it reaches exactly those nodes (`Flood.FloodReaches`).
- With a full voice roster a newcomer's announcement is used up: its stamp counts, the member is
  not on the roster, and only a newer announcement can bring it in
  (`VoiceRoster.FullRosterForgets`).
- A relay never answers that an envelope would bounce back: none has one member at both ends
  (`Relay.ForwardDropTells`).
- After a device change the new microphone track of a guest that waits for a voice slot is
  enabled. The microphone is as the rules say throughout if and only if that never happens
  (`Voice.MicrophoneRightIff`). The guest has no connections then.
- A clean start gives the whole crash budget back: four restarts in 15 seconds
  (`Supervisor.ReadyRefills`). When exactly a restart is ordered: `Supervisor.SupervisedRestartIff`.
- The status of a server denies a live process between a stop that timed out, or a process
  error, and the exit; and a ready line that is read after the exit, while a restart is owed,
  leaves the server running without a process for good (`Supervisor.NeverTwoProcesses`,
  `LateReadyHaunts`, `HauntedForGood`).
- Stopping a server is final, no process coming up without a launch, if and only if the stop did
  not come while a process that had reported an error was still there: that stop is refused, and
  the later exit counts as a crash (`SupervisorRuns.StopIsFinalIff`).
- The stamp comparison on ownership chains decides nothing that the chain's length does not
  already decide (`RoomAuthority.AdvancesIff`).

## Model

| member | source | states |
|---|---|---|
| `Ids.TakeSorted` | shared/room-voice-policy.ts:5-9 | the first n of a sorted set are exactly the elements with fewer than n before them |
| `Dicts.CapFifo` | shared/lan-session-core.ts:438-444 | capping keeps exactly the most recently added keys, in place |
| `VirtualIp.DerivedVipInSubnet` | shared/lan-ip.ts:53-72 | for any hash, member and generation the derived address is a host address of the session's subnet, neither network, gateway nor broadcast |
| `VirtualIp.AddressFollowsHash` | shared/lan-ip.ts:64-72 | each generation of each member draws its address from its own hash alone, moved off the two reserved ones |
| `VirtualIp.SubnetFollowsHash` | shared/lan-ip.ts:53-62 | the subnet is the /16 of 100.64.0.0/10 the hash of the session id draws |
| `VirtualIp.OwnerTableUnique` | shared/lan-ip.ts:100-109 | the lowest-id table over a set of claims is determined by the set |
| `VirtualIp.OwnedVipIsDerived` | shared/lan-ip.ts:72-109 | whoever owns an address derived it, so it lies in the subnet |
| `VirtualIp.ResolveVipOwners` | shared/lan-ip.ts:100-109 | the loop computes that table whatever order the claims come in |
| `Packet.DerivedVipIsUnicast` | shared/lan-packet.ts:76-82 | no derivable address classifies as broadcast or multicast |
| `Packet.ParsedIff` | shared/lan-packet.ts:39-59 | which bytes parse, and what the header says of them, in the byte order of RFC 791, section 3.1 |
| `Packet.ClassIff` | shared/lan-packet.ts:76-82 | broadcast are 255.255.255.255 and the subnet's broadcast address, multicast is 224.0.0.0 to 239.255.255.255 otherwise |
| `Packet.IpChecksum` | shared/lan-packet.ts:60-68 | the two loops compute the checksum of the range, odd lengths included |
| `Packet.FoldResidue` | shared/lan-packet.ts:66-66 | the carry fold keeps the sum modulo 65535 and yields 0 only for 0 |
| `Packet.SumOfBytes` | shared/lan-packet.ts:60-68 | the summed words are big-endian, a last odd byte is the high one of its word |
| `Packet.ChecksumVerifies` | shared/lan-packet.ts:60-68 | a field value recomputes to 0 if and only if it is the checksum of the zeroed range, or its other ones-complement zero |
| `Packet.FilledChecksumVerifies` | shared/lan-packet.ts:60-68 | zero the field, fill it with the checksum, recompute: 0, on up to 128 KiB |
| `Framing.EncodeFrame` | shared/lan-frame.ts:14-20 | the buffer is the big-endian length followed by the payload, and nothing over 65535 bytes is encoded |
| `Framing.FrameReader.Push` | shared/lan-frame.ts:34-50 | delivers the maximal run of complete frames of what has arrived, and throws exactly when the next header is over the limit |
| `Framing.CutUnique` | shared/lan-frame.ts:34-50 | a byte stream has one maximal cut into frames |
| `Framing.CutResumes` | shared/lan-frame.ts:34-50 | cutting a prefix and then the rest is cutting the whole |
| `Framing.ChunkingIrrelevant` | shared/lan-frame.ts:22-50 | the delivered frames and the error depend on the bytes, not on the chunks |
| `Framing.ReassemblyExact` | shared/lan-frame.ts:14-50 | any split of the concatenated encodings delivers exactly the payloads, in order |
| `Framing.PushAll` | shared/lan-frame.ts:22-50 | both hold of every run of pushes on a reader |
| `Admission.StepKeepsInv` | shared/lan-session-core.ts:235-306 | every message keeps: nobody both admitted and evicted, floors at most 512 and above the seed and below the watermark, stored claims verified |
| `Admission.RunKeepsInv` | shared/lan-session-core.ts:212-397 | so does every run |
| `AdmissionSteps.CreatorIff` | shared/lan-session-core.ts:107-110 | whom a session id commits to: the name before its first dot |
| `AdmissionSteps.AnswerIff` | shared/lan-session-core.ts:211-308 | which messages are taken, and that a refused one leaves no trace |
| `AdmissionSteps.MembersAfter` | shared/lan-session-core.ts:235-275 | who is admitted, who is evicted and the watermark after each message |
| `AdmissionSteps.PinnedByFirst` | shared/lan-session-core.ts:211-219 | in every run the creator is pinned by the first rightful genesis, and nobody else ever |
| `AdmissionSteps.SeedIs` | shared/lan-session-core.ts:189-193 | a seed that is not positive counts as none |
| `AdmissionSteps.SurvivesIff` | shared/lan-session-core.ts:428-436 | a store over the cap drops the oldest claims of members not admitted, as many as it is over |
| `AdmissionSteps.ClaimsAfter` | shared/lan-session-core.ts:256-308 | whose claims are held after each message |
| `Convergence.PinnedByGenesis` | shared/lan-session-core.ts:211-219 | the runs below start where the genesis of the session leaves a new core |
| `Convergence.AdmissionConverges` | shared/lan-session-core.ts:235-269 | after genesis, the admitted and evicted sets are what the set of messages says, evict winning, for any order and repetition |
| `Convergence.AdmissionOrderIrrelevant` | shared/lan-session-core.ts:235-269 | two runs over the same messages agree |
| `Convergence.RoutingConverges` | shared/lan-session-core.ts:294-306 | with distinct claim stamps and at most 512 announcers, two runs of one member over the same messages end with one routing table |
| `Convergence.EvictIsTerminal` | shared/lan-session-core.ts:256-269 | once evicted, in every later state a member is not admitted and owns no address |
| `Convergence.GrantedBetween` | shared/lan-session-core.ts:184-198 | whatever a core applies is stamped above its seed and at most at its final watermark |
| `Convergence.NoReplayWithin512` | shared/lan-session-core.ts:235-269 | while at most 512 members are targeted by admits, or by evicts, none that was applied is ever applied again |
| `Convergence.FlushedFloorTakesReplay` | shared/lan-session-core.ts:438-444 | any 513 targets, admitted or evicted in turn: the first one's message is applied once more |
| `Convergence.ReplayFreeIff` | shared/lan-session-core.ts:235-269 | so among the messages that target a set of members none is ever applied twice if and only if there are at most 512 of them |
| `SessionCore.OneVipEach` | shared/lan-session-core.ts:413-422 | no member owns two addresses in a resolved table |
| `SessionCore.LanSessionCore.constructor` | shared/lan-session-core.ts:184-198 | starts in the initial state, the seed clamped |
| `SessionCore.LanSessionCore.PinGenesis` | shared/lan-session-core.ts:212-219 | pins only the host the session id commits to, once |
| `SessionCore.LanSessionCore.ApplyAdmit` | shared/lan-session-core.ts:235-250 | the new state and answer of an admit, the routing cache kept equal to the fold over admitted claims |
| `SessionCore.LanSessionCore.ApplyEvict` | shared/lan-session-core.ts:256-269 | the same for an evict, which also drops the claim |
| `SessionCore.LanSessionCore.ApplyState` | shared/lan-session-core.ts:294-306 | the same for an address claim, verified and newer than the last |
| `SessionCore.LanSessionCore.RecomputeOwners` | shared/lan-session-core.ts:413-422 | rebuilds the table and its exact inverse |
| `SessionCore.LanSessionCore.CapClaimStore` | shared/lan-session-core.ts:428-435 | capping drops claims of members that are not admitted first |
| `SessionCore.LanSessionCore.BumpGenOnCollision` | shared/lan-session-core.ts:325-335 | takes the next generation exactly when a lower admitted id holds the own address |
| `SessionCore.LanSessionCore.AllowPacket` | shared/lan-session-core.ts:349-380 | charges exactly the bucket of the class and member |
| `SessionCore.LanSessionCore.OnMemberGone` | shared/lan-session-core.ts:387-397 | a departure unadmits but does not evict, and clears the member's buckets |
| `SessionCore.LanSessionCore.MemberVip` | shared/lan-session-core.ts:313-316 | a member's address is the one that leads back to it |
| `SessionCore.LanSessionCore.View` | shared/lan-session-core.ts:400-407 | the view handed to the router is the core's state |
| `SessionCore.OutrankedIff` | shared/lan-session-core.ts:325-335 | the table shows a lower id on an address if and only if an admitted lower id claims it |
| `LanPrefs.WatermarkSurvivesIff` | shared/lan-prefs.ts:216-266 | a remembered watermark survives a change if and only if the change does not leave the session |
| `LanPrefs.NoteRecordsIff` | shared/lan-prefs.ts:236-252 | a watermark is recorded if and only if its session is the remembered one or none is |
| `LanPrefs.EntersIff` | shared/lan-prefs.ts:223-227 | which session a room remembers on entering one |
| `LanPrefs.NotesIff` | shared/lan-prefs.ts:246-252 | and on a note |
| `LanPrefs.ChoicesKept` | shared/lan-prefs.ts:216-300 | picks and apps are the last ones chosen, whatever happens to the session |
| `LanPrefs.LeavingForgets` | shared/lan-prefs.ts:223-266 | away and back resets the floor, and so does a rotation; a note after a rotation adopts the id again |
| `LanPrefs.NoReplayAcrossRestarts` | shared/lan-prefs.ts:216-252 | on nights that never rotate and never have another session remembered, no admit or evict applied on one night is applied on a later one, whatever is sent and whatever the floors flushed |
| `LanPrefs.ReplaySafeIff` | shared/lan-prefs.ts:216-266 | for any lists of preference changes, one a night and however the messages fall between them, that holds if and only if all nights but the last are of that kind |
| `LanPrefs.DetoursReplay` | electron/sharing/room-manager.ts:1566-1584 | so a detour, a rotation, and starting a session while another is remembered let a grant be applied again |
| `LanPrefs.ReusableIffPinnable` | shared/lan-prefs.ts:204-214 | a session id is reused exactly when this member can pin its genesis |
| `TokenBucket.ThroughputBound` | shared/lan-session-core.ts:359-380 | on a clock that does not go back, bytes and packets through in any stretch are at most burst plus rate times length |
| `TokenBucket.BackwardClockRefills` | shared/lan-session-core.ts:364-380 | and not without that assumption: how much any step back and forth refills, and that it does if and only if something is missing that its rate gives |
| `TokenBucket.TableIsBucket` | shared/lan-session-core.ts:359-380 | whatever goes through the shared table in between, one key's bucket and what it lets through are those of the bucket alone, as long as the keys about fit into the table |
| `TokenBucket.TableThroughputBound` | shared/lan-session-core.ts:359-380 | so the bound holds of each key in the shared table |
| `TokenBucket.TableBoundIff` | shared/lan-session-core.ts:364-380 | the bound holds of every key in all runs over a set of keys if and only if they fit into the table, or the burst is below one packet |
| `TokenBucket.OneCfgPerKey` | shared/lan-session-core.ts:349-357 | packets of one key always come with one configuration |
| `TokenBucket.KeysDisjoint` | shared/lan-session-core.ts:349-357 | no two classes or members share a bucket key |
| `TokenBucket.ClassLimits` | shared/lan-session-core.ts:349-357 | what each kind of traffic is charged to |
| `TokenBucket.OthersUntouched` | shared/lan-session-core.ts:359-380 | charging one key changes no other bucket, but drops the oldest when a new key meets a full table |
| `Router.DirectDeliveryIff` | shared/lan-router.ts:45-80 | between members that resolve the same claims what one routes to another is for an address the other claims, and taken as the sender's if and only if nobody but the other outranks the sender at its address |
| `Router.DirectDelivery` | shared/lan-router.ts:45-80 | so between members that own their addresses every routed packet arrives, at another address than the sender's |
| `Router.ReplicatedToAll` | shared/lan-router.ts:59-63 | a broadcast or multicast packet of the own address goes to exactly the other peers, each as often and in the order listed, under its kind, and is dropped only if there are none |
| `Router.UnicastToOwner` | shared/lan-router.ts:51-58 | any other goes to the one owner of its destination, if that is another |
| `Router.DropReasonIff` | shared/lan-router.ts:45-63 | each reason for a drop, from the bytes |
| `Router.AcceptInboundIff` | shared/lan-router.ts:73-80 | what is taken from a peer: packets of up to 1280 bytes from an address the table gives it |
| `Router.MisroutedIff` | shared/lan-router.ts:45-80 | the member a packet is routed to does not own its destination if and only if it is the sender's own address and the member lost it to the sender |
| `Router.SelfAddressedIsMisrouted` | shared/lan-router.ts:45-80 | two claims and a packet with which that happens, and the packet is taken |
| `RelayFrame.DecodeEncode` | shared/lan-relay.ts:125-169 | decoding an encoded envelope gives its parts back |
| `RelayFrame.EncodeDecode` | shared/lan-relay.ts:125-169 | whatever decodes is the encoding of its parts |
| `RelayFrame.EnvelopeIsNotPacket` | shared/lan-relay.ts:149-169 | no byte string is both an envelope and a parseable IPv4 packet |
| `RelayFrame.EnvelopeLayout` | shared/lan-relay.ts:125-147 | the bytes of an envelope, one by one |
| `RelayFrame.EncodeRelayFrame` | shared/lan-relay.ts:125-147 | writes the encoding into the scratch buffer if it fits, its tail untouched, else into a new one; refuses what must not be encoded |
| `Relay.CandidatesSymmetric` | shared/lan-relay.ts:359-371 | the candidates between two members are the same from either end |
| `Relay.CandidateIff` | shared/lan-relay.ts:359-371 | who may carry the traffic of a pair: an admitted, willing, fresh third member with legs to both |
| `Relay.SelectRelayIsArgmin` | shared/lan-relay.ts:381-387 | the relay chosen is the least candidate with a live leg, and one is chosen if there is any |
| `Relay.RelayDelivers` | shared/lan-relay.ts:493-614 | end to end, between members that own their addresses: a routed packet handed to the selected relay is forwarded to its target and accepted there, exactly and as the sender's |
| `Relay.RelayDeliversIff` | shared/lan-relay.ts:493-614 | for any members that resolve the same claims this happens if and only if the sender owns its address and the packet is for another |
| `Relay.ForwardsIff` | shared/lan-relay.ts:493-547 | when a relay forwards: willing, the sender is the originator, neither end is itself, both admitted, a leg to the target, the packet the originator's own and for the target or for everybody, within the budget |
| `Relay.AcceptsIff` | shared/lan-relay.ts:567-614 | when a member takes a relayed packet: addressed to it, through a bridging relay, no direct leg where that counts, the packet the originator's own and for it or for everybody, within the budget |
| `Relay.OnlyEnvelopes` | shared/lan-relay.ts:149-169 | nothing else is forwarded or taken |
| `Relay.ForwardDropTells` | shared/lan-relay.ts:493-547 | the reason for not forwarding names something that is so |
| `Relay.AcceptDropTells` | shared/lan-relay.ts:567-614 | and so does the reason for not taking |
| `Relay.ForwardedIsHonest` | shared/lan-relay.ts:493-547 | a relay forwards only the sender's own traffic, unchanged, to a third member |
| `Relay.AcceptedIsAttributed` | shared/lan-relay.ts:567-614 | what is accepted is attributed to the owner of the source address, through an allowed relay |
| `Relay.OneHop` | shared/lan-relay.ts:493-547 | what was forwarded once nobody forwards again, and the relay that forwards it does not take it |
| `LanSystem.RunHoldsOthers` | shared/lan-session-core.ts:235-306 | whatever order the same messages come in, every member ends with exactly everybody else's newest claims, of those admitted and never evicted |
| `LanSystem.ParticipantResolves` | shared/lan-session-core.ts:413-422 | so each of them meets the hypothesis of the delivery theorems, once its newest announcement names its address |
| `LanSystem.MembersAgree` | shared/lan-session-core.ts:413-422 | two members' tables agree on every address but their own |
| `LanSystem.GossipDelivers` | shared/lan-router.ts:45-80 | between members that have heard the same messages a routed packet goes to a claimant of its destination, is taken exactly when nobody but that one outranks the sender, and always between members that own their addresses |
| `LanSystem.GossipRelays` | shared/lan-relay.ts:493-614 | and over a relay it arrives if and only if the sender owns its address and the packet is for another |
| `LanSystem.EvictSevers` | shared/lan-session-core.ts:256-269 | after an evict, in every later state: no unicast to the member, nothing injected from it, and no relaying from, to or through it |
| `LanSystem.TravelIff` | shared/lan-relay.ts:493-547 | an envelope goes on from the relay to its target if and only if the relay may forward it, and what a loss leaves |
| `LanSystem.LegsKeepInv` | shared/lan-relay.ts:493-547 | in every run every envelope in flight was forwarded at most once, by its relay |
| `LanSystem.AtMostOneForwardEach` | shared/lan-relay.ts:493-547 | forwards never exceed originations |
| `ReachTable.CanonicalFixpoint` | shared/lan-protocol.ts:182-196 | a reach list is its own normal form exactly when it is short, ascending and well formed; normalising is idempotent |
| `ReachTable.CanonicalElements` | shared/lan-protocol.ts:182-196 | what survives normalisation: the eight least well-formed ids of the scanned part |
| `ReachTable.IsNormalizedReach` | shared/lan-protocol.ts:377-386 | the loop answers true exactly on fixed points of normalisation |
| `ReachTable.NormalizeReachList` | shared/lan-protocol.ts:182-196 | the loops compute the normal form |
| `ReachTable.LanReachTable.Apply` | shared/lan-relay.ts:246-258 | an advert is taken up exactly when it is newer than the member's floor and well formed; its stamp becomes the floor, and the table is the old one with it, bounded |
| `ReachTable.LanReachTable.PruneStore` | shared/lan-relay.ts:307-317 | a table over the cap loses the expired adverts and then one victim at a time, down to the cap and no further |
| `ReachTable.KeptIff` | shared/lan-relay.ts:307-317 | who stays: all while the table fits; then the fresh if they fit; else exactly the last of the queue of the fresh, which has the members not admitted first and each part in order of arrival |
| `ReachTable.TrimmedIs` | shared/lan-relay.ts:307-317 | taking out victims leaves exactly the cap, unchanged, and takes the head of the queue |
| `ReachTable.AdmittedGoLast` | shared/lan-relay.ts:307-317 | an admitted member's fresh advert goes only when only admitted members' are left |
| `ReachTable.NewcomerKeptIff` | shared/lan-relay.ts:246-258 | a new advert stays if and only if its member is admitted or fresh adverts of admitted members do not fill the table |
| `ReachFloors.AdvertOnceIff` | shared/lan-relay.ts:246-258 | among the adverts of a set of members none is ever taken up twice, across expiry and forgetting, if and only if there are no more of them than the table has floors |
| `ReachTable.LanReachTable.Prune` | shared/lan-relay.ts:279-282 | exactly the adverts that are not expired stay, in order |
| `ReachTable.LanReachTable.Get` | shared/lan-relay.ts:261-265 | an expired advert is not seen |
| `ReachTable.LanReachTable.Forget` | shared/lan-relay.ts:274-276 | forgetting a member drops its advert and keeps its floor |
| `RoomFolders.FolderMaps.MergeUpsert` | shared/room-folders.ts:32-61 | the new maps and answer of an upsert |
| `RoomFolders.FolderMaps.ApplyDelete` | shared/room-folders.ts:70-86 | the new maps and answer of a delete |
| `RoomFolders.StoredAsSent` | shared/room-folders.ts:44-61 | a folder is stored as sent, with the parent it had where none is sent, and at the root where it is its own |
| `RoomFolders.NewFolderIff` | shared/room-folders.ts:32-43 | when a folder comes in that is not there yet |
| `RoomFolders.NewTombIff` | shared/room-folders.ts:70-80 | when a tombstone does |
| `RoomFolders.CapsHold` | shared/room-folders.ts:32-86 | over every run at most 512 folders and 5000 tombstones |
| `RoomFolders.FoldersConverge` | shared/room-folders.ts:32-86 | within the size limits and where nothing is left to the order of arrival, the folders are: the highest upsert if newer than every delete, else absent |
| `RoomFolders.FolderOrderIrrelevantIff` | shared/room-folders.ts:32-86 | any order and repetition of the messages gives the same folders if and only if upserts that tie for an id place the same folder and no winner without a parent has one to inherit |
| `RoomFolders.ExplicitOrderIrrelevantIff` | shared/room-folders.ts:32-86 | where every upsert names its parent, if and only if such ties place the same folder |
| `RoomFolders.EqualStampsKeepFirst` | shared/room-folders.ts:40-42 | any two winning upserts that tie and differ break order independence |
| `RoomFolders.InheritedParentDependsOnOrder` | shared/room-folders.ts:53-58 | so does any winner that inherits, beside an older upsert with a parent |
| `RoomFolders.TombOrderIrrelevantIff` | shared/room-folders.ts:32-86 | any order gives the same tombstones if and only if no id both wins and was deleted |
| `RoomFolders.TombsMayDiffer` | shared/room-folders.ts:32-86 | every id that does makes them differ, even where the folders agree |
| `FolderGroups.GroupFilesByFolder` | shared/room-folders.ts:140-153 | one group per folder in folder order with exactly its files in file order, the rest last |
| `FolderGroups.FlatGroupsIff` | shared/room-folders.ts:140-153 | the flat grouping has one group a folder in order, and a last one if some file is in none |
| `FolderGroups.FlatShowsIff` | shared/room-folders.ts:140-153 | with each folder exactly the files that name its id, the rest those that name none or none that is live |
| `FolderGroups.ParentIsSection` | shared/room-folders.ts:172-180 | a folder nests only in a live folder that is a section itself, for any parent graph |
| `FolderGroups.SectionIff` | shared/room-folders.ts:172-180 | when a folder nests in p: p is its parent and another id, live, and p's own parent is absent, empty, p itself or not live |
| `FolderGroups.ShownAsSectionIff` | shared/room-folders.ts:189-211 | in the grouping, a folder is a section exactly when it nests nowhere |
| `FolderGroups.ShownInsideIff` | shared/room-folders.ts:189-211 | and is shown inside another, for unique ids, exactly when it nests in that one |
| `FolderGroups.GroupedShowsIff` | shared/room-folders.ts:189-211 | which files each section, each nested folder and the rest show |
| `FolderGroups.GroupFilesByHierarchy` | shared/room-folders.ts:189-211 | what the loops build for any folders, repeated ids included: of sections of one id the last has the nested folders, each shown as the last of its id |
| `FolderGroups.GroupedIsPartitionIff` | shared/room-folders.ts:172-211 | for any parent graph, dangling and cyclic included: every folder is shown once if and only if no nested one is superseded by a later one of its id, and every file once if and only if none is filed under an id that folders share |
| `FolderGroups.GroupedIsHierarchy` | shared/room-folders.ts:189-211 | for unique ids the result is the sections in order, each with its nested folders in order |
| `FolderGroups.HierarchyIsPartition` | shared/room-folders.ts:172-211 | for unique ids every folder and every file is shown exactly once |
| `FolderGroups.GroupedKeepsOrder` | shared/room-folders.ts:189-211 | for any folders: sections in folder order, nested ids in the order of the folders' ids, files in file order; for unique ids nested folders in folder order |
| `RoomAuthority.OrderedTransferPrefix` | shared/room-authority.ts:17-27 | the loop takes the greedy prefix |
| `RoomAuthority.PrefixIsLongest` | shared/room-authority.ts:17-27 | which is the longest well-ordered prefix of at most eight links |
| `RoomAuthority.WellOrderedIff` | shared/room-authority.ts:17-27 | a chain is well ordered exactly when every handover is complete, not from the future, newer than the one before and by the member that one named |
| `RoomAuthority.AdvancesIff` | shared/room-authority.ts:34-47 | a well-ordered chain advances a line if and only if it is a strictly longer continuation of it from an allowed root |
| `RoomAuthority.TakesOverIff` | shared/room-authority.ts:34-47 | which chains take over: strictly longer ones that say the same; without a held chain, those the pinned member, or else the known owner, takes part in; any where nobody is known |
| `RoomAuthority.SameRootSameLine` | shared/room-authority.ts:17-33 | where nobody signs two handovers, chains from one root agree as far as both reach |
| `RoomAuthority.SnapshotIsCanonical` | shared/room-bans.ts:6-20 | a valid ban snapshot lists its bans in the one sorted way, without the owner |
| `RoomAuthority.ValidSnapshotIff` | shared/room-bans.ts:6-20 | the valid snapshots are exactly the sorted lists within the limits, without the owner, with a revision and a proof |
| `RoomAuthority.SnapshotReplacesIff` | shared/room-bans.ts:21-28 | a snapshot replaces another of its owner only by a higher revision that misses nobody banned |
| `GuestRoom.Guest.constructor` | guest/mesh.ts:164-203 | a guest starts with nothing but its own key and the invite's owner pin |
| `GuestRoom.Guest.Verify` | guest/mesh.ts:502-512 | accepts exactly signatures by the member's own, consistently bound key, and binds it |
| `GuestRoom.Guest.AdoptChain` | guest/mesh.ts:585-597 | the new state after an offered chain, verified link by link |
| `GuestRoom.Guest.AdoptBanState` | guest/mesh.ts:599-613 | the new state and answer after an offered ban snapshot |
| `GuestRoom.Guest.AdoptFile` | guest/mesh.ts:528-560 | the new state after a listed file: stored, revived, refused, or a waiting deletion settled |
| `GuestRoom.Guest.AcceptTomb` | guest/mesh.ts:566-583 | the new state after a signed deletion: applied, kept waiting, or refused |
| `GuestRoom.Guest.MarkSeen` | guest/mesh.ts:457-465 | `seen` stays the set of `seenOrder`, at most 4096 distinct ids, the oldest dropped |
| `GuestRoom.Guest.ProcessFrame` | guest/mesh.ts:649-911 | a seen frame changes nothing; any other takes the state where the step function says, is marked and passed on exactly when it gets through the gate |
| `GuestSafety.StepLeads` | guest/mesh.ts:649-911 | every frame keeps: members and bans disjoint, the owner line contiguous, increasing, signed, pinned and at most eight links, keys their members' own, deletions newer than revivals beside them; and takes nothing back |
| `GuestSafety.AdoptedBansAreTheSnapshot` | guest/mesh.ts:599-613 | a snapshot taken up is the room's ban list exactly, under the current owner and at a new revision, and bans on oneself kick |
| `GuestAuthority.TombTakesEffectIff` | guest/mesh.ts:566-583 | a deletion of a listed file takes effect if and only if the owner or the member that listed it signed it with an accepted key, it is in time and no tombstone outdoes it; then the tombstone is set and revival and waiting deletion are gone |
| `GuestAuthority.DelTakesEffectIff` | guest/mesh.ts:682-685 | the same of a whole frame |
| `GuestAuthority.UnlistedTombIff` | guest/mesh.ts:566-583 | a deletion of an unlisted file takes effect if the owner signed it, and waits if it is anybody else's and newer than what waits |
| `GuestAuthority.WaitingIs` | guest/mesh.ts:566-583 | up to 500 deletions wait, and which goes for a new one |
| `GuestAuthority.LeavesOnlyByRight` | guest/mesh.ts:649-911 | over any frame a listed file leaves the list only if the frame carries a deletion of it signed by the owner's or the lister's own key |
| `GuestGrants.VerifiesIff` | guest/mesh.ts:502-512 | a signature counts exactly when it is by the member's own key, over just this, and the key is the known one or can be learned |
| `GuestGrants.SignedLineTakenIff` | guest/mesh.ts:585-597 | a completely signed line is taken up exactly when it takes over and ends with nobody banned; its keys are learned |
| `GuestGrants.NoBannedOwner` | guest/mesh.ts:585-597 | whatever is offered, nobody banned becomes the owner by it |
| `GuestGrants.BanListTakenIff` | guest/mesh.ts:599-613 | a ban list counts exactly when it is valid, follows on, and is signed by the owner; bans, members and the kick after it |
| `GuestFrames.HeardIff` | guest/mesh.ts:650-663 | which frames are heard: none of banned, nameless or own senders, none with another's key |
| `GuestFrames.UnheardChangesNothing` | guest/mesh.ts:650-663 | what is not heard leaves no trace |
| `GuestFrames.VoiceGate` | guest/mesh.ts:688-693 | a voice announcement that is passed on marks its sender as v2 if it is, and does nothing else there |
| `GuestFrames.PassedOnIff` | guest/mesh.ts:676-694 | which frames are passed on, kind by kind |
| `GuestFrames.PingJoins` | guest/mesh.ts:751-760 | a ping makes its sender a member while there is room |
| `GuestFrames.ByeLeaves` | guest/mesh.ts:831-835 | a goodbye takes its sender off, and nobody else |
| `GuestFrames.ProfileJoins` | guest/mesh.ts:1050-1068 | a current signed profile makes its author a member |
| `GuestFrames.TextTeachesKey` | guest/mesh.ts:768-866 | chat, edits, voice and the owner's texts teach the key of their author and change nothing else |
| `GuestFrames.LogsTeachKeys` | guest/mesh.ts:780-794 | chat logs and the edits of hellos do so message by message, without those of banned authors |
| `GuestFrames.ForkedHelloIgnored` | guest/mesh.ts:664-665 | a hello that contradicts the owner line held is ignored and not passed on |
| `GuestFrames.HelloGate` | guest/mesh.ts:664-675 | any other brings its handovers, owner and ban list, in this order, and when it is passed on |
| `GuestFrames.HandoverWithBans` | guest/mesh.ts:678-681 | when a handover with a ban list is passed on, and whom the list bans |
| `GuestFrames.HandoverExtends` | guest/mesh.ts:765-768 | a handover that is passed on extends the line held by its link |
| `GuestFrames.HandoverIff` | guest/mesh.ts:678-681 | a handover frame extends the line if it is by the known owner, or one that may be learned |
| `GuestFrames.KickIff` | guest/mesh.ts:883-891 | the guest is put out by the owner's signed order that names it, and by no other kick |
| `GuestFrames.RekeyIff` | guest/mesh.ts:893-959 | the owner's signed order bans the member it names and changes the key, or puts this guest out |
| `GuestFrames.PlainHello` | guest/mesh.ts:664-750 | a hello without handovers, bans or files: membership, key and first owner |
| `GuestFrames.HelloIsItsParts` | guest/mesh.ts:740-744 | a hello's topic, files, deletions and edits do what they would do as frames of their own, in this order |
| `GuestFrames.AddLists` | guest/mesh.ts:528-560 | a file that no deletion is known of is listed by the first offer that fits, under the member it names |
| `GuestTheorems.JoinedRunKeepsInv` | guest/mesh.ts:649-911 | so in every state of every run from joining |
| `GuestTheorems.RosterForGood` | guest/mesh.ts:599-681 | over every run bans only grow, nobody banned is a member, and a kicked guest's state is frozen |
| `GuestTheorems.BindingsForGood` | guest/mesh.ts:502-512 | a member id answers to one key for good, its own |
| `GuestTheorems.VoiceStaysV2` | guest/mesh.ts:687-692 | a member that has announced its voice state with the newer signature is never taken back to the older |
| `GuestTheorems.LineForGood` | guest/mesh.ts:585-597 | over every run the owner line only grows, through the pin |
| `GuestTheorems.AtMostEightAdoptions` | guest/mesh.ts:585-597 | at most eight frames of any run change it |
| `GuestTheorems.LinesNeverFork` | guest/mesh.ts:585-597 | where nobody signs two handovers, any two guests with lines from one root agree |
| `GuestTheorems.DeletionNeverForgotten` | guest/mesh.ts:528-583 | after a tombstone there is always a tombstone or a revival at least as new |
| `GuestTheorems.RevivalOutranksOlderDeletions` | guest/mesh.ts:566-583 | after a revival no tombstone from its time or before is ever held |
| `GuestTheorems.LiftedIff` | guest/mesh.ts:536-549 | an offer lifts a tombstone if and only if there is room and it carries a verified revival by the owner or the deleter, no older than the deletion |
| `GuestTheorems.LiftNeedsRevival` | guest/mesh.ts:528-560 | nothing else in a whole frame lifts one |
| `GuestTheorems.OffersKeepApartIff` | guest/mesh.ts:544-552 | an offer keeps listed files and tombstones apart if and only if it does not settle a waiting deletion of a listed file |
| `GuestTheorems.FramesKeepApart` | guest/mesh.ts:649-911 | a frame of any kind keeps them apart, after every offer it gets to make, if and only if none of these does that; its deletions never matter |
| `GuestTheorems.NeverLiveAndDeletedIff` | guest/mesh.ts:649-911 | over every run from joining no file is ever listed and deleted, in any state nor between two offers of a frame, if and only if no offer of the run does that |
| `GuestTheorems.LiveAndDeleted` | guest/mesh.ts:544-552 | three frames after joining a file is listed and deleted at once |
| `Gossip.SeenWindow` | guest/mesh.ts:457-465 | an id is taken up again only after at least 4096 other distinct ids were marked in between |
| `Gossip.EventDoes` | guest/mesh.ts:457-500 | to whom an originated and an arriving frame go, with which hop budget, and what is lost with a frame or a cache |
| `Gossip.ArrivalDescends` | guest/mesh.ts:467-500 | every arrival uses up potential: a copy is worth strictly more than all it can turn into, caches or not |
| `Gossip.FloodsEnd` | guest/mesh.ts:467-500 | arrivals in any run over any topology are at most a constant times originations, even when caches are lost |
| `Gossip.PassedOnAtMostOnce` | guest/mesh.ts:705-711 | while no cache overflows no node passes an id on twice |
| `Gossip.CacheIsRecentPasses` | guest/mesh.ts:457-465 | however many ids are about, a node's cache is exactly the last 4096 ids it passed on, all different, in every run over any topology |
| `Gossip.PassesOfOneIdAreApart` | guest/mesh.ts:705-711 | so two passes of an id by one node are more than 4096 passes apart, with 4096 other distinct ids in between |
| `Flood.FloodReaches` | guest/mesh.ts:484-500 | when nothing is lost and copies with more of the hop budget left arrive first, a flood over any wiring reaches exactly the nodes within four hops |
| `Flood.FloodInAnyOrder` | guest/mesh.ts:484-500 | in any order it reaches all the originator's peers and nobody beyond four hops |
| `Flood.DetourStarves` | guest/mesh.ts:484-500 | a wiring and an order in which a node two hops away is not reached |
| `Flood.ArrivalIsDelivery` | guest/mesh.ts:705-711 | an arrival of such a flood is a delivery in a net with any other frames in its caches |
| `ChatEdits.Edits.Apply` | guest/mesh.ts:938-950 | the new maps after an edit, newest by stamp and signature |
| `ChatEdits.Edits.OnEdit` | guest/mesh.ts:795-807 | an edit by another than the known author changes nothing |
| `ChatEdits.Edits.Flush` | guest/mesh.ts:952-959 | a waiting edit is applied if its author's, and gone either way |
| `ChatEdits.AuthorsEditStandsIff` | guest/mesh.ts:795-807 | the author's newest edit stands in the end if and only if it came after the message or nobody's newer edit came before it |
| `ChatEdits.LaterEditStands` | guest/mesh.ts:938-950 | of two edits by the author the later one stands in either order, at equal stamps the one with the greater signature |
| `ChatEdits.AuthorsEditDropped` | guest/mesh.ts:938-959 | any newer edit of somebody else's that waits beside the author's leaves neither |
| `ChatEdits.EditsConverge` | guest/mesh.ts:938-959 | otherwise the edits that stand do not depend on the order of arrival |
| `Voice.VoiceMeshMembers` | shared/room-voice-policy.ts:5-9 | sorting and slicing gives exactly the ids in voice with fewer than nine before them |
| `Voice.MeshSize` | shared/room-voice-policy.ts:5-9 | which are nine, or all if fewer |
| `Voice.MeshIff` | shared/room-voice-policy.ts:5-9 | who is in the mesh: those in voice with fewer than nine of them before |
| `Voice.GuestVoice.AcceptVoiceStamp` | shared/room-voice-policy.ts:12-17 | accepts exactly newer stamps within the slack and the cap, and makes them floors |
| `Voice.GuestVoice.ReconcilePeers` | guest/voice.ts:400-409 | the two loops close and open connections so that they are exactly the other mesh members |
| `Voice.GuestVoice.EnsurePeer` | guest/voice.ts:411-429 | connects to mesh members only, politely to lesser ids, taking up a waiting offer |
| `Voice.GuestVoice.OnPeerState` | guest/voice.ts:359-375 | the new state after an announcement |
| `Voice.GuestVoice.OnSignal` | guest/voice.ts:377-382 | the new state after a signal: at most eight offers wait |
| `Voice.GuestVoice.OnMemberGone` | guest/voice.ts:388-396 | the new state after a departure |
| `Voice.GuestVoice.EndJoin` | guest/voice.ts:225-256 | the new state when the microphone is granted or refused, unless the join was overtaken |
| `Voice.GuestVoice.Leave` | guest/voice.ts:258-279 | the new state after leaving |
| `Voice.StepInv` | guest/voice.ts:225-429 | every event keeps: the connections are the mesh without oneself, or none outside it; speakers are connected; no offer waits for a connection; a muted or deafened microphone is off |
| `Voice.RunInv` | guest/voice.ts:225-429 | so does every run |
| `Voice.ConvergedExists` | guest/voice.ts:359-409 | any set of members within the roster cap can be converged on |
| `Voice.MeshAgreement` | guest/voice.ts:400-429 | clients with converged rosters are connected alike, exactly when both are in the mesh, with one polite end, and hold at most eight connections |
| `VoiceRoster.RosterIsWord` | guest/voice.ts:359-396 | over every run within the cap a member is on the roster exactly when the newest announcement taken up from it says it is in voice and it has not gone since, with the flags of that one |
| `VoiceRoster.FullRosterForgets` | guest/voice.ts:359-375 | with a full roster a newcomer's announcement is used up |
| `VoiceRoster.HeardConverges` | guest/voice.ts:359-375 | a client that has heard the announcements, in any order, knows exactly who is in voice |
| `VoiceRoster.HeardMeshAgrees` | guest/voice.ts:400-429 | so any two of them are connected alike |
| `VoiceSelf.StandingIff` | guest/voice.ts:225-279 | when a client is out, joining and in |
| `VoiceSelf.OvertakenJoinIgnored` | guest/voice.ts:225-256 | a join overtaken by leaving has no effect when it ends |
| `VoiceSelf.SwitchesIff` | guest/voice.ts:281-294 | mute and deafen are as set last |
| `VoiceSelf.StampIff` | guest/voice.ts:225-300 | on which events it announces itself, with the least new stamp that is not in the past |
| `VoiceSelf.OfferWaitsIff` | guest/voice.ts:377-382 | whose offer waits, and until when |
| `VoiceSelf.SpeaksIff` | guest/voice.ts:411-429 | who is heard speaking |
| `Voice.FloorsForGood` | shared/room-voice-policy.ts:11-17 | no stamp is accepted twice, across leaving, rejoining and departures |
| `Voice.RecaptureIgnoresMesh` | guest/voice.ts:325-341 | right after a device change the microphone is as the rules say if and only if the guest is in the mesh or silenced |
| `Voice.MicrophoneRightIff` | guest/voice.ts:225-429 | from a fresh start it is so in every state of a run if and only if no device change falls into a time in voice, outside the mesh, neither muted nor deafened |
| `GameServer.RestartIff` | shared/gameserver-core.ts:554-593 | over every run on a forward clock an exit is answered with a restart if and only if nobody asked for it, no fatal line was seen, restarting is on, and fewer than three such exits since the last forgiveness lie in the window |
| `GameServer.RestartsAreBounded` | shared/gameserver-core.ts:554-605 | so any four restarts span at least the window without forgiveness in between |
| `GameServer.UnorderedReleaseReopens` | shared/gameserver-core.ts:601-605 | releasing the slot of a start that owes no restart opens it for another |
| `GameServer.PlayingIff` | shared/gameserver-core.ts:498-540 | over every run a player is listed exactly when the last heard of it is that it joined or was seen |
| `ServerFields.StatusAfter` | shared/gameserver-core.ts:440-618 | the status after each step |
| `ServerFields.SinceAfter` | shared/gameserver-core.ts:440-618 | and since when it holds |
| `ServerFields.ReadyAfter` | shared/gameserver-core.ts:479-624 | when a server is ready |
| `ServerFields.InstallAfter` | shared/gameserver-core.ts:445-476 | the percentage of an install, the nearest whole one within bounds |
| `ServerFields.ReasonAfter` | shared/gameserver-core.ts:440-618 | the reason shown for a failure |
| `ServerFields.DetailAfter` | shared/gameserver-core.ts:440-618 | and its detail |
| `ServerFields.FatalAfter` | shared/gameserver-core.ts:498-520 | until when a fatal line counts |
| `ServerFields.FatalSeenIff` | shared/gameserver-core.ts:440-618 | over every run a fatal line is held against the process if and only if there was one since the last start or clearing |
| `ServerFields.AlwaysSound` | shared/gameserver-core.ts:440-618 | over every run a crashed server says why and an install shows its percentage |
| `Supervisor.CallsDrive` | electron/gameserver/supervisor.ts:110-381 | the supervisor moves the state machine by its calls only |
| `Supervisor.SupervisedRestartIff` | electron/gameserver/supervisor.ts:321-362 | the same exact condition for every supervised run, in the supervisor's terms |
| `Supervisor.SupervisedRestartsAreBounded` | electron/gameserver/supervisor.ts:321-362 | and the same bound |
| `Supervisor.ReadyRefills` | shared/gameserver-core.ts:500-508 | a supervised run with a clean start in between and four restarts in 15 seconds |
| `Supervisor.NeverTwoProcesses` | electron/gameserver/supervisor.ts:110-381 | there is never more than one process, and exactly when the status denies it, and when it claims one where there is none and none is owed |
| `SupervisorRuns.FlagsSince` | electron/gameserver/supervisor.ts:110-381 | over every run: when there is a process, when its exit is expected, when the stop timer runs, when a restart is owed and when restarts are automatic |
| `SupervisorRuns.StopIsFinalIff` | electron/gameserver/supervisor.ts:226-262 | after a stop no process comes up without a launch, whatever follows, except after a stop of a process that has failed |
| `Supervisor.LateReadyHaunts` | electron/gameserver/supervisor.ts:195-222 | a ready line read after a crash while starting makes the status claim a process |
| `Supervisor.HauntedForGood` | electron/gameserver/supervisor.ts:110-381 | from then on no start or restart ever gives the server a process, and it is said to run |
| `ServerFsm.Machine.BeginStart` | shared/gameserver-core.ts:479-488 | the new state and answer of a start, from settled states only |
| `ServerFsm.Machine.ApplyEvent` | shared/gameserver-core.ts:498-530 | the new state after a line of output |
| `ServerFsm.Machine.CountCrash` | shared/gameserver-core.ts:576-577 | the loop keeps the crashes of the window and adds this one |
| `ServerFsm.Machine.Exited` | shared/gameserver-core.ts:554-593 | the new state and the answer after an exit |
| `ServerFsm.Machine.PrepareRestart` | shared/gameserver-core.ts:601-605 | the new state and answer, the budget kept |
| `Magnet.Base32ToHex` | shared/magnet.ts:12-29 | despite the 32-bit wrap of the accumulator: the number in forty hexadecimal digits, or nothing unless there are 32 base32 digits (or 33, the last dropped) |
| `Magnet.DecodedKeepsNumber` | shared/magnet.ts:12-29 | the output denotes the number of the input, and is its own normal form |
| `Magnet.SameStringIffSameHash` | shared/magnet.ts:32-43 | two tokens, base32 or hexadecimal, normalise equally if and only if they denote the same hash |
| `Magnet.Base32Injective` | shared/magnet.ts:12-29 | base32 spellings of one hash differ in letter case only |
| `Magnet.DigitIff` | shared/magnet.ts:13-19 | the digits are the places in the alphabet of RFC 4648, in either case, and nothing else is one |
| `Magnet.AcceptedIff` | shared/magnet.ts:12-43 | which spellings are decoded, and which are taken for an infohash |

## Left out

- Real cryptography and canonical bytes: a signature is over a structured payload, and which bytes that is, is not modelled.
- fnv1a and the strings it is fed (shared/lan-ip.ts): the hash takes its inputs as they are and may be any function into 32 bits.
- IEEE rounding in the token bucket: amounts are reals.
- WebRTC, trackers, media, timers, Electron, IPC and the user interface.
- validateGossip, decryption, ingress budgets and the proof list of authenticate (guest/mesh.ts:620-655): frames are taken as those that pass; only its last check, that a hello's or ping's key is its sender's own, is modelled.
- The wires of a guest: which peer a frame came over, greeting, destroying connections, paging of hellos and the backfill of chat. Of a hello page it is only an input whether it is accepted.
- Ids a guest marks for its own outgoing hellos while processing a frame: `Gossip.SeenWindow` covers them, as it allows any marks in between.
- Names, avatars, presence times, reactions, watch state and chat pins: they touch none of the state modelled. Chat, edits, the room's name and its topic text appear in the guest model as far as they bind keys, with their text an opaque signed body; whether a name, topic or profile is newer than the one held, and which messages of a chat log are new, is an input. Voice frames appear with the checks before they are passed on and the keys they bind; what they do to the voice state is in `Voice`.
- Byte budgets and text rules on file listings: three flags of an offer.
- Eviction of chat beyond 200 messages, and with it of edits.
- toUpperCase beyond ASCII in base32ToHex, and the search for the token in a magnet link.
- applyAssignment and wantAutoFetch (shared/room-folders.ts): a newest-wins register and a two-level lookup.
- Entries of a reach list that are not strings: they drop out like any malformed id.
- How an exit is worded (signal or code) and which reason a failed launch is given: parameters.
- Validators, clamps, sanitisers, diagnostics and small preferences.
- Gossip.PassedOnAtMostOnce: assumes that at most 4096 ids are about; what holds without that is `Gossip.PassesOfOneIdAreApart`.
- TokenBucket.TableThroughputBound: assumes that the keys about fit into the table; that this is needed is `TokenBucket.TableBoundIff`.
- RoomFolders.FolderOrderIrrelevantIff: within 512 folder ids ever put and 5000 ever deleted, as the caps refuse what comes later.
- LanPrefs.ReplaySafeIff: for a session whose watermark is still below the largest safe integer and is noted by its own core only; the copy of the watermark that a running app keeps beside the stored one is not modelled, so a night ends with the app.
- LanSystem.RunHoldsOthers: for messages without departures, claim stamps used once and at most 512 announcers, heard after the genesis.
- Supervisor.NeverTwoProcesses: the supervisor's timers, calls and callbacks are steps on values; its files, console and command line are not modelled.
