# A verified model of multiserver's translations and switches

multiserver is a Minetest reverse proxy that lets a client move between several game servers while it
believes to be on one. Every server numbers its nodes, objects and items in its own way, so almost all the
proxy does is to translate identities without changing what they mean, and to clean up when a client is
handed to another server. This project models that part in Dafny and proves what it keeps.

| file | models |
|---|---|
| `Collections.dfy`, `Wire.dfy` | sequences without repetition; big-endian integers, length-prefixed strings, the byte reader (reads past the end yield zeros); zlib as an opaque pair |
| `NodeDefs.dfy` | node definitions: the ids, the manager format, the tables, what an id means |
| `NodeMerge.dfy` | the node definition multiplexer, from any tables it may start with: sharing of ids by name, emission |
| `SecondMerge.dfy` | what is left of ids and names when the same managers are merged a second time |
| `EveryOrder.dfy`, `EveryMeaning.dfy` | the same over all orders of the servers in both merges: which managers keep their names, and with which ones the clients go on reading rightly |
| `BlockData.dfy` | in-place translation of map blocks and of single-node packets; the end-to-end theorem |
| `ActiveObjects.dfy` | the id swap in object message streams |
| `Conns.dfy` | a client connection: remove/add packets, tracking, the packet dispatch, the cleanup that a redirect sends |
| `Runs.dfy` | whole runs of a connection: server packets and redirects as steps, with the client's and the server's view |
| `Forwarding.dfy` | the forwarding goroutines, the stop flag and the connection counter as a transition system |
| `ItemDefs.dfy`, `Capabs.dfy` | the item definition merge, hand renaming, the splice of standard tool capabilities; the capabilities read from the servers' hands |
| `Media.dfy` | bunching and sending of media, and the receiver of the same packets |
| `Chat.dfy` | UTF-8 and UTF-16 as Go converts them, `narrow` and `wider` |
| `Strings.dfy`, `Privs.dfy`, `Auth.dfy` | stored privilege strings, grants and revokes; base64 verifier strings |
| `Groups.dfy` | the choice of a server from a group |
| `Formats.dfy` | packets, managers and stored strings written out byte by byte, and what the proxy makes of them |
| `Examples.dfy` | concrete inputs: a codec with the law asked of zlib, and one input for each expected property that fails |

Maps are visited in any order throughout: a loop over a Go map takes an arbitrary remaining key, and the
theorems hold for every order. Bytes, 16-bit and 32-bit numbers are bounded types and every cast of the
original that can lose bits is written out.

What the code does not do, although one might expect it, is stated exactly rather than assumed away:

- global node ids are distinct as long as there are at most 65533 names, and not beyond
  (`NodeDefs.AllocDistinctIff`);
- a second merge, which the reconnection to a server's RPC client causes, starts the counter again and
  replaces full definitions by bare ones: a name is still published if and only if one of its definitions is
  met after the one that held its full definition (`SecondMerge.StillPublishedIff`). In terms of the servers'
  managers alone: it is published whatever orders Go picks if and only if every server that defines it does so
  at least twice, and with some orders if and only if it has two definitions at all
  (`EveryOrder.AlwaysPublishedIff`, `EveryOrder.SometimesPublishedIff`). A client that gets the new manager
  goes on reading everything rightly, whatever the orders, if and only if all servers have the same names, each
  at least twice and coming up again in their first order (`EveryMeaning.NewClientsIff`); one that keeps the old
  manager does if and only if the names with two definitions lead on every server in the order in which they
  come up again (`EveryMeaning.OldClientsIff`). With one server whose names all differ nothing is left
  (`SecondMerge.OneServerLosesAll`, `Examples.MergeTwice`, `Examples.OneNodeKept`);
- a single-node packet turns air and ignore into unknown nodes, unlike a block (`BlockData.AddnodeMeaningIff`);
  over whole runs these are the only nodes of a session that a client reads wrongly (`Runs.BlocksReadRightIff`);
- the patch of the addition count in a remove/add packet misses the count field, so the packet that opens a
  later session announces one object too many (`Runs.ForwardedCountIff`), and the messages sent ahead of it
  have their ids swapped for the id of the server before (`ActiveObjects.InitPayloadIff`,
  `Examples.AttachedToAStranger`);
- the place of a client can still be given back if and only if the client was not denied during its initialisation
  (`Forwarding.PlaceReturnableIff`);
- a redirect that completes after the client's loop has left counts the client down twice
  (`Forwarding.SecondDecrementIff`);
- the tool capabilities kept of a hand are those that its server wrote if and only if the number of uses is 0 and
  the first damage group, if there is one, is the empty one (`Capabs.CapabsReadIff`, `Examples.DamageIsLost`);
- item names are distinct in every order of the servers if and only if the servers keep to the reserved hand
  names (`ItemDefs.NamesDistinctInEveryOrder`); privileges with a bar or an empty name do not survive storage
  (`Privs.PrivsRoundTripIff`); chat text that is not ASCII comes back padded (`Chat.NarrowWiderExactIffAscii`);
  a client on a lightly loaded member of a group is refused even if an emptier member follows
  (`Groups.Choose`, `Examples.EmptierMemberIgnored`), and a redirect from inside a group can unbalance it (`Groups.InsiderKeepsBalanceIff`).

## Model

| member | source | states |
|---|---|---|
| NodeDefs.AllocClosedForm | nodedef.go:143-146 | the 16-bit counter with its jump over 125..127 gives the k-th new name the id k mod 65533, plus 3 from 125 on |
| NodeDefs.AllocDistinctIff | nodedef.go:13-17 | allocated ids are never reserved, and the first n are pairwise distinct if and only if n is at most 65533 |
| NodeDefs.FindByName | nodedef.go:118-125 | the scan over all tables finds a definition of the name if and only if one exists |
| NodeDefs.NodeDefByName | nodedef.go:30-38 | finds the definition of a name in one server's table, or none exists there |
| NodeDefs.NameStands | nodedef.go:113-116 | a definition is named by the string behind its version byte, whatever follows |
| NodeDefs.ManagerRoundTrip | nodedef.go:150-168 | the reader of the merge gets out of an emitted manager exactly the emitted ids and definitions |
| NodeDefs.LengthPrefixExact | nodedef.go:168-168 | the 32-bit length prefix of the emitted manager does not overflow and is the length of what follows |
| NodeDefs.GlobalIdInjective | nodedef.go:135-146 | for up to 65533 names, ids are equal exactly for equal names and never reserved |
| NodeMerge.Multiplexer.MergeDefinition | nodedef.go:113-146 | one definition, in whatever tables: the server's id is pointed at some known id of that name if there is one, otherwise the definition is kept under the next id and counted |
| NodeMerge.Multiplexer.MergeServer | nodedef.go:102-147 | the entry loop of one server goes through exactly its definitions, in order, for any bytes |
| NodeMerge.Multiplexer.MergeNodedefs | nodedef.go:72-178 | from any tables and over any managers, the servers in any order: fails exactly when a manager does not decompress, then publishes nothing and leaves the tables where it broke off; otherwise tables, counter and published manager are those of the steps |
| NodeMerge.EmitAll | nodedef.go:155-166 | the emission writes every definition of the tables that has data exactly once, in any order |
| NodeMerge.HomeCases | nodedef.go:118-139 | a name that got a new id has its one full definition where it was met; any other has it where it was at the start, as long as that place was not written again |
| NodeMerge.FreshIff | nodedef.go:118-139 | a name gets a new id if and only if one of its definitions is met when its old place has been written, or it never had one |
| NodeMerge.EntryIds | nodedef.go:121-136 | the id a definition is translated to: the new id of its name if the name's old place was written before it, the old id otherwise |
| NodeMerge.ShareStep | nodedef.go:118-122 | pointing an id at the known one keeps tables, counter and total in step with what the names' histories say |
| NodeMerge.NewStep | nodedef.go:135-146 | so does keeping a definition under the next id |
| NodeMerge.MergeFollows | nodedef.go:109-147 | whatever sound tables a merge starts with and whatever regular definitions it meets, at the end full definitions, ids, counter and total are what the names' histories say |
| NodeMerge.EmittedNames | nodedef.go:155-166 | the emitted manager holds every name that has a full definition, once and under its id, and nothing else |
| NodeMerge.FirstMerge | nodedef.go:72-178 | at process start: names are numbered in order of first appearance, every entry of every server resolves to the number of its name, nothing else resolves, and each name is published once with bytes some server sent |
| NodeMerge.SharedIffSameName | nodedef.go:118-125 | ids of two servers translate to one id if and only if they stand for the same node name |
| NodeMerge.SharedByBytes | nodedef.go:113-166 | two definitions as servers write them get one id if and only if the names in their bytes agree, whatever the version and the rest; the name is published once, under that id |
| Formats.ShareAcrossServers | nodedef.go:72-178 | two servers define one node name under ids and bytes of their own: both ids become 0 and the published manager holds the node once, byte by byte |
| NodeMerge.LookupPreservesMeaning | nodedef.go:40-46 | what the client reads under the looked-up id is what the server meant, undefined ids and unknown servers included |
| NodeMerge.MergePreservesMeaning | nodedef.go:72-178 | the same from the servers' compressed managers to the compressed manager sent to clients |
| SecondMerge.StillPublishedIff | rpc.go:384-384 | after a second merge of the same managers a name is published if and only if one of its definitions was met after the one that held its full definition; the names left are numbered from 0 in that order |
| SecondMerge.SecondLookup | nodedef.go:118-122 | the id a server's definition is translated to after the second merge: the new one if it was met after the holder, the first merge's otherwise |
| SecondMerge.NewClientReads | media.go:406-406 | what a client with the new manager reads under it: the right name, or whatever name now stands at the old number, or unknown |
| SecondMerge.OldClientReads | media.go:406-406 | what a client with the old manager reads under it |
| SecondMerge.SecondMeaningIff | nodedef.go:118-123 | for both kinds of clients, exactly when a server's id still means what the server means |
| SecondMerge.BothReadRightlyIff | nodedef.go:118-123 | after any pair of merges one kind of client always reads a definition rightly; both do exactly when the two managers publish its name under one id |
| SecondMerge.NewReadsAllIff | nodedef.go:118-146 | the clients with the new manager read every definition rightly if and only if the second merge numbers all names as the first did |
| SecondMerge.OldReadsAllIff | nodedef.go:118-146 | the clients that keep the old manager do if and only if the names left are the first ones of the first merge, in their order |
| EveryOrder.PairExists | nodedef.go:82-178 | any two orders of the servers are those of some pair of merges, whatever the managers |
| EveryOrder.AlwaysPublishedIff | nodedef.go:82-178 | on the managers alone: a defined name is published after every pair of merges if and only if every server that defines it does so at least twice |
| EveryOrder.SometimesPublishedIff | nodedef.go:82-178 | after some pair of merges if and only if it has at least two definitions in all |
| EveryMeaning.NewClientsIff | nodedef.go:82-178 | on the managers alone: clients with the new manager read every definition rightly after every pair of merges if and only if all servers that define anything have the same names, each at least twice, coming up again in their first order |
| EveryMeaning.OldClientsIff | nodedef.go:82-178 | clients that keep the old manager do if and only if every name with two definitions is one of every server that defines anything, and these names lead on each server in the order in which they come up again there and then on any other |
| SecondMerge.SingleVanishes | nodedef.go:118-123 | a name that only one definition of only one server has is no longer published |
| SecondMerge.OneServerLosesAll | nodedef.go:118-123 | with one server whose names differ nothing is published after the second merge |
| Examples.MergeTwice | nodedef.go:72-178 | the two merges run for one server with one node, over any lawful codec: published under 0, then not at all, and its id unknown to a client that joins |
| Examples.OneNodeKept | nodedef.go:72-178 | with that server a client that keeps the first manager reads rightly after every pair of merges, and after some pair one that gets the second does not |
| Examples.IdsGoRound | nodedef.go:143-146 | the name after the last one that fits gets the id of the first |
| BlockData.TranslateNodes | blockdata.go:40-47 | in place: each of the 4096 ids is translated, reserved ones kept, and no other byte changes |
| BlockData.RewriteBlock | blockdata.go:26-69 | a block that does not inflate is dropped; otherwise header, translated nodes and trailing metadata are reassembled, a block shorter than 8192 bytes included if its buffer has room |
| BlockData.BlockReadBack | blockdata.go:15-37 | a block packet as a server writes it is taken apart into position, header, nodes and metadata |
| BlockData.ForwardedBytes | blockdata.go:26-69 | the forwarded packet is laid out the same way, with the translated nodes and every other part as it was |
| BlockData.BlocksKeepTheirMeaning | blockdata.go:12-70 | for every first merge and every block of any server, short ones included, the client reads at each position the name the server meant, and position, header, param bytes and metadata are unchanged |
| BlockData.RewriteAddnode | blockdata.go:72-91 | only bytes 8 and 9 of the packet change, to the looked-up id |
| BlockData.AddnodeMeaningIff | blockdata.go:80-81 | a single node keeps its meaning if and only if it is neither air nor ignore |
| Examples.PlaceAir | blockdata.go:72-91 | a packet that places air is forwarded as one that places an unknown node |
| ActiveObjects.ReplaceIDs | active_object.go:159-182 | in place: the id in attachment and infant payloads is swapped, everything else untouched |
| ActiveObjects.PayloadBytes | active_object.go:13-25 | bytes 1 and 2 are swapped for commands 8 and 11 and nothing at all is changed for any other |
| ActiveObjects.ProcessAoMsgs | active_object.go:138-157 | the loop rewrites every message of the stream, targets and payloads, and stops with fewer than four bytes left |
| ActiveObjects.MsgStreamInvolution | active_object.go:138-182 | on well-formed streams the rewriting consumes all of the stream, keeps its length, and undoes itself |
| ActiveObjects.ReadInitMsgs | active_object.go:62-81 | the messages in a player's initialisation data, for any bytes |
| ActiveObjects.InitDataReadBack | active_object.go:55-81 | from data as a server writes it the name and exactly the messages are read |
| ActiveObjects.WriteInitMsgs | active_object.go:62-91 | the packet sent ahead when the own object comes again: the same messages, addressed to the client's own id under the command word of object messages, payload ids swapped |
| ActiveObjects.InitPacketParses | active_object.go:83-91 | the client reads in that packet exactly those messages |
| ActiveObjects.InitPayloadIff | active_object.go:89-103 | the id in such a payload is translated rightly if and only if the own object had the same id on the server before, or the message names none of the three objects concerned |
| Examples.AttachedToAStranger | active_object.go:89-103 | a player who was object 5 on the last server and is 7 on this one: an attachment to the player reaches the client under the id 7 of another object |
| Conns.Conn.ProcessAdds | active_object.go:49-121 | the loop over the additions computes the own ids, the forwarded additions with the misplaced count patch, the removals it falls on when they are many, the ids to track and the packets sent ahead |
| Conns.Conn.ProcessAdd | active_object.go:51-120 | one addition: the own object is announced once, when repeated its messages are sent ahead and it is left out, any other is put under the swapped id |
| Conns.AoNameStands | active_object.go:55-58 | an object is named by the string behind the version byte of its data |
| Conns.StoreInRemoval | active_object.go:99-104 | behind a removal list of 32765 or more ids the 16-bit offset of the count patch wraps into the list: it replaces the removal count or one of the removed ids |
| Conns.LongRemovalPatch | active_object.go:99-101 | which one: the count for 32766 or 65534 removals, otherwise the id at 32767 from the end of the list, or the first of 65535 |
| Conns.Conn.TrackObjects | active_object.go:123-133 | tracked ids are set for the non-zero additions, then cleared for the removals |
| Conns.Conn.ProcessAoRmAdd | active_object.go:28-136 | removed ids, forwarded additions, packets sent ahead and the whole new state of the connection |
| Conns.ReadRmAdd | active_object.go:31-53 | the lists of a remove/add packet, for any bytes |
| Conns.RmAddRoundTrip | active_object.go:31-121 | a remove/add packet with a right count reads back as its lists |
| Conns.Conn.ProcessBlockdata | blockdata.go:15-22 | the block's position is recorded, also when the block is dropped |
| Conns.Conn.ProcessPktCommand | command.go:116-190 | by the two bytes of the command word, 0x20, 0x21, 0x31, 0x32, 0x49 or 0x4A: what is forwarded under the same word, dropped, sent ahead and recorded, and that nothing else changes |
| Formats.ForwardMessages | command.go:130-132 | a packet with two object messages, one of them for an infant, byte by byte |
| Formats.ForwardRmAdd | command.go:127-129 | a remove/add packet byte by byte: of the two own ids only the one of the client is replaced, in removals and in additions |
| Formats.ForwardHud | command.go:183-186 | the element recorded is the number in the four bytes behind the command word |
| Conns.Conn.Redirect | redirect.go:111-231 | everything tracked is removed at the client by one packet for objects, one per block, one per HUD element; the tracking is cleared and the server switched |
| Conns.CleanupReads | redirect.go:111-231 | a reader finds in the bytes of the cleanup packets, under the right command words, exactly the objects, the block and the element |
| Formats.IgnoredBlockBytes | redirect.go:138-163 | the made-up block packet byte by byte |
| Conns.FillIgnore | redirect.go:144-149 | the buffer of 16384 bytes holds 4096 times ContentIgnore and zero param bytes |
| Runs.CountFieldIff | active_object.go:49-121 | the scan writes one addition per input exactly when no own object is repeated |
| Runs.ForwardedCountIff | active_object.go:99-104 | the announced count of a forwarded packet is right, except that it is one too many in a packet that opens a later session of the connection |
| Runs.SentAhead | active_object.go:60-97 | one packet of messages is sent ahead exactly of the packet that opens a later session, with payloads swapped for the id that the own object had on the server before |
| Runs.RepeatPatchesFirst | active_object.go:99-101 | when the own object comes again behind other additions, the patch replaces the id of the first of them by the count less one |
| Runs.TrackedAfter | active_object.go:122-134 | the tracked ids after a packet and their marks: none forgotten, removals prevail over additions of the same packet |
| Runs.RmAddKeepsInv | active_object.go:28-136 | a remove/add packet keeps the simulation and the coverage of the tracked ids |
| Runs.RunsSimulate | active_object.go:28-157 | after every run of packets and redirects the client's objects are the server's under the swap of the two own ids, and the tracking covers what the client holds |
| Runs.ClientSeesServer | active_object.go:103-112 | once a server has announced the own object, the two views agree on all objects and the client's own id denotes the player |
| Runs.OwnIdForever | active_object.go:105-109 | the client's id of its own object never changes again, through any number of redirects |
| Runs.MessagesReachTheirTargets | active_object.go:138-182 | every message reaches the image of its target, and an id in its payload the image of the object it named |
| Runs.IgnoreBlockParses | redirect.go:138-163 | the made-up block is read by the client as the same block with only ignore nodes |
| Runs.IgnoreNodesMeaning | redirect.go:144-149 | at each of the 4096 positions of that block stands ContentIgnore, and the param bytes are zero |
| Runs.CleanupLeavesNothing | redirect.go:111-231 | in every state of a run the cleanup leaves the own object alone, all blocks ignored and no HUD |
| Runs.RedirectLeavesNoResidue | redirect.go:111-231 | after any run a redirect leaves nothing of the old server, never removes the own object, and its 16-bit object count is exact |
| Runs.TakePacket | command.go:116-190 | the dispatch of a packet takes the connection where the step of the run says, and what it lets through is what the step gives to the client |
| Runs.TakeRedirect | redirect.go:111-231 | so does the redirect, whose step is always a legal one |
| Runs.BlocksReadRightIff | blockdata.go:12-91 | after every run of packets and redirects, at every position of every block got in the current session the client reads what the current server means there, except exactly where a single-node packet put air or ignore |
| Runs.NodeForwarded | blockdata.go:72-91 | the id in a forwarded single-node packet is the one that the run's step shows to the client |
| Examples.SecondSessionMiscounts | active_object.go:99-104 | a legal run of two sessions whose third packet announces one addition and carries none |
| Forwarding.ActKeepsInv | proxy.go:20-61 | every step of the loops, the network and the redirect keeps the invariant of a client |
| Forwarding.StaleForwardingIsBounded | proxy.go:20-61 | after k redirects exactly one client-side loop has a live destination, every checked packet belonged to the then current server, stale loops kept back at most k packets on either side, a loop that left has closed its server, and the current loops run as long as the client is open |
| Forwarding.PacketsAreConserved | proxy.go:20-61 | over every run, for every session and direction: the packets taken by a loop are those passed on, those kept back, at most one and only by a stopped session's loop that has left, and the one in its hands |
| Forwarding.HeldIsForwarded | proxy.go:50-58 | a packet in the hands of a loop that is not stopped is passed on, once and in its session |
| Forwarding.PacketPasses | proxy.go:20-58 | a waiting loop of the current session can take a packet at any time and then passes it on |
| Forwarding.LostServerClosesClient | proxy.go:27-61 | when the current server closes, its loop learns of it and closes the client |
| Forwarding.SwitchBegins | redirect.go:375-380 | a switch stops the last session, starts two waiting loops and changes nothing else |
| Forwarding.OpenMeansTimely | redirect.go:375-380 | as long as the client is open, the loop of the current server has not left, so a redirect is safe |
| Forwarding.SecondDecrementIff | redirect.go:375-380 | a redirect of a closed client leads to a second decrement if and only if the current loop has already left |
| Forwarding.PlayerLimitHolds | listen.go:56-70 | over every run the counter is the number of open clients, closed clients whose place is still owed, and denied clients together, and at most the limit; each client is counted down at most once and only after it closed |
| Forwarding.AcceptedIff | listen.go:56-70 | over every run a further client is accepted if and only if those clients together are fewer than the limit |
| Forwarding.PlaceReturnableIff | init.go:241-255 | a client whose place is held can still come to give it back if and only if it was not denied during initialisation |
| Forwarding.LeakedForever | init.go:241-255 | in every run of the gateway a client denied during initialisation keeps its place |
| Examples.LateRedirectCountsTwice | redirect.go:375-380 | a run in which the client closes during a redirect and is counted down twice |
| Examples.DeniedClientFillsGateway | listen.go:56-70 | a gateway for one player is full for ever after its first client was denied |
| ItemDefs.ItemRoundTrip | itemdef.go:261-273 | an item definition reads back as its parts |
| ItemDefs.RmToolCapabs | itemdef.go:202-226 | in place on the length field, the result is the definition with the 17-byte standard block |
| ItemDefs.StdCapsParses | itemdef.go:202-226 | re-parsing gives every other part unchanged, and a second application changes nothing |
| ItemDefs.RenamedParses | itemdef.go:320-323 | the renamed hand parses to the new name with every other part unchanged |
| ItemDefs.IsHandIff | itemdef.go:275-277 | a whole definition is a hand if and only if its name is empty and its capabilities are not |
| Formats.HandNameText | itemdef.go:322-326 | a hand is listed under `multiserver:hand_` and the name of its server |
| Formats.HandBytes | itemdef.go:202-273 | a hand byte by byte, as it comes and with the standard capabilities |
| ItemDefs.MergeItem | itemdef.go:255-339 | one item: a hand is renamed and listed, its capabilities kept for its server and the first hand remembered; another item is listed when its name is new |
| ItemDefs.MergeServer | itemdef.go:249-351 | the item and alias loops of one server |
| ItemDefs.Multiplexer.GoThrough | itemdef.go:236-352 | the loop over the servers, in any order, up to the first that does not decompress |
| ItemDefs.HandCapabsContents | itemdef.go:275-318 | whatever the order, a server has hand capabilities if and only if it has a hand, and they are those of its own last one |
| ItemDefs.StdCapsIsEmptyBlock | itemdef.go:212-219 | the standard block is the serialized form of capabilities without groups, and is read as that |
| Capabs.ReadCapabs | itemdef.go:276-313 | the capabilities the merge keeps of a hand, for any bytes |
| Capabs.HeadReadBack | itemdef.go:279-301 | of a well-formed block, punch interval, drop level and groups with their times are read as written |
| Capabs.CapabsReadIff | itemdef.go:276-313 | because four bytes are skipped in front of the damage groups, the capabilities kept of a block whose damage groups differ in name are those written if and only if its number of uses is 0 and its first damage group, if any, is the empty one |
| Examples.DamageIsLost | itemdef.go:303-313 | a hand that does damage to one group loses it |
| Formats.CapabBytes | itemdef.go:276-313 | the capabilities of a hand with one group byte by byte, and what is kept of them |
| Formats.DamageKept | itemdef.go:303-313 | damage to a group behind the empty one is kept |
| ItemDefs.Multiplexer.MergeItemdefs | itemdef.go:228-410 | over the servers in any order: fails exactly when a manager does not decompress; otherwise publishes the merged list and aliases; the hand capabilities are those of the servers gone through in either case |
| ItemDefs.ListedIff | itemdef.go:325-339 | the listed names are exactly the names of the candidates, hands under their own name |
| ItemDefs.MergedContents | itemdef.go:325-339 | listed are exactly the hands and, of every other name, the bytes of the first server that has it |
| ItemDefs.NamesDistinctIff | itemdef.go:325-367 | for one order of the servers: the names of the merged list are pairwise distinct if and only if no hand follows an item of its name and no bare empty-named item stands beside the common hand |
| ItemDefs.NamesDistinctInEveryOrder | itemdef.go:325-367 | in terms of the servers' managers: the names are pairwise distinct in every order of the servers if and only if no hand's name is taken by an earlier definition of its own server or by any of another, and no definition is listed under the empty name where some server has a hand |
| ItemDefs.MergedNames | itemdef.go:314-367 | in every order the listed names are those of the servers' definitions, hands under their hand names, and the empty name if some server has a hand |
| Examples.TwoHandsClash | itemdef.go:314-323 | a server with two hands lists its hand name twice |
| ItemDefs.FirstHandIsFirst | itemdef.go:315-317 | the common hand is the first one met, and there is one exactly when some server has one |
| ItemDefs.AliasMapContents | itemdef.go:342-351 | an alias keeps the first non-empty target any server gave for it |
| ItemDefs.ManagerRoundTrip | itemdef.go:369-400 | the emitted manager reads back as its definitions and aliases |
| Formats.ItemManagerBytes | itemdef.go:369-400 | a manager with one item and one alias byte by byte |
| ItemDefs.ClientGetsMergedItems | itemdef.go:228-410 | what the client parses is the merged list: the renamed hands, the first of every name, and the common hand |
| ItemDefs.ClientGetsAliases | itemdef.go:388-400 | and exactly the aliases of all servers with their first non-empty targets |
| Media.BunchingIsExact | media.go:258-268 | the bunches cut the requests into consecutive pieces; all but the last reach 5000 bytes and only with their last file |
| Media.BunchCountBound | media.go:258-268 | 5000 times the number of bunches less one is at most the bytes asked for |
| Media.MakeBunches | media.go:258-268 | the loop builds exactly the bunches of that cutting |
| Media.BunchPacket | media.go:271-278 | the packet of a bunch lists its files once each, in any order |
| Media.SendMedia | media.go:249-293 | one packet per bunch, numbered in order |
| Media.ReadRequest | media.go:250-256 | the names of a request, at most 65535 of them |
| Media.RequestRoundTrip | media.go:116-120 | a request that was written is read back |
| Media.HandleAnnounce | media.go:94-128 | for any announcement packet: which files are entered, and the request packet that is sent |
| Media.AnnounceMedia | media.go:228-239 | the packet that announces all files, each once with its digest, in any order |
| Media.AnnouncementRoundTrip | media.go:228-239 | the receiver reads in it exactly the names and digests announced |
| Formats.AskForOneFile | media.go:94-128 | an announcement byte by byte: the file is asked for by its name and entered with its digest |
| Media.RequestsAreMissing | media.go:99-108 | requested are exactly the files that are neither known nor cached, each once |
| Media.RequestsAreWanted | media.go:99-108 | asked for are exactly the sender's files neither known nor cached, each entered empty with the sender's digest |
| Media.RequestReaches | media.go:115-120 | whatever the announcement was, the server reads in the request exactly the names wanted |
| Media.HandleMedia | media.go:136-153 | the handler of a media packet, for any bytes |
| Media.PacketRoundTrip | media.go:271-278 | the receiver reads from a packet the counts and files that were written |
| Formats.PacketBytes | media.go:271-278 | a packet with one file byte by byte |
| Media.StopsAtLastIff | media.go:150-153 | with 16-bit counters the receiver stops exactly at the last of n bunches if and only if n is at most 65536 |
| Media.MediaIsDelivered | media.go:136-153 | the packets for any request stop the receiver exactly at the last one, and every requested file that was announced and still empty then holds the sender's bytes, no other file changed |
| Media.FetchGetsWanted | media.go:94-153 | from the sender's files to the receiver's: in whatever order they are announced, asked for are exactly the files neither known nor cached, and after the packets that answer these have been added with the sender's digests and bytes, and no other changed |
| Chat.RunesOfUtf8 | chat.go:209-209 | decoding inverts UTF-8 encoding |
| Chat.Utf8Bits | chat.go:209-209 | a rune has six bits in every byte but the first, which tells the length |
| Chat.DecodesPrefix | chat.go:209-209 | the decoder takes the rune whose encoding stands in front, and U+FFFD for a single byte if there is none |
| Chat.DecodeUnitsOf | chat.go:203-203 | decoding inverts UTF-16 encoding |
| Chat.PairBits | chat.go:203-203 | a rune beyond the first 65536 is a pair of units, the high ten bits first |
| Chat.LoneHalf | chat.go:203-203 | a half of a pair that stands alone becomes U+FFFD |
| Formats.RuneBytes | chat.go:192-216 | two runes in both encodings |
| Chat.UnitsFit | chat.go:206-213 | a text has at most as many UTF-16 units as bytes, valid or not |
| Chat.WiderBytes | chat.go:206-216 | no write leaves the buffer; the units are followed by zeros |
| Chat.NarrowBytes | chat.go:192-204 | odd input gives nothing, otherwise the UTF-8 form of the units |
| Chat.NarrowWider | chat.go:192-216 | for every byte string the round trip replaces invalid bytes and appends one NUL for every byte beyond the units |
| Chat.NarrowWiderIffValid | chat.go:192-216 | the padded text comes back if and only if it was valid UTF-8 |
| Chat.NarrowWiderExactIffAscii | chat.go:192-216 | the very text comes back if and only if it was ASCII |
| Examples.AccentIsPadded | chat.go:192-216 | an accented letter does not come back as it was |
| Privs.EncodePrivs | privs.go:12-34 | the true names, each once, joined by bars, in any order |
| Privs.DecodePrivs | privs.go:36-48 | the non-empty pieces |
| Privs.PrivsRoundTripIff | privs.go:12-48 | storing and reading gives the same privileges if and only if all names are non-empty and without a bar |
| Formats.PrivBytes | privs.go:12-34 | two privileges are stored with a bar between them |
| Examples.BarSplits | privs.go:12-48 | a privilege with a bar does not come back |
| Privs.Store.Privs | privs.go:51-65 | the privileges held according to the table; none without a row |
| Privs.Store.SetPrivs | privs.go:73-90 | replaces one player's privileges and no other's |
| Privs.Store.CheckPrivs | privs.go:98-111 | true if and only if all required privileges are held |
| Privs.TargetReads | igutils.go:336-363 | a grant or revoke written as its usage says reaches the player and the privileges meant, the caller if no player is named |
| Privs.Store.Grant | igutils.go:335-371 | from the command's parameter to the stored row: what a grant does to the table, and that the console must name a player |
| Privs.Store.Revoke | igutils.go:378-414 | the same for a revoke |
| Privs.PrivilegeRuns | igutils.go:330-414 | over every run of commands on the stored table a player holds a privilege exactly when the last command touching it granted it, or none did and it was held before |
| Auth.Base64RoundTrip | auth.go:22-24 | decoding inverts encoding for all byte strings |
| Auth.Alphabet | auth.go:22-24 | the alphabet by its character codes; no other character has a value |
| Formats.Base64Letters | auth.go:22-24 | two encoded strings |
| Auth.VerifierRoundTrip | auth.go:22-41 | salt and verifier are read back as stored, for all byte strings |
| Groups.ConnsServer | conn.go:196-204 | the clients on a server, each once |
| Groups.Choose | redirect.go:56-67 | the first least loaded member is chosen, unless the client's own server is a running minimum: then the redirect is refused |
| Groups.OutsiderNeverRefused | redirect.go:56-67 | a client outside the group is always given a member, if there is one |
| Groups.ArrivalsKeepBalance | redirect.go:56-67 | loads that differ by at most one keep doing so through any sequence of redirects from outside the group |
| Groups.InsiderKeepsBalanceIff | redirect.go:56-67 | a redirect inside the group moves the client off its server, and keeps the balance if and only if it leaves a fuller member |
| Examples.EmptierMemberIgnored | redirect.go:56-67 | a client alone on the first of two members is refused although the second is empty |
| Examples.InsiderUnbalances | redirect.go:56-67 | two members with one client each, and the second client is moved to the first |
| Examples.UnaryIsLawful | blockdata.go:28-37 | a codec that satisfies the law asked of zlib, so no theorem about lawful codecs is empty |
| Wire.BigEndian | readwrite.go:29-51 | every integer stands with its most significant byte first |
| Wire.TwosComplement | blockdata.go:18-20 | a signed coordinate and its 16-bit word differ by a multiple of 2^16 |
| Wire.ReadsBytes | readwrite.go:29-75 | a read gives the bytes that are there, zeros for the others, and stops the cursor at the end |
| Wire.ReadBackBytes16 | readwrite.go:65-75 | a string that fits its 16-bit length prefix reads back whole |
| Wire.ReadBackBytes32 | readwrite.go:77-87 | a string that fits its 32-bit length prefix reads back whole |
| Wire.Reader.ReadBytes16 | readwrite.go:65-70 | what a read returns and where it leaves the cursor, also past the end |

## Left out

- NodeMerge.MergePreservesMeaning: asks that no server repeats an id or leaves a name empty, and is about the first merge; the methods and their steps ask neither.
- SecondMerge.SecondMeaningIff: this and the results on second merges are about managers that have not changed between the merges, with the conditions of NodeMerge.MergePreservesMeaning and at most 65533 names; NodeMerge.MergeFollows and NodeMerge.EmittedNames say what any later merge does.
- BlockData.RewriteBlock: asks that the buffer of the inflated bytes reaches to 8192, because the original slices beyond it otherwise; what stands there is not described.
- Runs.RunsSimulate: takes packets and redirects as atomic steps and assumes that a server announces the own object first and once per session, reuses no live id and removes only announced other objects, and that a server changes single nodes only in blocks it has sent; a packet handled while a redirect is sending is not modelled.
- Runs.RedirectLeavesNoResidue: covers objects, blocks and HUD elements; looped sounds are never recorded by the original because it reads the loop byte after the end of the packet.
- Runs.TakePacket: the original never reads the position in a single-node packet, so only the id is tied to bytes.
- Conns.Conn.ProcessAoRmAdd: works on the lists of the packet; for a repeated own object it asks that the removal list does not have exactly 32765 or 65533 ids, with which the original slices from 65534 to 0 and panics; a patch behind the written bytes has no effect here, while in the original it can also hit the end of the buffer's capacity.
- Conns.Conn.Redirect: describes the successful course after the new server is initialised; a failed redirect changes nothing, and a failing send means that the client is gone.
- Forwarding.StaleForwardingIsBounded: the goroutines are transitions on values, not methods; each Recv is one step and the checks, processing and sending after it another.
- Media.SendMedia: asks that every requested file is known, because the original dereferences a nil entry otherwise; packets are taken to fit the receiver's read buffer.
- Media.FetchGetsWanted: asks that the files and their names and digests fit the 16-bit prefixes of the announcement; HandleAnnounce and RequestReaches are about any bytes.
- ItemDefs.RmToolCapabs: whether the splice reuses the buffer of the definition is not modelled; the definition is not used again.
- ItemDefs.Multiplexer.MergeItemdefs: asks that the first hand of every server is a whole definition, because the original panics on a truncated one that becomes the common hand. The JSON form of hand capabilities, which replaces every "-1" in the text, is not modelled.
- Capabs.CapabsReadIff: takes the layout from the standard block that the original writes itself, and asks that no two damage groups of a block have one name, as a server writes them from a map; floating point numbers are compared as bits.
- Auth.DecodeVerifierAndSalt: asks for a `#` in the stored string, without which the original panics.
- Sockets, the reliable UDP layer, acknowledgements, SQL, files, configuration, the console and the HTTP announcements are not part of this model; the configuration is constant and zlib is any pair with its law.
- The SRP login and the order of the initialisation handshake, the registry of online players and the RPC connections are left out: the original checks and updates them in separate steps, so nothing is claimed about them.
- The fixed packets with which a redirect resets sky, sun, moon, stars, clouds, eye offset and formspec style, the detached inventories and the hand inventory, which carries the JSON form of the capabilities, are left out.
