# Verification of the bundled TURN server

The broker carries a copy of the coturn TURN server under `broker/coturn/src`. This Dafny project models the parts
of that server whose correctness does not show in any single function, and proves what they promise. Run
`dafny verify dfyconfig.toml` in this directory.

## What is modelled

**The hash table** (`Khash`, `Primality`, `KhashPrimes`, `PackedFlags`). Open addressing by double hashing with
tombstones, over arrays that a class reassigns as the source does. The hash function is any function to 32 bits. The
number theory behind the probe sequence is proved from scratch: the bucket counts are prime, so a probe visits every
bucket; the load bound leaves an empty one, so every loop ends. The resize moves entries inside the key and value
arrays, each one kicking out the next; its proof follows the half-moved table. The load bound is written
`(77 * n + 50) / 100`: for an odd bucket count `77 * n` is odd, so this is the source's truncated `0.77 * n + 0.5`.

**The maps on it** (`UrMap`, `LmMap`, `LmMemory`, `AddrMap`, `Slots`). Each refines a finite map. For `lm_map` that is true only when
a key is put while absent; the exact condition and a counterexample are proved. `LmMemory` has its slots as memory,
with pointers that may be null.

**The allocation** (`Allocation`, `AllocationSteps`, `TurnSession`, `TurnRequests`, `TurnRuns`). The permission table, the
channel table, the port map inside each permission, and the timers, with handles (bucket and slot) for the pointers. The handlers are
methods of a class; whole runs of them refine two finite maps.

**TCP data connections, quota and Allocate** (`TcpConnections`, `TcpServer`, `TcpRuns`, `TcpIds`,
`TcpTimers`, `Quota`, `QuotaEffects`, `AllocateRequest`, `AllocateFacts`). State machines
over the handlers and callbacks that touch each, with the outcome of authentication, of the engine and of the quota
callbacks as free parameters.

**The codec** (`Bytes`, `StunMsg`, `StunAttrs`, `StunTypes`, `StunIntegrity`, `StunFingerprint`, `Crc32`, `Http`,
`Framing`, `StunAddr`, `WireFormat`). Messages are built and checked in byte buffers, with the length field in place. HMAC is any
function that gives digests of the right size, or fails.

**The reservation map and base 64** (`RtcpMap`, `RtcpRuns`, `Base64`). The two-phase sweep is modelled with other calls
coming between its phases, over a clock that wraps around at 32 bits.

Where the source does something surprising, the model does it too. A lemma says exactly when, and where the source needs
a particular input for it, another lemma gives one:

| what is not always so | exactly when | an input |
|---|---|---|
| a small map keeps its keys distinct | `LmMap.PutKeepsMapIff` | `LmMap.StaleValueReturns` |
| a bound TCP connection stays READY | `TcpRuns.ReadyIff`, `TcpRuns.ReadyForGoodIff` | `TcpRuns.EarlyBindIsUndone` |
| a connection that nobody has bound can be found by its id | `TcpIds.RunFoundIff`, `TcpIds.RunDifferIff` | `TcpIds.StolenId` |
| quota is released under the names it was acquired under | `Quota.StepBalancedIff`, `Quota.RunBalancedIff` | `Quota.RenamedUser`, `Quota.RenamedRealm` |
| no accepted request reserves a port next to a dual allocation | `AllocateRequest.MixedIff`, `AllocateRequest.MixedPossibleIff` | `AllocateRequest.OverriddenEvenPort` |
| the attributes of an accepted message lie inside it | `StunAttrs.AllInsideIff` | `StunAttrs.ValueMayOverrun` |
| ChannelData is cut at its length | `Framing.SourceFramesIff`, `Framing.SourceAlwaysFramesIff`, `Framing.ChannelFramedIff` | `Framing.SourceCutsShort`, `Framing.SourceCutsLate` |
| the padded length is exact | `Framing.PaddedExactIff` | `Framing.PaddedWraps` |
| a mapped address comes back | `StunAddr.MappingRoundTripIff` | `StunAddr.PublicComesBackPrivate` |
| no socket is closed before its deadline, or lost | `RtcpRuns.RunSafeIff`, `RtcpRuns.PutHarmlessIff` | `RtcpRuns.ReuseClosesEarly` |

Two more effects are easy to read past: CreatePermission does not refresh the channels of a permission, because the
port is zeroed first (`UpdatePermission`); and `stun_attr_add_fingerprint_str` reports success although its append may
have failed (`AddFingerprint`).

## Model

| member | source | states |
|---|---|---|
| KhashPrimes.PrimesArePrime | broker/coturn/src/server/ns_turn_khash.h:99-108 | Every bucket count of the list up to 1610612741 really is prime, proved by Pocklington-style certificates; the probe sequence depends on it. |
| Primality.NoZeroDivisors | broker/coturn/src/server/ns_turn_khash.h:150-155 | No multiple of the probe increment by fewer than a full turn of steps is divisible by a prime bucket count. |
| Khash.ProbesDistinct | broker/coturn/src/server/ns_turn_khash.h:150-155 | Double hashing over a prime count visits no bucket twice within one turn. |
| Khash.ProbesWrap | broker/coturn/src/server/ns_turn_khash.h:150-155 | After as many steps as there are buckets the probe is back where it started, so the `i == last` test stops it exactly then. |
| Khash.ProbesCover | broker/coturn/src/server/ns_turn_khash.h:150-155 | Every bucket is on the probe path of every hash value. |
| Khash.SomeEmpty | broker/coturn/src/server/ns_turn_khash.h:225-231 | With fewer occupied buckets than buckets some bucket is empty, which is what stops every probing loop. |
| Khash.TableInsert | broker/coturn/src/server/ns_turn_khash.h:253-263 | Putting an absent key into a bucket that its probe path reaches keeps every live key reachable. |
| Khash.TableRemove | broker/coturn/src/server/ns_turn_khash.h:267-272 | Turning a live bucket into a tombstone keeps every other key reachable. |
| Khash.MidTake | broker/coturn/src/server/ns_turn_khash.h:183-190 | Taking an unmoved entry out of its bucket keeps the half-moved table consistent, the entry being in hand. |
| Khash.MidPlace | broker/coturn/src/server/ns_turn_khash.h:191-210 | Putting the entry in hand into the first empty new bucket of its path, kicking out an unmoved entry that sits there, keeps the half-moved table consistent. |
| Khash.MidSomeEmpty | broker/coturn/src/server/ns_turn_khash.h:195-198 | During the move the new table always has an empty bucket for the entry in hand. |
| Khash.MidDone | broker/coturn/src/server/ns_turn_khash.h:183-215 | When no unmoved entry is left the new flags describe a complete table with the same keys. |
| Khash.Displace | broker/coturn/src/server/ns_turn_khash.h:191-214 | The kick-out chain ends, since the unmoved entries get fewer, and loses or changes no key or value. |
| Khash.Rehash | broker/coturn/src/server/ns_turn_khash.h:183-216 | The loop over all old buckets moves every live entry to a bucket its new probe path reaches; contents are unchanged. |
| Khash.Rebuild | broker/coturn/src/server/ns_turn_khash.h:159-227 | A whole in-place resize: same live pairs, no tombstones, every key reachable under the new count. |
| Khash.ChooseCount | broker/coturn/src/server/ns_turn_khash.h:165-167 | The search in the prime list gives the count behind the largest listed prime that is not above the wish. |
| Khash.NextPrimeIsLeast | broker/coturn/src/server/ns_turn_khash.h:165-167 | That count is the least listed one above the wish. |
| Khash.Search | broker/coturn/src/server/ns_turn_khash.h:145-158 | The probing loop of kh_get: it ends, and finds the bucket of a key exactly when the key is in the table. |
| Khash.InsertionPoint | broker/coturn/src/server/ns_turn_khash.h:235-252 | The probing loop of kh_put: the key's own bucket if it is there, else a free bucket that its probe path reaches, preferring a tombstone. |
| Khash.RoomFor | broker/coturn/src/server/ns_turn_khash.h:230-234 | After the resize that kh_put asks for there is always room below the load bound. |
| Khash.InsertEffect | broker/coturn/src/server/ns_turn_khash.h:253-263 | The counters and the contents after a put of a new key: one entry more, and `n_occupied <= upper_bound < n_buckets` still. |
| Khash.DelEffect | broker/coturn/src/server/ns_turn_khash.h:266-272 | The counters and the contents after a deletion: exactly that entry less, and everything else found as before. |
| Khash.UpperBoundBelow | broker/coturn/src/server/ns_turn_khash.h:118-118 | The load bound `0.77*n + 0.5` is below the bucket count. |
| Khash.HashTable.Get | broker/coturn/src/server/ns_turn_khash.h:145-158 | Finds the bucket of a key exactly when the map holds the key. |
| Khash.HashTable.Resize | broker/coturn/src/server/ns_turn_khash.h:159-227 | Any request to resize leaves the contents unchanged. |
| Khash.HashTable.MakeRoom | broker/coturn/src/server/ns_turn_khash.h:228-235 | Below the load bound nothing moves; at it, a table that is less than half full is rebuilt at its own size without tombstones, and any other grows. |
| Khash.HashTable.Put | broker/coturn/src/server/ns_turn_khash.h:228-265 | Never fails; reports whether the key is new, and changes the contents at that key only. |
| Khash.HashTable.Del | broker/coturn/src/server/ns_turn_khash.h:266-273 | Removes exactly the entry of the bucket, and ignores a bucket that is not live. |
| PackedFlags.TestsAre | broker/coturn/src/server/ns_turn_khash.h:110-112 | The three test macros on packed words mean empty, tombstone and not live. |
| PackedFlags.NewFlags | broker/coturn/src/server/ns_turn_khash.h:170-172 | Words filled with 0xaa are all-empty buckets. |
| PackedFlags.SetIsBothFalse | broker/coturn/src/server/ns_turn_khash.h:115-115 | Makes one bucket live and changes no other, in any word. |
| PackedFlags.SetIsEmptyFalse | broker/coturn/src/server/ns_turn_khash.h:114-114 | The same for a fresh bucket during a resize. |
| PackedFlags.SetIsDelTrue | broker/coturn/src/server/ns_turn_khash.h:116-116 | Turns one live bucket into a tombstone and changes no other. |
| PackedFlags.OneBucket | broker/coturn/src/server/ns_turn_khash.h:110-116 | Rewriting the two bits of a bucket in its word is updating one place of the flag sequence. |
| PackedFlags.RunSteps | broker/coturn/src/server/ns_turn_khash.h:110-116 | Over every run of the steps that the table takes on its flags, packed words decode to the flags of the table, and every test gives the answer that the table relies on. |
| UrMap.Map.Put | broker/coturn/src/server/ns_turn_maps.c:75-98 | Stores the value under the key, over an old one if need be; never fails. |
| UrMap.Map.Get | broker/coturn/src/server/ns_turn_maps.c:105-119 | Answers with the value stored under the key, or with nothing. |
| UrMap.Map.Del | broker/coturn/src/server/ns_turn_maps.c:126-143 | Removes exactly the key and hands its value to the clean-up. |
| UrMap.Map.Collect | broker/coturn/src/server/ns_turn_maps.c:204-219 | The walk over all entries with a collecting callback: distinct live keys that pass the test, all of them unless the limit is reached. |
| UrMap.Map.Size | broker/coturn/src/server/ns_turn_maps.c:181-187 | The size is the number of keys. |
| UrMap.Run | broker/coturn/src/server/ns_turn_maps.c:75-143 | For every sequence of puts, gets and deletions the hash table gives the answers of a finite map and ends up holding it. |
| UrMap.GetAnswersLastWrite | broker/coturn/src/server/ns_turn_maps.c:75-143 | Every lookup of a run answers with the latest value written under its key. |
| LmMap.PutAbsent | broker/coturn/src/server/ns_turn_maps.c:252-325 | Putting an absent non-zero key makes it found with its value and leaves every other lookup alone. |
| LmMap.PutPresent | broker/coturn/src/server/ns_turn_maps.c:252-275 | Key zero is refused; a key met in a main slot before any free one is left as it is, and the put succeeds only for the value that is there. |
| LmMap.PutKeepsMapIff | broker/coturn/src/server/ns_turn_maps.c:262-317 | A put keeps keys distinct if and only if the key is absent, or sits in a main slot ahead of every free one. |
| LmMap.StaleValueReturns | broker/coturn/src/server/ns_turn_maps.c:262-280 | A concrete run in which putting a present key twice brings a deleted value back. |
| LmMap.DelRemoves | broker/coturn/src/server/ns_turn_maps.c:377-420 | Deletion removes the key and leaves every other lookup alone. |
| LmMap.ValuesAreLookups | broker/coturn/src/server/ns_turn_maps.c:504-542 | The walk over all slots visits exactly the values that lookups give. |
| LmMemory.Map.PutEntry | broker/coturn/src/server/ns_turn_maps.c:252-325 | The loops over main slots and pointers to extra slots store what the specification says; the branch for a slot with a null pointer is in the method, and reads through that pointer exactly when such a slot comes before every free extra one. |
| LmMemory.Map.GetEntry | broker/coturn/src/server/ns_turn_maps.c:333-370 | The loops of lm_map_get find what the specification says. |
| LmMemory.Map.DelEntry | broker/coturn/src/server/ns_turn_maps.c:377-420 | The loops of lm_map_del remove what the specification says. |
| LmMemory.Run | broker/coturn/src/server/ns_turn_maps.c:252-420 | Over every run from an empty map, keys put twice included, no null pointer is stored or read, so that branch is never taken. |
| AddrMap.FindIff | broker/coturn/src/server/ns_turn_maps.c:737-764 | Lookup finds a slot exactly when it is the one slot in use for that address. |
| AddrMap.StoreValue | broker/coturn/src/server/ns_turn_maps.c:597-630 | Filling a free slot, or rewriting the slot of the same address, changes the value of that address only. |
| AddrMap.Map.Put | broker/coturn/src/server/ns_turn_maps.c:826-843 | The address map is updated at that key only; value 0 deletes, and deleting an absent key changes nothing. A key without an address family is stored and never found. |
| AddrMap.Map.Get | broker/coturn/src/server/ns_turn_maps.c:850-866 | Answers with the value last put, and finds nothing exactly when that is 0. |
| AddrMap.Map.Del | broker/coturn/src/server/ns_turn_maps.c:873-887 | Removes the key only, and reports whether it was there. |
| Allocation.FindPermIff | broker/coturn/src/server/ns_turn_allocation.c:236-267 | At most one permission per IP: the lookup finds a slot exactly when it is the live permission for that IP. |
| Allocation.FindChanIff | broker/coturn/src/server/ns_turn_allocation.c:451-498 | At most one channel per number: the lookup finds a slot exactly when it is that live channel. |
| Allocation.AddChanOk | broker/coturn/src/server/ns_turn_allocation.c:318-337 | A new channel linked into the port map of its permission keeps the two tables tied together. |
| Allocation.DelChanOk | broker/coturn/src/server/ns_turn_allocation.c:297-316 | Deleting a channel takes it out of its permission's port map and keeps everything else tied. |
| Allocation.CleanPermOk | broker/coturn/src/server/ns_turn_allocation.c:171-190 | Cleaning a permission takes exactly its channels with it. |
| AllocationSteps.GrantOk | broker/coturn/src/server/ns_turn_server.c:843-871 | Granting makes one IP permitted until the new time and changes no other permission or channel. |
| AllocationSteps.BindNewOk | broker/coturn/src/server/ns_turn_server.c:2598-2652 | A first binding keeps the invariant, timers included. |
| AllocationSteps.BindNewEffect | broker/coturn/src/server/ns_turn_server.c:2598-2652 | A first binding adds one channel, and (re)starts the permission of the peer's IP. |
| AllocationSteps.RenewOk | broker/coturn/src/server/ns_turn_server.c:873-902 | A refresh moves the expiry of the channel and its permission and nothing else. |
| AllocationSteps.DropChanOk | broker/coturn/src/server/ns_turn_server.c:802-812 | The channel timer removes one channel and leaves its permission. |
| AllocationSteps.DropPermOk | broker/coturn/src/server/ns_turn_server.c:814-839 | The permission timer removes one permission and exactly the channels bound to its IP. |
| AllocationSteps.OneToOne | broker/coturn/src/server/ns_turn_allocation.c:339-349 | Channel numbers and peer transport addresses are one-to-one, and a bound peer's IP is permitted. |
| TurnSession.BindAcceptsIff | broker/coturn/src/server/ns_turn_server.c:2525-2597 | The ChannelBind attribute loop accepts exactly the requests with one valid channel number, only good peer addresses and nothing unknown; the last peer address counts. |
| TurnSession.PermAcceptsIff | broker/coturn/src/server/ns_turn_server.c:3030-3092 | The first pass of CreatePermission accepts exactly the requests whose attributes are all good. |
| TurnSession.SendAcceptsIff | broker/coturn/src/server/ns_turn_server.c:2904-2981 | The Send attribute loop accepts exactly the indications with one DATA, no unknown attribute and a last peer address that is not zero. |
| TurnRequests.RequiredRefused | broker/coturn/src/server/ns_turn_server.c:2565-2575 | A request with an attribute below 0x8000 that is not listed is never accepted by ChannelBind, CreatePermission or Send. |
| TurnRequests.ForeignRefused | broker/coturn/src/server/ns_turn_server.c:2525-2575 | Nor is one with an attribute that belongs to another request. |
| TurnRequests.RequiredIs420 | broker/coturn/src/server/ns_turn_server.c:2568-2580 | Its error is 420 unless an earlier attribute has caused another one. |
| TurnRequests.SendRequired | broker/coturn/src/server/ns_turn_server.c:2935-2952 | A Send with one is an error, 420 if no attribute causes another. |
| TurnRequests.OptionalIgnored | broker/coturn/src/server/ns_turn_server.c:3060-3068 | An attribute from 0x8000 on may be put in or taken out anywhere: scans, and so answers, and the named IPs stay the same. |
| TurnRequests.BindFirstError | broker/coturn/src/server/ns_turn_server.c:2525-2597 | The first wrong attribute of a ChannelBind decides its error: 400 for a second or invalid number and an address without a port, 443 without a relay of the family, 420 for an attribute of another request. |
| TurnRequests.BindIncomplete | broker/coturn/src/server/ns_turn_server.c:2578-2597 | Without a number or an address it is 400. |
| TurnRequests.PermFirstError | broker/coturn/src/server/ns_turn_server.c:3030-3092 | For CreatePermission: 443, 403 for a peer that is not allowed, 420, and 400 without an address. |
| TurnRequests.SendErrors | broker/coturn/src/server/ns_turn_server.c:2902-2981 | For Send: 400 for a second DATA, for none, and for no address but the zero address. |
| TurnRequests.ZeroAddress | broker/coturn/src/client/ns_turn_ioaddr.c:50-68 | The zero address is all zeros with port zero. |
| TurnRequests.Lifetimes | broker/coturn/src/client/ns_turn_msg_defs.h:66-67 | A binding lasts 600 seconds and a permission 300, on a 32-bit clock. |
| TurnSession.Session.ChannelBind | broker/coturn/src/server/ns_turn_server.c:2510-2683 | All or nothing; succeeds exactly when the pair is already bound or both halves are free and the peer allowed, and then binds exactly that pair for 600 s and permits its IP. |
| TurnSession.Session.BindPair | broker/coturn/src/server/ns_turn_server.c:2598-2652 | The decision on a number and a peer, with its error codes. |
| TurnSession.Session.CreatePermission | broker/coturn/src/server/ns_turn_server.c:3015-3138 | All or nothing: on an error nothing changes; on success exactly the named IPs expire at `now + 300` and all others are as before. |
| TurnSession.Session.UpdatePermission | broker/coturn/src/server/ns_turn_server.c:2987-3013 | Grants the IP; since the port was zeroed no channel is refreshed. |
| TurnSession.Session.ChannelTimeout | broker/coturn/src/server/ns_turn_server.c:802-812 | Removes exactly the timed channel; permissions stay. |
| TurnSession.Session.PermissionTimeout | broker/coturn/src/server/ns_turn_server.c:814-839 | Removes exactly the permission and the channels of its IP, so no channel outlives its permission. |
| TurnSession.Session.Clear | broker/coturn/src/server/ns_turn_allocation.c:50-87 | Leaves no permission and no channel, with the extra slots freed. |
| TurnSession.Session.Send | broker/coturn/src/server/ns_turn_server.c:2884-2985 | Sends to a peer exactly when the indication names it last, has one DATA and nothing unknown, and, without server relay, the peer's IP has a live permission. |
| TurnSession.Session.ChannelData | broker/coturn/src/server/ns_turn_server.c:4027-4057 | Goes to the bound peer exactly when the channel is bound, and that peer is permitted. |
| TurnSession.Session.PeerInput | broker/coturn/src/server/ns_turn_server.c:4642-4752 | Comes back on channel n exactly when n is bound to that peer, and is dropped without a permission. |
| TurnRuns.NextSound | broker/coturn/src/server/ns_turn_server.c:2510-2683 | Each event keeps the map of channels one-to-one and inside the permitted IPs. |
| TurnRuns.RunSound | broker/coturn/src/server/ns_turn_server.c:2510-3138 | Over every run of requests, timers and clearing: channels one-to-one with peers, every bound peer permitted. |
| TurnRuns.Run | broker/coturn/src/server/ns_turn_server.c:2510-3138 | For every sequence of events, timers of permissions without an address family included, the slot tables answer as two finite maps do, so the run theorem holds of the handlers. |
| TcpConnections.AddOk | broker/coturn/src/server/ns_turn_allocation.c:562-607 | A new connection keeps the invariant: peers differ, ids lead to live connections, lists are exact. |
| TcpConnections.DropOk | broker/coturn/src/server/ns_turn_allocation.c:609-643 | Deleting any connection keeps it. |
| TcpConnections.BindOk | broker/coturn/src/server/ns_turn_server.c:2429-2451 | Binding keeps it: the connection is READY once and its id is gone. |
| TcpConnections.BoundIsUnreachable | broker/coturn/src/server/ns_turn_server.c:2403-2447 | No id leads to a connection that was ever bound. |
| TcpServer.Relay.NewId | broker/coturn/src/server/ns_turn_allocation.c:538-560 | The loop over random draws gives a non-zero unused id of this server. |
| TcpServer.Relay.Create | broker/coturn/src/server/ns_turn_allocation.c:562-607 | 446 exactly when the allocation has a connection to that peer; else one connection more, in the first hole of the list. |
| TcpServer.Relay.Delete | broker/coturn/src/server/ns_turn_allocation.c:609-643 | Exactly that connection leaves the list, and its id the map. |
| TcpServer.Relay.StartConnection | broker/coturn/src/server/ns_turn_server.c:2023-2095 | The errors of CONNECT and the new connection; a failure leaves maps and connections as they were. |
| TcpServer.Relay.PeerCompleted | broker/coturn/src/server/ns_turn_server.c:1936-2014 | A peer connection that fails is deleted; one that succeeds starts the bind timer. |
| TcpServer.Relay.AcceptFromPeer | broker/coturn/src/server/ns_turn_server.c:2097-2202 | Taken exactly when there is no connection to that peer yet, it is allowed and it has a permission; then it is PeerConnected with its socket and its bind timer, or bare if the engine refused the callback, under an id nobody had. |
| TcpServer.Relay.AcceptClientData | broker/coturn/src/server/ns_turn_server.c:2386-2506 | CONNECTION-BIND: an attempt that is not postponed uses the id up; an accepted one makes that connection READY; an unknown id changes nothing. |
| TcpServer.Relay.ClearAllocation | broker/coturn/src/server/ns_turn_allocation.c:50-70 | Deletes exactly the connections of the allocation. |
| TcpServer.Relay.FamilyInvalid | broker/coturn/src/server/ns_turn_allocation.c:116-140 | Deletes exactly its connections to peers of that family. |
| TcpServer.Run | broker/coturn/src/server/ns_turn_server.c:1936-2506 | Over every run the handlers follow the machine of tables, and: peers of an allocation differ, every id entry is a live unbound connection in its owner's list, nothing becomes READY twice. |
| TcpTimers.ReachedWaiting | broker/coturn/src/server/ns_turn_server.c:1936-2202 | Over every run from empty tables: a live connection without a client socket has its connect timer exactly while it is Connecting, its bind timer exactly while it is PeerConnected, and one of them exactly while it has a peer socket. |
| TcpTimers.Reclaimed | broker/coturn/src/server/ns_turn_server.c:1927-2030 | So a connection that nobody binds is never kept for good: one of its timers can fire and delete it. |
| TcpRuns.ReadyIff | broker/coturn/src/server/ns_turn_server.c:1936-2506 | Over every run from empty tables, a live connection that was bound is READY if and only if its peer has not answered since the bind; it keeps its client socket. |
| TcpRuns.ReadyForGoodIff | broker/coturn/src/server/ns_turn_server.c:1958-1968 | A granted bind lasts under every continuation if and only if the connect timer of the connection was not running at the bind. |
| TcpRuns.LostForGood | broker/coturn/src/server/ns_turn_server.c:1958-1968 | After an early bind and the answer no further events make the connection READY again. |
| TcpRuns.EarlyBindIsUndone | broker/coturn/src/server/ns_turn_server.c:1958-1968 | The run from empty tables: CONNECT, a bind with the new id, the answer; the connection is READY after the bind and not after the answer, and no id leads to it. |
| TcpIds.ReachedInv | broker/coturn/src/server/ns_turn_server.c:1936-2506 | The invariant of the tables over every run of the machine. |
| TcpIds.StepFoundIff | broker/coturn/src/server/ns_turn_allocation.c:609-643 | Each event keeps every connection that no bind attempt has reached in the id map if and only if it does not delete a connection whose id leads to another one that stays. |
| TcpIds.RunFoundIff | broker/coturn/src/server/ns_turn_allocation.c:562-643 | Over every run from empty tables: at each moment every live connection that no bind attempt has reached is in the id map, if and only if no event does that. |
| TcpIds.RunDifferIff | broker/coturn/src/server/ns_turn_allocation.c:538-607 | Over every run live connections carry different ids at each moment if and only if no id is drawn while a live connection still carries it; and then every connection is found until an attempt reaches it. |
| TcpIds.StolenId | broker/coturn/src/server/ns_turn_allocation.c:609-643 | The run from empty tables in which a live connection that nobody has bound loses its id to the deletion of another one, for good, whatever follows. |
| TcpIds.DrawnAgainUnharmed | broker/coturn/src/server/ns_turn_allocation.c:538-560 | The same run before its deletion: the id has been drawn again and every connection is still found. |
| Quota.IncOk | broker/coturn/src/server/ns_turn_server.c:148-171 | An acquisition keeps acquisitions less releases equal to the sessions holding quota. |
| Quota.DecOk | broker/coturn/src/server/ns_turn_server.c:173-181 | So does a release, after which the session holds none. |
| Quota.NamedIff | broker/coturn/src/server/ns_turn_server.c:3321-3376 | The check of a request changes user name or realm exactly for a CONNECTION-BIND with another realm, for another user name on an OAuth session, or for a first user name. |
| Quota.StepBalancedIff | broker/coturn/src/server/ns_turn_server.c:148-181 | Each event keeps, for every user and realm, acquisitions equal to releases and quota held, if and only if it does not rename a session that holds quota; the events that do are spelled out. |
| Quota.RunBalancedIff | broker/coturn/src/server/ns_turn_server.c:148-181 | Over every run from no sessions: the books of every user agree at each moment if and only if no event renames a session that holds quota. |
| Quota.RenamedUser | broker/coturn/src/server/ns_turn_server.c:3363-3376 | The run of handlers that shows it for a user name: an OAuth client allocates, authenticates under another name and closes; one name acquired, the other is released. |
| Quota.RenamedRealm | broker/coturn/src/server/ns_turn_server.c:3321-3341 | The same for a realm, through a CONNECTION-BIND. |
| Quota.Server.ResumeAuth | broker/coturn/src/server/ns_turn_server.c:3194-3224 | A new realm gives the quota back under the old names and asks for it again. |
| Quota.Server.CheckAuth | broker/coturn/src/server/ns_turn_server.c:3321-3376 | The rewriting of realm and user name leaves quota and callbacks alone. |
| Quota.Server.CopyAuth | broker/coturn/src/server/ns_turn_server.c:1422-1438 | Copying credentials moves the names and re-acquires. |
| Quota.Server.MobileRefresh | broker/coturn/src/server/ns_turn_server.c:1602-1700 | The whole refresh, with the check of the names in between: taking a mobile allocation over leaves the old client connection without quota. |
| Quota.Server.Shutdown | broker/coturn/src/server/ns_turn_server.c:4066-4136 | Quota is given back before anything else, so a destroyed session holds none. |
| QuotaEffects.ResumedHolds | broker/coturn/src/server/ns_turn_server.c:3194-3224 | After a successful resume under another realm that is granted the session holds quota there; exactly that grant was acquired, and the old one released if quota was held. |
| QuotaEffects.ResumeMoves | broker/coturn/src/server/ns_turn_server.c:3194-3224 | A resume under another realm, granted or not: every session and both books afterwards. |
| QuotaEffects.ResumeStays | broker/coturn/src/server/ns_turn_server.c:3194-3208 | A resume under the same realm leaves quota and books alone. |
| QuotaEffects.CopyEffect | broker/coturn/src/server/ns_turn_server.c:1422-1438 | Copied credentials: all names move over, what was held is released under the old names and acquired under the new ones exactly if granted. |
| QuotaEffects.MovedEffect | broker/coturn/src/server/ns_turn_server.c:1668-1700 | The end of a mobile refresh: the new connection gives its quota back, and the old session asks again unless it holds some. |
| QuotaEffects.MobileHolds | broker/coturn/src/server/ns_turn_server.c:1668-1700 | So the new connection holds none and the session that is taken over holds quota if the last question is granted. |
| QuotaEffects.MobileEffect | broker/coturn/src/server/ns_turn_server.c:1602-1700 | A mobile refresh as a whole, in the order of its steps. |
| QuotaEffects.AllocateEffect | broker/coturn/src/server/ns_turn_server.c:148-171 | An Allocate acquires exactly if it is granted, under the user name of the request. |
| QuotaEffects.AuthEffect | broker/coturn/src/server/ns_turn_server.c:3321-3376 | What the check of a request makes of the names, case by case, and whether it accepts them. |
| QuotaEffects.CloseEffect | broker/coturn/src/server/ns_turn_server.c:4066-4136 | Closing releases what was held under the names the session has, and destroys it unless it is mobile, valid and not forced. |
| Quota.Run | broker/coturn/src/server/ns_turn_server.c:148-181 | Over every run the handlers follow the machine of sessions; acquisitions less releases is the number of sessions holding quota, and destroyed ones hold none. |
| AllocateRequest.Step | broker/coturn/src/server/ns_turn_server.c:1003-1172 | One attribute of the loop: the error it causes is decided by what came before it. |
| AllocateRequest.HandleAllocate | broker/coturn/src/server/ns_turn_server.c:998-1244 | A relay is created for exactly the requests that are free of errors and forbidden combinations, with the values the request names; otherwise the first offending attribute decides the error. Errors of the request as a whole: 400 without a transport or for TCP with what it excludes, 420, 486 for quota and bandwidth, 440 for a dual allocation with an external address. |
| AllocateFacts.RelayFamilies | broker/coturn/src/server/ns_turn_server.c:1112-1172 | The relay is for IPv6 alone exactly if IPv6 was requested, for IPv4 alone exactly if IPv4 was, for both exactly with an additional family, and for the default exactly without any. |
| AllocateFacts.RelayTransport | broker/coturn/src/server/ns_turn_server.c:1045-1075 | Its transport is the requested one; TCP only on a server that relays it and never for a client on UDP. |
| AllocateFacts.RelayPort | broker/coturn/src/server/ns_turn_server.c:1095-1110 | The bit of the last EVEN-PORT, or -1. |
| AllocateFacts.RelayToken | broker/coturn/src/server/ns_turn_server.c:1112-1130 | The one reservation token of the request. |
| AllocateFacts.RequiredRefused | broker/coturn/src/server/ns_turn_server.c:1170-1195 | A request with an attribute below 0x8000 that is not listed is never relayed. |
| AllocateFacts.OptionalIgnored | broker/coturn/src/server/ns_turn_server.c:1170-1178 | One from 0x8000 on changes neither acceptance nor the relay. |
| AllocateFacts.OwnErrors | broker/coturn/src/server/ns_turn_server.c:1003-1093 | The error codes of the attributes that are judged by themselves. |
| AllocateFacts.TransportErrors | broker/coturn/src/server/ns_turn_server.c:1040-1075 | 400 for a wrong length, a second REQUESTED-TRANSPORT and TCP from a client on UDP; 442 for what is not known or not relayed. |
| AllocateFacts.ClashErrors | broker/coturn/src/server/ns_turn_server.c:1095-1172 | 400 for every clash of EVEN-PORT, token and families, 440 for a family that does not exist. |
| AllocateRequest.AcceptedCombinations | broker/coturn/src/server/ns_turn_server.c:1095-1246 | In any order of attributes: no non-zero token with EVEN-PORT or a family, no reserve bit with dual allocation, no token, EVEN-PORT or DONT-FRAGMENT with TCP. |
| AllocateRequest.TokenStandsAlone | broker/coturn/src/server/ns_turn_server.c:1112-1172 | No EVEN-PORT, family or second token anywhere in an accepted request with a token, and at most one family attribute. |
| AllocateRequest.EvenNotDual | broker/coturn/src/server/ns_turn_server.c:1095-1142 | The reserve bit that counts, the last one, never meets a dual allocation, so the second test behind the quota check is dead. |
| AllocateRequest.MixedIff | broker/coturn/src/server/ns_turn_server.c:1095-1172 | A request without an error has an EVEN-PORT with the bit and a dual allocation if and only if it has, in this order, one with the bit, one without it, and the dual allocation. |
| AllocateRequest.MixedPossibleIff | broker/coturn/src/server/ns_turn_server.c:1095-1244 | Some request with both is accepted if and only if the server relays UDP and has no external address configured. |
| AllocateRequest.OverriddenEvenPort | broker/coturn/src/server/ns_turn_server.c:1095-1110 | The accepted request with both, on every such server. |
| WireFormat.CommandBytes | broker/coturn/src/client/ns_turn_msg.c:359-377 | The octets of a command message: two zero bits, the length of the rest, the cookie 0x2112A442. |
| WireFormat.AttributeBytes | broker/coturn/src/client/ns_turn_msg.c:1336-1363 | The octets of an attribute: type, length, value, padding to four. |
| WireFormat.ChannelBytes | broker/coturn/src/client/ns_turn_msg.c:718-780 | The octets of a ChannelData message, with a number from 0x4000 to 0x7FFF. |
| WireFormat.ChannelAccepted | broker/coturn/src/client/ns_turn_msg.c:734-780 | What is taken for a ChannelData message, and with what number and length. |
| WireFormat.CommandCut | broker/coturn/src/client/ns_turn_msg.c:853-873 | A stream is cut at the length of a command message that has come in whole. |
| WireFormat.HttpCut | broker/coturn/src/client/ns_turn_msg.c:874-881 | Without one, where the HTTP test says. |
| WireFormat.ChannelCut | broker/coturn/src/client/ns_turn_msg.c:882-900 | Without that, at the padded length of a ChannelData message, when it has come in whole. |
| WireFormat.NoCut | broker/coturn/src/client/ns_turn_msg.c:853-905 | And otherwise nowhere. |
| WireFormat.TypeLayout | broker/coturn/src/client/ns_turn_msg.c:333-346 | The twelve method bits around the two class bits, class by class. |
| WireFormat.KnownTypes | broker/coturn/src/client/ns_turn_msg_defs.h:53-75 | The types of Binding, Allocate, Send and Data as they are on the wire. |
| WireFormat.AddressLayout | broker/coturn/src/client/ns_turn_msg_addr.c:35-107 | Every octet of an address value, in the clear and XORed with the cookie and the transaction id. |
| WireFormat.AddressVector | broker/coturn/src/client/ns_turn_msg_addr.c:35-107 | The mapped address of the sample response in section 2.2 of RFC 5769. |
| WireFormat.XoredKinds | broker/coturn/src/client/ns_turn_msg.c:1365-1433 | The three attribute kinds whose addresses are XORed. |
| WireFormat.DefaultAddress | broker/coturn/src/client/ns_turn_msg.c:1395-1433 | A zero address in an attribute stands for the default address with its own port. |
| WireFormat.XorOctet | broker/coturn/src/client/ns_turn_msg_addr.c:35-107 | Exclusive or of octets, bit by bit. |
| StunTypes.TypeRoundTrip | broker/coturn/src/client/ns_turn_msg.c:333-346 | Method and class are read back from every message type, which fits 14 bits. |
| StunMsg.InitCommand | broker/coturn/src/client/ns_turn_msg.c:554-561 | Writes exactly the header: type, length 0, cookie, transaction id. |
| StunMsg.InitIsMessage | broker/coturn/src/client/ns_turn_msg.c:359-377 | A fresh message is a valid command message without attributes. |
| StunMsg.AttrAdd | broker/coturn/src/client/ns_turn_msg.c:1336-1363 | The whole effect on the buffer: new length, new header, value in place, padding and the rest of the buffer untouched; -1 changes nothing. |
| StunMsg.AppendIsMessage | broker/coturn/src/client/ns_turn_msg.c:1336-1363 | A successful append adds exactly that attribute behind the others and the message stays valid. |
| StunMsg.AddToMessage | broker/coturn/src/client/ns_turn_msg.c:1336-1363 | On a valid message an append succeeds exactly when the padded attribute fits. |
| StunMsg.AddAll | broker/coturn/src/client/ns_turn_msg.c:1336-1363 | After any sequence of appends the message holds exactly those that fitted, in order. |
| StunAttrs.IterationReturns | broker/coturn/src/client/ns_turn_msg.c:1311-1334 | Iterating over a built message gives its types, lengths and values in order, and nothing else. |
| StunAttrs.IterationStaysInside | broker/coturn/src/client/ns_turn_msg.c:1311-1334 | Over every accepted message iteration ends, moves forward and stays on aligned headers inside it. |
| StunAttrs.OthersInside | broker/coturn/src/client/ns_turn_msg.c:1311-1334 | Iteration goes on only where an attribute ends inside the message, so no value but the last can overrun it. |
| StunAttrs.AllInsideIff | broker/coturn/src/client/ns_turn_msg.c:359-377 | An accepted message is made of whole attributes if and only if it has none or the value of the last one ends inside it. |
| StunAttrs.ValueMayOverrun | broker/coturn/src/client/ns_turn_msg.c:359-377 | A concrete accepted message whose last value reaches behind its end. |
| StunAttrs.FirstByType | broker/coturn/src/client/ns_turn_msg.c:1298-1309 | The search loop ends and finds what the specification says. |
| StunAttrs.FindIsFirst | broker/coturn/src/client/ns_turn_msg.c:1298-1309 | What is found is the first attribute of its type in iteration order; nothing is found exactly when there is none. |
| StunAttrs.FindAppended | broker/coturn/src/client/ns_turn_msg.c:1298-1363 | An attribute of a new type is found where it was appended. |
| StunAttrs.FindGrown | broker/coturn/src/client/ns_turn_msg.c:1298-1363 | An attribute that is found stays the one found when more are appended. |
| StunIntegrity.CheckIntegrity | broker/coturn/src/client/ns_turn_msg.c:1804-1871 | The verdict on MESSAGE-INTEGRITY, with the buffer the same afterwards although its length field is rewritten in between. |
| StunIntegrity.AddIntegrity | broker/coturn/src/client/ns_turn_msg.c:1723-1755 | Appends the digest of everything before it; with none before, the message then checks as intact under the same key. |
| StunIntegrity.VerdictMeans | broker/coturn/src/client/ns_turn_msg.c:1804-1871 | With the first MESSAGE-INTEGRITY at p: 1 exactly if HMAC, under the password or the first 16, 32, 48 or 64 octets of the key, gives its value for the octets before it with a length field that ends behind it; 0 exactly if it gives another one; -1 exactly if the size is wrong, the value does not fit or HMAC fails. |
| StunIntegrity.NoVerdict | broker/coturn/src/client/ns_turn_msg.c:1810-1812 | Without a MESSAGE-INTEGRITY the answer is -1. |
| StunIntegrity.ForgedVerdict | broker/coturn/src/client/ns_turn_msg.c:1866-1868 | A sealed message whose digest was changed in any octet checks as 0. |
| StunIntegrity.SealedVerdict | broker/coturn/src/client/ns_turn_msg.c:1804-1871 | A message whose last attribute is the digest of what precedes it checks as 1. |
| StunIntegrity.VerdictExtends | broker/coturn/src/client/ns_turn_msg.c:1804-1871 | Appending any further attributes does not change a verdict. |
| StunFingerprint.AddFingerprint | broker/coturn/src/client/ns_turn_msg.c:1545-1552 | Appends the CRC of the message with the fixed pattern; when it does not fit, the last four bytes are overwritten instead. |
| StunFingerprint.FullCheck | broker/coturn/src/client/ns_turn_msg.c:400-422 | Accepts exactly the command messages whose fingerprint, if there is one, matches; one may be demanded except for Binding. |
| StunFingerprint.FingerprintChecks | broker/coturn/src/client/ns_turn_msg.c:400-422 | A FINGERPRINT added last, with none before, passes the full check whatever is demanded. |
| StunFingerprint.SignAndSeal | broker/coturn/src/client/ns_turn_msg.c:1545-1871 | Signed, grown by any attributes that fit and fingerprinted: integrity and full check both accept. |
| WireFormat.CheckMeans | broker/coturn/src/client/ns_turn_msg.c:400-422 | The full check without its own terms: without a FINGERPRINT a message passes exactly if none is demanded or it is a Binding message; with one exactly if it is four octets and right. |
| WireFormat.FingerprintOctets | broker/coturn/src/client/ns_turn_msg.c:1545-1552 | The value is the CRC-32, highest octet first, with 0x5354554E. |
| WireFormat.CrcCheckValue | broker/coturn/src/client/ns_turn_msg.c:1650-1655 | The check value of CRC-32, 0xCBF43926 for the digits 1 to 9. |
| Crc32.TableIsGenerated | broker/coturn/src/client/ns_turn_msg.c:1632-1647 | Every literal of crctable is its index shifted eight times through the polynomial. |
| Crc32.MakeEntry | broker/coturn/src/client/ns_turn_msg.c:1632-1647 | The commented-out generator loop computes the table. |
| Crc32.TableStep | broker/coturn/src/client/ns_turn_msg.c:1557-1560 | One table step is eight message bits through the reflected shift register. |
| Crc32.Compute | broker/coturn/src/client/ns_turn_msg.c:1650-1655 | ns_crc32 is the bit-serial reflected CRC-32 of every byte string. |
| Framing.InitChannel | broker/coturn/src/client/ns_turn_msg.c:718-732 | Writes exactly the channel header, and gives the length with or without padding. |
| Framing.BuiltChannel | broker/coturn/src/client/ns_turn_msg.c:718-732 | The header and the caller's data make a ChannelData message. |
| Framing.ChannelRoundTrip | broker/coturn/src/client/ns_turn_msg.c:734-780 | Channel number and data of every built message come back, padded or not, and it is never a command message. |
| Framing.FrameFound | broker/coturn/src/client/ns_turn_msg.c:853-905 | A frame followed by any bytes is cut at exactly its length. |
| Framing.PrefixWaits | broker/coturn/src/client/ns_turn_msg.c:853-905 | No strict prefix of a frame is taken for a message. |
| Framing.SplitRecovers | broker/coturn/src/client/ns_turn_msg.c:853-905 | Any concatenation of frames, cut off anywhere, splits back into exactly the whole frames and the rest. |
| Framing.InlineIsTest | broker/coturn/src/client/ns_turn_msg.c:821-847 | The source's HTTP test is positive only on bytes that start like one of its four verbs, so the framing theorems hold of it. |
| Framing.ChannelFramedIff | broker/coturn/src/client/ns_turn_msg.c:874-881 | Whatever follows it and whatever the HTTP test says, a ChannelData message is cut at its length if and only if it does not start like an HTTP request. |
| Framing.SourceFramesIff | broker/coturn/src/client/ns_turn_msg.c:853-905 | With the source's own HTTP test, and any bytes behind the message, it is cut at its length if and only if the whole buffer is no request, or one of that length, or one that has not come in whole. |
| Framing.SourceAlwaysFramesIff | broker/coturn/src/client/ns_turn_msg.c:821-905 | What the sender can see: it is cut at its length whatever follows if and only if it does not start with a verb, or is itself a request of exactly its length whose Content-Length number ends inside it. |
| Framing.SourceCutsShort | broker/coturn/src/client/ns_turn_msg.c:821-881 | A ChannelData message of 21540 bytes on channel 0x4745 that the source cuts off behind 14, whatever follows. |
| Framing.SourceCutsLate | broker/coturn/src/client/ns_turn_msg.c:821-881 | One that is cut right alone, and swallows the next message when that one brings the empty line. |
| Http.LengthFixed | broker/coturn/src/client/ns_turn_msg.c:821-847 | A request whose Content-Length number ends inside has one length, whatever comes in behind it. |
| Http.LengthOpen | broker/coturn/src/client/ns_turn_msg.c:821-847 | One whose number the end of the bytes cuts off has a length that what follows decides. |
| Http.IsHttpInline | broker/coturn/src/client/ns_turn_msg.c:821-847 | The searches of is_http_inline compute the length that the specification says. |
| Http.FindStr | broker/coturn/src/client/ns_turn_msg.c:799-819 | The search loop finds the first occurrence, with or without regard to case. |
| Http.Verbs | broker/coturn/src/client/ns_turn_msg.c:823-823 | The four verbs, octet for octet. |
| Http.SampleRequest | broker/coturn/src/client/ns_turn_msg.c:821-847 | A GET request with a Content-Length of 5 has 42 octets. |
| Http.HttpIff | broker/coturn/src/client/ns_turn_msg.c:821-847 | Exactly the bytes with one of four verbs first, then a version, then an empty line, are taken for an HTTP request. |
| Framing.PaddedExactIff | broker/coturn/src/client/ns_turn_msg.c:884-895 | The 16-bit padded length is exact if and only if the data is at most 65528 bytes. |
| Framing.PaddedWraps | broker/coturn/src/client/ns_turn_msg.c:884-895 | With one byte more the padded message has length 0. |
| StunAddr.Encode | broker/coturn/src/client/ns_turn_msg_addr.c:35-107 | The stores and XOR loops write the value that the specification says, for both families. |
| StunAddr.Decode | broker/coturn/src/client/ns_turn_msg_addr.c:109-180 | Decoding is what the specification says, with its format errors. |
| StunAddr.AddressRoundTrip | broker/coturn/src/client/ns_turn_msg_addr.c:35-180 | Every IPv4 and IPv6 address comes back for every transaction id, XORed or not. |
| StunAddr.ValueRoundTrip | broker/coturn/src/client/ns_turn_msg_addr.c:109-180 | What decodes is the encoding of what it decodes to, so values and addresses are one-to-one. |
| StunAddr.Mappings.MapToPrivate | broker/coturn/src/client/ns_turn_ioaddr.c:524-535 | The loop finds the first mapping of the public address. |
| StunAddr.Mappings.MapToPublic | broker/coturn/src/client/ns_turn_ioaddr.c:537-548 | The loop finds the first mapping of the private address. |
| StunAddr.MappingRoundTripIff | broker/coturn/src/client/ns_turn_ioaddr.c:511-548 | With distinct public addresses, going out and coming back is the identity if and only if the address is private or not a mapped public one. |
| StunAddr.FirstMapping | broker/coturn/src/client/ns_turn_ioaddr.c:524-548 | The first mapping of an address counts, and the port is kept. |
| StunAddr.PublicComesBackPrivate | broker/coturn/src/client/ns_turn_ioaddr.c:511-548 | A mapped public address goes out as it is and comes back as the private one. |
| StunAddr.AddAddress | broker/coturn/src/client/ns_turn_msg.c:1365-1393 | Appends the encoding of the public address under the message's own transaction id. |
| StunAddr.AddressAttributeRoundTrip | broker/coturn/src/client/ns_turn_msg.c:1395-1433 | An address attribute of a message gives the address back exactly when the mapping does. |
| RtcpMap.ExpiredIff | broker/coturn/src/server/ns_turn_maps_rtcp.c:70-86 | The signed 32-bit comparison is right for every age up to 300 + 2^31 seconds, wherever the clock wraps. |
| RtcpMap.Reservations.Get | broker/coturn/src/server/ns_turn_maps_rtcp.c:217-233 | The socket leaves the map with the first lookup. |
| RtcpMap.Reservations.Expired | broker/coturn/src/server/ns_turn_maps_rtcp.c:136-150 | The first phase collects at most 1024 distinct expired tokens, all of them if there are fewer. |
| RtcpMap.Reservations.Sweep | broker/coturn/src/server/ns_turn_maps_rtcp.c:136-161 | An undisturbed sweep deletes and closes exactly what it collected. |
| RtcpMap.Reservations.Drain | broker/coturn/src/server/ns_turn_maps_rtcp.c:136-161 | Repeated sweeps of at most 1024 deletions remove exactly all expired entries. |
| RtcpRuns.RunAccounts | broker/coturn/src/server/ns_turn_maps_rtcp.c:70-233 | Over every run, tokens reused or not, each reservation is in exactly one place: in the map, handed out once, closed once, or overwritten. |
| RtcpRuns.StepSafeIff | broker/coturn/src/server/ns_turn_maps_rtcp.c:70-233 | An event keeps every socket accounted for and everything that the sweep is about to delete expired, if and only if it is not a put of a token that is in the map or collected by the sweep. |
| RtcpRuns.RunSafeIff | broker/coturn/src/server/ns_turn_maps_rtcp.c:70-233 | Over every run the map is safe at each moment if and only if no put finds its token in use; then no socket is overwritten, and none is closed in the 300 seconds from its own reservation. |
| RtcpRuns.PutHarmlessIff | broker/coturn/src/server/ns_turn_maps_rtcp.c:152-159 | After a put, no number of deletions of the running sweep closes a socket early if and only if the sweep had not collected that token. |
| RtcpRuns.ReuseClosesEarly | broker/coturn/src/server/ns_turn_maps_rtcp.c:152-159 | The run in which a token is fetched and drawn again between the two phases: the socket reserved second, at second 301, is closed at second 301. |
| RtcpRuns.OnceIsFresh | broker/coturn/src/server/ns_turn_maps_rtcp.c:70-233 | When no token is drawn twice, no put finds its token in use. |
| RtcpRuns.Execute | broker/coturn/src/server/ns_turn_maps_rtcp.c:70-233 | Any sequence of commands on the hash-table map is a run of that protocol, with the sockets closed in that order, and so safe when no token is drawn twice. |
| Base64.Encode | broker/coturn/src/apps/common/apputils.c:947-977 | The loops compute the base 64 text of every byte string. |
| Base64.BuildDecodingTable | broker/coturn/src/apps/common/apputils.c:979-987 | The table built by the loop inverts the encoding table and is zero elsewhere. |
| Base64.Decode | broker/coturn/src/apps/common/apputils.c:989-1030 | The loops compute the octets a text stands for, cut off at its padding. |
| Base64.Alphabet | broker/coturn/src/apps/common/apputils.c:933-940 | The 64 characters in their order. |
| Base64.Vectors | broker/coturn/src/apps/common/apputils.c:947-977 | The first test vectors of section 10 of RFC 4648. |
| Base64.RoundTrip | broker/coturn/src/apps/common/apputils.c:947-1030 | Decoding gives back every byte string that is not empty. |

## Left out

- Sockets, TLS, libevent, redis, logging and the process around the relay threads: sends, closes and timers appear as
  results, as recorded lists and as flags of the objects they belong to.
- Memory: slots and connections are named by handles instead of pointers, and a freed connection's handle is not used
  again. In `Allocation` the port map of a permission is the table of `LmMap`; `LmMemory` shows that slots behind
  pointers give that table.
- Allocation failures, null-argument guards and mutexes; each locked section is one step.
- Khash.HashTable.Resize: requires a wish below 1610612741 buckets, because above that the source's 32-bit `i + inc`
  could wrap around.
- Khash.HashTable.Put: requires fewer than 805306369 entries, for the same reason.
- UrMap.Map.Put: the same bound.
- UrMap.Run: requires the entries at the start and the puts of the run together to stay within that bound.
- RtcpRuns.Execute: requires the same of its puts.
- The hash functions of addresses and strings: any function of the compared address is allowed, so that equal
  addresses hash alike holds by construction.
- Random numbers: transaction ids, connection ids and reservation tokens are parameters. TcpServer.Relay.NewId is
  given the draws, one of which must be usable; the source draws until one is.
- Authentication as such (nonces, credential lookup, OAuth), HTTP beyond the test for a request, and the admin
  interface. strtoul is a parameter of `Http.IsHttp`; `Http.IsStrtoul` says what it gives for a number that ends inside
  the bytes, and nothing about one that their end cuts off, where the source reads on behind the buffer.
- Quota.RunBalancedIff: requires a release callback, without which quota is never given back. The credential lookup is
  asynchronous and changes no session until its answer, which is an event of its own.
- TurnSession.Session.ChannelBind: the address decoding inside the attribute loop is a given result; `StunAddr` has it.
- The relay sockets behind an Allocate, bandwidth limits and the response messages.
- Signed overflow in `turn_time_before` is taken to wrap around, which is what the deadlines rely on.
- StunFingerprint.FullCheck: requires the value of a fingerprint that it finds to lie in the buffer, because the source
  reads it even where it lies behind the end of the message.
- Base64.Decode: does not model the empty text, whose last characters the source reads although there are none, nor, in
  a text of a right length, characters above 127, which index the table with a negative number.
- StunAddr.Mappings: the static arrays of mapped addresses are one sequence of pairs.
- The order on IPv6 address ranges, string maps, session reports, mobility between relay threads, alternate servers, and
  all JavaScript of the broker: no property there is as deep as those above.
