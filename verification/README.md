# TinyMqtt broker and session table: verification

This project models the MQTT broker of this repository and proves its main promises.

* `Codec`, `Framing`, `Decoder`, `Builder`, `MqttMessage`: the packet buffer that is both a byte-at-a-time decoder and a
  builder, against the framing rule of section 2.2.3 of MQTT 3.1.1.
* `Interner`, `Handles`, `StringIndexer`: the reference-counted string table with its 8-bit counters and prefix lookup, and
  every run of handle constructions, copies, assignments and destructions over it.
* `Sessions`, `SessionCalls`, `SessionRuns`, `LruOrder`, `HttpdSess`: the fixed table of sessions, its redundant counter, cached lookup,
  owned contexts and resettable LRU stamps.
* `Broker`, `BrokerInv`, `BrokerRuns`, `BrokerBooks`, `Connection`, `Packets`, `Login`, `Agreement`, `PublishReading`,
  `ReadingBounds`, `EndToEnd`, `SessionProtocol`, `Filters`, `Handshake`, `Solo`, `MqttBroker`: the broker with its clients,
  the registry, the fan-out and the packets of a session, over the two tables and the codec.
* `TextTransforms`: the form decoder that rewrites its string in place and the HTML escaper.

Where the source updates objects in place there are classes (`MqttMessage`, `StringIndexer`, `IndexedString`, `HttpdData`,
`MqttClient`, `MqttBroker`) and array methods. Each method is proved to turn the object's view into a function of the old
view, and the theorems are about those functions and all their runs. `Solo` connects the two levels for the broker: what a
method proves about one client and the two tables is what the whole-world function does.

A byte is a number from 0 to 255 (`char` is unsigned on the ESP32). Counters of 8, 16 and 64 bits wrap as in the source.
What `accept`, `open_fn`, `fcntl`, `select` and the socket writes answer, and the memory behind a packet that a wrong length
makes the source read, are parameters.

## What the code does not do

Some promises fail on some inputs. Each is given as an exact condition, and most with a concrete input or run.

* A stream is cut into its packets exactly when no packet has type nibble 0 (`Framing.StreamFraming`).
* The decoder's Remaining Length is the standard's for one and two length bytes; for more, exactly when the further groups
  are zero and the first two do not spell 4096 (`Decoder.TallyIsRemaining`, `Decoder.ThreeByteLengthDiffers`).
* A message with more than 4093 body bytes resets itself while it is built (`Builder.BuildIsStandard`).
* Assigning to a string handle never gives back the reference of the old index; the string then stays for ever
  (`Handles.LostStaysStored`, `Handles.AssignmentLeaks`). Releasing is right exactly while the 8-bit counter does not reach zero early
  (`Handles.StepInv`); with 257 handles it does, and 256 of them dangle (`Handles.TooManyHandles`).
* The PUBLISH branch skips a packet identifier whenever any flag is set. With only RETAIN or DUP set there is none, so a
  callback loses the first two bytes of the payload, or gets about 64 KB from behind the packet if it has fewer than two
  (`PublishReading.ReadIsPacket`, `PublishReading.PayloadRead`, `PublishReading.RetainedPacket`,
  `PublishReading.EmptyRetainedPacket`, `EndToEnd.ForwardEndToEnd`). A topic of more than 255 bytes is cut.
* A packet whose length fields lie makes the source read behind it, exactly in the stated cases
  (`PublishReading.TopicStaysInside`, `PublishReading.PayloadStaysInside`, `ReadingBounds.WalkInsideExactly`,
  `ReadingBounds.ShortTopicReadsBehind`, `ReadingBounds.ConnectStaysInside`).
* A client that calls `connect` on a broker of its own program is taken out of the registry and attached again without
  being put back: it can publish, but its callback is never called again (`BrokerRuns.StepListed`,
  `SessionProtocol.AttachDeafens`, `SessionProtocol.AttachedIsDeaf`).
* A topic whose quality of service is refused with 0x80 is subscribed all the same (`Handshake.SubscribeEndToEnd`).
* A topic that is a proper prefix of a stored one is taken for it (`Interner.InternIsExact`,
  `EndToEnd.PublishedTopicIsText`, `EndToEnd.PrefixIsTakenForLonger`).
* `httpd_sess_new` counts a session only after `open_fn`, but the clean-up of a failed `open_fn` counts it out: the counter
  is short by the number of failures (`SessionRuns.SlotAccounting`). Availability is still right; the LRU order is right
  exactly while the counter does not come to zero under a session already used (`LruOrder.StepOrdered`,
  `LruOrder.FailedOpenOrdered`, `LruOrder.FailedOpenMisleadsPurge`).
* A failed read or write frees the slot of a client that stays registered (`Agreement.ReadErrorBreaks`,
  `Agreement.SendErrorBreaks`, `Agreement.ReadErrorRun`). If the slot is then given out again, two clients share it: the
  old one reads what the new peer sends, and closing the old one ends the new session (`Agreement.SharedSlot`,
  `Agreement.SharedSlotRun`).
* The high byte of the keep-alive is not sent (`Handshake.ConnectRoundTrip`).
* A first packet other than CONNECT also leaves the client registered if it is a CONNACK, which even opens a session, or a
  ping response (`SessionProtocol.FirstPacket`, `SessionProtocol.ConnackOpensSession`).
* A context set through descriptor -1 ends up in a free slot (`SessionRuns.ContextOnNoDescriptor`,
  `SessionRuns.ContextInFreeSlot`).

## Model

| member | source | states |
|---|---|---|
| Framing.StreamFraming | TinyMqtt.cpp:307-319 | the receive loop on any concatenation of packets of at most 4096 bytes with a one- or two-byte Remaining Length hands over exactly those packets, in order, if and only if each has a non-zero type nibble |
| Framing.StreamPrefix | TinyMqtt.cpp:307-319 | after any number of bytes of such a stream exactly the packets already whole have been handed over, none on a proper prefix |
| Framing.FeedPrefix | TinyMqtt.cpp:771-828 | the decoder's whole state (buffer, variable-header offset, bytes to come, state) after any prefix of a packet |
| Framing.StreamEnd | TinyMqtt.cpp:307-319 | after the stream the decoder is reset again, and each message handed over has its variable header where the packet's begins |
| Decoder.InvReceive | TinyMqtt.cpp:771-828 | on arbitrary bytes every reachable state has at most 4096 bytes, a positive counter while bytes are awaited, and a counter that is exactly what the length bytes and the bytes received so far leave; so has every message handed over |
| Decoder.InvStep | TinyMqtt.cpp:771-828 | one byte keeps that, the 16-bit counter neither underflows nor passes 2^16 |
| Decoder.Progress | TinyMqtt.cpp:819-827 | no more than 4096 further bytes pass without a completion or a reset |
| Decoder.ReceiveIsPieces | TinyMqtt.cpp:307-319 | on any input the messages handed over are disjoint contiguous pieces of it, in order: no byte is invented or reordered |
| Decoder.TallyIsRemaining | TinyMqtt.cpp:784-810 | the decoder's length is the Remaining Length of section 2.2.3 of MQTT 3.1.1 in exactly the stated cases |
| Decoder.HandedOverIsPacket | TinyMqtt.cpp:771-828 | a message handed over on arbitrary input is a control packet of the standard in exactly the stated cases |
| Decoder.ThreeByteLengthDiffers | TinyMqtt.cpp:784-810 | three length bytes which the standard reads as 16384 and the decoder as 128 |
| Decoder.SpuriousByte | TinyMqtt.cpp:811-818 | a byte that comes while a message is finished or in error is swallowed and the decoder waits again |
| Decoder.TooLong | TinyMqtt.cpp:784-800 | a length that passes 4096 is an error, the next byte is swallowed, nothing is handed over |
| Decoder.FourThousandNinetySeven | TinyMqtt.cpp:784-800 | the same on the bytes of a packet one byte too long |
| Decoder.FourThousandNinetySix | TinyMqtt.cpp:787-796 | two length bytes that add up to exactly 4096 are no error, and a third one is read as if it were the first: the packet comes out with one byte behind its length |
| Builder.BuildIsStandard | TinyMqtt.cpp:830-862 | `create`, `add` and `complete` make the standard's packet exactly up to 4093 body bytes |
| Builder.BuiltMsg | TinyMqtt.cpp:841-862 | the finished message: fixed header, minimal Remaining Length in the reserved bytes, body, and `vheader` pointing at the body; so the high length byte stays below 128 |
| Builder.FeedCreate | TinyMqtt.cpp:771-828 | while a message is built its counter is the number of bytes behind the three reserved ones |
| Builder.RoundTrip | TinyMqtt.cpp:771-862 | a built packet fed to any reset decoder completes on its last byte and on no earlier one, with the same buffer, `vheader`, type and flags |
| Builder.ItemsRoundTrip | TinyMqtt.cpp:250-254 | walking a payload with `getString` and single bytes gives back every string and byte that was added, in order |
| Builder.BuiltItemsRoundTrip | TinyMqtt.cpp:830-839 | the two together: build from any list of bytes and strings, send, decode, read the same list |
| Codec.ReadPrefixed | TinyMqtt.cpp:250-254 | `getString` undoes the length prefix of `add` wherever the string lies |
| MqttMessages.MqttMessage.Incoming | TinyMqtt.cpp:771-828 | the in-place step is `Codec.Incoming` on all four fields |
| MqttMessages.MqttMessage.Add | TinyMqtt.cpp:830-839 | adding bytes is feeding them one by one, after their length if asked for |
| MqttMessages.MqttMessage.EncodeLength | TinyMqtt.cpp:841-862 | the edit in place, one reserved byte deleted or both filled, is `Codec.EncodeLength` |
| MqttMessages.MqttMessage.Reset | TinyMqtt.cpp:764-769 | empties the buffer and leaves `vheader` as it was |
| MqttMessages.MqttMessage.Create | TinyMqtt.h:146-154 | a message under construction: type and flag bits, two reserved bytes |
| Interner.StrncmpIsPrefix | StringIndexer.h:35-42 | the `strncmp` lookup of a NUL-free key is a prefix test |
| Interner.StrncmpStopsAtNul | StringIndexer.h:35-42 | a NUL in the key ends it: the stored text must end or hold a NUL there too, and nothing behind it counts |
| Interner.InternFinds | StringIndexer.h:33-54 | `strToIndex` gives the lowest index whose string starts with the key, else stores the key at the lowest free index, and 0 exactly when nothing starts with the key and all 255 are taken |
| Interner.InternIsExact | StringIndexer.h:33-54 | the index names exactly the text asked for if and only if no lower string extends a stored key, or nothing extends a new one and there is room |
| Interner.InternDistinct | StringIndexer.h:33-54 | stored strings stay pairwise distinct |
| Interner.MatchesIsTextEquality | TinyMqtt.cpp:703-708 | for stored strings `matches`, equality of index and equality of text are the same |
| Interner.ReleaseAccounts | StringIndexer.h:70-82 | giving up one reference keeps counter and references in step if and only if the 8-bit counter does not reach zero early |
| Interner.InternAgain | StringIndexer.h:33-54 | asking again for a text just interned gives the same index, and letting go restores the table |
| Handles.StepInv | StringIndexer.h:92-139 | one construction, copy, assignment or destruction keeps table and handles consistent if and only if it is safe for the 8-bit counter |
| Handles.Conservation | StringIndexer.h:92-139 | in every state of every safe run a string is stored exactly while a handle or a lost reference names it, its counter is their number modulo 256, and stored strings are distinct |
| Handles.BoundedRunIsSafe | StringIndexer.h:64-82 | a run with at most 255 references to every index is safe |
| Handles.NoDangling | StringIndexer.h:129-131 | a handle with a non-zero index resolves to a stored string |
| Handles.TextStable | StringIndexer.h:129-131 | the text of a handle does not change between the operations on that handle |
| Handles.LostStaysStored | StringIndexer.h:112-117 | a string whose handle was assigned over stays stored in every later state |
| Handles.AssignmentLeaks | StringIndexer.h:112-117 | two handles, an assignment, both destroyed: no handle is left and a string is still stored |
| Handles.TooManyHandles | StringIndexer.h:64-82 | one construction and 256 copies are safe; destroying one of the 257 handles then removes the string under the other 256 |
| StringIndexers.StringIndexer.StrToIndex | StringIndexer.h:33-54 | the two loops compute `Interner.Intern` on the map |
| StringIndexers.StringIndexer.Release | StringIndexer.h:70-82 | the 8-bit counter goes down, and the entry goes at zero |
| StringIndexers.StringIndexer.Use | StringIndexer.h:64-68 | the 8-bit counter of a stored index goes up |
| StringIndexers.IndexedString.Assign | StringIndexer.h:112-117 | takes a reference to the new index and gives none back for the old |
| SessionRuns.SlotAccounting | httpd_sess.c:186-223 | over every run, counter plus failed opens is the number of active slots, active descriptors are pairwise distinct, and a session is available exactly when some slot is free |
| SessionRuns.Availability | httpd_sess.c:149-164 | the same for any table with that counter, and the slot found is the first free one |
| SessionCalls.NewSession | httpd_sess.c:186-223 | a new descriptor takes the first free slot, everything in it cleared but the descriptor and the handle; no other slot changes |
| SessionCalls.NewSessionFails | httpd_sess.c:209-216 | after a failed open the slot is free again and the counter one too low |
| SessionCalls.NoNewSession | httpd_sess.c:190-199 | a known descriptor or a full table changes nothing |
| SessionCalls.AcceptPurges | httpd_main.c:33-45 | a full table with purging on: nobody is accepted, the chosen session is marked |
| SessionCalls.AcceptOpens | httpd_main.c:47-76 | otherwise a failed `accept` changes nothing and its descriptor gets a new session |
| SessionCalls.Watched | httpd_main.c:145-183 | the listening socket is watched unless the table is full and purging off, and nothing happens unless it is reported |
| SessionCalls.SessionDeleted | httpd_sess.c:350-377 | what is left of a deleted session, what is freed, and both counters |
| SessionRuns.CachedLookup | httpd_sess.c:166-184 | the answer from the current request and the scan name the same slot, the only one with that descriptor |
| SessionRuns.StepInv | httpd_sess.c:186-377 | each event keeps the shape of the table, the accounting and the ownership of contexts |
| SessionRuns.ContextOwnership | httpd_sess.c:225-326 | over every run a context handed in once is in exactly one place of exactly one active slot, or was freed exactly once |
| SessionCalls.UserContextSet | httpd_sess.c:298-304 | the slot of that descriptor gets the context and its free function, a different old context is freed, no other slot changes |
| SessionCalls.TransportContextSet | httpd_sess.c:313-326 | the same for the transport context |
| SessionCalls.NoContextSet | httpd_sess.c:274-279 | for an unknown descriptor neither call does anything |
| SessionRuns.ContextOnNoDescriptor | httpd_sess.c:298-304 | setting a context through descriptor -1 breaks the table's shape exactly when there is a free slot |
| SessionRuns.ContextInFreeSlot | httpd_sess.c:298-304 | so it does in the table a server starts with |
| SessionRuns.DeleteTwice | httpd_sess.c:350-377 | deleting a session again does nothing |
| SessionRuns.ActiveFdsMember | httpd_main.c:83-101 | the list of descriptors has exactly the active ones |
| SessionRuns.ActiveFdsOnce | httpd_main.c:83-101 | it has each of them once |
| SessionCalls.DescriptorsCollected | httpd_sess.c:328-339 | the descriptors to watch are exactly those in use, with the highest of them |
| SessionCalls.FirstActive | httpd_sess.c:78-80 | the first session in use |
| LruOrder.RunOrdered | httpd_sess.c:425-443 | over runs in which no event brings the counter to zero under a session already used, with fewer than 2^64 uses of sessions, stamps of active slots stay below the counter, non-zero ones are distinct and ordered as the last uses, also across the reset to 0 |
| LruOrder.StepOrdered | httpd_sess.c:371-376 | any event - new session, failed open, delete, sweep, close-all, use, purge - keeps that order if and only if it does not bring the counter to zero while leaving a session already used |
| LruOrder.FailedOpenOrdered | httpd_sess.c:209-219 | a failed open keeps it if and only if the counter was not 1 or no active session was used yet |
| LruOrder.NoFailuresRun | httpd_sess.c:186-223 | every run without failed opens is such a run |
| LruOrder.DeleteOrdered | httpd_sess.c:371-376 | deleting a session keeps that order if and only if the counter does not come to zero under a session already used |
| LruOrder.PurgeMarksLeastRecent | httpd_sess.c:445-459 | on such runs with fewer than 2^64 - 1 uses, with a full table the purge marks a never-used session if there is one, else the one used longest ago, and changes nothing else |
| LruOrder.FullTableChoice | httpd_sess.c:105-116 | the same choice for any full table in that order |
| SessionCalls.LowestBeforeFree | httpd_sess.c:105-116 | in any table the search ends at the first free slot, and the first of the lowest stamps before it wins |
| SessionCalls.UseStamps | httpd_sess.c:425-443 | a use stamps the session with the next counter value modulo 2^64, an unknown descriptor is an error |
| LruOrder.FailedOpenMisleadsPurge | httpd_sess.c:209-219 | a run with one failed open after which the purge marks the session used last |
| HttpdSess.HttpdData.SessEnum | httpd_sess.c:41-56 | the loop over the slot array is `Sessions.Enum`: it stops where the callback says |
| HttpdSess.HttpdData.EnumFunction | httpd_sess.c:64-131 | all eight tasks, with the slot, the counter and the context they leave |
| HttpdSess.HttpdData.SessNew | httpd_sess.c:186-223 | the whole table after a new session, a full table, a known descriptor or a failed `open_fn` |
| HttpdSess.HttpdData.SessDelete | httpd_sess.c:350-377 | frees both contexts once, frees the slot, counts it out and resets the LRU counter at zero |
| HttpdSess.HttpdData.SessGetFree | httpd_sess.c:149-159 | the first free slot, nothing changed |
| HttpdSess.HttpdData.SessGet | httpd_sess.c:166-184 | the lookup, nothing changed |
| HttpdSess.HttpdData.SessSetCtx | httpd_sess.c:274-305 | replaces the context outside the session's handler, freeing a different old one |
| HttpdSess.HttpdData.SessSetTransportCtx | httpd_sess.c:313-326 | the same for the transport context |
| HttpdSess.HttpdData.SessUpdateLru | httpd_sess.c:425-443 | stamps the session with the next counter value |
| HttpdSess.HttpdData.SessCloseLru | httpd_sess.c:445-459 | marks the selected session |
| HttpdSess.HttpdData.Accept | httpd_main.c:29-76 | purge instead of accepting when the table is full and purging is on; else a new session or an error |
| HttpdSess.HttpdData.CheckAvail | httpd_main.c:145-183 | accepts only what `select` reports on a listening socket that is watched |
| HttpdSess.HttpdData.GetClientList | httpd_main.c:83-101 | succeeds exactly when the caller's array has room, and then holds the active descriptors in slot order |
| BrokerRuns.RunLinked | TinyMqtt.cpp:151-187 | in every state of every run, I/O errors included, the registry lists attached clients, each once, and every attached remote one, only attached remote clients are connected, connections are slots, the session table keeps its shape, and every decoder its invariant |
| BrokerRuns.StepLinked | TinyMqtt.cpp:51-238 | each event keeps those links |
| BrokerRuns.StepListed | TinyMqtt.cpp:73-79 | that every attached client is registered survives every event except `connect` to a broker of the same program, which always breaks it |
| Connection.ReadsAreReceived | TinyMqtt.cpp:307-319 | bytes read from a client, as long as it stays readable: its decoder ends where `Framing.Receive` ends on them, and the world is that of exactly the packets `Receive` hands over, processed in order with an empty buffer after each |
| Connection.ArrivalsAreReceived | TinyMqtt.cpp:307-319 | those packets are the messages of `Framing.Receive` |
| Connection.ConnectionFraming | TinyMqtt.cpp:307-319 | so a stream of packets on a connection is processed packet by packet, in order, if and only if each has a non-zero type nibble |
| Connection.TwoPings | TinyMqtt.cpp:314-318 | two pings in a row are both processed |
| BrokerBooks.RunSound | TinyMqtt.cpp:151-187 | in every run in which no counter of the string table can wrap, the application constructing and destroying topics of its own, the table accounts for exactly the subscriptions and those topics |
| BrokerBooks.StartSound | TinyMqtt.cpp:7-10 | a broker starts so, whatever topics the application already holds |
| Packets.AcceptedClient | TinyMqtt.cpp:151-167 | the client made for a new session, field by field, registered last |
| Packets.LocalClient | TinyMqtt.cpp:37-43 | the client the application makes, field by field |
| Packets.Failures | TinyMqtt.cpp:270-331 | a time-out closes an attached client, a failed read frees the slot and nothing else |
| Packets.Attaching | TinyMqtt.cpp:73-79 | the client loses its session and its place in the registry and is attached; nothing else of it changes, and no other client is taken out |
| Packets.AppSubscribes | TinyMqtt.cpp:411-427 | subscribing adds exactly the topic named, its length cut to eight bits |
| Packets.AppUnsubscribes | TinyMqtt.cpp:429-441 | unsubscribing takes exactly the topic named away, its length cut to eight bits |
| BrokerRuns.ProcessLinked | TinyMqtt.cpp:459-701 | whatever packet comes from an attached client, the links survive it |
| BrokerBooks.ProcessBooks | TinyMqtt.cpp:459-701 | with room in the counters the books survive it too |
| BrokerRuns.ProcessFrame | TinyMqtt.cpp:459-701 | a packet touches only its own client and, of others, the logs of what was delivered |
| BrokerInv.WalkKeeps | TinyMqtt.cpp:599-624 | whatever bytes a SUBSCRIBE or UNSUBSCRIBE carries, the topic loop leaves the string table without duplicates and with exactly one reference for each topic the client then has |
| BrokerInv.ReleasedBooks | StringIndexer.h:108-110 | destroying the topics of a client gives back exactly their references |
| BrokerRuns.CloseRegistered | TinyMqtt.cpp:119-140 | `close` takes exactly that client out of the registry |
| Agreement.BrokerSlotAgreement | TinyMqtt.cpp:151-187 | on every run without I/O errors the connections of the registered remote clients are distinct and are exactly the active slots, so there are at most `max_open_sockets` of them |
| Agreement.StepAgree | TinyMqtt.cpp:51-71 | each event without an I/O error keeps that |
| Agreement.CloseIsExact | TinyMqtt.cpp:51-71 | `close` removes exactly that client and frees exactly its slot; nothing can be read from it afterwards and every other client reads as before |
| Packets.ReadableIsRegistered | httpd_main.c:277-308 | while broker and table agree, the readable clients are exactly the registered remote ones |
| Agreement.FreeUntilTaken | httpd_main.c:295-298 | in every continuation the freed slot stays free up to the first accept that gives it out |
| Agreement.ReadErrorBreaks | TinyMqtt.cpp:325-331 | a failed read ends the agreement, exactly when the connection was readable |
| Agreement.SendErrorBreaks | httpd_main.c:246-276 | a failed write to a registered remote client ends the agreement, a successful one does not |
| Agreement.ReadErrorRun | TinyMqtt.cpp:307-331 | a run without errors after which one failed read, or one failed write, ends the agreement |
| Agreement.SharedSlot | TinyMqtt.cpp:325-331 | after a failed read, an accept that takes the freed slot leaves two registered clients on it, both readable, and closing the old one ends the new session |
| Agreement.SharedSlotRun | httpd_sess.c:204-216 | three events from the start that come to that |
| EndToEnd.FanoutExact | TinyMqtt.cpp:198-238 | a publication acts exactly once on each client of the registry and on no other |
| EndToEnd.FanoutSlots | TinyMqtt.cpp:198-238 | slot by slot, a publication frees the sessions of the subscribers whose sockets refuse it, and changes no other |
| EndToEnd.ServedSlots | httpd_main.c:246-276 | the same of the table the methods of the broker are proved to leave |
| EndToEnd.LocalPublishEndToEnd | TinyMqtt.cpp:711-751 | `publish` gives each subscribed local client's callback exactly the published topic and payload once, and hands the socket of each subscribed remote client the same one packet, which decodes to them and which it gets if it takes the write; every other client and the string table are unchanged |
| EndToEnd.ForwardEndToEnd | TinyMqtt.cpp:636-672 | a PUBLISH laid out by the standard as a topic and a payload goes once to exactly the subscribers of that topic, to sockets as the very packet, to callbacks as that topic and payload if and only if it has no flags or a quality of service |
| EndToEnd.FanoutTable | TinyMqtt.cpp:198-238 | a fan-out leaves that table |
| PublishReading.Arrives | TinyMqtt.cpp:771-828 | every PUBLISH of the standard that fits, with any flags, is decoded with its topic, packet identifier and payload in place |
| PublishReading.ReadIsPacket | TinyMqtt.cpp:636-650 | the topic read is the packet's if and only if it has at most 255 bytes, the payload if and only if no flag is set or there is a quality of service |
| PublishReading.PayloadRead | TinyMqtt.cpp:636-650 | otherwise the payload read lacks its first two bytes, or is 65534 bytes longer than the packet's |
| PublishReading.RetainedPacket | TinyMqtt.cpp:649-650 | a retained "hi!" is read as "!" |
| PublishReading.EmptyRetainedPacket | TinyMqtt.cpp:649-650 | an empty retained publication is read as 65534 bytes |
| PublishReading.TopicStaysInside | TinyMqtt.cpp:645-647 | the topic read does not depend on the memory behind the packet if and only if its length bytes and the length they announce lie inside |
| PublishReading.PayloadStaysInside | TinyMqtt.cpp:648-650 | the same for the payload |
| ReadingBounds.WalkInsideExactly | TinyMqtt.cpp:599-624 | the loop of SUBSCRIBE and UNSUBSCRIBE reads nothing behind the packet, whatever lies there, if and only if every filter it comes to lies inside |
| ReadingBounds.WalkStaysInside | TinyMqtt.cpp:599-624 | and then the outcome is decided by the packet alone |
| ReadingBounds.ShortTopicReadsBehind | TinyMqtt.cpp:599-624 | a SUBSCRIBE that reads behind its end |
| ReadingBounds.ConnectStaysInside | TinyMqtt.cpp:484-543 | whether CONNECT reads behind the packet is decided by the packet and the login, and if it does not, so is the outcome |
| EndToEnd.SubscribedIsText | TinyMqtt.cpp:753-762 | matching the fresh handle of a topic is having subscribed to that text |
| EndToEnd.PublishPacket | TinyMqtt.cpp:711-726 | the packet `publish` builds, decoded, names the topic and the payload, whatever memory lies behind it |
| EndToEnd.PublishedTopicIsText | TinyMqtt.cpp:711-726 | the packet names the published topic if and only if the string table finds that very text |
| EndToEnd.PrefixIsTakenForLonger | StringIndexer.h:35-42 | with only "ab" stored, "a" is published as "ab" to the subscribers of "ab" |
| SessionProtocol.FirstPacket | TinyMqtt.cpp:475-701 | a remote client's first packet leaves it registered exactly if it is an accepted CONNECT, a CONNACK or a ping response |
| Login.ConnectMeans | TinyMqtt.cpp:484-546 | a CONNECT laid out by section 3.1 of MQTT 3.1.1 is read as its fields, keep-alive with both bytes, and let in if and only if the user name passes, or none is given and no password is set, and the password passes, or none is given and no user is set; each is compared with its length cut to eight bits |
| Login.ShortCredentials | TinyMqtt.cpp:240-248 | credentials of at most 255 bytes are compared whole |
| Login.ConnectArrives | TinyMqtt.cpp:771-828 | every CONNECT that fits arrives with its fields |
| Login.ConnectProcessed | TinyMqtt.cpp:475-550 | if it passes, the client is connected and sent the bytes 20 02 00 00, if not it is sent nothing, unregistered and its session freed; its fields are kept either way and nobody else is touched |
| Login.OtherProtocol | TinyMqtt.cpp:488-497 | another protocol name or level is refused; flags and keep-alive are taken, the name of the client is not |
| Login.OtherProtocolProcessed | TinyMqtt.cpp:475-550 | such a CONNECT ends the session of a remote client: nothing is sent, it is unregistered and its slot freed, nobody else is touched |
| Login.WrongPassword | TinyMqtt.cpp:529-537 | a CONNECT with a wrong password, byte by byte, is refused |
| SessionProtocol.ConnackOpensSession | TinyMqtt.cpp:552-556 | a run from the start in which a CONNACK is the first packet and its sender is in session after it |
| SessionProtocol.BeforeSession | TinyMqtt.cpp:475-701 | before its session a remote client changes no subscription, delivers nothing and touches no other client; only what lets it in connects it |
| SessionProtocol.DuringSession | TinyMqtt.cpp:475-701 | in session a client stays registered and connected exactly while its packets are ones that may follow; a second CONNECT is not one |
| Packets.PingAnswered | TinyMqtt.cpp:570-584 | a PINGREQ in session is answered with exactly one PINGRESP, D0 00, and nothing else changes |
| Packets.Ignored | TinyMqtt.cpp:558-568 | PUBACK, SUBACK, UNSUBACK and PINGRESP change nothing |
| Packets.EndDecided | TinyMqtt.cpp:474-689 | which packets close a client, by type, session and socket |
| Packets.SessionEnds | TinyMqtt.cpp:683-695 | such a packet unregisters its client and frees its session, sends nothing and touches nobody else |
| Packets.Acknowledged | TinyMqtt.cpp:552-556 | a CONNACK connects the client, and its topics, if any, are asked for again in one SUBSCRIBE of the standard with flags 2 and identifier 0 |
| Packets.PublishGoes | TinyMqtt.cpp:636-672 | a PUBLISH of a remote client in session goes to the broker, one at a client without a socket to its callback |
| Packets.PublishProcessed | TinyMqtt.cpp:636-672 | end to end through `processMessage`, to exactly the subscribers |
| Packets.PublishReceived | TinyMqtt.cpp:652-664 | the callback of a client without a socket is called with topic and payload exactly if it is subscribed |
| Packets.AnswerBytes | TinyMqtt.cpp:620-628 | the acknowledgements of two filters byte by byte |
| Packets.TypeBytes | TinyMqtt.h:76-91 | the packet types of table 2.1 of MQTT 3.1.1 |
| Packets.WriteMeans | httpd_main.c:246-276 | a write is sent, or nothing is and the session is freed |
| Packets.SendMeans | TinyMqtt.cpp:864-882 | an empty message is not sent, a finished one as it is |
| SessionProtocol.ClosedForEver | TinyMqtt.cpp:51-71 | once closed, no packet and no other event has any effect on it in any continuation, and nothing can be read from it |
| SessionProtocol.AttachedIsDeaf | TinyMqtt.cpp:73-79 | in every continuation a client that called `connect` on its broker has no further call of its callback |
| SessionProtocol.AttachDeafens | TinyMqtt.cpp:73-79 | the call puts a client in that state, attached and free to publish |
| SessionProtocol.SessionHasCause | TinyMqtt.cpp:475-556 | in every run a client in session was let in by a packet of its own at a definite earlier point |
| SessionProtocol.OnlySessionsAct | TinyMqtt.cpp:459-701 | a byte from a remote client out of session leaves every other client, all subscriptions and the string table as they were |
| Handshake.ConnectRoundTrip | TinyMqtt.cpp:484-550 | the CONNECT of `onConnect`, decoded and read, has the same name and no flags, is let in exactly when no login is set, and keeps its keep-alive exactly below 256 |
| Handshake.ResubscribeRoundTrip | TinyMqtt.cpp:391-409 | the packet of `resubscribe`, processed by a connected peer, makes its subscriptions the union with the sender's topics and is answered by a SUBACK with the packet identifier and one code for each topic |
| Handshake.AcknowledgementFits | TinyMqtt.cpp:586-629 | every SUBSCRIBE or UNSUBSCRIBE the decoder can hand over is answered by a whole packet of the standard that begins with its packet identifier |
| Filters.WalkReads | TinyMqtt.cpp:599-624 | the loop of SUBSCRIBE and UNSUBSCRIBE takes exactly the filters of the packet in order, each topic cut to eight bits of length, whatever lies behind the packet |
| Filters.CodesRead | TinyMqtt.cpp:603-612 | SUBSCRIBE collects one return code for each filter in order, 0x80 exactly where the quality of service is not 0; UNSUBSCRIBE collects none |
| Filters.SubscribeAddsAll | TinyMqtt.cpp:605-612 | for topics the table tells apart and has room for, the client ends up with its own and every one named, whatever their return codes |
| Filters.UnsubscribeRemovesAll | TinyMqtt.cpp:613-618 | for topics the table tells apart, the client keeps exactly those not named |
| Handshake.FiltersAnswered | TinyMqtt.cpp:586-629 | any SUBSCRIBE or UNSUBSCRIBE in session is answered by one packet with its identifier and those return codes |
| Handshake.SubscribeEndToEnd | TinyMqtt.cpp:586-629 | a SUBSCRIBE in session: subscriptions become the union, and the answer has one code for each filter |
| Handshake.UnsubscribeEndToEnd | TinyMqtt.cpp:586-629 | an UNSUBSCRIBE in session: subscriptions become the difference, and the answer has the identifier |
| Solo.ProcessIsAlone | TinyMqtt.cpp:459-701 | a packet that is not a publication to pass on acts on its own client, the registry and the two tables and on nothing else |
| Solo.ReadIsAlone | TinyMqtt.cpp:307-319 | the same for one byte read |
| MqttBrokers.MqttBroker.Publish | TinyMqtt.cpp:198-238 | the loop offers the message to every registered client exactly once, ends the sessions of exactly those whose sockets refuse it, and leaves message and string table unchanged |
| MqttBrokers.MqttBroker.PublishIfSubscribed | TinyMqtt.cpp:729-751 | a subscriber's socket or callback gets the message, others nothing; a refused write ends the session |
| MqttBrokers.MqttBroker.IsSubscribedTo | TinyMqtt.cpp:753-762 | true exactly when some subscription matches |
| MqttBrokers.MqttBroker.PublishText | TinyMqtt.cpp:711-726 | publishing from a local client: what every client sees, the socket table, and the string table as before |
| MqttBrokers.MqttBroker.ProcessPublish | TinyMqtt.cpp:636-672 | a publication from a remote client goes to every subscriber, any other to the client's own callback; the socket table afterwards |
| MqttBrokers.MqttBroker.ProcessMessage | TinyMqtt.cpp:459-701 | every other packet leaves client, registry, session table and string table as `Solo.ProcessAlone` says |
| MqttBrokers.MqttBroker.ReadByte | TinyMqtt.cpp:307-319 | one byte read: buffer, packet processing and reset, as `Solo.ReadAlone` says |
| MqttBrokers.MqttBroker.HandlePublish | TinyMqtt.cpp:314-318 | the same for a finished publication: processed, then the buffer reset |
| MqttBrokers.MqttBroker.ProcessTopics | TinyMqtt.cpp:586-629 | the topics taken into subscriptions and string table, then one acknowledgement written |
| MqttBrokers.MqttBroker.Subscribe | TinyMqtt.cpp:411-427 | a topic new to the client takes one lasting reference, one it has takes none |
| MqttBrokers.MqttBroker.Unsubscribe | TinyMqtt.cpp:429-441 | a topic of the client gives its reference back, any other leaves no trace |
| MqttBrokers.MqttBroker.BuildResubscribe | TinyMqtt.cpp:391-409 | the packet with every topic in index order |
| MqttBrokers.MqttBroker.BuildConnect | TinyMqtt.cpp:353-371 | the CONNECT packet, item by item |
| MqttBrokers.MqttBroker.OnConnect | TinyMqtt.cpp:353-371 | that packet is sent once |
| MqttBrokers.MqttBroker.TakeConnect | TinyMqtt.cpp:484-546 | walking the packet by a running offset, past name, will, user name and password, sets the fields and reaches the verdict of `Broker.Connect`, accepted or not |
| MqttBrokers.MqttBroker.SendTo | TinyMqtt.cpp:864-882 | an empty message is refused, an unfinished one completed; a refused write ends the session |
| MqttBrokers.MqttBroker.RemoveClient | TinyMqtt.cpp:119-140 | deletes the session and takes exactly this client out of the registry |
| MqttBrokers.MqttBroker.Close | TinyMqtt.cpp:51-71 | disconnects and detaches the client and removes it from the broker |
| MqttBrokers.MqttBroker.AddClient | TinyMqtt.cpp:104-109 | appends the client and resets its receive buffer |
| MqttBrokers.MqttBroker.Destroy | TinyMqtt.cpp:12-19 | the delete-first loop comes to an end, empties the registry, and leaves both tables as deleting the clients one by one does |
| MqttBrokers.MqttBroker.DeleteClient | TinyMqtt.cpp:45-49 | a client's destructor closes it and gives up its topics |
| MqttBrokers.TornDownSlots | TinyMqtt.cpp:12-19 | the sessions of the deleted clients are freed and no other slot changes |
| MqttBrokers.TornDownBooks | TinyMqtt.cpp:12-19 | exactly the references of their topics are gone |
| TextTransforms.PreprocessString | utils.cpp:39-69 | the string becomes its pure decoding with a NUL after it, inside the terminator, and every byte behind is as it was |
| TextTransforms.DecodeInverts | utils.cpp:39-69 | the decoding inverts every percent and plus encoding (section 2.1 of RFC 3986, section 17.13.4 of HTML 4.01) of every byte string |
| TextTransforms.DecodePair | utils.cpp:45-61 | two bytes after a percent sign become one |
| TextTransforms.DigitValues | utils.cpp:50-60 | the value of each of them, digit or not |
| TextTransforms.DecodeSingle | utils.cpp:62-66 | a plus sign is a space, a percent sign too near the end and every other byte stand for themselves |
| TextTransforms.HtmlEscape | utils.cpp:5-37 | the second pass fills exactly what the first counted: the escaped text and the terminator |
| TextTransforms.EscapedSize | utils.cpp:5-18 | the first pass computes the length of the escaped text and its terminator |
| TextTransforms.EscapeOne | utils.cpp:24-35 | exactly the quotes, number sign, ampersand, semicolon and backslash become references to themselves, every other byte stays |
| TextTransforms.EscapeAppend | utils.cpp:24-35 | the text is escaped byte by byte |
| TextTransforms.NumberSignEscaped | utils.cpp:24-35 | "a#b" becomes "a&#35;b" |
| TextTransforms.UnescapeInverts | utils.cpp:5-37 | reading the numeric references (section 5.3.1 of HTML 4.01) gives back the input |
| TextTransforms.EscapedIsSafe | utils.cpp:5-37 | no quote or backslash is left, and every `&` begins a two-digit numeric reference |

## Left out

- MqttBrokers.MqttBroker.ProcessMessage: publications to pass on are `ProcessPublish`, and a topic list too long for one packet is admitted only if what is left of it when it is sent can be completed inside its buffer.
- MqttBrokers.MqttBroker.ReadByte: a byte that completes a publication is read as `MqttMessages.MqttMessage.Incoming` and `HandlePublish`.
- MqttBrokers.MqttBroker.PublishIfSubscribed: the same bound on counters as `Publish`.
- MqttBrokers.MqttBroker.ProcessPublish: the same bound on counters as `Publish`.
- MqttBrokers.MqttBroker.HandlePublish: no counter of the string table at 0 or 255, so that one more handle does not wrap it.
- MqttBrokers.MqttBroker.PublishText: topic and payload must fit one packet of 4096 bytes. Beyond that the builder has reset itself and completing it writes outside the buffer.
- MqttBrokers.MqttBroker.BuildConnect: the name must fit the packet, for the same reason.
- MqttBrokers.MqttBroker.OnConnect: likewise.
- MqttBrokers.MqttBroker.BuildResubscribe: the loop copies each topic and destroys the copy, which erases a string whose counter stands at zero after 256 references. Here the string table stays as it is.
- MqttBrokers.MqttBroker.DeleteClient: `delete client` is left out. For every accepted client it frees a pointer to an object that lived on the stack of `MqttBroker::loop`.
- MqttBrokers.MqttBroker.Destroy: the same, for every remote client.
- MqttBrokers.MqttBroker.SendTo: a message of one or two bytes still being built, and the client's own unfinished receive buffer, are excluded; the source never sends them, and completing the first writes outside the buffer.
- MqttBrokers.MqttBroker.Publish: no upstream broker. Takes a string table none of whose counters stands at zero, which every reachable one with at most 255 references to an index is.
- MqttBrokers.MqttBroker.Subscribe: the packet that goes to a remote or upstream broker is not modelled.
- MqttBrokers.MqttBroker.Unsubscribe: nor is this one.
- EndToEnd.FanoutExact: the branch with a connected upstream broker does not occur.
- Packets.PublishProcessed: the same conditions on the topic as `EndToEnd.LocalPublishEndToEnd`; with only RETAIN or DUP set see `EndToEnd.ForwardEndToEnd`.
- Packets.PublishReceived: likewise.
- Packets.Acknowledged: the topics fit one packet.
- Packets.AppSubscribes: the same conditions on the topic as `Handshake.SubscribeEndToEnd`.
- Packets.AppUnsubscribes: the same as `Handshake.UnsubscribeEndToEnd`.
- Login.ConnectArrives: a CONNECT that fits the buffer.
- EndToEnd.FanoutSlots: a string table none of whose counters stands at zero.
- EndToEnd.ForwardEndToEnd: the same conditions on the topic as `LocalPublishEndToEnd`.
- EndToEnd.LocalPublishEndToEnd: assumes the topic is non-empty, as section 4.7.3 of MQTT 3.1.1 demands, at most 255 bytes, NUL-free and not strictly extended by a stored string. An empty topic matches the dead index 0. `EndToEnd.PublishedTopicIsText` gives the exact condition for the topic in the packet.
- Handshake.SubscribeEndToEnd: the topics are NUL-free, at most 255 bytes, strictly extended by no stored string and by no earlier one of themselves, and there is room for the new ones.
- Handshake.UnsubscribeEndToEnd: the topics are NUL-free, at most 255 bytes and strictly extended by no stored string.
- Handshake.ResubscribeRoundTrip: the topics are NUL-free, strictly extended by no string of the peer and by no earlier one of themselves, and the peer's table has room for those it does not hold.
- BrokerBooks.RunSound: runs in which an index has at most 254 references before a step, so that a temporary handle cannot wrap the 8-bit counter. A publication or topic list past 4093 body bytes, which makes the source write outside a buffer, leaves the message alone here.
- BrokerBooks.ProcessBooks: the same bound on references.
- BrokerInv.WalkKeeps: the same bound on the references of others.
- BrokerInv.ReleasedBooks: the same bound on the references of others.
- MqttBrokers.TornDownBooks: the same bound.
- HttpdSess.HttpdData.SessNew: the code of a failed `open_fn`, which the source returns, is `EspFail` whatever it was.
- HttpdSess.HttpdData.SessDelete: contexts are logged as freed; which free function is called for each is not.
- HttpdSess.HttpdData.SessSetCtx: the branch taken inside the handler of the same session is left out, its clean-up being in `httpd_req_delete`, which is not part of this model.
- MqttMessages.MqttMessage.EncodeLength: a message shorter than its three header bytes is excluded; the source then writes outside the buffer.
- The broker's upstream connection: the `broker` pointer is null, so its states and its several sends do not occur.
- `MqttClient::loop` as a whole: each byte, a failed read, a time-out and a new connection are separate events of a run.
- A write is taken whole or refused; `send_fn` taking part of it is not modelled.
- Keep-alive times and `millis()`: expiry may come at any moment and closes the client.
- Callbacks: a call is logged with its topic and payload; a callback that calls back into the library is not modelled.
- The comparison of credentials: an arbitrary predicate on the bytes received.
- `sendTopic` and the client side of a remote broker beyond CONNECT, CONNACK and resubscription.
- Will messages, retained messages and delivery above QoS 0, which the source does not support.
- `httpd_queue_work` is a stub, so a session chosen by the purge is only marked.
- `httpd_sess_process`, `httpd_req_new`, pending and peeked data, sockets, TLS, threads, allocation failure, server start and stop.
- `vheader` of a new decoder: the source leaves it unset; theorems hold for every value, the constructor starts it at 0.
- The counter of active sessions as a machine integer: it is unbounded here.
- Names of clients are numbers that stand for addresses; reusing the address of a deleted object is not modelled.
- `simplebroker.ino`, `app.cpp`, `pages.h`, stored settings and the debug dumps: glue that adds no further state.
