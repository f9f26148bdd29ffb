# pinetd4 in Dafny

A model of the parts of pinetd4 that hold protocol state or codecs, with proofs of what they keep.
`dafny verify dfyconfig.toml` checks everything; no file needs anything but the others beside it.

Most parts come in two layers. Functions on values say what one step does; classes with the source's
fields and loops are proved to take exactly that step; lemmas then speak about the functions, over all
inputs and all runs. Octets are `seq<byte>`, and a `QDataStream` is the sequence still to be read or
already written.

| files | what they model |
|---|---|
| Bytes, Framing, Streams | integers as `QDataStream` lays them out; the stream itself; cutting a growing buffer into units, proved independent of the reads once for all connections |
| ClientTcp | the write buffer of a connection |
| PubSub, PubSubSafety, PubSubFrames, PubSubLimit, PubSubMasters, PubSubRelay, PubSubDaemon | the ps daemon: reference counts, masters, framing, and a relay behind a master |
| AmqpField, AmqpFieldProofs, AmqpStream, AmqpWire | the tagged field, array and table codec (section 4.2.5.5 of the AMQP 0-9-1 specification) |
| AmqpFrame, AmqpFrames, AmqpExchange, AmqpQueue, AmqpDelivery | frames, content headers, publishing, reassembly, and one end to the other |
| AmqpChannel | declarations and bindings asked for before the channel is open; channel numbers |
| BitcoinTx, BitcoinObjects | bitcoin's variable-length integers, transactions with their cached serialisation, blocks |
| BitcoinPacket, BitcoinStore, BitcoinInventory, BitcoinConnector, BitcoinDialogue | the connector: checksummed packets, the block forest, inventories and downloads, the locator |
| CoreModules, Core | loading modules by missing symbol; reconciling daemons and ports with the configuration |
| RConnect | the router that replaces a target by the sender |
| Irc | the line splitter, the IRC tokenizer and printer |
| Layouts | where every field of a message lies |

What is not in the program is a parameter of the model: the hash function of bitcoin, the dynamic linker,
the order in which a hash iterates, how much a socket accepts, which slots a program connects and what it
asks for in them, when objects are destroyed.

Where the code differs from what is said about it, the model follows the code:

- `ModPSClient::handlePacket` says that the packet's length is guaranteed. It is not: a packet of two
  octets has no type, which then reads as zero and closes the connection; a short subscription names a
  shorter channel.
- `ModPS::pushPacket` compares 17 with the length of the whole packet, `protocol.md` with the length behind
  the length field, so packets with channels of 14 or 15 octets pass.
- The AMQP flag bits of content-encoding and message-id are exchanged with respect to the specification.
  The proofs are about the two ends of this code agreeing with each other.
- A full body part is `FRAME_MAX`-7 octets, and its frame one octet longer than `FRAME_MAX`
  (`AmqpExchange.BodyFramesFitIff`).
- An empty message is never signalled, stays in the queue and silences all that follow
  (`AmqpDelivery.EmptySilences`).
- `openOk` emits opened() before the waiting bindings go out (`AmqpChannel.BindingsStayInOrderIff`).
- A lost connection starts the channel counter again (`AmqpChannel.AutomaticIsNewAfterLossIff`).
- `writeInt` sends 0xffff and 0xffffffff in the next longer form; this is the canonical form here.
- A transaction made from octets and one parsed from a stream treat `uncache` differently
  (`BitcoinObjects.DataParsedNeverChangesIff`).
- The length field of a bitcoin packet is added to 24 in 32 bits, so that what a wrapping length does may
  depend on the reads (`BitcoinPacket.ReadsAgreeIff`).
- Buffers of a ps client are dropped above 100 kB although one read may bring 10 MB of complete packets
  (`PubSubFrames.DropsIff`).
- The router returns after a frame for an unknown target, whatever is still buffered
  (`RConnect.FramesLeftBehindIff`).
- An IRC line that is only a prefix leaves an empty command list (`Irc.NoCommandIff`).

## Model

| member | source | states |
|---|---|---|
| Framing.ParseAppend | mod/daemon/ps/ModPSClient.cpp:65-82 | cutting s + t at once is cutting s and then what it leaves together with t, for any decision that more input cannot change |
| Framing.ChunkIndependent | mod/daemon/ps/ModPSClient.cpp:65-82 | any way of cutting an input into reads yields the units, the rest and the closing point of the whole-stream parse |
| Framing.ParseConserves | mod/daemon/ps/ModPSClient.cpp:72-81 | while the connection is open, units in order followed by the buffer are the input, and the buffer holds no further unit |
| Framing.ParseUnits | mod/daemon/ps/ModPS.cpp:99-106 | units written back to back are cut apart into the same units |
| ClientTcp.Connection.Write | mod/core/ClientTcp.cpp:39-61 | the new output state for data accepted in whole, in part or not at all, and for the 1 MB limit |
| ClientTcp.Connection.Flush | mod/core/ClientTcp.cpp:63-77 | the new output state after the socket took part of the waiting data |
| ClientTcp.OutputIsFifo | mod/core/ClientTcp.cpp:39-77 | in every run of writes and flushes the accepted octets are a prefix of those asked for, and until the link is dropped the rest is waiting in order |
| ClientTcp.DroppedWhen | mod/core/ClientTcp.cpp:39-77 | a call drops the link if and only if the socket fails or the data does not fit behind what waits |
| PubSubSafety.RunsAreSafe | mod/daemon/ps/ModPS.cpp:15-212 | in every state of every run (connect, read, destroy, reload, master events, datagrams) the whole invariant holds |
| PubSubSafety.RefcountsAgree | mod/daemon/ps/ModPS.cpp:187-212 | channel_refcount[c] is the number of clients whose set holds c; the key is there iff that number is positive |
| PubSubSafety.NeverCrashes | mod/daemon/ps/ModPS.cpp:200-212 | neither the abort in channelDelRef nor a write through a NULL master happens in any run |
| PubSubSafety.ReleaseKeeps | mod/daemon/ps/ModPSClient.cpp:10-14 | at every point inside the destructor loop the counts agree with what is still to be released |
| PubSubSafety.UpstreamReplay | mod/daemon/ps/ModPS.cpp:109-143 | replaying everything written to a connected master, before and after the resubscription burst, gives exactly the counted channels |
| PubSubSafety.LinkUpKeeps | mod/daemon/ps/ModPS.cpp:109-117 | the resubscription burst, in any hash order, makes the log agree with the counts again |
| PubSubSafety.CheckMastersKeeps | mod/daemon/ps/ModPS.cpp:55-91 | checkMasters leaves no NULL entry and keeps every link whose log agrees |
| PubSubMasters.LinksAfterCheck | mod/daemon/ps/ModPS.cpp:55-91 | every link after checkMasters: dialled afresh if it has no socket, was silent too long or is not connected, and can be dialled; left unconnected if it cannot; left alone while it is being dialled; sent a ping if it is connected |
| PubSubMasters.AliveIff | mod/daemon/ps/ModPS.cpp:15-117 | which steps leave a link up or dialled, and which leave it up, in terms of the link before: a check revives every master that can be dialled, acceptance brings it up, loss, a reload without it and a check that finds it silent end it, and nothing else matters |
| PubSubMasters.MastersAreKeptUp | mod/daemon/ps/ModPS.cpp:15-117 | so in every run the events alone tell which masters are in the table, which are up or dialled, and which are up |
| PubSubMasters.DialledMastersStayUp | mod/daemon/ps/ModPS.cpp:55-91 | in every run no master that can be dialled is left unconnected after a check, nor later until one of those ends it |
| PubSubMasters.CheckStartsLink | mod/daemon/ps/ModPS.cpp:70-84 | a check that dials a master, and the master accepting, make the pair of daemons that the relay results start from |
| PubSub.PacketClosesIff | mod/daemon/ps/ModPSClient.cpp:21-56 | a packet closes its client iff it is a data packet or a refused subscription, and then does nothing else; only a ping is written back; other clients notice nothing |
| PubSubFrames.LeftoverBound | mod/daemon/ps/ModPSClient.cpp:65-82 | what handleBuffer leaves is an incomplete packet and at most 65536 octets |
| PubSubFrames.NeverOverflows | mod/daemon/ps/ModPSClient.cpp:65-73 | a read of at most 36864 octets never reaches the 100 kB drop |
| PubSubFrames.LongerReadMayOverflow | mod/daemon/ps/ModPSClient.cpp:65-73 | the bound is exact: behind an incomplete packet of the largest size every longer read does |
| PubSubFrames.SafeReadsFit | mod/daemon/ps/ModPSClient.cpp:65-73 | so reads of at most 36864 octets always fit |
| PubSubFrames.DropsIff | mod/daemon/ps/ModPSClient.cpp:65-73 | the drop fires iff some read does not fit behind what the reads before it leave, a condition on octets and reads alone |
| PubSubFrames.OverflowDrops | mod/daemon/ps/ModPSClient.cpp:65-73 | the drop empties the buffer and closes the client, and does nothing else |
| PubSubFrames.ReadsAreWholeStream | mod/daemon/ps/ModPSClient.cpp:65-82 | as long as every read fits, the daemon ends where handling the packets of the whole stream takes it |
| PubSubFrames.DrainAppend | mod/daemon/ps/ModPS.cpp:93-107 | the same for the loop over a client buffer: draining in two parts is draining at once |
| PubSubFrames.PingIsEchoed | mod/daemon/ps/ModPS.cpp:85-89 | a relay's ping is one packet, is sent back unchanged by a master, and coming back changes nothing |
| PubSubRelay.NetRunsAreSafe | mod/daemon/ps/ModPS.cpp:93-212 | for a master and a relay joined by FIFO links, the invariant of the pair holds in every run |
| PubSubRelay.DrainedLinkAgrees | mod/daemon/ps/ModPS.cpp:109-143 | once the link is drained, the relay's subscriptions at the master are exactly the channels its own clients hold |
| PubSubRelay.PushedIff | mod/daemon/ps/ModPS.cpp:145-174 | any octets pushed, also as a datagram: a client gets what the length field counts iff it is all there, at least 17 octets, a data packet, and on a channel the client holds; nothing else changes |
| PubSubRelay.PushDelivers | mod/daemon/ps/ModPS.cpp:145-174 | pushed data packets are written to each client exactly when it holds their channel, once each and in order |
| PubSubRelay.RelayDelivers | mod/daemon/ps/ModPS.cpp:93-174 | end to end: packets pushed at the master reach each client of the relay exactly when it holds their channel, once, in order, for any reads |
| PubSubLimit.HeldWasAllowed | mod/daemon/ps/ModPSClient.cpp:46-56 | in every run, under any reloads, a client subscribed to each channel it holds at one step, has held it since, and the limit in force at that step allowed it |
| PubSubLimit.LimitIsRespected | mod/daemon/ps/ModPSClient.cpp:46-56 | while the configured limit stays the same, in every run every client holds only channels that it allows |
| PubSubDaemon.ModPSClient.ChannelPacket | mod/daemon/ps/ModPSClient.cpp:16-19 | writes the packet iff the client holds its channel |
| PubSubDaemon.ModPSClient.HandlePacket | mod/daemon/ps/ModPSClient.cpp:21-44 | the step that a packet of each type takes, on the client and its parent |
| PubSubDaemon.ModPSClient.HandleSubscribe | mod/daemon/ps/ModPSClient.cpp:46-56 | the set, the counts and the upstream logs after a subscription, also a repeated or refused one |
| PubSubDaemon.ModPSClient.HandleUnsubscribe | mod/daemon/ps/ModPSClient.cpp:58-63 | the same for an unsubscription |
| PubSubDaemon.ModPSClient.HandleBuffer | mod/daemon/ps/ModPSClient.cpp:65-82 | one read is the step on values, with the loop, the drop at 100 kB and the rest |
| PubSubDaemon.ModPSClient.Destroy | mod/daemon/ps/ModPSClient.cpp:10-14 | releases every held channel, in some order, and disappears |
| PubSubDaemon.ModPS.WriteToMasters | mod/daemon/ps/ModPS.cpp:125-143 | every master's log gets the packet; a NULL entry counts as a crash |
| PubSubDaemon.ModPS.ChannelAddRef | mod/daemon/ps/ModPS.cpp:187-198 | counts up, and subscribes upstream on 0 to 1 |
| PubSubDaemon.ModPS.ChannelDelRef | mod/daemon/ps/ModPS.cpp:200-212 | counts down, unsubscribes upstream on 1 to 0, crashes on an unknown key |
| PubSubDaemon.ModPS.IncomingTcp | mod/daemon/ps/ModPS.cpp:176-180 | a new client holds nothing |
| PubSubDaemon.ModPS.PushPacket | mod/daemon/ps/ModPS.cpp:145-174 | drops what is too short, cuts what is too long, relays data packets of counted channels to exactly the holders |
| PubSubDaemon.ModPS.ReadFromMaster | mod/daemon/ps/ModPS.cpp:93-107 | pushes every complete packet of the socket |
| PubSubDaemon.ModPS.MasterConnected | mod/daemon/ps/ModPS.cpp:109-117 | writes one subscription for every counted channel, in some order |
| PubSubDaemon.ModPS.CheckMaster | mod/daemon/ps/ModPS.cpp:59-89 | the new state of one link, step by step |
| PubSubDaemon.ModPS.CheckMasters | mod/daemon/ps/ModPS.cpp:55-91 | the new state of every link |
| PubSubDaemon.ModPS.UpdateMasters | mod/daemon/ps/ModPS.cpp:30-51 | the table's keys become the configured names, and kept entries keep their socket |
| PubSubDaemon.ModPS.Reload | mod/daemon/ps/ModPS.cpp:15-53 | limit, master set and links after a reload |
| AmqpFieldProofs.PayloadRoundTrip | mod/ext/qamqp/amqp_frame.cpp:149-332 | every value of the domain, nested in any way and written in any hash order, is read back, and the rest of the stream is left |
| AmqpFieldProofs.FieldRoundTrip | mod/ext/qamqp/amqp_frame.cpp:449-510 | the same for a value behind the tag that writeField chooses |
| AmqpFieldProofs.ItemsRoundTrip | mod/ext/qamqp/amqp_frame.cpp:260-276 | the same for an array |
| AmqpFieldProofs.TableRoundTrip | mod/ext/qamqp/amqp_frame.cpp:296-332 | deserialize(serialize(t) ++ rest) gives t and leaves rest |
| AmqpFieldProofs.ScalarRoundTripIff | mod/ext/qamqp/amqp_frame.cpp:449-510 | for the kinds that do not nest the domain is exact: Int never comes back, UInt only from 0xffffff80, a String iff it is Latin-1 |
| AmqpFieldProofs.CarriedIff | mod/ext/qamqp/amqp_frame.cpp:449-510 | the domain, kind by kind: booleans, 64-bit integers, times, Latin-1 strings, the last 128 unsigned 32-bit integers, and lists and tables of such values under keys of at most 127 Latin-1 characters |
| AmqpWire.FieldIsRead | mod/ext/qamqp/amqp_frame.cpp:149-312 | whatever a peer writes, with any of the tags and nested in any way, is read as what it stands for, also what this code never writes; octets under t and B are read as signed; in a table the last entry of a key counts |
| AmqpWire.OtherTagsReadNothing | mod/ext/qamqp/amqp_frame.cpp:286-292 | any other tag reads nothing |
| AmqpWire.BrokenNumbers | mod/ext/qamqp/amqp_frame.cpp:149-241 | a number that the input breaks off reads as zero and leaves nothing |
| AmqpWire.BrokenLengths | mod/ext/qamqp/amqp_frame.cpp:242-312 | a string that the input breaks off keeps its length and ends in zeros, a table is empty; a negative length reads nothing behind it |
| AmqpFieldProofs.ShortRoundTripIff | mod/ext/qamqp/amqp_frame.cpp:353-448 | a short string comes back iff it is Latin-1 and has at most 127 code units |
| AmqpStream.ReadField | mod/ext/qamqp/amqp_frame.cpp:149-294 | what every tag reads, on every input; terminates on every input |
| AmqpStream.ReadItems | mod/ext/qamqp/amqp_frame.cpp:260-276 | the array loop, also for counts larger than the input |
| AmqpStream.Deserialize | mod/ext/qamqp/amqp_frame.cpp:296-312 | the table loop: keys in order of arrival, later ones replacing earlier ones |
| AmqpStream.WriteFieldAs | mod/ext/qamqp/amqp_frame.cpp:353-448 | appends an encoding of the value under the given tag, whenever less than 2 GB are appended |
| AmqpStream.WriteField | mod/ext/qamqp/amqp_frame.cpp:449-510 | the same under the tag that its kind selects |
| AmqpStream.WriteItems | mod/ext/qamqp/amqp_frame.cpp:414-447 | appends count and elements one behind the other, under the same condition |
| AmqpStream.Serialize | mod/ext/qamqp/amqp_frame.cpp:314-332 | appends a table encoding, whatever order the hash has, under the same condition |
| AmqpFrame.HeaderRoundTrip | mod/ext/qamqp/amqp_frame.cpp:534-668 | for every subset of the fourteen properties with values in range, readPayload returns the same properties, class and body size |
| AmqpWire.HeaderOnWire | mod/ext/qamqp/amqp_frame.cpp:534-593 | a header with all fourteen properties, octet for octet: class, weight, size, flag word 0xfffc, and the properties in the order of the specification |
| AmqpWire.FlagOf | include/ext/qamqp/amqp_frame.h:8-21 | which bit of the flag word stands for which property |
| AmqpFrame.FrameFields | mod/ext/qamqp/amqp_frame.cpp:39-82 | channel, type and size field of a frame whose size field counts its payload read back, and the payload is behind them |
| AmqpFrames.MethodFrame.Size | mod/ext/qamqp/amqp_frame.cpp:114-117 | class, id and arguments: as many octets as writePayload writes |
| AmqpFrames.MethodFrame.WritePayload | mod/ext/qamqp/amqp_frame.cpp:138-143 | the payload written |
| AmqpFrames.MethodFrame.ToStream | mod/ext/qamqp/amqp_frame.cpp:77-82 | size() before writePayload() makes a frame whose size field counts its payload |
| AmqpFrames.ContentBody.Size | mod/ext/qamqp/amqp_frame.cpp:705-708 | the size of the body |
| AmqpFrames.ContentBody.WritePayload | mod/ext/qamqp/amqp_frame.cpp:694-697 | the body |
| AmqpFrames.ContentBody.ToStream | mod/ext/qamqp/amqp_frame.cpp:77-82 | a frame whose size field counts the body |
| AmqpFrames.HeartbeatFrame.Size | mod/ext/qamqp/amqp_frame.cpp:34-37 | zero, as in the base class |
| AmqpFrames.HeartbeatFrame.WritePayload | mod/ext/qamqp/amqp_frame.cpp:715-715 | nothing |
| AmqpFrames.HeartbeatFrame.ToStream | mod/ext/qamqp/amqp_frame.cpp:77-82 | a frame whose size field counts its empty payload |
| AmqpFrames.HeartbeatRoundTrip | mod/ext/qamqp/amqp_frame.cpp:712-715 | a heartbeat reads back |
| AmqpFrame.FrameIsUnit | mod/ext/qamqp/amqp_network.cpp:94-107 | whatever toStream writes is one frame to readyRead |
| AmqpFrame.MethodRoundTrip | mod/ext/qamqp/amqp_frame.cpp:87-143 | class, id and arguments of a method frame read back |
| AmqpFrame.HeaderFrameRoundTrip | mod/ext/qamqp/amqp_frame.cpp:514-668 | a content header frame reads back |
| AmqpFrame.BodyRoundTrip | mod/ext/qamqp/amqp_frame.cpp:676-708 | a body frame reads back |
| AmqpFrames.Content.SetProperties | mod/ext/qamqp/amqp_exchange.cpp:247-252 | the caller's properties replace the defaults |
| AmqpFrames.Content.PropertyFlags | mod/ext/qamqp/amqp_frame.cpp:534-593 | the flag word has exactly the bits of the properties present |
| AmqpFrames.Content.WriteProperties | mod/ext/qamqp/amqp_frame.cpp:534-593 | the property list that size() builds encodes exactly the properties present, in slot order, whenever it stays below 2 GB |
| AmqpFrames.Content.Size | mod/ext/qamqp/amqp_frame.cpp:534-593 | the size announced is the length of the payload built, which encodes the header whenever it stays below 2 GB |
| AmqpFrames.Content.ToStream | mod/ext/qamqp/amqp_frame.cpp:77-85 | the octets appended are one frame whose size field counts its payload, and the payload encodes the header whenever it stays below 2 GB |
| AmqpExchange.PartitionParts | mod/ext/qamqp/amqp_exchange.cpp:257-265 | the parts are never empty, never longer than FRAME_MAX-7, and together the message |
| AmqpExchange.Exchange.Publish | mod/ext/qamqp/amqp_exchange.cpp:224-267 | the octets appended are the method frame, the header frame and one body frame for each part; the header payload encodes message size and properties whenever it stays below 2 GB |
| AmqpExchange.PublishedPropertiesAre | mod/ext/qamqp/amqp_exchange.cpp:239-252 | the properties of a published message are the ones the caller passed, and else the given content type, encoding utf-8, the given header table and message id 0; there are no others |
| AmqpExchange.Exchange.SendPublish | mod/ext/qamqp/amqp_exchange.cpp:226-237 | the method frame with exchange and key |
| AmqpExchange.Exchange.SendBody | mod/ext/qamqp/amqp_exchange.cpp:257-265 | the fragmentation loop writes exactly the parts |
| AmqpExchange.BodyFramesFitIff | mod/ext/qamqp/amqp_exchange.cpp:257-265 | every body frame fits FRAME_MAX iff the message is shorter than one full part, since a full part makes a frame one octet too long |
| AmqpQueue.Queue.QMethod | mod/ext/qamqp/amqp_queue.cpp:204-259 | consume-ok, deliver and get-ok change the queue as the functions on values say |
| AmqpQueue.Queue.QContent | mod/ext/qamqp/amqp_queue.cpp:540-557 | the header sets size and properties of the last message |
| AmqpQueue.Queue.QBody | mod/ext/qamqp/amqp_queue.cpp:559-578 | the body is appended, the size counted down, and the signal emitted for a lone complete message |
| AmqpQueue.Queue.GetMessage | mod/ext/qamqp/amqp_queue.cpp:142-145 | takes the message at the head |
| AmqpQueue.Queue.HasMessage | mod/ext/qamqp/amqp_queue.cpp:147-156 | whether the message at the head is complete |
| AmqpQueue.Network.AddHandlers | mod/ext/qamqp/amqp_network.cpp:263-276 | the new queue is the last of the handlers of its channel number, which it may share |
| AmqpQueue.Network.Dispatch | mod/ext/qamqp/amqp_network.cpp:114-157 | each frame takes every handler of its channel, and no other queue, through the step of its kind, once each |
| AmqpQueue.Network.ReadyRead | mod/ext/qamqp/amqp_network.cpp:94-165 | after a read every queue has handled every complete frame, in order, and the rest is left |
| AmqpDelivery.DeliveryArrives | mod/ext/qamqp/amqp_queue.cpp:514-578 | deliver, header and bodies add exactly the message, with one signal iff it is not empty and nothing waits |
| AmqpDelivery.SizesAddUp | mod/ext/qamqp/amqp_queue.cpp:540-578 | after the header and any number of bodies, leftSize plus the payload is the announced size |
| AmqpDelivery.OnlyOwnFrames | mod/ext/qamqp/amqp_network.cpp:121-150 | frames of other channels in between change nothing |
| AmqpDelivery.ReadsDoNotMatter | mod/ext/qamqp/amqp_network.cpp:94-165 | how the stream is cut into reads changes nothing |
| AmqpDelivery.DeliveriesArrive | mod/ext/qamqp/amqp_queue.cpp:514-578 | a consumer that dequeues in its slot gets each of many messages once, whole, in order, with one signal each |
| AmqpDelivery.PublishedMessagesArrive | mod/ext/qamqp/amqp_network.cpp:94-165 | end to end over any interleaving and any reads: payloads and properties as published, in order, one signal each |
| AmqpDelivery.PublishedIsDeliverable | mod/ext/qamqp/amqp_exchange.cpp:224-267 | the header and body frames that publish wrote, re-addressed behind a deliver frame, are such a delivery |
| AmqpDelivery.DeliveriesWait | mod/ext/qamqp/amqp_queue.cpp:142-156 | a consumer that polls finds every message, whole and in order, and hasMessage tells |
| AmqpDelivery.OnlyWholeIsOffered | mod/ext/qamqp/amqp_queue.cpp:147-156 | hasMessage says no as long as a frame of the message at the head is missing |
| AmqpDelivery.DeliverOpens | mod/ext/qamqp/amqp_queue.cpp:514-538 | a deliver frame for this consumer opens a message with its tag, exchange and key; one for another changes nothing |
| AmqpDelivery.GetOkOpens | mod/ext/qamqp/amqp_queue.cpp:440-458 | a get-ok frame opens a message with its tag, exchange and key, whoever asked |
| AmqpDelivery.ConsumeOkSets | mod/ext/qamqp/amqp_queue.cpp:501-512 | a consume-ok frame sets the tag that deliver frames are compared with; other methods change nothing |
| AmqpDelivery.PublicationsArrive | mod/ext/qamqp/amqp_exchange.cpp:224-267 | from program to program: every publication is consumed once, in order, one signal each, with the payload, exchange, key, content type, encoding, header table, message id and other properties it was published with |
| AmqpDelivery.PublishArgumentsRead | mod/ext/qamqp/amqp_exchange.cpp:226-237 | the arguments of publish read back as exchange and routing key |
| AmqpDelivery.NoneSignalled | mod/ext/qamqp/amqp_queue.cpp:559-578 | as long as a message waits, deliveries of any number join it and none is signalled |
| AmqpDelivery.EmptySilences | mod/ext/qamqp/amqp_queue.cpp:559-578 | a consumer that dequeues in its slot gets exactly the messages before the first empty one, one signal each; that one and all that follow stay unsignalled |
| AmqpDelivery.SignalledIff | mod/ext/qamqp/amqp_queue.cpp:559-578 | messageReceived is emitted iff the message is not empty and the queue was empty |
| AmqpChannel.OpeningSends | mod/ext/qamqp/amqp_queue.cpp:48-64 | opening sends the slot's requests, the waiting declaration, then the waiting bindings in order, and leaves nothing waiting |
| AmqpChannel.EventSends | mod/ext/qamqp/amqp_queue.cpp:48-72 | what every event sends: at the opening the slot's commands, the waiting declaration unless the slot made one, and the waiting bindings, under the name declared last; at the closing the slot's commands and, iff declared, the deletion; a request its own command iff the channel is open; answers nothing |
| AmqpChannel.EventLeaves | mod/ext/qamqp/amqp_queue.cpp:304-395 | what every event leaves waiting, and the name and options that count from then on |
| AmqpChannel.StatusFollows | mod/ext/qamqp/amqp_channel.cpp:290-320 | in every run the channel is open, and the queue declared, iff the last event that bears on it says so |
| AmqpChannel.NoBindingIsLost | mod/ext/qamqp/amqp_queue.cpp:373-395 | in every run each binding asked for was sent once or waits once, and an open channel has nothing waiting |
| AmqpChannel.OrderKeptIff | mod/ext/qamqp/amqp_channel.cpp:299-308 | one opening keeps the order of the requests iff the slot's bindings and the waiting ones can change places, since opened() is emitted before the flush |
| AmqpChannel.CommutesIff | mod/ext/qamqp/amqp_channel.cpp:299-308 | with no binding on both sides that is: nothing waits, or the slot binds nothing |
| AmqpChannel.BindingsStayInOrderIff | mod/ext/qamqp/amqp_queue.cpp:48-64 | over any run sent ++ delayedBindings is the requests in order iff that held at every opening so far |
| AmqpChannel.OvertakingRun | mod/ext/qamqp/amqp_channel.cpp:299-308 | a run that fails: a binding waits, the slot asks for another, and the other goes out first |
| AmqpChannel.AutomaticIsNew | mod/ext/qamqp/amqp_channel.cpp:152-159 | until the connection is lost an automatic channel number is larger than all numbers given before |
| AmqpChannel.AutomaticIsNewAfterLossIff | mod/ext/qamqp/amqp_channel.cpp:316-320 | after a loss it is so iff the counter has come up again to every number given before |
| AmqpChannel.ResetRepeats | mod/ext/qamqp/amqp_channel.cpp:316-320 | where it fails: automatic, lost, automatic gives 1 and 1 |
| AmqpChannel.NamedNumberIsGiven | mod/ext/qamqp/amqp_channel.cpp:152-159 | a channel that names its number gets it |
| AmqpChannel.AutomaticGoesByTwo | mod/ext/qamqp/amqp_channel.cpp:152-159 | automatic numbers alone are 1, 3, 5 and so on |
| AmqpChannel.Counter.Init | mod/ext/qamqp/amqp_channel.cpp:152-159 | the number given, whether the channel is to be opened, and the counter afterwards |
| AmqpChannel.Counter.Disconnected | mod/ext/qamqp/amqp_channel.cpp:316-320 | the counter starts again |
| AmqpChannel.CommandsRoundTrip | mod/ext/qamqp/amqp_queue.cpp:304-395 | what a queue has written is cut apart and read back as the commands it sent, names, options, exchanges and keys included |
| AmqpChannel.Queue.SendFrame | mod/ext/qamqp/amqp_channel.cpp:200-206 | one command goes out as its method frame |
| AmqpChannel.Queue.DeclareNow | mod/ext/qamqp/amqp_queue.cpp:304-326 | writes the declaration, or leaves it waiting |
| AmqpChannel.Queue.BindTo | mod/ext/qamqp/amqp_queue.cpp:373-395 | writes the binding, or leaves it waiting |
| AmqpChannel.Queue.Remove | mod/ext/qamqp/amqp_queue.cpp:328-352 | writes a deletion iff the queue is declared |
| AmqpChannel.Queue.OnOpenOk | mod/ext/qamqp/amqp_channel.cpp:299-308 | the step on values: open, slots, flush |
| AmqpChannel.Queue.OnCloseOk | mod/ext/qamqp/amqp_channel.cpp:290-297 | the step on values: slots, removal, closed |
| BitcoinTx.IntRoundTrip | mod/ext/bitcoin/BitcoinStream.cpp:17-62 | readInt undoes writeInt for every 64-bit integer and leaves the rest |
| BitcoinTx.IntRegeneratesIff | mod/ext/bitcoin/BitcoinStream.cpp:17-62 | re-writing an integer that was read gives the octets back iff they were complete and in writeInt's form |
| BitcoinTx.StringRoundTrip | mod/ext/bitcoin/BitcoinStream.cpp:12-15 | readString undoes writeString |
| BitcoinTx.BrokenStrings | mod/ext/bitcoin/BitcoinStream.cpp:12-15 | a length that is negative as an int reads nothing, a string that the input breaks off is what there is |
| BitcoinTx.TxRoundTrip | mod/ext/bitcoin/BitcoinTx.cpp:26-63 | parseStream(generate(tx) ++ rest) is tx and leaves rest |
| BitcoinTx.TxPrefixFree | mod/ext/bitcoin/BitcoinTx.cpp:26-63 | a stream that starts with one serialised transaction starts with no other |
| BitcoinTx.TxRegeneratesIff | mod/ext/bitcoin/BitcoinTx.cpp:26-63 | parsing and re-generating gives the octets back iff the transaction was complete and all its integers were in writeInt's form |
| BitcoinTx.TransactionsRoundTrip | mod/ext/bitcoin/BitcoinBlock.cpp:34-43 | getTransactions inverts a count followed by that many transactions |
| BitcoinObjects.ReadInt | mod/ext/bitcoin/BitcoinStream.cpp:37-62 | reads as the function on values, short input included |
| BitcoinObjects.WriteInt | mod/ext/bitcoin/BitcoinStream.cpp:17-31 | appends the chosen form |
| BitcoinObjects.ReadString | mod/ext/bitcoin/BitcoinStream.cpp:64-74 | reads a length, narrowed to a C++ int, and that many octets or what is there |
| BitcoinObjects.ReadIn | mod/ext/bitcoin/BitcoinTx.cpp:81-86 | reads an input |
| BitcoinObjects.WriteIn | mod/ext/bitcoin/BitcoinTx.cpp:88-93 | writes an input |
| BitcoinObjects.ReadOut | mod/ext/bitcoin/BitcoinTx.cpp:103-106 | reads an output |
| BitcoinObjects.WriteOut | mod/ext/bitcoin/BitcoinTx.cpp:108-111 | writes an output |
| BitcoinObjects.Transaction.FromStream | mod/ext/bitcoin/BitcoinTx.cpp:17-20 | the fields are the parse of the stream, the cache is empty |
| BitcoinObjects.Transaction.FromData | mod/ext/bitcoin/BitcoinTx.cpp:9-15 | the cache is right iff the data is one canonical transaction and nothing more |
| BitcoinObjects.Transaction.ParseStream | mod/ext/bitcoin/BitcoinTx.cpp:51-63 | the fields and the rest of the stream are the parse |
| BitcoinObjects.Transaction.GenerateTo | mod/ext/bitcoin/BitcoinTx.cpp:26-36 | appends the serialisation of the fields, or nothing for an invalid object |
| BitcoinObjects.Transaction.Generate | mod/ext/bitcoin/BitcoinTx.cpp:42-49 | answers with the cache or fills it; right whenever the cache was empty or right |
| BitcoinObjects.Transaction.Uncache | mod/ext/bitcoin/BitcoinTx.cpp:38-40 | empties the cache |
| BitcoinObjects.StreamParsedNeverChanges | mod/ext/bitcoin/BitcoinTx.cpp:38-49 | under any mix of generate and uncache a stream-parsed transaction always answers with its serialisation |
| BitcoinObjects.DataParsedNeverChangesIff | mod/ext/bitcoin/BitcoinTx.cpp:9-49 | a transaction made from octets always answers with them iff they are one canonical transaction and nothing more |
| BitcoinObjects.HeaderRoundTrip | mod/ext/bitcoin/BitcoinBlock.cpp:18-23 | the block constructor reads back every header that is laid out as bitcoin does, in 80 octets |
| BitcoinObjects.Block.constructor | mod/ext/bitcoin/BitcoinBlock.cpp:9-24 | header, hash, size and transaction part of a block |
| BitcoinObjects.Block.GetTransactions | mod/ext/bitcoin/BitcoinBlock.cpp:34-43 | the transactions are the parse of what follows the header |
| BitcoinObjects.BlockRoundTrip | mod/ext/bitcoin/BitcoinBlock.cpp:9-43 | a header followed by a transaction list is taken apart into that header and that list |
| BitcoinPacket.HandleIsParse | mod/daemon/bitcoinconnector/ModBitcoinConnectorClient.cpp:276-320 | away from lengths that wrap 32 bits, handleBuffer is the generic cutting loop |
| BitcoinPacket.ReadsDoNotMatter | mod/daemon/bitcoinconnector/ModBitcoinConnectorClient.cpp:276-320 | on an input without an unsettled wrapping length, earlier reads and later reads make up one read of it all |
| BitcoinPacket.ReadsAgreeIff | mod/daemon/bitcoinconnector/ModBitcoinConnectorClient.cpp:276-320 | on arbitrary input all ways of cutting it into reads dispatch the same packets up to the same bad magic or checksum iff no length wraps, or the one that does is the end of the input or fits no beginning of what follows |
| BitcoinPacket.NoWrapIsSettled | mod/daemon/bitcoinconnector/ModBitcoinConnectorClient.cpp:296-298 | inputs in which no length wraps are among those |
| BitcoinPacket.PacketsRoundTrip | mod/daemon/bitcoinconnector/ModBitcoinConnectorClient.cpp:331-349 | any packets with NUL-free names of at most 12 octets and a length below 2^32-24, concatenated and read in any pieces, are dispatched as that sequence |
| BitcoinPacket.BadPacketCloses | mod/daemon/bitcoinconnector/ModBitcoinConnectorClient.cpp:281-308 | behind any packets, octets without the magic, or a complete packet with a wrong checksum, close the connection; exactly the packets before are dispatched |
| BitcoinPacket.WrappingDependsOnReads | mod/daemon/bitcoinconnector/ModBitcoinConnectorClient.cpp:296-298 | a header that is accepted when it arrives alone and refused when one more octet comes with it |
| BitcoinStore.ArriveKeeps | mod/daemon/bitcoinconnector/ModBitcoinConnectorClient.cpp:117-127 | a block is stored behind its parent one higher, an orphan is not, and the store stays consistent |
| BitcoinStore.BlockArrives | mod/daemon/bitcoinconnector/ModBitcoinConnector.cpp:164-204 | an arriving block that is no orphan and not known is stored under the hash of its header at the right height, exactly its transactions become known, it alone joins the announcements and its header is handed out for it; any other changes nothing |
| BitcoinStore.TxArrives | mod/daemon/bitcoinconnector/ModBitcoinConnectorClient.cpp:146-151 | an arriving transaction becomes known and joins the announcements, unless it was known |
| BitcoinStore.FetchedIsCached | mod/daemon/bitcoinconnector/ModBitcoinConnector.cpp:65-80 | handing out a transaction puts it into the cache and changes nothing else |
| BitcoinStore.RunsAreConsistent | mod/daemon/bitcoinconnector/ModBitcoinConnector.cpp:164-204 | after any run that stores fewer than 2^32 blocks they are a forest with the right heights, and every key is the hash of what it names |
| BitcoinStore.RunsFromEmpty | mod/daemon/bitcoinconnector/ModBitcoinConnector.cpp:164-204 | in particular from an empty database |
| BitcoinStore.HeightBelowSize | mod/daemon/bitcoinconnector/ModBitcoinConnectorClient.cpp:123-123 | heights stay below the number of stored blocks, so the quint32 height does not wrap |
| BitcoinStore.InventoryIsGenuine | mod/daemon/bitcoinconnector/ModBitcoinConnector.cpp:65-95 | what is handed out for a known item hashes to its name, or is nothing for a block that left the cache |
| BitcoinInventory.InvRoundTrip | mod/daemon/bitcoinconnector/ModBitcoinConnectorClient.cpp:198-217 | an inventory list is read as the items it was written for |
| BitcoinInventory.SortedCompletely | mod/daemon/bitcoinconnector/ModBitcoinConnectorClient.cpp:212-238 | all unknown blocks are queued in order, all other unknown items requested in order, and of the blocks only the first, iff none was waiting |
| BitcoinInventory.ServedCompletely | mod/daemon/bitcoinconnector/ModBitcoinConnectorClient.cpp:167-195 | every requested item is answered in order, known ones with data that hashes to the name, the others as not found |
| BitcoinInventory.DownloadCompletes | mod/daemon/bitcoinconnector/ModBitcoinConnectorClient.cpp:129-141 | a peer that answers the requests with the blocks asked for, parents first, gets every block requested or listed stored and the list emptied |
| BitcoinInventory.AnnouncedBlocksArrive | mod/daemon/bitcoinconnector/ModBitcoinConnectorClient.cpp:117-239 | from announcement to store, whatever is being downloaded already: all announced blocks and all those under way end up stored |
| BitcoinDialogue.AnnouncementIsAnswered | mod/daemon/bitcoinconnector/ModBitcoinConnectorClient.cpp:198-239 | an inv packet: unknown blocks join the list; nothing is sent iff nothing else is unknown and there is no block to ask for; otherwise one getdata packet, for all other unknown items and for the first unknown block iff none was waiting |
| BitcoinDialogue.RequestIsAnswered | mod/daemon/bitcoinconnector/ModBitcoinConnectorClient.cpp:153-196 | a getdata packet: one tx or block packet for each known item, in order, with data that hashes to its name, and behind them, iff there are unknown items, one notfound packet that lists exactly those |
| BitcoinDialogue.BlockIsAnswered | mod/daemon/bitcoinconnector/ModBitcoinConnectorClient.cpp:117-144 | a block packet: what has arrived is dropped from the list, and one getdata packet asks for the first block on it that is not stored, if there is one |
| BitcoinDialogue.OthersAreAnswered | mod/daemon/bitcoinconnector/ModBitcoinConnectorClient.cpp:113-151 | a ping is answered with its payload, a transaction with nothing, and a packet without a handler changes nothing |
| BitcoinDialogue.PacketsDownload | mod/daemon/bitcoinconnector/ModBitcoinConnectorClient.cpp:117-239 | the download as an exchange of the packets themselves, from any requests under way: every block requested or listed ends up stored |
| BitcoinDialogue.PacketsAnnounceAndDownload | mod/daemon/bitcoinconnector/ModBitcoinConnectorClient.cpp:117-239 | the same from an inv packet on |
| BitcoinConnector.PacketsKeepForest | mod/daemon/bitcoinconnector/ModBitcoinConnectorClient.cpp:117-239 | whatever packets arrive, the store stays a consistent forest below 2^32 blocks |
| BitcoinConnector.ReadsActAsOne | mod/daemon/bitcoinconnector/ModBitcoinConnectorClient.cpp:276-320 | on settled input the reads, cut in any way and carrying buffer, store, list and answers from one to the next, end where one read of it all ends |
| BitcoinConnector.ReadsActAsPackets | mod/daemon/bitcoinconnector/ModBitcoinConnectorClient.cpp:276-320 | the octets of any packets, read so, end where the packets one by one end, with nothing left over |
| BitcoinConnector.SentActsAtPeer | mod/daemon/bitcoinconnector/ModBitcoinConnectorClient.cpp:276-349 | what one connector has written, read by another, acts there as the packets sent |
| BitcoinConnector.AnnouncementIsRead | mod/daemon/bitcoinconnector/ModBitcoinConnector.cpp:206-213 | what a peer reads out of an announcement is the queue it was made of |
| BitcoinConnector.LocatorEnds | mod/daemon/bitcoinconnector/ModBitcoinConnectorClient.cpp:92-103 | the last entry of a locator is a root iff the tip is at height 28 or lower, else it lies 28 blocks back |
| BitcoinConnector.LocatorUnique | mod/daemon/bitcoinconnector/ModBitcoinConnectorClient.cpp:92-103 | a tip has one locator |
| BitcoinConnector.Connector.StoreBlock | mod/daemon/bitcoinconnector/ModBitcoinConnector.cpp:164-204 | the store with the block's unknown transactions, its header, its cache entry and its queue entry |
| BitcoinConnector.Connector.KnowsItem | mod/daemon/bitcoinconnector/ModBitcoinConnector.cpp:97-112 | whether cache or database hold the item |
| BitcoinConnector.Connector.Inventory | mod/daemon/bitcoinconnector/ModBitcoinConnector.cpp:65-95 | what is handed out, and the cache after it |
| BitcoinConnector.Connector.GetLastBlock | mod/daemon/bitcoinconnector/ModBitcoinConnector.cpp:40-55 | a block of the greatest height, if there is any |
| BitcoinConnector.Connector.SendQueuedInventory | mod/daemon/bitcoinconnector/ModBitcoinConnector.cpp:206-213 | count and concatenated keys of the queue, which is then empty |
| BitcoinConnector.Client.SendPacket | mod/daemon/bitcoinconnector/ModBitcoinConnectorClient.cpp:331-349 | the octets written are magic, padded name, length, checksum and payload |
| BitcoinConnector.Client.HandleBuffer | mod/daemon/bitcoinconnector/ModBitcoinConnectorClient.cpp:276-320 | one read takes buffer, connection, store, list and octets written where the packets it completes take them |
| BitcoinConnector.Client.Dispatch | mod/daemon/bitcoinconnector/ModBitcoinConnectorClient.cpp:313-318 | what each packet does |
| BitcoinConnector.Client.OnInvPacket | mod/daemon/bitcoinconnector/ModBitcoinConnectorClient.cpp:198-239 | the list and the one getdata packet after an announcement |
| BitcoinConnector.Client.OnGetdataPacket | mod/daemon/bitcoinconnector/ModBitcoinConnectorClient.cpp:153-196 | the packets sent in answer to a request |
| BitcoinConnector.Client.OnBlockData | mod/daemon/bitcoinconnector/ModBitcoinConnectorClient.cpp:117-144 | the store, the list and the next request after a block |
| BitcoinConnector.Client.TakeUnknown | mod/daemon/bitcoinconnector/ModBitcoinConnectorClient.cpp:129-131 | drops what has arrived from the list and takes the next unknown block |
| BitcoinConnector.Client.StoreIfLinked | mod/daemon/bitcoinconnector/ModBitcoinConnectorClient.cpp:117-127 | the storing half of that |
| BitcoinConnector.Client.NewInventory | mod/daemon/bitcoinconnector/ModBitcoinConnectorClient.cpp:322-329 | sends count and keys as one inv packet |
| BitcoinConnector.Client.Locator | mod/daemon/bitcoinconnector/ModBitcoinConnectorClient.cpp:92-103 | tip, then the ancestors at back-distances min(h, k(k+1)/2) until the root or k = 7 |
| BitcoinConnector.Client.SendGetBlocks | mod/daemon/bitcoinconnector/ModBitcoinConnectorClient.cpp:63-111 | nothing while a download runs, the first block's hash for an empty store, else the locator |
| CoreModules.NeededIsClosed | mod/core/Core.cpp:260-317 | the dependency set of a module is closed under dependencies, hooks included |
| CoreModules.NeededIsLeast | mod/core/Core.cpp:260-317 | and is the least such set |
| CoreModules.ClosedHoldsNeeded | mod/core/Core.cpp:260-317 | a closed set of loaded modules holds everything each of them depends on |
| Core.Core.Modprobe | mod/core/Core.cpp:260-317 | terminates; the set only grows and stays closed, on failure too; fails only if something needed and not loaded cannot be loaded, exactly then if symbols.txt is accurate, and then success makes the set the old one plus all that is needed |
| Core.Core.OpenLibrary | mod/core/Core.cpp:274-300 | the retry loop ends with the library open or a module that cannot be loaded |
| Core.Core.Preload | mod/core/Core.cpp:302-312 | the hook ends with all it asked for loaded or a module that cannot be loaded |
| Core.Core.Load | mod/core/Core.cpp:274-300 | libraries whose hooks are running make no difference to the linker |
| Core.Core.PreloadModules | mod/core/Core.cpp:66-77 | each module named in the group is loaded in the end or needs one that cannot be loaded, not both if symbols.txt is accurate, and nothing else is loaded than what they need |
| Core.Core.ReloadDaemons | mod/core/Core.cpp:79-125 | afterwards there are the configured daemons that were there or could be started, no others if symbols.txt is accurate, and none without its module and an instance; the others are released; the modules are as for PreloadModules |
| Core.ReloadPorts | mod/core/Core.cpp:127-164 | afterwards there are exactly the configured ports that were open or can be opened, each with the current daemon of its name or none |
| Core.Core.ReloadConfig | mod/core/Core.cpp:63-244 | both together, from any state, in terms of the state before: in the end each module that is preloaded or that a new daemon names is loaded or needs one that cannot be loaded, not both if symbols.txt is accurate, and nothing else is loaded than what those need |
| Core.SettingsRead | mod/core/Core.cpp:137-138 | daemon and entry of a setting, with "main" for what is left out, for ports and local sockets |
| Core.PortKeysRead | mod/core/Core.cpp:147-151 | an address is a host and a port with one colon between them |
| Core.NoPortDangles | mod/core/Core.cpp:319-322 | no port is left with a daemon that is not registered any more; one without a daemon is configured for one that does not exist |
| Core.StartableAfter | mod/core/Core.cpp:66-77 | what was preloaded makes no daemon unstartable, nor startable if symbols.txt is accurate |
| Core.Port.SetTarget | mod/core/CoreTcp.cpp:14-31 | receiver and entry are the given ones |
| Core.Port.TargetDestroyed | mod/core/CoreTcp.cpp:33-36 | a destroyed receiver is forgotten, any other kept |
| Bytes.BigOrder | mod/ext/qamqp/amqp_frame.cpp:39-47 | integers of two and four octets, most significant first |
| Bytes.LittleOrder | mod/ext/bitcoin/BitcoinStream.cpp:17-74 | and least significant first |
| Layouts.FrameLayout | mod/ext/qamqp/amqp_frame.cpp:39-82 | type, channel, size, payload and end marker of a frame, position by position |
| Layouts.MethodLayout | mod/ext/qamqp/amqp_frame.cpp:138-143 | class and id in front of the arguments |
| Layouts.IntLayout | mod/ext/bitcoin/BitcoinStream.cpp:17-34 | the forms of a bitcoin integer, octet for octet |
| Layouts.TxLayout | mod/ext/bitcoin/BitcoinTx.cpp:26-111 | a transaction with one input and one output, field for field |
| Layouts.BlockHeaderLayout | mod/ext/bitcoin/BitcoinBlock.cpp:9-24 | the six fields in the 80 octets in front of a block |
| Layouts.PacketLayout | mod/daemon/bitcoinconnector/ModBitcoinConnectorClient.cpp:331-349 | magic, padded name, length, checksum and payload of a packet, position by position |
| Layouts.InventoryLayout | mod/daemon/bitcoinconnector/ModBitcoinConnectorClient.cpp:198-217 | a count, and 36 octets for each item |
| Layouts.ReplyLayout | mod/daemon/kumoircd/ModKumoIRCdClient.cpp:78-97 | a reply with a prefix and three parameters |
| RConnect.LengthsDoNotWrap | mod/daemon/rconnect/ModRConnectClient.cpp:35-51 | len + header_len stays below 2^32 |
| RConnect.WrittenFrames | mod/daemon/rconnect/ModRConnectClient.cpp:25-51 | a frame written with two or four octets of length is cut off whole, and forwarding it makes the frame the sender would have written with its own id |
| RConnect.ForwardIsUnit | mod/daemon/rconnect/ModRConnectClient.cpp:62-65 | a forwarded frame is one frame again, from the sender, with the same length field and data |
| RConnect.RouteConserves | mod/daemon/rconnect/ModRConnectClient.cpp:28-66 | frames handled followed by the buffer are the input |
| RConnect.RouteIsPrefix | mod/daemon/rconnect/ModRConnectClient.cpp:28-66 | frames handled are the first frames of the whole parse, and all of them iff every target but the last is known |
| RConnect.FramesLeftBehindIff | mod/daemon/rconnect/ModRConnectClient.cpp:53-59 | a complete frame stays buffered iff some frame before the last has an unknown target |
| RConnect.DeliveredInOrder | mod/daemon/rconnect/ModRConnectClient.cpp:8-67 | in every run each client reads back exactly the frames addressed to it since it connected, in order, with their senders |
| RConnect.Registry.Add | mod/daemon/rconnect/ModRConnectClient.cpp:8-18 | a new client is registered and gets its id |
| RConnect.Registry.Remove | mod/daemon/rconnect/ModRConnectClient.cpp:20-22 | a destroyed client is not registered any more |
| RConnect.Client.HandleBuffer | mod/daemon/rconnect/ModRConnectClient.cpp:24-67 | the buffer and every client's output after one read |
| Irc.LinesDoNotDependOnReads | mod/ext/tcpline/ClientTcpLine.cpp:7-32 | lines delivered and the 4096 cutoff do not depend on the reads |
| Irc.ClosedIff | mod/ext/tcpline/ClientTcpLine.cpp:8-23 | the connection is closed iff the input has more than 4096 octets in a row without a newline |
| Irc.LineIsTrimmed | mod/ext/tcpline/ClientTcpLine.cpp:24-30 | a line is handed on without the white space around it |
| Irc.RepliesRoundTrip | mod/daemon/kumoircd/ModKumoIRCdClient.cpp:78-97 | well-formed replies, cut in any way, come back through splitter and tokenizer as the same prefixes and parameters |
| Irc.PrintedIsTokenized | mod/daemon/kumoircd/ModKumoIRCdClient.cpp:49-97 | the tokenizer undoes the printer |
| Irc.TokenizePrintTokenize | mod/daemon/kumoircd/ModKumoIRCdClient.cpp:49-97 | printing what any line was tokenized into and tokenizing again changes nothing once there is a parameter |
| Irc.WordsHaveShape | mod/daemon/kumoircd/ModKumoIRCdClient.cpp:54-70 | all words but the last are non-empty, without space and without leading colon |
| Irc.NoCommandIff | mod/daemon/kumoircd/ModKumoIRCdClient.cpp:71-75 | a line leaves no command iff it is a colon and no space follows |
| Irc.LineClient.HandleBuffer | mod/ext/tcpline/ClientTcpLine.cpp:7-32 | one read is one step of the generic cutting loop, and handleLine got exactly the trimmed lines |
| Irc.SplitWords | mod/daemon/kumoircd/ModKumoIRCdClient.cpp:51-70 | the loop with its positions computes the words |
| Irc.HandleLine | mod/daemon/kumoircd/ModKumoIRCdClient.cpp:49-76 | prefix and parameters of a line |
| Irc.SendReply | mod/daemon/kumoircd/ModKumoIRCdClient.cpp:78-97 | the octets of a reply |

## Left out

- Sockets, timers, threads, signal delivery and dlopen itself: they are steps, logs and oracles.
- AmqpStream.WriteField: does not model doubles and byte arrays, which it excludes by its precondition; floats and doubles are read as the 64 bits they occupy.
- AmqpExchange.Exchange.Publish: takes no double or byte array among its headers, for the same reason.
- AmqpStream.ReadField: fills the part of a string that is missing at the end of the input with zeros, where the buffer of the source is not initialised, and keeps the 64 bits of a float where the source narrows them.
- AmqpWire.BrokenLengths: promises those zeros, and only as far as that.
- AmqpStream.WriteFieldAs: reports through its result that a nested buffer passed 2 GB, where Qt gives up; that does not happen as long as less than 2 GB are appended, and what is appended then is not described.
- AmqpFrames.Content.WriteProperties: is one loop over a table where the source has fourteen ifs.
- AmqpQueue.Network.Dispatch: has only queues among the handlers, and one list for the three kinds of frames, which createQueue keeps alike; what an exchange makes of a method frame is left out.
- AmqpQueue.Network.AddHandlers: is called with a queue that is not registered yet, as createQueue does.
- AmqpQueue.Queue.QMethod: keeps no state for the replies of the queue class and for get-empty; what they do to name and declaration is in AmqpChannel.
- AMQP login, SSL, URL parsing, reconnecting, flow control, unbind, purge, consume and ack requests, and the deferred declaration of an exchange.
- PubSubDaemon.ModPS.CheckMasters: is told which masters are stale and which can be dialled, where the source compares time stamps and looks at the address; so is PubSubDaemon.ModPS.CheckMaster.
- PubSub: a client that is closing may still be read from.
- PubSubRelay.RelayDelivers: assumes no subscribe_limit, well-formed subscriptions of 16 octets and links within the 1 MB buffer, whose FIFO order is ClientTcp.OutputIsFifo.
- BitcoinStore.RunsAreConsistent: assumes that no block hashes to 32 zeros, and fewer than 2^32 blocks; the database is a map.
- BitcoinInventory.ParseInv: multiplies the count by 36 exactly, where the overflow of a 64-bit signed product is undefined.
- BitcoinInventory.DownloadCompletes: has a peer that answers all requests in their order; a block that is answered before its parent is an orphan and rejected.
- BitcoinConnector.Connector.StoreBlock: keeps no entries that relate a block to its transactions.
- SHA-256, the address packets, version and nonce handling, peers, the indexing of inputs and outputs in the database.
- Core.Core.Modprobe: assumes that dependencies have no cycle, which would recurse for ever in the source; what exactly gets loaded is promised for a symbols.txt that names the one exporter of every exported symbol.
- Core.Core.ReloadConfig: the replacement of a daemon whose module changed in the configuration is not done by the source either; listening is an oracle.
- RConnect.Registry.Add: assumes that ids are not repeated, which the source leaves to QUuid.
- Irc.RepliesRoundTrip: leaves out lines with trailing white space or of 4096 octets and more, which the splitter trims or refuses.
- IRC commands, numeric replies and the server behind them.
- The echo, chargen, broadcast, netflow, midasinput, vps, vserv and PHP modules, which are input and output only.
