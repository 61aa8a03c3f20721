# A Dafny model of easy-voice-call

easy-voice-call is a self-hosted voice chat: clients log in to a relay over UDP or TCP, send Opus or comfort-noise
packets, and play what the others send through a jitter queue with packet loss concealment. This project models the
relay and its clients, the packet format and the TCP transport, the playback pipeline, and the timed controllers, and
proves what they promise, over every run where the promise is about runs.

How the files fit together:

- `Wire.dfy` holds the packet layout on byte strings, `NetPacket.dfy` the packet object that is built in place and the
  `makePacket` of both UDP ends. `Relay.dfy`, `Clock.dfy` and `Sequences.dfy` hold
  what several parts share.
- `UdpRelay.dfy` gives the UDP server's reaction to one datagram as functions of the room. `UdpRoom.dfy` is the server's
  object graph (socket, connections, room, receive buffer), `CallClient.dfy` and `RawUdpClient.dfy` the client's; their
  method contracts equate them with those functions. `UdpNetwork.dfy` puts clients, server and a network that loses,
  repeats and reorders datagrams into one transition system with the same functions as steps; `Cascade.dfy` proves that
  its message cascades end, `UdpProgress.dfy` that clients can get connected and heard.
- `Framing.dfy` is the two-phase TCP reader, `WriteQueue.dfy` the write queue and one direction of a connection,
  `TcpClient.dfy` and `TcpRelay.dfy` the objects at the two ends and the room of two. `TcpNetwork.dfy` is the transition
  system of any number of sessions, `TcpFifo.dfy` the two-hop theorem, and `TcpProgress.dfy` that packets can get through.
- `Fade.dfy` is the exponential fade on shared segments, `Playback.dfy` what is played as a function of the order of
  appends and fetches, `DownstreamProcessor.dfy` the heap objects, which keep a ghost record of the events and are tied
  to `Playback.Play` by an invariant.
- `VoiceGate.dfy`, `PeakMeter.dfy` and `Rechunk.dfy` are the controllers, each an object beside its step function.

Three findings are stated as theorems. The 8-bit counter of the voice gate can wrap: 256 voiced frames within one second
close the gate on a voiced frame (`VoiceGate.WrappedCounterClosesGate`); `VoiceGate.OpusExactly` and
`VoiceGate.SwitchIsSilentExactly` say exactly when, and from 4 ms between frames on it cannot happen. Fading in throws on
its first sample (`Fade.FadeExponential`). `Predict` clears only half of the concealed segment
(`Fade.Predict`); the caller overwrites it with comfort noise.

Where the code and its documents differ, the code is followed: documents/technical/TediousNetworkProtocol.md lists a
LogoutResponse, which neither server sends.

Values that come from outside are arguments: the version tag and the process uptime of a packet (`Stamp`), the time of
each call, the voice decision, the encoders' and decoders' output, the iteration order of sets, the moments at which bytes
arrive, writes complete and errors happen. The base of the fade's gains is an argument too: any real r > 0 with
r^320 = 1/100, which is exp(-step) in exact arithmetic.

## Model

| member | source | states |
|---|---|---|
| Wire.KindCodes | include/NetPacket.hpp:32-44 | the payload types have the codes 0 to 10, in order |
| Wire.HeaderBytes | include/NetPacket.hpp:76-92 | which byte of the header is what: each number is stored with its lowest byte first |
| Wire.RoundTrip | include/NetPacket.hpp:76-118 | an encoded packet, alone or followed by anything, parses back to all its fields |
| Wire.Reserialise | include/NetPacket.hpp:121-153 | any accepted buffer re-serialises to its own first 20 + length bytes |
| Wire.TruncatedPacket | server/RawUdpServer.hpp:64-65 | through the 1024-byte buffer a packet comes back whole iff its payload has at most 1004 bytes, and is rejected otherwise |
| Wire.AcceptIgnoresTrailingBytes | server/RawUdpServer.cpp:13-23 | what follows a packet in a datagram does not matter |
| Wire.AcceptedIsWellFormed | server/RawUdpServer.cpp:6-25 | what is accepted is one whole packet, a prefix of the buffer, of the buffer's kind |
| Wire.Control | include/NetPacket.hpp:95-97 | a packet without payload is whole, has the given kind and serial, and survives the receive buffer |
| NetPackets.NetPacket.Init | include/NetPacket.hpp:76-92 | the six copies build exactly the header, in a buffer of the announced size |
| NetPackets.NetPacket.Blank | include/NetPacket.hpp:95-97 | the packet object without payload equals its encoding |
| NetPackets.NetPacket.WithPayload | include/NetPacket.hpp:99-118 | throws iff the payload exceeds 65535 bytes, otherwise the object equals the encoding |
| NetPackets.NetPacket.CheckHeader | include/NetPacket.hpp:121-127 | takes the announced size, keeps the header, never objects |
| NetPackets.MakePacket | server/RawUdpServer.cpp:6-25 | from a reused buffer: null iff there is no whole packet, otherwise exactly that packet and no stale byte |
| UdpRelay.Receive | server/RawUdpServer.cpp:73-85 | what reaches the handler is a whole packet of at most 1024 bytes and a prefix of the datagram |
| UdpRelay.ServeRoomMembership | server/RawUdpServer.cpp:131-135 | one datagram changes its sender's membership only: in, unless it parses as LogoutRequest |
| UdpRelay.MembershipIsLatestDatagram | server/RawUdpServer.cpp:154-167 | an endpoint is in the room iff its most recent non-empty datagram does not parse as LogoutRequest, for every history |
| UdpRelay.FanOut | server/RawUdpServer.cpp:101-124 | a text, audio or comfort-noise packet yields one copy per other endpoint in broadcast mode and one back in echo mode, byte for byte the packet; one of any other kind is passed on to nobody |
| UdpRelay.PacketFanOut | server/RawUdpServer.cpp:101-124 | the same in terms of a packet's fields: with at most 1004 bytes of payload and one of the three kinds it is fanned out, otherwise nobody gets it |
| UdpRelay.ReplyCount | server/RawUdpServer.cpp:89-142 | how many datagrams each kind of packet sets off, kind by kind |
| UdpRelay.OnlyMediaIsForwarded | server/RawUdpServer.cpp:95-140 | every reply is the forwarded text, audio or comfort-noise packet itself, or the matching answer without payload to a heartbeat or login request, to the sender, who is then in the room |
| UdpRoom.RawUdpRoom.FindPeer | server/RawUdpServer.cpp:144-152 | the scan finds the endpoint's connection, or null iff there is none |
| UdpRoom.RawUdpRoom.Insert | server/RawUdpServer.cpp:154-162 | keeps one connection per endpoint; room and datagrams sent are those of the relay functions |
| UdpRoom.RawUdpRoom.KickMeOut | server/RawUdpServer.cpp:164-167 | removes exactly that connection |
| UdpRoom.RawUdpRoom.SendToOthers | server/RawUdpServer.cpp:113-119 | whatever the iteration order, the loop sends one copy to each other endpoint and no more |
| UdpRoom.RawUdpRoom.ProcessClientMessagePayload | server/RawUdpServer.cpp:89-142 | room and datagrams sent are those of the relay functions |
| UdpRoom.ExtendsCounts | server/RawUdpServer.cpp:113-119 | in those contracts: nothing sent earlier moves, and of every datagram exactly the stated number of copies is added |
| UdpRoom.RawUdpConnection.OnReceived | server/RawUdpServer.cpp:43-50 | a malformed datagram sends nothing and removes nobody; a packet is processed |
| UdpRoom.RawUdpConnection.Send | server/RawUdpServer.cpp:52-65 | one datagram with the packet's bytes to the connection's endpoint |
| UdpRoom.RawUdpServer.OnReceive | server/RawUdpServer.cpp:73-86 | a receive error or an empty datagram changes nothing; otherwise the relay functions apply to the datagram cut to 1024 bytes |
| CallClient.Worker.OnReceived | client_essential/Worker.cpp:182-203 | a login response sets the flag, a heartbeat request is answered, audio goes to playback, nothing else happens |
| CallClient.Worker.Login | client_essential/Worker.cpp:228-245 | LoginRequest goes out first; reported Connected iff a LoginResponse arrived before the last look at the flag |
| CallClient.AdmittedByAnyResponse | client_essential/Worker.cpp:189-191 | any LoginResponse in any batch that arrives in time will do, and nothing else does |
| CallClient.OpeningIsLoginAndAnswers | client_essential/Worker.cpp:228-238 | what is sent until then: LoginRequest, and after it only answers to heartbeat requests |
| CallClient.Worker.SendHeartbeat | client_essential/Worker.cpp:388-396 | sends, under the next serial, iff more than 10 s have passed since the last one or since the first call |
| CallClient.HeartbeatRate | client_essential/Worker.cpp:261-266 | over a whole sending loop: n heartbeats need n times more than 10 s, and within n times (10 s + one round) + 10 s there are n |
| CallClient.HeartbeatsAreNumbered | client_essential/Worker.cpp:393 | they are HeartBeatRequests under consecutive serials mod 2^32 |
| CallClient.Worker.SyncStart | client_essential/Worker.cpp:171-279 | LoginRequest comes first; a connected run then sends exactly the heartbeats that are due, and LogoutRequest last; a refused one sends no LogoutRequest |
| RawUdpClients.RawUdpClient.OnDatagram | client_essential/net_engine/RawUdpClient.cpp:43-62 | the handler gets exactly the packets that parse, through a reused buffer |
| UdpNetwork.StepKeepsInv | client_essential/Worker.cpp:182-270 | every step of clients, server and network keeps the invariants on datagrams in flight, login flags and the room |
| UdpNetwork.ServeKeepsInv | server/RawUdpServer.cpp:154-162 | serving a datagram keeps them: a LoginResponse in flight to a client implies membership or logout |
| UdpNetwork.ConnectedClientsAreInTheRoom | client_essential/Worker.cpp:182-270 | over every run, a client reported Connected that has not sent LogoutRequest is in the room |
| UdpNetwork.NoHeartbeatRequestReachesAClient | client_essential/Worker.cpp:184-188 | over every run, no client is sent a HeartBeatRequest, so none ever answers one |
| UdpNetwork.RoomIsHistory | server/RawUdpServer.cpp:154-167 | the room of a run is the one computed from the datagrams served, in delivery order |
| UdpNetwork.MediaIsAuthentic | server/RawUdpServer.cpp:101-124 | over every run, a text, audio or comfort-noise packet in flight or heard was sent by another endpoint (by the same one in echo mode), byte for byte when by a client |
| UdpNetwork.MediaIsNotMultiplied | server/RawUdpServer.cpp:111-120 | over every run without network repeats, a client hears such a packet at most as often as other endpoints sent it |
| UdpProgress.CanConnect | client_essential/Worker.cpp:226-247 | from any state whatever, in both modes, there is a run in which an idle client gets connected and enters the room |
| UdpProgress.VoiceGetsThrough | server/RawUdpServer.cpp:111-120 | from any state there is a run in which what a connected client says is heard by another member, byte for byte |
| UdpProgress.TwoClientsCanTalk | client_essential/Worker.cpp:171-279 | from the start, any two clients can connect and one can hear the other |
| Cascade.RepliesAreLight | server/RawUdpServer.cpp:95-140 | a datagram sets off at most one reply per endpoint, and none that asks for an answer |
| Cascade.DeliveryLightens | server/RawUdpServer.cpp:95-140 | every delivery or loss lowers the weight of what is in flight |
| Cascade.CascadesEnd | server/RawUdpServer.cpp:95-140 | from any state, in both modes, a sequence of deliveries is no longer than the weight it uses up |
| Cascade.CascadesOfRunsEnd | client_essential/Worker.cpp:182-203 | from a state of a run: at most n + 1 steps per datagram to the server and one per datagram back |
| Cascade.ServerCanReceive | server/RawUdpServer.cpp:73-86 | any datagram in flight can be received: some order of the replies exists |
| Framing.ParseConserves | server/TcpServer.hpp:66-92 | packets and unfinished rest are the bytes received, and the rest holds no whole packet |
| Framing.ParseSplit | server/TcpServer.hpp:66-92 | the packets do not depend on how the stream is split into chunks |
| Framing.ParsePackets | server/TcpServer.hpp:66-92 | a stream of encoded packets yields exactly those packets |
| Framing.ParsePrefix | client_essential/TcpClient.hpp:67-78 | any part of a stream of packets yields a prefix of them |
| Framing.ParseNeeded | server/TcpServer.hpp:68-84 | bytes up to what the outstanding read asked for complete one packet or none |
| Framing.PacketReader.Receive | server/TcpServer.hpp:66-92 | for every chunk the packets handed on and the bytes held are those of the stream; the reused buffer leaks nothing |
| Framing.PacketReader.Take | client_essential/TcpClient.hpp:194-217 | a piece of the outstanding read, in place, hands on one packet iff it completes it |
| Framing.PacketReader.OnCompleted | server/TcpServer.hpp:69-87 | header and payload completions, an empty payload included |
| WriteQueue.WriterIsSafe | server/TcpServer.hpp:52-58 | over every run: at most one write outstanding, one iff the queue is not empty (none after an error), its rest the end of the front packet, the wire a prefix of what was delivered |
| WriteQueue.FrontIsStable | server/TcpServer.hpp:97-106 | the front packet stays in place until its write completes |
| WriteQueue.NothingAfterError | server/TcpServer.hpp:107-109 | after a write error nothing further is written, whatever is delivered |
| WriteQueue.EventKeepsInv | server/TcpServer.hpp:97-111 | delivery, partial transfer, completion and error keep the queue's invariant |
| WriteQueue.PacketWriter.Push | server/TcpServer.hpp:52-58 | queues the packet and starts a write iff none was in progress |
| WriteQueue.PacketWriter.OnTransfer | server/TcpServer.hpp:99-100 | the wire grows by what the outstanding write hands over |
| WriteQueue.PacketWriter.OnWritten | server/TcpServer.hpp:100-110 | completion pops and starts the next write; an error stops for good |
| WriteQueue.ChannelIsFifo | client_essential/TcpClient.hpp:51-101 | across queue, wire and reader, what is handed on is a prefix of what was delivered |
| WriteQueue.ChannelDelivers | client_essential/TcpClient.hpp:51-101 | with the queue empty and the wire read, everything delivered has been handed on |
| WriteQueue.ReadStepKeepsChannel | client_essential/TcpClient.hpp:194-217 | a read keeps the link between the wire and the packets handed on |
| TcpClients.TcpClient.OnConnect | client_essential/TcpClient.hpp:180-191 | success marks the client connected, an error closes the socket |
| TcpClients.TcpClient.Send | client_essential/TcpClient.hpp:51-59 | a packet sent is delivered to the write queue |
| TcpClients.TcpClient.OnRead | client_essential/TcpClient.hpp:194-217 | the handler gets a copy of the packet iff it is complete |
| TcpClients.TcpClient.OnWritten | client_essential/TcpClient.hpp:85-101 | completion advances the queue, an error closes the socket |
| TcpRelay.Deliveries | server/Room.hpp:30-73 | a packet makes the room deliver at most one, whole, packet to any one session |
| TcpRelay.DeliveriesAreForwardsOrAnswers | server/Room.hpp:35-73 | a session gets the packet itself exactly when it is text, audio or comfort noise and the session is another participant (its sender in echo mode); it gets an answer exactly when it is the sender of a heartbeat or login request, and which |
| TcpRelay.Room.Join | server/Room.hpp:12-20 | refused iff two are in, otherwise the session is added |
| TcpRelay.Room.Leave | server/Room.hpp:24-26 | removes exactly that session |
| TcpRelay.Room.ProcessClientMessagePayload | server/Room.hpp:30-79 | every session, present or gone, gets exactly its deliveries, and the room changes only on LogoutRequest |
| TcpRelay.Room.DeliverToOthers | server/Room.hpp:52-58 | whatever the order, each other participant gets one copy and nobody else any |
| TcpRelay.TcpSession.OnRead | server/TcpServer.hpp:80-92 | a completed packet reaches the room, an incomplete one changes nothing but the reader |
| TcpRelay.TcpSession.OnWritten | server/TcpServer.hpp:97-111 | completion advances the queue; an error takes the session out of the room |
| TcpRelay.TcpSession.Deliver | server/TcpServer.hpp:52-58 | the packet is delivered to the session's queue |
| TcpNetwork.StepKeepsInv | server/TcpServer.hpp:36-111 | every step keeps both channels of every session in order and at most two sessions in the room |
| TcpNetwork.RoomHoldsTwo | server/Room.hpp:12-20 | over every run at most two sessions are in the room, exactly those that have joined and not left |
| TcpNetwork.RoomChanges | server/Room.hpp:12-26 | exactly when a step brings a session into the room or takes it out |
| TcpFifo.ShareGrows | server/Room.hpp:46-62 | one more packet keeps a session's share of another's media a block, reaching the end while it is in the room |
| TcpFifo.StepKeepsFollows | server/TcpServer.hpp:36-111 | every step of the system keeps that, in both modes |
| TcpFifo.TwoHopFifo | server/Room.hpp:12-73 | over every broadcast run, what reaches B of A's is one contiguous block of the media A queued, in order, byte for byte |
| TcpFifo.MediaSelects | server/Room.hpp:40-42 | the media of that theorem are exactly the text, audio and comfort-noise packets, in order |
| TcpFifo.FromSelects | server/Room.hpp:52-58 | and what counts as A's of the packets delivered to B are exactly those recorded as forwarded from A, in order |
| TcpFifo.EverythingIsHeard | server/Room.hpp:12-73 | nothing is lost: if B is in the room before A queues media and still is when all queues are empty and all bytes read, B has heard all of it |
| TcpFifo.NothingIsReflected | server/Room.hpp:52-58 | over every broadcast run, nothing of A's comes back to A |
| TcpFifo.EchoFifo | server/Room.hpp:46-49 | over every echo run, A hears a prefix of its own media and nobody else hears any of it |
| TcpProgress.PacketGetsThrough | server/TcpServer.hpp:36-111 | when nothing is on its way, there is a run in which what A queues next reaches B, byte for byte |
| TcpProgress.TwoSessionsCanTalk | server/TcpServer.hpp:36-111 | from the start, any two sessions can join and one can hear the other |
| Fade.SeamGain | client_essential/audio_engine/Fade.hpp:30-46 | the gain is exactly 1/10 at the seam of the two segments and in (1/10, 1] before it |
| Fade.GainInRange | client_essential/audio_engine/Fade.hpp:48-52 | every gain is in (0, 1] |
| Fade.PowDecreases | client_essential/audio_engine/Fade.hpp:58-62 | gains strictly decrease |
| Fade.Scale | client_essential/audio_engine/Fade.hpp:65 | a scaled sample never grows, never changes sign, never overflows |
| Fade.FadedIsProduct | client_essential/audio_engine/Fade.hpp:36-65 | every sample of a faded segment is the old one times r^n with the fraction dropped towards zero, n its place in the fade |
| Fade.SecondSegmentIsFaint | client_essential/audio_engine/Fade.hpp:30-65 | in the second segment no sample keeps more than a tenth |
| Fade.FadedIsQuieter | client_essential/audio_engine/Fade.hpp:36-65 | so for every sample of a faded frame, and the first segment keeps a tenth up to truncation |
| Fade.FadeSegment | client_essential/audio_engine/Fade.hpp:38-70 | the inner loop scales each sample once and throws only when fading in |
| Fade.FadeExponential | client_essential/audio_engine/Fade.hpp:27-73 | fading out two distinct segments never throws and scales every sample by r^n once; fading in throws before touching any |
| Fade.Predict | client_essential/audio_engine/PacketLossConcealment_ZeroInsertion.hpp:11-18 | fades both segments and clears the first half of the output, the other half staying |
| Playback.PlaybackClosedForm | client_essential/audio_engine/DownstreamProcessor.cpp:109-149 | output 0 is silence; output n is the frame of fetch n-1, bit-exact, or faded once iff fetch n >= 2 found the queue empty |
| Playback.SlotsHoldLastFrames | client_essential/audio_engine/DownstreamProcessor.cpp:135-148 | the slots hold the frame obtained last and the one played last |
| Playback.FetchObtains | client_essential/audio_engine/DownstreamProcessor.cpp:109-133 | for every fetch of every run: it obtains the first queued frame, or, iff the queue is empty, the comfort noise generated in that fetch, silence in the first two |
| Playback.ConcealedOutput | client_essential/audio_engine/DownstreamProcessor.cpp:121-149 | so what is heard one fetch after an empty queue is that comfort noise, faded once if the queue is still empty |
| Playback.DroppedExactly | client_essential/audio_engine/JitterBuffer.hpp:11-14 | an appended frame is dropped iff a hundred are queued, otherwise it joins the end |
| Playback.FramesAreConserved | client_essential/audio_engine/JitterBuffer.hpp:9-19 | frames popped and then frames queued are the accepted frames in order, and the queue holds at most 100 |
| Playback.EveryFrameIsAccountedFor | client_essential/audio_engine/JitterBuffer.hpp:11-14 | appended = popped + queued + dropped |
| Playback.FrameMovesUp | client_essential/audio_engine/JitterBuffer.hpp:15-19 | a queued frame moves up one place per fetch and is obtained when it is first |
| Playback.AcceptedFrameIsPlayed | documents/technical/TediousNetworkTestPlan.md:4-5 | a frame accepted behind q others is played at exactly the (q+2)-th later fetch, at most the 101st |
| Downstream.JitterBuffer.Append | client_essential/audio_engine/JitterBuffer.hpp:11-14 | a full queue drops the newest frame |
| Downstream.JitterBuffer.Fetch | client_essential/audio_engine/JitterBuffer.hpp:15-19 | takes the oldest frame, or none |
| Downstream.DownstreamProcessor.Append | client_essential/audio_engine/DownstreamProcessor.cpp:101-107 | on the heap: keeps segments unshared and the frames those of Play; the timestamp is a running maximum |
| Downstream.DownstreamProcessor.Decode | client_essential/audio_engine/DownstreamProcessor.cpp:11-73 | the frame is the decoder's for either audio kind, silence otherwise |
| Downstream.DownstreamProcessor.Obtain | client_essential/audio_engine/DownstreamProcessor.cpp:110-133 | the next frame, or concealment that fades exactly the two slots and yields the comfort noise |
| Downstream.DownstreamProcessor.Advance | client_essential/audio_engine/DownstreamProcessor.cpp:135-148 | slots shift and the older one is copied out |
| Downstream.DownstreamProcessor.Fetch | client_essential/audio_engine/DownstreamProcessor.cpp:109-156 | on the heap, over every interleaving: the samples played are the output that Play logs |
| VoiceGate.SerialsAreConsecutive | client_essential/Worker.cpp:365-384 | packets sent carry consecutive serials mod 2^32 across mutes, switches and empty noise frames |
| VoiceGate.CounterCountsModulo | client_essential/Worker.hpp:47 | the counter is the number of voiced frames since the last expiry, mod 256 |
| VoiceGate.OpusExactly | client_essential/Worker.cpp:341-374 | exactly when an unmuted frame leaves the gate open, in terms of the gate before it and the voiced frames of the second |
| VoiceGate.PacketExactly | client_essential/Worker.cpp:341-384 | exactly what an unmuted frame sends, over every run: its Opus packet iff every frame that ended a second with a multiple of 256 voiced frames has a voiced one after it, otherwise its comfort noise, if any |
| VoiceGate.SecondIsOverExactly | client_essential/Worker.cpp:346-361 | a frame ends the second iff it is unmuted and comes more than 1 s after the frame from which the second is measured |
| VoiceGate.FirstFrameStarts | client_essential/Worker.cpp:347 | the first unmuted frame only starts the clock |
| VoiceGate.VoicedCounts | client_essential/Worker.cpp:341-342 | voiced frames are counted one by one, muted ones not at all |
| VoiceGate.FlagDecides | client_essential/Worker.cpp:365-384 | with the gate closed an unmuted frame sends one comfort-noise packet or, when the noise is empty, nothing; with the gate open one Opus packet |
| VoiceGate.WrappedCounterClosesGate | client_essential/Worker.cpp:341-362 | a concrete run in which a voiced unmuted frame closes the gate |
| VoiceGate.SwitchIsSilentExactly | client_essential/Worker.cpp:352-358 | at a switch to noise the second was silent iff it held fewer than 256 voiced frames |
| VoiceGate.SilenceBeforeNoise | client_essential/Worker.cpp:352-358 | at such a switch at u, no voiced unmuted frame was processed in (u - 1 s, u] |
| VoiceGate.WindowIsShort | client_essential/Worker.cpp:352-362 | frames d apart put at most floor(1 s / d) + 2 voiced frames into one second |
| VoiceGate.VoiceIsAlwaysOpus | client_essential/Worker.cpp:341-375 | from 4 ms between frames on, a voiced unmuted frame is sent as Opus |
| VoiceGate.GateClosesInSilence | client_essential/Worker.cpp:352-358 | from 4 ms on, every switch to noise follows a second without voice |
| VoiceGate.SilenceClosesGate | client_essential/Worker.cpp:335-384 | after the last voiced frame at t, with gaps of at most D, from t + 2 (1 s + D) on only comfort noise is sent |
| VoiceGate.MutedFramesAreSkipped | client_essential/Worker.cpp:281-285 | muted frames leave no trace in state or packets |
| VoiceGate.MutedFrameIsSkipped | client_essential/Worker.cpp:281-285 | a muted frame anywhere in a run might as well not have come |
| VoiceGate.Gate.VadSend | client_essential/Worker.cpp:335-385 | the object does one step of the gate and sends its packets |
| PeakMeter.LevelIsReached | client_essential/audio_engine/AudioVolumeMeter_Peak.hpp:20-23 | the level is floor(10 peak / 2^15) capped at 9: reached exactly from its tenth of full scale on |
| PeakMeter.RecentIsHighest | client_essential/audio_engine/AudioVolumeMeter_Peak.hpp:25-41 | the recent maximum is the highest level since the last expiry, never below the current one |
| PeakMeter.RaisedLevelIsHeld | client_essential/audio_engine/AudioVolumeMeter_Peak.hpp:28-39 | a call that raises the recent maximum keeps every report within a second at or above its level |
| PeakMeter.RecentIsRecent | client_essential/audio_engine/AudioVolumeMeter_Peak.hpp:28-39 | the hold ends: a positive recent maximum is the level of a call at most a second old |
| PeakMeter.HoldIsOver | client_essential/audio_engine/AudioVolumeMeter_Peak.hpp:29-32 | a call more than a second after all earlier ones reports its own level |
| PeakMeter.AudioVolumeMeterPeak.Peak | client_essential/audio_engine/AudioVolumeMeter_Peak.hpp:12-19 | the scan finds the largest absolute value, 32768 for a sample of -32768 |
| PeakMeter.AudioVolumeMeterPeak.Calculate | client_essential/audio_engine/AudioVolumeMeter_Peak.hpp:11-42 | level of the block's peak and one step of the hold |
| Rechunk.ChunkConserves | client_android/app/src/main/java/com/zhang_ray/easyvoicecall/Worker.java:209-235 | blocks of exactly 320 bytes and a remainder below 320 make up the stream |
| Rechunk.ChunkSplit | client_android/app/src/main/java/com/zhang_ray/easyvoicecall/Worker.java:194-236 | the blocks do not depend on how the microphone was read |
| Rechunk.Worker.OnRead | client_android/app/src/main/java/com/zhang_ray/easyvoicecall/Worker.java:194-236 | after any read, everything captured has been sent in consecutively numbered blocks but for the remainder; the loop ends |
| Rechunk.Worker.EverythingIsSent | client_android/app/src/main/java/com/zhang_ray/easyvoicecall/Worker.java:209-235 | the blocks sent, 320 bytes each and numbered from 0, and then the buffer, less than a block, are what was captured |

## Left out

- Opus, voice detection, echo cancellation, noise suppression and comfort-noise coding: their results are arguments.
- An encoder failure, which ends the client process, and a decoder that returns other than 160 samples.
- Floating-point rounding of the fade: the gains are exact reals, and the tolerance in the code's own check is kept.
- The existence of a real r with r^320 = 1/100: the fade's theorems hold for every such r.
- Fades over other than two segments, which index past the end of the list; no caller asks for one.
- Threads and sockets: completions and deliveries are atomic steps, and a UDP send copies the packet when it is called, while the code hands over the address of its bytes.
- A server restart, source address spoofing, and the use of the login flag by a handler that outlives its run.
- One endpoint serves one client run, as each run binds a fresh port.
- System clocks that run backwards, and the several clock reads of one call, which are one time here.
- The serial-gap log message, whose condition is inverted, all other logging, and profiling.
- Checks of the header marker and version: the code makes none.
- UdpRelay.OnlyMediaIsForwarded: does not say how many replies of each kind there are, because FanOut and ReplyCount do.
- TcpRelay.Room.ProcessClientMessagePayload: does not repeat the queue invariant of each session, because EventKeepsInv derives it from the queue states that the contract gives.
- TcpRelay.TcpSession.OnWritten: an aborted session object is not destroyed; the model keeps it outside the room.
- The RMS meter, the zero-crossing rate, file and sine input, user interfaces, configuration, and the Android copies of the desktop code.
