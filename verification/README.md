# A verified model of the tunnel

The repository is a reverse tunnel: a public server (`frps.py`) and a client next to private
services (`frpc.py`) carry many user connections over one control connection, with or without a
second connection for data, in the framed protocol of `protocol.py`. This project models that
system in Dafny and proves what holds in every run of it.

| module | what it models |
|---|---|
| `Bytes`, `Uuid` | big-endian lengths, hexadecimal and decimal text; UUID text (section 4 of RFC 9562) |
| `Framing` | message types, `Protocol.encode`, `Protocol.decode` |
| `ReadLoop` | the buffer loop at the end of every stream |
| `JsonText` | a concrete codec for the tunnel's control payloads |
| `Tunnel`, `TunnelProofs`, `TunnelRouting` | server, client and FIFO links as a state machine; its invariant and what follows |
| `TunnelOpening`, `TunnelProgress` | the opening of a connection; what can still be delivered |
| `TunnelHistory` | which entries both ends hold and what they stand for, told from the events of a run |
| `TunnelHandlers` | the handlers as classes that update their fields, and both ends with their links as one object, tied to the state machine |
| `Wire`, `WireProgress` | the same system over byte streams cut into arbitrary reads; each system follows the other |
| `StcpRelay` | the server's relay between two clients |
| `Patterns`, `FtpReply` | the FTP reply rewriting, with the regular expressions it uses |
| `FtpMeaning` | what the rewriting does to replies given octet by octet |
| `FtpData`, `FtpDownload` | FTP data listeners, their buffers and books; a download from the local service to the user |
| `FtpHistory`, `FtpDelivery` | the books told from the events of a run; what can still be downloaded |
| `Stats`, `Pools` | traffic counters, connection pools, removal and the idle sweep |
| `PoolHistory` | who is in the pools, when they were last active and what was counted, told from the events of a run |
| `HttpVhost`, `HttpTunnel` | reading a request head, domain registration and routing; the request on its way to the service |
| `Cleanup`, `Relays` | ownership of registrations, the end of a control connection, and relays over whole runs |
| `BooksHistory` | sessions and registrations told from the events of a run |
| `RemoteCommands` | correlation of remote commands with their replies |
| `Lockout` | the login lockout of the web administration |

A handler that updates fields is a method of a class, proved equal to a step function on the
state (`View`); the theorems are about runs of these step functions. Events may come in any
order; one that is not enabled changes nothing.

## Assumptions

- One step is the code between two real waits (a read, an event, a sleep, opening a connection
  or a listener); `drain` does not suspend. frps.py:1409-1421 (NEW_CONN goes out before the pool
  entry is there) and frps.py:966-975, 1517-1527 (a buffer is cleared after the drain) depend on it.
- A handler that waits in the middle is one step at the end of its wait where nothing can come
  between. `handle_new_conn` waits for open_connection (frpc.py:470-474): the control loop awaits
  the handler, so the next control message waits behind it; the new id is in no pool before the
  wait is over, so neither a close nor the data loop can touch it; and the proxy table does not
  change. `Deliver` of NEW_CONN is that moment. `_create_ftp_data_listener` is not of this kind
  (a user can connect while it waits), so `FtpData` has a step for each of its parts.
- A NEW_CONN that cannot be written has put nothing on the link. If writing fails later, the
  control connection is lost and the run ends.
- Connection, session and command ids are fresh (protocol.py:181-182 and uuid4 elsewhere). In the
  tunnel, `UserConnects` ignores an id that is in use; in the relay this is `OpenedOnce`.
- A run has no data connection at all, or one that is linked before any INIT_CONN and stays.
- Registrations of one tcp, udp or ftp name do not overlap while a listener is being opened
  (frps.py:388-399).
- The clock of the lockout does not go back and is never negative.
- In the remote commands, a reply is taken to be a mapping of texts.

## Findings

Where the code falls short of what it is for, a lemma gives the exact condition or the input.

- A read turn stops at the first decode without a message, also when that decode only threw a
  stray byte or a bad frame away. Complete messages behind it stay unread until more bytes come:
  exactly when `ReadLoop.BadPieceAhead` holds (`HandsOnAllIff`); n stray bytes ahead of a frame
  delay it by n further reads (`StrayBytesDelay`). The loops read "no message" as "need more
  bytes". Nothing is lost (`ReadAllRefinesDrain`).
- A connection id that is not in canonical UUID form does not survive a DATA frame; one that is
  no UUID becomes all zeros (`DataRoundTrip`). A control payload with the key "type" comes back as
  a message of another type (`ControlRoundTrip`).
- The relay between two clients conserves both streams exactly when neither uses a data connection
  and they are different connections (`StcpRelay.ConservesIff`). The writer test at
  frps.py:1496-1507 takes a data connection for the other side.
- When a passive reply holds a three-bar group ahead of a two-bar one, the port that the FTP user
  reads is not replaced (`FtpReply.EpsvRoundTripIff`, `EpsvKeepsOldPort`); the two-bar pattern at
  frps.py:1208 is tried first and suppresses the right one.
- A 227 line rewritten for a public address of four parts that are not all numbers holds no port
  that a user could read (`FtpReply.PasvRoundTrip`, `PasvHides`); frps.py:1177-1179 only counts
  the parts.
- An FTP user who connects more than 30 seconds before the client is ready loses the download:
  frps.py:1307-1311 closes the writer but leaves it in the entry, and later DATA goes there instead
  of to the buffer. With one user per listener, all that was received arrives or is buffered
  exactly when no bytes came after that time-out (`FtpData.DownloadReachesUser`;
  `LateReadyLosesAll` is a run). The entry and its listener then stay for ever (`TimedOutStays`).
- `_remove_session` takes a live session's providers away before `cleanup_client_by_writer` looks
  for them. So a relay outlives its provider exactly when a client leaves while a provider under its
  live session has the relay open (`Relays.NeverOrphansIff`, over whole runs;
  `Relays.RelayOutlivesProvider` is a run; `Cleanup.RelaysLeftIff` says which relays are left).
- A user is counted before NEW_CONN is written, and not uncounted when that fails
  (frps.py:1397-1427, 736-768). The counted ids are those of the pools exactly when this never
  happened (`Pools.CountedIffTold`); each such user is counted for ever (`UntoldStaysCounted`).
- `on_disconnect` for an id that is not counted makes the counters disagree, unless there is no
  connection at all (`Stats.DisconnectConsistentIff`). The server never makes that call
  (`Pools.ClampsNeverBite`).
- A reply to a remote command that comes after the time-out is stored and never collected
  (`RemoteCommands.LateReplyIsKept`; frps.py:1618-1619 stores whether or not anyone waits).
- A control frame whose text is JSON but no object, or that carries the keys "self" or "msg_type",
  raises in decode and ends the reading for good (`ReadLoop.RaiseEndsReading`; protocol.py:171-176
  catches neither TypeError nor AttributeError).
- The lockout rate is tight: five failures fit in any window shorter than 300 seconds, ten in 300
  (`Lockout.FailureRate`, `Lockout.TenInThreeHundredSeconds`).

## Model

| member | source | states |
|---|---|---|
| Uuid.ParsePrint | protocol.py:114-127 | sixteen octets printed as UUID text and parsed again are the same octets |
| Uuid.PrintParse | protocol.py:168 | canonical text parsed and printed is the same text |
| Uuid.CanonicalIff | protocol.py:114-117 | an id survives parsing and printing exactly when it is lower-case hexadecimal with hyphens at 8, 13, 18 and 23 |
| Uuid.ParseIff | protocol.py:114-117 | text without hyphens is read as sixteen octets exactly when it is their 32 hexadecimal digits, in either case |
| Uuid.HyphensDoNotMatter | protocol.py:114-117 | and a hyphen makes no difference, wherever it stands |
| Uuid.PrintReads | protocol.py:168 | the two digits of every octet stand at their places in the text of an id |
| Framing.CodeOfTypeOf | protocol.py:37-62 | names and numeric codes of message types are in bijection |
| Framing.SessionCodes | protocol.py:37-46 | the codes 0x01 to 0x08 by name |
| Framing.DataCodes | protocol.py:46-52 | the codes 0x09 to 0x0E by name |
| Framing.RelayCodes | protocol.py:52-62 | the codes 0x0F to 0x17 by name, and no other code is known |
| Framing.HeaderReads | protocol.py:120-127 | the header holds the magic byte, the version, the code and zero flags, and its length field reads back |
| Framing.ControlEncodesIff | protocol.py:103-140 | a control message has a frame exactly when its type is known, its text can be written and is short enough; the frame octet by octet; each refusal for its reason |
| Framing.DataEncodesIff | protocol.py:108-128 | DATA has a frame exactly when its length fits; the id's octets, or sixteen zeros for an id that is no UUID, then the data |
| Framing.FillDataFrame | protocol.py:111-128 | the DATA frame filled in place in one buffer is header, id and data in that order |
| Framing.Decode | protocol.py:143-178 | what remains after a dropped or decoded piece is a proper suffix of the input, so every read turn ends |
| Framing.DecodeSuffix | protocol.py:143-178 | what decode settled on some bytes it settles alike when more bytes follow |
| Framing.DecodeFrame | protocol.py:150-163 | a frame followed by any bytes is cut exactly at its own end |
| Framing.DecodeShort | protocol.py:144-160 | a proper prefix of a frame is never settled |
| Framing.FrameOutcome | protocol.py:158-178 | for every whole frame whatever follows it: dropped, raised or the message, each under its exact condition |
| Framing.DataRoundTrip | protocol.py:111-128 | decode(encode(DATA) ++ rest) gives the data and rest for any id, and the id itself exactly when it is canonical |
| Framing.ControlRoundTrip | protocol.py:70-76 | decode(encode(m) ++ rest) is (m, rest) exactly when the payload has no key "type" |
| JsonText.DumpsLoads | protocol.py:131 | every object of texts under known keys is written, and read back as it was, whatever the characters, the keys and their order |
| JsonText.JsonLawful | protocol.py:174-177 | so the codec meets the law that the other results ask of one |
| JsonText.PacketSendable | frps.py:1402-1406 | NEW_CONN, INIT_CONN and CLOSE with canonical ids and names below 16 MiB can be framed |
| JsonText.EndToEndOnJson | protocol.py:103-178 | end-to-end transparency on bytes with that codec, nothing assumed of it |
| ReadLoop.ReadAllRefinesDrain | frps.py:246-251 | for any bytes in any chunks, messages handed on ++ D(buffer) == D(everything received) |
| ReadLoop.HandsOnAllIff | frpc.py:417-420 | one turn hands on every message in the buffer exactly when no bad piece stands ahead of one |
| ReadLoop.StrayBytesDelay | frps.py:236-251 | n stray bytes ahead of a complete frame delay it by exactly n further reads, whatever those bring |
| ReadLoop.StrayBytesDelayData | protocol.py:111-128 | so it is for every DATA frame, whatever its id |
| ReadLoop.DecodeStreamPrefix | protocol.py:143-178 | decoding a prefix of a well-formed stream takes its first frame off or waits for its end |
| ReadLoop.NoStall | frps.py:573-592 | on a prefix of concatenated frames, after each read exactly the complete frames have been handed on and less than one frame is left |
| ReadLoop.RaiseEndsReading | frpc.py:406-422 | after a frame that raises, the messages ahead of it have been handed on and nothing behind it or coming later ever is |
| ReadLoop.FrameReader.OnRead | frpc.py:406-422 | the loop over the local buffer does what one turn of the specification does |
| TunnelProofs.KeepsInv | frps.py:1375-1483 | every step of server, client or link keeps the invariant of the tunnel |
| TunnelProofs.EndToEnd | frps.py:1429-1483 | in every reachable state delivered is a prefix of sent, both ways and for every connection; while the receiver has it open, delivered ++ in flight ++ unsent is all that was sent; nothing crosses over |
| TunnelProofs.DataOnlyAfterInit | frps.py:1435-1458 | DATA on its way to the client is on the chosen channel and its INIT_CONN has been processed |
| TunnelProofs.DataSentWhenReady | frps.py:1435-1437 | the server sends DATA only for a connection that is ready and that the client has had in its pool |
| TunnelProofs.DropsOnlyAfterClose | frpc.py:574-590 | the client accepts every DATA unless it closed that connection itself |
| TunnelHistory.UserReachesService | frps.py:1429-1477 | told from the events alone: the service gets a prefix of the head the user connected with and of what it sent since, and the rest is in flight or unsent while the client has the connection open |
| TunnelHistory.ServiceReachesUser | frpc.py:530-549 | and the user gets a prefix of what the service sent since the local connection was opened |
| TunnelHistory.ConnsIff | frps.py:1397-1427 | the server knows exactly the connections whose users connected |
| TunnelHistory.ConnHolds | frps.py:1397-1427 | an entry stands for the proxy its user came through, and counts as sent the head and all the user sent since |
| TunnelHistory.InPoolIff | frps.py:1684-1702 | the server's pool holds exactly the connections that nothing has closed since: no close of its own, no CLOSE, no end of the relay loop, no wait in vain |
| TunnelHistory.ClosedIsFinal | frps.py:1546-1574 | out of the pool nothing more reaches the user or makes the entry ready; an ended task frames nothing more |
| TunnelHistory.LocalHolds | frpc.py:458-489 | a local connection counts all that the service sent since NEW_CONN opened it, and is read until it ends |
| TunnelHistory.LocalInPoolIff | frpc.py:592-603 | the client's pool holds exactly the connections opened for a NEW_CONN and not closed since |
| TunnelHistory.LocalClosedIsFinal | frpc.py:574-590 | out of the client's pool nothing more reaches the service; ended, nothing more is framed |
| TunnelRouting.RightService | frpc.py:458-489 | a connection leads to the service of the very proxy its user connected to, and that proxy is registered |
| TunnelRouting.UnknownProxyCarriesNothing | frpc.py:462-465 | for a proxy that the client does not have, nothing the user sent leaves the server |
| TunnelOpening.NothingForgotten | frps.py:1397-1427 | in every reachable state a pooled connection of a proxy that the client has is known to the client, announced by a NEW_CONN on its way, or refused by a CLOSE on its way; and if the client knows it, INIT_CONN has been processed or is on its way |
| TunnelProgress.CanDeliverToService | frps.py:1397-1477 | from every reachable state, at whatever stage of its opening, there is a continuation that delivers to the service all that the user of a pooled connection has sent, request head included, unless the client lacks the proxy, has refused the connection or has closed it; also for a ready connection that has left the server's pool |
| TunnelProgress.OpeningIff | frpc.py:458-489 | a connection is opening exactly when it is pooled and the client has it open or is still to be told of it for a proxy it has |
| TunnelProgress.CanDeliverToUser | frpc.py:530-549 | the same towards the user, with one or two channels |
| TunnelProgress.FtpUserSeesRewrittenPrefix | frps.py:1565-1571 | an FTP user has received a prefix of the rewriting of all that the service has sent |
| TunnelHandlers.FrpServer.HandleProxyConn | frps.py:1397-1427 | NEW_CONN written and entry made as the state machine's step; nothing of either if it cannot be written |
| TunnelHandlers.FrpServer.HandleInit | frps.py:486-498 | picks the writer by channel mode and sets ready, for entries in the pool only |
| TunnelHandlers.FrpServer.ForwardOpen | frps.py:1435-1458 | after ready the head goes out first, as one DATA, once |
| TunnelHandlers.FrpServer.ForwardChunk | frps.py:1460-1477 | one read becomes one DATA with the same bytes |
| TunnelHandlers.FrpServer.Process | frps.py:1546-1574 | dispatch by channel; DATA is accepted for entries in the pool only |
| TunnelHandlers.FrpClient.HandleNew | frpc.py:458-489 | known proxy and connected: entry, then INIT_CONN; not connected: CLOSE; unknown: nothing |
| TunnelHandlers.FrpClient.ForwardLocal | frpc.py:535-549 | one local read becomes one DATA on the data writer |
| TunnelHandlers.FrpClient.Process | frpc.py:430-442 | with a data channel, DATA and CLOSE count only there |
| TunnelHandlers.FrpServer.ForwardTimedOut | frps.py:1435-1443 | the entry leaves the pool and the task ends |
| TunnelHandlers.FrpServer.ForwardEnd | frps.py:1478-1483 | the same when the relay loop is left |
| TunnelHandlers.FrpClient.LocalEnd | frpc.py:550-555 | the client's entry leaves its pool |
| TunnelHandlers.TunnelSystem.Step | frps.py:1375-1483 | server, client and links as objects take exactly the state machine's step |
| TunnelHandlers.TunnelSystem.RunAll | frpc.py:406-442 | any run of the objects is a run of the state machine and leaves a transparent state |
| Wire.DecodeCarried | protocol.py:143-178 | decoding a pipe's buffer takes exactly the first packet off, or waits |
| Wire.PacketFrames | frps.py:1402-1409 | what is written for NEW_CONN, INIT_CONN, CLOSE and DATA: the octet of the type and the fields by name, or id and data |
| Wire.DecodeFollowsLoop | frps.py:246-251 | decode by decode a reader does one turn of its loop, whatever is in its buffer |
| Wire.BytesRefinePackets | frpc.py:406-422 | every run over bytes in any reads follows a run over whole packets |
| WireProgress.PacketsRefineBytes | frpc.py:406-422 | and every run over packets is matched by a run over bytes |
| WireProgress.MatchDeliver | frps.py:246-251 | from any state over bytes, frames cut anywhere, some reads and decodes get the next packet of a link handled |
| WireProgress.CanDeliverToServiceOnBytes | frps.py:573-592 | after every run over bytes, what can be delivered to the service over packets can be delivered by further reads |
| WireProgress.CanDeliverToUserOnBytes | frpc.py:406-422 | the same towards the user |
| Wire.DrainEncoded | protocol.py:103-178 | the bytes of a pipe read as exactly the packets put into it |
| Wire.EndToEndOnBytes | frps.py:573-592 | end-to-end transparency with bytes on the wire and in the buffers, for a codec with a round trip; of a connection that the client has not taken on, nothing has left either end |
| StcpRelay.RunKeeps | frps.py:1490-1544 | between two plain clients, after every run: written to the provider ++ buffer is all of the visitor's payloads, written to the visitor all of the provider's, and bytes_out is the bytes relayed |
| StcpRelay.NothingWaitsAfterReady | frps.py:959-975 | once READY has been handled, all of the visitor's payloads have been written to the provider |
| StcpRelay.WholeLife | frps.py:1490-1544 | over the whole life of a relay between two plain clients, told from what was sent while it lasted: the visitor got all of the provider's, the provider a prefix of the visitor's, and all of it if it said READY |
| StcpRelay.NothingAfterClose | frps.py:1704-1719 | after the close nothing is written and nothing counts, whatever still arrives |
| StcpRelay.CountedIn | frps.py:1536-1544 | the bytes counted as in are exactly those the visitor sent before the provider was heard of |
| StcpRelay.ConservesIff | frps.py:1496-1507 | every run conserves both streams exactly when no data channel is used and the two sides differ |
| StcpRelay.BadVisitorData | frps.py:1503-1505 | a run with a visitor's data channel: its bytes are written back to the visitor, the provider having sent none |
| StcpRelay.BadSameConnection | frps.py:1496-1497 | a run with one connection for both sides: the visitor's bytes are taken for the provider's and written as such |
| StcpRelay.BadProviderData | frps.py:1512-1535 | a run with a provider's data channel: its bytes are written back to the provider and none to the visitor |
| StcpRelay.StcpServer.HandleVisitorReady | frps.py:952-975 | links the writer and sends the buffer once |
| StcpRelay.StcpServer.HandleDataFrom | frps.py:1490-1544 | which side a writer is, what is flushed, written, buffered and counted |
| Patterns.SubstituteReads | frps.py:1185 | searching a substituted line finds the substituted text first |
| Patterns.SubstituteHides | frps.py:1185 | when the substituted text cannot be read, no match is left in the line |
| FtpReply.PumpAppend | frps.py:1129-1155 | rewriting more bytes later gives what rewriting all at once gives |
| FtpReply.ChunkingIsIrrelevant | frps.py:1124-1156 | output, residue and listener requests depend on the stream only, not on its chunks |
| FtpReply.SameStreamSameReply | frps.py:1124-1156 | two ways of cutting one stream give the same reply |
| FtpReply.LinesAndResidue | frps.py:1129-1135 | consumed lines ++ residue is the input; the residue has no line end, and each line has one, at its end |
| FtpReply.PumpIsLineByLine | frps.py:1129-1156 | the output is each line rewritten, in order, with the k-th request's port |
| FtpReply.OtherLinesPass | frps.py:1139-1153 | lines that are no passive reply pass unchanged at their place |
| FtpReply.PasvRoundTrip | frps.py:1158-1191 | a rewritten 227 line reads as the public port exactly when the public address is numeric; p1, p2 are bytes (section 4.1.2 of RFC 959) |
| FtpReply.EpsvRoundTripIff | frps.py:1193-1216 | a rewritten 229 line reads as the public port exactly when no three-bar group stands ahead of a two-bar one, or the ports are equal (section 3 of RFC 2428) |
| FtpReply.EpsvKeepsOldPort | frps.py:1208-1210 | a line whose private port is not replaced |
| FtpReply.FtpControl.HandleResponse | frps.py:1115-1156 | the line loop with its buffer, as the specification that `FtpMeaning.InStream` speaks of |
| FtpReply.FtpControl.Rewrite | frps.py:1139-1151 | which rewriting a line gets, and the port its request names; what that is, the rows of `FtpMeaning` say |
| FtpMeaning.PassiveReply | frps.py:1158-1191 | a line with the text of a 227 reply in any letter case and one tuple: one listener is asked for; if granted, the line comes out with the four public octets and the public port in the tuple's place, else as it was |
| FtpMeaning.PassiveReplyWithoutTuple | frps.py:1158-1163 | without a tuple it is as it was, and asks for nothing |
| FtpMeaning.ExtendedReply | frps.py:1193-1216 | a line with the text of a 229 reply and one three-bar group: the same with the public port between the bars |
| FtpMeaning.PassiveReplyReads | frps.py:1139-1144 | with tuples of any number, the 227 line that comes out reads as the public port |
| FtpMeaning.ExtendedReplyReads | frps.py:1146-1151 | the 229 line that comes out reads as the public port, unless a three-bar group stands ahead of a two-bar one |
| FtpMeaning.OtherLine | frps.py:1152-1153 | a line with neither text is as it was, and asks for nothing |
| FtpMeaning.PassiveAsks | frps.py:1161-1167 | the request for a 227 reply names the service's own port: the fifth number times 256 and the sixth |
| FtpMeaning.ExtendedAsks | frps.py:1196-1202 | the request for a 229 reply names the port between the bars |
| FtpReply.RequestsAreAsked | frps.py:1264-1269 | the requests counted in a stream are exactly those whose ports its passive replies name |
| FtpMeaning.InStream | frps.py:1124-1156 | so it is at any place of a stream, however it is cut |
| FtpData.DownloadConserved | frps.py:1582-1597 | in every interleaving, written to the entry's writers, open or closed, ++ buffer is all DATA received for the data connection |
| FtpData.DownloadReachesUser | frps.py:1294-1311 | with one user per listener, what reached that user ++ buffer is all that was received exactly when no bytes came after its wait for the client had timed out |
| FtpData.LateReadyLosesAll | frps.py:1305-1311 | a run in which the client is ready after that time-out and the whole download is lost |
| FtpData.TimedOutStays | frps.py:1305-1311 | after that time-out the entry stays in the books, with the closed writer, whatever follows |
| FtpData.BooksAgree | frps.py:1239-1277 | a live control connection lists exactly its entries of ftp_data_ports |
| FtpData.DeliveredIsPrefix | frps.py:1582-1597 | with one user per listener, whatever times out, what reached the user is a prefix of what was received |
| FtpHistory.PortsIff | frps.py:1229-1281 | ftp_data_ports holds exactly the ids asked for and not ended since, by a failure before the client was told or the end of a user that got past its wait |
| FtpHistory.EntryHolds | frps.py:1239-1250 | an entry holds what came after its request: its control connection, whether the client was told and is ready, who connected and who did so last, every byte that arrived |
| FtpHistory.ControlsIff | frps.py:1691-1694 | a control connection is in the pool from its opening to its close |
| FtpDownload.DownloadEndToEnd | frpc.py:668-694 | from the local data service to the FTP user: delivered is a prefix of sent, and unless bytes came after the user's time-out, delivered ++ buffered ++ in flight ++ unread is all that was sent |
| FtpDownload.NothingBeforeConnect | frpc.py:632-656 | before the client has connected to the local data service nothing of the data connection has been sent or received |
| FtpDownload.ConnHolds | frpc.py:638-656 | the client's side has seen all that the local data service sent since it connected, and reads until it is ended |
| FtpDownload.EndedFramesNothing | frpc.py:692-703 | once ended it frames nothing more |
| FtpDelivery.CanDownload | frpc.py:668-687 | from every reachable state in which the client reads, some reads and deliveries bring all that the service sent to the server |
| FtpDelivery.CanReachUser | frps.py:1576-1597 | and to the user, if the only one of its listener connected in time |
| FtpData.FtpServer.RequestListener | frps.py:1229-1253 | both books get the id before the listener is opened |
| FtpData.FtpServer.ListenerFailed | frps.py:1261-1281 | both books lose it when the listener or the message fails |
| FtpData.FtpServer.CloseTimedOut | frps.py:1305-1311 | the writer is closed; the entry keeps it |
| FtpData.FtpServer.HandleDataConn | frps.py:1283-1303 | the user's writer is taken and the buffer sent, in one step |
| FtpData.FtpServer.HandleDataMessage | frps.py:1576-1597 | to the user if there is one, else appended to the buffer |
| FtpData.FtpServer.FinishDataConn | frps.py:1350-1353 | the id leaves both books |
| Stats.ConnectConsistentIff | stats.py:31-44 | on_connect keeps the counters right exactly when the id is not counted yet |
| Stats.DisconnectConsistentIff | stats.py:46-54 | on_disconnect keeps them right exactly when the id is counted, or nothing is |
| Stats.ClampsIdle | stats.py:48-54 | for a counted id both counts are at least one |
| Stats.DataInConsistent | stats.py:56-62 | byte totals stay at least the per-proxy sums, also for an id already closed |
| Stats.DataOutConsistent | stats.py:64-70 | the same for bytes sent |
| Stats.StatsBook.Connect | stats.py:31-44 | the in-place update |
| Stats.StatsBook.Disconnect | stats.py:46-54 | the in-place update with its clamps |
| Stats.StatsBook.DataIn | stats.py:56-62 | the in-place update |
| Stats.StatsBook.DataOut | stats.py:64-70 | the in-place update |
| Pools.RunAgrees | frps.py:1691-1719 | in every reachable state all counts are those of the counted ids, and the pools' ids are disjoint and among them |
| Pools.RunAccounted | frps.py:1397-1427 | the counted ids are exactly the ids of the two pools and of the users whose NEW_CONN could not be written, all three disjoint |
| Pools.CountedIffTold | frps.py:736-768 | the counted ids are those of the pools exactly when no accepted user met a NEW_CONN that could not be written |
| Pools.UntoldStaysCounted | frps.py:1397-1427 | such a user is counted, in no pool, for the rest of every run |
| Pools.ClampsNeverBite | frps.py:1691-1708 | a close lowers both counts by one, never clamped |
| Pools.CloseConnsExact | frps.py:1771-1773 | the loop over a key snapshot removes exactly the picked entries |
| Pools.SweepExact | frps.py:1789-1801 | the idle sweep keeps exactly the entries idle for at most the timeout, in both pools, and the agreement; since when they are idle, `PoolHistory.TimesAreLast` says |
| PoolHistory.TimesAreLast | frps.py:1446-1468 | in every reachable state an entry's time is that of the last opening of or activity on it |
| PoolHistory.SweepByActivity | frps.py:1789-1801 | so the sweep keeps a connection exactly when it was opened or active at most the time-out ago |
| PoolHistory.UserOpenIff | frps.py:1691-1702 | conn_pool holds exactly the user connections opened and not ended since, by a close, a sweep that found them idle, or the end of their proxy |
| PoolHistory.VisitorOpenIff | frps.py:1704-1719 | the same for stcp_conns |
| PoolHistory.TrafficExact | stats.py:31-70 | in every reachable state the counters are exact: connections and bytes of the run, of each connection since it was counted, and of each proxy |
| Pools.PoolServer.SweepIdle | frps.py:1789-1801 | the two loops over key snapshots |
| Pools.PoolServer.CloseProxyConns | frps.py:1771-1773 | the loop that deletes while it iterates over a snapshot |
| Pools.PoolServer.CloseProxyRelays | frps.py:1751-1753 | the same for relays |
| HttpVhost.ReadHead | frps.py:645-676 | a head exactly when some line ends it before the headers overflow, made of exactly the lines read and of bounded size; too large, no request and starved each exactly when they should be |
| HttpTunnel.RequestReachesService | frps.py:645-764 | what has reached the service is a prefix of the lines of the request head followed by what the user sent later; while the client has the connection open, the rest is on its way or waits at the server |
| HttpTunnel.RequestCanReachService | frps.py:1445-1477 | and all of it can still get there while the connection is opening or ready |
| HttpVhost.RunDisjoint | frps.py:785-802 | registered domain sets stay pairwise disjoint |
| HttpVhost.RegistersIff | frps.py:770-819 | a registration adds its entry exactly when its name is given and new, it names some domain, a subdomain has a server host, and no host belongs to it and to another proxy; belonging is stated letter by letter |
| HttpVhost.RemovesNamed | frps.py:1738-1743 | removal takes exactly the named entries away |
| HttpVhost.BelongsIff | frps.py:692-706 | the match test holds exactly when the host is a custom domain, or the subdomain, a dot and the server's host, up to ASCII case |
| HttpVhost.RouteIsFunction | frps.py:694-710 | in every reachable table and any order, the first match is p exactly when the host is one of p's custom domains, or its subdomain, a dot and the server's host, letter by letter up to ASCII case |
| HttpVhost.VhostServer.RegisterProxy | frps.py:770-819 | accepted exactly when the name is new and no domain is taken; the table changes by that entry |
| HttpVhost.VhostServer.Match | frps.py:692-710 | the nested matching loops find p exactly when the host belongs to p in that sense |
| Cleanup.DisconnectExact | frps.py:279-283 | after a disconnect, with or without a session, each registry is what it was without the entries of that connection |
| Cleanup.SessionExact | frps.py:615-632 | the end of a session takes its entries out of three registries, and nothing else |
| BooksHistory.RegistryIff | frps.py:357-399 | a registry holds exactly the entries accepted from connections that have not ended since |
| BooksHistory.OpenedByIff | frps.py:291-330 | a session belongs to the connection that logged in first under its id |
| BooksHistory.SessionIff | frps.py:615-620 | a session is live from its log-in until the connection that opened it leaves with it |
| Cleanup.ControlServer.HandleDisconnect | frps.py:277-284 | after a control connection has ended: its registrations are gone; no pool entry of its proxies is left and every other is as it was; of the relays exactly those of its providers go that were not under a live session; the counters agree |
| Relays.ClosePoolsSettles | frps.py:1771-1773 | the loops over key snapshots have exactly the effect of a disconnect on the pools |
| Relays.RelayAfter | frps.py:892-936 | which relays there are after an event: one that a visitor opens, and those that neither their close nor the end of their provider's connection took |
| Relays.NeverOrphansIff | frps.py:1733-1761 | over every run of logins, registrations, visitors, closed relays and disconnects, each relay's provider is registered at every moment exactly when no client left while a provider under its live session had a relay open |
| Relays.RelayOutlivesProvider | frps.py:279-283 | a run in which it happens: login, registration of a provider, a visitor, the end of the connection; the relay stays in the pool and counted, the provider is gone |
| Cleanup.RelaysLeftIff | frps.py:615-632 | after a disconnect from any reachable state, a relay of one of the connection's providers is left in the pool and counted exactly when the session is live and the provider was registered under it; the provider is in no registry either way |
| Cleanup.PopSession | frps.py:622-631 | popping over a snapshot removes exactly the session's entries |
| Cleanup.PopWriter | frps.py:1739-1743 | popping over a key list removes exactly the writer's entries |
| Cleanup.ControlServer.RemoveProxy | frps.py:1763-1777 | the proxy and exactly its pool entries go |
| Cleanup.ControlServer.RemoveProxies | frps.py:1734-1736 | every proxy of the writer and exactly their pool entries |
| Cleanup.ControlServer.RemoveProviders | frps.py:1745-1754 | every provider of the writer and exactly their relays |
| Cleanup.ControlServer.ClearWriter | frps.py:1733-1761 | all four loops together |
| RemoteCommands.PendingAndResultsDisjoint | frps.py:1609-1622 | pending ids and stored results are disjoint in every interleaving |
| RemoteCommands.AnswersCorrelate | frps.py:1652-1661 | an answer is not empty and carries its own id; "No response" never happens |
| RemoteCommands.WokenHasAnswer | frps.py:1652-1661 | a woken waiter finds its answer |
| RemoteCommands.OnlyRepliesAreAnswers | frps.py:1616-1622 | what is stored or answered came in as a reply, unchanged |
| RemoteCommands.ReplyReachesItsCaller | frps.py:1616-1661 | a reply to a waiting call is what that call returns, unless a later reply with its id or a timeout comes first |
| RemoteCommands.SentAndAnswered | frps.py:1637-1661 | after any run, a command sent under a fresh id and answered before its time-out returns that answer, whatever else happens meanwhile, and nothing of it is kept |
| RemoteCommands.SentAndFailed | frps.py:1640-1650 | one whose message could not be written returns that, and is pending no more |
| RemoteCommands.SentAndTimedOut | frps.py:1652-1658 | one not answered in time returns a time-out, and is pending no more |
| RemoteCommands.AnsweredTooLate | frps.py:1652-1658 | an answer between the time-out and the waiter is dropped |
| RemoteCommands.LateReplyIsKept | frps.py:1616-1622 | a reply after the time-out stays stored, whatever follows |
| RemoteCommands.ReplyStored | frps.py:1609-1622 | a reply without an id changes nothing; any other is stored and wakes the call with its id and no other |
| RemoteCommands.OutcomeIsFinal | frps.py:1643-1661 | every call returns once |
| RemoteCommands.Session.HandleResp | frps.py:1609-1622 | stored always; the waiter is woken if it still waits |
| RemoteCommands.Session.EndWoken | frps.py:1660-1661 | the result is taken out and returned |
| RemoteCommands.Session.EndTimedOut | frps.py:1653-1658 | both entries go |
| Lockout.CountNeverExceeds | webadmin/api/auth.py:155-176 | the failure count never exceeds five |
| Lockout.VerdictIff | webadmin/api/auth.py:182-200 | in every history an attempt is turned away exactly when the user's failures since its last success are five, ten, fifteen and the last of them is less than 300 seconds old, and is told the whole seconds left; any other is judged by name and password alone |
| Lockout.StoredIsStreak | webadmin/api/auth.py:155-180 | the stored count is that of the failures since the last success or the last lock that ran out, and the lock time that of the fifth |
| Lockout.StreakIff | webadmin/api/auth.py:178-180 | those failures are exactly the ones that no success of the user follows |
| Lockout.ValidIff | webadmin/api/auth.py:189-197 | name and password are right exactly when the first user of that name has a hash that the password meets |
| Lockout.FailureRate | webadmin/api/auth.py:182-200 | after any history, a window shorter than 300 seconds without a success holds at most five failed verifications of a user |
| Lockout.TenInThreeHundredSeconds | webadmin/api/auth.py:163-166 | the bound is tight: 300 seconds hold ten |
| Lockout.FirstNamed | webadmin/api/auth.py:92-97 | a user of that name, or none exists |
| Lockout.AuthManager.FindUser | webadmin/api/auth.py:92-97 | the search loop finds the first user of that name |
| Lockout.AuthManager.Check | webadmin/api/auth.py:155-167 | seconds left, or an expired record removed |
| Lockout.AuthManager.Fail | webadmin/api/auth.py:169-176 | count and lock time |
| Lockout.AuthManager.Authenticate | webadmin/api/auth.py:182-200 | locked, failed or success, and the records after it, as the history that `Lockout.VerdictIff` speaks of |

## Left out

- Uuid.Parse: braces, the prefixes `urn:` and `uuid:`, and the blanks, sign or underscores that Python's `int(text, 16)` lets through are not modelled; 32 digits of either case with hyphens anywhere are.
- Framing.Encode: DATA given as hexadecimal text, or without an id, is refused here; the code converts it.
- Lockout.VerdictIff: requires a clock that is not negative; with a negative one the initial lock time 0 would lie ahead.
- JsonText.JsonLawful: values other than texts, nested objects, and other layouts of JSON are not covered, and raw non-ASCII bytes are refused on reading; `Framing` and `Wire` take any codec with a round trip.
- HttpVhost.Lower: folds ASCII letters only.
- HttpVhost.RegisterProxy: access checks of the caller (frps.py:357-386) are not part of this model.
- HttpVhost.ReadHead: the Host line is not parsed (frps.py:679-690); a read time-out and a read error are the one outcome `Starved`.
- StcpRelay.CloseRelay: the CLOSE messages to both sides are not in the log, which holds DATA only.
- FtpData.DownloadReachesUser: one user per listener is required, because a second one takes over the writer.
- FtpDownload.DownloadEndToEnd: DATA of a data connection takes one FIFO link, and FTP_NEW_DATA and FTP_DATA_READY come as steps of their own at any time.
- FtpReply.PasvRoundTrip: parts of the public address with a parenthesis, a comma or a backslash are not covered.
- TunnelProgress.CanDeliverToService: says delivery stays possible, not that it happens; closing is never announced to the peer, so nothing stronger than prefixes holds after a close.
- Cleanup.DisconnectExact: the count `total_proxies` is not modelled; with a session it is not kept exact (frps.py:622-631).
- Lockout.Authenticate: password hashes are a given predicate.
- A data connection that fails, is linked late or is linked again, and the handshakes of login and data login (frpc.py:169-206, 267-309, frps.py:500-572).
- UDP proxies (frps.py:1880-1928, frpc.py:1184-1205): their pool entries have no event and no writer for the return path.
- FTP uploads (frps.py:1315-1329, frpc.py:561-572), which would only repeat the tunnel.
- The client's side of STCP visitors (frpc.py:711-872).
- The port search of the FTP listeners (frps.py:1099-1113): the k-th request's port, or none, is a parameter of `FtpReply`; when none is found `FtpData` has no step.
- The link between `FtpReply` and `FtpDownload`: the port that a listener request names is in the first, and the client of the second connects to the right place.
- Write errors towards an FTP user (frps.py:1589-1595): they mean that the user has gone.
- Reconnect with backoff (frpc.py:81-121), configuration and validators, the log ring: easy members.
- TLS, sockets, signals, logging, the web interface and its routes, file and shell commands, `forward_proxy.py`, address checks.
- Errors of a write to a local socket are closes that may come at any time (`AServerCloses`, `AClientCloses`).
- Aliasing of a pool entry that a relay task keeps after it left the pool is the flag `inPool` of the entry.
