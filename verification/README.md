# Nroxy native core: a verified model

Nroxy forwards the traffic of Android apps to a proxy. Its native core is a user-space TCP and UDP endpoint: it
reads IP packets from a tun device, keeps one session per flow, puts the app's bytes back in order, hands them to a
socket, and answers with segments it builds itself. This project models that core and proves what it keeps over
whole runs: the byte stream in both directions, sequence numbers, windows, sockets, timeouts, the session table,
the segments on the wire, and the parsers for TCP options, TLS, DNS and HTTP.

`dafny verify dfyconfig.toml` checks all of it.

## How the model is built

| file | what it holds |
|---|---|
| `Serial.dfy` | 32-bit serial numbers and `compare_u32` |
| `Bytes.dfy` | 16-bit integers in network order |
| `Checksum.dfy` | `calc_checksum` |
| `TcpModel.dfy` | one TCP session as a value (`Tcb`) and its step functions |
| `TcpSession.dfy` | the same session as a class with a linked `forward` queue; every method is proved equal to a step function |
| `TcpSafety.dfy` | socket ownership and the order of states |
| `TcpSequence.dfy` | sequence number conservation |
| `TcpWritten.dfy` | local_seq is what was written to tun |
| `TcpStream.dfy` | the bytes handed upstream are the app's stream |
| `TcpDrain.dfy` | completeness of the queue |
| `TcpSends.dfy` | what the kernel takes, and failed sends |
| `TcpStalls.dfy` | when the queue loses data or blocks |
| `TcpWire.dfy` | the downstream segments, and the acknowledgement of progress |
| `TcpAcks.dfy`, `TcpAckLosses.dfy` | what acknowledgements claim, and the runs in which they claim too much |
| `TcpWindow.dfy` | flow control in both directions |
| `TcpReads.dfy` | when the socket is read, how much, and what becomes of it |
| `TcpWakeups.dfy` | the event mask: no session sleeps while there is something to do |
| `TcpDiagram.dfy`, `TcpWrites.dfy` | the state diagram, and what each step writes to tun |
| `TcpTimers.dfy` | what keeps a session alive, and for how long |
| `TcpOptions.dfy` | the option walk of a SYN |
| `SegmentWriter.dfy` | the packets `write_tcp` and `write_udp` build |
| `SessionModel.dfy`, `SessionList.dfy` | the session table as a sequence, and as the linked list `ng_session` updated in place |
| `UdpSessions.dfy` | one UDP session |
| `SessionFlows.dfy` | which packet goes to which session, by kind and key, and what the passes over the table do |
| `TableSafety.dfy`, `Deadlines.dfy` | what the table keeps over all runs, and when sessions leave it |
| `Tls.dfy`, `Dns.dfy`, `Http.dfy`, `HttpRewrite.dfy` | the parsers and the request rewrite |

The environment is an input of each step: results of `send`, `recv`, `write`, `epoll_ctl`, `ioctl` and `connect`,
packet fields, clocks and random numbers. An event of a session is a packet from tun, a socket event, a sweep, a
pass of the monitor, or the termination at the start of the event loop; a run is any sequence of events. Three
fields of `Tcb` only record: `upstream` (queue bytes handed to `send`), `taken` (bytes received from the socket)
and `wire` (segments written to tun).

### Readings of the source

- `compare_u32` subtracts two signed `int`s (util.c:31-34). `Serial.CompareU32` takes the subtraction as exact, the
  queue and window proofs use it, and `CompareInt` is the 32-bit reading, which is defined only if the subtraction
  fits. Both lemmas about it are equivalences.
- tcp.c:325 compares a `ssize_t` with a `size_t`, so a negative result is clipped to the length. The model follows
  C: a failed send counts as a complete one, and the error branch behind it is never taken.
- `queue_tcp` replaces the bytes of a shorter queued segment and not its length (tcp.c:951-958). A queue piece
  keeps `sent <= len <= |data|`.
- Port 443 sessions go back to LISTEN once, when CONNECT is sent (tcp.c:732-745). `TunInput.named` stands for the test
  of the name's length there; tcp.c:717-731 falls back on the address, so that it holds for every packet.
- `queue_tcp` is called for every packet of such a session until the proxy has granted the CONNECT, with or without
  data (tcp.c:747-757).
- A shift by a scale above 31 is undefined in C; the model multiplies by the power of two and wraps.
- The sweep of one session reads the clock once, where the source can read it twice (tcp.c:34 and 74).
- An error event of a UDP socket never comes to `check_udp_socket` (session.c:246-249); the model takes one as the function
  would.
- TLS bytes are compared as `char`; `ParseTlsHeader` is proved for signed and unsigned `char`.

### What turned out false of the code, and exactly when it holds

- Serial comparison differs from RFC 1982 section 3.2 in one case, and in no other: when the second number is
  2^31 - 1 ahead of the first and the step does not cross from positive to negative `int`s
  (`Serial.CompareAgainstRfc1982`).
- Acknowledgements: a FIN's sequence number is never looked at (tcp.c:814-834), a deferred FIN is counted when the
  queue empties (tcp.c:382-384), and `write_rst` counts the SYN of a session that waits for its proxy once more
  (tcp.c:1079-1083). So bytes that never arrived are acknowledged: `TcpAckLosses.LostDataIsAcknowledged`,
  `LostTailIsAcknowledged` and `RefusedTunnelAcknowledges` are such runs. A step whose writes reach tun acknowledges
  truthfully if and only if it is in order (`TcpAcks.OrderIsNeeded`): the FIN counted has the number that is due, the
  last segment queued before a deferred FIN ends where the stream does, and a waiting session ends with nothing
  outstanding. A run whose writes reach tun does so if and only if all its steps are in order, and in order is enough
  for every run (`TcpAcks.AcknowledgementsAreTruthful`).
- Port 443: sequence numbers stay balanced in a step, in whatever state, if and only if the step is tidy
  (`TcpSequence.TidyIsNeeded`), and all through a run if and only if the run is (`TcpSequence.BalancedIffTidy`);
  `TcpSequence.SynCountedTwice` is a run that is not. Every run of any other port is tidy.
- Port 443: a session that was closed while it waited for its proxy has counted one byte too many, and skips that byte
  if it is told to write and finds the segment behind it at the head of its queue
  (`TcpAckLosses.RefusedTunnelSkips`). Where two neighbouring bytes of the stream differ, what a step hands over belongs
  to the stream if and only if it does not skip, or hands nothing over (`TcpStream.SkippingLeavesTheStream`). No run of
  another port skips (`TcpStream.OtherPortsSkipNothing`), and no run in order does. The event mask of a waiting session
  asks to read only and that of a closing one for nothing (tcp.c:94-129), but a session event here may be any event.
- A segment that is queued owes all its data if and only if no shorter segment with its number is in the queue
  (`TcpStalls.OwedUnlessShorter`). On port 443 the acknowledgement that ends the handshake is queued as an empty segment,
  and the first data segment is lost behind it until it is sent again (`TcpStalls.EmptySegmentSwallowsData`).
- More of the stream can still be handed over if and only if the head of the queue, with what was sent of it, does not
  end behind remote_seq (`TcpStalls.ProgressUnlessStale`). The data of a SYN and a repeated SYN on port 443 end there
  (`SynDataGoesStale`, `RepeatedSynGoesStale`).
- A drain of a queue that holds every byte up to the first missing one reaches it if and only if no two of those pieces
  overlap (`TcpStalls.DrainReachesGapUnlessOverlap`).
- Bytes recorded as sent are those the kernel accepted if and only if no send fails (`TcpSends.RecordedIsAccepted`);
  over a run, what the kernel took is the app's stream if and only if none did (`TcpSends.KernelGetsTheStream`).
- A session reads what waits in its socket, exactly as much as fits, if and only if the peer's window has room
  (`TcpReads.ReadLaw`); but a SYN may announce a segment size of 0, and exactly then the read of no bytes is taken for the
  end of the connection (`TcpReads.ReadableIsRead`). A mask asks to read exactly if reading can take bytes under a segment size above 0
  (`TcpWakeups.NoLostWakeup`).
- An acknowledgement number moves `acked` if and only if it lies behind it and is local_seq, on a segment without SYN and
  FIN, or comes before the last byte sent: one that is short of local_seq by one counts as a keep-alive, even if it
  acknowledges something (`TcpWindow.AckedExactly`).
- The option walk ends if and only if it meets no option of length zero (`TcpOptions.EndsExactlyUnlessStuck`); the
  MSS the code announces is read back byte-swapped (`TcpOptions.AnswerIsReadSwapped`). A data offset below 5 is not refused
  and gives up to 252 option bytes (`TcpOptions.OptionBytesAre`).
- A UDP checksum of 0 is sent as it is, exactly when the sum is a multiple of 65535 (`SegmentWriter.StoredZero`), which
  RFC 8200 section 8.1 does not allow over IPv6; there are such datagrams for every flow
  (`SegmentWriter.ZeroChecksumOccurs`).
- `get_qname` never returns if and only if its loop comes to the same position with the same write position twice
  (`Dns.NeverEndsIffRepeats`): a cycle of pointers does that, and so do labels that fill 256 octets
  (`Dns.PointerCycleNeverEnds`, `FullLabelsNeverEnd`).
- The end `get_qname` reports is the end of the name if and only if the name has no pointer or begins with one
  (`Dns.QNameDecodes`).
- The HTTP rewrite puts the host behind the method if and only if no method that is tried earlier occurs in the
  data (`HttpRewrite.RewritesTheTarget`); `HttpRewrite.WrongLineRewritten` is a request it spoils.
- A second rewrite changes nothing if and only if the end of the host that was put in and the data behind the method
  spell none of the methods that were tried and not found, or `http:` follows the first one they spell
  (`HttpRewrite.SecondRewriteExactly`); `HttpRewrite.RewrittenTwice` is a request that is rewritten twice.

## Model

| member | source | states |
|---|---|---|
| Serial.CompareAgainstRfc1982 | app/src/main/cpp/tun2http/util.c:26-38 | where RFC 1982 section 3.2 orders two numbers, `compare_u32` agrees with it except, exactly, when the second is 2^31 - 1 ahead of the first and is the greater one as an `int` |
| Serial.CompareIsRfc1982 | app/src/main/cpp/tun2http/util.c:26-38 | below distance 2^31 - 1 it is the RFC's order in both directions and antisymmetric |
| Serial.IntReading | app/src/main/cpp/tun2http/util.c:31-34 | the subtraction in `int` is defined, and then agrees, if and only if the exact difference fits in 32 bits |
| Serial.CompareByRel | app/src/main/cpp/tun2http/util.c:26-38 | on any stretch shorter than 2^31 - 1 the comparison is the order of the integers, and 0 only for equal numbers |
| Serial.CompareTransitive | app/src/main/cpp/tun2http/util.c:26-38 | it is transitive on such a stretch |
| InternetChecksum.CalcChecksum | app/src/main/cpp/tun2http/util.c:7-24 | the result is the folded 32-bit sum for every buffer, and the folded exact sum up to 131072 bytes |
| InternetChecksum.SumWords | app/src/main/cpp/tun2http/util.c:8-17 | the accumulator ends as start plus all little-endian words, an odd last byte as a low byte, modulo 2^32 |
| InternetChecksum.FoldCarries | app/src/main/cpp/tun2http/util.c:19-23 | the second loop ends and folds the carries |
| InternetChecksum.AccumulatorBound | app/src/main/cpp/tun2http/util.c:8-17 | the 32-bit accumulator is safe for all contents and starts of a length if and only if the length is at most 131072 |
| InternetChecksum.FoldIsResidue | app/src/main/cpp/tun2http/util.c:19-23 | folding gives the representative modulo 65535 in 1..65535, and 0 for 0 alone |
| InternetChecksum.ChecksumIsResidue | app/src/main/cpp/tun2http/util.c:7-24 | the checksum is congruent to the sum modulo 65535, and 0 only if everything summed is 0 |
| InternetChecksum.Chaining | app/src/main/cpp/tun2http/tcp.c:1191-1195 | checksumming on after an even-length piece equals one pass over both pieces |
| InternetChecksum.ByteOrderIndependent | app/src/main/cpp/tun2http/util.c:7-24 | the little-endian sum is the byte swap of the zero-padded network-order sum of RFC 1071 section 2(B), for every buffer |
| TcpSessions.ForwardQueue.ToForward | app/src/main/cpp/tun2http/tcp.c:174-183 | the counting loop gives the exact unsent total of the queue, modulo 2^32 |
| TcpSessions.ForwardQueue.InsertPacket | app/src/main/cpp/tun2http/tcp.c:921-964 | the linked list becomes the sorted insertion; equal numbers keep the first length, a longer repeat replaces the bytes |
| TcpSessions.ForwardQueue.TakeHead | app/src/main/cpp/tun2http/tcp.c:342-350 | a head that is fully sent is unlinked, another one stays with its counter raised |
| TcpSessions.TcpSession.constructor | app/src/main/cpp/tun2http/tcp.c:619-680 | the state of a session created by a SYN |
| TcpSessions.TcpSession.GetReceiveWindow | app/src/main/cpp/tun2http/tcp.c:174-194 | the method computes `ReceiveWindow` of the model |
| TcpSessions.TcpSession.QueueTcp | app/src/main/cpp/tun2http/tcp.c:912-966 | old segments are ignored, others inserted |
| TcpSessions.TcpSession.ForwardData | app/src/main/cpp/tun2http/tcp.c:297-358 | the send loop is `Drain` for every sequence of send results |
| TcpSessions.TcpSession.StoreWindow | app/src/main/cpp/tun2http/tcp.c:372-388 | the new window is stored, and progress or a reopened window acknowledged, with the FIN once the queue is empty |
| TcpSessions.TcpSession.CloseRemote | app/src/main/cpp/tun2http/tcp.c:409-433 | end of file sends FIN or resets, and the socket is closed |
| TcpSessions.TcpSession.ReadFromSocket | app/src/main/cpp/tun2http/tcp.c:390-446 | at most the send window and the MSS are read, and each outcome is handled |
| TcpSessions.TcpSession.CheckTcpSocket | app/src/main/cpp/tun2http/tcp.c:196-453 | a socket event is the step `CheckSocket`; the socket invariant is kept, the session only moves forward, and a tidy event keeps the place of both sequence numbers |
| TcpSessions.TcpSession.HandleFin | app/src/main/cpp/tun2http/tcp.c:814-834 | a FIN is counted with an empty queue, and deferred otherwise |
| TcpSessions.TcpSession.HandleSegment | app/src/main/cpp/tun2http/tcp.c:770-905 | a segment of a known session |
| TcpSessions.TcpSession.HandleTcp | app/src/main/cpp/tun2http/tcp.c:716-905 | a packet of a known session, port 443 included, is the step `HandlePacket`, with the same promises |
| TcpSessions.TcpSession.CheckTcpSession | app/src/main/cpp/tun2http/tcp.c:32-89 | the sweep of one session, with the same promises, and exactly when it asks for removal; then it holds no socket |
| TcpSessions.TcpSession.SendKeepAlive | app/src/main/cpp/tun2http/tcp.c:111-118 | the keep-alive acknowledges one number less and restores remote_seq |
| TcpSessions.TcpSession.MonitorTcpSession | app/src/main/cpp/tun2http/tcp.c:91-143 | the event mask, the keep-alive and the recheck flag, with the same promises for an open socket |
| TcpSessions.EventKeeps | app/src/main/cpp/tun2http/tcp.c:32-905 | what those promises are, for any event and any session |
| TcpSessions.NewKeeps | app/src/main/cpp/tun2http/tcp.c:619-680 | a new session starts with both invariants |
| TcpSafety.StepAdvances | app/src/main/cpp/tun2http/tcp.c:32-453 | every step keeps the socket invariant and raises the pair (connect_sent, state) whenever it changes it |
| TcpSafety.RunAdvances | app/src/main/cpp/tun2http/tcp.c:32-910 | over every run: LISTEN, SYN_RECV, ESTABLISHED and CLOSE_WAIT have a socket, FIN_WAIT1, LAST_ACK and CLOSE have none, at most 20 steps change state or CONNECT phase, and CLOSE is absorbing |
| TcpSafety.RemovedSessionHasNoSocket | app/src/main/cpp/tun2http/tcp.c:62-88 | a session the sweep may unlink has no socket, after any run |
| TcpSafety.ClosingIsLeftOnlyByConnect | app/src/main/cpp/tun2http/tcp.c:732-745 | a closing session comes back if and only if it is a port 443 session with its socket open whose CONNECT is sent only then |
| TcpSequence.HandedMoves | app/src/main/cpp/tun2http/tcp.c:339-350 | n bytes handed over move remote_seq, the counter and the log by n |
| TcpSequence.DrainMoves | app/src/main/cpp/tun2http/tcp.c:299-358 | the whole loop moves all three by the same amount, and only from a non-empty queue |
| TcpSequence.StepKeepsSeq | app/src/main/cpp/tun2http/tcp.c:265-444 | every tidy step keeps the place of both sequence numbers, state by state |
| TcpSequence.Conservation | app/src/main/cpp/tun2http/tcp.c:287-442 | over every tidy run of any session: `remote_seq - remote_start` is the bytes sent plus one for each SYN and FIN counted, each at most once, and `local_seq - local_start` is in every state the bytes, the SYN and at most one FIN written to tun, and before the end the bytes received plus those |
| TcpWritten.LocalSeqIsWritten | app/src/main/cpp/tun2http/tcp.c:286-442 | over every run of any session, tidy or not, local_seq is the initial number plus everything written to tun, at most one FIN is written, and no data, SYN or FIN comes behind it |
| TcpSequence.OtherPortsAreTidy | app/src/main/cpp/tun2http/tcp.c:717-758 | every run of a session whose port is not 443 is tidy |
| TcpSequence.TidyIsNeeded | app/src/main/cpp/tun2http/tcp.c:265-293 | in every state a session stays balanced in a step if and only if the step is tidy |
| TcpSequence.BalancedIffTidy | app/src/main/cpp/tun2http/tcp.c:265-293 | a new session is balanced after every event of a run if and only if the run is tidy |
| TcpSequence.SynCountedTwice | app/src/main/cpp/tun2http/tcp.c:286-293 | a port 443 run in which the SYN is counted twice and the app's first byte cannot be handed over any more |
| TcpStream.InsertKeepsQueue | app/src/main/cpp/tun2http/tcp.c:912-966 | insertion keeps the queue strictly sorted, duplicate-free and on the stream, with only the head partly sent |
| TcpStream.SortedPair | app/src/main/cpp/tun2http/tcp.c:922-946 | any two queued segments are strictly ordered by `compare_u32`, and only the first can be partly sent |
| TcpStream.DrainKeeps | app/src/main/cpp/tun2http/tcp.c:299-358 | the send loop hands over exactly the next bytes of the stream, whatever each send returns |
| TcpStream.StepOnStream | app/src/main/cpp/tun2http/tcp.c:196-910 | every tidy step that does not skip keeps the stream invariant |
| TcpStream.UpstreamIsTheStream | app/src/main/cpp/tun2http/tcp.c:300-358 | over every run with loss, repetition, reordering and partial sends, the bytes handed upstream are a prefix of the app's stream, and in every state remote_seq stands where they end, plus the SYN and a counted FIN |
| TcpStream.OtherPortsSkipNothing | app/src/main/cpp/tun2http/tcp.c:300-302 | no run of a session whose port is not 443 skips |
| TcpStream.SkippingLeavesTheStream | app/src/main/cpp/tun2http/tcp.c:300-302 | where the next two bytes of the stream differ, a step hands over bytes of the stream if and only if it does not skip, or hands over nothing |
| TcpStream.DataGoesUpstream | app/src/main/cpp/tun2http/tcp.c:286-358 | a run that is tidy and in which the app's data is handed upstream completely, for every data, sequence number and buffer that holds it |
| TcpStalls.OwedUnlessShorter | app/src/main/cpp/tun2http/tcp.c:912-966 | for every queue on the stream and every later segment: after it is queued its number owes at least its data if and only if no shorter segment with its number was queued |
| TcpStalls.EmptySegmentSwallowsData | app/src/main/cpp/tun2http/tcp.c:946-958 | so data behind an empty segment with its number is not owed at all |
| TcpStalls.ProgressUnlessStale | app/src/main/cpp/tun2http/tcp.c:297-358 | with stream left, some later arrivals and calls of send() that return what they were given hand a byte over if and only if the head does not end its sent part behind remote_seq |
| TcpStalls.StaleStays | app/src/main/cpp/tun2http/tcp.c:300-302 | behind a head that does, nothing is handed over whatever arrives, whatever send() returns and however often the loop runs |
| TcpStalls.PlacedIsFronted | app/src/main/cpp/tun2http/tcp.c:297-358 | the queue of every session on the stream is one to which the equivalence applies |
| TcpStalls.SynDataGoesStale | app/src/main/cpp/tun2http/tcp.c:657-672 | a SYN with data ends up behind such a head once it is answered |
| TcpStalls.RepeatedSynGoesStale | app/src/main/cpp/tun2http/tcp.c:717-757 | so does a SYN of port 443 that is sent again before the socket connects, with the CONNECT line going out on it |
| TcpStalls.DrainReachesGapUnlessOverlap | app/src/main/cpp/tun2http/tcp.c:297-358 | the pieces may overlap: a drain reaches the first missing byte, leaving only pieces past it, if and only if each piece before that byte ends where the next begins or earlier |
| TcpDrain.QueueAllCollects | app/src/main/cpp/tun2http/tcp.c:912-966 | segments that are disjoint or repeated, in any order, are queued once each, sorted, and nothing else is |
| TcpDrain.DrainReachesFirstGap | app/src/main/cpp/tun2http/tcp.c:299-358 | then a drain with room and full sends leaves remote_seq at the first missing byte and exactly the segments past it |
| TcpSends.RecordedIsAccepted | app/src/main/cpp/tun2http/tcp.c:319-340 | at least the bytes the kernel took are recorded as sent, and exactly those if and only if no send fails |
| TcpSends.KernelGetsTheStream | app/src/main/cpp/tun2http/tcp.c:319-340 | over every run on the stream, what the kernel took is the stream up to where the session stands if and only if no send of the run failed |
| TcpSends.DrainCounts | app/src/main/cpp/tun2http/tcp.c:174-183 | what the queue still owes falls by exactly what is handed over |
| TcpSends.InsertCounts | app/src/main/cpp/tun2http/tcp.c:912-966 | and rises by the bytes of a segment that joins the queue, and not for one that repeats a number |
| TcpWire.AppGetsTheBytes | app/src/main/cpp/tun2http/tcp.c:390-443 | over every tidy run the data segments spell the bytes received from the socket, each under its own number, and no data and no second FIN comes behind a FIN |
| TcpWire.SegmentInStream | app/src/main/cpp/tun2http/tcp.c:409-443 | each segment holds the bytes of the socket's stream that its sequence number names, a SYN has the initial number and a FIN the one behind the last byte written |
| TcpWire.ProgressIsAcknowledged | app/src/main/cpp/tun2http/tcp.c:372-388 | what was handed upstream, or a reopened window, is acknowledged in the same event with the new remote_seq and window, and with the FIN exactly if it is pending and the queue is empty |
| TcpWire.StepKeepsWire | app/src/main/cpp/tun2http/tcp.c:32-910 | every tidy step keeps that |
| TcpAcks.AcknowledgementsAreTruthful | app/src/main/cpp/tun2http/tcp.c:372-388 | over every tidy, genuine run in which FINs are counted in order, no segment acknowledges a byte that was not handed upstream when it was written, and the FIN only behind the whole stream; if all writes reach tun, over no other run |
| TcpAcks.OrderIsNeeded | app/src/main/cpp/tun2http/tcp.c:814-834 | with writes that reach tun a step acknowledges truthfully if and only if it is in order |
| TcpAcks.FinAtEnd | app/src/main/cpp/tun2http/tcp.c:814-820 | a FIN counted on arrival is counted behind the whole stream if and only if it has the number that is due |
| TcpAcks.ConfirmedAtEnd | app/src/main/cpp/tun2http/tcp.c:381-388 | a deferred FIN is counted behind the whole stream if and only if the last queued segment ends where the stream does |
| TcpAcks.StepAcks | app/src/main/cpp/tun2http/tcp.c:32-910 | every step in order keeps the acknowledgement invariant |
| TcpAckLosses.LostDataIsAcknowledged | app/src/main/cpp/tun2http/tcp.c:814-820 | for every stream: its data is lost, its FIN arrives, and the FIN is acknowledged one behind the SYN with nothing handed upstream |
| TcpAckLosses.LostTailIsAcknowledged | app/src/main/cpp/tun2http/tcp.c:381-388 | the last segment is lost and the deferred FIN acknowledged all the same |
| TcpAckLosses.RefusedTunnelAcknowledges | app/src/main/cpp/tun2http/tcp.c:267-272 | on port 443 the reset after a failed CONNECT acknowledges a byte that was never sent |
| TcpAckLosses.RefusedTunnelSkips | app/src/main/cpp/tun2http/tcp.c:300-302 | and if the closed session is told to write, the bytes behind that one go upstream without it |
| TcpWindow.SendWindowIsExact | app/src/main/cpp/tun2http/tcp.c:145-150 | in ESTABLISHED and CLOSE_WAIT the fallback `cur->acked` is never used |
| TcpWindow.StepFlight | app/src/main/cpp/tun2http/tcp.c:394-443 | acked moves forward only and not past local_seq, and a data send leaves at most the stored window in flight |
| TcpWindow.StepStoresWindow | app/src/main/cpp/tun2http/tcp.c:776-780 | the stored window changes with every segment the session takes in, to its window field shifted by the scale of the SYN, and with nothing else |
| TcpWindow.AckedExactly | app/src/main/cpp/tun2http/tcp.c:843-886 | acked becomes the number of exactly those segments that acknowledge something new: everything, without SYN and FIN, or something short of the last byte |
| TcpWindow.SendWindowSafety | app/src/main/cpp/tun2http/tcp.c:394-443 | over every run of a new session with shift at most 14 and ACK numbers within 2^31 - 2: a step that takes bytes from the socket leaves no more in flight than the window the app last announced, in the SYN or in a segment that was taken in |
| TcpWindow.ReceiveWindowFits | app/src/main/cpp/tun2http/tcp.c:174-194 | the window is 0 or leaves room for what is queued |
| TcpWindow.WindowIsExact | app/src/main/cpp/tun2http/tcp.c:152-194 | the window is all the room beside what is queued, in half of the socket's send buffer (16384 bytes if unknown) less what it holds and in 0xFFFF units of the scale, and positive exactly if that is a unit or more |
| TcpWindow.WindowIsStored | app/src/main/cpp/tun2http/tcp.c:372-376 | after a socket event past LISTEN the stored window is that of the queue that is left |
| TcpWindow.AdvertisedWindow | app/src/main/cpp/tun2http/tcp.c:1173 | after every run the field is not truncated, and the peer decodes at most the window and zero exactly when it is zero |
| TcpReads.ReadLaw | app/src/main/cpp/tun2http/tcp.c:390-446 | a session that is open once the rest of a readable event is done, with room in the peer's window, takes exactly the first bytes that fit the window and the segment size and writes them in one segment; end of file closes the socket with a FIN or, with a queue, a reset; a transient error changes nothing and another one resets; any other session leaves the socket alone |
| TcpReads.ReadableIsRead | app/src/main/cpp/tun2http/tcp.c:390-446 | so bytes that wait are taken by the event that reports them, in ESTABLISHED and in CLOSE_WAIT, if and only if the segment size of the SYN is not 0; otherwise the connection is ended |
| TcpWakeups.NoLostWakeup | app/src/main/cpp/tun2http/tcp.c:102-129 | an open session asks to read if and only if some readable event would take bytes, to write if and only if some writable event with the same buffers would change the queue, and to be looked at again if and only if one of the two is blocked while there may be something to do |
| TcpWakeups.ListeningMask | app/src/main/cpp/tun2http/tcp.c:94-101 | in LISTEN the mask asks for exactly the event that moves the session on without counting the SYN twice |
| TcpWakeups.MaskFails | app/src/main/cpp/tun2http/tcp.c:131-140 | a mask that cannot be set closes the session, unless it need not be set |
| TcpWakeups.KeepAliveLaw | app/src/main/cpp/tun2http/tcp.c:107-119 | the keep-alive is written while the peer's window is full, after more than a tenth of a second, with one number less, and changes nothing else |
| TcpDiagram.Diagram | app/src/main/cpp/tun2http/tcp.c:32-905 | for every event and every two states: the session comes from one to the other exactly in the cases listed for that state |
| TcpDiagram.NewSessionFollowsDiagram | app/src/main/cpp/tun2http/tcp.c:32-905 | every step of every run of a new session, tidy or not, follows the diagram |
| TcpDiagram.ConnectMoves | app/src/main/cpp/tun2http/tcp.c:265-285 | the CONNECT phase moves with the CONNECT line and with the proxy's answer, and with nothing else |
| TcpWrites.WritesLaw | app/src/main/cpp/tun2http/tcp.c:1043-1223 | in every step on the diagram: how many segments are written, a reset exactly for the reasons listed, a FIN exactly when FIN_WAIT1 or LAST_ACK is entered, a SYN exactly when the SYN is answered; each has the number that was next, the current window, and acknowledges what is counted |
| TcpTimers.ClockIsStored | app/src/main/cpp/tun2http/tcp.c:32-905 | the steps that store the clock, and no other does |
| TcpTimers.ActivityDefers | app/src/main/cpp/tun2http/tcp.c:51-60 | after such a step no sweep changes an open session until its timeout from then is over |
| TcpTimers.IdleSeconds | app/src/main/cpp/tun2http/tcp.c:17-30 | without load an established session may be idle for 3600 seconds and any other for 30, and at the limit for none |
| TcpTimers.ScaledExactly | app/src/main/cpp/tun2http/tcp.c:26-27 | the timeout is the base less the whole percent in use, truncated towards zero, also above the limit |
| TcpTimers.SweptClosed | app/src/main/cpp/tun2http/tcp.c:62-88 | what the sweep leaves of a closed session has no socket and counters of zero, and is removed exactly after 300 seconds |
| TcpTimers.SessionKeepsOptions | app/src/main/cpp/tun2http/tcp.c:619-680 | over every run the port, segment size, scale and initial numbers stay those of the SYN |
| TcpOptions.DecodeOptions | app/src/main/cpp/tun2http/tcp.c:589-614 | the loop computes `Walk`, for every walk that stays in the packet and ends |
| TcpOptions.EndsExactlyUnlessStuck | app/src/main/cpp/tun2http/tcp.c:595-614 | the loop runs for ever if and only if it comes to an option of length zero |
| TcpOptions.ZeroLengthHangs | app/src/main/cpp/tun2http/tcp.c:607-613 | four option bytes that hang it |
| TcpOptions.LastOptionsWin | app/src/main/cpp/tun2http/tcp.c:589-614 | for every list of well-formed options the last MSS and the last window scale win |
| TcpOptions.SynOptions | app/src/main/cpp/tun2http/tcp.c:589-614 | parsing serialized options with padding and payload gives them back |
| TcpOptions.AnswerIsReadSwapped | app/src/main/cpp/tun2http/tcp.c:1178-1189 | the options of a SYN-ACK read back as the same scale and the byte-swapped MSS |
| SegmentWriter.PseudoSums | app/src/main/cpp/tun2http/tcp.c:1150-1158 | the pseudo-header that is built, with swapped IPv6 addresses and the length in the other half, sums like the standard one |
| SegmentWriter.TcpSegmentOk | app/src/main/cpp/tun2http/tcp.c:1161-1195 | header, options and data with the stored complement read back, with no flag set but those asked for, and sum to 0xFFFF with the standard pseudo-header |
| SegmentWriter.BuildTcp | app/src/main/cpp/tun2http/tcp.c:1088-1195 | every TCP packet built, IPv4 or IPv6: headers read back field by field, and the segment sums to 0xFFFF |
| SegmentWriter.UdpSegmentOk | app/src/main/cpp/tun2http/udp.c:495-506 | the same for a UDP datagram, whose checksum field is 0 exactly when the sum of all the rest is a multiple of 65535 |
| SegmentWriter.ZeroChecksumOccurs | app/src/main/cpp/tun2http/udp.c:495-506 | every payload of even length has two more bytes that make it so |
| SegmentWriter.BuildUdp | app/src/main/cpp/tun2http/udp.c:428-506 | every UDP packet built, IPv4 or IPv6 |
| SegmentWriter.PutIpHeader | app/src/main/cpp/tun2http/tcp.c:1110-1148 | the IP header reads back, with a time to live of 64 and no fragment, and an IPv4 header sums to 0xFFFF |
| SessionModel.ScaledBounds | app/src/main/cpp/tun2http/tcp.c:17-30 | a scaled timeout is at most its base, not negative up to the session limit, and never longer with more sessions |
| SessionModel.LiveHasTime | app/src/main/cpp/tun2http/session.c:133-152 | a live session has at least one second left after its check |
| SessionModel.WaitIsMinimum | app/src/main/cpp/tun2http/session.c:117-168 | the epoll wait is at least 1 and exactly the least of 3600 and what each live session has left |
| SessionModel.SweepIsWalk | app/src/main/cpp/tun2http/session.c:123-168 | the walk with the sweep's visit gives the kept sessions and the wait |
| SessionLists.SessionList.Walk | app/src/main/cpp/tun2http/session.c:123-168 | the in-place unlinking loop leaves exactly the kept sessions in their order |
| SessionLists.SessionList.Unlink | app/src/main/cpp/tun2http/session.c:153-167 | one node leaves the list and is freed, and no other |
| SessionLists.SessionList.Sweep | app/src/main/cpp/tun2http/session.c:117-168 | the sweep is `Swept`, the wait is `Wait`, and what is allocated stays what is in the list |
| SessionLists.SessionList.CheckAllowed | app/src/main/cpp/tun2http/session.c:286-356 | blocked UDP sessions are unlinked, all others terminated |
| SessionLists.SessionList.CountAndWatch | app/src/main/cpp/tun2http/session.c:95-115 | live sessions are counted and open TCP sessions monitored |
| SessionLists.SessionList.Lookup | app/src/main/cpp/tun2http/tcp.c:530-540 | the lookup finds the first session of the flow |
| SessionLists.SessionList.HandleTcp | app/src/main/cpp/tun2http/tcp.c:586-716 | a packet goes to its session, or a SYN whose socket opens puts a new one at the head |
| SessionLists.SessionList.HandleUdp | app/src/main/cpp/tun2http/udp.c:217-366 | the same for UDP |
| SessionLists.SessionList.Clear | app/src/main/cpp/tun2http/session.c:15-28 | the open sockets are closed and the forward queues freed in list order, and every node is freed once |
| SessionModel.OpenSocketsAreHeld | app/src/main/cpp/tun2http/session.c:15-28 | the descriptors closed are those the sessions hold, and no other |
| SessionModel.QueuedPiecesAreHeld | app/src/main/cpp/tun2http/session.c:15-28 | the segments freed are those queued in TCP sessions, and no other |
| SessionFlows.TcpLookup | app/src/main/cpp/tun2http/tcp.c:530-540 | the lookup for a TCP packet comes to the first TCP session with its version, addresses and ports, or there is none |
| SessionFlows.UdpLookup | app/src/main/cpp/tun2http/udp.c:217-227 | the same for UDP |
| SessionFlows.TcpKnown | app/src/main/cpp/tun2http/tcp.c:586-716 | a packet of a known flow changes that session by one step and no other |
| SessionFlows.TcpUnknown | app/src/main/cpp/tun2http/tcp.c:586-693 | a packet of an unknown flow changes no session; a SYN without URG whose socket opens puts a session of that flow in front, and no other packet does |
| SessionFlows.UdpKnown | app/src/main/cpp/tun2http/udp.c:217-366 | a datagram of a known flow goes to that session and to no other |
| SessionFlows.UdpUnknown | app/src/main/cpp/tun2http/udp.c:252-307 | a datagram of an unknown flow whose socket opens puts a session of that flow in front and is sent on its socket |
| UdpSessions.UdpDiagram | app/src/main/cpp/tun2http/udp.c:16-366 | in every step of a UDP session: it is finished exactly by a failed send that is not to be tried again, by the last answer (an error, the end of file, one that cannot be written, any for DNS), or at the start of the event loop, and closed exactly by the check, when finished or idle for more than its scaled 15 or 300 seconds; it has its socket until then |
| UdpSessions.UdpConserves | app/src/main/cpp/tun2http/udp.c:94-366 | over every run of a new session, until it is closed: the counters are the bytes of all complete datagrams and of all answers |
| UdpSessions.TrafficDefers | app/src/main/cpp/tun2http/udp.c:33-40 | traffic in either direction keeps a session through its timeout from then |
| SessionFlows.OtherProtocol | app/src/main/cpp/tun2http/udp.c:217-227 | a packet of one protocol leaves the sessions of every other alone |
| UdpSessions.ClosedIsSwept | app/src/main/cpp/tun2http/udp.c:42-63 | a session that is closed has counters of zero and is removed exactly when 60 seconds are over |
| SessionFlows.CountsLive | app/src/main/cpp/tun2http/session.c:95-115 | what counts against the limit is the number of sessions that are not closing, closed, finished or stopped |
| SessionFlows.WatchesOpen | app/src/main/cpp/tun2http/session.c:95-115 | the monitor passes over exactly the TCP sessions with a socket |
| SessionFlows.RecheckIff | app/src/main/cpp/tun2http/session.c:95-115 | a recheck is asked for exactly if one of them asks for it |
| SessionFlows.AllowedEndsAll | app/src/main/cpp/tun2http/session.c:286-356 | afterwards no session is live, and of all sessions exactly the blocked ones are gone |
| SessionFlows.RemovedExactly | app/src/main/cpp/tun2http/session.c:123-168 | a check asks for removal exactly after 300 seconds of TCP, 60 of UDP, and for an ICMP session that was stopped or idle for its scaled 15 seconds |
| SessionFlows.SweepKeepsOthers | app/src/main/cpp/tun2http/session.c:123-168 | every other session stays |
| SessionFlows.SweepAddsNone | app/src/main/cpp/tun2http/session.c:123-168 | and the table holds as many sessions as were not to be removed |
| TableSafety.FindIsUnique | app/src/main/cpp/tun2http/udp.c:217-227 | with one session per flow the lookup is unambiguous |
| TableSafety.TableStepKeeps | app/src/main/cpp/tun2http/session.c:95-356 | every event of the loop keeps one session per flow and the socket invariants |
| TableSafety.TableIsSafe | app/src/main/cpp/tun2http/session.c:123-168 | over every run from the empty table no two TCP and no two UDP sessions have the same key, and neither the sweep nor `check_allowed` unlinks a session that holds a socket |
| Deadlines.CheckOutcome | app/src/main/cpp/tun2http/udp.c:16-64 | a check leaves a session alone while its scaled timeout runs, and starts its keep timeout afterwards |
| Deadlines.EverySessionLeaves | app/src/main/cpp/tun2http/session.c:117-168 | without traffic every session is removed within its scaled timeout, its keep timeout and two sweep intervals |
| Deadlines.UnscaledIsLimit | app/src/main/cpp/tun2http/udp.c:7-14 | the timeout without load bounds the scaled one at every load |
| Deadlines.WaitIsExact | app/src/main/cpp/tun2http/session.c:117-168 | under the same load no live session expires before the computed wait is over, and one does from then on, unless the wait was cut to 3600 |
| Deadlines.IdleTableEmpties | app/src/main/cpp/tun2http/session.c:88-184 | for every table: if each sweep comes when the wait of the one before it is over, the table is empty after any sweep later than the last timeout, the keep timeout, one second and two delays |
| Tls.ParseServerNameExtension | app/src/main/cpp/tun2http/tls.c:32-53 | the walk over server names stores the first host name that fits |
| Tls.ParseExtensions | app/src/main/cpp/tun2http/tls.c:55-80 | the walk over extensions hands on the first server_name |
| Tls.ParseTlsHeader | app/src/main/cpp/tun2http/tls.c:87-183 | on every byte string all reads are in bounds, and the buffer ends up with `Sni`, or as it was |
| Tls.SniOfSerialized | app/src/main/cpp/tun2http/tls.c:87-183 | parsing a serialized ClientHello finds the server name wherever the extension sits |
| Tls.NameComesBack | app/src/main/cpp/tun2http/tls.c:32-53 | a NUL-free host name of 1 to 255 bytes comes back as it is |
| Tls.SniIsDeclarative | app/src/main/cpp/tun2http/tls.c:87-183 | on every byte string the parser finds a name if and only if the bytes are some ClientHello that carries it |
| Dns.GetQName | app/src/main/cpp/tun2http/dns.c:4-43 | the loop computes `QName`, with the text and a NUL in the buffer |
| Dns.MoreTurns | app/src/main/cpp/tun2http/dns.c:11-32 | the outcome does not depend on the number of turns allowed once they suffice |
| Dns.OrderedNamesEnd | app/src/main/cpp/tun2http/dns.c:11-32 | the loop ends if every pointer leads in front of the run of labels it ends |
| Dns.NeverEndsIffRepeats | app/src/main/cpp/tun2http/dns.c:11-32 | the loop never ends if and only if a position and write position repeat, which shows within 256 turns for each byte of the datagram |
| Dns.PointerCycleNeverEnds | app/src/main/cpp/tun2http/dns.c:12-14 | so a cycle of pointers never ends |
| Dns.FullLabelsNeverEnd | app/src/main/cpp/tun2http/dns.c:20-28 | nor do four labels of 63 bytes, wherever they stand, with a pointer back to the first, in which no pointer leads to another: the write position is back at 0 |
| Dns.PointerStandsFor | app/src/main/cpp/tun2http/dns.c:12-19 | a pointer with a fourteen-bit offset stands for the name at that offset and takes two octets |
| Dns.QNameDecodes | app/src/main/cpp/tun2http/dns.c:4-43 | names of at most 255 octets decode to the dotted name of RFC 1035 section 4.1.4, and the end reported is the right one if and only if the name has no pointer or begins with one |
| Dns.ReportedEndIsShort | app/src/main/cpp/tun2http/dns.c:16-19 | labels before a pointer are left out of the end reported |
| Dns.GetDnsQuery | app/src/main/cpp/tun2http/dns.c:138-166 | type, class and name of a query that ends where the question does, and -1 otherwise |
| Dns.QueryExactly | app/src/main/cpp/tun2http/dns.c:138-166 | a datagram is taken for a query if and only if it is no response, has opcode 0 and a question, and its first name is reported to end four octets before the datagram does |
| Dns.QueryRoundTrip | app/src/main/cpp/tun2http/dns.c:138-166 | parsing a serialized one-question query gives back type, class and dotted name |
| Http.FindData | app/src/main/cpp/tun2http/http.c:93-115 | the two loops compute `Find` |
| Http.FindIsFirst | app/src/main/cpp/tun2http/http.c:93-115 | in data that ends with CRLF `find_data` is a first-match search, first character in the same case and the others in any, with no read behind the data |
| Http.LowerIgnoresCase | app/src/main/cpp/tun2http/http.c:93-115 | two bytes are equal in any case exactly if they are equal or one letter in both cases |
| Http.PatchHttpUrl | app/src/main/cpp/tun2http/http.c:119-193 | the method computes `Patch`: whether there is a new request, its bytes in the buffer and its length |
| HttpRewrite.PatchStaysInside | app/src/main/cpp/tun2http/http.c:119-193 | in data that ends with CRLF nothing is read behind it |
| HttpRewrite.RewritesTheTarget | app/src/main/cpp/tun2http/http.c:139-192 | for a request in origin form, `http://` and the host are inserted exactly behind the method if and only if no method tried earlier occurs in the data |
| HttpRewrite.RewriteIsUndone | app/src/main/cpp/tun2http/http.c:180-192 | deleting what was inserted restores the data, and the length reported is exact |
| HttpRewrite.SecondRewriteExactly | app/src/main/cpp/tun2http/http.c:119-193 | for all data that ends with CRLF and is rewritten: a second rewrite changes nothing if the end of the host and the data behind the method spell no method tried before it, and otherwise exactly if `http:` follows the first one they spell |
| HttpRewrite.SecondRewriteDoesNothing | app/src/main/cpp/tun2http/http.c:170-178 | so a request in origin form whose own line was rewritten is left alone |
| HttpRewrite.RewrittenTwice | app/src/main/cpp/tun2http/http.c:142-192 | a PUT whose host ends with GET in front of a space is rewritten twice |
| HttpRewrite.WrongLineRewritten | app/src/main/cpp/tun2http/http.c:142-156 | a POST with a GET in a later line has that line changed |

## Left out

- TcpStream.UpstreamIsTheStream: takes SYNs without data, because a SYN's data is queued at the initial sequence number, where it blocks the queue (`TcpStalls.SynDataGoesStale`); for port 443 it takes tidy runs that do not skip, and packets in the stream's range even if they have no data, because those are queued too (a repeated SYN is not in range).
- TcpSequence.Conservation: for port 443 takes tidy runs, which are exactly the balanced ones (`BalancedIffTidy`).
- TcpWire.AppGetsTheBytes: takes tidy runs for port 443; bytes of the proxy behind its answer to CONNECT are discarded by the source and not part of `taken`.
- TcpAcks.AcknowledgementsAreTruthful: that truth demands order is stated for runs whose writes reach tun, since an acknowledgement that is not written cannot be false.
- TcpStalls.ProgressUnlessStale: takes room for any segment, and arrivals between two runs of the loop only.
- Deadlines.IdleTableEmpties: the delay between the end of a wait and the next sweep, and the length of a sweep, are bounded by a parameter.
- TcpWindow.SendWindowSafety: takes window scales of at most 14, as RFC 7323 section 2.3 demands and the source does not check, and ACK numbers within 2^31 - 2 of what was sent.
- TcpDrain.DrainReachesFirstGap: takes non-empty segments that are disjoint or identical; for overlapping ones `TcpStalls.DrainReachesGapUnlessOverlap` speaks of the queue and not of what arrived.
- SegmentWriter.BuildTcp: takes packets shorter than 65536 bytes, where the 16-bit length fields do not wrap.
- SegmentWriter.BuildUdp: takes packets shorter than 65536 bytes, as above.
- TcpOptions.DecodeOptions: takes option bytes whose walk stays in the bytes that can be read; what the source reads behind them is not defined.
- Dns.GetQName: takes datagrams of at most 65535 bytes whose walk stays inside and ends; outside that the source reads other memory or does not return.
- Http.PatchHttpUrl: takes data in which no comparison reads behind the end, and a buffer with room for the result; the declared size of `patch_buffer` depends on a type this model does not have.
- HttpRewrite.SecondRewriteDoesNothing: takes requests in which the rewrite hits the request line; `SecondRewriteExactly` covers the others.
- Requests sent to port 80 after the rewrite: the source counts a short send of the longer request against the length of the original one, so the stream is stated before the rewrite.
- The node of the session list holds a session as a value; the updates in place inside one TCP session are those of `TcpSessions.TcpSession`, which is proved equal to the same step functions.
- `lookup_hostname` and the text of the CONNECT line: only whether a host name is known is an input, though tcp.c:717-731 always comes to one.
- The reset for a packet of an unknown session (tcp.c:695-715), which changes no session.
- Real sockets, epoll, tun, clocks, `open_tcp_socket` and `open_udp_socket`: their results are inputs; opening a socket is one step.
- Truncation of `time_t` to `int`, and wrap-around of the byte counters `sent` and `received`.
- `handle_ip` with its IPv6 extension headers, `get_uid` and `/proc`: the model starts from a header and a payload.
- ICMP beyond its place in the session list, DHCP, `block_udp` and `has_udp_session`.
- `parse_dns_response`, which only logs, and `check_domain`, which is constant.
- JNI, threads, pipes and `protect_socket` in tun2http.c; all Java code.
- Logging, `strstate`, `hex`, `trim`, `hex2bytes` and address formatting.
