# Models of the protocol code under `sirube/Pods`

Dafny models of four components of BoringSSL and nanopb, and proofs about them. Code that changes its state in place
is modelled by classes and methods, each of them proved against a function on values; the properties are lemmas about
those functions. `dafny verify dfyconfig.toml` checks the whole project.

- **DTLS handshake transport** (RFC 6347, sections 4.1, 4.1.2.6, 4.2.2 to 4.2.4). The sender cuts queued messages into
  fragments with a cursor that is resumed and rewound (`FlightSpec`, `DtlsSender`, `Tiling`), numbers its records in
  two epochs (`RecordNumbers`, `FlightNumbers`), and the receiver reassembles them with a bitmask inside a ring of
  seven slots (`BitMask`, `Reassembly`, `ReceiverSpec`, `DtlsReceiver`) behind a replay window (`ReplayWindow`,
  `RecordLayer`). `EndToEnd` puts both ends around a network that loses, reorders, repeats and delays records;
  `RunAhead` and `Arrival` say exactly when delivery is right, when a message can be read, and which records are fatal.
- **TLS 1.2 handshake machines** (RFC 5246, sections 7.3 and 7.4.9; RFC 5077, section 3). `HandshakeState` has the
  `do_*` steps of both ends as functions, `HandshakeScript` the one sequence of messages that two configurations lead
  to, `HandshakeLocal`, `HandshakeProduct` and `HandshakeRuns` the product of the two machines over two channels,
  `OneEnd`, `HandshakeForm`, `HandshakeChecks` and `HandshakeArrivals` one machine against anyone, `Retries` what
  pending operations and partial flushes do, and `Handshaker` the machines in place, with a method for every `do_*`
  step. `CipherChoice` is the server's choice of a cipher.
- **nanopb codec** (Protocol Buffers Encoding: Base 128 Varints, Signed Integers, Last One Wins). `Descriptors`,
  `Scalars`, `Encoding` and `Decoding` define what is written and read, `CodecRoundTrip`, `WireFormat`, `DecoderLaws`,
  `Merging` and `Acceptance` have the properties, `Varints` the arithmetic, and `FieldIter`, `OutStream`, `Encoder`,
  `InStream` and `Decoder` the code that works on buffers.
- **Outgoing bytes of a TLS connection**. `SslBuffer` and `TlsWriter` have the two queues in front of a transport that
  may take part of what it is given.

Where the code does something a caller might not expect, the model does it too and the exact condition is proved: a
message number just behind the window is an error (`Arrival.FatalIff`); a failure while a packet is sealed can skip
messages (`Tiling.FailedCursor`); the 32-bit varint reader's counter of bit positions wraps on numbers of more than 37
groups (`Varints.CounterSuffices`); an array without a count is taken for empty by its first word
(`CodecRoundTrip.ZeroFirst`); the 16 bits of the epoch wrap (`RecordNumbers.DifferWithinEpochs`); a flush without a
flight leaves the buffer unsent (`TlsWriter.Writer.FlushFlight`); a cipher group left open is lost
(`CipherChoice.ChooseCipher`).

## Model

| member | source | states |
|---|---|---|
| RunAhead.InOrderDelivery | sirube/Pods/BoringSSL-GRPC/ssl/d1_both.cc:211-451 | In every run of a sender, a network that loses, reorders, repeats and delays records, and a receiver with its replay window, each message is read whole, once and in order, whatever the MTUs, application data, retransmissions, sealing failures and key changes and however many messages there are, if and only if the sender is never more than 65536 messages ahead of what was read; beyond that a run is given in which a message is read as another |
| EndToEnd.StaysInOrder | sirube/Pods/BoringSSL-GRPC/ssl/d1_both.cc:297-438 | The safety half for every run, from the invariant: what is read is the prefix of what was queued, byte for byte, header and body |
| EndToEnd.SafeRun | sirube/Pods/BoringSSL-GRPC/ssl/d1_both.cc:255-451 | The invariant of sender, network and receiver holds after every run: what is on the wire is a fragment of its message with a number that was counted, and a slot of the ring holds just those bytes of its own message that arrived |
| EndToEnd.LateDiscarded | sirube/Pods/BoringSSL-GRPC/ssl/dtls_record.cc:140-175 | A record of a message that was read at least 455 messages ago under the same keys is always refused by the replay window, since messages seven apart have growing record numbers; this is what makes 16 bits of message number enough |
| Arrival.CompleteIff | sirube/Pods/BoringSSL-GRPC/ssl/d1_both.cc:255-259 | After any run the current message can be read if and only if a record of it arrived while it was awaited and so did every byte of its body, in fragments of any sizes and transmissions, with messages read and keys changed in between |
| Arrival.SlotHolds | sirube/Pods/BoringSSL-GRPC/ssl/d1_both.cc:265-295 | For every message in the window: its slot is there just when a record of it arrived, and holds exactly the bytes that did |
| Arrival.FatalIff | sirube/Pods/BoringSSL-GRPC/ssl/d1_both.cc:340-406 | A genuine handshake record that reaches the reader ends the handshake exactly when the record layer lets it through and it is too long, its message is longer than allowed, the first encrypted epoch is read and its message is not the current one, or its number is just behind the window |
| Arrival.OthersFatalIff | sirube/Pods/BoringSSL-GRPC/ssl/d1_both.cc:306-338 | Of the sender's other records, in every run: application data never ends the handshake, whenever it arrives, and only moves the replay window; a ChangeCipherSpec ends it exactly when it is let through after a change of keys, and is taken note of when it is let through before |
| Arrival.KeysUnmixed | sirube/Pods/BoringSSL-GRPC/ssl/dtls_method.cc:81-95 | In every run, while a message is awaited and not complete, everything that has arrived of it arrived under the keys in use: fragments under different keys never make up one message |
| Arrival.TransmissionSuffices | sirube/Pods/BoringSSL-GRPC/ssl/d1_both.cc:782-845 | If the records of one complete walk over a flight that are of the current message arrive while it is awaited, it can be read |
| Arrival.FlushTransmits | sirube/Pods/BoringSSL-GRPC/ssl/d1_both.cc:782-845 | A flight that is sent from its start without a failure is such a complete walk |
| BitMask.CompleteIff | sirube/Pods/BoringSSL-GRPC/ssl/d1_both.cc:203-251 | The two completeness tests, whole bytes equal to 0xff and the last one to its bit range, hold exactly when every position below the length is set, also for lengths that 8 does not divide |
| Reassembly.SetBits | sirube/Pods/BoringSSL-GRPC/ssl/d1_both.cc:211-232 | Marking a range sets exactly its bits and clears none |
| Reassembly.Fragment.Mark | sirube/Pods/BoringSSL-GRPC/ssl/d1_both.cc:211-251 | The bitmask stands for the union of the marked ranges, and is dropped exactly when that is the whole message |
| Reassembly.Fragment.Receive | sirube/Pods/BoringSSL-GRPC/ssl/d1_both.cc:390-404 | The message buffer and its mask refine a map from positions to bytes: a fragment adds its bytes, and a complete message ignores it |
| DtlsWire.ParsePut | sirube/Pods/BoringSSL-GRPC/ssl/d1_both.cc:459-473 | A header with a body is parsed back, with what follows it left over |
| DtlsWire.PutParse | sirube/Pods/BoringSSL-GRPC/ssl/d1_both.cc:459-473 | Whatever parses is the serialisation of what was parsed |
| DtlsWire.HeaderBytes | sirube/Pods/BoringSSL-GRPC/ssl/d1_both.cc:511-523 | A fragment's header is, byte for byte, its type, three bytes of message length, two of number, three of offset and three of fragment length, most significant first |
| ReceiverSpec.AcceptAllRingOk | sirube/Pods/BoringSSL-GRPC/ssl/d1_both.cc:265-406 | Any record keeps the ring consistent: slot i holds a message with number i mod 7 inside the window of seven |
| ReceiverSpec.AcceptPlaces | sirube/Pods/BoringSSL-GRPC/ssl/d1_both.cc:340-404 | Any fragment that is not an error is dropped when its number is before the current one or more than seven ahead, and otherwise has the type and length of its message, lies within it, and is then in its slot |
| ReceiverSpec.NextRingOk | sirube/Pods/BoringSSL-GRPC/ssl/d1_both.cc:426-438 | So does going on to the next message, also when the number wraps from 65535 to 0, where the slots of neighbours are not neighbours |
| ReceiverSpec.SameNumber | sirube/Pods/BoringSSL-GRPC/ssl/d1_both.cc:265-282 | The assertion on the number of a message found in the ring never fails |
| DtlsReceiver.Receiver.OpenHandshake | sirube/Pods/BoringSSL-GRPC/ssl/d1_both.cc:297-406 | The loop over the fragments of a record, in place, does what the function on values says |
| DtlsReceiver.Receiver.GetIncomingMessage | sirube/Pods/BoringSSL-GRPC/ssl/d1_both.cc:265-295 | Finds or makes the slot of a message, or fails on a mismatch |
| DtlsReceiver.Receiver.GetMessage | sirube/Pods/BoringSSL-GRPC/ssl/d1_both.cc:408-424 | Gives a message exactly when the current one is complete: its body is the bytes received, and its raw bytes are header and body |
| DtlsReceiver.Receiver.NextMessage | sirube/Pods/BoringSSL-GRPC/ssl/d1_both.cc:426-438 | Empties the slot and advances the number modulo 65536 |
| DtlsReceiver.Receiver.HasUnprocessed | sirube/Pods/BoringSSL-GRPC/ssl/d1_both.cc:440-457 | True exactly when a slot other than that of a message already handed over is occupied |
| ReplayWindow.ReplayExact | sirube/Pods/BoringSSL-GRPC/ssl/dtls_record.cc:128-175 | Over every run from a zeroed bitmap, a number is refused exactly when it is no larger than the maximum and is 64 or more behind it or was accepted before; nothing is accepted twice |
| ReplayWindow.Bitmap.ShouldDiscardNumber | sirube/Pods/BoringSSL-GRPC/ssl/dtls_record.cc:140-150 | The bitmap in place answers as the window on values |
| ReplayWindow.Bitmap.RecordNumber | sirube/Pods/BoringSSL-GRPC/ssl/dtls_record.cc:155-175 | The shift and the set bit record the number |
| RecordLayer.ProcessedOnce | sirube/Pods/BoringSSL-GRPC/ssl/dtls_record.cc:177-272 | Over every run of the reading side that meets no fatal error, with at most n changes of keys and whatever records open, no epoch and number is let through twice, if and only if n is less than 65536 |
| EndToEnd.LetThroughOnce | sirube/Pods/BoringSSL-GRPC/ssl/dtls_record.cc:177-272 | In every run a record that was let through is never let through again, however often the keys have changed: it opens under its own keys only, and while they are in use the window knows it |
| RecordLayer.Connection.TakeChangeCipherSpec | sirube/Pods/BoringSSL-GRPC/ssl/d1_both.cc:475-490 | Tells whether a ChangeCipherSpec had arrived, and takes it |
| RecordLayer.Connection.OpenHandshake | sirube/Pods/BoringSSL-GRPC/ssl/d1_both.cc:297-406 | In place: epoch and window are checked before the record is opened, the window moves only for records that open, and each content type has the outcome that RecordLayer.RecordOpened states |
| RecordLayer.RecordOpened | sirube/Pods/BoringSSL-GRPC/ssl/d1_both.cc:297-353 | After any run of the reading side that has met no fatal error: a record of another epoch, one the window refuses and one that does not open change nothing; application data is fatal under the null cipher and else only moves the window; a ChangeCipherSpec is taken note of if it is the byte 1 under the null cipher and is fatal else; more than 16384 bytes are fatal |
| RecordLayer.Connection.SetReadState | sirube/Pods/BoringSSL-GRPC/ssl/dtls_method.cc:81-95 | Fails while data of the old epoch is left, and otherwise begins the next epoch with an empty window |
| RecordNumbers.NumbersNeverRepeat | sirube/Pods/BoringSSL-GRPC/ssl/dtls_record.cc:294-351 | Over every interleaving of sealing in the current and the previous epoch and changes of keys, all records carry different epochs and numbers if and only if nothing is sealed after its 48-bit counter has wrapped and no two keys that sealed something are a multiple of 65536 changes apart |
| RecordNumbers.DifferWithinEpochs | sirube/Pods/BoringSSL-GRPC/ssl/dtls_method.cc:97-107 | So the 16 bits of the epoch suffice for all runs with at most n changes of keys if and only if n is less than 65536 |
| RecordNumbers.RepeatingRun | sirube/Pods/BoringSSL-GRPC/ssl/dtls_method.cc:97-107 | The run that repeats: a record, 65536 changes of keys, and a record are both number 0 of epoch 0 |
| RecordNumbers.SealEpochIs | sirube/Pods/BoringSSL-GRPC/ssl/dtls_record.cc:294-322 | The epoch that a record gets is that of the keys it is sealed with, for the current and the previous ones |
| RecordNumbers.SequenceUpdate | sirube/Pods/BoringSSL-GRPC/ssl/internal.h:746-748 | The big-endian increment in place adds one, and reports the wrap to 0 |
| RecordNumbers.SequenceState.TakeNumber | sirube/Pods/BoringSSL-GRPC/ssl/dtls_record.cc:294-351 | A record gets the counter of its epoch, which is bumped even if sealing then fails |
| RecordNumbers.SequenceState.SetWriteState | sirube/Pods/BoringSSL-GRPC/ssl/dtls_method.cc:97-107 | The epoch advances, the counter is kept as that of the previous epoch, and begins again at 0 |
| Arrival.CiphersKept | sirube/Pods/BoringSSL-GRPC/ssl/dtls_method.cc:97-107 | After any run the write cipher is the last that was set and the one kept for the previous epoch that before it |
| FlightSpec.SealNextMessage | sirube/Pods/BoringSSL-GRPC/ssl/d1_both.cc:644-734 | What sealing a message can leave: only the record number and the cursor move, the cursor forward and inside the message, and the record fits the room that is left |
| FlightSpec.SealPacket | sirube/Pods/BoringSSL-GRPC/ssl/d1_both.cc:739-780 | A packet fits the MTU, and one with records has moved the cursor on: the measure by which sending a flight ends |
| FlightSpec.PacketLength | sirube/Pods/BoringSSL-GRPC/ssl/d1_both.cc:739-780 | What is counted of a packet is the length of its records, each with 13 bytes of header, its fragment and what sealing added |
| FlightSpec.FragmentFills | sirube/Pods/BoringSSL-GRPC/ssl/d1_both.cc:644-734 | A fragment that is not the rest of its message fills the packet: header, fragment and the most that sealing can add are all the room there is |
| FlightSpec.SendWalks | sirube/Pods/BoringSSL-GRPC/ssl/d1_both.cc:782-827 | Whatever the transport takes or refuses, while sealing does not fail the records it took carry the flight from the cursor where the call began to the cursor where it ended, so that a blocked call resumes where it stopped |
| FlightNumbers.SendNumbers | sirube/Pods/BoringSSL-GRPC/ssl/d1_both.cc:782-827 | Unless a counter wraps, the records of a flight are numbered from where the counters of the two epochs stood on, also if sealing fails for another reason |
| FlightNumbers.SentFlight | sirube/Pods/BoringSSL-GRPC/ssl/dtls_record.cc:294-351 | A call that does not fail has not wrapped a counter |
| FlightSpec.SentWalks | sirube/Pods/BoringSSL-GRPC/ssl/d1_both.cc:782-827 | Also when sealing fails, what the transport has taken is a walk over the flight |
| Tiling.FlushesTile | sirube/Pods/BoringSSL-GRPC/ssl/d1_both.cc:644-834 | Over any number of blocked and resumed flushes with different MTUs the fragments that were written carry exactly the bytes of each message between the cursors, in order, without a gap or a repeat |
| Tiling.FailedCursor | sirube/Pods/BoringSSL-GRPC/ssl/d1_both.cc:798-814 | After a failure the transport has everything up to where the failed packet began, and the cursor still stands there exactly when the first message of that packet could not be sealed: its keys are gone, its counter is at the last number, the AEAD fails, or there is no room for it |
| Tiling.SkippedIsLost | sirube/Pods/BoringSSL-GRPC/ssl/d1_both.cc:798-814 | Otherwise the cursor has moved past messages that were sealed and never written: of such a message no later flush carries anything |
| Tiling.MessageSkipped | sirube/Pods/BoringSSL-GRPC/ssl/d1_both.cc:798-814 | A flight for which this happens: two short messages in one packet when the counter has two numbers left; the second flush succeeds without the first message |
| DtlsSender.Sender.AddOutgoing | sirube/Pods/BoringSSL-GRPC/ssl/d1_both.cc:555-594 | Queues a message behind the flight or begins a new flight, and fails when there are seven |
| DtlsSender.Sender.SealNextMessage | sirube/Pods/BoringSSL-GRPC/ssl/d1_both.cc:644-734 | The method in place does what the function on values says |
| DtlsSender.Sender.SealNextPacket | sirube/Pods/BoringSSL-GRPC/ssl/d1_both.cc:739-780 | The loop that fills a packet does |
| DtlsSender.Sender.SendFlight | sirube/Pods/BoringSSL-GRPC/ssl/d1_both.cc:782-827 | The loop over packets does, and restores the cursor only when the transport refuses a packet |
| DtlsSender.Sender.Retransmit | sirube/Pods/BoringSSL-GRPC/ssl/d1_both.cc:836-845 | Sends the flight again from its first byte |
| HandshakeRuns.CompletesIff | sirube/Pods/BoringSSL-GRPC/ssl/handshake_server.cc:572-1537 | For all configurations of a client and a server over FIFO channels with cryptography that succeeds: a run in which both are done exists if and only if the server gets the certificate it insists on |
| HandshakeRuns.NoDeadlock | sirube/Pods/BoringSSL-GRPC/ssl/handshake_client.cc:535-1705 | If it does get it, one end has a turn that makes progress in every reachable joint state in which not both are done |
| HandshakeRuns.Terminates | sirube/Pods/BoringSSL-GRPC/ssl/handshake_client.cc:1707-1789 | Then every run has at most 1300 turns besides those for its retries, although resumption moves states backwards |
| HandshakeRuns.Completes | sirube/Pods/BoringSSL-GRPC/ssl/handshake_server.cc:1539-1621 | Then every run, however it began, can be continued until both ends are done |
| HandshakeProduct.DoneAgrees | sirube/Pods/BoringSSL-GRPC/ssl/handshake.cc:380-476 | When both ends are done they have the same transcript, parameters and Finished messages, nothing is left in a channel, and the two ends switched to the new keys |
| HandshakeProduct.FinishedOrder | sirube/Pods/BoringSSL-GRPC/ssl/handshake.cc:380-476 | Each end sent one Finished message, over everything before it; the client's comes first in a full handshake, the server's in a resumed one |
| HandshakeProduct.RunInv | sirube/Pods/BoringSSL-GRPC/ssl/handshake_client.cc:1707-1789 | After every run both ends stand at places of one script, and what is between them is on its way |
| HandshakeLocal.ClientDo | sirube/Pods/BoringSSL-GRPC/ssl/handshake_client.cc:1707-1789 | Every step of the client from a state of the script leads to the next, sends or takes what the script has there, or is held up |
| HandshakeLocal.ServerDo | sirube/Pods/BoringSSL-GRPC/ssl/handshake_server.cc:1539-1621 | So does every step of the server, unless it refuses a client without the certificate it insists on |
| Retries.RetriesChangeNothing | sirube/Pods/BoringSSL-GRPC/ssl/handshake.cc:491-628 | Leaving out all pending results of a run gives a run that sends the same, with the same transcript and the same state |
| Retries.FlushesChangeNothing | sirube/Pods/BoringSSL-GRPC/ssl/handshake.cc:491-628 | Leaving out the pending results and taking each flush as a whole gives a run with the same transcript and state, and the same records sent or still to be sent; the same records sent, unless a flush is under way |
| OneEnd.DoneChecked | sirube/Pods/BoringSSL-GRPC/ssl/handshake.cc:380-476 | One end against anyone, whatever records arrive and however its operations answer: when it is done it has sent exactly one Finished message, under the new keys, and checked exactly one of the other end; each is over everything before it, the client's first unless a session was resumed |
| HandshakeArrivals.FinishedArrived | sirube/Pods/BoringSSL-GRPC/ssl/handshake.cc:380-476 | And the Finished that it has checked did arrive, in a record sealed under the new keys |
| HandshakeArrivals.ChangeCipherSpecArrived | sirube/Pods/BoringSSL-GRPC/ssl/handshake.cc:507-540 | An end reads under the new keys, and is done, only when a ChangeCipherSpec has arrived in the clear |
| HandshakeForm.DoneForm | sirube/Pods/BoringSSL-GRPC/ssl/handshake_server.cc:572-1537 | One end against anyone, whatever records arrive and however its operations answer: when it is done its transcript is a handshake of section 7.3 of RFC 5246, with every message that the parameters require, no other, in their order, full or resumed |
| HandshakeForm.SignedBefore | sirube/Pods/BoringSSL-GRPC/ssl/handshake_server.cc:1269-1363 | At every time, each CertificateVerify, Channel ID and Finished in the transcript of an end is over exactly the messages before it, those that it received included |
| HandshakeForm.ServerSettles | sirube/Pods/BoringSSL-GRPC/ssl/handshake_server.cc:572-752 | A server that is done has settled what its configuration says: it resumes only a session that it found and the client offered, and asks for a certificate just if it verifies peers, has one itself and Channel ID does not stand in |
| HandshakeForm.ClientProvesKey | sirube/Pods/BoringSSL-GRPC/ssl/handshake_server.cc:1269-1363 | A server that is done and has a client's key has a signature in its transcript over everything before it, with the client's certificate before that |
| HandshakeChecks.AnswersObeyed | sirube/Pods/BoringSSL-GRPC/ssl/handshake_server.cc:432-1267 | For every state of both machines that asks for an operation: a failure is an error, a pending result stops the end there with that operation, success leads on; no other state looks at an answer |
| HandshakeChecks.CertificateVerified | sirube/Pods/BoringSSL-GRPC/ssl/handshake_server.cc:1042-1056 | In every run, a client that is done after a full handshake with certificates was in the state that verifies the server's and the verification succeeded, and so did that of the client's for a server that has its key |
| HandshakeChecks.InsistsOnCertificate | sirube/Pods/BoringSSL-GRPC/ssl/handshake_server.cc:949-1056 | A server that verifies peers and insists on a certificate completes a full handshake only with one that was verified and whose key has signed everything before |
| HandshakeChecks.FailureIsFinal | sirube/Pods/BoringSSL-GRPC/ssl/handshake.cc:491-628 | After an operation has failed no further events ever get the end out of its error |
| HandshakeArrivals.EarlyReturnSafe | sirube/Pods/BoringSSL-GRPC/ssl/handshake_client.cc:1538-1564 | A client hands control back before the server's Finished only with false start, ECDHE and a full handshake, and only when the transport has taken its own Finished under the new keys |
| OneEnd.TurnsBounded | sirube/Pods/BoringSSL-GRPC/ssl/handshake.cc:491-628 | Such an end has at most 307 turns besides those for operations that are pending, whatever it is sent |
| OneEnd.NotStuck | sirube/Pods/BoringSSL-GRPC/ssl/handshake.cc:491-628 | It has a turn, unless it is done, has met an error or waits for a record that has not come |
| OneEnd.RunSound | sirube/Pods/BoringSSL-GRPC/ssl/handshake_client.cc:1707-1789 | The invariant behind this: in each state of either machine, how many of the two Finished messages are behind it, and what they are over |
| Retries.ErrorIsFinal | sirube/Pods/BoringSSL-GRPC/ssl/handshake.cc:491-628 | After an error an end sends nothing more and changes nothing |
| Handshaker.Handshake.RunHandshake | sirube/Pods/BoringSSL-GRPC/ssl/handshake.cc:491-628 | The loop in place is a list of turns of the model: it returns success only when done or for an early return, and an error once met changes nothing |
| Handshaker.Handshake.Resolve | sirube/Pods/BoringSSL-GRPC/ssl/handshake.cc:495-575 | The switch on what is waited for: it goes on after at most one turn, or returns an error, or success for an early return; an error changes nothing |
| Handshaker.Handshake.RunMachine | sirube/Pods/BoringSSL-GRPC/ssl/handshake_client.cc:1707-1789 | The loop over states ends by a measure, and is the machine on values |
| Handshaker.Handshake.ClientStep | sirube/Pods/BoringSSL-GRPC/ssl/handshake_client.cc:1707-1789 | The switch over the client's states: each do_ method leaves the state that its step on values gives, of which HandshakeLocal.ClientDo and OneEnd.DoneChecked speak |
| Handshaker.Handshake.ServerStep | sirube/Pods/BoringSSL-GRPC/ssl/handshake_server.cc:1539-1621 | The switch over the server's states, likewise: what the steps come to is in HandshakeForm.DoneForm and HandshakeChecks.AnswersObeyed |
| Handshaker.Handshake.SendFinished | sirube/Pods/BoringSSL-GRPC/ssl/handshake.cc:431-476 | Sends a Finished message over the transcript so far, which then contains it |
| Handshaker.Handshake.GetFinished | sirube/Pods/BoringSSL-GRPC/ssl/handshake.cc:380-429 | Waits for a message, refuses one that is not the Finished over the transcript, and otherwise adds it |
| CipherChoice.ChooseCipher | sirube/Pods/BoringSSL-GRPC/ssl/handshake_server.cc:357-424 | A cipher is chosen if and only if one that both sides can use is in a group that ends; it is then the best of all: of the first group, and in it the earliest in the other side's list |
| CipherChoice.Search | sirube/Pods/BoringSSL-GRPC/ssl/handshake_server.cc:384-422 | The loop with the least index of a group so far finds that cipher |
| CipherChoice.ClosedChooses | sirube/Pods/BoringSSL-GRPC/ssl/internal.h:1860-1893 | If the groups of the server's list are closed, something is chosen exactly when the two lists have a cipher in common that both sides can use |
| CipherChoice.OpenGroupLost | sirube/Pods/BoringSSL-GRPC/ssl/handshake_server.cc:395-422 | If all that both sides can use is in a group left open at the end, nothing is chosen |
| CipherChoice.FirstOfClient | sirube/Pods/BoringSSL-GRPC/ssl/handshake_server.cc:377-390 | Without server preference the choice is the client's first cipher that both sides can use |
| TlsWriter.Writer.Run | sirube/Pods/BoringSSL-GRPC/ssl/s3_pkt.cc:129-289 | In any run of messages, flushes, alerts and application writes that are repeated until they succeed, with a transport that takes parts or fails: what was sent is a prefix of the sealed records in order, and the application's records carry exactly the first bytes of its stream, each once |
| TlsWriter.Writer.WriteAppData | sirube/Pods/BoringSSL-GRPC/ssl/s3_pkt.cc:129-200 | A write that is retried with the same data seals each byte once and in order however often it fails in between, and what it reports is what was sealed |
| TlsWriter.Writer.DoWrite | sirube/Pods/BoringSSL-GRPC/ssl/s3_pkt.cc:221-289 | What is pending is written first and reported; a new record goes behind what is left of the flight; the FIFO equation is kept |
| TlsWriter.Writer.WritePending | sirube/Pods/BoringSSL-GRPC/ssl/s3_pkt.cc:202-218 | Refuses a retry with other arguments, and is done when the buffer is empty |
| TlsWriter.Writer.DispatchAlert | sirube/Pods/BoringSSL-GRPC/ssl/s3_pkt.cc:405-423 | An alert is a record of its own and leaves the pending write as it is |
| TlsWriter.Writer.AddRecordToFlight | sirube/Pods/BoringSSL-GRPC/ssl/s3_both.cc:135-165 | A record is sealed at the end of the flight, which is not partly written |
| TlsWriter.Writer.AddMessage | sirube/Pods/BoringSSL-GRPC/ssl/s3_both.cc:184-205 | The records of a message carry its bytes, in fragments of at most the limit; an empty message has one record |
| TlsWriter.Writer.FlushFlight | sirube/Pods/BoringSSL-GRPC/ssl/s3_both.cc:231-279 | The buffer is sent before the flight. On success all that was sealed has been sent if and only if there was a flight or the buffer was empty: without a flight, bytes in the buffer stay there |
| TlsWriter.Writer.BufferFlush | sirube/Pods/BoringSSL-GRPC/ssl/ssl_buffer.cc:239-252 | What the transport takes leaves the front of the buffer |
| SslBuffer.SSLBuffer.EnsureCap | sirube/Pods/BoringSSL-GRPC/ssl/ssl_buffer.cc:47-81 | The contents survive a move to a larger buffer; more than 65535 bytes are refused |
| SslBuffer.SSLBuffer.Consume | sirube/Pods/BoringSSL-GRPC/ssl/ssl_buffer.cc:90-97 | The front of the contents goes, and what is behind it stays |
| SslBuffer.SSLBuffer.DiscardConsumed | sirube/Pods/BoringSSL-GRPC/ssl/ssl_buffer.cc:99-103 | An emptied buffer gives up its memory; contents are never lost |
| CodecRoundTrip.RoundTrip | sirube/Pods/nanopb/pb_encode.c:126-516 | For every well-formed descriptor and every message that fits it, encoding succeeds, decoding takes all of the output and succeeds, and the message looks the same if and only if no struct that the default check takes for empty contains an array without a count |
| CodecRoundTrip.EncodeSucceeds | sirube/Pods/nanopb/pb_encode.c:494-516 | Messages that fit can be encoded |
| WireFormat.MessageFormat | sirube/Pods/nanopb/pb_encode.c:307-516 | Whatever is written is a message in the format: the fields in the descriptor's order, each value behind eight times its tag plus wire type 0, 1, 5 or 2, integers as varints or zigzag numbers, eight and four bytes lowest first, lengths before strings and messages, arrays of numbers packed, and zero or empty members without has flag left out |
| WireFormat.TaggedRead | sirube/Pods/nanopb/pb_encode.c:641-672 | The tag of a value is read as its field's number and the wire type of its kind: 5 before exactly four bytes, 1 before eight, 0 before one varint, 2 before one chunk |
| WireFormat.PackedRead | sirube/Pods/nanopb/pb_encode.c:126-211 | A packed array is one tag of wire type 2 and one chunk with the elements in the format |
| WireFormat.VarintBytes | sirube/Pods/nanopb/pb_encode.c:574-594 | Byte i of a varint has bits 7i to 7i + 6, and its high bit exactly if another follows |
| WireFormat.EmptyIff | sirube/Pods/nanopb/pb_encode.c:215-303 | A struct counts as empty exactly when nothing would be written for its members and no union in it has a tag, arrays without a count aside |
| WireFormat.FieldSkipped | sirube/Pods/nanopb/pb_decode.c:316-326 | A decoder that lacks the field skips exactly what was written for it, whatever its type and rule |
| WireFormat.ForwardCompatible | sirube/Pods/nanopb/pb_decode.c:901-960 | A message with added fields is read by a program built without them as the message without the fields |
| CodecRoundTrip.ZeroFirst | sirube/Pods/nanopb/pb_encode.c:215-303 | A message that is lost: five one-byte numbers of which the first four are zero |
| CodecRoundTrip.AllDefaultSame | sirube/Pods/nanopb/pb_encode.c:215-303 | What the default check leaves out is what the decoder sets by default, but for arrays without a count |
| Scalars.ScalarTrip | sirube/Pods/nanopb/pb_encode.c:734-869 | Every scalar in the range of its member is decoded to itself, sign extension and casts included |
| DecoderLaws.DecodeFold | sirube/Pods/nanopb/pb_decode.c:901-1049 | Decoding one input after another is decoding the two as one, unless a zero tag ends the first |
| DecoderLaws.DecodeTwice | sirube/Pods/nanopb/pb_decode.c:901-1049 | Two inputs in turn into one struct give what both at once give, for descriptors without fixed-count arrays |
| Merging.MergesTwice | sirube/Pods/nanopb/pb_decode.c:1463-1485 | Two pieces of a required, optional or singular struct: the second is decoded into what the first has left, and that into what the member held; the errors of either are errors |
| Merging.MergeIsConcatenation | sirube/Pods/nanopb/pb_decode.c:1463-1485 | Merging two pieces gives what one piece with both contents gives |
| Merging.ElementsAreFresh | sirube/Pods/nanopb/pb_decode.c:1463-1485 | An element of an array of structs is decoded into the defaults and added; one more than there is room for is an error |
| Merging.MembersAreFresh | sirube/Pods/nanopb/pb_decode.c:460-470 | A member of a union is decoded into the defaults, whatever the union held |
| Merging.Replaces | sirube/Pods/nanopb/pb_decode.c:401-475 | A number or string replaces what the member holds, and the active member of a union |
| DecoderLaws.UnknownIgnored | sirube/Pods/nanopb/pb_decode.c:316-326 | A field that the descriptor does not have can stand between any two fields and changes nothing |
| DecoderLaws.RequiredRead | sirube/Pods/nanopb/pb_decode.c:1000-1049 | When a message is accepted, the tag of each of its first 64 required fields was read at the end of a field |
| DecoderLaws.DecodeSafe | sirube/Pods/nanopb/pb_decode.c:1051-1063 | On arbitrary bytes an accepted message stays within its struct at every depth: counts within arrays, strings with room for their NUL; the rest of the input is what follows |
| Acceptance.ArraysWhole | sirube/Pods/nanopb/pb_decode.c:963-1012 | On arbitrary bytes an accepted message has each array without a count in full, or not at all where no field of it came, at every depth |
| Acceptance.IntegerAccepted | sirube/Pods/nanopb/pb_decode.c:1289-1373 | An integer is accepted exactly when its member can hold it, and is then the number it stands for: the 64 bits, their low 32 bits in signed members of up to four bytes, or the zigzag number |
| Acceptance.BytesAccepted | sirube/Pods/nanopb/pb_decode.c:1391-1508 | Bytes are accepted exactly when the member has room, with their count or a NUL, a string ends at its first NUL, and inline bytes have just their length, or none and are zeros |
| Acceptance.PackedOrNot | sirube/Pods/nanopb/pb_decode.c:418-460 | An array of numbers is read the same packed and element by element |
| Acceptance.OverflowRefused | sirube/Pods/nanopb/pb_decode.c:418-450 | A packed array with more elements than there is room for is refused |
| Acceptance.BadWireRefused | sirube/Pods/nanopb/pb_decode.c:316-326 | An unknown field of wire type 3, 4, 6 or 7 is refused |
| DecoderLaws.Advance | sirube/Pods/nanopb/pb_decode.c:100-151 | The decoder stops at a suffix of its input |
| Varints.GetPut64 | sirube/Pods/nanopb/pb_encode.c:574-594 | Every 64-bit number takes at most ten bytes and is read back |
| Varints.PutSize | sirube/Pods/nanopb/pb_encode.c:574-594 | A number takes at most k bytes exactly when it has at most 7k bits |
| Varints.GetPut32 | sirube/Pods/nanopb/pb_decode.c:182-248 | Every 32-bit number is read back by the 32-bit reader |
| Varints.ReadersAgree | sirube/Pods/nanopb/pb_decode.c:182-271 | Whenever both readers take a number they stop at the same byte, and the 32-bit reader has its low 32 bits, for sign-extended negatives too |
| Varints.FitsExactly | sirube/Pods/nanopb/pb_decode.c:205-242 | Of the numbers of up to five groups the 32-bit reader takes exactly those below 2^32 |
| Varints.NegativeRead | sirube/Pods/nanopb/pb_decode.c:205-242 | A negative 32-bit number that was sign-extended to 64 bits, and takes ten bytes, is read as its 32 bits |
| Varints.CounterSuffices | sirube/Pods/nanopb/pb_decode.c:182-242 | Of every number of at most n groups that it takes, the 32-bit reader has the low 32 bits, if and only if n is at most 37 |
| Varints.LongNumberWraps | sirube/Pods/nanopb/pb_decode.c:205-235 | The 8-bit counter of bit positions wraps on a long number: an input of 38 groups whose low 32 bits are zero, which the 32-bit reader takes for 8 and the 64-bit reader refuses |
| Varints.ZigzagBijection | sirube/Pods/nanopb/pb_encode.c:596-605 | Zigzag coding is a bijection between the signed and the unsigned 64-bit numbers |
| Varints.ZigzagAlternates | sirube/Pods/nanopb/pb_decode.c:1240-1252 | Non-negative numbers are the even codes, negative ones the odd |
| FieldIter.FieldIter.Next | sirube/Pods/nanopb/pb_common.c:20-76 | The iterator goes to the next field or around; its offsets and required index stay sums over the fields before |
| FieldIter.FieldIter.Find | sirube/Pods/nanopb/pb_common.c:78-95 | From any position it finds the field with the tag if there is one; an empty descriptor finds tag 0 at its terminator |
| FieldIter.OffsetIsPlace | sirube/Pods/nanopb/pb_common.c:8-76 | At every field the iterator is at the member that the field describes |
| OutStream.OStream.Write | sirube/Pods/nanopb/pb_encode.c:101-119 | A write counts its bytes, fails beyond the capacity, and leaves other bytes alone |
| Encoder.GetEncodedSize | sirube/Pods/nanopb/pb_encode.c:533-542 | Succeeds exactly when the message can be encoded, and gives the length of the output |
| Encoder.EncodeToBuffer | sirube/Pods/nanopb/pb_encode.c:84-124 | Encoding into a buffer succeeds if and only if the size counted first is within the capacity, writes exactly that many bytes, and nothing beyond the capacity otherwise |
| Encoder.EncodeSubmessage | sirube/Pods/nanopb/pb_encode.c:682-730 | Counting and writing a submessage agree at every depth: the error that its size changed never occurs |
| Encoder.EncodeMessage | sirube/Pods/nanopb/pb_encode.c:494-516 | The loop over the fields writes what the function on values says, which WireFormat.MessageFormat puts in terms of the format |
| Encoder.EncodeField | sirube/Pods/nanopb/pb_encode.c:307-392 | So does a field by its rule, with the default check for members without has flag |
| Encoder.EncodeArray | sirube/Pods/nanopb/pb_encode.c:126-211 | So does an array, packed with its size counted first where the type allows it |
| Encoder.EncodeVarint | sirube/Pods/nanopb/pb_encode.c:574-594 | The loop over groups of seven bits |
| Encoder.EncodeFixed | sirube/Pods/nanopb/pb_encode.c:607-633 | The bytes of a fixed-width number, the lowest first |
| InStream.IStream.DecodeVarint32 | sirube/Pods/nanopb/pb_decode.c:182-248 | The loop with its skipped and sign-extended groups refines the reader on values |
| InStream.IStream.DecodeVarint | sirube/Pods/nanopb/pb_decode.c:250-270 | The shifting loop reads the number that the groups stand for, of at most ten bytes |
| InStream.IStream.SkipField | sirube/Pods/nanopb/pb_decode.c:316-326 | Skips a field by its wire type |
| InStream.IStream.DecodeTag | sirube/Pods/nanopb/pb_decode.c:293-314 | Reads a tag, and tells the end of the input from an error |
| InStream.IStream.Open | sirube/Pods/nanopb/pb_decode.c:367-380 | The substream is exactly the chunk, and the stream is behind it |
| InStream.IStream.Close | sirube/Pods/nanopb/pb_decode.c:382-395 | What was not read of the substream is skipped |
| Decoder.DecodeMessage | sirube/Pods/nanopb/pb_decode.c:901-1049 | The loop with iterator, required bits and fixed-count bookkeeping refines the decoder on values, and ends |
| Decoder.DecodeFresh | sirube/Pods/nanopb/pb_decode.c:1051-1063 | A message is decoded into defaults; what is accepted fits |
| Decoder.DecodeStaticField | sirube/Pods/nanopb/pb_decode.c:401-475 | A member by its rule: packed and single elements with their overflow errors, structs merged as Merging says, union members |
| Decoder.DecodeSubmessage | sirube/Pods/nanopb/pb_decode.c:1463-1485 | A submessage is decoded through its substream |
| Decoder.DecodePacked | sirube/Pods/nanopb/pb_decode.c:418-450 | The elements of a packed array, as long as there is room |
| Decoder.CheckRequired | sirube/Pods/nanopb/pb_decode.c:1005-1045 | The two words of required bits are complete exactly when all tracked required fields were seen |
| Decoder.DecodeScalar | sirube/Pods/nanopb/pb_decode.c:1289-1508 | The scalar decoders |

## Left out

DTLS:

- RunAhead.InOrderDelivery: runs end where a 48-bit counter would wrap, since numbers may repeat after that; other
  sealing failures are part of the runs. A record opens under the keys it was sealed with and under no others.
- Tiling.FlushesTile: for flights whose messages have different numbers, and calls in which sealing does not fail;
  `Tiling.FailedCursor` and `Tiling.SkippedIsLost` say what a failure does.
- RecordLayer.Connection.OpenHandshake: decryption is an oracle; alerts, and the content types that are not handshake,
  ChangeCipherSpec or application data, are not modelled.
- Reassembly.Fragment.Receive: the bytes of a message buffer that have not arrived are indeterminate in the original;
  the properties are about the map of those that have.
- FlightSpec.SealNextMessage: what an AEAD does is a function of a record's number and length, which may fail;
  `MaxOverhead` is at least the explicit nonce, as `ssl_aead_ctx.cc` computes it.
- DtlsReceiver.Receiver.NextMessage: `flight_has_reply`, which only stops a timer, is not modelled.
- DtlsReceiver.Receiver.HasUnprocessed: the flag for a ChangeCipherSpec is asked for in
  `RecordLayer.Connection.SetReadState`.
- DtlsSender.Sender.AddOutgoing: lengths are below 2^32, which the original checks.
- DtlsSender.Sender.SendFlight: the MTU is a parameter, and the test for a closed connection is left to the caller.
- RecordLayer.ProcessedOnce: about epochs and numbers, with decryption as an oracle; `EndToEnd.LetThroughOnce` is
  about records and the keys they were sealed with.
- Arrival.KeysUnmixed: about runs in which a message that was handed over before a change of keys is complete, as
  `DtlsReceiver.Receiver.GetMessage` gives no other.
- Arrival.OthersFatalIff: the sender sends application data only after a change of keys, as the original asserts; the
  records of the other end's application that a reader processes after the handshake are not modelled.
- Timers, MTU discovery, HelloVerifyRequest and the aliasing test of `dtls_seal_record`.
- The state that a fatal error leaves behind: after one nothing more is said of the receiver.

Handshake:

- HandshakeRuns.CompletesIff: cryptography is symbolic: a Finished message or signature is a function of the
  transcript it covers, and everything else that may be pending succeeds in the end.
- HandshakeRuns.Terminates: for two ends that meet each other; `OneEnd.TurnsBounded` is for one end and any records.
- HandshakeProduct.FinishedOrder: about what two such ends agree on; `OneEnd.DoneChecked` is for one end and any
  records.
- HandshakeForm.DoneForm: about which messages there are and what signatures and Finished messages cover, not about
  what else the messages say; a client may find a CertificateStatus left out, as in the original.
- HandshakeArrivals.EarlyReturnSafe: the configuration's falseStart stands for the mode, the AEAD and the negotiated
  protocol that the original asks for as well.
- HandshakeProduct.DoneAgrees: what extensions negotiate is part of the configurations; each message has a record of
  its own.
- Handshaker.Handshake.ClientStep: the contents of certificates, key exchanges and requests, and the checks of
  version, cipher and session in a ServerHello, are not modelled; nor are those that the server's steps make of a
  ClientHello.
- Handshaker.Handshake.DoSelectCertificate: the choice of version, certificate and cipher is part of the
  configuration; `CipherChoice` has the choice of the cipher by itself.
- TLS 1.3, early data, SSL 3.0, renegotiation, handoff, version negotiation, and the parsing of certificates, PSK
  identities and signature algorithms.
- The compatibility of a resumed session with the ServerHello's version and cipher: assumed.
- CipherChoice.ChooseCipher: ciphers are compared by identity of their fields, and the flags of groups are booleans.

nanopb:

- CodecRoundTrip.RoundTrip: in a struct without has flag, arrays without a count are numbers, byte strings or inline
  bytes of at least four bytes in all; with strings or structs the default check reads bytes that no value determines.
  Memory is little-endian.
- Encoder.EncodeMessage: requires the same of such arrays; a length of 2^64 bytes or more counts as an error.
- Decoder.DecodeMessage: says nothing of the struct after a failure.
- Decoder.DecodeStaticField: on failure the contents of the struct are left open, with them the count of an array that
  overflows and is then one too high; array elements that were not read are absent from the model.
- Merging.MergeIsConcatenation: not for fixed-count arrays, nor where a zero tag ends the first piece.
- WireFormat.ForwardCompatible: for fields that come behind the known ones in the descriptor;
  `WireFormat.FieldSkipped` is for a field anywhere.
- DecoderLaws.DecodeTwice: not for fixed-count arrays, whose bookkeeping begins again with each call.
- Callbacks, extensions, pointer fields, default values of fields, custom streams, delimited and null-terminated
  messages, and builds without 64-bit numbers.

Outgoing bytes:

- TlsWriter.Writer.Run: sealing is any function that adds at most the announced overhead, and may fail; the transport
  is a script of results.
- SslBuffer.SSLBuffer.EnsureCap: alignment of the buffer is not modelled, nor is a failure of allocation.
- TlsWriter.Writer.DispatchAlert: the flag of an alert to be sent, and the flush behind a fatal one.
- Reading, the read buffer, and the part of `ssl_buffer.cc` for datagrams.

The application itself, the other libraries under `sirube/Pods`, BIO objects, error queues and message callbacks are
not part of this model.
