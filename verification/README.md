# Verified models of the nanopb codec and the TLS and DTLS core

The application links two native libraries whose logic carries its data: the nanopb Protocol
Buffers codec and BoringSSL's TLS and DTLS implementation. This project models their hardest
parts in Dafny and proves what they are for. Each part has a specification on values and,
where the code updates buffers, counters or objects step by step, methods and classes with the
same loops and fields that are proved equal to it.

* **Protocol Buffers codec** (`Pb*.dfy`). Tables of fields, structs as typed values, the two
  kinds of stream, the encoder with its sizing pass and the decoder with its cyclic iterator and
  required-field bitset. Main results: the wire format fixed byte by byte by a grammar
  written without the codec's constants and byte functions, the round trip of whole messages with the exact condition
  under which it fails, agreement of sizing and writing, the merging of submessages, and
  independence of unknown fields and of the grouping of packed arrays.
* **DTLS** (`Dtls*.dfy`, `SslAead.dfy`; RFC 6347). Fragmentation and retransmission, reassembly,
  records, the replay window and nonces. Main results: over every run with an arbitrary network,
  messages arrive whole and in order, with the exact number of messages up to which that holds;
  and a flight whose packets arrive, in whatever order, is delivered without an alert.
* **TLS** (`Tls*.dfy`, `CipherChoice.dfy`, `ConstantTime.dfy`; RFC 5246). The write path under
  short and failing writes, the client and server handshake machines with their drivers, cipher
  choice and the branch-free padding check. Main results: conservation of wire order and of
  what each call seals, retried writes lose and repeat nothing, two machines exchange exactly the
  messages of the handshake, agree on one transcript and complete, and against any peer no
  machine finishes without having checked its proofs.
* **Sessions** (`Der.dfy`, `SslSession*.dfy`). The DER serializer and parser, the stored form byte
  by byte, and their exact round trip.
* **Arithmetic** (`Words.dfy`, `Digits.dfy`). Shifts, masks and big-endian numbers on unbounded
  integers, with every machine width written out, and the digits that state layouts without them.

Four behaviours that the comments do not lead one to expect are modelled as the code has them:
the receive window lets the number read_seq + 7 through its first test and then reports an error
(`ToDoList/Pods/BoringSSL-GRPC/ssl/d1_both.cc:380-385` against lines 267-270); a sender that adds
a message forgets the flight it flushed before, so that the 65537th message can stand in for a
lost first one (lines 555-560); a string that fills its buffer is encoded but not accepted back
(`ToDoList/Pods/nanopb/pb_encode.c:847` against `ToDoList/Pods/nanopb/pb_decode.c:1454`); and the
default test of a fixed-count array reads the first four bytes of the array as its count
(`ToDoList/Pods/nanopb/pb_encode.c:217-229`, in the repository's build with PB_FIELD_32BIT,
`ToDoList/Pods/nanopb/pb.h:205-206`).

The network, the transport's answers, random bytes, cryptography, certificates and allocation
addresses are parameters. `dafny verify dfyconfig.toml` checks the whole project.

## Model

| member | source | states |
|---|---|---|
| PbFidelity.RoundTrip | ToDoList/Pods/nanopb/pb_encode.c:494-516 | The main round trip, exactly: for every well-formed table and every message of it that encodes, the decoder accepts the bytes, leaves none over and reads a message no reader can tell from the sender's, if and only if every written C string has its NUL inside its buffer and no submessage was left out as "default" that holds, directly or nested, a fixed-count array longer than a pb_size_t. |
| PbRoundTrip.MessageBack | ToDoList/Pods/nanopb/pb_decode.c:901-1063 | Decoding the encoder's output yields exactly the normal form of the message (unset fields at their defaults) and an empty rest; it is refused exactly when a written string fills its buffer without a NUL. |
| PbFidelity.MessageSame | ToDoList/Pods/nanopb/pb_encode.c:215-303 | The normal form is the sender's message for every reader, if and only if nothing was lost to the default-value test. |
| PbFidelity.DefaultSame | ToDoList/Pods/nanopb/pb_encode.c:215-303 | A submessage that passes the proto3 default test holds what a reader gets for an absent one, if and only if no fixed-count array longer than a pb_size_t is inside it: of an array the test reads the first four bytes of memory as a count, and the decoder's defaults write zeros over no more than those. |
| PbFidelity.LostArray | ToDoList/Pods/nanopb/pb_encode.c:217-229 | The concrete message that gets lost: a proto3 submessage holding the array of 32-bit integers 0, 7 encodes to no bytes at all. |
| PbFidelity.KeptArray | ToDoList/Pods/nanopb/pb_decode.c:838-845 | And one that is omitted but not lost: an array of two 16-bit zeros fits a pb_size_t, and the decoder's defaults put it back. |
| PbRoundTrip.CellBack | ToDoList/Pods/nanopb/pb_decode.c:1463-1508 | Every single item (all integer types, byte arrays, strings, fixed bytes, submessages of any depth) is read back from its encoding, whatever follows it. |
| PbRoundTrip.NumBack | ToDoList/Pods/nanopb/pb_decode.c:1289-1389 | All integer widths and signs, zigzag and fixed width included, survive encoding and the range check of the decoder. |
| PbRoundTrip.BlobBack | ToDoList/Pods/nanopb/pb_decode.c:1391-1461 | Byte arrays and strings survive; a string is refused exactly when it has no room for its NUL. |
| PbRoundTrip.PackedBack | ToDoList/Pods/nanopb/pb_decode.c:419-459 | A packed run is read back element by element, in order, and fills nothing else. |
| PbRoundTrip.TaggedBack | ToDoList/Pods/nanopb/pb_decode.c:419-459 | Elements written one by one with their tags are appended one by one to the same array. |
| PbRoundTrip.FieldsBack | ToDoList/Pods/nanopb/pb_decode.c:919-1003 | Reading resumes correctly after every field: the loop state after k fields is the normal form of the first k fields. |
| PbVarint.ReadWritten | ToDoList/Pods/nanopb/pb_decode.c:250-270 | The 64-bit varint reader undoes the varint writer for every 64-bit value and stops exactly behind it. |
| PbVarint.ReadWritten32 | ToDoList/Pods/nanopb/pb_decode.c:182-242 | The 32-bit reader gives back every 32-bit value the encoder wrote, and stops exactly behind it. |
| PbVarint.ReadNegative32 | ToDoList/Pods/nanopb/pb_decode.c:182-242 | A negative number that the encoder sign-extended to ten bytes is read back as its 32-bit pattern. |
| PbVarint.VarintLen | ToDoList/Pods/nanopb/pb_encode.c:574-594 | k bytes hold every value below 2^(7k): a 64-bit value takes at most ten bytes. |
| PbEncode.EncodeMessage | ToDoList/Pods/nanopb/pb_encode.c:494-516 | Encoding onto a stream succeeds exactly when the message has an encoding and it fits in max_size - bytes_written, and then exactly those bytes are appended and counted; on a sizing stream only the count changes. |
| PbEncode.EncodedSize | ToDoList/Pods/nanopb/pb_encode.c:533-542 | The size computed without writing equals the number of bytes a real encode produces, and it exists exactly when the encoding does. |
| PbEncode.EncodeSubmessage | ToDoList/Pods/nanopb/pb_encode.c:682-730 | Sizing first and then writing through a substream of exactly that size appends length and body; the "submsg size changed" outcome never arises. |
| PbEncode.WriteSized | ToDoList/Pods/nanopb/pb_encode.c:705-729 | The second pass over a submessage writes exactly as many bytes as the first one counted. |
| PbEncode.PackedSize | ToDoList/Pods/nanopb/pb_encode.c:145-171 | The packed size is that of the elements, both by multiplication and by the sizing stream. |
| PbEncode.EncodePacked | ToDoList/Pods/nanopb/pb_encode.c:139-181 | A packed array is one tag, the total size, and the elements. |
| PbEncode.EncodeTagged | ToDoList/Pods/nanopb/pb_encode.c:182-208 | Strings, byte arrays and submessages of an array each get their own tag. |
| PbEncode.EncodeArray | ToDoList/Pods/nanopb/pb_encode.c:126-211 | An array is refused when it has more elements than its table entry allows, packed when its type can be, tagged otherwise. |
| PbEncode.EncodeField | ToDoList/Pods/nanopb/pb_encode.c:307-392 | Required fields are always written, optional ones when their flag is set, proto3 ones when not default, union members when selected. |
| PbEncode.EncodeCell | ToDoList/Pods/nanopb/pb_encode.c:734-868 | Each per-type encoder writes the bytes its wire type calls for, or fails for an oversized byte array. |
| PbEncode.EncodeVarint | ToDoList/Pods/nanopb/pb_encode.c:574-594 | The byte loop writes seven bits a byte, low bits first, with the continuation bit on all but the last. |
| PbEncode.EncodeFixed | ToDoList/Pods/nanopb/pb_encode.c:607-632 | Fixed-width integers go out low byte first. |
| PbStream.OStream.Write | ToDoList/Pods/nanopb/pb_encode.c:101-119 | A write either appends all its bytes and counts them, or changes nothing because they do not fit; a sizing stream always counts. |
| PbStream.IStream.Read | ToDoList/Pods/nanopb/pb_decode.c:100-132 | A read takes exactly the next bytes or nothing. |
| PbIter.FieldIter.Next | ToDoList/Pods/nanopb/pb_common.c:20-76 | Wherever it started and however often it wrapped around, the iterator's struct member and required-field index are functions of its position. |
| PbIter.FieldIter.Find | ToDoList/Pods/nanopb/pb_common.c:78-95 | The cyclic search finds the one field with that tag from any starting position, and otherwise comes back to where it was. |
| PbMessage.SlotOfMonotone | ToDoList/Pods/nanopb/pb_common.c:20-76 | Two fields share a struct member only inside one union. |
| PbDecode.DecodeVarint | ToDoList/Pods/nanopb/pb_decode.c:250-270 | The in-place reader gives the value and rest of the specified one, and fails exactly when it does. |
| PbDecode.DecodeVarint32 | ToDoList/Pods/nanopb/pb_decode.c:182-242 | The in-place 32-bit reader gives value, rest and verdict of the specified one, and reports the end of the input exactly on empty input. |
| PbDecode.MakeSubstream | ToDoList/Pods/nanopb/pb_decode.c:367-380 | The substream is exactly the length-delimited body, and the parent is left with what follows. |
| PbDecode.CloseSubstream | ToDoList/Pods/nanopb/pb_decode.c:382-395 | Closing skips what the substream did not read, so that the parent continues behind the body. |
| PbDecode.DecodeCell | ToDoList/Pods/nanopb/pb_decode.c:1289-1508 | Each per-type decoder, merging into an item that already holds a value, reads what CellBack says its encoder wrote and fails exactly when the specified one does. |
| PbDecode.DecodeRun | ToDoList/Pods/nanopb/pb_decode.c:419-448 | A packed run has to end exactly and to fit the array. |
| PbDecode.DecodeField | ToDoList/Pods/nanopb/pb_decode.c:401-475 | One field decoded into its struct member: flag set, array extended, union switched or submessage merged, with the overflow and range errors of the specified decoder. |
| PbDecode.SkipField | ToDoList/Pods/nanopb/pb_decode.c:316-326 | An unknown field is skipped by its wire type, and an unknown wire type is an error. |
| PbDecode.Mark | ToDoList/Pods/nanopb/pb_decode.c:988-993 | Setting a bit of the fields_seen words adds exactly that required index. |
| PbDecode.AllMarked | ToDoList/Pods/nanopb/pb_decode.c:1020-1046 | The word comparison at the end holds exactly when every one of the first n bits is set. |
| PbDecode.CheckRequired | ToDoList/Pods/nanopb/pb_decode.c:1006-1046 | From wherever the iterator stands, the final check is passed exactly when every counted required field was seen. |
| PbDecode.DecodeFields | ToDoList/Pods/nanopb/pb_decode.c:919-1003 | The whole tag loop, with its iterator, its bitset and its fixed-count bookkeeping, agrees with the specified loop. |
| PbDecode.Decode | ToDoList/Pods/nanopb/pb_decode.c:1051-1063 | Decoding in place, after the defaults are set, gives exactly the message and verdict that the round trip is about. |
| PbRequired.RequiredCheckExact | ToDoList/Pods/nanopb/pb_decode.c:1006-1046 | When nothing else is wrong with the input, decoding is refused exactly when one of the first 64 required fields never appeared. |
| PbRequired.LoopMarks | ToDoList/Pods/nanopb/pb_decode.c:988-993 | A required field's bit is set at the end exactly if it was set before or the field was met. |
| PbRequired.BitsDistinct | ToDoList/Pods/nanopb/pb_common.c:65-70 | No two required fields share a bit. |
| PbWire.UnknownIgnored | ToDoList/Pods/nanopb/pb_decode.c:958-962 | An unknown well-formed field between any two fields changes neither the struct nor the verdict. |
| PbWire.FieldsThen | ToDoList/Pods/nanopb/pb_decode.c:919-1003 | Decoding goes on after a run of whole fields as if it had started in the state they leave. |
| PbWire.GroupingIgnored | ToDoList/Pods/nanopb/pb_decode.c:419-459 | A packable repeated field, counted or of fixed count, decodes to the same array, and overflows in the same cases, however its elements are split into packed runs and single tagged values. |
| PbWire.FixedStarts | ToDoList/Pods/nanopb/pb_decode.c:967-986 | Turning to a fixed-count array, once the previous one is complete, starts it from its first element, whatever it held. |
| PbWire.RunAppends | ToDoList/Pods/nanopb/pb_decode.c:419-448 | A packed run appends its elements in order, or overflows exactly when there are too many. |
| PbWire.SingleField | ToDoList/Pods/nanopb/pb_decode.c:449-459 | A single tagged value is one more element if the array has room. |
| PbWire.OneMore | ToDoList/Pods/nanopb/pb_decode.c:707-733 | How one field decodes does not depend on the bytes after it. |
| PbGrammar.WritesExactly | ToDoList/Pods/nanopb/pb_encode.c:307-516 | The wire format, written down without the encoder: the output for a message is exactly the run of fields the grammar of bytes allows (keys as base 128 numbers of 8 * tag + 0, 1, 2 or 5; zigzag; low byte first; counted bytes; packed runs), in table order, each there exactly when presence says so. No other bytes are. |
| PbGrammar.ReadsExactly | ToDoList/Pods/nanopb/pb_decode.c:1051-1063 | Whatever bytes the grammar gives for a message, whoever wrote them, decode to its normal form with nothing left over; refused exactly for a string without room for its NUL. |
| PbGrammar.VarintIs | ToDoList/Pods/nanopb/pb_encode.c:574-594 | A varint by its digits: seven bits a byte, low ones first, top bit on all but the last, no digit too many. |
| PbGrammar.ScalarIs | ToDoList/Pods/nanopb/pb_encode.c:734-845 | The bytes of an integer of each type: two's complement to 64 bits, 2v or -2v-1 for zigzag, four or eight bytes for the fixed types; nothing else is written. |
| PbGrammar.CellExactly | ToDoList/Pods/nanopb/pb_encode.c:734-868 | The payload of one item of any type is the grammar's, and only that. |
| PbGrammar.PayloadTaken | ToDoList/Pods/nanopb/pb_decode.c:1289-1508 | A payload of the grammar is read to its last byte, whatever follows it. |
| PbGrammar.BytesTaken | ToDoList/Pods/nanopb/pb_decode.c:1391-1461 | Counted bytes from anybody: a byte array is taken exactly if it fits behind its four-byte count, a string if one byte is left for its NUL (and up to its first NUL), fixed-length bytes if the length is exact or zero. |
| PbGrammar.PackedTaken | ToDoList/Pods/nanopb/pb_decode.c:419-448 | A packed run under wire type 2, from anybody, is appended whole when the array has room. |
| PbGrammar.SkipsExactly | ToDoList/Pods/nanopb/pb_decode.c:272-326 | Wire types 0, 1, 2 and 5 are skipped to the last byte of what they announce; every other wire type is refused. |
| PbGrammar.UnknownPassed | ToDoList/Pods/nanopb/pb_decode.c:958-962 | A whole field with a tag the table does not have is passed over, for each of the four wire types. |
| PbMerge.SubmessagesMerge | ToDoList/Pods/nanopb/pb_decode.c:1463-1485 | The law of merging: a submessage that arrives in two pieces of whole fields, both accepted, leaves the same struct and rest as one submessage with the fields of both. |
| PbMerge.MessagesMerge | ToDoList/Pods/nanopb/pb_decode.c:901-1047 | One message decoded behind another into the same struct gives what both decode to in one, required-field check included. |
| DtlsRun.DeliveryIsPrefix | ToDoList/Pods/BoringSSL-GRPC/ssl/d1_both.cc:297-438 | RFC 6347 section 4.2.3 over every run: whatever the network drops, repeats or reorders, however often flights are resent, interrupted and resumed and with whatever MTU, the messages taken out are a prefix of those put in, byte for byte (fewer than 65536 messages, and fewer than 65536 changes of the sender's keys; the receiver's may change any number of times). |
| DtlsWrap.PrefixExactly | ToDoList/Pods/BoringSSL-GRPC/ssl/d1_both.cc:297-438 | The exact bound: as long as the sender's epochs and record numbers do not come around, delivery is a prefix in every run with at most n messages if and only if n is at most 65536. |
| DtlsWrap.NumberAgain | ToDoList/Pods/BoringSSL-GRPC/ssl/d1_both.cc:553-598 | The run behind it: 65536 messages are each flushed, forgotten when the next is added, and lost; the 65537th has number 0 again and is delivered to a receiver that still waits for the first. |
| DtlsHistory.DeliveryToTheLast | ToDoList/Pods/BoringSSL-GRPC/ssl/d1_both.cc:297-438 | Delivery is a prefix up to and including the last message number: with 65536 messages the receiver waits for number 0 a second time, and takes no old record for it. |
| DtlsHistory.Stale | ToDoList/Pods/BoringSSL-GRPC/ssl/dtls_record.cc:140-150 | Why: when all 65536 messages were delivered, any record of the first seven that the reader's key would still open has a number at least 64 behind the replay window. |
| DtlsHistory.LogGrows | ToDoList/Pods/BoringSSL-GRPC/ssl/dtls_record.cc:294-351 | What sending keeps: under each key record numbers only grow, every piece is sealed under the key with which its message was added, and no record is more than six messages behind an earlier one. |
| DtlsHistory.ApplyHist | ToDoList/Pods/BoringSSL-GRPC/ssl/d1_both.cc:297-438 | What every step of a run keeps of that history, together with what the receiver has taken of each message and under which key. |
| DtlsRun.ApplyInv | ToDoList/Pods/BoringSSL-GRPC/ssl/d1_both.cc:297-438 | What every step of either end and of the network keeps: all that is on the network, in the window and in the reassembly ring is a true piece of a sent message. |
| DtlsRun.TakeTrue | ToDoList/Pods/BoringSSL-GRPC/ssl/d1_both.cc:350-403 | A true fragment keeps every message under reassembly true, whatever order and overlap the fragments have. |
| DtlsRun.GetTrue | ToDoList/Pods/BoringSSL-GRPC/ssl/d1_both.cc:408-424 | A message handed out is exactly the sent message with the next number. |
| DtlsRun.SendTrue | ToDoList/Pods/BoringSSL-GRPC/ssl/d1_both.cc:782-845 | Every record that sending or resending a flight puts on the network carries a true piece of a message that was added. |
| DtlsRun.OpenOne | ToDoList/Pods/BoringSSL-GRPC/ssl/dtls_record.cc:177-272 | Opening a packet of the sender's yields exactly what was sealed in its first record, and only if that was sealed under the reader's own key and has a new number; otherwise that record or the whole rest of the packet is discarded. |
| DtlsRun.OpenTrue | ToDoList/Pods/BoringSSL-GRPC/ssl/d1_both.cc:297-406 | One call on any packet that was ever sent leaves the receiver as it was, or takes the contents of one record out of the history of the sender, sealed under the reader's key and not seen before. |
| DtlsReceive.OpenHandshake | ToDoList/Pods/BoringSSL-GRPC/ssl/d1_both.cc:297-406 | One call consumes no more than its input, never moves the read number, and keeps every message in the slot its number says. |
| DtlsReceive.TakeFragmentOk | ToDoList/Pods/BoringSSL-GRPC/ssl/d1_both.cc:350-403 | Every message under reassembly stays in the window [read_seq, read_seq+7): a fragment numbered read_seq+7 passes the first test and is then refused. |
| DtlsReceive.Incoming | ToDoList/Pods/BoringSSL-GRPC/ssl/d1_both.cc:265-295 | The entry found or made for a fragment has its number, type and total length. |
| DtlsReceive.NextMessage | ToDoList/Pods/BoringSSL-GRPC/ssl/d1_both.cc:426-438 | After a message is taken the ring is still in order for the next number. |
| DtlsReader.HandshakeReader.TakeFragment | ToDoList/Pods/BoringSSL-GRPC/ssl/d1_both.cc:350-403 | Taking one fragment in the ring of buffers has exactly the effect, alert included, that delivery safety is proved for. |
| DtlsReader.HandshakeReader.GetIncoming | ToDoList/Pods/BoringSSL-GRPC/ssl/d1_both.cc:265-295 | The slot lookup in place: a mismatch in type or length is an error, an empty slot gets a new message. |
| DtlsReader.HandshakeReader.OpenHandshake | ToDoList/Pods/BoringSSL-GRPC/ssl/d1_both.cc:297-406 | The whole call on real buffers: record opened, fragments taken in order up to the first refused one, with the outcome and consumed bytes that delivery safety is proved for. |
| DtlsReader.HandshakeReader.GetMessage | ToDoList/Pods/BoringSSL-GRPC/ssl/d1_both.cc:408-424 | The current message when it is complete, with the bytes that are hashed: the message as a single fragment, however it was cut. |
| DtlsReader.HandshakeReader.NextMessage | ToDoList/Pods/BoringSSL-GRPC/ssl/d1_both.cc:426-438 | The slot is released and the 16-bit number moves on. |
| DtlsReader.HandshakeReader.HasUnprocessed | ToDoList/Pods/BoringSSL-GRPC/ssl/d1_both.cc:440-457 | There is unprocessed data exactly if a ChangeCipherSpec is waiting or some slot other than the one being read is occupied. |
| DtlsFragment.BitRangeExact | ToDoList/Pods/BoringSSL-GRPC/ssl/d1_both.cc:201-205 | bit_range(start, end) has exactly the bits from start up to end. |
| DtlsFragment.MarkAddsRange | ToDoList/Pods/BoringSSL-GRPC/ssl/d1_both.cc:226-236 | Marking adds exactly the bits of the range and removes none. |
| DtlsFragment.SetRange | ToDoList/Pods/BoringSSL-GRPC/ssl/d1_both.cc:226-236 | The byte loop sets first, middle and last byte so that exactly the range is added. |
| DtlsFragment.AllMarked | ToDoList/Pods/BoringSSL-GRPC/ssl/d1_both.cc:238-250 | The completeness test with its partial last byte is true exactly when every bit below msg_len is set. |
| DtlsFragment.HmFragment.Mark | ToDoList/Pods/BoringSSL-GRPC/ssl/d1_both.cc:211-251 | After any marks the bits set are the union of the ranges, and the bitmap is released exactly when every byte is covered. |
| DtlsFragment.HmFragment.ReleasedWhenComplete | ToDoList/Pods/BoringSSL-GRPC/ssl/d1_both.cc:255-259 | In every state the bitmap is gone exactly when the message is complete. |
| DtlsFragment.HmFragment.Receive | ToDoList/Pods/BoringSSL-GRPC/ssl/d1_both.cc:389-403 | Copying and marking a fragment puts exactly its bytes in place. |
| DtlsFragment.HmFragment.constructor | ToDoList/Pods/BoringSSL-GRPC/ssl/d1_both.cc:152-199 | A new message has received nothing (and is complete at once when it is empty). |
| DtlsArrival.Reassembles | ToDoList/Pods/BoringSSL-GRPC/ssl/d1_both.cc:350-424 | Reassembly is complete: fragments of messages in the window (in epoch 1 of the current one only), in any order, overlapping and mixed, raise no alert; once those of message n cover it, it is whole in its slot, and when its turn comes dtls1_get_message gives exactly that message. |
| DtlsArrival.TakesAll | ToDoList/Pods/BoringSSL-GRPC/ssl/d1_both.cc:350-403 | Any true fragments of window messages are all taken without an alert; each byte they carry is there afterwards, and none that was there is lost. |
| DtlsArrival.WholeMessage | ToDoList/Pods/BoringSSL-GRPC/ssl/d1_both.cc:408-424 | A message every byte of which has arrived is handed out, as it was sent. |
| DtlsDelivery.OpensExactly | ToDoList/Pods/BoringSSL-GRPC/ssl/dtls_record.cc:177-272 | Opening the first record of a packet of the sender's succeeds, and hands on its contents, exactly when it was sealed under the reader's own key and its number is neither taken nor 64 or more behind. |
| DtlsDelivery.ReadsAll | ToDoList/Pods/BoringSSL-GRPC/ssl/d1_both.cc:297-406 | Packets of a flight read in any order and any number of times, each to its end: no alert, no error, and every record of the reader's key has been taken. |
| DtlsDelivery.Takes | ToDoList/Pods/BoringSSL-GRPC/ssl/d1_both.cc:408-438 | Messages that have arrived whole are taken out one after the other, each as it was sent. |
| DtlsFlight.FlightDelivered | ToDoList/Pods/BoringSSL-GRPC/ssl/d1_both.cc:297-438 | RFC 6347 section 4.2.4, the other half of delivery, after any run whatever: when a flight is sent or sent again by one call and each of its packets arrives at least once, in whatever order, the next c messages come out whole and in order and no call reports an alert or error, provided they are those the receiver waits for, under its own key and no longer than it takes, nothing else in the flight is for that key and refused, with an MTU of at most 16384 and at most 64 records. |
| DtlsFlight.RecordFits | ToDoList/Pods/BoringSSL-GRPC/ssl/dtls_record.cc:177-272 | A record of a flight is one the reader takes: in length, version and epoch. |
| DtlsLayout.FragmentLayout | ToDoList/Pods/BoringSSL-GRPC/ssl/d1_both.cc:459-473 | The twelve header bytes of a fragment one by one, and the fragment behind them. |
| DtlsMessage.ParseBack | ToDoList/Pods/BoringSSL-GRPC/ssl/d1_both.cc:459-473 | Parsing undoes serializing a fragment, whatever follows it. |
| DtlsMessage.ParsedFits | ToDoList/Pods/BoringSSL-GRPC/ssl/d1_both.cc:459-473 | A parsed fragment's numbers fit the fields they came from. |
| DtlsSend.FlightTiles | ToDoList/Pods/BoringSSL-GRPC/ssl/d1_both.cc:782-827 | When a flight is out, however many calls with whatever MTUs it took and wherever the transport stopped in between, the fragments of each message, in the order written, put together are exactly its body. |
| DtlsSend.SendLoopLeads | ToDoList/Pods/BoringSSL-GRPC/ssl/d1_both.cc:782-827 | Whatever is written leads on from the place before without a gap: to the end when all is out, and when a write fails exactly to the place that is restored. No packet is longer than the MTU. |
| DtlsSend.ResumeLeads | ToDoList/Pods/BoringSSL-GRPC/ssl/d1_both.cc:782-827 | The same over any number of interrupted and resumed calls put together. |
| DtlsProgress.SealNextTakes | ToDoList/Pods/BoringSSL-GRPC/ssl/d1_both.cc:644-734 | How much goes into one record: with a key of this epoch or the one before, no counter about to wrap and room for one byte, sealing succeeds and takes the smaller of what is left of the message and what fits behind both headers and the overhead. |
| DtlsProgress.FillPacketMakes | ToDoList/Pods/BoringSSL-GRPC/ssl/d1_both.cc:739-780 | A packet gets made and holds something whenever the next piece fits at all. |
| DtlsProgress.SendLoopFinishes | ToDoList/Pods/BoringSSL-GRPC/ssl/d1_both.cc:782-827 | Sending succeeds: from any place in a flight of whole messages, with room in the packet for a byte of each and enough successful writes, the flight goes out to its end. |
| DtlsProgress.ThreeRecords | ToDoList/Pods/BoringSSL-GRPC/ssl/d1_both.cc:692-734 | An example: a message of 3000 bytes under an MTU of 1400 goes out in three packets. |
| DtlsSend.SamePacketAgain | ToDoList/Pods/BoringSSL-GRPC/ssl/d1_both.cc:806-814 | After a failed transport write restores the place, the same fragments are packed again, with new record numbers only. |
| DtlsSend.PathAdvances | ToDoList/Pods/BoringSSL-GRPC/ssl/d1_both.cc:644-780 | Each packet moves the place forward in the order of messages and bytes left, which is why the loop ends. |
| DtlsSend.PathTiles | ToDoList/Pods/BoringSSL-GRPC/ssl/d1_both.cc:644-780 | The pieces on a complete path carry what is left of the message they start in, and every later message whole. |
| DtlsSend.FillPacketLeads | ToDoList/Pods/BoringSSL-GRPC/ssl/d1_both.cc:739-780 | A packet fits its room and what it holds leads from one place to the next. |
| DtlsSend.SealNextAdvances | ToDoList/Pods/BoringSSL-GRPC/ssl/d1_both.cc:644-734 | One sealed record carries the next bytes of the current message, at least one unless the message ends with it. |
| DtlsSend.SendLoopPlace | ToDoList/Pods/BoringSSL-GRPC/ssl/d1_both.cc:782-827 | Sending always stops at a place from which it can go on. |
| DtlsWriter.FlightWriter.AddMessage | ToDoList/Pods/BoringSSL-GRPC/ssl/d1_both.cc:511-598 | A message is added as one fragment that is all of it, with the next number; a flight that was flushed is cleared first, a full one refused. |
| DtlsWriter.FlightWriter.SealNext | ToDoList/Pods/BoringSSL-GRPC/ssl/d1_both.cc:644-734 | On the writer's fields: which piece of the message goes out, the record bytes it becomes, and the place afterwards, as tiling is proved for. |
| DtlsWriter.FlightWriter.SealPacket | ToDoList/Pods/BoringSSL-GRPC/ssl/d1_both.cc:739-780 | The packet's bytes are its records one behind the other; a packet that holds nothing is an error. |
| DtlsWriter.FlightWriter.SendFlight | ToDoList/Pods/BoringSSL-GRPC/ssl/d1_both.cc:782-827 | Exactly the packets of the specified run are written, and a failed write leaves the place where it was before the packet. |
| DtlsWriter.FlightWriter.Flush | ToDoList/Pods/BoringSSL-GRPC/ssl/d1_both.cc:829-834 | Flushing marks the flight complete and sends from the place reached. |
| DtlsWriter.FlightWriter.Retransmit | ToDoList/Pods/BoringSSL-GRPC/ssl/d1_both.cc:836-845 | Retransmitting starts again from the first byte of the flight. |
| DtlsLayout.RecordLayout | ToDoList/Pods/BoringSSL-GRPC/ssl/dtls_record.cc:294-351 | The thirteen header bytes of a record one by one: type, version, epoch, number, length; then the body. |
| DtlsLayout.RecordBody | ToDoList/Pods/BoringSSL-GRPC/ssl/dtls_record.cc:294-351 | What the body is sealed with: text, nonce and additional data, each from epoch and number. |
| DtlsLayout.VersionsOnTheWire | ToDoList/Pods/BoringSSL-GRPC/ssl/dtls_record.cc:207-223 | The version numbers that go out and those that are taken, before and after one is negotiated. |
| DtlsRecord.RecordBack | ToDoList/Pods/BoringSSL-GRPC/ssl/dtls_record.cc:177-272 | The verdict on every sealed record, whatever follows it: same type and text exactly if the epoch is current, the number unseen, the version right and the sizes within limits; a discard otherwise. |
| SslAead.OpenSealed | ToDoList/Pods/BoringSSL-GRPC/ssl/ssl_aead_ctx.cc:225-405 | In every mode opening rebuilds the nonce and additional data that sealing used, so an ideal AEAD gives the text back. |
| SslAead.SealedLen | ToDoList/Pods/BoringSSL-GRPC/ssl/ssl_aead_ctx.cc:196-201 | The sealed length, and that it stays within the advertised overhead. |
| SslAead.NonceInjective | ToDoList/Pods/BoringSSL-GRPC/ssl/ssl_aead_ctx.cc:325-369 | Under one context different variable parts give different nonces, prepended or XORed. |
| SslAead.Create | ToDoList/Pods/BoringSSL-GRPC/ssl/ssl_aead_ctx.cc:57-149 | Which of the four nonce constructions, and which additional data, a cipher and version get, and that the context is well formed; unknown combinations fail. |
| SslAead.AdditionalDataBytes | ToDoList/Pods/BoringSSL-GRPC/ssl/ssl_aead_ctx.cc:203-223 | The additional data byte by byte: eight of the sequence number, the type, two of the version, two of the length, each part in its place or left out. |
| SslAead.NonceBytes | ToDoList/Pods/BoringSSL-GRPC/ssl/ssl_aead_ctx.cc:250-284 | The nonce byte by byte: fixed part or zeros in front, variable part behind, and the XOR with the fixed part in that mode. |
| SslAead.SealedIs | ToDoList/Pods/BoringSSL-GRPC/ssl/ssl_aead_ctx.cc:296-405 | What is sealed: the text, under that nonce and that additional data, behind the explicit nonce if there is one. |
| SslAead.GetAdditionalData | ToDoList/Pods/BoringSSL-GRPC/ssl/ssl_aead_ctx.cc:203-223 | The additional data written byte by byte. |
| SslAead.AssembleNonce | ToDoList/Pods/BoringSSL-GRPC/ssl/ssl_aead_ctx.cc:250-284 | The nonce buffer after padding or prefix, variable part and XOR loop. |
| SslAead.Open | ToDoList/Pods/BoringSSL-GRPC/ssl/ssl_aead_ctx.cc:225-294 | A body that is too short is refused; otherwise nonce and additional data are those OpenSealed rebuilds. |
| SslAead.Seal | ToDoList/Pods/BoringSSL-GRPC/ssl/ssl_aead_ctx.cc:296-405 | Seal of a record body, refused exactly when it does not fit the output. |
| DtlsState.RecordReader.OpenRecord | ToDoList/Pods/BoringSSL-GRPC/ssl/dtls_record.cc:177-272 | On the reader's fields: verdict and window are those that anti-replay and the record round trip are proved for. |
| DtlsState.RecordReader.SetReadState | ToDoList/Pods/BoringSSL-GRPC/ssl/dtls_method.cc:81-95 | A read-epoch change clears the window, bumps the 16-bit epoch and puts the new keys to use, as the replay runs have it, and is refused while handshake data is unprocessed. |
| DtlsState.RecordWriter.SealRecord | ToDoList/Pods/BoringSSL-GRPC/ssl/dtls_record.cc:294-351 | On the writer's fields and sequence bytes: the record that RecordBack opens, and which number is used up, also when sealing fails late. |
| DtlsState.RecordWriter.SetWriteState | ToDoList/Pods/BoringSSL-GRPC/ssl/dtls_method.cc:97-107 | A write-epoch change keeps the old keys and numbers for the previous epoch. |
| DtlsRecord.NumbersAndNoncesUnique | ToDoList/Pods/BoringSSL-GRPC/ssl/dtls_record.cc:294-351 | Over any interleaving of current-epoch seals, previous-epoch seals and epoch changes up to the first wraparound, no (epoch, number) pair is used twice, and two records under one context, even in different epochs, never share a nonce unless nonces are random. |
| DtlsRecord.OpenActs | ToDoList/Pods/BoringSSL-GRPC/ssl/dtls_record.cc:177-272 | Whatever bytes arrive, dtls_open_record acts on epoch and window as one step of the replay runs, and hands a record out exactly when its number is accepted. |
| DtlsRecord.NoRecordTwice | ToDoList/Pods/BoringSSL-GRPC/ssl/dtls_record.cc:225-259 | Over any packets and fewer than 65536 changes of its keys a record reader hands out no two records with the same epoch and number. |
| DtlsRecord.ReplayExactly | ToDoList/Pods/BoringSSL-GRPC/ssl/dtls_record.cc:140-150 | After any packets and key changes the reader takes a number of its epoch for a replay exactly if it handed out a record with it since its keys changed last, or one at least 64 ahead. |
| DtlsRecord.ForeignRecord | ToDoList/Pods/BoringSSL-GRPC/ssl/dtls_record.cc:225-259 | A record that the reader's key does not open is dropped and leaves no trace in the window. |
| DtlsRecord.SequenceUpdate | ToDoList/Pods/BoringSSL-GRPC/ssl/tls_record.cc:154-163 | The byte-wise increment adds one to the big-endian number, or reports that it wrapped to zero. |
| DtlsWindow.NeverTwice | ToDoList/Pods/BoringSSL-GRPC/ssl/dtls_record.cc:225-259 | Over any arrivals and fewer than 65536 epoch changes no (epoch, number) pair is accepted twice. |
| DtlsWindow.NeverTwiceExactly | ToDoList/Pods/BoringSSL-GRPC/ssl/dtls_method.cc:81-95 | That bound is exact: it holds in every run with at most n epoch changes if and only if n is below 65536. |
| DtlsWindow.TwiceAround | ToDoList/Pods/BoringSSL-GRPC/ssl/dtls_method.cc:81-95 | The run behind it: 65536 epoch changes clear the window and bring the 16-bit epoch back, so that the numbers of an accepted record are accepted again. |
| DtlsWindow.RefusedExactly | ToDoList/Pods/BoringSSL-GRPC/ssl/dtls_record.cc:140-150 | After any run a current-epoch number is refused as a replay exactly if it was accepted since the epoch began, or one at least 64 ahead of it was. |
| DtlsWindow.RecordMeans | ToDoList/Pods/BoringSSL-GRPC/ssl/dtls_record.cc:155-175 | Recording a number adds exactly that number to what the bitmap means. |
| DtlsWindow.DiscardExact | ToDoList/Pods/BoringSSL-GRPC/ssl/dtls_record.cc:140-150 | The bitmap test is membership in what was recorded, or being 64 or more behind. |
| DtlsWindow.ToU64Be | ToDoList/Pods/BoringSSL-GRPC/ssl/dtls_record.cc:128-136 | The shift-and-or loop computes the big-endian number. |
| DtlsWindow.Bitmap.Record | ToDoList/Pods/BoringSSL-GRPC/ssl/dtls_record.cc:155-175 | Recording on the fields, from the eight bytes of the number, is the recording that RecordMeans gives a meaning to. |
| DtlsWindow.Bitmap.Discards | ToDoList/Pods/BoringSSL-GRPC/ssl/dtls_record.cc:140-150 | The answer, from the eight bytes of the number, is the one that DiscardExact gives a meaning to. |
| TlsWrite.WireOrder | ToDoList/Pods/BoringSSL-GRPC/ssl/s3_both.cc:135-279 | Over any calls, with arbitrarily short or failing transport writes: bytes on the wire, then the write buffer, then the unsent part of the pending flight, are exactly the sealed records in sealing order. |
| TlsWrite.ApplyConserves | ToDoList/Pods/BoringSSL-GRPC/ssl/s3_both.cc:135-279 | Every single call (flight addition, application data, alert, flush) keeps that equation. |
| TlsWrite.DoWriteConserves | ToDoList/Pods/BoringSSL-GRPC/ssl/s3_pkt.cc:221-289 | Sealing a record behind the unsent flight neither loses nor reorders bytes. |
| TlsWrite.WritePendingConserves | ToDoList/Pods/BoringSSL-GRPC/ssl/s3_pkt.cc:202-218 | Retrying a pending write keeps the equation, and refuses another type, a shorter length or a moved buffer. |
| TlsWrite.FlushFlightConserves | ToDoList/Pods/BoringSSL-GRPC/ssl/s3_both.cc:231-279 | Flushing keeps it through every partial write, and only drops the flight when all of it is on the wire. |
| TlsWrite.AddMessageConserves | ToDoList/Pods/BoringSSL-GRPC/ssl/s3_both.cc:184-205 | A message cut into records joins the flight in order. |
| TlsWrite.FlushBuffer | ToDoList/Pods/BoringSSL-GRPC/ssl/ssl_buffer.cc:239-252 | A positive answer means that the buffer is empty. |
| TlsSealed.ApplySeals | ToDoList/Pods/BoringSSL-GRPC/ssl/s3_both.cc:135-279 | What every call seals, over any transport and sealing: a message in records of type 22, together the whole message if the call succeeds and a part of it from its start otherwise; [1] under type 20; [level, description] under type 21; input under type 23; none longer than the limit. |
| TlsSealed.MessageSealed | ToDoList/Pods/BoringSSL-GRPC/ssl/s3_both.cc:184-205 | A handshake message is cut into records within the limit that put together are the message, and the flight grows by exactly their bytes. |
| TlsSealed.DispatchSealed | ToDoList/Pods/BoringSSL-GRPC/ssl/s3_pkt.cc:405-423 | A stored alert is sealed as its two bytes, once, and only when nothing is pending. |
| TlsSealed.ReliableSucceeds | ToDoList/Pods/BoringSSL-GRPC/ssl/s3_both.cc:135-279 | When sealing works and the transport fails nothing, every call does all of its work: a message joins the flight whole, a flush or write leaves every byte sealed so far on the wire, a write takes all of its input (or one record of it under partial writes). |
| TlsSealed.FlightFlushed | ToDoList/Pods/BoringSSL-GRPC/ssl/s3_both.cc:231-279 | A flush over such a transport answers 1 with nothing left in the buffer or flight. |
| TlsSealed.AppWritten | ToDoList/Pods/BoringSSL-GRPC/ssl/s3_pkt.cc:129-200 | A write over such a transport takes all of its input and puts it on the wire. |
| TlsRetry.RetriesLoseNothing | ToDoList/Pods/BoringSSL-GRPC/ssl/s3_pkt.cc:129-200 | However many writes of the same data fail, with whatever calls in between, the sealed texts are adjacent slices within the limit from the start of the data; a return of r > 0 means exactly the first r bytes were sealed and are on the wire, all of them unless partial writes are on. |
| TlsRetry.RunAt | ToDoList/Pods/BoringSSL-GRPC/ssl/s3_pkt.cc:129-289 | Failing calls, alerts and flushes in between leave the caller's position where it was. |
| TlsRetry.WriteShare | ToDoList/Pods/BoringSSL-GRPC/ssl/s3_pkt.cc:221-289 | One record takes the next share of the data, or nothing. |
| TlsRetry.DispatchAt | ToDoList/Pods/BoringSSL-GRPC/ssl/s3_pkt.cc:405-423 | An alert never touches pending application data, and waits while there is some. |
| TlsRetry.OnTheWire | ToDoList/Pods/BoringSSL-GRPC/ssl/s3_pkt.cc:202-218 | With the write buffer empty, every application record sealed so far is completely on the wire. |
| TlsBuffer.SslBuffer.EnsureCap | ToDoList/Pods/BoringSSL-GRPC/ssl/ssl_buffer.cc:47-81 | Growing keeps the contents, aligns the payload, and fails only beyond the cap. |
| TlsBuffer.SslBuffer.Append | ToDoList/Pods/BoringSSL-GRPC/ssl/ssl_buffer.cc:83-88 | DidWrite makes the next bytes part of the contents. |
| TlsBuffer.SslBuffer.Consume | ToDoList/Pods/BoringSSL-GRPC/ssl/ssl_buffer.cc:90-97 | Consuming drops exactly the front. |
| TlsBuffer.SslBuffer.Clear | ToDoList/Pods/BoringSSL-GRPC/ssl/ssl_buffer.cc:39-45 | Clearing frees the block. |
| TlsWriter.Writer.WriteAppData | ToDoList/Pods/BoringSSL-GRPC/ssl/s3_pkt.cc:129-200 | The loop over tot and n leaves the state and return value that RetriesLoseNothing is about, whatever the transport answers. |
| TlsWriter.Writer.DoWrite | ToDoList/Pods/BoringSSL-GRPC/ssl/s3_pkt.cc:221-289 | The unsent flight is moved into the buffer, the record sealed behind it and the pending write set up, as WireOrder needs; while a write is pending only that one is retried. |
| TlsWriter.Writer.WritePending | ToDoList/Pods/BoringSSL-GRPC/ssl/s3_pkt.cc:202-218 | A retry must be of the same type, no shorter and, unless moving buffers are allowed, at the same place; it ends the pending write exactly when the buffer is flushed. |
| TlsWriter.Writer.FlushBuffer | ToDoList/Pods/BoringSSL-GRPC/ssl/ssl_buffer.cc:239-252 | The loop over short writes moves the front of the buffer to the wire until it is empty or a write fails. |
| TlsWriter.Writer.AddRecord | ToDoList/Pods/BoringSSL-GRPC/ssl/s3_both.cc:135-165 | A sealed record is appended to the pending flight, which is begun if there is none; when sealing fails no byte is added. |
| TlsWriter.Writer.AddMessage | ToDoList/Pods/BoringSSL-GRPC/ssl/s3_both.cc:184-205 | The loop cuts a message into records within the limit and appends them in order, up to the first that cannot be sealed. |
| TlsWriter.Writer.FlushFlight | ToDoList/Pods/BoringSSL-GRPC/ssl/s3_both.cc:231-279 | The write buffer goes first, then the flight from its offset; the flight is dropped only after the final flush succeeds. |
| TlsWriter.Writer.DispatchAlert | ToDoList/Pods/BoringSSL-GRPC/ssl/s3_pkt.cc:405-423 | The stored alert is written unless other data is pending, and stays stored when writing fails. |
| TlsWriter.Writer.SendAlert | ToDoList/Pods/BoringSSL-GRPC/ssl/s3_pkt.cc:377-403 | An alert is stored and sent at once if nothing is in the way, and refused once writing is shut down. |
| TlsJoint.NeverRejects | ToDoList/Pods/BoringSSL-GRPC/ssl/handshake_server.cc:572-1621 | Whatever is negotiated and however the turns fall, neither machine ever rejects the other's next message as unexpected or finds a signature or MAC wrong, in the full and the resumed order. |
| TlsJoint.TranscriptsAgree | ToDoList/Pods/BoringSSL-GRPC/ssl/handshake.cc:380-476 | Whenever one end checks a Finished MAC, a CertificateVerify or a Channel ID, the messages it has hashed are exactly those the other end had hashed when it computed it. |
| TlsJoint.NoDeadlock | ToDoList/Pods/BoringSSL-GRPC/ssl/handshake_client.cc:1707-1789 | If neither end can take a turn, both are done and nothing is left on the way. |
| TlsComplete.HandshakeCompletes | ToDoList/Pods/BoringSSL-GRPC/ssl/handshake.cc:491-628 | Driving client and server in turn often enough ends with both done and nothing on the way, and neither fails on the way there. |
| TlsComplete.RunKeeps | ToDoList/Pods/BoringSSL-GRPC/ssl/handshake.cc:491-628 | A driver loop never fails, keeps the agreement, and stops only for want of input. |
| TlsJoint.TurnInv | ToDoList/Pods/BoringSSL-GRPC/ssl/handshake_client.cc:1707-1789 | Every turn of either end keeps the two in step and makes the joint measure smaller. |
| TlsVerified.ClientVerifies | ToDoList/Pods/BoringSSL-GRPC/ssl/handshake.cc:380-429 | RFC 5246 section 7.4.9 against any peer: however the input arrives and whatever it is, a client whose handshake is done has read a Finished with the server's MAC over exactly the messages it had hashed before. |
| TlsVerified.ServerVerifies | ToDoList/Pods/BoringSSL-GRPC/ssl/handshake_server.cc:1269-1461 | Against any peer: a server whose handshake is done has read the client's Finished over exactly the messages before it, a Channel ID proof if it accepted one, and a signature over the messages before it if it has the key of a client certificate. |
| TlsVerified.ClientStepChecked | ToDoList/Pods/BoringSSL-GRPC/ssl/handshake_client.cc:1707-1789 | What every step of a client keeps: past the server's Finished, that message has been checked. |
| TlsVerified.ServerStepChecked | ToDoList/Pods/BoringSSL-GRPC/ssl/handshake_server.cc:1539-1621 | What every step of a server keeps: each proof that its state presupposes has been checked, and the buffered messages are the hashed ones. |
| TlsMessages.ExchangedExactly | ToDoList/Pods/BoringSSL-GRPC/ssl/handshake.cc:491-628 | The messages of RFC 5246 section 7.3, written down as one list from the negotiated options: driven in turn, client and server exchange exactly that list in its order, at any time a part of it from the start, and all of it once both are done. |
| TlsMessages.OrderIs | ToDoList/Pods/BoringSSL-GRPC/ssl/handshake_client.cc:1707-1789 | The order that the two machines keep is that list, full and resumed, for every combination of options. |
| TlsMessages.KeyExchangeRequired | ToDoList/Pods/BoringSSL-GRPC/ssl/handshake_client.cc:891-1071 | Against any peer: with an ephemeral key exchange the client leaves the state only on a ServerKeyExchange, and with RSA it takes none. |
| TlsMessages.CertificateRequired | ToDoList/Pods/BoringSSL-GRPC/ssl/handshake_client.cc:771-819 | Against any peer: unless the cipher works with a pre-shared key, the client leaves the state only on a Certificate. |
| TlsMessages.ClientInsists | ToDoList/Pods/BoringSSL-GRPC/ssl/handshake_client.cc:771-1071 | Over any input: a client whose full handshake is done has hashed a Certificate that came in unless the cipher is PSK, and a ServerKeyExchange if its key exchange is ephemeral. |
| TlsTranscript.HashedExactly | ToDoList/Pods/BoringSSL-GRPC/ssl/ssl_transcript.cc:236-252 | Over any input: the handshake hash of either end covers every handshake message it has taken or sent, in that order, and nothing else. |
| TlsTranscript.TranscriptSpelled | ToDoList/Pods/BoringSSL-GRPC/ssl/handshake.cc:380-429 | Over any interleaving there is one transcript: the list's handshake messages in order, every Finished, CertificateVerify and Channel ID being over exactly the messages before it. Each end has hashed a part of it from the start, and all of it when done. |
| TlsAgreement.SameOrder | ToDoList/Pods/BoringSSL-GRPC/ssl/handshake_server.cc:1539-1621 | Both machines expect the same messages in the same order, for every combination of negotiated options. |
| TlsAgreement.ClientKeepsOrder | ToDoList/Pods/BoringSSL-GRPC/ssl/handshake_client.cc:535-1705 | In every state the client takes exactly the next event of the server and sends exactly its own next ones. |
| TlsServerOrder.ServerKeepsOrder | ToDoList/Pods/BoringSSL-GRPC/ssl/handshake_server.cc:426-1537 | In every state the server takes exactly the next event of the client and sends exactly its own next ones. |
| TlsMachines.ClientStepSmaller | ToDoList/Pods/BoringSSL-GRPC/ssl/handshake_client.cc:1707-1789 | Every client step, whatever it is sent, makes a measure smaller: the driver loop ends although the resumed order visits states out of their numbering. |
| TlsMachines.ServerStepSmaller | ToDoList/Pods/BoringSSL-GRPC/ssl/handshake_server.cc:1539-1621 | The same for the server. |
| TlsClient.ClientHandshake.Drive | ToDoList/Pods/BoringSSL-GRPC/ssl/handshake.cc:491-628 | The client's driver loop in place stops where the specified run stops: same state, same input left, same output, Done exactly at the end of the handshake. |
| TlsClient.ClientHandshake.Turn | ToDoList/Pods/BoringSSL-GRPC/ssl/handshake_client.cc:535-1789 | The switch over the states with a method for each: the fields, the input left and the output afterwards are those of the step that the agreement theorems are about, transcript updates and buffer releases in the source's order included. |
| TlsClient.ClientHandshake.GetFinished | ToDoList/Pods/BoringSSL-GRPC/ssl/handshake.cc:380-429 | It succeeds exactly when the next message is a Finished with the server's MAC over the transcript as it was before the message is hashed. |
| TlsServer.ServerHandshake.Drive | ToDoList/Pods/BoringSSL-GRPC/ssl/handshake.cc:491-628 | The server's driver loop in place stops where the specified run stops. |
| TlsServer.ServerHandshake.Turn | ToDoList/Pods/BoringSSL-GRPC/ssl/handshake_server.cc:426-1621 | The same for the server's switch and its methods. |
| TlsServer.ServerHandshake.GetCertificateVerify | ToDoList/Pods/BoringSSL-GRPC/ssl/handshake_server.cc:1269-1363 | With a client key it succeeds exactly when the next message is a signature over the buffered messages before it; either way the buffer is released. |
| TlsServer.ServerHandshake.GetChannelId | ToDoList/Pods/BoringSSL-GRPC/ssl/handshake_server.cc:1415-1437 | When Channel ID was negotiated it succeeds exactly when the next message is a proof over the transcript before it. |
| TlsServer.ServerHandshake.GetFinished | ToDoList/Pods/BoringSSL-GRPC/ssl/handshake.cc:380-429 | It succeeds exactly when the next message is a Finished with the client's MAC over the transcript as it was before the message is hashed. |
| CipherChoice.SupportedExactly | ToDoList/Pods/BoringSSL-GRPC/ssl/handshake_server.cc:390-402 | A cipher fits exactly if the version is in its range and it shares a key exchange bit and an authentication bit with the masks. |
| CipherChoice.ChooseFrom | ToDoList/Pods/BoringSSL-GRPC/ssl/handshake_server.cc:376-424 | The loop returns the client's earliest acceptable cipher among the first group that has an acceptable one, and none exactly when there is none in a finished group. |
| CipherChoice.ChooseCipher | ToDoList/Pods/BoringSSL-GRPC/ssl/handshake_server.cc:357-424 | With server preference the server's groups decide, and the client's order inside a group; without it the first acceptable cipher of the client's list is chosen. |
| CipherChoice.NothingPassedOver | ToDoList/Pods/BoringSSL-GRPC/ssl/internal.h:1860-1889 | In a well-formed list, whose last flag is 0, no acceptable cipher is passed over. |
| ConstantTime.ChoosePremaster | ToDoList/Pods/BoringSSL-GRPC/ssl/handshake_server.cc:1142-1178 | The branch-free check refines the branching one: the premaster is the block's trailing bytes exactly for 00 02, non-zero bytes, 00 and the client version, and stays random otherwise. |
| ConstantTime.EqExact | ToDoList/Pods/BoringSSL-GRPC/crypto/internal.h:325-330 | The equality mask is all ones exactly for equal words, all zeros otherwise. |
| ConstantTime.IsZeroExact | ToDoList/Pods/BoringSSL-GRPC/crypto/internal.h:303-318 | The zero mask is all ones exactly for zero. |
| ConstantTime.Bytes8 | ToDoList/Pods/BoringSSL-GRPC/crypto/internal.h:320-361 | The byte masks and the select behave as comparisons and a choice. |
| SslSession.RoundTrip | ToDoList/Pods/BoringSSL-GRPC/ssl/ssl_asn1.cc:527-757 | Parsing the serialization of any session that has one (as session or ticket) stops exactly at its end and gives every stored field back, omitted ones at their defaults and the chain cut up element by element; it fails exactly for an unknown version or cipher, a negative verify result, an empty leaf certificate, a chain that is not a sequence of elements, or certificates the X.509 layer refuses. It gives the stored session back if and only if it succeeds and every certificate after the leaf is one DER element. |
| SslSessionForm.StoredForm | ToDoList/Pods/BoringSSL-GRPC/ssl/ssl_asn1.cc:200-399 | The bytes of a stored session, without the serializer: a SEQUENCE of the seven fixed fields and nineteen tagged ones in order, each by identifier, shortest length and contents, and each there exactly when the session says so. |
| SslSessionForm.IntegerIs | ToDoList/Pods/BoringSSL-GRPC/crypto/bytestring/cbb.c:473-506 | An integer is its value, high byte first, in the fewest bytes that leave the top bit clear. |
| SslSessionFits.ParsedFits | ToDoList/Pods/BoringSSL-GRPC/ssl/ssl_asn1.cc:527-757 | Whatever bytes are parsed, an accepted session fits its fixed fields (32 bytes of ID and of context, 48 of master key, 64 of handshake hash, 32 of peer hash, numbers within their widths), has a known version and cipher and no negative verify result. |
| SslSession.Advance | ToDoList/Pods/BoringSSL-GRPC/ssl/ssl_asn1.cc:200-399 | Tags strictly increase, so each optional field is either next or absent from all that follows. |
| SslSession.TicketBack | ToDoList/Pods/BoringSSL-GRPC/ssl/ssl_asn1.cc:618-643 | PSK identity, lifetime hint, ticket and peer hash are read back or come back absent. |
| SslSession.ContextBack | ToDoList/Pods/BoringSSL-GRPC/ssl/ssl_asn1.cc:593-608 | Leaf certificate, session ID context and verify result are read back; an empty leaf or a negative verify result is refused. |
| SslSession.HashesBack | ToDoList/Pods/BoringSSL-GRPC/ssl/ssl_asn1.cc:644-655 | Handshake hash, SCT list and OCSP response are read back or come back empty. |
| SslSession.GroupBack | ToDoList/Pods/BoringSSL-GRPC/ssl/ssl_asn1.cc:655-667 | Extended master secret and group are read back, or come back false and zero. |
| SslSession.CertsBack | ToDoList/Pods/BoringSSL-GRPC/ssl/ssl_asn1.cc:668-720 | The leaf and, cut where elements end, the chain are read back in order for every list of certificates, and refused exactly when the chain is not a sequence of elements or the X.509 layer refuses them. |
| SslSession.RestoredExactly | ToDoList/Pods/BoringSSL-GRPC/ssl/ssl_asn1.cc:668-720 | What is read back are the same certificates if and only if each one after the leaf is one DER element. |
| SslSession.ChainElements | ToDoList/Pods/BoringSSL-GRPC/ssl/ssl_asn1.cc:692-716 | Everything the chain loop returns is by itself exactly one DER element. |
| SslSession.LimitsBack | ToDoList/Pods/BoringSSL-GRPC/ssl/ssl_asn1.cc:742-748 | An omitted auth_timeout comes back as the timeout. |
| SslSession.ServerBack | ToDoList/Pods/BoringSSL-GRPC/ssl/ssl_asn1.cc:722-739 | An omitted is_server flag comes back true. |
| SslSession.AlpnBack | ToDoList/Pods/BoringSSL-GRPC/ssl/ssl_asn1.cc:749-754 | The last field is read back and nothing is left in the sequence. |
| Der.ElementBack | ToDoList/Pods/BoringSSL-GRPC/crypto/bytestring/cbs.c:243-322 | Every element is read back with its tag, body and extent, whatever follows it (X.690 sections 8.1 and 10.1: shortest length form). |
| Der.IntegerBack | ToDoList/Pods/BoringSSL-GRPC/crypto/bytestring/cbs.c:391-426 | Every 64-bit integer is read back from its shortest encoding. |
| Der.LengthBack | ToDoList/Pods/BoringSSL-GRPC/crypto/bytestring/cbb.c:199-283 | The length octets are the fewest possible and are read back. |
| Der.ElementMore | ToDoList/Pods/BoringSSL-GRPC/crypto/bytestring/cbs.c:243-322 | How an element is read does not depend on what follows it. |
| Der.ElementAlone | ToDoList/Pods/BoringSSL-GRPC/crypto/bytestring/cbs.c:243-322 | An element cut out of its surroundings is read back as the same element. |
| Der.AbsentBack | ToDoList/Pods/BoringSSL-GRPC/crypto/bytestring/cbs.c:444-459 | An optional element is absent, and nothing is consumed, when the next byte is not its identifier. |
| SslSessionIo.SessionToBytes | ToDoList/Pods/BoringSSL-GRPC/ssl/ssl_asn1.cc:200-399 | The serializer, appending field by field with a sticky error, writes exactly the bytes that the round trip is about. |
| SslSessionIo.WriteFields | ToDoList/Pods/BoringSSL-GRPC/ssl/ssl_asn1.cc:225-395 | The optional fields are appended in the order of their tags, each only when it is present or differs from its default. |
| SslSessionIo.ParseSession | ToDoList/Pods/BoringSSL-GRPC/ssl/ssl_asn1.cc:527-757 | The parser, advancing its cursor and filling fields, gives the session, verdict and rest that the round trip is about. |
| SslSessionIo.SessionReader.Certs | ToDoList/Pods/BoringSSL-GRPC/ssl/ssl_asn1.cc:668-720 | The loop takes the chain apart into its elements, in order behind the leaf, and refuses a chain without a leaf. |
| SslSessionIo.Cursor.GetOptionalOctets | ToDoList/Pods/BoringSSL-GRPC/ssl/ssl_asn1.cc:436-448 | An optional octet string is taken whole, or left when its tag is absent. |
| SslSessionIo.Cursor.GetOptionalNumber | ToDoList/Pods/BoringSSL-GRPC/ssl/ssl_asn1.cc:501-525 | An optional integer is taken if it is within its bound, or replaced by its default when its tag is absent. |

## Left out

- nanopb callbacks, extensions, pointer fields and builds other than with PB_FIELD_32BIT and 64-bit integers: foreign code or build options.
- nanopb struct layout: members are numbered instead of placed at offsets; a union is one member, a repeated member holds its first `count` items, a fixed-count member the items received so far (the source leaves the rest of it undefined). Bytes behind a string's NUL or beyond a byte array's size are not modelled; the four bytes of memory from the start of a fixed-count array, as far as its items do not settle them, are a parameter of its value, which a decoded message has to be given before it is encoded again.
- PbFidelity.DefaultSame: the decoder's defaults also clear up to three bytes of memory behind a fixed-count array shorter than a pb_size_t; what lies there is not modelled.
- nanopb streams after a failed call, error message texts and size_t wrap-around.
- PbFidelity.RoundTrip: only for encodings below 2^32 bytes and tables with distinct non-zero tags; proto3 fields have no default of their own.
- PbMerge.SubmessagesMerge: for tables without fixed-count arrays of their own, the place in which is kept from one call of the decoder to the end of that call only, and for pieces that pass the required-field check each.
- PbGrammar.ReadsExactly: for what the grammar writes in table order; other orders, longer varints and repeated fields are PbWire.FieldsThen, PbGrammar.PayloadTaken and PbMerge.SubmessagesMerge field by field.
- PbVarint.ReadWritten32: like PbVarint.ReadNegative32 only for what the encoder writes, because the 32-bit reader accepts and truncates some longer varints.
- PbWire.UnknownIgnored: not for an empty table and tag 0, which the source takes for a match.
- DTLS alerts, timers, HelloVerifyRequest, MTU discovery, message callbacks and malloc failure. The record version of the initial null context is fixed when the run starts.
- DtlsRun.DeliveryIsPrefix: fewer than 65536 messages; DtlsHistory.DeliveryToTheLast adds the last one when record numbers do not come around, and DtlsWrap.PrefixExactly that this is the exact bound. RFC 6347 section 4.1 forbids epochs to come around, and a receiver without keys accepts anything.
- DtlsFlight.FlightDelivered: for a flight sent by one call; one that takes more than 64 record numbers or an MTU above 16384 may lose records to the replay window or the plaintext limit, and is not spoken of. That sending itself succeeds is DtlsProgress.SendLoopFinishes.
- DtlsProgress.SealNextTakes: for packets below 65549 bytes, as the length of a record has 16 bits.
- DTLS keys: the n-th change of keys puts the n-th context to use, only the first is the null context, and what is sealed under one does not open under another whose epoch has the same 16 bits.
- DtlsRecord.NumbersAndNoncesUnique: up to the first wraparound of a number or the epoch.
- SslAead.OpenSealed: for an ideal AEAD; where the length is authenticated, one with a fixed overhead. The cryptography itself and the fuzzer mode are not modelled.
- DtlsSend.SamePacketAgain: for the same MTU and write epoch.
- tls_seal_record and record splitting: sealing is an arbitrary function that may fail. Early data, KeyUpdate and a missing write BIO are left out; wpend_tot and wpend_ret, always equal, are one field.
- Handshake: TLS 1.3, SSL 3.0, DTLS-only states, renegotiation, handoff, 0-RTT, False Start and SSL_VERIFY_FAIL_IF_NO_PEER_CERT. Message contents are arbitrary beyond what steers the machines; a proof is a MAC over the transcript, and two different transcripts may share one.
- TlsSealed.ReliableSucceeds: for a buffer with room for a record and the unsent flight, at most 65535 bytes.
- The flush of a handshake flight: what a machine sends is on its way at once.
- Handshake callbacks that ask to be called again only repeat a state, and the copies of the Finished values kept for renegotiation are not modelled.
- TlsClient.ClientHandshake.Drive: says nothing about the fields after a failure; the fields of SSL_HANDSHAKE are one record that the methods reassign.
- TlsServer.ServerHandshake.Drive: the same.
- Session: the X.509 checks, the known ciphers and the session cache objects are parameters; the not-resumable placeholder is not modelled.
- SslSession.RoundTrip: needs a session with a cipher, as the serializer does.
- constant_time_lt and constant_time_ge: the padding check does not use them.
- The Swift application, name tables and platform code: no logic of their own.
