# Verified models of libezutil

Dafny models of the parts of libezutil that hold state machines or real arithmetic,
with proofs of what those parts are for.  To verify the project, use
`dafny verify dfyconfig.toml`.

The project has two kinds of files; `ByteSeqs` and `Radix` serve both.  *Reference* files
say, on values, what a part of the library computes (`...Spec`, `Radix`, `HdlcScan`, `Aes`, `Des`, `Md5Rounds`, ...);
theorems about whole streams, whole messages or all inputs are lemmas there.  *Code*
files follow the C source statement by statement, with classes for its structs and
arrays for its buffers; every method there is proved to do what the reference says.
What both sides share (character classes, arithmetic on words, tables, constants) is stated
once more on its own: as numbers, as literal alphabets or bits, or by the answers that the
standards print (`...Answer`, `CrcAnswers`).  The CRC-8 in use is that of src/crc8.c; the rows
cite the same table and loop where src/ez_hdlc.c has them too, switched off.

| part | reference and theorems | code |
|---|---|---|
| WebSocket frames | `WebSocketSpec`, `WebSocketFrames` | `WebSocket` (class `Parser`), `WebSocketFrames.Build` |
| HDLC | `HdlcScan`, `HdlcCodec`, `HdlcChecks` | `HdlcReceiver` (class `Receiver`), `HdlcCodec` |
| chunked bodies | `HttpChunkSpec`, `HttpChunks`, `HttpCuts`, `HttpSizes`, `HttpAccepted` | `HttpChunk` (class `Parser`) |
| URLs | `UrlSpec`, `UrlChars`, `UrlFields`, `UrlPrint`, `UrlAccepted` | `Url` (class `Url`) |
| JSON tokens | `JsmnSpec`, `JsmnTexts`, `JsmnForest`, `JsmnCover`, `JsmnPrint` | `Jsmn` (class `Parser`) |
| Base58 | `Radix`, `Base58Spec`, `Base58Answer` | `Base58`, `LibBase58` |
| timespec | `Timespec` | `Timespec` |
| CRCs | `Crc`, `CrcAnswers` | `Crc` |
| AES | `AesField`, `AesSbox`, `Aes`, `AesCbc`, `AesAnswer` | `AesCode`, `AesBuffers` (class `AesCtx`) |
| DES | `Des`, `DesKeys`, `DesTables`, `DesBits`, `DesWide`; FIPS 46-3 in `DesStandard`, `DesBoxes`, `DesNetwork`, `DesRound`, `DesSubkeys`, `DesFips` | `DesCode` (class `Register`) |
| MD5 | `WordValues`, `Md5Rounds`, `Md5`, `Md5Answer` | `Md5` (class `Context`) |

## What the code does not do

Some natural properties fail for the code as it is.  For each there is the condition under
which it holds, and an input that fails.

- **WebSocket.** After a CLOSE frame a parser stays in its complete state, and every later
  call with data reports that frame once more.  Cutting a stream is harmless exactly when
  no such call comes (`SplitHarmless`, `CloseReportedTwice`).
- **HTTP.** Body is delivered at the end of a chunk or of the buffer; a wrong character
  right behind chunk data loses the body marked in the same call (`LostByCall`), which
  another cut of the stream would have delivered (`CutSavesBody`).  Cutting a stream is
  harmless exactly when every chunk with a wrong character behind it comes, with that
  character, in one call (`HttpCuts.CutHarmless`); whatever the cut, `Delivered` says what
  the callbacks get.  With n characters of a chunk to come, a call loses body exactly when
  it brings more than n and the one behind them is no CR (`InDataGuard`).  The table of
  digits has values for 128 of its 256 entries and zeros for the others, so that every
  character above 127 passes for the digit 0 of a size (`HighByteIsZero`, `UnhexIs`).
- **URLs.** A URL printed from its components is parsed back into them (`PrintedParsed`),
  but a fragment straight after the authority is refused (`FragmentAlone`).  Exactly the
  printed URLs are accepted (`AcceptedExactly`), where a query may hold more question marks, a
  fragment both delimiters, and hashes in front of a fragment are skipped.  A CONNECT target
  is a host and a port, but a question mark and hashes behind them are tolerated
  (`TargetExactly`).
- **HDLC.** Check bytes go out unescaped, so that data comes back exactly when no check
  byte is 0x7D (`PacketRoundTrip`), and the receiver recognises the packet exactly when
  none is 0xFE (`PacketRecognised`); single bytes are enough to fail (`LostByte`,
  `UnrecognisedByte`).  In Modbus mode the two check bytes are taken off without a look
  (`TakenExactly`).  Pieces of a stream must not be larger than 252 bytes; with 253 a packet
  can be lost (`LargestPiece`).  Encoder and decoder want one byte more than they
  write; the length that is reported for packets without check bytes is therefore one
  short (`LengthSuffices`; for the single byte 0x01 see `ShortByOne`).
- **timespec_mod.** The doubling of the divisor can stop for want of room; the result is
  the floored remainder exactly when it does not (`Mod`; `LargeDividend` fails).  A
  negative divisor with a fraction is doubled without a carry, and its nanoseconds
  overflow exactly when `OverflowExactly` says so (`FractionalDivisor`).

## Model

| member | source | states |
|---|---|---|
| `Radix.ShortestIsUnique` | src/base58.c:34-147 | a digit string without a leading zero is the shortest one of its value, so both codecs have only one right answer |
| `Base58Spec.SymbolDigit` | src/base58.c:20-32 | the digit map undoes the alphabet, and only digit 0 is written as 1 |
| `Base58Spec.DigitSymbol` | src/libbase58.c:23-32 | the alphabet undoes the digit map on every symbol |
| `Base58Answer.AlphabetIs` | src/base58.c:20-32 | symbols and digits go by the place in the literal alphabet |
| `Base58Answer.EncodedBytes` | src/base58.c:34-89 | two zeros and five bytes are encoded as 11ABnLTmg |
| `Base58Spec.DecodeEncode` | src/base58.c:34-147 | decoding undoes encoding on every byte string, leading zeros included |
| `Base58Spec.EncodeDecode` | src/base58.c:34-147 | every text of symbols decodes, and encoding the bytes gives the text back |
| `Base58Spec.EncodeLengthSuffices` | src/base58.c:149-152 | the reserved length n*137/100 + 1 holds the encoding of every n bytes |
| `Base58Spec.RoundedLengthSuffices` | src/base58.c:149-152 | the length is enough as it is computed too, with doubles: for any factor near 1.37 and any rounding of the conversion, the product and the sum to a relative error of 2^-52 |
| `Base58Spec.BufferSuffices` | src/libbase58.c:155-157 | (n-z)*138/100 + 1 base-58 digits hold any value of the bytes after the zeros, and all bytes but the last leave the top digit free |
| `Base58.MultiplyInPlace` | src/base58.c:60-65 | the first inner loop leaves the digits and the carry of multiply-and-add, and touches nothing outside its stretch |
| `Base58.GrownCarry` | src/base58.c:60-65 | the carry of multiplying by 256 stays below 256, that of multiplying by 58 below 58, and digits stay digits |
| `Base58.GrownValue` | src/base58.c:60-65 | digits below position j plus the weighted carry are worth the product plus what was added |
| `Base58.SpillCarry` | src/base58.c:66-74 | the second inner loop appends exactly the digits of the carry, or fails exactly when they do not fit |
| `Base58.AbsorbDigit` | src/base58.c:59-75 | the two loops turn the shortest digits of n into those of mul*n + add, and fail exactly when these do not fit |
| `Base58.EncodeInto` | src/base58.c:34-89 | writes the encoding and its length, or fails exactly when it does not fit; bytes behind the capacity stay |
| `Base58.DecodeInto` | src/base58.c:91-147 | for ASCII input writes the decoded bytes and their number, or fails exactly when a character is no symbol or they do not fit |
| `LibBase58.ShiftedFits` | src/libbase58.c:159-171 | no carry is left at the top exactly when the product fits, and then the digits have its value |
| `LibBase58.StopEarly` | src/libbase58.c:159-171 | stopping left of every used digit without a carry gives the same digits as going on to the top |
| `LibBase58.ShiftIn` | src/libbase58.c:161-170 | the loop with its early stop multiplies the buffer by 256 and adds the byte, and its stop is a valid next `high` |
| `LibBase58.Convert` | src/libbase58.c:155-171 | the fixed buffer ends with the base-58 digits of the value of all the bytes: no carry is lost |
| `LibBase58.Encoder` | src/libbase58.c:145-189 | writes the text that base58_encode writes, with a NUL; fails exactly when it has no room, and reports the size that would do |
| `LibBase58.OverflowTest` | src/libbase58.c:79-84 | a word string fits binsz bytes exactly when its top word is below the mask's bound |
| `LibBase58.ZeroMask` | src/libbase58.c:50-84 | testing with the shifted mask is comparing with 256, 65536 or 2^24 |
| `LibBase58.TakeDigit` | src/libbase58.c:73-78 | one digit multiplies the words by 58 and adds, with the carry that goes out at the top |
| `LibBase58.DigitTaken` | src/libbase58.c:64-85 | the two overflow tests fail only for texts whose value really is too large |
| `LibBase58.Accumulate` | src/libbase58.c:56-85 | succeeds exactly when all characters are symbols and the value is below 256^binsz, which the words then hold |
| `LibBase58.WriteBytes` | src/libbase58.c:87-100 | the words are written as bytes, most significant first, the first one with its odd bytes only |
| `LibBase58.ToBin` | src/libbase58.c:39-113 | true exactly for texts of symbols below 256^binsz; then bin is the value big-endian, the size is that of the decoded string, and when it fits the last bytes are what base58_decode gives |
| `Timespec.NormalUnique` | src/timespec.c:331-356 | there is only one pair of a value with nanoseconds in range |
| `Timespec.Normalise` | src/timespec.c:331-356 | the loops find that pair whenever its seconds fit a long |
| `Timespec.Ge` | src/timespec.c:219-225 | comparing fields after normalisation compares the values |
| `Timespec.Sub` | src/timespec.c:87-99 | the difference of the values, normalised |
| `Timespec.FlooredModUnique` | src/timespec.c:104-192 | the floored remainder is the only one with the sign and the range of the divisor |
| `Timespec.DoubledValue` | src/timespec.c:141-151 | the k times doubled, not normalised divisor is worth 2^k times the divisor |
| `Timespec.ShiftUp` | src/timespec.c:141-151 | the doubling loop stops at the first doubling that is larger than the dividend or has no room |
| `Timespec.LevelDown` | src/timespec.c:153-174 | a round keeps: divisor worth unit*2^i, quotient times unit plus rest is the dividend |
| `Timespec.SubtractDown` | src/timespec.c:153-174 | takes a multiple of the divisor off, down to a rest below it when the dividend was below twice the doubled divisor |
| `Timespec.SubtractOnce` | src/timespec.c:157-168 | takes the divisor off exactly when the rest is not below it |
| `Timespec.RestoreSign` | src/timespec.c:176-191 | crosses zero when the signs differ and restores the sign, by value |
| `Timespec.Mod` | src/timespec.c:104-192 | while every value fits a long, the result is worth the floored remainder if and only if the doubling does not stop short; modulo zero it is the normalised dividend; its nanoseconds lie in [0, NSEC), except that those of its negation do for a negative dividend, unless that is the remainder already |
| `Timespec.StoppedShort` | src/timespec.c:141-151 | where the loop stopped tells exactly whether it stopped short |
| `Timespec.OrdinaryRemainder` | src/timespec.c:104-192 | positive and whole negative divisors with dividends of at most LONG_MAX-2 seconds neither overflow nor stop short |
| `Timespec.LargeDividend` | src/timespec.c:141 | a concrete larger dividend for which the doubling stops short |
| `Timespec.OverflowExactly` | src/timespec.c:132-151 | the nanoseconds of a negative fractional divisor overflow if and only if some doubling that still has room would not fit |
| `Timespec.OverflowReached` | src/timespec.c:141-151 | an overflow that the condition names does come: the loop doubles all the way to the pair that no longer fits |
| `Timespec.FractionalDivisor` | src/timespec.c:132-151 | 20 s modulo -1 ns overflows |
| `WebSocketSpec.LengthByte` | src/ez_websocket_parser.c:212-289 | or-ing a length byte in adds it: its bits were clear, and the length stays below 2^16 or 2^64 |
| `WebSocketSpec.StepKeepsValid` | src/ez_websocket_parser.c:127-427 | every byte keeps the ranges of the fields |
| `WebSocketSpec.FeedSplit` | src/ez_websocket_parser.c:127-427 | feeding two stretches in turn is feeding them as one |
| `WebSocketSpec.AnySplit` | src/ez_websocket_parser.c:127-427 | any cut of a stream ends with the same fields, the same bytes consumed and the same events, but for one repeated completion for every call with data after CLOSE |
| `WebSocketSpec.SplitHarmless` | src/ez_websocket_parser.c:92-95 | a cut changes nothing at all if and only if no call with data comes after CLOSE |
| `WebSocketSpec.CloseReportedTwice` | src/ez_websocket_parser.c:410-414 | a concrete stream whose CLOSE is reported once whole and twice cut |
| `WebSocket.FeedPayload` | src/ez_websocket_parser.c:351-408 | taking n payload bytes at once is taking them one by one |
| `WebSocket.Parser.constructor` | src/ez_websocket_parser.c:112-119 | a new parser is in the initial state |
| `WebSocket.Parser.HandleFrameComplete` | src/ez_websocket_parser.c:76-109 | one completion; afterwards the next frame's start, the end after CLOSE, or an error when the callback refuses |
| `WebSocket.Parser.LengthKnown` | src/ez_websocket_parser.c:219-243 | with the length known goes to the key, the payload or the end of the frame |
| `WebSocket.Parser.OnFrameStart` | src/ez_websocket_parser.c:147-167 | the first byte of a frame, as the reference has it: an invalid opcode is an error and not consumed, otherwise exactly one begin callback |
| `WebSocket.Parser.OnFrameOpcode` | src/ez_websocket_parser.c:169-210 | the mask bit and the short length, or the announcement of a longer one, as the reference has it, with at most one callback |
| `WebSocket.Parser.OnLength16` | src/ez_websocket_parser.c:212-243 | each byte of a 16-bit length, as the reference has it; after the second the length is complete |
| `WebSocket.Parser.OnLength64` | src/ez_websocket_parser.c:245-312 | each byte of a 64-bit length, as the reference has it; after the eighth the length is complete |
| `WebSocket.Parser.OnMaskKey` | src/ez_websocket_parser.c:314-349 | each byte of the masking key, as the reference has it; a masked frame without payload is completed after the fourth |
| `WebSocket.ApplyMask` | src/ez_websocket_parser.c:68-72 | in place, byte i becomes its xor with key byte (index + i) mod 4, and no other changes |
| `WebSocket.Parser.DeliverMasked` | src/ez_websocket_parser.c:358-391 | batches of 4096 bytes and one with the rest, together the payload byte by byte xor the key at its frame offset; after a refusal those in front of the refused batch |
| `WebSocket.Parser.TakePayload` | src/ez_websocket_parser.c:351-408 | what belongs to the frame is delivered and counted, and completes the frame when it is all |
| `WebSocket.Parser.TakeAll` | src/ez_websocket_parser.c:145-427 | the loop over a buffer that is not empty does the same |
| `WebSocket.HeaderHalted` | src/ez_websocket_parser.c:147-167 | a refused begin stops in front of its byte, a completion refused after a header behind its last byte |
| `WebSocket.PayloadHalted` | src/ez_websocket_parser.c:351-408 | a refused batch stops in front of its bytes, a completion refused after a payload behind it |
| `WebSocket.Parser.Execute` | src/ez_websocket_parser.c:127-427 | one call on a buffer of any size does to the fields, consumes and reports what the byte-wise reference does; when a callback refuses, an error, an initial part, and as consumed exactly the bytes in front of the refused begin or batch, or those up to the end of the frame whose completion was refused |
| `WebSocketFrames.UnmaskBody` | tutorial_libezutil/ut-ez_websocket_parser.c:84-96 | unmasking with the key that masked gives the payload back |
| `WebSocketFrames.LengthBytes` | src/ez_websocket_parser.c:169-312 | a length goes out in seven bits, or behind 126 or 127 in two or eight bytes that are its digits to base 256, the highest first |
| `WebSocketFrames.FrameParsed` | tutorial_libezutil/ut-ez_websocket_parser.c:38-99 | the wire bytes of any frame, in any of the three length forms, masked or not, are parsed back into it, whatever follows |
| `WebSocketFrames.StreamParsed` | tutorial_libezutil/ut-ez_websocket_parser.c:38-99 | a stream of frames, at most the last one CLOSE, is parsed into exactly those frames with all bytes consumed |
| `WebSocketFrames.CutStreamParsed` | src/ez_websocket_parser.c:127-427 | however the bytes of such a stream are cut into calls, the callbacks see exactly its frames, once each, and every byte is consumed |
| `WebSocketFrames.EventsTell` | src/ez_websocket_parser.c:76-109 | the events of a frame determine its flag, opcode, payload and whether it was masked |
| `WebSocketFrames.OpcodesAccepted` | src/ez_websocket_parser.c:147-167 | exactly the opcodes 0, 1, 2, 8, 9 and 10 begin a frame; every other one is refused without being consumed |
| `WebSocketFrames.ReservedBits` | src/ez_websocket_parser.c:147-167 | the wire bytes of a frame have the reserved bits clear, and the parser does not look at them |
| `WebSocketFrames.Build` | tutorial_libezutil/ut-ez_websocket_parser.c:38-99 | writes those wire bytes at the front of the buffer, or returns 0 exactly when they do not fit |
| `Crc.ByteByTable` | src/crc32.c:90-101 | a table step is eight steps of bitwise division |
| `Crc.TableEntry` | src/crc32.c:113-127 | the inner loop divides one index |
| `Crc.GenTable` | src/crc32.c:108-130 | the generated table holds the division of every index |
| `Crc.Table32Divides` | src/crc32.c:28-82 | the table that the file starts with holds the division of every index too, so that ez_crc32 needs no generated one |
| `Crc.Crc32` | src/crc32.c:90-101 | ez_crc32 is the complemented bit-by-bit reflected division by 0xEDB88320, for every message |
| `Crc.Table16Divides` | src/crc16.c:18-52 | the CRC-16 table holds the division by 0xA001 of every byte |
| `Crc.Table8Divides` | src/ez_hdlc.c:164-182 | the CRC-8 table holds the reflected division by 0x8C of every byte |
| `Crc.Crc16` | src/crc16.c:56-76 | ez_crc16 is the bitwise division, from any start |
| `Crc.SplitTable` | src/ez_mod_bus_crc16.c:17-59 | the high and low tables are the bytes of the CRC-16 table |
| `Crc.ModbusCrc16` | src/ez_mod_bus_crc16.c:61-73 | the byte swap of the CRC-16 of the message started at 0xFFFF |
| `Crc.TableXDivides` | src/ez_crc16_xmoden.c:18-50 | the XMODEM table holds the division by 0x1021 of every byte |
| `Crc.Xmodem` | src/ez_crc16_xmoden.c:53-63 | the table form is the bitwise division |
| `Crc.DoCrc` | src/ez_crc16_xmoden.c:67-85 | do_crc is the same division, so the two functions agree |
| `CrcAnswers.CheckValues` | src/crc32.c:90-101 | the digits 1 to 9 give the check values that the catalogues print for CRC-32, CRC-16, XMODEM and CRC-8 |
| `HdlcScan.ScanFindsPackets` | src/ez_hdlc.c:102-150 | the scan delivers every packet that starts before the place where it ends, in order, and nothing else, false headers and garbage notwithstanding |
| `HdlcScan.LittleIsKept` | src/ez_hdlc.c:102-150 | at most 254 bytes are left unscanned |
| `HdlcScan.ScanExtends` | src/ez_hdlc.c:102-150 | more bytes never change what has been delivered |
| `HdlcScan.KeptContinues` | src/ez_hdlc.c:152-157 | scanning what was kept with more bytes goes on where the scan ended |
| `HdlcScan.AnySplit` | src/ez_hdlc.c:73-160 | in pieces of at most 252 bytes the buffer never overflows, and the packets are those of one scan of the whole stream |
| `HdlcChecks.LargestPiece` | src/ez_hdlc.c:73-100 | a piece of 253 bytes can overflow the buffer: a packet that one scan finds is then lost |
| `HdlcScan.PacketArrives` | src/ez_hdlc.c:73-160 | every packet of the stream is delivered once 255 bytes have come from its start on |
| `HdlcReceiver.Receiver.constructor` | src/ez_hdlc.c:26-45 | a new receiver holds nothing |
| `HdlcReceiver.Receiver.FindFlag` | src/ez_hdlc.c:119-126 | the first flag inside a candidate packet, or its end |
| `HdlcReceiver.Receiver.Decide` | src/ez_hdlc.c:105-149 | the decision on the byte at ii is that of the scan |
| `HdlcReceiver.Receiver.OnData` | src/ez_hdlc.c:73-160 | packets called back, bytes held and result are those of the scan; too much data empties the buffer |
| `HdlcCodec.UnescapeEscape` | src/ez_hdlc.c:227-341 | decoding undoes escaping, whatever follows the escaped data |
| `HdlcChecks.UnescapeExactly` | src/ez_hdlc.c:283-341 | a text of bytes other than 7D sent as themselves and of pairs 7D and byte xor 20 is decoded into just these; an escape byte at the end is the fault -3, two in a row -4 |
| `HdlcChecks.EveryTextIs` | src/ez_hdlc.c:283-341 | every text is such a one, so that the decoder fails on no other text |
| `HdlcCodec.EscapeHidesFlag` | src/ez_hdlc.c:227-279 | no flag is left in escaped data |
| `HdlcChecks.EscapedPairs` | src/ez_hdlc.c:227-279 | 7D is sent as 7D 5D, FE as 7D DE, and every other byte as itself |
| `HdlcCodec.EscapeGrows` | src/ez_hdlc.c:345-385 | escaped data is at least as long as the data and at most twice as long |
| `HdlcCodec.EncodeInto` | src/ez_hdlc.c:227-279 | writes the escaped data exactly when it is shorter than the destination; which code is returned otherwise |
| `HdlcCodec.EncodeLoop` | src/ez_hdlc.c:248-278 | the loop writes the escaped data, or stops with the code of the byte that fills the destination |
| `HdlcCodec.DecodeInto` | src/ez_hdlc.c:283-341 | the decoded bytes, or the code of the first fault, or of too little room |
| `HdlcCodec.Crc8Of` | src/ez_hdlc.c:185-195 | the check is the fold of the table over the data |
| `HdlcCodec.Crc8Divides` | src/ez_hdlc.c:185-195 | ez_crc8 with the table of the library is the bitwise division, for every message and start |
| `HdlcCodec.Crc8Residue` | src/ez_hdlc.c:474-488 | data followed by its check byte has check 0, for any table that begins with 0 |
| `HdlcCodec.GetDstBufLen` | src/ez_hdlc.c:345-385 | the length of the packet, or an error when it would reach the flag |
| `HdlcCodec.LengthSuffices` | src/ez_hdlc.c:345-446 | that length is exact, and enough room for the packet if and only if there are check bytes; without them one byte more is needed |
| `HdlcCodec.ShortByOne` | src/ez_hdlc.c:345-446 | the packet of the one byte 0x01 without check bytes is reported to take 3 bytes, and making it fails with 3 and succeeds with 4 |
| `HdlcCodec.MakePacket` | src/ez_hdlc.c:394-446 | the packet, exactly when everything fits; otherwise the code of the first thing amiss |
| `HdlcCodec.GetData` | src/ez_hdlc.c:453-497 | the data of a packet and the result of the reference, checks included; what that result means is the next three rows |
| `HdlcChecks.TakenExactly` | src/ez_hdlc.c:453-497 | it succeeds with r exactly for a flagged packet that decodes to r bytes and its check bytes and, when it verifies, whose byte r is the CRC-8 of the r bytes before it |
| `HdlcChecks.WrongCheckRefused` | src/ez_hdlc.c:474-488 | the result is -3 if and only if the last decoded byte is not the CRC-8 of those before it |
| `HdlcChecks.Refusals` | src/ez_hdlc.c:453-472 | too short, without a flag, or not decodable: the results for these |
| `HdlcChecks.ZeroCheck` | src/ez_hdlc.c:474-488 | the CRC-8 of data with a last byte is 0 if and only if that byte is the CRC-8 of the others |
| `HdlcChecks.ChangedCheck` | src/ez_hdlc.c:185-195 | changing any one byte changes the CRC-8 |
| `HdlcChecks.ChangedByteRefused` | src/ez_hdlc.c:453-497 | a packet that is taken is refused with -3 after any one byte of its decoded data, check byte included, has been changed |
| `HdlcChecks.Crc8TableDistinct` | src/ez_hdlc.c:164-182 | the entries of the table of the library are all different, and 0 only at 0 |
| `HdlcChecks.ExampleCheck` | src/ez_hdlc.c:197-222 | the example in the source: its check byte is 0xAA, and with it the check is 0 |
| `HdlcChecks.ModbusResidue` | src/ez_hdlc.c:394-446 | data followed by its two Modbus check bytes has the CRC-16 residue 0: low byte first |
| `HdlcCodec.PacketRoundTrip` | src/ez_hdlc.c:394-497 | the data comes back out of its packet if and only if no check byte is the escape byte, in every mode |
| `HdlcCodec.PacketRecognised` | src/ez_hdlc.c:102-140 | a packet in a stream is one to the receiver if and only if no check byte is the flag |
| `HdlcCodec.LostByte` | src/ez_hdlc.c:394-497 | with the CRC-8 table of the library the one byte 0x12 does not come back out of its packet |
| `HdlcCodec.UnrecognisedByte` | src/ez_hdlc.c:102-140 | with the CRC-8 table of the library the packet of the one byte 0x15 is none to the receiver |
| `HdlcCodec.PacketDelivered` | src/ez_hdlc.c:73-160 | an idle receiver delivers such a packet whole and at once |
| `JsmnSpec.Resume` | src/jsmn.c:151-300 | a run that stopped for want of tokens and goes on in a larger array ends like one run with the larger array: result, tokens, position and superior token |
| `JsmnSpec.MoreRoom` | src/jsmn.c:151-300 | a run that did not stop so is the same in every larger array |
| `JsmnSpec.CountAgrees` | src/jsmn.c:151-300 | when a run with tokens succeeds, the run without tokens returns the same count |
| `JsmnForest.StepKeeps` | src/jsmn.c:151-300 | every character keeps: slices in bounds, starts increasing, tokens disjoint or nested, containers between their own brackets |
| `JsmnForest.RunKeeps` | src/jsmn.c:151-300 | every run keeps the forest, failing runs included, and the superior token stays a valid index or -1 |
| `JsmnForest.SuccessIsWellFormed` | src/jsmn.c:158-299 | a successful run returns the number of its tokens, none of them open, all of them well formed: strings are JSON string bodies between quotes, containers lie between their own brackets |
| `JsmnCover.NothingLeftOut` | src/jsmn.c:151-300 | after a successful run every character up to the end of the text lies in a token or beside a string or primitive as its quote, or is a blank, a colon or a comma |
| `JsmnPrint.RunValue` | src/jsmn.c:151-300 | from inside any text, a printed value appends exactly its tokens and counts as one child |
| `JsmnPrint.PrintedIsTokenized` | src/jsmn.c:151-300 | the text of any JSON value, with blanks anywhere, gives exactly the tokens of the value with their slices and sizes |
| `Jsmn.Parser.constructor` | src/jsmn.c:306-310 | a new parser is at the start without tokens |
| `Jsmn.Parser.AllocToken` | src/jsmn.c:6-30 | appends a token, or fails exactly when the array is full |
| `Jsmn.Parser.ParsePrimitive` | src/jsmn.c:35-79 | the primitive up to its end becomes a token; a failing call leaves position and tokens alone |
| `Jsmn.Parser.ParseString` | src/jsmn.c:84-146 | the string without its quotes becomes a token; a failing call leaves position and tokens alone |
| `Jsmn.Parser.ParseEscape` | src/jsmn.c:113-142 | accepts exactly the escapes of JSON, with four hexadecimal digits after u: `JsmnTexts.Classes` has the alphabets |
| `JsmnTexts.Classes` | src/jsmn.c:45-131 | hexadecimal digits, escapable characters, blanks and the ends of primitives are these literal alphabets |
| `JsmnTexts.WrongDigit` | src/jsmn.c:123-135 | the digits after u are refused exactly when one that is no hexadecimal digit comes among them |
| `JsmnTexts.FoundIsBody` | src/jsmn.c:84-146 | what is taken for a string is a string body of JSON, its escapes complete |
| `JsmnTexts.InvalidString` | src/jsmn.c:113-142 | a string refused with JSMN_ERROR_INVAL has a wrong escape behind a correct beginning |
| `JsmnTexts.WrongEscapeRefused` | src/jsmn.c:113-142 | every such string is refused with JSMN_ERROR_INVAL |
| `JsmnTexts.PrimitiveExactly` | src/jsmn.c:35-79 | a primitive is taken exactly up to the first blank, colon, comma, bracket or end of the text, all before it being printable |
| `Jsmn.Parser.OpenBracket` | src/jsmn.c:164-181 | a new open token that is superior from now on |
| `Jsmn.Parser.CloseBracket` | src/jsmn.c:182-227 | closes the last open token if it is of the bracket's kind, and finds the one before it |
| `Jsmn.Parser.SuperiorBefore` | src/jsmn.c:219-225 | the second loop: the last open token before the closed one becomes the superior one, or none |
| `Jsmn.Parser.CommaChar` | src/jsmn.c:240-257 | leads back to the innermost open container |
| `Jsmn.Parser.ValueChar` | src/jsmn.c:228-280 | a string or primitive counts as a child of the superior token |
| `Jsmn.Parser.ParseChar` | src/jsmn.c:158-288 | the switch does what the reference's step does |
| `Jsmn.Parser.CountChar` | src/jsmn.c:158-288 | without tokens it only moves and counts |
| `Jsmn.Parser.AnyOpen` | src/jsmn.c:290-297 | the final check finds an open token exactly when there is one |
| `Jsmn.Parser.Parse` | src/jsmn.c:151-300 | result, position, superior token and tokens are those of the reference run with that much room; with no array, of the counting run |
| `HttpChunkSpec.StepKeepsValid` | src/http_parser.c:1989-2109 | every character keeps the ranges that make the assertions of the body states true |
| `HttpChunkSpec.FeedSplit` | src/http_parser.c:1989-2109 | feeding two stretches in turn is feeding them as one |
| `HttpChunkSpec.AnySplit` | src/http_parser.c:1989-2140 | any cut ends with the same fields and the same characters taken, and brings at least what one call brings and at most the events of the reference, which are the same unless body is lost; `HttpCuts.CutHarmless` has the exact condition |
| `HttpChunkSpec.ReadsData` | src/http_parser.c:2071-2092 | data up to the size of the chunk is delivered as it is |
| `HttpChunks.ReadsDigits` | src/http_parser.c:1989-2040 | the size is the value of its hexadecimal digits; `HttpSizes.UnhexIs` has the digits |
| `HttpSizes.UnhexIs` | src/http_parser.c:224-233 | the character at place v of either alphabet of digits is worth v, and every other one is none, but for those above 127 |
| `HttpSizes.PrintHexValue` | src/http_parser.c:1989-2040 | reading a number printed in hexadecimal gives the number |
| `HttpSizes.HighByteIsZero` | src/http_parser.c:224-233 | the size 1 followed by a character above 127 is read as 16 |
| `HttpChunks.OversizeRejected` | src/http_parser.c:2028-2036 | a size above ULLONG_MAX - 16 is rejected, so it never wraps and never equals the sentinel |
| `HttpChunks.ReadsChunk` | src/http_parser.c:1989-2109 | one chunk, with any extension, brings its header, its data and one completion |
| `HttpChunks.ChunkedIsRead` | src/http_parser.c:1989-2109 | a chunked body is read to its last character, chunk by chunk, with exactly one completion of the message |
| `HttpChunks.CutChunkedIsRead` | src/http_parser.c:1989-2140 | a chunked body cut into any pieces brings the same callbacks and is read to its last character |
| `HttpSizes.SentIsRead` | src/http_parser.c:1989-2140 | any data sent in chunks with printed sizes, and cut into any pieces, is what the body callbacks get, to the last character |
| `HttpAccepted.CompletedIsChunked` | src/http_parser.c:1989-2109 | whatever makes the parser complete a message begins with a chunked body, and what was reported is its chunks |
| `HttpAccepted.ChunkedCompletes` | src/http_parser.c:1989-2109 | every chunked body completes the message, whatever follows |
| `HttpAccepted.CompletesExactly` | src/http_parser.c:1989-2109 | so the message is completed if and only if the stream begins with a chunked body |
| `HttpChunks.BodyIsData` | src/http_parser.c:2071-2102 | the body that the callbacks got is the data of the chunks put together |
| `HttpChunks.CutSavesBody` | src/http_parser.c:2094-2099 | a concrete chunk whose data is lost in one call and delivered when the stream is cut in front of the wrong character |
| `HttpCuts.LostByCall` | src/http_parser.c:2071-2099 | with a wrong character behind a chunk, one call delivers what comes before the data and loses exactly the data |
| `HttpCuts.Delivered` | src/http_parser.c:2071-2140 | however such a stream is cut, the callbacks get, of that chunk, what came in earlier calls than the wrong character |
| `HttpCuts.CutHarmless` | src/http_parser.c:2071-2140 | a cut brings the callbacks of a single call if and only if every chunk with a wrong character behind it comes, with that character, in one call |
| `HttpCuts.CallLosesBody` | src/http_parser.c:2094-2099 | a call loses body if and only if a wrong character comes behind data of a chunk that came in the same call |
| `HttpCuts.InDataGuard` | src/http_parser.c:2071-2099 | with n characters of a chunk to come, that is when the call has more than n > 0 and the one behind them is no CR; then exactly these n are lost |
| `HttpCuts.EndOfInput` | src/http_parser.c:663-682 | a call without data ends a run: an error unless the message is finished or has failed, and nothing later is taken or delivered |
| `HttpChunk.Parser.constructor` | src/http_parser.c:1867-1876 | where the body states begin |
| `HttpChunk.Parser.OnSizeStart` | src/http_parser.c:1989-2003 | the first digit of a size |
| `HttpChunk.Parser.OnSize` | src/http_parser.c:2005-2040 | a digit of the size, or its end |
| `HttpChunk.Parser.OnLine` | src/http_parser.c:2042-2069 | the rest of the size line, and the header callback |
| `HttpChunk.Parser.OnDataDone` | src/http_parser.c:2102-2110 | the end of a chunk |
| `HttpChunk.Parser.OnTrailer` | src/http_parser.c:1793-1802 | the empty trailer ends the message |
| `HttpChunk.Parser.Execute` | src/http_parser.c:1989-2140 | one call on a buffer takes, keeps and delivers what the character-wise reference does, body in stretches |
| `HttpChunk.Parser.TakeAll` | src/http_parser.c:1989-2140 | the loop over a buffer that is not empty does the same |
| `UrlSpec.RankGrows` | src/http_parser.c:494-639 | no character leads back to an earlier part of a URL |
| `UrlSpec.HostRankGrows` | src/http_parser.c:2247-2326 | no character leads back to an earlier part of a host |
| `UrlChars.Ranges` | src/http_parser.c:413-418 | digits and letters are these literal alphabets |
| `UrlChars.Classes` | src/http_parser.c:420-436 | marks and the characters of userinfo, host, zone and address are these literal alphabets |
| `UrlChars.UrlBits` | src/http_parser.c:242-275 | the characters of paths, queries and fragments are the ones bits of the bitmap |
| `UrlChars.PrintedDecimal` | src/http_parser.c:2508-2533 | the value of a port is the number that it is the decimal print of |
| `UrlSpec.CollectCovers` | src/http_parser.c:2432-2488 | a part that is not left and taken up again gets the slice where its characters are |
| `UrlSpec.FinalCovers` | src/http_parser.c:2416-2536 | every field is where one of the two automata labels its characters |
| `UrlFields.FieldsInOrder` | src/http_parser.c:2416-2536 | fields are disjoint and in the order scheme, userinfo, host, port, path, query, fragment |
| `UrlFields.FieldsOk` | src/http_parser.c:2416-2536 | every field is a non-empty slice within the URL, of characters that its part may hold |
| `UrlFields.OutsideIsDelimiter` | src/http_parser.c:2416-2536 | everything outside the fields is a delimiter: no character of a URL is lost |
| `UrlFields.QueryAndFragmentMarked` | src/http_parser.c:494-639 | a query follows its question mark and a fragment its hash |
| `UrlFields.SchemaMarked` | src/http_parser.c:494-639 | a scheme comes first and :// follows it |
| `UrlFields.PortMarked` | src/http_parser.c:2247-2326 | a port follows its colon |
| `UrlFields.UserinfoMarked` | src/http_parser.c:2247-2326 | an at sign follows the userinfo |
| `UrlPrint.PrintedParsed` | src/http_parser.c:2416-2536 | a URL printed from scheme, userinfo, host, port, path, query and fragment with their delimiters (RFC 3986 section 3) is accepted, and its fields are those components; missing or empty ones are not set |
| `UrlPrint.TargetParsed` | src/http_parser.c:2416-2536 | the host and port of a CONNECT request, with nothing but a question mark and hashes behind them, are accepted and are the only fields |
| `UrlPrint.TargetRefused` | src/http_parser.c:2495-2504 | a CONNECT target without a port, or with a userinfo, is refused |
| `UrlPrint.PathParsed` | src/http_parser.c:494-639 | a target that begins with its path is accepted and gives path, query and fragment only |
| `UrlPrint.FragmentAlone` | src/http_parser.c:547-571 | a fragment straight after the authority is refused |
| `UrlAccepted.AcceptedIsPrinted` | src/http_parser.c:2416-2536 | every URL that is accepted is one printed from proper components |
| `UrlAccepted.AcceptedExactly` | src/http_parser.c:2416-2536 | a text is accepted if and only if it is one |
| `UrlAccepted.TargetExactly` | src/http_parser.c:2495-2504 | a CONNECT target is accepted if and only if it is a host, a port up to 65535 and nothing but a question mark and hashes behind them |
| `Url.Url.Split` | src/http_parser.c:2428-2488 | the first pass fails exactly when its automaton dies, and otherwise collects the labelled fields |
| `Url.Url.ParseHost` | src/http_parser.c:2329-2408 | the second pass accepts exactly the hosts of its automaton, and sets userinfo, host and port where they are labelled |
| `Url.Url.ParsePort` | src/http_parser.c:2508-2533 | the port is the decimal value of its slice; above 65535 it is refused |
| `Url.Url.ParseUrl` | src/http_parser.c:2416-2536 | 0 exactly for the URLs of the automata with the fields that the method asks for; then the fields are the labelled slices and the port the value of its own |
| `AesField.RsboxUndoes` | src/aes.c:80-153 | the second substitution table undoes the first on every byte |
| `AesSbox.InverseExists` | src/aes.c:80-99 | every byte but 0 has an inverse in the field |
| `AesSbox.SboxInverts` | src/aes.c:80-99 | the substitution table is the affine transformation of the inverse (FIPS 197 section 5.1.1) on every byte |
| `AesField.UnmixedMixed` | src/aes.c:313-379 | the inverse column transformation undoes the other on every column |
| `AesField.MixedBySumIs` | src/aes.c:313-334 | the shortened form with the column's sum is the product of FIPS 197 |
| `AesField.MultiplyIs` | src/aes.c:337-348 | the macro multiplies by 9, 11, 13 and 14 |
| `Aes.ShiftRowsUndone` | src/aes.c:279-422 | the inverse row shift undoes the other |
| `Aes.ShiftRowsMoves` | src/aes.c:279-305 | row r turns left by r places, bytes counted down the columns |
| `Aes.InvRoundsRetrace` | src/aes.c:426-475 | the inverse cipher goes back through the states of the cipher, round by round |
| `Aes.InvCipherUndoes` | src/aes.c:426-475 | InvCipher undoes Cipher for every block, whatever the round keys are |
| `AesCbc.DecryptUndoes` | src/aes.c:515-544 | CBC decryption undoes CBC encryption for any number of blocks |
| `AesCbc.EncryptedBlockIs` | src/aes.c:515-529 | ciphertext block i is the cipher of plaintext block i xor the ciphertext block before it, or the initialisation vector |
| `AesCbc.EncryptSplit` | src/aes.c:515-529 | encrypting in several calls, with the kept block, is encrypting the whole |
| `AesCbc.DecryptSplit` | src/aes.c:531-544 | decrypting in several calls, with the last ciphertext block kept, is decrypting the whole |
| `AesCode.SubBytesInPlace` | src/aes.c:264-274 | the substitution on all 16 bytes |
| `AesCode.ShiftRowsInPlace` | src/aes.c:279-305 | the row shifts by single moves are the rotations of the rows |
| `AesCode.InvShiftRowsInPlace` | src/aes.c:396-422 | the inverse row shifts by single moves are the rotations of the rows to the right |
| `AesCode.MixColumnsInPlace` | src/aes.c:313-334 | the four columns are mixed as FIPS 197 says |
| `AesCode.InvMixColumnsInPlace` | src/aes.c:363-379 | the four columns are multiplied in place by the inverse polynomial of FIPS 197 |
| `AesCode.CipherInPlace` | src/aes.c:426-449 | the rounds in place are the cipher |
| `AesCode.InvCipherInPlace` | src/aes.c:452-475 | the inverse rounds in place are the inverse cipher |
| `AesBuffers.RconPowers` | src/aes.c:121-125 | the round constants are the powers of 2 in the field |
| `AesBuffers.KeyExpansion` | src/aes.c:158-230 | the round keys are the schedule `Expanded` of the key, which the next two rows describe byte by byte |
| `AesBuffers.ScheduleBytes` | src/aes.c:158-230 | byte by byte: the key first; then each word is the xor of the one four before and of the one before, which at every fourth word is turned by one byte, substituted and given the round constant |
| `AesAnswer.KeyWords10` | src/aes.c:158-230 | the last round key of FIPS 197 section A.1 |
| `AesAnswer.FirstBlock` | src/aes.c:515-529 | the first CBC block of NIST SP 800-38A section F.2.1 |
| `AesBuffers.AesCtx.constructor` | src/aes.c:237-241 | the context of a key and an initialisation vector |
| `AesBuffers.AesCtx.EncryptBuffer` | src/aes.c:515-529 | the buffer becomes its CBC encryption in place, the rest stays, and the last block is kept for the next call |
| `AesBuffers.AesCtx.DecryptBuffer` | src/aes.c:531-544 | the buffer becomes its CBC decryption in place, although each ciphertext block is overwritten before the next one needs it; the rest stays |
| `AesBuffers.OpenedSealed` | src/aes.c:615-697 | decrypting with the wrapper what the wrapper encrypted gives the text, filled up with zeros to the next multiple of 16 |
| `AesBuffers.CbcEncrypt` | src/aes.c:615-655 | the return codes, no change on failure, and the encryption of the zero-padded text with zeros behind it |
| `AesBuffers.CbcDecrypt` | src/aes.c:657-697 | the return codes, no change on failure, and the decryption of whole blocks with zeros behind it |
| `Des.OpenClose` | src/d3des.c:346-414 | the opening bit-swap network undoes the closing one, with the halves turned round |
| `Des.CloseOpen` | src/d3des.c:346-414 | the closing bit-swap network undoes the opening one |
| `Des.RoundsRetrace` | src/d3des.c:366-396 | with the subkey pairs reversed the rounds go back through their states |
| `Des.CryptUndone` | src/d3des.c:340-414 | reversed subkeys undo desfunc on every block, whatever the tables hold |
| `Des.BlockUndone` | src/d3des.c:155-194 | reversed subkeys undo des on every block of eight bytes |
| `DesWide.LowOpen` | src/d3des.c:346-364 | on 64-bit longs the rounds begin with halves that have no bits above bit 31, whatever came in, and their low words are those of 32-bit longs |
| `DesWide.LowRounds` | src/d3des.c:366-393 | the rounds keep both: no bits above bit 31, and the low words of 32-bit longs |
| `DesWide.LowCrypt` | src/d3des.c:340-414 | desfunc on 64-bit longs, bits that the last rotations push above bit 31 included, is desfunc on the low words |
| `DesBoxes.TableAt` | src/d3des.c:196-338 | an entry of a combined table is the value of its selection function, permuted by P and turned left |
| `DesBoxes.TablesAreStandard` | src/d3des.c:196-338 | that is so for all eight tables and all 64 inputs |
| `DesNetwork.InitialIs` | src/d3des.c:346-364 | the opening network is the initial permutation of FIPS 46-3, turned left |
| `DesNetwork.PermutedOnce` | src/d3des.c:346-364 | the permutation has only one result, so the network has no other right answer |
| `DesRound.RoundFunction` | src/d3des.c:368-379 | the two groups of four lookups are the function f of FIPS 46-3: expansion, subkey, selection functions and P |
| `DesSubkeys.ChoicesAre` | src/d3des.c:44-57 | the two choice tables are PC-1 and PC-2, counted from 0 |
| `DesSubkeys.ShiftedIs` | src/d3des.c:50-51 | the total rotations are the sums of the shifts of the rounds |
| `DesBits.KeyBitIs` | src/d3des.c:66-71 | bit l of a key is the digit of weight 2^(7 - l mod 8) of byte l/8 |
| `DesBits.TurnedIs` | src/d3des.c:80-93 | turning by n takes bit j from place j + n of its own half, counted modulo 28 |
| `DesBits.BlockBitIs` | src/d3des.c:155-194 | the bits of a block are the digits of its bytes, the most significant first |
| `DesSubkeys.GatheredGroups` | src/d3des.c:94-104 | a gathered word holds four groups of six chosen bits |
| `DesFips.SubkeyPair` | src/d3des.c:59-131 | each pair of words in the register is the subkey of its round, for either direction |
| `DesFips.KeyOrder` | src/d3des.c:66-107 | round n uses subkey n when enciphering and subkey 15 - n when deciphering |
| `DesFips.RoundsAre` | src/d3des.c:366-393 | the double rounds are the rounds of FIPS 46-3, two at a time |
| `DesFips.CipherIsStandard` | src/d3des.c:340-414 | with tables as FIPS 46-3 has them, desfunc applies the initial permutation, sixteen rounds and the inverse permutation |
| `DesFips.DesIsStandard` | src/d3des.c:59-414 | so desfunc with the tables and the schedule of the library is the cipher of FIPS 46-3, enciphering and deciphering |
| `DesKeys.SchedulesReversed` | src/d3des.c:59-131 | the two schedules of a key have their subkey pairs in reverse order |
| `DesCode.DesFunc` | src/d3des.c:340-414 | the exchanges and the eight double rounds on the two words are the block cipher of the reference |
| `DesCode.Register.UseKey` | src/d3des.c:144-153 | the register holds the 32 words |
| `DesCode.Register.CookKey` | src/d3des.c:109-131 | the bits of each pair of words go where the rounds use them |
| `DesCode.Register.DesKey` | src/d3des.c:59-107 | the register holds the schedule of the key, for either direction |
| `DesCode.DesBlock` | src/d3des.c:155-194 | one block of bytes through the register |
| `DesCode.BlocksUndone` | src/d3des.c:750-809 | ECB with reversed subkeys undoes ECB for any number of blocks |
| `DesCode.BlockAt` | src/d3des.c:750-809 | ECB does to each block, by itself, what the cipher does |
| `DesCode.OpenedSealed` | src/d3des.c:732-809 | decrypting what was encrypted gives the text, of any length, filled up with zeros to the next multiple of 8 |
| `DesCode.EcbEncrypt` | src/d3des.c:750-784 | whole blocks and the filled last one, in place or not; the result is the padded length, and nothing behind it changes |
| `DesCode.EcbDecrypt` | src/d3des.c:786-809 | -1 and no change for part blocks, otherwise the decryption of all of them |
| `Md5Rounds.ShortF` | src/std_md5.c:51 | the shortened first function is that of RFC 1321 |
| `Md5Rounds.ShortG` | src/std_md5.c:52 | the shortened second function is that of RFC 1321 |
| `Md5Rounds.WhereSet` | src/std_md5.c:51-52 | where the selecting word has ones, F is its second word and G its first |
| `Md5Rounds.WhereClear` | src/std_md5.c:51-52 | where it has zeros, the other one |
| `Md5Rounds.OddNumber` | src/std_md5.c:53-54 | H is the sum of the three words without carries |
| `Md5Rounds.TurnedOver` | src/std_md5.c:55 | where x has ones or z has zeros, I is y with its bits turned over |
| `Md5Rounds.LeftAlone` | src/std_md5.c:55 | elsewhere I is y |
| `WordValues.SumValue` | src/std_md5.c:60-63 | the sum of two words is the sum of the numbers modulo 2^32 |
| `WordValues.CircularValue` | src/std_md5.c:60-63 | turning left by n is multiplying by 2^n modulo 2^32 and adding the number divided by 2^(32-n) |
| `Md5Rounds.SteppedValue` | src/std_md5.c:60-63 | a step, on numbers: b plus the turned sum of a, f, x and t, modulo 2^32 |
| `Md5Rounds.SumValues` | src/std_md5.c:191-194 | the registers are added to the chaining words modulo 2^32 |
| `Md5Rounds.WordValue` | src/std_md5.c:79-98 | a word of the block is its four bytes, the lowest first |
| `Md5Rounds.Four1` | src/std_md5.c:119-135 | four written-out steps are four operations of RFC 1321 section 3.4 on rotating registers |
| `Md5Rounds.Row1` | src/std_md5.c:119-135 | constants, word indices and shifts of the first round are those of the rule in RFC 1321 section 3.4 |
| `Md5Rounds.Row2` | src/std_md5.c:137-153 | constants, word indices and shifts of the second round are those of the rule |
| `Md5Rounds.Row3` | src/std_md5.c:155-171 | constants, word indices and shifts of the third round are those of the rule |
| `Md5Rounds.Row4` | src/std_md5.c:173-189 | constants, word indices and shifts of the fourth round are those of the rule |
| `Md5Rounds.Steps` | src/std_md5.c:112-194 | the 64 written-out steps are the 64 operations of RFC 1321 section 3.4 on the block |
| `Md5.FillingUnique` | src/std_md5.c:262-275 | the number of zero bytes in the padding is the only one below 64 that RFC 1321 section 3.1 allows |
| `Md5.FoldAppend` | src/std_md5.c:100-205 | taking blocks in two calls is taking them in one |
| `Md5.CountsAre` | src/std_md5.c:223-226 | the two counters are right exactly when hi*2^29 + lo is the byte count modulo 2^61 |
| `Md5.CountMore` | src/std_md5.c:223-226 | the update of the counters, with its carry test, keeps them right for any size |
| `Md5.LengthOut` | src/std_md5.c:277-279 | the eight bytes written are the bit count modulo 2^64, low word first |
| `Md5.BitLengthValue` | src/std_md5.c:277-279 | the eight bytes of the reference, lowest first, are the number of bits modulo 2^64 |
| `Md5.Taken` | src/std_md5.c:228-247 | whole blocks of buffer and data bring the chaining words to the end of them |
| `Md5.Context.constructor` | src/std_md5.c:207-216 | a new context has taken nothing |
| `Md5.Context.Body` | src/std_md5.c:100-205 | the block loop is the fold of the block function |
| `Md5.Context.Update` | src/std_md5.c:218-250 | the context stands for the message with the data appended |
| `Md5.Context.Final` | src/std_md5.c:258-289 | the digest of the whole message, padded as RFC 1321 sections 3.1 and 3.2 say; the context is wiped |
| `Md5.DigestOf` | src/std_md5.c:207-289 | however a message is cut into updates, the result is the digest of all of it |
| `Md5Answer.FirstRegisters` | src/std_md5.c:207-216 | the first chaining words are the bytes 01 23 .. ef fe dc .. 10 of RFC 1321 section 3.3 |
| `Md5Answer.BytesOfWord` | src/std_md5.c:252-256 | writing a word out and reading it again gives the word |
| `Md5Answer.EmptyDigest` | src/std_md5.c:207-289 | the digest of nothing is that of RFC 1321 section A.5 |

## Left out

- NULL checks, allocation failures and `hdlc_delete`: buffers are arrays or sequences with their lengths.
- Sizes are unbounded where the C code uses `size_t` or `unsigned int`; wrap-around of lengths near 2^32 or 2^64 is not modelled.  Where a width matters (timespec longs, chunk sizes, WebSocket lengths, MD5 counters, words of the ciphers) it is.
- src/libbase58.c: `b58check`, `b58check_enc` and SHA-256, which are calls into other code.
- src/base58.c: `base58_decode_length`, a floating-point estimate.
- Base58Spec.EncodeLengthSuffices: takes the factor as the rational 137/100; `RoundedLengthSuffices` is about the doubles.
- src/timespec.c: conversions from and to double, timeval and milliseconds, and the comparisons that are `timespec_ge` turned round.
- src/ez_websocket_parser.c: error names and version strings.  The callbacks' answers are a function of the calls made so far.
- src/http_parser.c: request and status lines, header fields, keep-alive, upgrades, pausing; the chunked part starts behind the headers.
- HttpChunk.Parser.Execute: callbacks answer 0, and a non-empty trailer or what comes behind the message is not read, because both lead into the header states.
- HttpChunkSpec.AnySplit: pieces are not empty, because a call without data tells the parser that the connection has ended; `HttpCuts.EndOfInput` says what such a call does.
- Url.Url.ParseUrl: URLs of at most 65535 bytes, because longer ones have their offsets cut to 16 bits.
- src/jsmn.c: the builds with `JSMN_STRICT` or `JSMN_PARENT_LINKS`.  A text is a sequence of characters whose end or NUL stops the run.
- src/ez_hdlc.c: source and destination do not overlap.
- HdlcCodec.MakePacket: with no data and no check bytes it is stated for destinations with room for the header, because the code writes the header unasked.
- HdlcCodec.PacketDelivered: packets of at least four bytes, because the receiver waits for a fourth byte.
- src/aes.c: ECB on its own and CTR.  The code casts the buffer to the state; the model copies the block and back.  Key lengths other than 128 bits are covered by `Aes` and `AesCbc`, whose schedules have any length, but not by `KeyExpansion`.
- src/d3des.c: double and triple length keys and the password helpers.  The words of `Des` and `DesCode` have 32 bits; `DesWide` shows the same for `desfunc` on 64-bit longs.  The words of the key schedule stay below 2^30 on either and are modelled with 32 bits only.
- src/std_md5.c: the `block` cache of words on machines that cannot read unaligned ones; words are read from the bytes in little-endian order.
- src/md5.c, src/sha1.c, src/sha256.c, src/base64.c, src/ini.c and the other utilities: easier members of the same families, or I/O.
