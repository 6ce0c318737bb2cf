# ceres gateway: a verified model

The home-alarm gateway `ceres` talks to phones, cameras and radio devices. This
project models the parts of it that carry the most logic, each as the code has it
and beside it as a simple specification, and proves that the two agree and what the
specification guarantees:

- **JSON** (`CText`, `CBuffer`, `Json*`): the cJSON printer, parser and in-place
  minifier. Printing fills buffers that a first pass has sized; parsing walks a C
  string; both are proved against functions on text, and the functions against each
  other and against RFC 8259: every text of its grammar is read as what it stands for
  (`JsonGrammar`, `JsonNumber`, `JsonUnicode`), and nothing is read but texts of a slightly
  wider one (`JsonAccepted`). Formatting and minifying are told without the tree
  (`JsonPretty`, `JsonChunks`).
- **AES and what is built on it** (`Aes*`, `Octet`, `P2pPacket`, `CamPacket`): the
  cipher of FIPS 197 (sections 4.2, 5.1, 5.2 and 5.3) on a 4 by 4 state, block-wise
  encryption of texts with a tail, the packets between phone and gateway and the
  control packets of the cameras. `AesStandard` and `AesExamples` hold the tables and
  the whole cipher against the standard, `P2pLaws` and `CamLaws` the packets against
  their layout.
- **Alarm** (`AlarmModel`, `AlarmTimers`, `AlarmLaws`, `AlarmSystem`): arming, delays,
  motion, and timers that go on running after they were cancelled.
- **Radio queue** (`RfModel`, `RfLaws`, `RfModule`): the ring buffer of commands with
  duplicate suppression, acknowledgements, time-outs and retries.
- **Web server** (`Glob`, `GlobLaws`, `WebSocketFrame`, `WebSocketWire`): the glob matcher
  and WebSocket framing (sections 5.2, 5.3 and 5.7 of RFC 6455).
- **MD5** (`Md5Spec`, `Md5Example`, `FileMd5`, `WebMd5`, `Md5Context`, `Md5Laws`): two
  independent implementations, both proved against RFC 1321.
- **Registry and history** (`SwapList`, `Registry`, `Events`, `Compaction`,
  `ScheduleRing`, `ScheduleRuns`, `ScheduleDue`, `ScheduleDays`, `Firmware`, `FirmwareText`,
  `FirmwareLayout`): deletion of a device from every list, the two-page event history, the
  bubbling compaction, the ring that keeps schedules from firing twice, and firmware
  packages.

A C `char` of a text is a Dafny `char`, a byte of binary data a `bv8`; memory is
little-endian. Where the C code steps outside a buffer, the specification has an
outcome of its own (`Overrun`) or the method requires that it does not happen.

## What turned out not to hold

Each comes with the exact condition under which it does hold, which says on which inputs it
does not; where such an input is short, it is given too:

- A text that fills whole blocks and itself ends with one of the fifteen tails loses
  its end when encrypted and decrypted (`AesUtils.TailRoundTrip`).
- The size check of `PPPP_Write2` does not count the tail, so the last six sizes it
  accepts do not fit (`P2pPacket.AcceptedPacketFits`), and of those that fit the receiver
  has no room for more than 8000 bytes (`P2pPacket.TooLongToReceive`).
- The first pass over a JSON string takes a backslash and the character behind it as a
  pair, the second one skips four or ten characters behind a `\u`, whatever they are. A
  closed string is read inside text and buffer, whatever stands behind it, if and only
  if no step of the second pass goes beyond the closing quote
  (`JsonBuffer.ClosedStringFits`; `JsonBuffer.OpenStringFits` for a string that is not
  closed). The quote itself can be skipped (`JsonBuffer.SkippedQuote`), or the end of
  the text (`JsonBuffer.SkippedEnd`), or a pair cut in two before it
  (`JsonBuffer.SplitPair`). Where each `\u` has its four digits, neither happens
  (`JsonBuffer.ProperStringIsRead`).
- A radio command to a device id ending in 0xD2 resets the transmit queue while it is
  sent from it, which leaves the read position one ahead (`RfModule.ResetWhileSending`);
  that and a command for the test device on a full queue are all that puts the ring out
  of step (`RfModule.Drive`). Commands for the test device skip the duplicate check
  (`RfModel.TestDeviceRepeats`, `RfModel.TestDeviceOverfills`, `RfModel.RunGood`); a retry is lost when the queue is full
  (`RfModel.RetryIsKept`, `RfModel.RetryIsLost`).
- An entry delay does not always last until its own timer ends: a timer of an earlier one
  can end it if and only if one still runs when motion starts the delay
  (`AlarmTimers.CutShortIff`, `AlarmSystem.CutDelayShort`, with a run in
  `AlarmSystem.EntryDelayCutShort`).
- A WebSocket frame is delivered as it was written if and only if its length, header and
  mask included, fits an int (`WebSocketFrame.PlainDelivered`,
  `WebSocketFrame.MaskedDelivered`).
- Deleting a device leaves a second device, siren or schedule of the same id under a
  condition given exactly (`SwapList.PassGone`, `SwapList.RemoveFirstGone`), on lists such
  as those of `SwapList.PassMissesOne` and `SwapList.RemoveFirstMissesOne`.
- The code of a schedule's start is that of another one's stop 1111 minutes later
  (`ScheduleRing.StartMeetsStop`). In the first tick of its minute on a day, a stop that is
  due is commanded if and only if that start is not among the last 48 commands of the day
  (`ScheduleDue.StopIsCommanded`), and a start if and only if that stop is not
  (`ScheduleDue.StartIsCommanded`). `ScheduleDue.StopIsLost` is a run of two ticks in which
  a stop is lost, `ScheduleDue.StartIsLost` one in which a start is. Starts can be lost only
  when the clock is set back: in a minute later than the day's ticks so far every start that
  is due is commanded (`ScheduleDue.LaterStartIsCommanded`). With more than 48 starts and
  stops due in one minute, every tick of the minute commands all of them again; with 48 or
  fewer each is commanded once (`ScheduleRuns.OnceInMinute`,
  `ScheduleRuns.CrowdStartsTwice`).
- Firmware scripts may hold lines that the gateway ignores but for which the tool packages
  a file: copy lines, and comments in which a file with content is named behind the last
  slash (`Firmware.CopyAdds`, `Firmware.CommentAdds`). A later file is read from where the
  tool put it if and only if no such line stands before it (`Firmware.OffsetsAgree`);
  `Firmware.CommentShifts` is a script that goes wrong, `Firmware.HarmlessComment` a
  comment that does no harm.

## Model

| member | source | states |
|---|---|---|
| JsonPrinter.EscapedLength | SourceCode/ceres-gateway-2/cJSON.c:388-395 | the length pass counts exactly the characters that escaping will produce |
| JsonPrinter.PrintString | SourceCode/ceres-gateway-2/cJSON.c:379-440 | the buffer of the counted length plus 3 is filled to its last byte: quoted text and terminator |
| JsonPrinter.PrintNumber | SourceCode/ceres-gateway-2/cJSON.c:147-167 | an int takes at most 11 of the 21 characters allocated for it |
| JsonPrinter.PrintArray | SourceCode/ceres-gateway-2/cJSON.c:642-711 | array printing writes the specified text and leaves exactly the computed spare room, in both formats, at every depth |
| JsonPrinter.PrintObject | SourceCode/ceres-gateway-2/cJSON.c:770-875 | the same for objects, names and tabs included |
| JsonPrinter.PrintValue | SourceCode/ceres-gateway-2/cJSON.c:573-602 | any tree is printed inside its buffers: what the second pass writes, terminator included, never exceeds what the first pass counted, and by how much less is stated |
| JsonReader.ReadNumber | SourceCode/ceres-gateway-2/cJSON.c:109-145 | the scanning loops read sign, integer, fraction and exponent as specified and stop at the specified place |
| JsonReader.LengthPass | SourceCode/ceres-gateway-2/cJSON.c:215-227 | the length pass of a string stops inside the text exactly when the specification says so; an escaped terminator makes it run past the end |
| JsonReader.ReadUnicode | SourceCode/ceres-gateway-2/cJSON.c:258-297 | escapes give the UTF-8 bytes of the code point, surrogate pairs joined, and use up as many characters as specified |
| JsonReader.ReadString | SourceCode/ceres-gateway-2/cJSON.c:215-312 | strings are read through a buffer of the counted length plus 1, refused, or overrun text or buffer, exactly as specified |
| JsonReader.ReadArray | SourceCode/ceres-gateway-2/cJSON.c:604-640 | the loop over the items agrees with the recursive specification |
| JsonReader.ReadObject | SourceCode/ceres-gateway-2/cJSON.c:714-768 | the loop over the members agrees with the recursive specification |
| JsonReader.ReadValue | SourceCode/ceres-gateway-2/cJSON.c:539-571 | the recursive descent agrees with the specification on every text, malformed ones included |
| JsonReader.ReadJson | SourceCode/ceres-gateway-2/cJSON.c:462-488 | the same for a whole text, with and without the check that nothing follows |
| JsonUnicode.Utf8Decodes | SourceCode/ceres-gateway-2/cJSON.c:276-297 | the bytes written for any code point have the length that section 3 of RFC 3629 prescribes, and a decoder written from there gives the code point back |
| JsonUnicode.EscapeIsRead | SourceCode/ceres-gateway-2/cJSON.c:169-297 | an escape made from any code point but a surrogate, in digits of either case and as a pair of halves beyond 16 bits, is read as the bytes of that code point and used up exactly |
| JsonNumber.DecimalIsRead | SourceCode/ceres-gateway-2/cJSON.c:109-145 | any number of section 6 of RFC 8259, with fraction and exponent, is read as its value, digit by digit |
| JsonGrammar.StringIsRead | SourceCode/ceres-gateway-2/cJSON.c:215-312 | any string of section 7 of RFC 8259 is read as the bytes of its characters and escapes, whatever follows |
| JsonGrammar.SyntaxIsRead | SourceCode/ceres-gateway-2/cJSON.c:539-768 | any value of the grammar of RFC 8259, with white space between all its tokens, is read as the tree it stands for, up to what ends it |
| JsonGrammar.TextIsRead | SourceCode/ceres-gateway-2/cJSON.c:462-488 | the same for whole texts with the check that nothing follows |
| JsonAccepted.NumberIs | SourceCode/ceres-gateway-2/cJSON.c:109-145 | whatever is read as a number is a number of a slightly wider grammar, and the value returned is its value |
| JsonAccepted.ValueIs | SourceCode/ceres-gateway-2/cJSON.c:539-768 | whatever is read as a value is a text of the wider grammar, taken off exactly, and the tree returned is what it stands for; or a string whose closing quote is missing at the end |
| JsonAccepted.OnlyTextsAreRead | SourceCode/ceres-gateway-2/cJSON.c:462-488 | the same for whole texts: with the check only white space follows what was read |
| JsonRoundTrip.NumberRoundTrip | SourceCode/ceres-gateway-2/cJSON.c:109-167 | a printed int is read back, whatever delimiter follows it |
| JsonRoundTrip.StringRoundTrip | SourceCode/ceres-gateway-2/cJSON.c:215-440 | a printed string is read back and fits the buffer, for every NUL-free text and anything behind it |
| JsonBuffer.ClosedStringFits | SourceCode/ceres-gateway-2/cJSON.c:226-312 | a closed string is read inside text and buffer, whatever stands behind it, if and only if no step of the second pass goes beyond its closing quote |
| JsonBuffer.OpenStringFits | SourceCode/ceres-gateway-2/cJSON.c:226-312 | a string that is not closed is read inside text and buffer if and only if no step goes beyond the end of the text |
| JsonBuffer.Land | SourceCode/ceres-gateway-2/cJSON.c:226-263 | a skip ends between two tokens of the first pass or inside a pair, with no more room left than counted |
| JsonBuffer.SameCrossing | SourceCode/ceres-gateway-2/cJSON.c:258-276 | whether a step goes beyond the quote depends on the text up to the quote alone |
| JsonBuffer.ProperStringIsRead | SourceCode/ceres-gateway-2/cJSON.c:215-312 | when each \u has four hexadecimal digits, a string is read, closed or not, surrogate pairs included |
| JsonBuffer.SkippedQuote | SourceCode/ceres-gateway-2/cJSON.c:258-263 | a string whose closing quote is skipped, and that overruns before some rest |
| JsonBuffer.SplitPair | SourceCode/ceres-gateway-2/cJSON.c:226-263 | a string in which a skip ends inside a pair, so that a backslash takes the closing quote with it |
| JsonBuffer.SkippedEnd | SourceCode/ceres-gateway-2/cJSON.c:258-263 | a text that ends behind a \u and is read past its end |
| JsonRoundTrip.ValueRoundTrip | SourceCode/ceres-gateway-2/cJSON.c:539-875 | the text of any tree, at any depth, formatted or not, is read back as that tree up to a rest that no token can run into |
| JsonRoundTrip.PrintThenParse | SourceCode/ceres-gateway-2/cJSON.c:462-875 | parsing inverts printing for every tree of null, booleans, ints, strings, arrays and named objects |
| JsonPretty.EscapesOf | SourceCode/ceres-gateway-2/cJSON.c:396-437 | control characters are printed by their letters or by four digits in small letters, quote and backslash behind a backslash, all else as it is |
| JsonPretty.ValuePretty | SourceCode/ceres-gateway-2/cJSON.c:573-875 | a reader that goes through the unformatted text of any tree and puts in line breaks, tabs and spaces by the brackets that are open writes its formatted text |
| JsonPretty.PrettyIsFormatted | SourceCode/ceres-gateway-2/cJSON.c:534-537 | the same for what cJSON_Print and cJSON_PrintUnformatted give |
| JsonMinify.MinifyInPlace | SourceCode/ceres-gateway-2/cJSON.c:1177-1209 | the in-place loops compute the specified text, the write index never passes the read index, and nothing behind the text is touched |
| JsonMinify.ValueShrinks | SourceCode/ceres-gateway-2/cJSON.c:642-875 | minifying takes exactly the layout out of a printed text, wherever it stands and whatever the nesting |
| JsonMinify.MinifyText | SourceCode/ceres-gateway-2/cJSON.c:1177-1209 | minifying either print of a tree gives its unformatted print |
| JsonChunks.ChunksMinify | SourceCode/ceres-gateway-2/cJSON.c:1177-1209 | of a text made of white space, comments, strings and single characters, minifying keeps exactly strings and characters, in order |
| JsonChunks.MinifiedIff | SourceCode/ceres-gateway-2/cJSON.c:1177-1209 | and a text is minified without running past its end if and only if it is made of these |
| JsonLaws.PrintThenRead | SourceCode/ceres-gateway-2/cJSON.c:490-532 | the printing code followed by the parsing code gives the tree back |
| JsonLaws.PrintMinifyRead | SourceCode/ceres-gateway-2/cJSON.c:1177-1209 | minifying a formatted print in its own buffer leaves the unformatted print, which parses to the same tree |
| AesTables.TablesInverse | SourceCode/ceres-gateway-2/AES_EnDe.c:60-335 | the two S-boxes are inverse permutations of the bytes |
| AesStandard.SboxIsAffine | SourceCode/ceres-gateway-2/AES_EnDe.c:60-80 | entry x of the table is the affine map of section 5.1.1 of FIPS 197 applied to the multiplicative inverse of x in the field, for every byte |
| AesStandard.RconIsPowers | SourceCode/ceres-gateway-2/AES_EnDe.c:85-99 | the round constants are the powers of {02} from {01} on |
| AesField.MixInverse | SourceCode/ceres-gateway-2/AES_EnDe.c:244-404 | the inverse column mix undoes the mix, for every column |
| AesField.InvMixInverse | SourceCode/ceres-gateway-2/AES_EnDe.c:244-404 | and the mix undoes the inverse |
| AesMacros.StoredXtime | SourceCode/ceres-gateway-2/AES_EnDe.c:195 | xtime on a promoted int, truncated at the store, is doubling in the field |
| AesMacros.StoredMultiply | SourceCode/ceres-gateway-2/AES_EnDe.c:382 | the Multiply macro, truncated at the store, is multiplication by 9, 11, 13 and 14 in the field |
| AesMacros.StoredInvMix | SourceCode/ceres-gateway-2/AES_EnDe.c:387-404 | one inverse-mixed byte as coded is that of the field |
| AesRounds.MixColumnsInverse | SourceCode/ceres-gateway-2/AES_EnDe.c:244-404 | inverse on whole blocks |
| AesRounds.ShiftRowsInverse | SourceCode/ceres-gateway-2/AES_EnDe.c:214-379 | the two row rotations undo each other, in both orders |
| AesStandard.RowsRotate | SourceCode/ceres-gateway-2/AES_EnDe.c:214-379 | byte c of row r comes from place c + r modulo 4, and goes back there |
| AesStandard.MixIsProducts | SourceCode/ceres-gateway-2/AES_EnDe.c:244-404 | each mixed byte is the sum of field products with {02}, {03}, {01} and {01} down the column from its own row, and of {0e}, {0b}, {0d} and {09} for the inverse |
| AesRounds.InvCipherUndoesCipher | SourceCode/ceres-gateway-2/AES_EnDe.c:269-445 | decryption undoes encryption for every block, every round-key array and every number of rounds |
| AesRounds.CipherUndoesInvCipher | SourceCode/ceres-gateway-2/AES_EnDe.c:269-445 | and encryption undoes decryption |
| AesCipher.Global.MixColumns | SourceCode/ceres-gateway-2/AES_EnDe.c:244-266 | the column loop with its temporaries, in place, is the mix of the field |
| AesCipher.Global.InvMixColumns | SourceCode/ceres-gateway-2/AES_EnDe.c:387-404 | the macro expressions, in place, are the inverse mix of the field |
| AesCipher.Global.ShiftRows | SourceCode/ceres-gateway-2/AES_EnDe.c:214-241 | the chains of assignments rotate row r by r places |
| AesCipher.Global.InvShiftRows | SourceCode/ceres-gateway-2/AES_EnDe.c:353-379 | the same to the right |
| AesCipher.Global.KeyExpansion | SourceCode/ceres-gateway-2/AES_EnDe.c:115-176 | the loop fills the array with the key schedule of section 5.2, for 4, 6 and 8 key words |
| AesCipher.Global.Cipher | SourceCode/ceres-gateway-2/AES_EnDe.c:269-309 | the state is taken through all rounds; the first 16 output bytes are the block cipher of the input, the rest is untouched |
| AesCipher.Global.InvCipher | SourceCode/ceres-gateway-2/AES_EnDe.c:407-445 | the same for decryption |
| AesApi.AesEncrypt | SourceCode/ceres-gateway-2/AES_EnDe.c:457-532 | error codes for each bad parameter, and otherwise one encrypted block of the zero-padded text and key; nothing written on an error |
| AesApi.AesDecrypt | SourceCode/ceres-gateway-2/AES_EnDe.c:535-586 | the same for decryption |
| AesApi.DecryptEncrypt | SourceCode/ceres-gateway-2/AES_EnDe.c:457-586 | a block encrypted and decrypted with one key comes back, for all key sizes |
| AesExamples.Example128 | SourceCode/ceres-gateway-2/AES_EnDe.c:457-532 | the cipher text of appendix C.1 of FIPS 197, from key and plain text through every round key and round |
| AesExamples.Example192 | SourceCode/ceres-gateway-2/AES_EnDe.c:457-532 | that of appendix C.2 |
| AesExamples.Example256 | SourceCode/ceres-gateway-2/AES_EnDe.c:457-532 | that of appendix C.3 |
| AesUtils.MapBlocksInverse | SourceCode/ceres-gateway-2/AES_utils.c:105-212 | block-wise application of inverse block functions is inverse on texts |
| AesUtils.TailCharIsDigit | SourceCode/ceres-gateway-2/AES_utils.c:10-25 | the tail of length k is made of the hexadecimal digit k in capitals |
| AesUtils.TailRoundTrip | SourceCode/ceres-gateway-2/AES_utils.c:10-25 | stripping the tail gives the text back if and only if it does not fill whole blocks or ends with none of the tails |
| AesUtils.TailRoundTripFails | SourceCode/ceres-gateway-2/AES_utils.c:220-253 | a block of sixteen 1s loses its last character |
| AesUtils.DecryptEncryptText | SourceCode/ceres-gateway-2/AES_utils.c:105-212 | decrypting gives text and tail |
| AesText.Buffers.EncryptAes2 | SourceCode/ceres-gateway-2/AES_utils.c:105-172 | the block loop through the static buffers computes the specified text of the padded length |
| AesText.Buffers.EncryptAes | SourceCode/ceres-gateway-2/AES_utils.c:36-103 | the same for a C string, of its own length |
| AesText.Buffers.DecryptAes | SourceCode/ceres-gateway-2/AES_utils.c:174-212 | refuses exactly the sizes that are no whole number of blocks; zeros behind the text |
| AesText.EndsWithTail | SourceCode/ceres-gateway-2/AES_utils.c:259-283 | comparing backwards decides whether a text ends with a tail |
| AesText.DelTailStr | SourceCode/ceres-gateway-2/AES_utils.c:220-253 | strips the first tail of the list that the text ends with, or none |
| AesText.Buffers.DecryptEncrypted | SourceCode/ceres-gateway-2/AES_utils.c:105-212 | for any data whose padded length fits 8000 bytes, decrypting the encryption leaves it as a prefix of decOut |
| AesText.Buffers.TextRoundTrip | SourceCode/ceres-gateway-2/AES_utils.c:36-283 | encryptAES, decryptAES and delTailStr give a nonempty C string back under the exact condition |
| Octet.WordRoundTrip | SourceCode/ceres-gateway-2/jsw_protocol.h:314-322 | a 16-bit field is read back from its two bytes |
| P2pPacket.HeaderRoundTrip | SourceCode/ceres-gateway-2/jsw_protocol.h:314-322 | a packet header is read back from its ten bytes |
| P2pLaws.BitsAdd | SourceCode/ceres-gateway-2/jsw_protocol.h:314-322 | the value of a byte is the sum of the powers of two of its bits |
| P2pLaws.HeaderLayout | SourceCode/ceres-gateway-2/jsw_protocol.h:314-322 | version, command, length, count and error lie at bytes 0, 2, 4, 6 and 8, the low byte first |
| P2pLaws.OuterHeader | SourceCode/ceres-gateway-2/jsw_protocol.c:7656-7695 | an encrypted packet has the code 89, the length of its whole blocks, and version, count and error of the packet inside |
| P2pPacket.AcceptedPacketFits | SourceCode/ceres-gateway-2/jsw_protocol.c:7656-7660 | of the accepted sizes, exactly those up to the buffer size less 16 fit when encrypted |
| P2pPacket.Write2 | SourceCode/ceres-gateway-2/jsw_protocol.c:7648-7702 | what is sent and when nothing is: a size out of range, negative ones included, and a missing or empty key; the header comes from the buffer even when the size is below 10 |
| P2pPacket.ReadWrap2 | SourceCode/ceres-gateway-2/jsw_protocol.c:7708-7732 | plain bytes are copied; encrypted ones refused without a key or with a size that is no whole number of blocks, and otherwise decrypted, over zeros |
| P2pPacket.TakeInner | SourceCode/ceres-gateway-2/ceres.c:3330-3352 | moves the inner payload to the start of the buffer, terminated, or refuses its length |
| P2pPacket.ProcessCmd | SourceCode/ceres-gateway-2/ceres.c:3263-3373 | one call takes one packet off the stream: command and payload, wrapped or plain, or a refusal |
| P2pPacket.WriteThenRead | SourceCode/ceres-gateway-2/jsw_protocol.c:7648-7732 | unwrapping an encrypted packet gives the inner header and payload and leaves the bytes behind it |
| P2pPacket.SendThenReceive | SourceCode/ceres-gateway-2/ceres.c:3263-3373 | any run of packets is received message by message, in order |
| P2pLaws.PlainIsReceived | SourceCode/ceres-gateway-2/ceres.c:3361-3364 | a header of any code but 89 with a counted payload of 1 to 16383 bytes is received as that command and payload, whatever the key, and the bytes behind it are left |
| P2pLaws.BareIsReceived | SourceCode/ceres-gateway-2/ceres.c:3365-3373 | a header with length 0, or beyond the buffer, is received as that command without payload, whatever its code |
| P2pLaws.BrokenIsRefused | SourceCode/ceres-gateway-2/jsw_protocol.c:7708-7732 | a packet of code 89 that is no whole number of blocks, or that meets no key, is refused and taken off |
| P2pLaws.WaitsForAll | SourceCode/ceres-gateway-2/ceres.c:3263-3300 | a packet with a payload comes in exactly when all of it has arrived |
| P2pLaws.MixedStreamIsReceived | SourceCode/ceres-gateway-2/ceres.c:3263-3373 | any stream of encrypted messages, plain commands and commands without payload is received packet by packet, in order |
| P2pPacket.TooLongToReceive | SourceCode/ceres-gateway-2/jsw_protocol.c:7648-7732 | of the encrypted packets that can be sent, exactly those above 8000 bytes overrun the receiver |
| P2pPacket.UnencryptedOutcome | SourceCode/ceres-gateway-2/jsw_protocol.c:7670-7676 | an unencrypted packet carries the code of an encrypted one: exactly when it is refused, when it overruns the receiver, and the command that decryption makes of it otherwise |
| CamPacket.Camera.EncryptPacket | SourceCode/ceres-gateway-2/camipc.c:202-255 | masks the data of a control packet, moves the mask on, encrypts the head in place; short packets stay as they are |
| CamPacket.Camera.DecryptPacket | SourceCode/ceres-gateway-2/camipc.c:461-530 | codes and buffer for every type and size, the head overwritten even when the size is wrong |
| CamPacket.Camera.SendIOCtrl | SourceCode/ceres-gateway-2/camipc.c:302-336 | the packet built for a type and data, encrypted |
| CamLaws.PacketLayout | SourceCode/ceres-gateway-2/camipc.c:202-336 | size, kind, encrypted control head with type, data size and mask, and the masked data, each at its place |
| CamLaws.MaskMovesOn | SourceCode/ceres-gateway-2/camipc.c:202-255 | a packet with data combines the mask with the low byte of its size, one without leaves it |
| CamLaws.LeftAlone | SourceCode/ceres-gateway-2/camipc.c:461-530 | packets of other kinds that arrive are left as they are, short ones refused as they are |
| CamLaws.ArrivedPacket | SourceCode/ceres-gateway-2/camipc.c:461-530 | the head of a control packet is decrypted, and its data unmasked byte by byte with the fifth byte of the head if and only if the head counts them, otherwise refused |
| CamPacket.DecryptUndoesEncrypt | SourceCode/ceres-gateway-2/camipc.c:202-530 | decryption undoes encryption of any control packet of matching size, up to the mask byte |
| CamPacket.EveryPacketDecrypts | SourceCode/ceres-gateway-2/camipc.c:202-530 | in any sequence of packets, as the mask evolves, each one is recovered by a receiver without state |
| CamPacket.StreamRoundTrip | SourceCode/ceres-gateway-2/camipc.c:302-336 | reading the stream of any run of calls gives each call's type and data, in order |
| Glob.FindMatches | SourceCode/ceres-gateway-2/mongoose.c:1447-1473 | sound and complete: without bars the search succeeds if and only if some prefix matches, and then its result does |
| GlobLaws.FindText | SourceCode/ceres-gateway-2/mongoose.c:1447-1473 | text and question marks match exactly the strings that start with them, letters in either case |
| GlobLaws.FindWhole | SourceCode/ceres-gateway-2/mongoose.c:1451-1453 | with a dollar sign behind them, exactly the strings that are them |
| GlobLaws.FindStars | SourceCode/ceres-gateway-2/mongoose.c:1454-1468 | a star takes everything up to the first slash, two stars everything |
| GlobLaws.FindSuffix | SourceCode/ceres-gateway-2/mongoose.c:1447-1473 | two stars, text and a dollar sign match exactly the strings that end in the text; with one star those without a slash in front of it |
| Glob.StarIsGreedy | SourceCode/ceres-gateway-2/mongoose.c:1454-1468 | a star ends at the last position from which the rest can match |
| Glob.EmptyIsOnly | SourceCode/ceres-gateway-2/mongoose.c:1447-1473 | a found length of 0 means that no other prefix matches |
| Glob.CaseInsensitive | SourceCode/ceres-gateway-2/mongoose.c:1469 | the case of letters in pattern or string never changes the result |
| Glob.FirstPositive | SourceCode/ceres-gateway-2/mongoose.c:1441-1445 | with bars the result is that of the first alternative that matches something, or else of the last one |
| Glob.FindAnyMatches | SourceCode/ceres-gateway-2/mongoose.c:1437-1474 | with bars a pattern is found if and only if the last alternative matches or another matches a nonempty prefix |
| Glob.MatchPrefix | SourceCode/ceres-gateway-2/mongoose.c:1437-1474 | the loop with its backtracking terminates and returns the length of the specified match, or -1 |
| WebSocketFrame.Write | SourceCode/ceres-gateway-2/mongoose.c:1805-1845 | the three length encodings, byte by byte, are one frame of RFC 6455 |
| WebSocketWire.FirstByteValue | SourceCode/ceres-gateway-2/mongoose.c:1805-1845 | the first byte is 128 plus the opcode |
| WebSocketWire.LengthLayout | SourceCode/ceres-gateway-2/mongoose.c:1805-1845 | below 126 the second byte is the length; else it is 126 or 127 and two or eight bytes hold the length, the high one first; the data end the frame |
| WebSocketWire.MaskLayout | SourceCode/ceres-gateway-2/mongoose.c:1757-1803 | a masked frame has the highest bit of the second byte set, four bytes of key in front of the data, and each byte combined with that of the key at its place modulo 4 |
| WebSocketWire.HelloFrames | SourceCode/ceres-gateway-2/mongoose.c:1757-1845 | the unmasked and the masked text frame of section 5.7 of RFC 6455 |
| WebSocketWire.LongHeaders | SourceCode/ceres-gateway-2/mongoose.c:1805-1845 | and the headers of its binary messages of 256 bytes and 64 KiB |
| WebSocketFrame.IoBuf.DeliverFrame | SourceCode/ceres-gateway-2/mongoose.c:1757-1803 | with the frame length wrapping as an int does: a frame that is complete in the buffer is unmasked in place, handed over and cut off; otherwise nothing changes |
| WebSocketFrame.IoBuf.DeliverAll | SourceCode/ceres-gateway-2/mongoose.c:2130-2131 | delivering until nothing is complete yields the specified frames and rest |
| WebSocketFrame.HeaderRead | SourceCode/ceres-gateway-2/mongoose.c:1763-1776 | header and data length of any written frame, masked or not, as they are read |
| WebSocketFrame.PlainDelivered | SourceCode/ceres-gateway-2/mongoose.c:1757-1845 | a written frame is delivered, from some beginning of what arrives, with its first byte and data, if and only if header and data together fit an int; the bytes behind it stay |
| WebSocketFrame.MaskedDelivered | SourceCode/ceres-gateway-2/mongoose.c:1757-1803 | a masked frame is delivered unmasked if and only if header, mask and data together fit an int |
| WebSocketFrame.ParseMore | SourceCode/ceres-gateway-2/mongoose.c:2130-2131 | taking frames off before or after more bytes arrive makes no difference |
| WebSocketFrame.ChunksDoNotMatter | SourceCode/ceres-gateway-2/mongoose.c:2124-2132 | for any bytes, as long as rest and next chunk fit an int, the frames delivered and the rest do not depend on how the stream was cut |
| WebSocketFrame.Stuck | SourceCode/ceres-gateway-2/mongoose.c:1760-1780 | once the buffer outgrows an int, nothing is delivered any more, whatever arrives |
| WebSocketFrame.ShortChunksFit | SourceCode/ceres-gateway-2/mongoose.c:2124-2132 | the buffer fits an int whenever the longest frame and the longest chunk together do |
| WebSocketFrame.StreamDelivered | SourceCode/ceres-gateway-2/mongoose.c:1757-1845 | a stream of masked and unmasked frames, each fitting an int, in any cut for which the buffer fits one, is delivered frame by frame, in order |
| RfModule.RfQueue.CheckRepeatCmd | SourceCode/ceres-gateway-2/rf_module.c:423-449 | the loop with its wrapping index refuses exactly when the queue is full or holds the command |
| RfModule.RfQueue.InsertToQueue | SourceCode/ceres-gateway-2/rf_module.c:451-465 | appends to the logical queue or leaves it, and keeps the positions |
| RfModule.RfQueue.RFModuleWrite | SourceCode/ceres-gateway-2/rf_module.c:76-217 | which commands reset the queue: those that send a packet to a device id ending in 0xD2 |
| RfModule.RfQueue.PutTxBuffer | SourceCode/ceres-gateway-2/rf_module.c:332-349 | the reset by a melody byte, and no change otherwise |
| RfModule.RfQueue.WriteNextOnQueue | SourceCode/ceres-gateway-2/rf_module.c:467-527 | positions and count stay in step if and only if the entry does not reset the queue, or is skipped without a wrap; then the head is sent and becomes current |
| RfModule.RfQueue.WriteCommand | SourceCode/ceres-gateway-2/testRFMain.c:879-948 | submitting agrees with the model, and leaves the ring intact except for the test device on a full queue |
| RfModule.RfQueue.Acknowledge | SourceCode/ceres-gateway-2/rf_module.c:789-808 | an acknowledgement of the current device sends the next command or goes idle, and keeps the ring in step under the exact condition of sending; others change nothing |
| RfLaws.AckEndsWait | SourceCode/ceres-gateway-2/rf_module.c:789-805 | an acknowledgement of the current device sends the first waiting command, or with none waiting goes idle with nothing sent; one of another device changes nothing |
| RfLaws.AckedIsOver | SourceCode/ceres-gateway-2/rf_module.c:789-805 | in any run after its acknowledgement a command that waited nowhere else is not sent again unless it is submitted again |
| RfLaws.SubmitSendsOrWaits | SourceCode/ceres-gateway-2/testRFMain.c:879-948 | idle, a command is sent at once; busy, it waits at the end unless 120 others do or it waits already, which is not asked for the test device |
| RfLaws.MelodyForgets | SourceCode/ceres-gateway-2/rf_module.c:332-349 | a melody empties the queue, goes idle and sends no command |
| RfModule.RfQueue.CheckAckFromWrite | SourceCode/ceres-gateway-2/rf_module.c:587-652 | a time-out retries through the queue or drops the command; the ring stays in step if and only if the command then sent does not reset it, or is skipped without a wrap |
| RfModule.Drive | SourceCode/ceres-gateway-2/rf_module.c:423-808 | in any run of commands with device and type, acknowledgements, time-outs and melodies the ring holds the queue of the model, up to the first event that sends a resetting command from the queue or overfills it, and is out of step after that one |
| RfModule.ResetWhileSending | SourceCode/ceres-gateway-2/rf_module.c:332-522 | two commands after which read position, write position and count disagree |
| RfModel.SubmitKeepsGood | SourceCode/ceres-gateway-2/testRFMain.c:879-948 | a submitted command keeps the invariant if and only if, idle, it has device and type or resets the queue, or, busy, it is refused, or passes the checks and will not reset the queue |
| RfModel.TestDeviceRepeats | SourceCode/ceres-gateway-2/testRFMain.c:911-915 | a run that puts the same command into the queue twice |
| RfModel.TestDeviceOverfills | SourceCode/ceres-gateway-2/testRFMain.c:909-941 | a run of 122 commands after which 121 wait for 120 places |
| RfModel.RunGood | SourceCode/ceres-gateway-2/rf_module.c:423-808 | a run keeps at most 120 waiting, no command twice, retries in range and idle only with an empty queue throughout, if and only if every submitted command keeps it at its time |
| RfModel.TimeoutDecreases | SourceCode/ceres-gateway-2/rf_module.c:633-652 | every time-out uses up one of the attempts left |
| RfLaws.LoneCommandIsTried | SourceCode/ceres-gateway-2/rf_module.c:633-652 | a lone command that nobody answers is sent four times to a device that counts as alive and twice to another one, and then given up |
| RfLaws.SentFourTimes | SourceCode/ceres-gateway-2/rf_module.c:587-652 | in no run is a command sent more than four times for each time it was submitted |
| RfModel.TimeoutsReachIdle | SourceCode/ceres-gateway-2/rf_module.c:633-652 | 4 (n + 1) time-outs in a row empty a queue of n and its current command, whichever devices count as alive |
| RfModel.RetryIsKept | SourceCode/ceres-gateway-2/rf_module.c:646-652 | a command with attempts left survives a time-out if and only if the queue is not full or already holds it |
| RfModel.RetryIsLost | SourceCode/ceres-gateway-2/rf_module.c:646-652 | a run of 121 commands after which the first one is lost at its first time-out |
| RfModel.FirstComeFirstServed | SourceCode/ceres-gateway-2/rf_module.c:467-527 | waiting commands are sent in the order they were queued, before anything queued later |
| AlarmModel.DisarmIsFinal | SourceCode/ceres-gateway-2/jsw_protocol.c:3451-3614 | in any run, after a disarm command the system stays disarmed and no alarm is raised until the next arm command, whatever delays still end |
| AlarmModel.AlarmsAreEarned | SourceCode/ceres-gateway-2/jsw_protocol.c:7357-7406 | an alarm comes only from motion in an armed, silent system or from the end of an entry delay, and leaves the mode as it was |
| AlarmLaws.MotionRaises | SourceCode/ceres-gateway-2/jsw_protocol.c:7357-7406 | motion raises an alarm if and only if the siren is silent and the sensor is known, watched in the mode that is armed and without a delay; it starts an entry delay if and only if there is one; otherwise nothing changes |
| AlarmLaws.DelayLasts | SourceCode/ceres-gateway-2/jsw_protocol.c:3344-3384 | in any run an entry delay lasts, its own timer running and no alarm raised, until an entry timer ends or a disarm command is given |
| AlarmLaws.DelayDecides | SourceCode/ceres-gateway-2/ceres.c:4650-4748 | in any run a delay whose timer ends before a disarm command adds one alarm and leaves the mode as it was; one that is disarmed adds none up to the next arm command |
| AlarmLaws.CommandsInArm | SourceCode/ceres-gateway-2/jsw_protocol.c:3451-3614 | command 0 disarms and silences from every state, 1 and 2 switch an armed system to full and part arm and change nothing in a delay, others never change anything |
| AlarmLaws.ArmIsObeyed | SourceCode/ceres-gateway-2/jsw_protocol.c:3466-3530 | an arm command that no contact rule stops leads to the mode asked for, at once or when its exit delay is over, whatever moves meanwhile |
| AlarmLaws.SecondArmForces | SourceCode/ceres-gateway-2/jsw_protocol.c:3466-3490 | with a contact open the first arm command is refused, a second one within 30 seconds arms at once in the mode it asks for, and a later one is refused again |
| AlarmLaws.ClosedContactArms | SourceCode/ceres-gateway-2/jsw_protocol.c:3466-3530 | with all contacts closed an arm command is obeyed although an earlier one was refused |
| AlarmLaws.SirenSounds | SourceCode/ceres-gateway-2/jsw_protocol.c:3906-4033 | the siren starts with an alarm or when it is switched on, and stops when its time is up, when it is switched off, by a disarm command or a new arming |
| AlarmModel.AlarmNeedsArm | SourceCode/ceres-gateway-2/jsw_protocol.c:3451-3614 | leaving the disarmed state takes an arm command that no disarm command followed |
| AlarmModel.ModeIsKept | SourceCode/ceres-gateway-2/jsw_protocol.c:3045-3384 | delays, motion and alarms never change what is armed |
| AlarmModel.ForcedArmWasAnnounced | SourceCode/ceres-gateway-2/jsw_protocol.c:3466-3490 | arming with a contact open follows a refused arm command at most 30 seconds before |
| AlarmSystem.Gateway.MakeTimer | SourceCode/ceres-gateway-2/ceres.c:4819-4868 | a variable gets a fresh id in any case; only a timer with a duration runs |
| AlarmSystem.Gateway.ArmCommand | SourceCode/ceres-gateway-2/jsw_protocol.c:3451-3614 | every state and command agrees with the model and leaves the running entry timers as they are; exit and entry timer variables are nonzero exactly in their delays, their timers run, and wait_force_arm is 0 in an exit delay, so its force-arm branch is dead |
| AlarmSystem.Gateway.StopEntryDelay | SourceCode/ceres-gateway-2/jsw_protocol.c:3377-3384 | the variable is cleared, the timer goes on running |
| AlarmSystem.Gateway.StopExitDelay | SourceCode/ceres-gateway-2/jsw_protocol.c:3333-3342 | no exit timer runs afterwards |
| AlarmSystem.Gateway.TriggerAlarm | SourceCode/ceres-gateway-2/jsw_protocol.c:3906-4033 | one more alarm, and one siren timer, the previous one deleted |
| AlarmSystem.Gateway.MotionEvent | SourceCode/ceres-gateway-2/jsw_protocol.c:7357-7406 | motion starts an entry delay and adds exactly one fresh timer, raises the alarm, or does nothing, as in the model |
| AlarmSystem.Gateway.TimerHandler | SourceCode/ceres-gateway-2/ceres.c:4650-4748 | any timer that runs, stale ones included, may end in any state; it keeps the invariant and takes away that timer only |
| AlarmSystem.Drive | SourceCode/ceres-gateway-2/jsw_protocol.c:3451-3614 | any run of commands, motion and timers picked from those that run is a run of the model; if no arm command follows a disarm command, the system ends disarmed with no alarm since |
| AlarmTimers.TraceIsRun | SourceCode/ceres-gateway-2/ceres.c:4650-4748 | a run with timers, seen without their ids, is a run of the model |
| AlarmTimers.DisarmedUntilArmed | SourceCode/ceres-gateway-2/jsw_protocol.c:3451-3614 | in any run with timers, from a disarm command up to the next arm command the system is disarmed and raises no alarm |
| AlarmTimers.CutShortByEarlier | SourceCode/ceres-gateway-2/jsw_protocol.c:3344-3384 | in any run, a timer that ends a delay not its own was running before that delay began, and raises the alarm |
| AlarmTimers.PendingStartedEarlier | SourceCode/ceres-gateway-2/jsw_protocol.c:3344-3384 | and it was started by an earlier delay and has not ended since |
| AlarmTimers.CutShortIff | SourceCode/ceres-gateway-2/jsw_protocol.c:3344-3384 | a delay can be ended by a timer other than its own if and only if an entry timer runs just before the motion that starts it |
| AlarmSystem.CutDelayShort | SourceCode/ceres-gateway-2/ceres.c:4650-4748 | in the code, any entry timer that runs can end the delay that motion starts next, whose own timer then still runs |
| AlarmSystem.EntryDelayCutShort | SourceCode/ceres-gateway-2/jsw_protocol.c:3344-3384 | a run in which the timer of a cancelled delay ends the next one; the own timer then does nothing |
| Md5Spec.DigestShort | SourceCode/ceres-gateway-2/md5_util.c:137-145 | with up to 55 bytes left, padding and length end in one block |
| Md5Spec.DigestLong | SourceCode/ceres-gateway-2/md5_util.c:137-145 | with more, in two |
| Md5Example.DigestOfDigits | SourceCode/ceres-gateway-2/md5_util.c:102-148 | the digest of the last example of appendix A.5 of RFC 1321, worked out through all 128 steps of its two blocks |
| FileMd5.Rounds | SourceCode/ceres-gateway-2/md5_util.c:19-98 | the 64 assignment macros are the 64 steps of RFC 1321 with its word order, rotations and constants |
| FileMd5.PrintedWord | SourceCode/ceres-gateway-2/md5_util.c:11-146 | printing the byte-reversed word shows the bytes in memory order |
| FileMd5.Globals.DigestBlocks | SourceCode/ceres-gateway-2/md5_util.c:126-135 | the read loop takes in all whole blocks and leaves the tail of the file over zeros |
| FileMd5.Globals.CalcFileMd5 | SourceCode/ceres-gateway-2/md5_util.c:102-148 | the hex digest of RFC 1321 for every file below 2^32 - 1 bytes |
| WebMd5.F1IsF | SourceCode/ceres-gateway-2/mongoose.c:2654 | the shortened round function equals that of RFC 1321 |
| WebMd5.F2IsG | SourceCode/ceres-gateway-2/mongoose.c:2655 | the same for the second round |
| WebMd5.Step1 | SourceCode/ceres-gateway-2/mongoose.c:2659-2660 | the step macro, with its order of additions, equals the other program's assignment macro |
| WebMd5.Rounds | SourceCode/ceres-gateway-2/mongoose.c:2674-2754 | the 64 steps compute the same block function |
| Md5Context.AddBits | SourceCode/ceres-gateway-2/mongoose.c:2759-2762 | the two-word bit count with its carry is the 64-bit count |
| Md5Context.Context.Update | SourceCode/ceres-gateway-2/mongoose.c:2756-2790 | the context depends only on the bytes taken in so far |
| Md5Context.Context.Final | SourceCode/ceres-gateway-2/mongoose.c:2792-2822 | the 16 bytes are the digest of everything taken in |
| Md5Context.Bin2Str | SourceCode/ceres-gateway-2/mongoose.c:2827-2835 | two digits a byte, in order, and a terminator |
| Md5Context.MgMd5 | SourceCode/ceres-gateway-2/mongoose.c:2838-2855 | the hex digest of the concatenated strings |
| Md5Context.SplitDoesNotMatter | SourceCode/ceres-gateway-2/mongoose.c:2756-2790 | contexts that took in the same bytes in different pieces agree in registers, bit count and open block |
| Md5Laws.SameDigest | SourceCode/ceres-gateway-2/md5_util.c:102-148 | both implementations print the same digest, for every file below the limit and every split of it |
| SwapList.PassGone | SourceCode/ceres-gateway-2/jsw_protocol.c:1705-1735 | the single pass removes an id if and only if no match has more matches before it than entries behind it; other entries are conserved as a multiset |
| SwapList.RemoveFirstGone | SourceCode/ceres-gateway-2/jsw_protocol.c:1646-1662 | removing the first match removes the id if and only if it occurs at most once |
| SwapList.DistinctNotSkipped | SourceCode/ceres-gateway-2/jsw_protocol.c:1646-1735 | with distinct ids neither condition fails |
| SwapList.RemoveFirstMissesOne | SourceCode/ceres-gateway-2/jsw_protocol.c:1646-1662 | two entries of one id, one of which stays when the first match is removed |
| SwapList.PassMissesOne | SourceCode/ceres-gateway-2/jsw_protocol.c:1705-1735 | two entries of one id, one of which stays after the single pass |
| Registry.RemoveAll | SourceCode/ceres-gateway-2/jsw_protocol.c:1684-1702 | the loop that starts over terminates, removes every match and conserves the rest |
| Registry.Gateway.DeleteScenarios | SourceCode/ceres-gateway-2/jsw_protocol.c:1664-1680 | the same in place for the scenarios of a source |
| Registry.Gateway.DeleteTargets | SourceCode/ceres-gateway-2/jsw_protocol.c:1681-1704 | the id leaves every target list, sources and other targets are conserved |
| Registry.Gateway.DeleteHotkeys | SourceCode/ceres-gateway-2/jsw_protocol.c:1751-1773 | the same for the hotkeys |
| Registry.Gateway.DeleteDev | SourceCode/ceres-gateway-2/jsw_protocol.c:1622-1783 | terminates; the id is gone from sources, targets and hotkeys always, from devices, sirens and schedules under the exact conditions; everything else is conserved |
| Registry.DeleteFromDistinct | SourceCode/ceres-gateway-2/jsw_protocol.c:1610-1783 | with distinct ids the device is gone from every list and no longer registered |
| Events.RecordSlides | SourceCode/ceres-gateway-2/jsw_protocol.c:2963-2978 | recording an event slides the window of the two pages by one, page change or not |
| Events.RunWindow | SourceCode/ceres-gateway-2/jsw_protocol.c:2548-2978 | after any run of recorded, rejected and test-mode events the pages hold the last 100 recorded ones |
| Events.History.NewEvent | SourceCode/ceres-gateway-2/jsw_protocol.c:2548-2971 | appending, taking back in test mode and the change of page, in the arrays |
| Events.History.GetEvent | SourceCode/ceres-gateway-2/jsw_protocol.c:6893-6923 | a query without payload sends exactly the window |
| Events.Replay | SourceCode/ceres-gateway-2/jsw_protocol.c:6893-6923 | a query after any run sends the last 100 recorded events in order |
| Compaction.ShiftOnce | SourceCode/ceres-gateway-2/jsw_protocol.c:4205-4214 | one pass of the inner loop takes out the first hole |
| Compaction.PassesMove | SourceCode/ceres-gateway-2/jsw_protocol.c:4205-4214 | after j passes each entry has moved by the smaller of j and the holes before it |
| Compaction.PassesSort | SourceCode/ceres-gateway-2/jsw_protocol.c:4205-4214 | at the end the entries are contiguous and in order, only holes follow |
| Compaction.KeepsKnown | SourceCode/ceres-gateway-2/jsw_protocol.c:4190-4225 | clearing and shifting keep exactly the entries in use whose device is known or spared, in order |
| Compaction.SortoutScenario | SourceCode/ceres-gateway-2/jsw_protocol.c:4190-4225 | the scenarios of known sources and of the gateway remain, in order, and are counted |
| Compaction.SortoutSchedule | SourceCode/ceres-gateway-2/jsw_protocol.c:4838-4871 | the same for schedules |
| ScheduleRing.CodesOfAKind | SourceCode/ceres-gateway-2/jsw_protocol.c:5404-5413 | codes of starts, and of stops, are positive ints and injective in minute and place |
| ScheduleRing.StartMeetsStop | SourceCode/ceres-gateway-2/jsw_protocol.c:5404-5413 | a start and a stop share a code if and only if the stop is 1111 minutes later, 11 adapters and 11 schedules further on |
| ScheduleDays.CodeDigits | SourceCode/ceres-gateway-2/jsw_protocol.c:5404-5413 | the decimal digits of a code name minute, adapter and schedule |
| ScheduleDays.DayIsRead | SourceCode/ceres-gateway-2/jsw_protocol.c:5309-5342 | a schedule applies on exactly the days of the week that are set in it, Monday in bit 0 to Sunday in bit 6, the clock counting from Sunday |
| ScheduleDays.DueOnItsDays | SourceCode/ceres-gateway-2/jsw_protocol.c:5498-5622 | a start is due exactly on those days in its minute, unless the schedule stops in it, and a stop in its minute |
| ScheduleDays.TableOrder | SourceCode/ceres-gateway-2/jsw_protocol.c:5498-5627 | of two that are due in one tick that of the lower place in the tables is asked for first |
| ScheduleDue.DueIsCommanded | SourceCode/ceres-gateway-2/jsw_protocol.c:5498-5627 | in any tick of any run, a start or stop that is due is commanded if and only if its code is not among the last 48 of the day's commands so far, those of this tick included |
| ScheduleDue.StartIsCommanded | SourceCode/ceres-gateway-2/jsw_protocol.c:5600-5622 | in a tick that is the first of its minute on a day, over any run, a start that is due is commanded if and only if the stop of 1111 minutes later, 11 adapters and 11 schedules on, is not among the last 48 of the day's commands so far |
| ScheduleDue.LaterStartIsCommanded | SourceCode/ceres-gateway-2/jsw_protocol.c:5600-5622 | in a tick of a minute later than the day's ticks so far, every start that is due is commanded |
| ScheduleDue.StopIsCommanded | SourceCode/ceres-gateway-2/jsw_protocol.c:5584-5599 | in a tick that is the first of its minute on a day, over any run, a stop that is due is commanded if and only if the start of 1111 minutes before, 11 adapters and 11 schedules back, is not among the last 48 of the day's commands so far |
| ScheduleDue.LostToOther | SourceCode/ceres-gateway-2/jsw_protocol.c:5404-5413 | a stop that is lost in such a tick is lost to a start of the same code, a start to a stop, that was due and commanded in an earlier tick of the day |
| ScheduleDue.NoneMetIsNew | SourceCode/ceres-gateway-2/jsw_protocol.c:5439-5627 | all that is due in such a tick is new, and then commanded, if and only if none of it shares its code with a start or stop commanded that day and among the last 48 |
| ScheduleDue.StopIsLost | SourceCode/ceres-gateway-2/jsw_protocol.c:5439-5627 | a run of two ticks with twelve adapters whose second tick does not command the stop that is due |
| ScheduleDue.StartIsLost | SourceCode/ceres-gateway-2/jsw_protocol.c:5439-5627 | the same two ticks with the clock set back in between: the start that is due is not commanded |
| ScheduleRing.SentAgain | SourceCode/ceres-gateway-2/jsw_protocol.c:5357-5377 | a code is commanded again if and only if 48 other codes were recorded since |
| ScheduleRing.SentOnce | SourceCode/ceres-gateway-2/jsw_protocol.c:5357-5377 | of any list of codes, each is sent at most once while fewer than 48 others are recorded in between |
| ScheduleRing.Scheduler.Check | SourceCode/ceres-gateway-2/jsw_protocol.c:5368-5377 | scanning the ring finds exactly the last 48 codes recorded |
| ScheduleRing.Scheduler.Ask | SourceCode/ceres-gateway-2/jsw_protocol.c:5357-5377 | check and record keep the ring equal to the end of the history |
| ScheduleRing.Scheduler.Tick | SourceCode/ceres-gateway-2/jsw_protocol.c:5498-5627 | one tick commands exactly the starts and stops of the minute that are not recent, in table order |
| ScheduleRing.Scheduler.ArrangeSchedule | SourceCode/ceres-gateway-2/jsw_protocol.c:5439-5627 | the same after forgetting everything on a new day |
| ScheduleRuns.DayIsRecorded | SourceCode/ceres-gateway-2/jsw_protocol.c:5357-5377 | over any run of ticks the commands of a day are exactly the codes recorded since midnight |
| ScheduleRuns.CommandsSpaced | SourceCode/ceres-gateway-2/jsw_protocol.c:5357-5377 | over any run of ticks, at least 48 other commands lie between two commands of one day for the same start or stop |
| ScheduleRuns.OnceInMinute | SourceCode/ceres-gateway-2/jsw_protocol.c:5439-5627 | with at most 48 starts and stops due in a new minute, each is commanded in the first of its ticks and in no later one; with more, all are commanded in every tick |
| ScheduleRuns.LaterIsNew | SourceCode/ceres-gateway-2/jsw_protocol.c:5404-5413 | hence, from the table alone and over any run: a minute later than the day's ticks so far, and without a stop that could meet any start, is new |
| ScheduleRuns.CrowdStartsTwice | SourceCode/ceres-gateway-2/jsw_protocol.c:5439-5627 | a table whose 96 starts are commanded twice in their minute |
| ScheduleRuns.RunTicks | SourceCode/ceres-gateway-2/jsw_protocol.c:5439-5627 | the code, through any run of ticks and days, sends those commands, spaced on each day |
| FirmwareText.StrTok | SourceCode/Test4/main.c:61-63 | successive calls yield the nonempty lines in order |
| Firmware.PackageTool | SourceCode/Test4/main.c:29-148 | the scan of the script with its size checks builds the specified package, or fails as specified |
| FirmwareLayout.ScriptIsAtTheEnd | SourceCode/Test4/main.c:29-148 | a package needs the keyword at the start of the script, and its last 1024 bytes are the script and zeros |
| FirmwareLayout.AtoiReadsDecimals | SourceCode/Test4/main.c:84-93 | a size, behind white space and with or without a sign, is read as the number its digits write |
| FirmwareLayout.LinesInOrder | SourceCode/Test4/main.c:61-63 | the lines of a script come in order, the empty ones left out |
| Firmware.UpdateV2 | SourceCode/ceres-gateway-2/ceres.c:1991-2125 | the walk through script and file writes the specified files |
| Firmware.SameEntry | SourceCode/Test4/main.c:70-85 | tool and gateway, which split a line differently, find the same name and size in every plain update line |
| Firmware.WhereFilesAreRead | SourceCode/Test4/main.c:61-149 | in every package whose update lines are plain, whatever else the script holds, the gateway extracts one file for each update line, read behind the sizes of the update lines before it, while the content lies behind everything packaged before it |
| Firmware.OffsetsAgree | SourceCode/Test4/main.c:61-132 | both places agree if and only if nothing was packaged for an ignored line before it; otherwise the file is read too early |
| Firmware.PackThenUnpack | SourceCode/Test4/main.c:61-149 | unpacking a package gives back each file at its script entry, for every script of plain update lines and of ignored lines of which none with content stands before an update line |
| Firmware.CommentAdds | SourceCode/Test4/main.c:70-81 | a commented-out update line is packaged if and only if what stands between its last slash, possibly the comment's own, and the next comma names a file with content |
| Firmware.CopyAdds | SourceCode/ceres-gateway-2/ceres.c:2175-2177 | the same for a copy line behind its first colon, which the gateway does nothing for |
| Firmware.CommentShifts | SourceCode/ceres-gateway-2/ceres.c:2036-2040 | a script for which the gateway writes the commented-out file under the name of the next one |
| Firmware.HarmlessComment | SourceCode/Test4/main.c:70-81 | a commented-out update line for which nothing is packaged |

## Left out

- Sockets, the PPPP library, serial port, GPIO, LEDs, cURL, MQTT, push messages, shell calls: reads and writes are byte sequences, sends are results of methods or a trace.
- Threads and mutexes: every step is atomic.
- JSON: nodes are values, so the linking of child, next and prev and the freeing of nodes are not part of this model; nor are allocation failure and the printing of numbers that are no ints. Numbers are exact reals.
- JsonPrinter.PrintNumber: numbers that are no ints are not part of this model.
- JsonPrinter.PrintArray: arrays that hold such numbers.
- JsonPrinter.PrintObject: objects that hold such numbers.
- JsonPrinter.PrintValue: trees that hold such numbers.
- JsonMinify.MinifyInPlace: asks for a text in which every string and comment is closed, because the code runs past the terminator otherwise.
- AesText.Buffers.EncryptAes2: sizes beyond the static buffers and keys of fewer than 16 bytes are the caller's error, as in the code, which only prints a message.
- AesText.Buffers.EncryptAes: the same for texts beyond the static buffers.
- AesText.Buffers.DecryptAes: whole numbers of blocks beyond the 8000 bytes of decOut are the caller's error.
- AesText.EndsWithTail: texts shorter than the tail, as for DelTailStr.
- AesText.DelTailStr: texts shorter than the longest tail are compared before their start by the code and are the caller's error.
- P2pPacket.Write2: the last six accepted sizes, which are written past the end of the send buffer, are the caller's error.
- P2pPacket.ReadWrap2: sizes of whole blocks above 8000 bytes, which are decrypted past the end of decOut, are the caller's error.
- P2pPacket.TakeInner: inner lengths whose terminator falls behind the buffer are the caller's error.
- CamPacket.Camera.SendIOCtrl: calls with a stream type other than control, without data or unencrypted are not part of this model.
- P2pPacket.ProcessCmd: one packet must have arrived completely, and packets whose decryption or inner length would leave the buffers are excluded; time-outs and session errors are not part of this model.
- CamPacket.Camera.EncryptPacket: packets of audio data, for which the code reads the frame head 64 bytes into the packet, are not part of this model; a declared data size beyond the packet, which the code would mask past its end, is the caller's error.
- Glob.MatchPrefix: letters are folded as in the "C" locale; the character behind the pattern must not be a star, which the code would read.
- WebSocketFrame.IoBuf.DeliverFrame: the handler's result and the growing of the buffer, whose length is an int.
- RfModule.Drive: restricted to commands with a device id and a type that are not zero, because a queued command without them is skipped with a read position that may leave the array; pairing, which also sets the busy flag, is not part of this model.
- RfModule.RfQueue.CheckAckFromWrite: a step when the time is up; the clock and the list of sensors alive are its parameters. The single retry meant for siren settings is overwritten by the code before it is used.
- Alarm: panic, service mode, test mode, tamper, smoke and scenarios are not steps; they change the state without cancelling timers. The gateway starts disarmed. Timer ids are never used again.
- AlarmSystem.Gateway.TriggerAlarm: only the call without tamper and smoke; what it does to devices is not part of this model.
- FileMd5.Globals.ReadBlock: a partial word at the end of a file is read as the C library does in practice, although the standard leaves it open.
- FileMd5.Globals.CalcFileMd5: files of 2^32 bytes or more.
- Registry.Gateway.DeleteDev: the keep-alive list, the camera list and the list of low batteries are not part of this model.
- Events: the notification of clients, the files to which full pages are saved and queries by time.
- ScheduleRing.Scheduler.Tick: within an interval, random switching and the FORCE ON command that is repeated while an adapter reports to be off (jsw_protocol.c:5563-5571); sunrise and sunset. del_last_schedule is never called and not modelled.
- ScheduleRing.Scheduler.ArrangeSchedule: the same.
- ScheduleRuns.RunTicks: the same.
- Firmware.PackageTool: scripts of 1024 bytes or more, which the tool cuts off.
- Firmware.UpdateV2: files shorter than a script; what is done with the files after they were written, replacement of path prefixes, and names longer than the buffers.
- The gateway watchdog, web sessions, the cloud event queue, Nest, CGI, WebDAV, Lua, TLS and directory listing are not part of this model.
