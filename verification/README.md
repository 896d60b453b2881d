# The path of a note, in Dafny

This project models what happens to a Nostr note between its creation and its arrival in a relay's
store, and proves that the pieces do what they are for.

- **Hashing.** `Fips180` is SHA-256 as FIPS 180-4 states it; `Sha256Constants` derives its constants
  from the roots of primes, and `Sha256Example` follows the published example to its digest. `Sha256Block` is the unrolled block function with its rolling window of 16
  words and its renamed registers; `Sha256` is the buffered context (`sha256_init`, `sha256_update`,
  `sha256_done`).
- **Encryption.** `Fips197` is AES-256 as FIPS 197 states it and `AesSbox` ties the S-box table to
  inversion in GF(2^8); `AesExample` follows the examples of its appendices A.3 and C.3. `AesInverse` proves that the inverse cipher undoes the cipher. `Aes` is the code
  that overwrites a state inside a buffer, `AesCbc` the CBC mode of section 6.2 of NIST SP 800-38A, and
  `Encryption` adds the padding of section 6.3 of RFC 5652 and the base64 text.
- **Text.** `Base64`, `Base64Laws` and `Base64Code` are the codec of RFC 4648 over any alphabet: values,
  laws, and loops on buffers. `Hex` and `Cursors` are the helpers of the serializer. `EventText` is the
  NIP-01 serialization of an event, `EventPrinter` the code that prints it through a bounded cursor, and
  `EventInjective` says exactly how much of an event the text determines. `Json` is a reader of JSON that
  knows nothing of the printer, and `EventReads` what it makes of the text.
- **Mining.** `ProofOfWork` counts leading zero bits (NIP-13), `Mining` is the search for a nonce.
- **WebSocket.** `Frames` is the frame format of RFC 6455 section 5.2 and `FrameCode` its loops.
  `Readers` says what the two `read_message` state machines do with a stream of bytes; `ServerReader`
  and `ClientReader` are those state machines on their mutable objects, with the client's bookkeeping of
  bytes that came with the upgrade response. `Delivery` relates both to a reference reader on abstract
  frames, `Fragments` says what they deliver in terms of the messages that were cut into frames, `Replies`
  what they send and report besides, and `Wraparound` what the server does with lengths near 2^64.
  `FrameExample` has the examples of section 5.7. `SendQueues` and `ScopeRunners` are the two
  concurrent protocols, as interleaved atomic steps of any number of callers. `EndToEnd` composes the
  send queue with the readers, in both directions.
- **Relay.** `Relay` is the store: a list in memory, and a file that repeats it, against one plain list.

`Options`, `Bits`, `Tables`, `Memory`, `Sequences` and `Messages` hold what several modules share. C
pointers into buffers are offsets, `char` is `bv8`, a string up to its NUL is `CString`, and an
asynchronous read takes the next bytes of the stream.

## What the code does not do

Where a promise fails, the code is modelled as it is, the exact condition is proved, and a lemma gives an
input on which it fails.

- Base64 decoding fills a short last group with the letter `A`, looked up in the alphabet in use. With an
  alphabet of 64 distinct characters other than `=`, decoding undoes encoding iff the length is a multiple
  of 3 or `A` is in the alphabet (`Base64Code.AlphabetRoundTrip`). The built-in alphabet has it;
  `Base64Code.RoundTripFails` uses the bytes from 0x80 on.
- The serialization determines pubkey, printed time, kind, the text of the tags and content, and nothing
  else, for all events (`EventInjective.CommitmentIff`). What is lost: a timestamp of 10^15 or more is
  printed by its 15 leading digits (`EventInjective.LateNotesCollide`), a tag without elements prints like
  a tag with one null string (`EventInjective.EmptyTagsCollide`), and explicit tags print like a list
  exactly when they are its text (`EventInjective.ExplicitTagsCollide`, `EventInjective.ExplicitTagsExample`).
- The text is JSON (RFC 8259) exactly when no string has a control character other than the five that are
  escaped, and no null string stands where a value is needed (`EventReads.CommitmentReads`,
  `EventReads.UnreadableExamples`). NIP-01 asks for the other control characters as they are.
- `mine_event` aborts on its own assertion iff the event already has a two-element nonce tag
  (`Mining.NostrEvent.MineEvent`), and with explicit tags it either succeeds at once or never
  (`Mining.ExplicitTagsDefeatMining`). The difficulty in the nonce tag is the real one iff it has at most six characters
  (`Mining.NonceTagReads`).
- The readers' size check adds in `std::size_t`: it is the intended one iff the sum stays below 2^64 or
  what is left after wrapping is still too big (`Delivery.SizeCheckExact`); `Wraparound.SizeCheckBypassed`
  gives a stream that passes it under every limit from 10 on.
- On the server `4 + length` wraps as well. The mask is then taken from bytes that were not read, which
  has no defined result, so the model stops with `Overrun`. `Wraparound.OverrunIff` says on which streams,
  `Wraparound.OverrunPossibleIff` under which limits, `Wraparound.OverrunExample` gives ten bytes, and
  `Wraparound.FramesNeverOverrun` excludes it for all frames that RFC 6455 allows.
- The comment in `src/database.cc:111` speaks of pubkeys or prefixes; the code compares whole pubkeys, and
  so does the model. A request is answered with one event only.

## Model

| member | source | states |
|---|---|---|
| Sha256Block.ChFast | src/nostril/sha256.c:52-55 | the rewritten Ch is Ch of FIPS 180-4 section 4.1.2 |
| Sha256Block.MajFast | src/nostril/sha256.c:56-59 | the rewritten Maj is Maj of section 4.1.2 |
| Sha256Block.BigSigma0Fast | src/nostril/sha256.c:60-63 | shifts and ors are the rotations of the standard |
| Sha256Block.BigSigma1Fast | src/nostril/sha256.c:64-67 | likewise |
| Sha256Block.SmallSigma0Fast | src/nostril/sha256.c:68-71 | likewise |
| Sha256Block.SmallSigma1Fast | src/nostril/sha256.c:72-75 | likewise |
| Sha256Block.Round | src/nostril/sha256.c:78-84 | updating two registers and renaming the rest is one step of section 6.2.2 |
| Sha256Block.Extend | src/nostril/sha256.c:109-158 | overwriting a slot of the window gives the next word of the message schedule |
| Sha256Block.Rounds0 | src/nostril/sha256.c:92-107 | rounds 0 to 15 of the recursion, and the window then holds the schedule's first 16 words |
| Sha256Block.Rounds16 | src/nostril/sha256.c:109-124 | rounds 16 to 31, with the window 16 words further on |
| Sha256Block.Rounds32 | src/nostril/sha256.c:126-141 | rounds 32 to 47, likewise |
| Sha256Block.Rounds48 | src/nostril/sha256.c:143-158 | rounds 48 to 63 |
| Sha256Block.Transform | src/nostril/sha256.c:87-168 | the unrolled in-place block function is the 64-round compression of section 6.2.2, for every state and block |
| Sha256Constants.RoundConstants | src/nostril/sha256.c:92-158 | each round constant is the first 32 fractional bits of the cube root of its prime (section 4.2.2) |
| Sha256Constants.FirstPrimes | src/nostril/sha256.c:92-158 | those primes are the first 64, without a gap |
| Sha256Constants.InitialHash | src/nostril/sha256.c:210-214 | the initial state is the first 32 fractional bits of the square roots of the first 8 primes (section 5.3.3) |
| Sha256.Context.constructor | src/nostril/sha256.c:210-214 | a fresh context stands for the empty message |
| Sha256.Context.Add | src/nostril/sha256.c:171-208 | the context then stands for the message with the new bytes: state = fold over whole blocks, buffer = tail |
| Sha256.Context.Update | src/nostril/sha256.c:216-220 | the same through the public entry |
| Sha256.Context.Done | src/nostril/sha256.c:222-236 | padding and length in place give the FIPS 180-4 digest of everything added |
| Sha256.PadForm | src/nostril/sha256.c:222-231 | what `sha256_done` adds is exactly the padding of section 5.1.1 |
| Fips180.ZeroCountLeast | src/nostril/sha256.c:222-231 | the padding has the least number of zero bytes, as section 5.1.1 asks |
| Sha256.HashAll | src/nostril/sha256.c:171-236 | every way of cutting a message into updates gives the digest of the whole |
| Sha256.Sha256 | src/nostril/sha256.c:239-246 | the one-call form gives the digest |
| Sha256Example.DigestOfAbc | src/nostril/sha256.c:239-246 | the digest of "abc" is the published one, ba7816bf to f20015ad |
| Sha256Example.HashInParts | src/nostril/sha256.c:171-208 | one block is compressed and more blocks are hashed part after part, which determines the fold over blocks |
| AesSbox.SboxMeaning | src/nostril/aes.c:79-97 | every table entry is the affine image of the inverse of its index in GF(2^8) |
| AesInverse.SboxInverse | src/nostril/aes.c:79-117 | the two tables are inverse to each other |
| AesInverse.TimesLinear | src/nostril/aes.c:294-327 | multiplication in GF(2^8) is linear |
| AesInverse.TimesAdd | src/nostril/aes.c:294-327 | products of the same element add up like their factors |
| AesInverse.MixColumnsInverse | src/nostril/aes.c:300-366 | InvMixColumns undoes MixColumns for every state |
| AesInverse.ShiftRowsInverse | src/nostril/aes.c:266-409 | InvShiftRows undoes ShiftRows |
| AesInverse.RoundsInverse | src/nostril/aes.c:413-463 | by induction on the rounds: the inverse rounds undo the rounds |
| AesInverse.CipherInverse | src/nostril/aes.c:413-463 | InvCipher undoes Cipher for every state and every 240-byte round-key array |
| Aes.MultiplyIsTimes | src/nostril/aes.c:320-327 | the unrolled product is multiplication in GF(2^8) for factors of five bits |
| Aes.AddRoundKeyInPlace | src/nostril/aes.c:237-247 | the window becomes AddRoundKey of FIPS 197 and the rest of the buffer stays |
| Aes.SubBytesInPlace | src/nostril/aes.c:251-261 | likewise for SubBytes |
| Aes.ShiftRowsInPlace | src/nostril/aes.c:266-292 | the cell-by-cell rotations are ShiftRows |
| Aes.MixColumnsInPlace | src/nostril/aes.c:300-313 | the three-xor form is the matrix product |
| Aes.InvMixColumnsInPlace | src/nostril/aes.c:350-366 | the four products are the inverse matrix product |
| Aes.InvSubBytesInPlace | src/nostril/aes.c:371-381 | the window becomes InvSubBytes |
| Aes.InvShiftRowsInPlace | src/nostril/aes.c:383-409 | the rotations are InvShiftRows |
| Aes.CipherInPlace | src/nostril/aes.c:413-437 | the window becomes Cipher of FIPS 197, nothing else changes |
| Aes.InvCipherInPlace | src/nostril/aes.c:440-463 | the window becomes InvCipher |
| AesCbc.KeyExpansion | src/nostril/aes.c:146-217 | the 60 words of the key schedule of FIPS 197 section 5.2 |
| AesExample.ExpansionExample | src/nostril/aes.c:146-217 | words 8 and 12 of the expansion in appendix A.3 of FIPS 197, the first of each kind of substitution |
| AesExample.C3Expanded | src/nostril/aes.c:146-217 | all fifteen round keys of appendix C.3, from the first two |
| AesExample.CipherExample | src/nostril/aes.c:413-437 | the ciphertext of appendix C.3, from its key |
| AesCbc.Context.constructor | src/nostril/aes.c:224-228 | the expanded key and the given vector |
| AesCbc.XorWithIv | src/nostril/aes.c:494-501 | the block is xored with the vector, which may be the previous block of the same buffer |
| AesCbc.Context.EncryptBuffer | src/nostril/aes.c:503-516 | CBC encryption in place; the stored vector is the last ciphertext block |
| AesCbc.Context.DecryptBuffer | src/nostril/aes.c:518-531 | CBC decryption in place; the stored vector is again the last ciphertext block |
| AesCbc.DecryptEncrypt | src/nostril/aes.c:503-531 | decryption undoes encryption for all round keys, vectors and block multiples |
| AesCbc.CbcBlock | src/nostril/aes.c:503-516 | every ciphertext block is the cipher of the plaintext block added to the ciphertext before it, or to the vector |
| AesCbc.EncryptInParts | src/nostril/aes.c:503-516 | several block-aligned calls give the bytes of one call |
| AesCbc.DecryptInParts | src/nostril/aes.c:518-531 | likewise for decryption |
| AesCbc.ChainInParts | src/nostril/aes.c:503-531 | and leave the same vector |
| Encryption.AesEncrypt | src/nostril/nostri.c:392-417 | returns 16*(len/16+1) and leaves the CBC ciphertext of the padded message, the rest untouched |
| Encryption.PaddingBytes | src/nostril/nostri.c:392-417 | 1 to 16 bytes are added, up to a block, and each of them is their number (RFC 5652 section 6.3) |
| Encryption.UnpadPad | src/nostril/nostri.c:392-417 | dropping as many bytes as the last one says undoes the padding |
| Encryption.DecryptRecovers | src/nostril/nostri.c:392-417 | decrypting and unpadding recovers every message, for every key and vector |
| Encryption.TextRecovers | src/nostril/nostri.c:392-417 | also through base64 |
| Base64.SextetsOfGroup | src/nostril/base64.c:65-76 | the masks and shifts cut a 24-bit group into four sextets (RFC 4648 section 4) |
| Base64.SextetsAre | src/nostril/base64.c:65-76 | and they are what the encoder looks up |
| Base64.BytesOfSextets | src/nostril/base64.c:126-149 | joining the sextets gives the bytes back |
| Base64Code.InitMaps | src/nostril/base64.c:48-58 | the two tables for any 64 characters |
| Base64Code.BuiltMatched | src/nostril/base64.c:48-58 | for distinct characters without `=` they are inverse to each other |
| Base64Code.BuiltNonNegative | src/nostril/base64.c:48-58 | the tables of any alphabet are fit for decoding: -1 is their only negative entry |
| Base64Code.MatchedNonNegative | src/nostril/base64.c:226-267 | so are all tables that are inverse to each other, the built-in ones among them |
| Base64Code.RfcMatched | src/nostril/base64.c:226-267 | so are the built-in tables |
| Base64Code.RfcAlphabet | src/nostril/base64.c:226-267 | the built-in letters are A to Z, a to z, 0 to 9, + and / (RFC 4648 table 1) |
| Base64Code.RfcExamples | src/nostril/base64.c:65-119 | the encodings of "f", "fo", "foo" and "foobar" of RFC 4648 section 10 |
| Base64Code.EncodeUsingMaps | src/nostril/base64.c:90-119 | exactly the encoded length, the text, then NULs; -1 and an untouched buffer if it is too small |
| Base64Code.DecodeUsingMaps | src/nostril/base64.c:185-218 | for tables whose only negative entry is -1: the decoded bytes and then NULs, or -1 exactly when decoding fails or there is no room |
| Base64Code.PutDecodedTail | src/nostril/base64.c:152-183 | the last group with its padding stripped: its bytes or -1 |
| Base64Laws.RoundTrip | src/nostril/base64.c:90-218 | decoding an encoding gives the bytes back if the length is a multiple of 3 or `A` is a letter, and fails otherwise |
| Base64Code.AlphabetRoundTrip | src/nostril/base64.c:48-218 | the same iff, from the caller's alphabet |
| Base64Code.RoundTripFails | src/nostril/base64.c:152-183 | with the alphabet of the bytes from 0x80 on, a one-byte message is encoded and then not decoded |
| Base64Code.RfcRoundTrip | src/nostril/base64.c:226-267 | with the built-in alphabet decoding undoes encoding on every byte string |
| Base64Laws.DecodesIff | src/nostril/base64.c:152-218 | decoding succeeds on exactly the strings of letters whose last 0 to 4 characters, without trailing `=`, are letters and not just one |
| Base64Laws.ReencodesIff | src/nostril/base64.c:90-218 | re-encoding gives the input back iff it is canonical (RFC 4648 section 3.5) |
| Hex.DecodeEncode | src/nostril/hex.h:2-74 | decoding undoes encoding |
| Hex.DecodesIff | src/nostril/hex.h:2-39 | decoding succeeds on exactly the pairs of digits of either case |
| Hex.EncodeDecode | src/nostril/hex.h:2-74 | encoding undoes decoding up to the case of the digits |
| Hex.HexEncode | src/nostril/hex.h:55-74 | the digits and a NUL, or failure and an untouched buffer iff there is no room |
| Hex.HexDecode | src/nostril/hex.h:22-39 | succeeds iff the text is all digits and exactly fills the buffer |
| Cursors.Cursor.constructor | src/nostril/cursor.h:47-52 | an empty cursor over the given range |
| Cursors.Cursor.PushByte | src/nostril/cursor.h:139-150 | may fill the last byte; otherwise nothing changes |
| Cursors.Cursor.Push | src/nostril/cursor.h:249-262 | needs one byte more than it writes; never writes past the end |
| EventPrinter.PushEscapedChar | src/nostril/nostri.c:26-39 | prints the escape of one character, or fails within the range |
| EventPrinter.PushJsonStr | src/nostril/nostri.c:45-71 | prints the quoted string, or fails |
| EventPrinter.PushTag | src/nostril/nostri.c:77-96 | prints the tag, or fails |
| EventPrinter.PushTags | src/nostril/nostri.c:102-126 | prints the tags or the explicit text, or fails |
| EventPrinter.EventCommitment | src/nostril/nostri.c:132-165 | returns the length of the NIP-01 text iff it is below buflen, and then the buffer holds that text; 0 otherwise; never writes past buflen |
| EventReads.CommitmentReads | src/nostril/nostri.c:26-165 | for every event without explicit tags a JSON reader gets 0, pubkey, printed time, kind, tags and content, in that order, or nothing exactly when the text is not JSON |
| EventReads.KeyValue | src/nostril/nostri.c:143-146 | the text of the key is base 16 of the key as a number |
| EventReads.NumberRead | src/nostril/nostri.c:136-155 | a printed number reads as itself |
| EventReads.StringRead | src/nostril/nostri.c:26-71 | a printed string reads as itself, unless it has a bare control character |
| EventReads.TagListRead | src/nostril/nostri.c:77-126 | the printed tags read as the arrays of their strings, or not at all |
| EventReads.UnreadableExamples | src/nostril/nostri.c:26-71 | two notes whose texts are not JSON |
| EventInjective.StringPrefix | src/nostril/nostri.c:26-71 | up to its closing quote, escaped text determines the string and what follows |
| EventInjective.TagListPrefix | src/nostril/nostri.c:77-126 | the text of the tag list determines the tags and what follows |
| EventInjective.StampText | src/nostril/nostri.c:136-155 | the 16-byte buffer keeps a timestamp or its 15 leading digits |
| EventInjective.LastString | src/nostril/nostri.c:26-71 | whatever precedes it, the last string of a text and what is before it can be told from the right |
| EventInjective.CommitmentIff | src/nostril/nostri.c:26-165 | for all events, with explicit tags or without: the texts are equal iff pubkey, printed time, kind, text of the tags and content are |
| EventInjective.CommitmentInjective | src/nostril/nostri.c:26-165 | without explicit tags, that is iff the tags agree up to `[]` and `[null]` |
| EventInjective.CommitmentDetermines | src/nostril/nostri.c:26-165 | below 10^15 and without a lone null string in a tag, texts are equal iff the events are |
| EventInjective.ExplicitTagsCollide | src/nostril/nostri.c:102-126 | explicit tags print like a list of tags iff they are its text |
| EventInjective.ExplicitTagsExample | src/nostril/nostri.c:102-126 | a note without tags and the same note with the explicit tags `[]` |
| EventInjective.LateNotesCollide | src/nostril/nostri.c:136-155 | two notes of different times past 10^15 with the same text |
| EventInjective.EmptyTagsCollide | src/nostril/nostri.c:77-96 | a tag without elements and a tag with one null string, with the same text |
| ProofOfWork.CountZeroBits | src/nostril/proof.h:1-12 | 8 minus the bit length of the byte |
| ProofOfWork.CountLeadingZeroBits | src/nostril/proof.h:15-27 | the number of leading zeros of the 32 bytes |
| ProofOfWork.LeadingZerosIff | src/nostril/proof.h:1-27 | at least d leading zeros iff the big-endian value is below 2^(bits - d) |
| ProofOfWork.ValueIs | src/nostril/proof.h:15-27 | the value is that of the bytes with the first one most significant |
| Mining.NostrEvent.AddTag | src/nostril/nostri.c:359-376 | appends the tag iff there is room |
| Mining.NostrEvent.GenerateEventId | src/nostril/nostri.c:305-320 | the id becomes the SHA-256 digest of the commitment iff that fits the buffer |
| Mining.NostrEvent.EnsureNonceTag | src/nostril/nostri.c:433-455 | finds a two-element nonce tag, or appends a three-element one |
| Mining.NostrEvent.MineEvent | src/nostril/nostri.c:461-491 | on success the id is the digest of the event with the least nonce that reaches the difficulty and all other tags are as before; and exactly when it aborts, fails or does not end |
| Mining.NonceTagReads | src/nostril/nostri.c:433-491 | the nonce tag is the name, a text that reads as the nonce, and a text that reads as the difficulty iff that has at most six characters |
| Mining.MinedIdBound | src/nostril/nostri.c:461-491 | an id reaches the difficulty iff its value is below 2^(256 - difficulty) |
| Mining.NoncesDiffer | src/nostril/nostri.c:461-491 | different nonces are hashed as different texts |
| Mining.ExplicitTagsDefeatMining | src/nostril/nostri.c:461-491 | with explicit tags all nonces give the same result |
| Frames.MaskedTwice | ext/Simple-WebSocket-Server-v2.0.2/server_ws.hpp:726-727 | unmasking undoes masking |
| Frames.ReadWritten | ext/Simple-WebSocket-Server-v2.0.2/server_ws.hpp:602-687 | reading a written header gives back opcode, length and the bytes after it, for every 64-bit length |
| Frames.MinimalLength | ext/Simple-WebSocket-Server-v2.0.2/client_ws.hpp:202-218 | no header that reads as the same length is shorter than the one written |
| FrameCode.ClientSend | ext/Simple-WebSocket-Server-v2.0.2/client_ws.hpp:188-224 | the loops write the masked frame of RFC 6455 section 5.2 |
| FrameCode.ServerSend | ext/Simple-WebSocket-Server-v2.0.2/server_ws.hpp:206-229 | header and payload are the unmasked frame |
| FrameCode.PutLength | ext/Simple-WebSocket-Server-v2.0.2/client_ws.hpp:214-215 | shifting from the top writes the big-endian length |
| FrameCode.ReadLength | ext/Simple-WebSocket-Server-v2.0.2/client_ws.hpp:514-517 | the sum of shifted bytes is the big-endian value and does not overflow |
| FrameCode.PutMasked | ext/Simple-WebSocket-Server-v2.0.2/client_ws.hpp:223-224 | the loop appends the masked payload |
| FrameExample.UnmaskedFrames | ext/Simple-WebSocket-Server-v2.0.2/server_ws.hpp:206-229 | the unmasked examples of RFC 6455 section 5.7 |
| FrameExample.MaskedFrames | ext/Simple-WebSocket-Server-v2.0.2/client_ws.hpp:188-224 | the masked ones |
| FrameExample.LongFrames | ext/Simple-WebSocket-Server-v2.0.2/server_ws.hpp:206-229 | the ones with 256 bytes and 64 kilobytes |
| FrameExample.ReadMasked | ext/Simple-WebSocket-Server-v2.0.2/server_ws.hpp:602-781 | the server delivers the masked example message |
| FrameExample.ReadPing | ext/Simple-WebSocket-Server-v2.0.2/client_ws.hpp:605-617 | the client answers the example ping with a pong |
| FrameExample.ReadFragments | ext/Simple-WebSocket-Server-v2.0.2/client_ws.hpp:627-664 | the client delivers the two example fragments as one message |
| ServerReader.Connection.ReadMessage | ext/Simple-WebSocket-Server-v2.0.2/server_ws.hpp:602-687 | callbacks and replies, in order, are those of the server's reader on the rest of the stream |
| ServerReader.Connection.ReadMessageContent | ext/Simple-WebSocket-Server-v2.0.2/server_ws.hpp:689-781 | the same from the end of a header |
| ServerReader.Connection.Collect | ext/Simple-WebSocket-Server-v2.0.2/server_ws.hpp:705-727 | the unmasked payload goes to the fragmented message or to a new one, through the shared object |
| ServerReader.Connection.Close | ext/Simple-WebSocket-Server-v2.0.2/server_ws.hpp:245-262 | the close frame is sent only once |
| ServerReader.Serve | ext/Simple-WebSocket-Server-v2.0.2/server_ws.hpp:602-781 | a whole connection does what the reader's definition says |
| ClientReader.Connection.ReadMessage | ext/Simple-WebSocket-Server-v2.0.2/client_ws.hpp:473-558 | deliveries depend only on the unread bytes, buffered or not, with `num_additional_bytes` the number that is buffered |
| ClientReader.Connection.ReadExtended | ext/Simple-WebSocket-Server-v2.0.2/client_ws.hpp:501-549 | the same through the 2- and 8-byte stages |
| ClientReader.Connection.ReadMessageContent | ext/Simple-WebSocket-Server-v2.0.2/client_ws.hpp:560-672 | the same through the payload stage |
| ClientReader.Connection.NextMessage | ext/Simple-WebSocket-Server-v2.0.2/client_ws.hpp:576-589 | the swap of message objects keeps the payload in one and the leftover bytes in the other |
| ClientReader.Serve | ext/Simple-WebSocket-Server-v2.0.2/client_ws.hpp:473-672 | what arrived with the upgrade response and what came later are read as one stream |
| Delivery.ServerFollowsReference | ext/Simple-WebSocket-Server-v2.0.2/server_ws.hpp:602-781 | on every legal frame sequence (section 5.4), under any masks, the server does what the reference reader does |
| Delivery.ClientFollowsReference | ext/Simple-WebSocket-Server-v2.0.2/client_ws.hpp:473-672 | likewise the client |
| Delivery.DeliversMessages | ext/Simple-WebSocket-Server-v2.0.2/server_ws.hpp:689-781 | of a legal sequence a prefix of its messages is delivered, and all of them unless a close or an oversized frame ends the run |
| Delivery.ServerDelivers | ext/Simple-WebSocket-Server-v2.0.2/server_ws.hpp:602-781 | the same of the server on the bytes |
| Delivery.ClientDelivers | ext/Simple-WebSocket-Server-v2.0.2/client_ws.hpp:473-672 | the same of the client on the bytes |
| Fragments.MessagesAre | ext/Simple-WebSocket-Server-v2.0.2/server_ws.hpp:689-781 | however messages are cut into frames, and whatever pings and pongs are between them, the messages are the concatenations of the fragments |
| Fragments.ServerReceives | ext/Simple-WebSocket-Server-v2.0.2/server_ws.hpp:602-781 | the server delivers exactly the list of (opcode, concatenation) of any such sequence from a client, under any masks and with any mix of opcodes |
| Fragments.ClientReceives | ext/Simple-WebSocket-Server-v2.0.2/client_ws.hpp:473-672 | likewise the client, of what a server sends |
| Replies.ServerAnswers | ext/Simple-WebSocket-Server-v2.0.2/server_ws.hpp:743-762 | over every legal sequence the server sends one pong for each ping, in order, with its reserved bits and payload, and reports pings and pongs; it sends nothing else |
| Replies.ClientAnswers | ext/Simple-WebSocket-Server-v2.0.2/client_ws.hpp:605-626 | likewise the client |
| Replies.ServerAnswersEnd | ext/Simple-WebSocket-Server-v2.0.2/server_ws.hpp:689-742 | and at a close frame, or a frame that is too big, it sends one close frame with the payload of the one received, or status 1009, unless one was sent before, and reports status and reason |
| Replies.ClientAnswersEnd | ext/Simple-WebSocket-Server-v2.0.2/client_ws.hpp:560-604 | likewise the client |
| Replies.WrongMaskAnswer | ext/Simple-WebSocket-Server-v2.0.2/server_ws.hpp:619-626 | a frame with the wrong mask bit is answered with status 1002, on both sides |
| Delivery.ServerLimit | ext/Simple-WebSocket-Server-v2.0.2/server_ws.hpp:689-698 | on any bytes at all, nothing longer than the limit is delivered |
| Delivery.ClientLimit | ext/Simple-WebSocket-Server-v2.0.2/client_ws.hpp:560-569 | likewise |
| Delivery.SizeCheckExact | ext/Simple-WebSocket-Server-v2.0.2/server_ws.hpp:689-698 | exactly when the wrapping sum decides as the true sum |
| Wraparound.SizeCheckBypassed | ext/Simple-WebSocket-Server-v2.0.2/server_ws.hpp:689-698 | ten bytes and then a frame announcing 2^64 - 5 pass the size check under every limit from 10 on |
| Wraparound.OverrunIff | ext/Simple-WebSocket-Server-v2.0.2/server_ws.hpp:689-712 | the model stops with `Overrun` iff, after some number of complete frames, a header announces 2^64 - 4 bytes or more, passes the size check and is followed by enough bytes |
| Wraparound.OverrunPossibleIff | ext/Simple-WebSocket-Server-v2.0.2/server_ws.hpp:689-712 | some stream does that to a fresh connection iff the limit is not 0 |
| Wraparound.OverrunExample | ext/Simple-WebSocket-Server-v2.0.2/server_ws.hpp:689-712 | ten bytes that do, under the default limit |
| Wraparound.FramesNeverOverrun | ext/Simple-WebSocket-Server-v2.0.2/server_ws.hpp:689-712 | no frames with payloads below 2^63 do, on any connection and under any limit |
| SendQueues.Kept | ext/Simple-WebSocket-Server-v2.0.2/client_ws.hpp:147-183 | every step keeps the invariant on queue, writes, wire and callbacks |
| SendQueues.OneWrite | ext/Simple-WebSocket-Server-v2.0.2/client_ws.hpp:147-183 | over every run: at most one write, it is that of the first entry, and there is one while entries wait and the runner is not stopped |
| SendQueues.InOrder | ext/Simple-WebSocket-Server-v2.0.2/client_ws.hpp:226-229 | over every run without a failed write the wire holds a prefix of the frames in send order, all of them once the queue is empty |
| SendQueues.FirstParts | ext/Simple-WebSocket-Server-v2.0.2/client_ws.hpp:147-183 | over every run, failed writes included, the wire holds a first part of each frame in send order, and nothing of a frame that waits behind another |
| SendQueues.CalledOnce | ext/Simple-WebSocket-Server-v2.0.2/client_ws.hpp:157-179 | over every run a callback is called at most once, and exactly once when its entry has left the queue and no handler still holds it |
| SendQueues.SuccessTellsOne | ext/Simple-WebSocket-Server-v2.0.2/client_ws.hpp:157-166 | a successful write takes its entry from the queue, has its callback called with success, and the next write started |
| SendQueues.FailureTellsAll | ext/Simple-WebSocket-Server-v2.0.2/client_ws.hpp:167-180 | a failed write empties the queue and has every waiting callback called once with the failure |
| SendQueues.StopSilences | ext/Simple-WebSocket-Server-v2.0.2/client_ws.hpp:152-154 | from the stop on nothing is called, over every run |
| SendQueues.SuccessIsTrue | ext/Simple-WebSocket-Server-v2.0.2/client_ws.hpp:157-165 | a callback reports success only for a frame that is completely on the wire |
| SendQueues.SilentAfterStop | ext/Simple-WebSocket-Server-v2.0.2/client_ws.hpp:152-154 | after the stop nothing is called and nothing leaves the queue |
| SendQueues.Connection.Send | ext/Simple-WebSocket-Server-v2.0.2/client_ws.hpp:226-229 | the method is the send step and keeps the invariant |
| SendQueues.Connection.WriteHandler | ext/Simple-WebSocket-Server-v2.0.2/client_ws.hpp:151-181 | the handler is the completion step and keeps the invariant |
| SendQueues.Connection.CollectCallbacks | ext/Simple-WebSocket-Server-v2.0.2/client_ws.hpp:169-173 | the loop gathers the callbacks that are set, in order |
| EndToEnd.ServerMonotone | ext/Simple-WebSocket-Server-v2.0.2/server_ws.hpp:602-781 | on part of a stream the server delivers a prefix of what it delivers on all of it |
| EndToEnd.ClientMonotone | ext/Simple-WebSocket-Server-v2.0.2/client_ws.hpp:473-672 | likewise the client |
| EndToEnd.SentIsReceived | ext/Simple-WebSocket-Server-v2.0.2/client_ws.hpp:188-230 | for every legal sequence of frames handed to `send`: at every moment of every run without a failed write the server has delivered a prefix of its messages, and all of them once the queue is empty |
| EndToEnd.RepliesAreReceived | ext/Simple-WebSocket-Server-v2.0.2/server_ws.hpp:164-234 | the same from the server's queue to the client |
| EndToEnd.MessagesAreReceived | ext/Simple-WebSocket-Server-v2.0.2/client_ws.hpp:188-230 | both, in terms of the messages that were cut into the frames |
| ScopeRunners.Kept | ext/Simple-WebSocket-Server-v2.0.2/utility.hpp:434-477 | every atomic step keeps the invariant, and -1 is permanent |
| ScopeRunners.CountIsLive | ext/Simple-WebSocket-Server-v2.0.2/utility.hpp:434-477 | over every interleaving the count is the number of live locks, or -1 with none live |
| ScopeRunners.StoppedForGood | ext/Simple-WebSocket-Server-v2.0.2/utility.hpp:468-476 | once any stop has returned, no lock is held or granted again |
| ScopeRunners.StopWaits | ext/Simple-WebSocket-Server-v2.0.2/utility.hpp:456-476 | a stop returns, and a lock is refused, only when no lock is alive |
| ScopeRunners.GrantsWhenOpen | ext/Simple-WebSocket-Server-v2.0.2/utility.hpp:456-465 | from every reachable open state an undisturbed thread gets its lock, and the count is one higher |
| ScopeRunners.GrantedIff | ext/Simple-WebSocket-Server-v2.0.2/utility.hpp:456-465 | a round that is not spurious grants iff the count is the one last seen |
| ScopeRunners.LockingEnds | ext/Simple-WebSocket-Server-v2.0.2/utility.hpp:456-465 | inside the loop two undisturbed rounds are enough: granted if open, refused if stopped |
| ScopeRunners.StopReturnsIff | ext/Simple-WebSocket-Server-v2.0.2/utility.hpp:468-476 | a round of stop that is not spurious returns iff no lock is held, and leaves -1 |
| ScopeRunners.StopCanReturn | ext/Simple-WebSocket-Server-v2.0.2/utility.hpp:468-476 | from every state of the invariant a waiting stop can still return |
| ScopeRunners.ScopeRunner.ContinueLock | ext/Simple-WebSocket-Server-v2.0.2/utility.hpp:456-465 | one round of the loop is the model's step |
| ScopeRunners.ScopeRunner.ReleaseLock | ext/Simple-WebSocket-Server-v2.0.2/utility.hpp:447-449 | the destructor is the model's step |
| ScopeRunners.ScopeRunner.Stop | ext/Simple-WebSocket-Server-v2.0.2/utility.hpp:468-476 | one round of the loop is the model's step |
| Relay.RunRefines | src/relay.cc:41-107 | over every run of messages and restarts the answers are those of a relay that keeps one list |
| Relay.RelayRefines | src/relay.cc:22-107 | from any file: the same answers, and file, memory and list have the same order of first occurrences |
| Relay.AnswersFromMemory | src/relay.cc:74-96 | a request is answered with the first event in memory whose pubkey is in the filter, and with EOSE iff there is none |
| Relay.MatchingDistinct | src/database.cc:97-131 | choosing by author and removing repetitions commute |
| Relay.FileGrowth | src/database.cc:59-88 | n published events on an empty store leave n(n+1)/2 records in the file |
| Relay.Disk.Append | src/database.cc:59-88 | the file becomes its old contents and the whole list |
| Relay.Disk.Query | src/database.cc:97-131 | the events whose pubkey is one of the authors, in file order |
| Relay.Server.constructor | src/relay.cc:22-26 | memory starts as the contents of the file |
| Relay.Server.MakeResponse | src/relay.cc:41-107 | the new memory, the new file and the response are those of the model's step |

## Left out

- secp256k1 signing, key generation, ECDH and random numbers: foreign calls; ids, keys, vectors and masks are arbitrary inputs.
- `make_encrypted_dm`, `print_event`, `make_message` and the command line: heap and text plumbing around the modelled parts.
- AES in CTR and ECB mode: switched off in `src/nostril/aes.h`.
- TLS, DNS, timers and the HTTP upgrade: the WebSocket model starts after the handshake, and a reader ends at the end of its stream.
- EventReads.CommitmentReads: the reader has no white space, fractions, exponents, literal names or numeric escapes, which the text never has, and does not look at UTF-8; explicit tags, which may be any text, are not read.
- JSON parsing and printing in the relay: a message is what the relay gets out of it, and an event written to the file reads back unchanged.
- Failures of the file system, and two relay messages handled at the same time.
- C strings of 2^31 bytes and more, where the cursor's `int` lengths would turn negative.
- The branch of both readers that reads again after a transfer of no bytes: exact reads never take it.
- Handlers that are not set, and handlers that call back into the connection while a frame is being handled.
- ServerReader.Connection.ReadMessageContent: stops with `Overrun` where `4 + length` wraps around, because the code then uses a mask that was never read; `Wraparound.OverrunIff` says exactly where.
- Delivery.ServerFollowsReference: needs every message to stay below 2^64 bytes together with a control frame inside it; `Delivery.SizeCheckExact` says what the size check does beyond that.
- Base64Code.DecodeUsingMaps: tables made by hand with negative entries other than -1 are not covered, because shifting such a `signed char` has no defined result; `base64_init_maps` never makes one.
- Delivery.ServerLimit: streams of 2^64 bytes and more are not covered, since the recorded length would wrap around.
- Delivery.ClientLimit: the same bound on the stream.
- SendQueues.InOrder: is about runs without a failed write; `SendQueues.FirstParts` says what the wire holds otherwise.
- ScopeRunners.Kept: the count does not overflow `long`, since every lock takes memory.
- Sha256.Context.Done: messages of 2^61 bytes and more, whose bit length FIPS 180-4 does not define.
- The choice between reading a chunk in place and copying it for alignment in `add`: both are taken nondeterministically.
