# Verified models of a desk robot's firmware

The repository is the firmware of a two-board desk robot: a core that pairs with a phone app,
drives the wheels and stages updates, and a head with display and camera, joined by a radio
link. These Dafny modules model its algorithmic and protocol parts and prove what they
promise, for every input and over every run.

| part | modules | main results |
|---|---|---|
| QR symbol of the pairing code | `BinaryField`, `Words`, `BitStream`, `Gf256`, `ReedSolomon`, `CodeDistance`, `QrPayload`, `QrPlacement`, `QrCodec`, `QrReader` | the codeword is a multiple of the generator, and the only one with its data; placement is a bijection; a reader that shares nothing with the encoder gets the digits back, and three wrong codewords do not change them |
| Link crypto, portable branch | `BigEndian`, `Ghash`, `Gcm`, `GcmStandard`, `Sha256`, `MachineWords`, `Sha256Standard`, `Sha256Constants`, `Sha256Example` | GHASH is the polynomial sum over GF(2^128); sealing is the standard's GCTR and no counter block comes twice; open inverts seal and nothing else opens; SHA-256 has the standard's functions, constants and padding, and does not see how its input is split |
| Core-head link | `Crc16`, `Crc16Check`, `LinkCodec`, `StreamFramer`, `StreamDelivery`, `StillTransfer`, `LinkSession` | bursts of 16 bits are always caught; framing is independent of TCP cuts, never wedges and finds its way back; stills arrive intact; commands at most once and in order, and those in turn all get through |
| Pairing | `PairWindow`, `PairingTags`, `PairingSession`, `PairingDesk`, `PairingHandlers`, `PairingReplay`, `PairingRotation`, `PairingOrigin` | exactly who gets paired; fifty guesses a window; flash before send at every effect; the key's holder gets through and nobody after an end; no replay; what a reboot forgets; rotation stays within one step; who made what is accepted |
| Update of the head | `OtaManifest`, `OtaGrammar`, `OtaHex`, `OtaStaging`, `OtaLedger`, `OtaDelivery`, `OtaPull` | exactly which texts are manifests, and the round trip; staging reports the last commit, and when that is one whole upload; a clean upload and a steady fetch succeed; what is booted was committed |
| Motion | `MotionPolicy`, `WheelCommand`, `CliffReaction`, `DriveGate` | everything a tick tells the wheels, and that turning wheels are justified by the latest tick; a lost rail brakes; EMERGENCY lasts until a permitted command; exactly when the wheels may be driven |

## Reading the models

Code that works by changing state is a class or a method over arrays, proved against a function
of its old state; the theorems are then about runs of those functions. Words are bounded
integers with explicit wrap-around; XOR and shifts are defined on binary digits.
Where a function specifies a method, a second description made without it says what it computes:
a standard's own definition (`GcmStandard`, `Sha256Standard`, `QrReader`), a published value
(`Crc16Check`, `Sha256Example`), or the condition and outcome in the state's own fields
(`PairingDesk`, `PairingHandlers`, `WheelCommand`, `OtaDelivery`, `OtaGrammar`). Times and
sequence positions in theorems are unbounded; the 32- and 16-bit clocks and counters the code
compares are their residues.

Modelling decisions:

- HMAC, HKDF and the AES block function are ideal or parameters: a tag is the pair of key and
  message, a derived key the pair of parent and era, the cipher any function on blocks. SHA-256 is
  the real function, and the update theorem names a collision instead of excluding one.
- A flash write lands whole or not at all, as the caller's flag says. Allocation, radio sends,
  digest library and flash slot answers are inputs too.
- A pairing handler is the sequence of its flash writes, RAM changes and sends, recorded by a ghost
  timeline as its method makes them, and power may fail after any of them; RAM changes between two
  of the others are one. Elsewhere a handler or a loop tick is one atomic step.
- The web server gives index 0 to the first piece of an upload only and delivers nothing after its
  last; pieces of different uploads may interleave. Upload identities exist in the model alone.
- Stick values are exact numerators over 127, the tilt rule is an input boolean.
- An event queue, a string under construction and a TCP read are sequences; C strings are modelled
  by the characters before the terminator. Null arguments, logging and drop counters' widths are
  not modelled.
- In the rotation and origin theorems any tag may be sent under a key nobody has drawn, and a tag
  under a drawn key only if a holder of that key made it; the frame around a tag is free.

## Where the code does less than its comments say

- `OtaLedger.OverlapMixes`: the staging handler does not look at whose piece it handles, so the last
  piece of a rejected upload can complete another one. `CommitIsOneUploadIff` gives the exact
  condition, `ReportIsOneUploadIff` and `BootedWasUploaded` carry it to the report and the boot.
- `OtaDelivery.AnswerIs`: the rejection on record is that of the upload begun last, so an upload that
  committed is answered with a bad label when one with a malformed label began during it.
- `LinkSession.StaleTurnConfirmsFalsely`: an acknowledgement carries no age, so after 2^16 minted
  numbers with no accepted command a duplicate re-acknowledgement confirms a push the head never
  took. `ConfirmationIsOwnIff` and `ReAckIsTruthful` give the exact conditions,
  `ConfirmedPushWasStored` the guarantee for whole runs.
- `DriveGate.OldCommandDrivesAgain`: command age is a 32-bit difference, so a command drained 2^32
  ms ago counts as new again. `MovesIff` states the code's condition, `AgesAreRealIff` when the
  ages it sees are real.
- `PairingReplay.GoodbyeReturnsIff`: a goodbye whose clear failed is forgotten in RAM only, and the
  next boot brings pair and goodbye back.
- `PairingOrigin.FarewellReturnsIff`: the robot's farewell has the label of the apps' goodbye, so if its
  clear does not land and its counter is fresh to the stored one the robot takes it for theirs after
  a reboot. `AcceptedIsApps` is the guarantee while every such clear lands.
- `PairingReplay.ReplayIsAcceptedIff`: a frame becomes acceptable again once its session has moved
  on by more than 2^31.
- The comment on `Reassembler` in `embedded/shared/link/link_codec.h` says rejects leave state
  untouched; a rejected oversize first fragment does record its total, as modelled.
- The comment on `open` in `embedded/shared/link/link_crypto.h` promises a zeroed output on
  failure; the argument checks return before that, as `Gcm.Open` states.

## Model

| member | source | states |
|---|---|---|
| `Gf256.RsMul` | embedded/shared/link/qr_codec.h:18-25 | The shift-and-fold loop on a 16-bit accumulator is multiplication in GF(2)[x] modulo 0x11D |
| `Gf256.MulCommutes` | embedded/shared/link/qr_codec.h:18-25 | That product is commutative |
| `Gf256.MulAssociates` | embedded/shared/link/qr_codec.h:18-25 | and associative |
| `Gf256.MulDistributes` | embedded/shared/link/qr_codec.h:18-25 | and distributes over XOR on both sides: the ring laws the Reed-Solomon code rests on |
| `Gf256.MulByTwo` | embedded/shared/link/qr_codec.h:18-25 | Multiplying by x doubles and folds 0x11D in when a bit falls out: with the ring laws this fixes every product |
| `BinaryField.MultiplicationIsModular` | embedded/shared/link/qr_codec.h:18-25 | Generic in the modulus: the loop product of two reduced elements is the residue of their polynomial product |
| `ReedSolomon.BuildDivisor` | embedded/shared/link/qr_codec.h:101-115 | The in-place divisor loop leaves the low coefficients of the product over i of (x + alpha^i) |
| `ReedSolomon.ComputeRemainder` | embedded/shared/link/qr_codec.h:116-129 | The in-place shift register leaves the division remainder of the data, for any lengths |
| `ReedSolomon.CodewordIsMultiple` | embedded/shared/link/qr_codec.h:116-136 | data(x) x^n + register = quotient(x) g(x): the codeword is a multiple of the generator, any length |
| `ReedSolomon.RemainderIsUnique` | embedded/shared/link/qr_codec.h:116-136 | Conversely, only that register value makes the codeword a multiple of the generator |
| `ReedSolomon.GeneratorRoots` | embedded/shared/link/qr_codec.h:101-115 | The generator vanishes at alpha^0 .. alpha^(n-1) |
| `ReedSolomon.CodewordRoots` | embedded/shared/link/qr_codec.h:100-136 | Every codeword vanishes at alpha^0 .. alpha^(n-1), for every data vector (section 7.5 of ISO/IEC 18004:2015) |
| `CodeDistance.CodewordsAreFarApart` | embedded/shared/link/qr_codec.h:100-136 | Two different data vectors of one length (at most 26 codewords in all) give codewords differing in more than `checks` places |
| `CodeDistance.DecodingIsUnique` | embedded/shared/link/qr_codec.h:100-136 | A received word within checks/2 errors of two codewords has only one data vector |
| `QrPayload.AppendBits` | embedded/shared/link/qr_codec.h:72-79 | Appending n bits of a value in place extends the bit stream by exactly those bits, most significant first |
| `QrPayload.BuildPayload` | embedded/shared/link/qr_codec.h:66-98 | The 19 data codewords: numeric mode, count 6, two ten-bit groups, terminator, alternating pad bytes |
| `QrPayload.PayloadReadsBack` | embedded/shared/link/qr_codec.h:66-98 | A reader of the mode, count and groups recovers exactly the six digits |
| `QrPayload.FillerIsStandard` | embedded/shared/link/qr_codec.h:84-98 | Six zero bits and then 0xEC, 0x11 in turn fill the rest (section 7.4 of ISO/IEC 18004:2015) |
| `QrPlacement.PlaceOfBit` | embedded/shared/link/qr_codec.h:177-196 | Each of the 208 bit positions has a data module of its own in the zigzag |
| `QrPlacement.BitOfPlace` | embedded/shared/link/qr_codec.h:177-196 | and each data module holds exactly one bit: the placement is a bijection onto the non-function modules |
| `QrPlacement.WalkCounts` | embedded/shared/link/qr_codec.h:177-196 | The running bit counter of the walk advances exactly on data modules, over the whole grid |
| `QrCodec.DrawTiming` | embedded/shared/link/qr_codec.h:138-147 | After clearing, exactly the timing modules are drawn and marked as function modules |
| `QrCodec.DrawFinders` | embedded/shared/link/qr_codec.h:35-49 | Finders, separators and the timing they overwrite, as the picture says, nothing else touched |
| `QrCodec.FormatInformation` | embedded/shared/link/qr_codec.h:153-159 | The BCH loop and mask give the format word 0x77C4 |
| `QrCodec.DrawFormat` | embedded/shared/link/qr_codec.h:160-176 | Both format copies and the dark module; the function map is then complete |
| `QrCodec.PlaceCodewords` | embedded/shared/link/qr_codec.h:177-196 | The zigzag writes every codeword bit to its own data module and changes no function module |
| `QrCodec.ApplyMask` | embedded/shared/link/qr_codec.h:198-205 | Mask 0 flips data modules only |
| `QrCodec.Encode6Digits` | embedded/shared/link/qr_codec.h:56-207 | The whole encoder: rejects non-digits and leaves the grid alone, else draws the symbol of the code |
| `QrCodec.SymbolReadsBack` | embedded/shared/link/qr_codec.h:177-205 | A reader that walks the standard's zigzag over the modules no pattern reserves and undoes the announced mask gets all 26 codewords of any symbol |
| `QrCodec.PatternsAreStandard` | embedded/shared/link/qr_codec.h:35-49 | Finders, separators, timing and the dark module of every symbol are where the standard pictures them |
| `QrCodec.FormatReadsBack` | embedded/shared/link/qr_codec.h:149-176 | Either copy, read at the standard's places and unmasked with 0x5412, announces level L and mask 0 |
| `QrCodec.BitsReadBack` | embedded/shared/link/qr_codec.h:177-205 | Undoing that announced mask over the zigzag returns the placed bits in order |
| `QrCodec.DigitsReadBack` | embedded/shared/link/qr_codec.h:56-207 | A reader that shares nothing with the encoder gets the six digits from the finished symbol by either copy of the format information: it finds level and mask number there and undoes that one of the eight masks of section 7.8.2 of ISO/IEC 18004:2015 |
| `QrCodec.DamageIsRecoverable` | embedded/shared/link/qr_codec.h:56-207 | With at most three wrong codewords the code is still determined |
| `Ghash.GhashMul` | embedded/shared/link/link_crypto.h:182-210 | The right-shift loop with byte 0xE1 is the GF(2^128) product (section 6.3 of NIST SP 800-38D) |
| `Ghash.ProductIsModular` | embedded/shared/link/link_crypto.h:182-210 | That product is the residue of the polynomial product modulo x^128 + x^7 + x^2 + x + 1 |
| `Ghash.ProductAdditive` | embedded/shared/link/link_crypto.h:182-210 | Additive over XOR in each argument |
| `Ghash.ProductCommutes` | embedded/shared/link/link_crypto.h:182-210 | Commutative |
| `Ghash.ProductAssociates` | embedded/shared/link/link_crypto.h:182-210 | Associative |
| `Ghash.Ghash` | embedded/shared/link/link_crypto.h:212-239 | For every length the chunk loop with zero-padded last block and length block is the polynomial sum (section 6.4) |
| `Ghash.HashIsPolynomial` | embedded/shared/link/link_crypto.h:212-239 | Horner fold equals the sum of block_i times H^(m-i+1) |
| `GcmStandard.ProductsOfUnitAndX` | embedded/shared/link/link_crypto.h:182-210 | The two products that with the ring laws fix all others: the block 0x80 00 .. is the unit, 0x40 00 .. shifts the block right and folds 0xE1 in |
| `GcmStandard.HashedIsStandard` | embedded/shared/link/link_crypto.h:212-239 | What is hashed: the ciphertext in blocks with zeros after its end, then one block with lengths 0 and 8 times its length, big endian |
| `Gcm.NextCounter` | embedded/shared/link/link_crypto.h:248-257 | The last four bytes count up modulo 2^32, big endian, the nonce part unchanged |
| `Gcm.Crypt` | embedded/shared/link/link_crypto.h:241-267 | GCTR: each byte XORed with its keystream byte from counter 2 on; rest of the buffer unchanged |
| `Gcm.CryptIsInvolutive` | embedded/shared/link/link_crypto.h:241-267 | Crypting twice with one key and nonce gives the text back |
| `Gcm.Seal` | embedded/shared/link/link_crypto.h:274-316 | Ciphertext and tag laid out in the caller's buffer, or 0 when there is no key or room |
| `GcmStandard.SealIsStandard` | embedded/shared/link/link_crypto.h:241-316 | The message is nonce, GCTR of the text from the 32-bit increment of the pre-counter block, and the hash XORed with the enciphered pre-counter block (sections 6.5 and 7.1 of NIST SP 800-38D), GCTR and increment defined on their own |
| `GcmStandard.CountersAreDistinct` | embedded/shared/link/link_crypto.h:241-267 | For fewer than 2^32 - 1 blocks no counter block is used twice under one nonce, the tag's included |
| `Gcm.TagEqual` | embedded/shared/link/link_crypto.h:59-69 | The accumulated difference is zero exactly for equal tags |
| `Gcm.Open` | embedded/shared/link/link_crypto.h:319-375 | Plaintext exactly when the tag matches; a bad tag wipes the buffer |
| `Gcm.OpenInvertsSeal` | embedded/shared/link/link_crypto.h:274-375 | A message opens to p if and only if it is the seal of p under that key and nonce |
| `Sha256.Hasher.CompressBlock` | embedded/shared/link/link_crypto.h:389-440 | Schedule and 64 rounds compute the compression function (section 6.2.2 of FIPS 180-4) |
| `Sha256Standard.FunctionsAgree` | embedded/shared/link/link_crypto.h:404-422 | The six functions are those of section 4.1.2 of FIPS 180-4 on 32-bit words: and, not, exclusive or, rotations and shifts, for every input |
| `Sha256Constants.FirstPrimes` | embedded/shared/link/link_crypto.h:390-398 | The 64 numbers behind the round constants are the first 64 primes, none left out |
| `Sha256Constants.RoundConstantsAreRoots` | embedded/shared/link/link_crypto.h:390-398 | Each round constant is the first 32 binary places of its prime's cube root |
| `Sha256Constants.InitialHashIsRoots` | embedded/shared/link/link_crypto.h:382-383 | and each initial word those of the square root of one of the first eight |
| `Sha256Example.AbcDigest` | embedded/shared/link/link_crypto.h:389-485 | The digest of "abc" is the published one, through all 64 schedule words and rounds |
| `Sha256.Hasher.Update` | embedded/shared/link/link_crypto.h:443-464 | State is the fold over the whole blocks of everything fed, the buffer holds the rest |
| `Sha256.TracksIsUnique` | embedded/shared/link/link_crypto.h:443-464 | That state depends on the concatenation only, not on how the calls split it |
| `Sha256.Hasher.Final` | embedded/shared/link/link_crypto.h:466-485 | Terminates and returns the digest of exactly the padded message |
| `Sha256.PaddingIsInjective` | embedded/shared/link/link_crypto.h:466-479 | Different messages pad to different block sequences (section 5.1.1) |
| `Sha256Standard.PaddingIsStandard` | embedded/shared/link/link_crypto.h:466-478 | Message, 0x80, as few zeros as fill whole blocks, and eight bytes that read as the length in bits |
| `Crc16.Crc16Ccitt` | embedded/shared/link/link_codec.h:92-108 | The byte loop computes the checksum register fed with the message bits, most significant first |
| `Crc16.FeedTogether` | embedded/shared/link/link_codec.h:92-108 | Feeding up to 16 bits is adding them to the register and multiplying by a power of x |
| `Crc16.TrailerClears` | embedded/shared/link/link_codec.h:92-108 | A message with a trailer runs the register to zero if and only if the trailer is its checksum |
| `Crc16Check.PolynomialIs` | embedded/shared/link/link_codec.h:91-104 | The polynomial is x^16 + x^12 + x^5 + 1 |
| `Crc16Check.CheckValue` | embedded/shared/link/link_codec.h:91-108 | The checksum of "123456789" is 0x29B1, the published check value of CRC-16/CCITT-FALSE |
| `Crc16.BurstIsVisible` | embedded/shared/link/link_codec.h:92-108 | Any nonzero burst of at most 16 bits leaves the register nonzero |
| `LinkCodec.EncodeFrame` | embedded/shared/link/link_codec.h:158-189 | Writes the wire form exactly for encodable frames that fit, returns 0 otherwise |
| `LinkCodec.LengthsAre` | embedded/shared/link/link_codec.h:130-155 | Known types and the shortest and longest payload of each |
| `LinkCodec.WireLayout` | embedded/shared/link/link_codec.h:158-189 | Every field at its offset, numbers most significant byte first, checksum of all before it at the end |
| `LinkCodec.DecodeInvertsEncode` | embedded/shared/link/link_codec.h:158-232 | decode(encode(f)) = f for every encodable frame |
| `LinkCodec.EncodeInvertsDecode` | embedded/shared/link/link_codec.h:200-232 | and only the encoder's own output decodes |
| `LinkCodec.BurstIsRejected` | embedded/shared/link/link_codec.h:200-232 | Any burst of at most 16 wrong bits in an accepted frame, trailer included, is rejected |
| `LinkCodec.AdjacentBytesAreRejected` | embedded/shared/link/link_codec.h:200-232 | so altering one byte or two adjacent bytes anywhere is always rejected |
| `StreamFramer.Reassembler.Push` | embedded/shared/link/link_codec.h:504-537 | Strict in-order append; every rejection as the code does it, the fresh total_ of a rejected first fragment included |
| `StreamFramer.JpegSocket.PollTcp` | embedded/core/src/transport/link_server.h:910-941 | The pull loop terminates, handles what the pump function says and leaves less than one frame buffered |
| `StreamFramer.JpegSocket.HandleTcpFrame` | embedded/core/src/transport/link_server.h:950-986 | A completed message is delivered once and assembly restarts; rejects count a drop |
| `StreamFramer.JpegSocket.ConsumeTcp` | embedded/core/src/transport/link_server.h:988-997 | Drops exactly the first n buffered bytes |
| `StreamFramer.PumpThenMore` | embedded/core/src/transport/link_server.h:910-941 | Pumping, then appending and pumping, is pumping the concatenation |
| `StreamFramer.ChunkingIsIrrelevant` | embedded/core/src/transport/link_server.h:886-941 | What is extracted depends on the byte stream only, not on its cuts, for arbitrary bytes |
| `StreamFramer.BytesAreConsumedOnce` | embedded/core/src/transport/link_server.h:128-146 | Every byte is consumed exactly once, in order, as a skipped byte or within one frame-sized segment |
| `StreamFramer.BufferNeverWedges` | embedded/core/src/transport/link_server.h:910-941 | Fewer than 1034 bytes stay buffered, so the 16 KB buffer always has room |
| `StreamDelivery.FrameBehindRubbish` | embedded/core/src/transport/link_server.h:128-146 | Bytes without the magic are dropped one by one and the frame behind them is handled: the receiver finds its way back |
| `StreamDelivery.DeliveredIsWhole` | embedded/core/src/transport/link_server.h:950-986 | For any frames in any order: what is delivered is the payloads of fragments 0 to n - 1 of n, in that order of arrival, and nothing of another beginning |
| `StreamDelivery.DropsAreCounted` | embedded/core/src/transport/link_server.h:910-986 | Whatever is cut from the stream either advances the assembly or counts exactly one drop |
| `StillTransfer.SendStill` | embedded/head/src/transport/link_client.h:743-796 | Writes the encoded fragments of a message that fits 255 of them, in order |
| `StillTransfer.FragmentIs` | embedded/head/src/transport/link_client.h:743-796 | Fragments are counted on from the first number and carry 1024 bytes each, the last what is left; as many as that takes, one for an empty still |
| `StillTransfer.StillArrives` | embedded/head/src/transport/link_client.h:763-796 | Every still of at most 16384 bytes arrives byte for byte, whatever the TCP cuts and whatever message was left half assembled before it |
| `StillTransfer.OversizeNeverCompletes` | embedded/shared/link/link_codec.h:504-539 | A longer still is never delivered, from any state of the assembly |
| `StillTransfer.SmallStillsAreSendable` | embedded/head/src/transport/link_codec.h:29-31 | Every still within the cap has at most 255 fragments |
| `LinkSession.LinkClient.HandleCmd` | embedded/head/src/transport/link_client.h:524-643 | Stale drops, duplicate re-acknowledges, fresh applies then acknowledges; rejected frames leave the gate |
| `LinkSession.AppliesIff` | embedded/head/src/transport/link_client.h:562-643 | Which frames the head applies: well-formed ones of the command types, by their contents |
| `LinkSession.CommandIs` | embedded/head/src/transport/link_client.h:524-643 | All a frame can do: the number accepted last is acknowledged again, one up to 32767 further on or the first of an association is applied if it can be, nothing else |
| `LinkSession.CommandsGoThrough` | embedded/head/src/transport/link_client.h:524-643 | Over runs: frames that come in turn are all applied, in order, and all acknowledged |
| `LinkSession.LinkClient.OnAssoc` | embedded/head/src/transport/link_client.h:412-426 | A new association forgets the sequence gate and nothing else |
| `LinkSession.LinkServer.SendTo` | embedded/core/src/transport/link_server.h:425-458 | A number is spent whenever the length guard passes, even if the frame then cannot be encoded; the radio verdict is reported |
| `LinkSession.LinkServer.PushBundle` | embedded/core/src/transport/link_server.h:817-857 | Arming, first attempt and what a refused first attempt leaves |
| `LinkSession.PushIs` | embedded/core/src/transport/link_server.h:817-857 | A relay arms a fresh push exactly when its first datagram left and then awaits that number; otherwise an earlier push goes on as it was |
| `LinkSession.LinkServer.PollCredPush` | embedded/core/src/transport/link_server.h:859-881 | Retries on its period, stops after five attempts or a receipt |
| `LinkSession.PollIs` | embedded/core/src/transport/link_server.h:859-881 | A poll tries again exactly when armed, unconfirmed, under five tries and a second past the last; which number it then awaits; when it gives up |
| `LinkSession.PushIsGivenUp` | embedded/core/src/transport/link_server.h:859-881 | Over runs: an unconfirmed push polled each second is tried five times and then given up |
| `LinkSession.TriesAreSpaced` | embedded/core/src/transport/link_server.h:859-881 | However often it is polled, the tries lie at least a second apart and are at most five |
| `LinkSession.LinkServer.HandleAck` | embedded/core/src/transport/link_server.h:689-705 | Confirms exactly an armed, unconfirmed push with that number |
| `LinkSession.PushIsConfirmed` | embedded/core/src/transport/link_server.h:689-857 | End to end: a push that leaves and passes the head's gate is executed with its bytes and confirmed by the receipt, the first or a repeated one, and by no other number |
| `LinkSession.GateComparesPositions` | embedded/head/src/transport/link_codec.h:37-46 | The 16-bit gate compares unbounded mint positions whenever the arriving one is at most 2^15 behind |
| `LinkSession.CommandsAtMostOnceInOrder` | embedded/head/src/transport/link_client.h:524-643 | Under loss, duplication and reordering within 2^15 mints: executed frames are a strictly increasing subsequence of the minted ones, every receipt names an executed frame |
| `LinkSession.ReAckIsTruthful` | embedded/head/src/transport/link_client.h:524-560 | A re-acknowledged frame was executed in this association iff fewer than 2^16 numbers were minted since the last accepted one |
| `LinkSession.ConfirmationIsOwnIff` | embedded/core/src/transport/link_server.h:689-705 | An acknowledgement with the pending number was sent for that very push iff the frame it was sent for lies fewer than 2^16 mints from the push |
| `LinkSession.ConfirmedPushWasStored` | embedded/core/src/transport/link_server.h:817-881 | In every run whose confirming acknowledgements are that near, a confirmed push is one of at most five attempts, was opened and handed to the store |
| `LinkSession.TimelyIsNear` | embedded/head/src/transport/link_client.h:524-560 | Enough for that: what the head re-acknowledges and what confirms is at most 2^15 mints old; idle time does not matter |
| `LinkSession.StaleTurnConfirmsFalsely` | embedded/core/src/transport/link_server.h:689-705 | Otherwise it can fail: a run in which a push is confirmed that the head never accepted |
| `PairWindow.Core.OpenWindow` | embedded/core/src/abilities/pairing/pairing_manager.h:33-49 | Opens for six digits only, resets tries, leaves everything else |
| `PairWindow.Core.TryCode` | embedded/core/src/abilities/pairing/pairing_manager.h:54-82 | The whole gate: paired, window, lockout, comparison, burn |
| `PairWindow.Core.ClearPair` | embedded/core/src/abilities/pairing/pairing_manager.h:88-95 | Closes and resets the gate, the shown code stays |
| `PairWindow.ConstantTimeEqual6` | embedded/core/src/abilities/pairing/pairing_codec.h:378-384 | True exactly for equal codes |
| `PairWindow.WindowIsBounded` | embedded/core/src/abilities/pairing/pairing_manager.h:33-109 | From one opening, over any events at non-decreasing times within 2^32 ms: at most 50 comparisons and one acceptance |
| `PairWindow.BoundIsReached` | embedded/core/src/abilities/pairing/pairing_manager.h:54-82 | Fifty is reached, for every wrong code |
| `PairingTags.BuildTagMessage` | embedded/core/src/abilities/pairing/pairing_codec.h:76-356 | The bytes each tag is computed over, written into the caller's buffer |
| `PairingTags.MessagesAreDistinct` | embedded/core/src/abilities/pairing/pairing_codec.h:76-356 | No two different frames, of one opcode or of two, sign the same message |
| `PairingTags.MessageLayout` | embedded/core/src/abilities/pairing/pairing_codec.h:66-160 | The label in plain letters and each big-endian field of every message |
| `PairingSession.ConfigStore.SavePair` | embedded/core/src/services/config_store.h:75-104 | All or nothing; a receipt only for a completed write |
| `PairingSession.ConfigStore.SavePairRefresh` | embedded/core/src/services/config_store.h:303-330 | The same for a rotated pair |
| `PairingSession.ConfigStore.SaveCounter` | embedded/core/src/services/config_store.h:110-123 | Changes the counter alone |
| `PairingSession.ConfigStore.ClearPair` | embedded/core/src/services/config_store.h:336-349 | Removes the stored pair or leaves it |
| `PairingSession.PairingTask.RestorePair` | embedded/core/src/abilities/pairing/pairing_task.h:246-273 | RAM becomes the stored pair, or unpaired |
| `PairingHandlers.RebootIs` | embedded/core/src/abilities/pairing/pairing_task.h:246-273 | A robot that starts again has the pair flash holds, or none, and no answer to repeat |
| `PairingSession.PairingTask.TryConsume` | embedded/core/src/abilities/pairing/pairing_task.h:440-480 | Accepts exactly when paired, era right, counter fresh and tag valid; any failure changes nothing; every 128th acceptance stores the counter |
| `PairingSession.PairingTask.Consume` | embedded/core/src/abilities/pairing/pairing_task.h:482-535 | The opcode wrappers over that gate |
| `PairingHandlers.AcceptsIff` | embedded/core/src/abilities/pairing/pairing_task.h:440-535 | Exactly which frames are accepted (paired, of the session's era where they have one, counter 1 to 2^31 - 1 on, signed with the session's key), and that they spend the counter, noted in flash every 128th time |
| `PairingHandlers.FramesGoThrough` | embedded/core/src/abilities/pairing/pairing_task.h:440-535 | Over runs: whoever holds the key gets every frame through, however many, across the counter's wrap-around |
| `PairingHandlers.NewSessionWorks` | embedded/core/src/abilities/pairing/pairing_task.h:668-1072 | So the phone just sent PAIR_OK, or the acknowledgement of a rotation, gets through with frames 1, 2, 3, ... under the new key |
| `PairingSession.PairingTask.HandleUnpair` | embedded/core/src/abilities/pairing/pairing_task.h:795-868 | A valid goodbye forgets pair, key and cached answer |
| `PairingHandlers.GoodbyeIs` | embedded/core/src/abilities/pairing/pairing_task.h:795-868 | A goodbye ends the session exactly when it is signed with its key and newer; nothing of the pair stays in RAM and the gate is shut |
| `PairingSession.PairingTask.HandlePairReq` | embedded/core/src/abilities/pairing/pairing_task.h:643-788 | Redelivery, refusals, store before answer, the half-done state of a failed save or wrap, and the code gate in each case: a right code joins it before anything is saved |
| `PairingDesk.PairsIff` | embedded/core/src/abilities/pairing/pairing_task.h:643-788 | PAIR_OK goes out, and an unpaired robot becomes paired, exactly for a request with the code on show (gate open, not used up, under 300000 ms, no lockout under 30000 ms after five tries) once the pair is stored and wrapped; the fresh session follows |
| `PairingDesk.RefusedIs` | embedded/core/src/abilities/pairing/pairing_task.h:668-788 | What every other request of an unpaired robot is told, with which reason, and that it changes nothing but the count of tries, or what a failed save leaves |
| `PairingDesk.RedeliversIff` | embedded/core/src/abilities/pairing/pairing_task.h:643-667 | A paired robot repeats its answer exactly to the cached code and nonce within 60000 ms, with the cached key; any other request is told it is paired, and nothing changes |
| `PairingDesk.PairedAskedWithShownCode` | embedded/core/src/abilities/pairing/pairing_task.h:643-788 | Over every run of handlers, openings and reboots: whoever is sent PAIR_OK asked with the digits last put on display, less than five minutes after, and an answer is repeated only to the code and nonce it was first sent for |
| `PairingSession.PairingTask.OpenPairingWindow` | embedded/core/src/abilities/pairing/pairing_task.h:279-302 | A code is put on display only while unpaired |
| `PairingHandlers.ShowIs` | embedded/core/src/abilities/pairing/pairing_manager.h:33-49 | Exactly six decimal digits can be shown, and are asked for during the next 300000 ms whatever was wrong before |
| `PairingSession.PairingTask.HandlePairRefresh` | embedded/core/src/abilities/pairing/pairing_task.h:981-1072 | Re-acknowledges the current era, else verifies, stores, switches, answers, in that order |
| `PairingHandlers.RotatesIff` | embedded/core/src/abilities/pairing/pairing_task.h:981-1072 | Same era: acknowledged again. Next era, newer, signed with the old key and stored: new key, counters from 0, gate era too, acknowledged under the new key. Nothing else changes anything |
| `PairingDesk.JamsIff` | embedded/core/src/abilities/pairing/pairing_task.h:668-788 | The gate takes itself for paired beside an unpaired session after exactly those requests whose code is right and whose save or wrap fails |
| `PairingDesk.JamLasts` | embedded/core/src/abilities/pairing/pairing_task.h:643-690 | Then every pairing request, whatever its code, is turned away as already paired and nothing changes, over any events until the pair button clears the gate |
| `PairingSession.PairingTask.ClearPair` | embedded/core/src/abilities/pairing/pairing_task.h:578-605 | Forgets everything and resets the validation count |
| `PairingSession.PairingTask.EnterPairMode` | embedded/core/src/abilities/pairing/pairing_task.h:306-345 | The farewell is signed and sent while the key still stands, then everything is forgotten |
| `PairingHandlers.EvictIs` | embedded/core/src/abilities/pairing/pairing_task.h:306-345 | The pair button ends the session always and tells the peer under the key and era it still has |
| `PairingHandlers.EndedIsSilent` | embedded/core/src/abilities/pairing/pairing_task.h:440-868 | Over runs after an end: whatever tags and codes come, nothing gets through until a code is shown |
| `PairingSession.SendsStoredKey` | embedded/core/src/abilities/pairing/pairing_task.h:643-1072 | Each handler is the list of its effects in the order its method performs them; at every send, the effects before it leave in flash the key the frame names |
| `PairingSession.PrefixFlash` | embedded/core/src/abilities/pairing/pairing_task.h:643-1072 | After any prefix of a handler flash is as before it or as after it, and an answer or acknowledgement is out only in the second case |
| `PairingSession.StoredBeforeSent` | embedded/core/src/abilities/pairing/pairing_task.h:643-1072 | Over whole runs with power failing after any effect of any handler: paired RAM agrees with flash, and flash holds the key a frame names at the moment it is sent |
| `PairingReplay.NoReplay` | embedded/core/src/abilities/pairing/pairing_task.h:440-535 | No accepted counter-spending frame is accepted again, under any opcode, while its session has advanced at most 2^31 past it; never once the key is gone; through reboots for every frame the stored counter covered |
| `PairingReplay.EndingFrameIsSpent` | embedded/core/src/abilities/pairing/pairing_task.h:795-1072 | The frames that end a session: an UNPAIR whose clear landed or a PAIR_REFRESH whose write did is never accepted again, under any opcode, in any run |
| `PairingReplay.GoodbyeReturnsIff` | embedded/core/src/abilities/pairing/pairing_task.h:795-868 | After a reboot the same goodbye is accepted again iff its clear failed and its counter is fresh to the stored one |
| `PairingReplay.ReplayIsAcceptedIff` | embedded/core/src/transport/udp_server.h:188-193 | A replay is accepted iff its era still fits and the distance modulo 2^32 exceeds 2^31 (comparison as in section 3.2 of RFC 1982) |
| `PairingReplay.RecordSurvives` | embedded/core/src/abilities/pairing/pairing_task.h:246-273 | The record of accepted frames grows while the session lasts; a reboot keeps what the stored counter covers |
| `PairingReplay.KeysNeverReturn` | embedded/core/src/abilities/pairing/pairing_task.h:643-1072 | A key flash has given up never becomes current again |
| `PairingReplay.RebootForgetsFew` | embedded/core/src/abilities/pairing/pairing_task.h:472-478 | In every reachable paired state the stored counter was this session's live counter at most 127 accepted frames ago, 128 more for each failed write in a row |
| `PairingReplay.NoReplaySinceFactory` | embedded/core/src/abilities/pairing/pairing_task.h:246-535 | The same for a robot out of the box: no record, no reachable state is assumed |
| `PairingReplay.FactoryRebootForgetsFew` | embedded/core/src/abilities/pairing/pairing_task.h:472-478 | While counter writes succeed, a reboot of such a robot forgets at most 127 accepted frames |
| `PairingRotation.RobotIsAtMostOneAhead` | embedded/core/src/abilities/pairing/pairing_task.h:981-1072 | For apps that move on verified acknowledgements only, over loss, repetition, reordering, invention and reboots: the robot holds the app's link of the chain or the next, era included; every answer names a stored key |
| `PairingRotation.RequestIsAnsweredIff` | embedded/core/src/abilities/pairing/pairing_task.h:981-1072 | A request is answered, with an acknowledgement the app takes, iff the robot is one ahead or the counter is fresh and the write lands |
| `PairingRotation.RotationIsExpected` | embedded/core/src/abilities/pairing/pairing_task.h:997-1030 | An admitted request comes from an app on exactly the robot's key |
| `PairingOrigin.AcceptedIsAppsOrFarewell` | embedded/core/src/abilities/pairing/pairing_task.h:440-535 | Origin: in every reachable state a frame the robot accepts was said by an app, word for word under the present key, or is the robot's own farewell under that key |
| `PairingOrigin.AcceptedIsApps` | embedded/core/src/abilities/pairing/pairing_task.h:306-345 | While the clear after every farewell lands, only the first case occurs |
| `PairingOrigin.FarewellReturnsIff` | embedded/core/src/abilities/pairing/pairing_task.h:306-345 | Exactly when the second can: after a reboot the robot takes its farewell for an app's goodbye iff the clear did not land and the farewell's counter is fresh to the stored one |
| `OtaManifest.ParseU32` | embedded/shared/link/ota_manifest.h:59-75 | Strict decimal u32, overflow rejected |
| `OtaManifest.WriteDecimal` | embedded/shared/link/ota_manifest.h:92-108 | Digits reversed into the shortest decimal |
| `OtaManifest.BuildManifest` | embedded/shared/link/ota_manifest.h:89-140 | The manifest text, or nothing for a bad digest or a short buffer |
| `OtaManifest.ParseManifest` | embedded/shared/link/ota_manifest.h:142-195 | The line scanner computes the parse of the split text |
| `OtaManifest.BuildThenParse` | embedded/shared/link/ota_manifest.h:89-195 | Every version, size and 64-hex digest comes back, and the text fits 256 bytes |
| `OtaManifest.ManifestText` | embedded/shared/link/ota_manifest.h:89-140 | The text itself, for any digest: three lines, numbers in plain decimal |
| `OtaGrammar.ParsedIff` | embedded/shared/link/ota_manifest.h:141-195 | A text is a manifest exactly when each field is on exactly one line, well-formed (decimal below 2^32, 64 hex digits), and no line has 128 characters; order and other lines do not matter |
| `OtaGrammar.LastFeedIsOptional` | embedded/shared/link/ota_manifest.h:152-161 | The last line need not be ended |
| `OtaManifest.ManifestReadsBack` | embedded/shared/link/ota_manifest.h:142-195 | However decorated with CRs, blank and unknown short lines, the manifest reads back the same |
| `OtaManifest.IdleLineIsHarmless` | embedded/shared/link/ota_manifest.h:142-195 | A blank or unknown line may come or go anywhere in any text |
| `OtaManifest.CarriageReturnIsHarmless` | embedded/shared/link/ota_manifest.h:142-195 | A CR may be added to any line end that has none |
| `OtaStaging.StagingManager.BeginUpload` | embedded/core/src/abilities/ota/ota_manager.h:117-127 | A malformed label stops the upload, nothing committed moves |
| `OtaStaging.StagingManager.StorageReady` | embedded/core/src/abilities/ota/ota_manager.h:133-146 | Attaches the buffer once, arms the upload or reports no storage |
| `OtaStaging.StagingManager.WriteChunk` | embedded/core/src/abilities/ota/ota_manager.h:151-164 | In-place copy with the size gate |
| `OtaStaging.StagingManager.FinishUpload` | embedded/core/src/abilities/ota/ota_manager.h:173-196 | Commits length, label and digest together, or nothing |
| `OtaStaging.OtaTask.HandleUpload` | embedded/core/src/abilities/ota/ota_task.h:263-352 | The order in which one piece drives manager and digest |
| `OtaLedger.StagingFollowsLedger` | embedded/core/src/abilities/ota/ota_manager.h:117-195 | For any pieces from any uploads: reported length, version and digest are those of the last commit; a digest is of exactly its bytes; until a piece is stored the buffer holds them |
| `OtaDelivery.CleanUploadCommits` | embedded/core/src/abilities/ota/ota_task.h:263-352 | An upload whose pieces all come, of at most 2 MiB, is committed whole with its label (or the one before) and digest, from whatever state |
| `OtaStaging.StagingManager.TakePostResult` | embedded/core/src/abilities/ota/ota_manager.h:197-206 | The answer to a finished request, which uses the outcome up |
| `OtaDelivery.AnswerIs` | embedded/core/src/abilities/ota/ota_task.h:238-352 | After any pieces from any uploads, a request answered right after its last piece is told its image is staged exactly when that piece committed and the upload begun last had no malformed label, with the commit's length and version |
| `OtaLedger.CommitIsOneUploadIff` | embedded/core/src/abilities/ota/ota_task.h:263-352 | A commit is made of exactly the pieces of the upload that opened it iff no piece of another upload is stored in between or closes it |
| `OtaLedger.UndisturbedIsWhole` | embedded/core/src/abilities/ota/ota_task.h:263-352 | Then its bytes are all bytes of that upload, in order |
| `OtaLedger.SerialIsUndisturbed` | embedded/core/src/abilities/ota/ota_task.h:263-352 | Uploads that do not overlap are never disturbed |
| `OtaLedger.ReportIsOneUploadIff` | embedded/core/src/abilities/ota/ota_task.h:263-352 | After any history the report is of the last commit, that commit carries its opener's label, and it is its opener's whole upload exactly when undisturbed |
| `OtaLedger.OverlapMixes` | embedded/core/src/abilities/ota/ota_task.h:263-352 | Overlapping uploads mix: for all data, the last piece of an upload rejected for its label completes another one, and length, version and digest are of the mixture |
| `OtaLedger.SameBytesByChance` | embedded/core/src/abilities/ota/ota_task.h:263-352 | Why the condition is about pieces: a foreign piece may carry the very bytes the upload's own would have brought |
| `OtaHex.BytesToHex` | embedded/head/src/abilities/ota/ota_codec.h:184-193 | Two lower-case characters a byte |
| `OtaHex.HexIs` | embedded/head/src/abilities/ota/ota_codec.h:184-193 | Which two characters each byte becomes, from the character codes |
| `OtaHex.MatchesIff` | embedded/head/src/abilities/ota/ota_codec.h:160-181 | Two texts match exactly when they are 64 hexadecimal digits of equal value, in either case |
| `OtaHex.ManifestMatches` | embedded/head/src/abilities/ota/ota_codec.h:171-181 | Well-formed and equal up to case |
| `OtaHex.MatchesIsEquality` | embedded/head/src/abilities/ota/ota_codec.h:171-193 | On written digests it decides equality of the digests |
| `OtaPull.OtaUpdater.StartPull` | embedded/head/src/abilities/ota/ota_task.h:93-185 | From IDLE only; last digest header wins, length must fit the slot |
| `OtaPull.OtaUpdater.PollBody` | embedded/head/src/abilities/ota/ota_task.h:188-236 | Magic, flash write, digest, then complete, torn or stalled |
| `OtaPull.OtaUpdater.Finish` | embedded/head/src/abilities/ota/ota_task.h:241-278 | Digest verdict before the slot is made bootable |
| `OtaDelivery.LaunchIs` | embedded/head/src/abilities/ota/ota_task.h:93-185 | A fetch starts exactly from idle, with a request that opens, connects and succeeds and a length from 1 to the slot's 0x1F0000 bytes |
| `OtaDelivery.LengthInIs` | embedded/head/src/abilities/ota/ota_task.h:129-165 | Of several lengths the last counts |
| `OtaDelivery.ShaInIs` | embedded/head/src/abilities/ota/ota_task.h:129-165 | Of several digests the last well-formed one counts |
| `OtaDelivery.TableIs` | embedded/head/src/abilities/ota/ota_codec.h:197-252 | Every way into each state of the updater, and every abort out |
| `OtaDelivery.PollIs` | embedded/head/src/abilities/ota/ota_task.h:188-236 | A poll of an intact stream goes on, ends or gives up: torn when nothing more can come, stalled 15000 ms after the last bytes |
| `OtaDelivery.BadReadEnds` | embedded/head/src/abilities/ota/ota_task.h:188-236 | A wrong first byte or a refused write ends the fetch, whatever follows: nothing of the slot is kept and the boot image stays |
| `OtaDelivery.SteadyFetchBoots` | embedded/head/src/abilities/ota/ota_task.h:188-285 | Over runs of polls: an image that arrives in time with the magic and the digest set, if one is, becomes bootable byte for byte |
| `OtaDelivery.DownloadBoots` | embedded/head/src/abilities/ota/ota_task.h:93-285 | From idle to bootable: the right answer, then the image, cut anyhow |
| `OtaPull.BootsOnlyWorthy` | embedded/head/src/abilities/ota/ota_task.h:188-285 | Only a whole image with the magic, and the set digest, becomes bootable |
| `OtaPull.BootedWasUploaded` | embedded/head/src/abilities/ota/ota_task.h:188-285 | End to end over core, network and head: an image booted under a manifest digest is byte for byte a commit at the core, or a SHA-256 collision with one; and that commit is one whole upload exactly when undisturbed |
| `OtaPull.SerialBootIsOneUpload` | embedded/head/src/abilities/ota/ota_task.h:188-285 | With one upload at a time the booted image is one whole upload with a well-formed label or none, or a collision with it |
| `MotionPolicy.Coordinator.Loop` | embedded/core/src/behavior/coordinator.h:408-615 | One tick: drain, mode feeds, gate, arbitration, new state |
| `WheelCommand.TickSends` | embedded/core/src/behavior/coordinator.h:408-615 | Everything a tick can tell the wheels, by the queue and the state before: a lost rail brakes; a stick not live (over 500 ms, not MANUAL, unpaired) stops, whatever was going on; a live one is followed, cut in EMERGENCY where there is no ground; Hold only for a live centred stick beside another behaviour |
| `WheelCommand.TickLeaves` | embedded/core/src/behavior/coordinator.h:95-205 | and the mode, latch, behaviour, rails and stick it leaves |
| `WheelCommand.TicksDecide` | embedded/core/src/behavior/coordinator.h:408-615 | From boot no tick holds, so the wheels' last setpoint is what the latest tick said |
| `WheelCommand.WheelsAreJustified` | embedded/core/src/behavior/coordinator.h:408-615 | Over every run, Hold keeping the last setpoint: whenever the wheels are set to turn, the latest tick was one with a justified velocity and they turn at that |
| `WheelCommand.GoneIsStill` | embedded/core/src/behavior/coordinator.h:515-560 | Over every run: after a goodbye, an unpairing or an eviction no tick drives the wheels until somebody comes, however recent the last command |
| `WheelCommand.CommandUnpacks` | embedded/core/src/transport/udp_codec.h:198-238 | Throttle and steering come back from their own bytes, centred at 128, full scale both ways |
| `MotionPolicy.Coordinator.Drain` | embedded/core/src/behavior/coordinator.h:422-487 | Levels persist, edges are found per event |
| `MotionPolicy.ManualIff` | embedded/core/src/behavior/mode_manager.h:52-93 | The MANUAL session is on iff some tick granted it and nothing disturbed it since, over every history of ticks and OTA notices |
| `MotionPolicy.ModeIs` | embedded/core/src/behavior/mode_manager.h:52-93 | OTA iff an update was staged and not finished since, PAIRING iff the latest tick, outside OTA, found the window open and only OTA completions came after, over every history |
| `CliffReaction.SensorTask.Loop` | embedded/core/src/abilities/sensors/sensors_task.h:96-167 | Poll, fuse, publish on a changed rail |
| `CliffReaction.RailIs` | embedded/core/src/hal/tcrt5000_driver.h:44-80 | Hysteresis in either polarity and for every band: ground side sets, void side clears, strictly between stays |
| `CliffReaction.SenseIs` | embedded/core/src/abilities/sensors/sensors_codec.h:92-197 | Everything a sensor tick does: levels follow due readings with the 400-800 band, published levels follow them on healthy level ticks, and it publishes exactly on a change |
| `CliffReaction.LossIsPublishedIff` | embedded/core/src/abilities/sensors/sensors_codec.h:92-197 | A rail loss is published iff a healthy level tick holds a published-present, enabled rail void; the ADC void band makes it so |
| `CliffReaction.RailsFollow` | embedded/core/src/behavior/coordinator.h:431-451 | After every tick the coordinator's rails are the sensor side's last published ones |
| `CliffReaction.RailsFollowSinceBoot` | embedded/core/src/behavior/coordinator.h:431-451 | The same at every tick since boot |
| `CliffReaction.PublishedLossBrakes` | embedded/core/src/behavior/coordinator.h:95-105 | The first tick after a published loss brakes, even if the ground is back in the same drain |
| `CliffReaction.EmergencyHolds` | embedded/core/src/behavior/coordinator.h:107-160 | EMERGENCY lasts exactly until a fresh, non-stale, nonzero, allowed command in a direction with ground; until then forward needs the front rail and reverse the rear |
| `CliffReaction.LossSinceBootHolds` | embedded/core/src/behavior/coordinator.h:95-160 | The reaction from boot to exit: a loss published at any time brakes on the next tick, and EMERGENCY then lasts exactly until the first exit |
| `DriveGate.ConnectionManager.MarkAlive` | embedded/core/src/transport/connection_manager.h:150-160 | Pins and stamps for a valid token only |
| `DriveGate.ConnectionManager.RefreshThenClear` | embedded/core/src/transport/connection_manager.h:172-178 | Stamps and unpins for a valid token only |
| `DriveGate.ConnectionManager.IsAlive` | embedded/core/src/transport/connection_manager.h:188-192 | Pinned and stamped at most 5000 ms ago |
| `DriveGate.MovesIff` | embedded/core/src/behavior/coordinator.h:489-560 | Exactly when a tick sends a nonzero speed, and which: the drained stick's, forward speed cut only in EMERGENCY without ground that way |
| `DriveGate.DriveIsGated` | embedded/core/src/behavior/coordinator.h:408-560 | Over every run: nonzero speed only in an undisturbed MANUAL session, paired, no window open, command and peer recent on the 32-bit clock |
| `DriveGate.AgesAreRealIff` | embedded/core/src/behavior/coordinator.h:489-530 | At any uptime, on a moving tick: the command is at most 500 ms old iff fewer than 2^32 ms passed since its tick, the peer stamp at most 5 s old iff fewer than 2^32 ms passed since it was set |
| `DriveGate.AgesAreRealEarly` | embedded/core/src/behavior/coordinator.h:489-530 | So in the first 2^32 ms after boot both hold, and a verified frame arrived at most 5 s ago |
| `DriveGate.OldCommandDrivesAgain` | embedded/core/src/behavior/coordinator.h:489-490 | Past 2^32 ms they need not: a run in which a command of 2^32 ms ago drives the wheels |

## Left out

- AES itself, the mbedTLS branches and key provisioning: the portable modes are proved for any block function.
- `getModule`, `rowBytes` and `packBitmap` of the QR header: plain reads and packing of a finished grid.
- Control frames other than those that pass the command gate (heartbeats, epoch changes, portal pages): one-branch handling.
- The robot-to-app counter (an input), the repeats of the eviction frame and the notices to the head's display in pairing: no theorem here depends on them.
- The namespace failing to open between reading the pair and reading its era: a restore reads all of flash or none.
- HMAC, HKDF and key wrapping failing: only the wrap's failure in a pairing answer is an input.
- Truncation of tags to six bytes: tags of different keys or messages are different.
- `PairingSession.PairingTask.HandlePairReq`: the wrapped bytes of a pairing answer are represented by the key they carry.
- `Crc16.Crc16Ccitt`: the 16-bit shift and XOR are kept, the loop counter is a natural number.
- `OtaPull.OtaUpdater.StartPull`: header lines arrive split into length, digest and other; `parseUrl`, `strtoul` and line reading are inputs.
- `OtaPull.OtaUpdater.PollBody`: the progress bar and its percentages.
- `OtaStaging.OtaTask.HandleUpload`: parsing of the version parameter is an input.
- `OtaDelivery.AnswerIs`: pieces that arrive between a request's last piece and its answer.
- `OtaManifest.BuildManifest`: the text is built as a value, not written through a pointer.
- `MotionPolicy.Coordinator.Loop`: telemetry, expression faces and obstacle edges; the pairing session is taken as attached.
- `CliffReaction.SensorTask.Loop`: obstacle edges and the polling clocks, whose verdict is an input.
- `CliffReaction.PublishedLossBrakes`: events the bus drops when a queue is full.
- `DriveGate.DriveIsGated`: ages count from the tick that drains a command, not from the frame's arrival.
- `LinkSession.ConfirmedPushWasStored`: a portal that asks while an earlier confirmation stands (`credConfirmed_` is not reset by a refused push).
- `OtaLedger.UndisturbedIsWhole`: one way only, since `SameBytesByChance` shows a disturbed commit may have the right bytes; the if-and-only-if is `CommitIsOneUploadIff`.
- Tasks interleaving within a handler or a tick.
- The clients, the build scripts, the display, camera and audio drivers.
