# Carrier: verification of its core algorithms

A Dafny model of the parts of the carrier network library whose correctness rests on
an invariant or an induction, with proofs about every input, run or reachable state.

| files | what they model |
|---|---|
| `FlowMetrics` | the lock-free protocol between callers of `Mark` and the sweeper, as a system of atomic steps |
| `Radix`, `Bits` | positional numbers and bitwise operators, used by the arithmetic below |
| `LimbBytes`, `Scalar` | arithmetic modulo the order of the Ed25519 base point, in 21-bit limbs |
| `SignedWindow`, `ScalarMult` | signed-window recoding and the two scalar multiplications |
| `FieldWords` | the field modulo 2^255-19 in five 64-bit words |
| `FieldLimbs`, `FieldPowers` | the same field in ten limbs, and its two fixed exponentiations |
| `SdpText`, `SdpNumbers`, `SdpFields`, `SdpMessage`, `SdpAccepts`, `SdpDecoder` | the SDP printer and parser, from characters to messages |
| `SdpRoundTrip`, `SdpClean`, `SdpReread`, `SdpPanics` | what becomes of messages and texts that are printed and read again |
| `Identity`, `Dht`, `Closest`, `RoutingTable` | the Kademlia table and its nearest-peer search |
| `Lookup` | the two asynchronous lookups as step systems and as loops |
| `RecvWindow` | the receive window |
| `Framing` | message frames on a byte stream |

Code that updates things in place is modelled by classes and methods with loops, each
proved equal to a function of the old state; the results are proved about those
functions. `dafny verify dfyconfig.toml` checks everything.

Choices of the model:

- Machine integers are unbounded in Dafny. Where the source relies on a width, the
  width is written out: words that wrap in `FlowMetrics`, `FieldWords` and
  `RecvWindow`, preconditions or a 64-bit type that every operation must satisfy in
  `Scalar` and `FieldLimbs`, `int8` in `SignedWindow`, 32-bit words in
  `ScalarMult.SelectPoint`, the 32-bit length field in `Framing`.
- Points of the curve are integer combinations of A and B. What is proved there holds
  in every commutative group. The tables of multiples are taken as their comments
  describe them.
- Code outside the repository is a parameter with a stated premise: compression
  (`Framing.Inverse`), parsing and printing of IP addresses (`SdpFields.Faithful`). Each
  premise has an instance (`Framing.InverseExists`, `SdpFields.FaithfulExists`).
  Answers from the network, chunk sizes, map iteration order and the order a sort
  leaves are parameters over which every result quantifies.
- In `isExpected` the test for optional fields has no effect, as both of its outcomes
  continue the loop; the model follows the code.
- SDP text is a sequence of Unicode characters, which stands for its UTF-8 form.
- The buffered writer of the standard library is modelled by its own loop over a
  connection that takes some number of bytes and then fails.
- Where the code panics the model has that outcome: `RemovePeer`, `FindClosestPeers`,
  `decodeInterval`, `GenCompressInfo` and the sort of `performLookupClosest`.
- The comment of `FeSub` says that the carries ensure that results fit within the
  limbs; this needs room in the limbs of a, as `FieldWords.SubNeedsRoom` shows.

## Model

| member | source | states |
|---|---|---|
| FlowMetrics.NothingLost | metric/go-flow-metrics/sweeper.go:42-133 | From the initial state and under every interleaving of any number of `Mark` calls with the sweeper, each meter satisfies `Conserved` at every point, as long as its marks fit 64 bits: tracked at most once, at most one registration in flight, and accumulator, snapshot total and the sweeper's local value add up to exactly what was marked, separately for every program point of `register` and `update`. |
| FlowMetrics.RestHoldsAllMarks | metric/go-flow-metrics/sweeper.go:71-133 | A meter nobody is working on holds all its marks (in the accumulator if tracked, else in the snapshot with an empty accumulator) if and only if the marks add up to less than 2^64. |
| FlowMetrics.SnapshotsGrow | metric/go-flow-metrics/sweeper.go:76-84 | Between any two points of any run a snapshot total never decreases and never exceeds what was marked. |
| FlowMetrics.PassVisitsAll | metric/go-flow-metrics/sweeper.go:74-132 | When an `update` pass ends, the meters visited are exactly those tracked at its start, each as often as it was tracked, and the meters still tracked are exactly those not dropped, in spite of swap-remove and `i--`. |
| FlowMetrics.PassDrops | metric/go-flow-metrics/sweeper.go:74-132 | For every run that ends a pass, which meters were dropped, from the steps and the marks alone: tracked is, in order, the meters looked at that were not idle, or on which something was marked between the load and the swap and nothing between the swap and the add-back; all others are gone. |
| FlowMetrics.QuietPass | metric/go-flow-metrics/sweeper.go:74-132 | If nothing is marked and every rate test comes out idle, one pass over any number of tracked meters leaves none tracked, with empty accumulators and every mark in the total. |
| FlowMetrics.PassIsFresh | metric/go-flow-metrics/sweeper.go:74-84 | After a pass the snapshot of each of its meters covers everything marked before the pass began. |
| FlowMetrics.StepKeeps | metric/go-flow-metrics/sweeper.go:42-133 | Every single atomic step of any goroutine keeps `Conserved` for every meter whose marks fit 64 bits, including a `Mark` between the swap and the add-back. |
| FlowMetrics.StepKeepsPass | metric/go-flow-metrics/sweeper.go:74-132 | Every step keeps the bookkeeping of the current pass: visited plus still to come is what it started with, visited is kept plus dropped plus the meter in hand. |
| FlowMetrics.SwapRemoveIsRemoval | metric/go-flow-metrics/sweeper.go:127-131 | Overwriting with the last element and cutting the slice removes exactly one occurrence and leaves the visited part alone. |
| FlowMetrics.MarkKeeps | metric/go-flow-metrics/meter.go:27-33 | The atomic add of `Mark` and its decision to register keep `Conserved` on every meter at every point of the sweeper. |
| FlowMetrics.OverflowTracksTwice | metric/go-flow-metrics/meter.go:27-33 | A run in which the marks exceed 2^64 and one meter ends up tracked twice: the premise of the other results is needed. |
| LimbBytes.LoadReads | crypto/ed25519/internal/edwards25519/field.go:12-27 | `load3` and `load4` are the little-endian values of three and four bytes. |
| LimbBytes.Unpack64Value | crypto/ed25519/internal/edwards25519/scalar.go:449-472 | The 24 masked and shifted loads of `ScReduce` split all 512 bits: the limbs stand for the number of the 64 bytes and are short. |
| LimbBytes.Unpack32Value | crypto/ed25519/internal/edwards25519/scalar.go:18-53 | The twelve loads of `ScMulAdd` stand for the number of the 32 bytes. |
| LimbBytes.PackValue | crypto/ed25519/internal/edwards25519/scalar.go:732-763 | The 32 output bytes, glued from shifted limbs, are the little-endian form of the number in the limbs. |
| Scalar.FoldValue | crypto/ed25519/internal/edwards25519/scalar.go:474-480 | Folding limb n down by twelve places with the six constants subtracts an exact multiple of the group order. |
| Scalar.FoldHigh | crypto/ed25519/internal/edwards25519/scalar.go:474-520 | The six high folds change the number by a multiple of the order; every product and sum fits an int64. |
| Scalar.RoundHigh | crypto/ed25519/internal/edwards25519/scalar.go:524-557 | The rounding carries keep the number and leave limbs short enough for the next folds, without overflow. |
| Scalar.FoldMiddle | crypto/ed25519/internal/edwards25519/scalar.go:559-605 | The second six folds clear limbs 12 to 17 modulo the order, without overflow. |
| Scalar.Canonical | crypto/ed25519/internal/edwards25519/scalar.go:645-730 | The last folds and floor carries end in the one representative in [0, l), in 21-bit limbs. |
| Scalar.ScReduce | crypto/ed25519/internal/edwards25519/scalar.go:448-764 | For every 64-byte input the 32 output bytes are the canonical residue modulo l = 2^252 + 27742317777372353535851937790883648493; no int64 operation overflows. |
| Scalar.ConvValue | crypto/ed25519/internal/edwards25519/scalar.go:56-79 | The limb products summed by diagonal stand for the product of the two numbers. |
| Scalar.ProductLimbs | crypto/ed25519/internal/edwards25519/scalar.go:56-79 | Every sum of limb products stays far inside the int64 range. |
| Scalar.RoundProduct | crypto/ed25519/internal/edwards25519/scalar.go:81-150 | The carries over the product limbs keep the number and bring all 24 limbs below 2^33. |
| Scalar.ScMulAdd | crypto/ed25519/internal/edwards25519/scalar.go:17-440 | For all 32-byte a, b and c the output is (ab+c) mod l, with no int64 overflow. |
| SignedWindow.Slide | crypto/ed25519/internal/edwards25519/group.go:229-259 | `slide` leaves in the array exactly the reference recoding of the number: the width-5 signed digits taken off one at a time. All intermediate values fit an int8. |
| SignedWindow.Absorb | crypto/ed25519/internal/edwards25519/group.go:238-257 | From a set bit on, the inner loop with its add, borrow and carry branches turns the bits above into one signed digit and the incremented rest. |
| SignedWindow.CarryOn | crypto/ed25519/internal/edwards25519/group.go:247-253 | The carry loop increments the binary number above, in place. |
| SignedWindow.SlideValue | crypto/ed25519/internal/edwards25519/group.go:229-259 | For every 32-byte scalar: digits are 0 or odd in [-15,15], five neighbours hold at most one non-zero, and the digits stand for the scalar minus 2^256 times the carry `Left`, 0 or 1, that the recoding hands up from the last digit; a[31] <= 127 guarantees that it is 0. |
| SignedWindow.NafValue | crypto/ed25519/internal/edwards25519/group.go:229-259 | The reference recoding is value-preserving up to the carry handed up. |
| SignedWindow.NafSparse | crypto/ed25519/internal/edwards25519/group.go:229-259 | Any five consecutive digits hold at most one that is not zero. |
| SignedWindow.TopBitCanBeLost | crypto/ed25519/internal/edwards25519/group.go:229-259 | For 32 bytes of 255 the carry runs off the end and the 256 digits stand for -1. |
| ScalarMult.GeDoubleScalarMultVartime | crypto/ed25519/internal/edwards25519/group.go:265-314 | In the free group on A and B the result is a*A + b*B for all scalars with the top bit clear, and for all scalars the exact coefficients, less 2^256 where `slide` loses a carry; every table index is in range. |
| ScalarMult.OnesCountAsMinusOne | crypto/ed25519/internal/edwards25519/group.go:265-314 | With 32 bytes of 255 as the first scalar the result is -A + b*B: the premise on the top bit is needed. |
| ScalarMult.DoubleAndAdd | crypto/ed25519/internal/edwards25519/group.go:287-313 | The double-and-add loop from the highest non-zero digit down evaluates both digit rows at once. |
| ScalarMult.TableOfA | crypto/ed25519/internal/edwards25519/group.go:275-283 | The eight cached points are A, 3A, ..., 15A. |
| ScalarMult.TopDigit | crypto/ed25519/internal/edwards25519/group.go:287-291 | The scan for the first non-zero digit drops only zeros. |
| ScalarMult.Equal | crypto/ed25519/internal/edwards25519/group.go:318-322 | The branch-free comparison is 1 exactly for equal words. |
| ScalarMult.Negative | crypto/ed25519/internal/edwards25519/group.go:325-327 | The sign bit. |
| ScalarMult.SelectPoint | crypto/ed25519/internal/edwards25519/group.go:335-348 | For every digit in [-8,8] the branch-free selection returns that multiple of 256^pos times the base point. Each conditional move is taken as what `FieldWords.FeCMove` is proved to do to a coordinate. |
| ScalarMult.Centre | crypto/ed25519/internal/edwards25519/group.go:366-372 | The carry loop gives digits in [-8,8] with the same value, for all nibbles whose top one is below 8. |
| ScalarMult.AlternateValue | crypto/ed25519/internal/edwards25519/group.go:378-399 | Even and odd digits, in base 256, make up the number in base 16. |
| ScalarMult.GeScalarMultBase | crypto/ed25519/internal/edwards25519/group.go:356-400 | For every scalar with a[31] <= 127 the odd pass, the multiplication by 16 and the even pass give a*B. |
| FieldWords.CarryPass | crypto/ed25519/internal/edwards25519/fe_amd64.go:186-195 | The statements of the pass compute `Pass`, which changes the number by a multiple of p and by what overflowing words lose, and leaves the limbs short. |
| FieldWords.TopCarry | crypto/ed25519/internal/edwards25519/fe_amd64.go:200-204 | The trial carry chain with 19 added tells whether the number is at least p. |
| FieldWords.FeReduce | crypto/ed25519/internal/edwards25519/fe_amd64.go:180-218 | For all 64-bit limbs the result is in [0,p) in 51-bit limbs and is the residue of the input if and only if no limb overflows when it takes the carry of the limb below. |
| FieldWords.FeSub | crypto/ed25519/internal/edwards25519/fe_amd64.go:31-55 | For all limbs the exact number the result holds; it is a-b modulo p if and only if limb 0 of a takes 2p without overflow and limbs 1 to 4 overflow exactly where the carries of b do; with room for 2p in a this is that the limbs of b take their carries. |
| FieldWords.SubNeedsRoom | crypto/ed25519/internal/edwards25519/fe_amd64.go:50-54 | An input on which the difference is wrong: a full word in a, with b zero. |
| FieldWords.FeCMove | crypto/ed25519/internal/edwards25519/fe_amd64.go:82-89 | Masking with 0 or all ones and two exclusive-ors keep f or replace it by g, word for word. |
| FieldWords.FromBytesValue | crypto/ed25519/internal/edwards25519/fe_amd64.go:91-131 | The five limbs gathered from 32 bytes stand for the number without its top bit. |
| FieldWords.ToBytesValue | crypto/ed25519/internal/edwards25519/fe_amd64.go:134-178 | The 32 bytes, some shared by two limbs, are the little-endian form of the reduced element. |
| FieldWords.BytesRoundTrip | crypto/ed25519/internal/edwards25519/fe_amd64.go:91-178 | Reading back what was written gives the same limbs. |
| FieldWords.FeToBytes | crypto/ed25519/internal/edwards25519/fe_amd64.go:134-178 | The bytes written are the canonical form modulo p, exactly when the carry chain fits, and are read back as the same number. |
| FieldLimbs.ProductValue | crypto/ed25519/internal/edwards25519/fe.go:366-375 | Schoolbook limbs in the mixed radix 2^25.5, two odd limbs counting double, stand for the product. |
| FieldLimbs.MulLimbsValue | crypto/ed25519/internal/edwards25519/fe.go:366-375 | The ten sums of `FeMul`, with the factors 2 and 19, stand for the product modulo 2^255-19. |
| FieldLimbs.CarryHalves | crypto/ed25519/internal/edwards25519/fe.go:221-259 | The first eight carries keep the number; no operation leaves 64 bits. |
| FieldLimbs.FeCombine | crypto/ed25519/internal/edwards25519/fe.go:211-298 | For all ten sums up to 2^62 the carries change the number by a multiple of p and leave limbs within the documented bounds, without 64-bit overflow. |
| FieldLimbs.FeMul | crypto/ed25519/internal/edwards25519/fe.go:327-376 | Under the documented bounds on both operands the result is the product modulo 2^255-19, within bounds that allow further multiplication. |
| FieldLimbs.Square0 | crypto/ed25519/internal/edwards25519/fe.go:405-405 | The shortened sum of `feSquare` for limb 0 equals the sum of the multiplication; `Square1` to `Square9` say the same of the other limbs. |
| FieldLimbs.FeSquare | crypto/ed25519/internal/edwards25519/fe.go:426-429 | The square modulo 2^255-19, under the same bounds. |
| FieldPowers.SquareTimes | crypto/ed25519/internal/edwards25519/field.go:74-77 | One squaring and n-1 more in place raise to the power 2^n. |
| FieldPowers.Chain | crypto/ed25519/internal/edwards25519/field.go:65-108 | The addition chain reaches the exponents 2^250-1 and 11. |
| FieldPowers.FeInvert | crypto/ed25519/internal/edwards25519/field.go:61-114 | The result is z^(p-2) modulo p, for every element within bounds. |
| FieldPowers.FePow22523 | crypto/ed25519/internal/edwards25519/field.go:116-175 | The result is z^((p-5)/8) modulo p. |
| SdpNumbers.AppendUint | protocols/sdp/fields.go:27-45 | The digits written from the end of a 20-byte buffer are the decimal form of every non-negative int; the buffer is always long enough. |
| SdpNumbers.IntRoundTrip | protocols/sdp/fields.go:15-24 | Every int, of either sign, is parsed back from its printed form. |
| SdpNumbers.ByteRoundTrip | protocols/sdp/decoder.go:377-384 | Every byte is read back by `decodeByte`. |
| SdpNumbers.TimeRoundTrip | protocols/sdp/fields.go:324-338 | A 64-bit time survives conversion to NTP and back if and only if it is not the start of the NTP era, which reads as the zero time. |
| SdpNumbers.NTPCounts | protocols/sdp/fields.go:317-338 | NTP numbers count seconds from 1900, 70 years with 17 leap days before the Unix epoch, for every time in range, and 0 stands for the zero time. |
| SdpNumbers.ByteRead | protocols/sdp/decoder.go:377-388 | Every number written in decimal is read modulo 256 if it fits 16 bits, and refused otherwise. |
| SdpNumbers.IntervalRoundTrip | protocols/sdp/fields.go:414-424 | A printed interval is decoded to itself if and only if it is a whole number of seconds, for every unit and sign. |
| SdpNumbers.UnitsRead | protocols/sdp/decoder.go:675-710 | What each of the four units means in nanoseconds, for all numbers, with 64-bit wrap-around; no unit means seconds. |
| SdpNumbers.IntervalText | protocols/sdp/fields.go:414-424 | The largest unit that divides an interval is printed. |
| SdpNumbers.IntervalCutOff | protocols/sdp/fields.go:423-423 | An interval that is not a whole number of seconds does not come back whichever way its floating-point number of seconds is rounded, so the result does not rest on that rounding. |
| SdpText.AppendSession | protocols/sdp/sdp.go:167-173 | The loop writes type=value and CR LF for each line. |
| SdpText.Scanner.Scan | protocols/sdp/sdp.go:229-251 | On every text the scanner ends; each call yields the next line that is not blank, trimmed, and reports the end exactly when there is none. |
| SdpText.DecodeSession | protocols/sdp/sdp.go:258-280 | The lines decoded up to the first bad one, and whether there was one. |
| SdpText.SessionRoundTrip | protocols/sdp/sdp.go:58-77 | A session is read back from its own text if and only if every type is neither white space nor "=" and every value is non-empty, free of newlines and does not end in white space. |
| SdpText.ScanText | protocols/sdp/sdp.go:229-280 | Every session whose lines are not lost or split is read from its text without an error, with the white space at the end of each value cut off. |
| SdpText.LinesSplit | protocols/sdp/sdp.go:229-251 | The lines of a text are those before a newline and those after it, wherever it is cut. |
| SdpText.TrimIs | protocols/sdp/sdp.go:245-245 | Trimming takes the white space off both ends and nothing else. |
| SdpText.LineRead | protocols/sdp/sdp.go:58-77 | The first equals sign divides a line, only the first character before it counts, a missing one is the replacement character, and a line without the sign or a value is refused. |
| SdpText.DecodedIsClean | protocols/sdp/sdp.go:58-77 | Whatever is decoded consists of such lines. |
| SdpFields.SplitJoin | protocols/sdp/decoder.go:619-641 | Splitting at a delimiter undoes joining, for words without it. |
| SdpFields.SplitSubfields | protocols/sdp/decoder.go:619-641 | The loop returns the parts between single spaces and fails exactly when a part other than the last is empty. |
| SdpFields.SplitKV | protocols/sdp/decoder.go:211-236 | The loop splits at the first colon and fails exactly on a colon with nothing after it. |
| SdpFields.KVRoundTrip | protocols/sdp/fields.go:524-539 | Key and value are read back, with or without a value, if the key has no colon. |
| SdpFields.OriginRoundTrip | protocols/sdp/decoder.go:643-673 | A printed origin is decoded to itself with left-out network and address types filled in. |
| SdpFields.AddressTypeIs | protocols/sdp/fields.go:194-208 | For every address the first dot or colon decides between IP4 and IP6, and without one it is IP4. |
| SdpFields.OriginPrinted | protocols/sdp/fields.go:306-315 | The line of an origin, with IN and the type of the address for types left out. |
| SdpFields.SplitThree | protocols/sdp/decoder.go:400-416 | The loops over the fields of the connection line and over the address return three parts or fail on a fourth. |
| SdpFields.ConnectionRead | protocols/sdp/decoder.go:390-526 | The exact result of decoding printed connection data: refused without an address or for IPv6 with a suffix; otherwise both suffixes or none are kept, and a lone suffix becomes a TTL, in a media section the session's. |
| SdpFields.ConnectionPrinted | protocols/sdp/fields.go:113-121 | The line of connection data, with IN and IP6 or IP4 for types left out and only suffixes that are not 0. |
| SdpFields.BandwidthRoundTrip | protocols/sdp/decoder.go:528-565 | A CT or AS bandwidth of any int is read back. |
| SdpFields.TimingRoundTrip | protocols/sdp/decoder.go:571-607 | Start and end times are read back. |
| SdpFields.DecodeTimingField | protocols/sdp/decoder.go:571-607 | The loop splits at one space and refuses a second. |
| SdpFields.RepeatRead | protocols/sdp/decoder.go:712-745 | A printed repeat line is accepted. |
| SdpFields.AppendZones | protocols/sdp/fields.go:558-567 | The loop joins all adjustments with single spaces. |
| SdpFields.ZonesRoundTrip | protocols/sdp/decoder.go:747-773 | Any number of time-zone adjustments with whole-second offsets is read back. |
| SdpFields.MediaRead | protocols/sdp/decoder.go:775-807 | A printed media description is decoded to itself, except that an empty list of formats becomes one empty format. |
| SdpDecoder.AppendMessage | protocols/sdp/encoder.go:17-71 | The printer, with its loops over bandwidths, time descriptions, attributes and media, emits exactly the lines of `Append`. |
| SdpDecoder.AddAttributes | protocols/sdp/encoder.go:3-12 | Flags and key-value attributes, in order. |
| SdpDecoder.Decoder.Next | protocols/sdp/decoder.go:43-52 | The decoder moves by one line, or reports the end. |
| SdpDecoder.Decoder.Field | protocols/sdp/decoder.go:809-846 | Each line type changes exactly its field of the message or of the current media, or fails. |
| SdpDecoder.Decoder.DecodeTiming | protocols/sdp/decoder.go:238-263 | The time section, with its step back, computes `TimeLoop`. |
| SdpDecoder.Decoder.DecodeMediaSection | protocols/sdp/decoder.go:265-289 | The media section, with its step back at the next media line, computes `MediaLoop`. |
| SdpDecoder.Decoder.Decode | protocols/sdp/decoder.go:852-906 | The whole decoder, with nested sections and saved positions, computes `Decode`; it ends on every session. |
| SdpMessage.ExpectedIsKnown | protocols/sdp/decoder.go:129-169 | No unknown type is ever expected, so every expected line has a field decoder. |
| SdpMessage.ExpectedWhere | protocols/sdp/decoder.go:129-169 | Exactly which types are expected at each position of each section, without the recursion. |
| SdpReread.UnknownIgnored | protocols/sdp/decoder.go:852-901 | Lines of unknown types, any number of them anywhere, do not change what is decoded. |
| SdpAccepts.EveryValue | protocols/sdp/decoder.go:619-641 | Every value is words joined by single spaces, so that the next results cover all values. |
| SdpAccepts.OriginAccepts | protocols/sdp/decoder.go:643-673 | An origin is accepted if and only if it is six words, none but the last empty, with two integers; and what is read. |
| SdpAccepts.TimingAccepts | protocols/sdp/decoder.go:571-607 | A time description is accepted if and only if it is two NTP numbers. |
| SdpAccepts.RepeatAccepts | protocols/sdp/decoder.go:712-745 | Repeat times are accepted if and only if they are three or more intervals. |
| SdpAccepts.ZonesAccept | protocols/sdp/decoder.go:747-773 | Time zones are accepted if and only if they are pairs of a time and an interval. |
| SdpAccepts.MediaAccepts | protocols/sdp/decoder.go:775-807 | A media description is accepted if and only if it has three words and readable ports; and what is read. |
| SdpAccepts.ConnectionAccepts | protocols/sdp/decoder.go:390-526 | Connection data are accepted if and only if they are three words with nothing after them and an address with the suffixes its kind may have. |
| SdpAccepts.BandwidthAccepts | protocols/sdp/decoder.go:528-569 | A bandwidth is accepted if and only if its type is CT or AS and its value is an integer. |
| SdpAccepts.IntervalAccepts | protocols/sdp/decoder.go:675-710 | An interval is accepted if and only if it is 0 or an integer, with or without one of the four units. |
| SdpRoundTrip.SessionField | protocols/sdp/decoder.go:129-169 | A session line whose place in the ordering table is at or after the position is accepted, decoded, and the position moves on. |
| SdpRoundTrip.AfterTime | protocols/sdp/decoder.go:77-97 | After a time line the tables accept key, attribute and media lines and refuse a second time line and a time-zone line. |
| SdpRoundTrip.TimeReads | protocols/sdp/decoder.go:238-263 | A time description with its repeat line is read, without the repeat times, unless a time or time-zone line follows. |
| SdpRoundTrip.MediaSection | protocols/sdp/decoder.go:265-289 | A printed media section is read back as a whole, with any number of bandwidths and attributes, up to the next one. |
| SdpRoundTrip.SessionMedias | protocols/sdp/decoder.go:874-881 | Any number of media sections in a row. |
| SdpRoundTrip.DecodeAppend | protocols/sdp/decoder.go:852-901 | For every message of well-formed fields, every map order and any number of attributes, bandwidths and media, the exact result of decoding what was printed. |
| SdpRoundTrip.MessageRoundTrip | protocols/sdp/encoder.go:17-71 | Such a message is given back, with left-out types filled in, if and only if it is `Supported`: at most one time description, without repeat times and not together with time zones, connection data that is preserved, and formats in every media section. |
| SdpRoundTrip.RepeatsAreLost | protocols/sdp/decoder.go:730-744 | Whatever lines are decoded, no resulting time description has repeat times: they are stored in a copy. |
| SdpReread.Reread | protocols/sdp/sdp_fuzz.go:16-50 | What the fuzz target asserts, for every text that decodes to a message: the printed message is scanned without an error, and its lines come back the same if and only if every media section has a format. The target panics on all other texts. |
| SdpReread.RereadFails | protocols/sdp/sdp_fuzz.go:42-47 | A text on which it does: with the media line "audio 9 RTP" the message is printed with a space at the end of that line. |
| SdpReread.DecodedMessageIsClean | protocols/sdp/decoder.go:852-901 | Every message decoded from scanned lines has only fields without newlines and white space at the end of a line: an invariant of the nested section loops. |
| SdpClean.MessagePrinted | protocols/sdp/encoder.go:17-71 | Every line printed for a message of such fields is clean, but for the first line of media sections. |
| SdpClean.DescriptionLine | protocols/sdp/fields.go:498-515 | That line is clean exactly if there are formats; without any it ends in a space and is scanned without it. |
| SdpReread.DecodeText | protocols/sdp/decoder.go:852-901 | The exact result of decoding the text of every message of well-formed fields without newlines and white space at the end: as from the lines, but a media section without formats stays without formats. |
| SdpReread.TextRoundTrip | protocols/sdp/encoder.go:17-71 | Through text such a message is given back, with left-out types filled in, if and only if its times and connection data are preserved. |
| SdpReread.DecodeAlike | protocols/sdp/decoder.go:852-901 | Sessions that differ only in empty formats of media lines are decoded to messages that differ only in those formats. |
| SdpPanics.TextNeverPanics | protocols/sdp/decoder.go:675-697 | Decoding never panics on the lines scanned from any text. |
| SdpPanics.FieldPanics | protocols/sdp/decoder.go:675-697 | On lines made otherwise, decoding a line panics if and only if it is a repeat or time-zone line that ends in a space and whose other parts are read, the former after a time line. |
| SdpPanics.PanicsOnLines | protocols/sdp/decoder.go:685-685 | A session of one line that makes it panic. |
| Identity.XorID | peer/identity.go:59-66 | The loop fills the result with the bytewise XOR, and zeros where the other key is shorter. |
| Identity.PrefixLenMeans | peer/identity.go:69-76 | For every non-empty key: the position of the first set bit, or the last position if there is none. |
| Identity.LessAt | peer/identity.go:36-41 | Keys of equal length compare as their first different bits do. |
| Identity.CloserAt | peer/identity.go:59-66 | Of two keys the one that agrees with the target at the first bit where they differ is nearer. |
| Identity.CloserTotal | peer/identity.go:36-41 | Nearness to a target is a strict total order on keys. |
| Dht.NoDuplicates | dht/routes.go:59-89 | In a sound table equal keys are at the same place: no peer occurs twice anywhere. |
| Dht.UpdatedSound | dht/routes.go:59-89 | `Update` keeps every peer in the bucket of its prefix length, once, with at most 17 in a bucket. |
| Dht.StoredWhen | dht/routes.go:77-82 | A peer that is not in the table is stored if and only if its key has the length of the node's and fewer than 17 peers share its bucket. |
| Dht.RemovedSound | dht/routes.go:136-154 | `RemovePeer` keeps the table sound, and dereferences nil if and only if the key of the target is empty or extends the node's own key. |
| Dht.RemovedFound | dht/routes.go:136-154 | Where it does not panic, `RemovePeer` reports whether a peer with that key was in the table. |
| Dht.ExistsIsMembership | dht/routes.go:157-174 | `PeerExists` agrees with membership in the whole table, for targets of any length. |
| Dht.RunIsRecentFirst | dht/routes.go:68-88 | After any sequence of updates and removals each bucket is in the order of the last update, most recent first. |
| Dht.RunIsMembers | dht/routes.go:59-154 | After any such sequence the table holds exactly the members of a plain set that takes in a new peer while fewer than 17 share its bucket. |
| Closest.ByBucket | dht/routes.go:182-211 | Between two buckets one bit decides: peers of the lower bucket are nearer exactly when the target leaves the node's prefix at that bit. |
| Closest.ClosestOfWindow | dht/routes.go:177-225 | The result is sorted, free of duplicates, has min(count, table size) peers, and is the nearest of the buckets visited. |
| Closest.ResultByTiers | dht/routes.go:177-225 | Peers of the target's own bucket precede those of higher buckets, which precede those of lower buckets. |
| Closest.ExactWhen | dht/routes.go:193-211 | The result is the count-nearest of the whole table if and only if no peer sits above the window visited or the window holds count peers in the target's own bucket and in those higher buckets at whose bit the target differs from the node. |
| Closest.OwnBucketIsEnough | dht/routes.go:177-225 | In particular it is exact if the own bucket holds count peers or the target is the node itself. |
| Closest.MissesNearest | dht/routes.go:193-211 | A table where the search returns a peer although a nearer one is known. |
| RoutingTable.RoutingTable.constructor | dht/routes.go:39-51 | A table of empty buckets that then holds the node itself, in the last bucket. |
| RoutingTable.RoutingTable.Update | dht/routes.go:59-89 | In place: push to the front, move to the front, or nothing if full or of another length. |
| RoutingTable.RoutingTable.RemovePeer | dht/routes.go:136-154 | In place: the peer is taken out, or nothing changes; found is true exactly if a peer with that key was in the table. |
| RoutingTable.RoutingTable.PeerExists | dht/routes.go:157-174 | True exactly when a peer with that key is in the table. |
| RoutingTable.RoutingTable.FindClosestPeers | dht/routes.go:177-225 | The widening loop, sort and cut compute `FoundClosest`; a negative count panics exactly for keys of the node's length. |
| Lookup.LookupRun | network/components/discovery/rpc.go:164-208 | In every run of `performLookup`, for every order of answers: pending is the number of outstanding queries and at most alpha, nobody is asked twice, the results are the peers asked first and those newly visited, each once, at most initial queries plus unvisited peers answers are received, and after every answer all newly named peers were asked, or the first of them in order with alpha queries out. |
| Lookup.ReceivedIs | network/components/discovery/rpc.go:181-205 | The exact state after one answer: what is new is visited and appended to the results, and as many of it as there is room for are asked, in order. |
| Lookup.ResultsAre | network/components/discovery/rpc.go:164-208 | The results of every run, exactly and in order: the peers asked first, then those named by the answers that were not visited, each at its first mention. |
| Lookup.RoomAsksAll | network/components/discovery/rpc.go:164-208 | If alpha has room for the queue and all unvisited peers, every peer that is ever named and was not visited is asked. |
| Lookup.ReceivedKeeps | network/components/discovery/rpc.go:181-205 | Each round keeps this and makes unvisited peers plus outstanding queries smaller. |
| Lookup.LookupClosestRun | network/components/discovery/rpc.go:73-131 | The same bounds for `performLookupClosest`, however its queue is sorted: the results are, in order, all named peers that were not asked first, the queue has at most 16 peers after an answer, and then alpha queries are out or everybody in the queue is visited; if the initial queue has at most alpha peers the queue is never longer than the results when it is sorted. |
| Lookup.ReceivedClosestIs | network/components/discovery/rpc.go:86-128 | The exact state after one answer: the results grow by the peers not asked first, the queue is the first 16 of the sorted one, and its unvisited peers are asked in order while there is room. |
| Lookup.SortSafeIff | network/components/discovery/rpc.go:109-114 | For alpha > 0, in every run the comparison of the sort, which looks up positions of the queue in the results, finds them, if and only if the initial queue has at most alpha peers, or one more and no reply can name a peer beyond the first alpha. |
| Lookup.NobodyAskedTwice | network/components/discovery/rpc.go:224-261 | In all the lookups `FindNode` starts, one after the other on one map of visited peers, nobody is asked twice, if their shares of the nearest peers are disjoint and were marked visited first. |
| Lookup.LookupBucket.PerformLookup | network/components/discovery/rpc.go:164-208 | The loops, given the answers as they arrive, go through exactly the states of the step system and end with no query outstanding. |
| Lookup.LookupBucket.PerformLookupClosest | network/components/discovery/rpc.go:73-131 | Likewise, with the queue left in any order by each sort, for initial queues of any length; it panics exactly when some sort looks beyond the results, and never if the queue has at most alpha peers. |
| RecvWindow.InOrder | network/recv_window.go:40-78 | For every run of pushes and pops with distinct nonces inside the window, all pops together are the messages in nonce order from the first pushed, without gap or repetition, and a pop stops only at a message that has not come; nonces are 64-bit words, or any numbers if the size divides 2^64. |
| RecvWindow.RangedDelivers | network/recv_window.go:58-78 | The loop hands out the messages up to the first gap, from any point of it, although the nonce is known only modulo the size and is left alone when the buffer was full. |
| RecvWindow.PushKeeps | network/recv_window.go:40-47 | A push inside the window puts the message where a pop will look for it. |
| RecvWindow.PopKeeps | network/recv_window.go:50-54 | A pop delivers up to the first missing message and keeps the invariant. |
| RecvWindow.AliasedPush | network/recv_window.go:45-45 | A message pushed outside the window is taken for one inside it: the premise is needed. |
| RecvWindow.WrapOverwrites | network/recv_window.go:45-45 | With a size that does not divide 2^64, two messages of one window can share a slot. |
| RecvWindow.RecvWindow.Push | network/recv_window.go:40-47 | In place: the first push sets the expected nonce, every push sets the slot, and a nil value empties it. |
| RecvWindow.RecvWindow.Range | network/recv_window.go:58-78 | In place: the longest run of slots the callback accepts, emptied, for every callback. |
| RecvWindow.RecvWindow.Pop | network/recv_window.go:50-54 | `Range` while the slot is filled. |
| Framing.FrameBytes | network/stream.go:141-163 | The bytes of a frame for all settings and bodies, in numbers: compression from the threshold on, gzip, zlib and lzw for algorithms 2, 3 and 4, the plain body for 0 and 1, a failure from 5 on, a panic from 256 on, and the big-endian header fields with algorithm + 256 for a compressed body. |
| Framing.ParseBytes | network/stream.go:215-284 | What the receiver makes of any bytes, in numbers: which algorithm bytes 4 and 5 select, the length of bytes 6 to 9, and every way to fail. |
| Framing.InfoRoundTrip | network/compress.go:41-69 | The receiver reads algorithm and enable flag as the sender packed them. |
| Framing.WireRoundTrip | network/compress.go:71-104 | Uncompressing as the header says undoes the sender's compression, for every algorithm the sender accepts. |
| Framing.FrameRoundTrip | network/stream.go:147-163 | A frame followed by any bytes is read back as its body with those bytes left, if and only if the network IDs agree, the body on the wire is between 1 and 2^32-1 bytes long, and its last byte does not arrive together with the error. |
| Framing.CutFrame | network/stream.go:215-277 | A frame cut off at any byte, or completed by a read that also reports an error, is not taken for a message. |
| Framing.StreamRoundTrip | network/stream.go:215-297 | Any sequence of frames, from senders with any compression settings, is read back in order. |
| Framing.CutStream | network/stream.go:215-297 | A stream of frames cut after any number of bytes gives exactly the messages whose frames came through whole, in order, and then only errors. |
| Framing.Conn.Read | network/stream.go:224-225 | A connection that delivers any chunks and then an error, either after the last chunk or together with it: each read takes some of the first chunk. |
| Framing.ReadFull | network/stream.go:223-232 | The read loop and the test after it succeed exactly when enough bytes come and the read that completes the field reports no error, whatever the chunks, and take no more. |
| Framing.RefusesCompleteFrame | network/stream.go:223-232 | A complete frame that arrives in one chunk together with the error is refused. |
| Framing.ReceiveMessage | network/stream.go:215-297 | The four read loops and checks compute `Parse` of the bytes to come, independent of their chunks. |
| Framing.ReceiveSent | network/stream.go:215-297 | For every chunking of the frames the receiver gets the bodies back, all but the last one if its last byte comes with the error. |
| Framing.SendMessage | network/stream.go:147-212 | It succeeds if and only if the message can be framed and the connection takes what is still buffered and the frame without an error; then exactly these bytes are on the connection, and otherwise as many of them as it had room for. |
| Framing.Writer.Write | network/stream.go:181-181 | A write through the buffer, for every buffer size: the bytes go to the connection in order, or it has failed after all it had room for. |
| Framing.SendMany | network/stream.go:130-212 | Messages sent one after the other: how many are sent, and the bytes on the connection, for any room. |
| Framing.Transfer | network/stream.go:130-297 | From sender to receiver, however bytes are buffered, cut short and chunked: the receiver gets in order exactly the messages whose frames came through whole, which are those the sender saw sent when no error comes together with a byte. |

## Left out

- Sockets, TLS, QUIC, KCP and UDP transports, builder, monitor, SOCKS and UPnP: plumbing around unseen libraries.
- The Edwards addition formulas, point decompression, SHA-512, BLAKE2b and the numeric tables.
- `FeMul` and `FeSquare` on amd64 are assembly; the portable versions are modelled.
- Fermat's little theorem and the primality of p: the exponentiations are stated as powers.
- Rates, the moving average and the idle threshold of the sweeper: whether a meter is idle is decided arbitrarily at each visit. The order of the registration channel is not modelled.
- The goroutine that sends a registration is merged with the atomic add that causes it; until the sweeper receives it, it counts as in flight.
- `SetLocalNonce` and `LocalNonce` of the receive window.
- RecvWindow.InOrder: runs push values; a push of nil is modelled as a single step only.
- Write deadlines and statistics in `sendMessage`; marshalling and the header checks after unmarshalling in `receiveMessage`; `streamSendMessage`, which frames in the same way.
- SdpText.SessionRoundTrip: byte strings that are not valid UTF-8 and the reuse of line buffers are not modelled.
- SdpNumbers.IntervalRoundTrip: the digits printed for parts of a second are those of exact truncation, where the source goes through a floating-point number.
- ScalarMult.SelectPoint: points have no coordinates in the model, so the masking of a conditional move is proved for field elements only.
- Sub-second parts of times, and time zones of `time.Time`.
- The wording and nesting of decoding errors, and what a failed decoding leaves in the message.
- `GetPeers`, `GetPeerAddresses` and `GetRandomPeers`; locks of the routing table.
- Closest.ClosestOfWindow: the library's sort is modelled by insertion, as no two peers are at the same distance the order it leaves is the only one.
- The effects of a lookup on the routing table, how `FindNode` deals out and finally sorts peers, and timeouts of queries, which appear as empty answers.
- Component lists, opcodes, caches, address parsing, back-off, acknowledgements and keep-alives.
