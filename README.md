# A verified model of the at9 ATRAC9 decoder

This project models the core of `at9`, a TypeScript decoder for Sony's ATRAC9 audio codec. It
also covers the container code that feeds the decoder. The model is written in Dafny and its
properties are proved by Dafny's verifier. It follows the TypeScript module by module:

- **Integer semantics.**
  - `JsInt`: JavaScript's int32 semantics, which are the coercions, shifts, bitwise operators
    and the wrapping stores of typed arrays.
  - `Bit`: the decoder's bit helpers, which are 32-bit and k-bit reversal and sign extension.
- **Bit cursor.** `BitStream` and `BitReading` model the MSB-first bit reader: its peeks, fast
  paths and fallback, signed and offset-binary reads, alignment, and zero padding past the end.
- **Configuration.** `Config`, `ChannelConfigs` and `Tables` cover three things:
  - the four-byte configuration descriptor and the frame and superframe geometry derived from
    it;
  - the block layout of each channel configuration;
  - the constant tables.
- **Decode state.** `DecodeState` holds the frame, its blocks and their channels as classes
  whose fields the stages update in place.
- **Block grammar.** The bitstream grammar is modelled in `Unpack`, `UnpackHuffman`,
  `Spectra`, `ScaleFactors`, `BitAllocation`, `BlockUnpacking` and `FrameUnpacking`, with the
  Huffman lookup tables in `Huffman`. Each stage is specified by a function of the bit string
  and the old state, and the method that reads it through the bit reader is proved against that
  function. This covers the following, error cases included:
  - the block header, band, gradient, stereo and band-extension parameters;
  - scale factors in their four modes;
  - bit allocation;
  - Huffman and fixed-width coefficients;
  - the LFE block.
- **Spectral stages.** `Quantization`, `Stereo`, `BandExtension` and `NoiseGenerator` cover
  dequantization and scaling, intensity stereo, band extension and its noise generator. The
  samples are `real` numbers. The claims are about which bins each stage writes, copies,
  negates, mirrors, fills with noise or leaves alone.
- **Inverse MDCT.** `Mdct` and `Overlap` model the inverse MDCT:
  - the shared tables, with the shuffle table as a bit-reversed Gray code and a permutation;
  - the DCT-IV's stages and buffer bookkeeping;
  - the windowed overlap-add with the history kept between frames.
- **Decoder.** `Decoding`, `DecoderStates`, `Atrac9Decoders`, `Superframes` and `PcmOutput`
  model the `Atrac9Decoder` object:
  - `initialize`;
  - the buffer validation of `decode`;
  - the order of the stages in a frame;
  - the frames of a superframe;
  - the 16-bit output window that each frame fills.
- **Container code.**
  - `BinaryReading`: the little-endian byte reader and its `deInterleave`.
  - `At9Data`: the superframe split of the `data` chunk.
  - `Riff` and `RiffChunks`: the RIFF sub-chunk walk.
  - `Atrac9Formats`: `copyBuffer` and the `decode` loop that trims the encoder delay.
  - `ArrayUnpacking`: the grammar of the packed arrays the runtime tables are stored in.
  - `AudioTracks` and `Helpers`: the default track list, clamping and nested-array allocation.

Typed arrays keep their storage semantics:
- `Int8Array` stores truncate and wrap.
- `Int32Array` and `Uint16Array` stores wrap.
- Writes past the end of a typed array are dropped.

Mono blocks leave `PrimaryChannelIndex` and `StereoQuantizationUnit` undefined. The model
writes them as `Option` values and follows what `undefined` does in the source.

## Model

| member | source | states |
|---|---|---|
| Helpers.Clamp16 | src/utilities/Helpers.ts:18-22 | the result lies in [-32768, 32767]; values above become 32767, values below become -32768, values inside are returned unchanged |
| Helpers.Clamp | src/utilities/Helpers.ts:24-31 | below `min` gives `min`, above `max` (and not below `min`) gives `max`, inside gives the value; with a non-empty range the result lies in it |
| Helpers.ClampIdempotent | src/utilities/Helpers.ts:24-31 | clamping an already clamped value changes nothing |
| Helpers.Clamp16IsClamp | src/utilities/Helpers.ts:18-31 | `Clamp16` is `Clamp` to the signed 16-bit range |
| Helpers.CreateJaggedArray | src/utilities/Helpers.ts:2-4 | the nested array has length `lengths[d]` at every depth d and zero-filled leaves |
| Helpers.InitializeJaggedArray | src/utilities/Helpers.ts:6-16 | the level built from `index` has the shape of `lengths[index..]`: a typed array at the last level, one recursive sub-array per element otherwise |
| AudioTracks.NewAudioTrack | src/utilities/AudioTrack.ts:9-17 | every field is the argument given, and surround panning and flags are 0 |
| AudioTracks.TrackCount | src/utilities/AudioTrack.ts:20 | for a positive channel count the track count c satisfies 2c-1 <= channels <= 2c (the ceiling of half); no tracks otherwise |
| AudioTracks.GetDefaultTrackList | src/utilities/AudioTrack.ts:19-33 | one track per pair of channels; track i has `min(channels-2i, 2)` channels, left channel 2i, right channel 2i+1 when stereo and 0 when mono, no panning or volume |
| AudioTracks.DefaultTrackChannels | src/utilities/AudioTrack.ts:19-33 | every default track is stereo except the last one of an odd channel count, which is mono |
| AudioTracks.DefaultTracksSum | src/utilities/AudioTrack.ts:19-33 | the first j default tracks hold 2j channels, and all of them hold every channel |
| AudioTracks.DefaultTracksCover | src/utilities/AudioTrack.ts:19-33 | the channel counts of the default tracks add up to the channel count of the stream |
| AudioTracks.DefaultTracksPlaceChannel | src/utilities/AudioTrack.ts:19-33 | channel k is the left channel of track k/2 when k is even and its right channel when k is odd, and no other track names it |
| Bit.Reverse | src/utilities/Bit.ts:10-12 | the reference k-bit reversal is below 2^k |
| Bit.SignExtendField | src/utilities/Bit.ts:18-21 | `signExtend32` of a b-bit field is its two's-complement value: v if v < 2^(b-1), v - 2^b otherwise |
| Bit.SignExtendRange | src/utilities/Bit.ts:18-21 | whatever the input, `signExtend32(v, b)` lies in [-2^(b-1), 2^(b-1)) |
| Bit.SarExact | src/utilities/Bit.ts:20 | an arithmetic right shift `>>` of a signed 32-bit value by s < 32 is floor division by 2^s |
| Bit.BitReverse32Bit | src/utilities/Bit.ts:2-8 | bit j of `bitReverse32(v)` is bit 31-j of v, for every j < 32 |
| Bit.BitReverse32Sign | src/utilities/Bit.ts:7 | the result of `bitReverse32` is a signed 32-bit value, negative exactly when bit 0 of the input is set |
| Bit.SignBit | src/utilities/Bit.ts:7 | a signed 32-bit value is negative exactly when its bit 31 is set |
| Bit.ReverseInvolution | src/utilities/Bit.ts:10-12 | the reference k-bit reversal is an involution on [0, 2^k) |
| Bit.BitReverseWithBitCountIsReverse | src/utilities/Bit.ts:10-12 | for v < 2^k and k <= 32, `bitReverse32WithBitCount(v, k)` is the k-bit reversal of v |
| Bit.ReversedShift | src/utilities/Bit.ts:11 | shifting the 32-bit reversal of a k-bit value down by 32-k with `>>>` leaves its k-bit reversal |
| Bit.BitReverseWithBitCountInvolution | src/utilities/Bit.ts:10-12 | on [0, 2^k), `bitReverse32WithBitCount(., k)` stays in [0, 2^k) and applied twice gives the input back |
| BitStream.ByteAt | src/utilities/BitReader.ts:70 | a byte inside the buffer is that byte (reads past the end are 0, as an out-of-range typed-array read coerced by `<<` or `&`) |
| BitStream.StreamBits | src/utilities/BitReader.ts:19-23 | the bit string of a buffer has 8 bits per byte, most significant first |
| BitStream.ValueSplit | src/utilities/BitReader.ts:99-112 | reading a + b bits is reading a bits, shifted up by b, plus the next b bits |
| BitStream.ValuePastEnd | src/utilities/BitReader.ts:60 | every read at or past the end of the bits is 0 |
| BitStream.ZeroPadding | src/utilities/BitReader.ts:59-64 | a read that overruns the end is the bits that are present, shifted up by the missing count |
| BitStream.Bytes16 | src/utilities/BitReader.ts:70 | 16 bits from a byte boundary are the two bytes, big-endian |
| BitStream.Bytes24 | src/utilities/BitReader.ts:77 | 24 bits from a byte boundary are the three bytes, big-endian |
| BitStream.Bytes32 | src/utilities/BitReader.ts:84 | 32 bits from a byte boundary are the four bytes, big-endian |
| BitReading.BufferLength | src/utilities/BitReader.ts:21 | `lengthBits` is 8 bits per byte of the buffer, and 0 without a buffer |
| BitReading.AlignUp | src/utilities/BitReader.ts:52-54 | the aligned position is a multiple of `multiple`, not before the position and less than one multiple after it |
| BitReading.BitReader.constructor | src/utilities/BitReader.ts:12-17 | the reader holds the buffer at position 0, and its bit string is the buffer's bits (empty without a buffer) |
| BitReading.BitReader.SetBuffer | src/utilities/BitReader.ts:19-23 | the buffer is replaced, the position reset to 0 and the bit string is the new buffer's |
| BitReading.BitReader.PeekInt | src/utilities/BitReader.ts:56-91 | the peek is `PeekValue`: the n bits zero-padded and wrapped to 32 bits, except an overrun of 32 bits or more (shift count taken modulo 32) and the four-byte fast path, which keeps the bits of the first byte before the position |
| BitReading.BitReader.PeekTwoBytes | src/utilities/BitReader.ts:69-74 | with at most 9 bits asked and 16 left, the result is exactly the n bits at the position |
| BitReading.BitReader.PeekThreeBytes | src/utilities/BitReader.ts:76-81 | with at most 17 bits asked and 24 left, the result is exactly the n bits at the position |
| BitReading.BitReader.PeekFourBytes | src/utilities/BitReader.ts:83-88 | with 18 to 25 bits asked and 32 left, the result is the signed value of the bits from the start of the byte of the position: the mask `0xFFFFFFFF >> bitIndex` is -1 and clears nothing |
| BitReading.BitReader.PeekIntFallback | src/utilities/BitReader.ts:93-114 | the loop returns the n bits at the position (zero past the end) wrapped to 32 bits |
| BitReading.TakeBits | src/utilities/BitReader.ts:105-109 | one step of the fallback loop appends the next bits of the current byte below the value read so far |
| BitReading.BitReader.ReadInt | src/utilities/BitReader.ts:29-33 | returns the peek at the old position and advances by the count; buffer and bits unchanged |
| BitReading.BitReader.ReadSignedInt | src/utilities/BitReader.ts:35-39 | returns `signExtend32` of the peek and advances by the count |
| BitReading.BitReader.ReadBool | src/utilities/BitReader.ts:41-43 | true exactly when the bit at the old position is set; advances by one |
| BitReading.BitReader.ReadOffsetBinary | src/utilities/BitReader.ts:45-50 | returns the peek less `(1 << (n-1)) - bias` and advances by the count |
| BitReading.BitReader.AlignPosition | src/utilities/BitReader.ts:52-54 | the position becomes the next multiple at or after it; buffer and bits unchanged |
| BitReading.EncodesUnique | src/utilities/BitReader.ts:19-23 | the bit string a reader carries is determined by its buffer |
| BitReading.PeekBits | src/utilities/BitReader.ts:56-81 | every peek of at most 17 bits is exactly the bits at the position, zero-padded past the end |
| BitReading.PeekPastEnd | src/utilities/BitReader.ts:57-60 | at or past the end, and so always without a buffer, a peek is 0 |
| BitReading.PeekExact | src/utilities/BitReader.ts:56-91 | off the four-byte fast path, a peek of up to 32 bits is the bits wrapped to 32 bits |
| BitReading.PeekSigned | src/utilities/BitReader.ts:35-39 | a signed read of 1 to 32 bits is the two's-complement value of the bits on every path, the four-byte fast path included |
| BitReading.OffsetBinaryRange | src/utilities/BitReader.ts:45-50 | an offset-binary read of n <= 17 bits is the bits less 2^(n-1) plus the bias, and lies in [-2^(n-1)+bias, 2^(n-1)+bias) |
| BitReading.AlignIdempotent | src/utilities/BitReader.ts:52-54 | aligning twice is aligning once |
| BitReading.AlignedFixed | src/utilities/BitReader.ts:52-54 | an aligned position stays where it is |
| BinaryReading.LittleEndian | src/utilities/BinaryReader.ts:24 | the little-endian value of n bytes is below 2^(8n) |
| BinaryReading.LittleEndianBytes | src/utilities/BinaryReader.ts:24 | the little-endian encoding of a number into n bytes has n bytes |
| BinaryReading.LittleEndianRoundTrip | src/utilities/BinaryReader.ts:24 | encoding a number that fits in n bytes and reading it back gives the number |
| BinaryReading.LittleEndianBytesRoundTrip | src/utilities/BinaryReader.ts:24 | reading n bytes as a number and encoding it back gives the bytes |
| BinaryReading.Signed | src/utilities/BinaryReader.ts:30 | the two's-complement reading of a b-bit value lies in [-2^(b-1), 2^(b-1)) and is the value or the value less 2^b |
| BinaryReading.Unsigned | src/utilities/BinaryReader.ts:24 | the n bytes at a position read as a number below 2^(8n) |
| BinaryReading.Unsigned16 | src/utilities/BinaryReader.ts:24 | `getUint16(pos, true)` is the first byte plus 256 times the second |
| BinaryReading.Unsigned32 | src/utilities/BinaryReader.ts:36 | `getUint32(pos, true)` is the four bytes weighted 1, 2^8, 2^16, 2^24 |
| BinaryReading.BinaryReader.constructor | src/utilities/BinaryReader.ts:5-9 | the reader holds the buffer with the cursor at 0 |
| BinaryReading.BinaryReader.Length | src/utilities/BinaryReader.ts:8 | `length` is the byte length of the buffer |
| BinaryReading.BinaryReader.ReadUnsigned | src/utilities/BinaryReader.ts:17-39 | inside the buffer, the n bytes at the cursor as an unsigned number with the cursor advanced by n; outside it, a range failure (the `RangeError` of `DataView`) with the cursor kept |
| BinaryReading.BinaryReader.ReadUInt8 | src/utilities/BinaryReader.ts:17-21 | the byte at the cursor, the cursor advanced by one; a range failure past the end |
| BinaryReading.BinaryReader.ReadUInt16 | src/utilities/BinaryReader.ts:23-27 | two bytes little-endian, the cursor advanced by two; a range failure past the end |
| BinaryReading.BinaryReader.ReadInt16 | src/utilities/BinaryReader.ts:29-33 | a value in [-2^15, 2^15) whose 16-bit pattern is the two bytes little-endian; cursor advanced by two |
| BinaryReading.BinaryReader.ReadUInt32 | src/utilities/BinaryReader.ts:35-39 | four bytes little-endian, the cursor advanced by four; a range failure past the end |
| BinaryReading.BinaryReader.ReadInt32 | src/utilities/BinaryReader.ts:41-45 | a signed 32-bit value whose 32-bit pattern is the four bytes little-endian; cursor advanced by four |
| BinaryReading.BinaryReader.ReadBytes | src/utilities/BinaryReader.ts:47-51 | the `length` bytes at the cursor and the cursor advanced past them; a negative length or a range past the end fails with the cursor kept |
| BinaryReading.BinaryReader.DeInterleave | src/utilities/BinaryReader.ts:53-87 | a length not divisible by the output count throws; otherwise it succeeds exactly when the `length` bytes are inside the buffer, the cursor advances by `length`, and output o holds byte k of its share from the offset `DealtOffset` gives (one interleave block to each output in turn) |
| BinaryReading.BinaryReader.DealBlock | src/utilities/BinaryReader.ts:71-84 | one pass of the outer loop: every output receives its interleave block b read in turn from the cursor, and every share is dealt up to the block's end; a failure means the dealt range leaves the buffer |
| BinaryReading.BlockSize | src/utilities/BinaryReader.ts:63-66 | interleave block b of a share is full-sized except perhaps the last, which ends at the end of the share |
| BinaryReading.CeilDiv | src/utilities/BinaryReader.ts:63 | `Math.ceil(x / d)` blocks of d cover x, and one block fewer does not |
| BinaryReading.LastBlock | src/utilities/BinaryReader.ts:71 | once every block is read, the whole share is dealt |
| BinaryReading.DealtOffsetsDistinct | src/utilities/BinaryReader.ts:53-87 | no input byte is dealt twice and none lands outside the `length` bytes read |
| BinaryReading.SingleBlockSplit | src/utilities/BinaryReader.ts:53-87 | when each share is a single interleave block, output o is simply the o-th run of `interleaveSize` bytes |
| ChannelConfigs.BlockTypeToChannelCount | src/at9/ChannelConfig.ts:13-24 | two channels exactly for a stereo block, one exactly for mono and LFE blocks, none exactly for any other code |
| ChannelConfigs.NewChannelConfig | src/at9/ChannelConfig.ts:7-11 | the block count is the number of block types, the types are kept, and the channel count is the sum of the blocks' channel counts |
| ChannelConfigs.TotalChannelsAppend | src/at9/ChannelConfig.ts:10 | the channel total is additive over concatenation, so the `reduce` may be grouped any way |
| ChannelConfigs.TotalOfOne | src/at9/ChannelConfig.ts:10 | a one-block list totals that block's channel count |
| ChannelConfigs.TotalChannelsBounds | src/at9/ChannelConfig.ts:10-23 | with every code a block type, the total lies between the block count and twice it |
| ChannelConfigs.ChannelsCoverBlocks | src/at9/ChannelConfig.ts:7-11 | a configuration of typed blocks has at least as many channels as blocks |
| Config.ReadFields | src/at9/Atrac9Config.ts:28-34 | the six fields read from the descriptor are within their widths (8, 4, 3, 1, 11 and 2 bits) |
| Config.ParseConfig | src/at9/Atrac9Config.ts:23-52 | a missing descriptor or one not of 4 bytes fails with the length error; a header other than 0xFE or a set validation bit fails as invalid; a channel-configuration index of 6 or 7 (no table entry, a `TypeError` in the source) fails; in every other case the configuration is built, keeps the bytes and satisfies `ValidConfig` (every field read, every derived size as the constructor computes it) |
| Config.BuildConfig | src/at9/Atrac9Config.ts:42-51 | the derived geometry of a descriptor that passed the checks satisfies `ValidConfig` |
| Config.SuperframeSampleCount | src/at9/Atrac9Config.ts:51 | a superframe holds 64 to 2048 samples |
| Config.FrameSampleCounts | src/at9/Atrac9Config.ts:50 | a frame holds 64, 128 or 256 samples |
| Config.ValidLayout | src/at9/Atrac9Config.ts:44-50 | a valid configuration has a frame size of 2^6 to 2^8, at least one block, typed blocks, and a channel count equal to the blocks' total |
| Config.ShiftedSize | src/at9/Atrac9Config.ts:43 | `FrameBytes << SuperframeIndex` does not overflow: it is the product with 1, 2, 4 or 8 and at most 16384 |
| Config.FieldsAreReads | src/at9/Atrac9Config.ts:28-34 | each field is what the bit reader returns for the reads of 8, 4, 3, 1, 11 and 2 bits at bit positions 0, 8, 12, 15, 16 and 27 |
| Config.EncodeFields | src/at9/Atrac9Config.ts:28-34 | fields in range encode into 4 bytes |
| Config.ReadEncoded | src/at9/Atrac9Config.ts:28-34 | reading the encoding of in-range fields gives the fields back |
| Config.EncodeRead | src/at9/Atrac9Config.ts:28-34 | encoding the fields read from a descriptor whose last 3 bits are zero gives the descriptor back |
| Config.ParseEncoded | src/at9/Atrac9Config.ts:23-52 | a descriptor encoded from a valid header, cleared validation bit, sample-rate index, channel-configuration index below 6, frame size of 1 to 2048 and superframe index parses back to exactly those values |
| Tables.CoeffIndexIsPrefixSum | src/at9/Tables.ts:39-47 | each unit's first coefficient is the sum of the sizes of the units before it, from 0 to 256 |
| Tables.UnitBins | src/at9/Tables.ts:39-47 | unit i covers the bins from its first coefficient to the next unit's, within the 256 bins, in a size of 2, 4, 8 or 16 |
| Tables.CoeffIndexMonotone | src/at9/Tables.ts:44-47 | a later unit never starts before an earlier one |
| Tables.UnitSizes | src/at9/Tables.ts:39-42 | every unit has 2, 4, 8 or 16 coefficients |
| Tables.UnitLayout | src/at9/Tables.ts:39-52 | each unit's bins follow the previous unit's within the 256 bins, with a size of 2 to 16 and a codebook index of 0 to 3 |
| Tables.UnitStartMonotone | src/at9/Tables.ts:44-47 | unit starts are non-decreasing and within the 256 bins |
| Tables.UnitOfBin | src/at9/Tables.ts:44-47 | every bin lies in exactly one quantization unit |
| Tables.BandToQuantUnitCountIncreasing | src/at9/Tables.ts:37 | nineteen band limits, strictly increasing from 0 to all thirty units |
| Tables.MaxBandCountInRange | src/at9/Tables.ts:36 | every maximum band count is an index into the band limits |
| Tables.BandLimits | src/at9/Tables.ts:25-36 | for each sample rate the band count range is not empty and below the extension band limit |
| Tables.CodebookIndexMatchesCount | src/at9/Tables.ts:39-52 | a unit's codebook index is the base-2 logarithm of its size, less one |
| Tables.SampleRateTables | src/at9/Tables.ts:29-34 | sixteen sample-rate indices, each with a frame-size power of 6 to 8 |
| Tables.ChannelConfigCounts | src/at9/Tables.ts:54-61 | six channel configurations carrying 1, 2, 2, 6, 8 and 4 channels, every block typed |
| Huffman.MaxOfIsMaximum | src/at9/HuffmanCodebook.ts:23-28 | the running maximum from 0 is at least every bit length and is 0 or one of them |
| Huffman.LargestBitSize | src/at9/HuffmanCodebook.ts:23-26 | the loop over the bit lengths returns `MaxOf(bits)`, the largest length or 0 |
| Huffman.ValueBitsDivides | src/at9/HuffmanCodebook.ts:20 | for a non-empty code table, `Math.log2(length) >> power` is the floor logarithm divided by 2^power |
| Huffman.FillSlots | src/at9/HuffmanCodebook.ts:44-46 | slots [start, end) receive the symbol and every other slot keeps its value |
| Huffman.PlaceSymbol | src/at9/HuffmanCodebook.ts:37-46 | a symbol with a code overwrites exactly the slots whose window begins with its code; a symbol of length 0 changes nothing |
| Huffman.CreateLookupTable | src/at9/HuffmanCodebook.ts:32-49 | the table has 2^MaxBitSize slots and slot j holds `Owner`: the last symbol whose code begins j, or 0 when none does |
| Huffman.SymbolSlots | src/at9/HuffmanCodebook.ts:38-42 | the shifts compute the symbol's slot range exactly, inside the table |
| Huffman.OwnerIsLastCover | src/at9/HuffmanCodebook.ts:36-47 | a slot some symbol fills belongs to the last symbol filling it; a slot no symbol fills keeps 0 |
| Huffman.OwnerInRange | src/at9/HuffmanCodebook.ts:36-47 | the table never names a symbol past the end of the code table |
| Huffman.CoverIsPrefix | src/at9/HuffmanCodebook.ts:40-45 | a filled slot's index begins with the code of the symbol filling it |
| Huffman.CoversDisjoint | src/at9/HuffmanCodebook.ts:36-47 | with prefix-free codes no two symbols fill the same slot |
| Huffman.ShorterCodeIsPrefix | src/at9/HuffmanCodebook.ts:36-47 | when a short and a long code fill the same slot, the short one is a prefix of the long one |
| Huffman.PrefixFreeOwner | src/at9/HuffmanCodebook.ts:36-47 | with prefix-free codes every slot a symbol's code begins belongs to that symbol, whatever the order of filling |
| Huffman.NewHuffmanCodebook | src/at9/HuffmanCodebook.ts:10-30 | a null code or bit table throws; otherwise the codebook keeps the tables, has `1 << power` values, the `log2 >> power` value width, the largest bit length and the lookup table of `createLookupTable` |
| Huffman.BuiltIsValid | src/at9/HuffmanCodebook.ts:10-30 | a codebook built from a non-empty prefix-free table of codes of at most 17 bits is one the decoder can read with |
| Huffman.LookupDecodes | src/at9/HuffmanCodebook.ts:32-49 | in a valid codebook every slot whose window begins with symbol i's code holds i |
| NoiseGenerator.Step | src/at9/Atrac9Rng.ts:15-22 | a step moves A, B, C down into B, C, D and A takes a signed 32-bit mixed word |
| NoiseGenerator.Atrac9Rng.constructor | src/at9/Atrac9Rng.ts:6-13 | D is minus `0x4D93 * (seed ^ (seed >> 14))`, and C, B and A are D + 1, D + 2, D + 3 |
| NoiseGenerator.Atrac9Rng.Resumed | src/at9/Atrac9Rng.ts:1-5 | a generator holding exactly the given four words |
| NoiseGenerator.Atrac9Rng.Next | src/at9/Atrac9Rng.ts:15-22 | the state takes one `Step` and the returned value is the new A |
| NoiseGenerator.Draws | src/at9/Atrac9Rng.ts:15-22 | n iterations yield n words |
| NoiseGenerator.DrawAt | src/at9/Atrac9Rng.ts:15-22 | draw k is the A word after k + 1 iterations |
| NoiseGenerator.Outputs | src/at9/Atrac9Rng.ts:15-22 | the first n calls of `next` return n values |
| NoiseGenerator.OutputAt | src/at9/Atrac9Rng.ts:15-22 | call k of `next` returns the A word of the state after k + 1 steps |
| NoiseGenerator.OutputsExtend | src/at9/Atrac9Rng.ts:6-22 | the output stream depends on the seed alone, and a longer run extends a shorter one |
| NoiseGenerator.NoiseContinues | src/at9/Atrac9Rng.ts:15-22 | a generator used again continues one uninterrupted stream |
| NoiseGenerator.DrawsContinue | src/at9/Atrac9Rng.ts:15-22 | draws from where m iterations left off are draws m to m + n from the start |
| NoiseGenerator.SeededWords | src/at9/Atrac9Rng.ts:6-13 | for 16-bit seeds the start value stays below 0x4D93 * 2^16, so all four words start as signed 32-bit values |
| NoiseGenerator.XorOfShifted | src/at9/Atrac9Rng.ts:7 | `seed ^ (seed >> 14)` of a 16-bit seed is a 16-bit value |
| NoiseGenerator.AfterWords | src/at9/Atrac9Rng.ts:15-22 | once the words are 32-bit values, every step keeps them so |
| BandExtensionInfo.GetBexBandInfo | src/at9/BandExtension.ts:144-149 | succeeds exactly for 13 to 30 units, returning band count, group B unit and group C unit from row `units - 13` of the group-info table; any other count reads a property of an undefined row and fails |
| BandExtension.TotalUnits | src/at9/BandExtension.ts:22 | the extended range ends at group C's unit or at unit 22, whichever is later |
| BandExtension.InfoFits | src/at9/BandExtension.ts:21-27 | the groups of every unit count that has a group-info row fit the spectrum and can be mirrored |
| BandExtension.Mirrored | src/at9/BandExtension.ts:120-122 | mirroring keeps the spectrum's 256 bins |
| BandExtension.FillHigh | src/at9/BandExtension.ts:119-131 | the three mirrors keep the spectrum's 256 bins |
| BandExtension.FillHighCopiesCoded | src/at9/BandExtension.ts:119-131 | after the fill every bin is a copy of one bin before it; with ordered groups, the bins below group A and from the end of the range on keep their values and every bin of the extended range copies a coded bin below group A |
| BandExtension.MirroredIdempotent | src/at9/BandExtension.ts:120-122 | mirroring twice over the same range is mirroring once: the bins it reads lie below it |
| BandExtension.MirrorBins | src/at9/BandExtension.ts:120-130 | one mirror loop leaves the spectrum as `Mirrored` says, bin lo + i taking bin lo - i - 1 in loop order |
| BandExtension.FillHighFrequencies | src/at9/BandExtension.ts:119-131 | the spectrum ends as `FillHigh`: the three mirrors in order, each reading what the one before left |
| BandExtension.UnitsScaled | src/at9/BandExtension.ts:111-117 | unit scaling keeps the 256 bins |
| BandExtension.UnitsScaledBins | src/at9/BandExtension.ts:111-117 | a bin of unit u in [start, total) is multiplied by the scale at u - start (0.0 where an index past the end of the list reads `undefined` in the source: see Left out), and a bin of any other unit keeps its value |
| BandExtension.ScaleBexQuantUnits | src/at9/BandExtension.ts:111-117 | the nested loops leave the spectrum as `UnitsScaled` says |
| BandExtension.NoiseStart | src/at9/BandExtension.ts:134-138 | the generator a noise fill draws from is the channel's own when it has one, otherwise a new one seeded with 543 * (sf[8] + sf[12] + sf[15] + 1), the generator the code evidently intends (as shipped the constructor is not in scope: `ShippedNoiseStart`) |
| BandExtension.Noised | src/at9/BandExtension.ts:139-141 | a noise fill keeps the 256 bins |
| BandExtension.NoisedBins | src/at9/BandExtension.ts:139-141 | a noise fill overwrites exactly bins [index, index + count), bin index + i with `next() / 65535 * 2 - 1` of the (i+1)-th draw, and no other bin |
| BandExtension.NoiseFillsContinue | src/at9/BandExtension.ts:133-142 | two fills from one kept generator draw what one fill of both lengths draws |
| BandExtension.OpenRng | src/at9/BandExtension.ts:134-138 | the intended behaviour: the generator obtained is a new object in the state `NoiseStart` names |
| BandExtension.DrawNoise | src/at9/BandExtension.ts:139-141 | the loop advances the generator by `count` steps and leaves the spectrum as `Noised` from the generator's old state |
| BandExtension.AddNoiseToSpectrum | src/at9/BandExtension.ts:133-142 | the intended behaviour: the spectrum is noised from `NoiseStart`, and the channel keeps that generator advanced by `count` steps; nothing else in the channel changes |
| BandExtension.FiveBandScales | src/at9/BandExtension.ts:36-49 | the three- and four-band tables set scales 0 to 4 from values 0, 0, 1, 2, 3 and leave the rest |
| BandExtension.ThreeBandScales | src/at9/BandExtension.ts:50-54 | the five-band table sets scales 0 to 2 from values 0, 1, 1 and leaves the rest |
| BandExtension.Mode0BandScales | src/at9/BandExtension.ts:35-55 | the band-count switch keeps the list length, and a band count other than 3, 4 or 5 sets nothing |
| BandExtension.SetScale | src/at9/BandExtension.ts:57 | `scales[i] = v` on a plain array: a negative index changes nothing, a later index lengthens the list (the holes read 0.0 here where the source reads `undefined`: see Left out), entry i becomes v and every other entry keeps its value |
| BandExtension.Mode1ScalesAt | src/at9/BandExtension.ts:63-65 | after the mode-1 loop over units [start, i), entry u - start holds `SpectrumScale[scaleFactors[u]]` for each and later entries are the old ones |
| BandExtension.FillMode1Scales | src/at9/BandExtension.ts:63-65 | the loop returns the scale list `Mode1Scales` describes |
| BandExtension.Ramped | src/at9/BandExtension.ts:83-88 | the mode-3 ramp keeps the 256 bins |
| BandExtension.RampBins | src/at9/BandExtension.ts:84-88 | the loop leaves the spectrum as `Ramped`: the scale grows by `rate` before each bin it multiplies |
| BandExtension.NoiseScaled | src/at9/BandExtension.ts:57-68 | the noise modes' shared tail keeps the 256 bins, stores the scale list and leaves the generator `count` draws further on |
| BandExtension.ExtendChannel | src/at9/BandExtension.ts:14-109 | the intended behaviour, with the noise generator created rather than the shipped `ReferenceError`: the extension of one channel succeeds exactly when the block codes 13 to 30 units, and otherwise fails with the undefined-row access |
| BandExtension.Mode0LastScale | src/at9/BandExtension.ts:57 | mode 0 sets the scale at `totalUnits - groupAUnit - 1` to the spectrum scale of group A's first unit's scale factor |
| BandExtension.Mode0NoiseInLastUnit | src/at9/BandExtension.ts:32-61 | mode 0 puts noise in the last unit of the extended range only, scaled as that unit; every other bin is the mirrored bin scaled as its unit (a scale-list hole reads 0.0: see Left out) |
| BandExtension.Mode1NoiseInRange | src/at9/BandExtension.ts:62-69 | mode 1 fills the whole extended range with noise from its first bin, each bin scaled as its unit, and changes no bin outside it |
| BandExtension.Mode1Scaled | src/at9/BandExtension.ts:63-65 | mode 1's scale for each unit u of the range is the spectrum scale of u's scale factor |
| BandExtension.Mode2Bins | src/at9/BandExtension.ts:70-81 | mode 2 multiplies group A by the first gain and group B by the second, and changes no bin outside them |
| BandExtension.Mode3Bins | src/at9/BandExtension.ts:82-89 | mode 3 multiplies bin groupABin + n by `initial * rate^(n+1)` and changes no bin outside the range |
| BandExtension.Mode4Bins | src/at9/BandExtension.ts:90-107 | mode 4 scales groups A, B and C by 0.7079468, 0.5011902 and 0.3548279 times the multiplier and changes no other bin |
| BandExtension.NoiseModesKeepGenerator | src/at9/BandExtension.ts:133-142 | after mode 0 or 1 the channel holds the generator some number of steps past `NoiseStart`; the gain modes leave the generator and scale list alone |
| BandExtension.FillAndScale | src/at9/BandExtension.ts:57-68 | the scale list is stored, the noise fill drawn and the units scaled, as `NoiseScaled` says |
| BandExtension.ExtendMode0 | src/at9/BandExtension.ts:32-61 | the mode-0 branch leaves spectrum, scale list and generator as `Mode0` says and nothing else changes (a scale-list hole reads 0.0: see Left out) |
| BandExtension.ExtendMode1 | src/at9/BandExtension.ts:62-69 | the mode-1 branch leaves spectrum, scale list and generator as `Mode1` says |
| BandExtension.ExtendMode2 | src/at9/BandExtension.ts:70-81 | the mode-2 branch leaves the spectrum as `Mode2` says |
| BandExtension.ExtendMode3 | src/at9/BandExtension.ts:82-89 | the mode-3 branch leaves the spectrum as `Mode3` says, `exp2` standing for `Math.pow(2, _)` |
| BandExtension.ExtendMode4 | src/at9/BandExtension.ts:90-107 | the mode-4 branch leaves the spectrum as `Mode4` says |
| BandExtension.ApplyMode | src/at9/BandExtension.ts:31-108 | the mode switch leaves the channel as `ModeExtension` says; a mode above 4 changes nothing |
| BandExtension.ExtendGroups | src/at9/BandExtension.ts:24-108 | the mirrors then the mode, as `ModeExtension` of `FillHigh` says |
| BandExtension.ApplyBandExtensionChannel | src/at9/BandExtension.ts:14-109 | the intended behaviour, with the noise generator created rather than the shipped `ReferenceError`: fails exactly when `ExtendChannel` does, before writing anything; otherwise the channel ends as `ExtendChannel` says |
| BandExtension.ExtendChannelAt | src/at9/BandExtension.ts:9-11 | channel i is extended and the other channel and its spectrum are unchanged |
| BandExtension.ExtendedFails | src/at9/BandExtension.ts:21 | a failed extension leaves the channel as it was |
| BandExtension.ExtendChannels | src/at9/BandExtension.ts:9-11 | the intended behaviour, with the noise generator created rather than the shipped `ReferenceError`: every channel of the block is extended once over the unit count; the loop fails exactly when the unit count has no group-info row |
| BandExtension.ApplyBandExtension | src/at9/BandExtension.ts:6-12 | the intended behaviour, with the noise generator created rather than the shipped `ReferenceError`: nothing happens unless the block enables band extension and carries its data; then each channel ends as `ExtensionStage` says and the call fails exactly when the unit count has no group-info row |
| BandExtension.ShippedNoiseStart | src/at9/BandExtension.ts:134-138 | as shipped, a channel without a generator throws a `ReferenceError` for `Atrac9Rng`; a channel with one reuses it |
| BandExtension.ShippedFirstNoiseFillThrows | src/at9/BandExtension.ts:134-138 | a fresh channel's first noise fill throws as shipped, while the intended generator seeds it with 543, that is 543 * (sf[8] + sf[12] + sf[15] + 1) for a channel whose scale factors are all zero |
| Quantization.CoveredUnits | src/at9/Quantization.ts:10 | the units a loop up to a count covers: the count itself when it lies in [0, 30], none when it is unassigned or not positive, never more than 30 |
| Quantization.Dequantized | src/at9/Quantization.ts:8-12 | the dequantized spectrum keeps 256 bins (its bins are finite where the source's can be NaN: see Left out) |
| Quantization.DequantizedBins | src/at9/Quantization.ts:8-26 | a bin of a coded unit u holds `coarse * QuantizerStepSize[precision] + fine * QuantizerFineStepSize[finePrecision]` of that unit, and every bin from the first uncoded unit on is zero; a precision past a step-size table reads 0.0 where the source reads `undefined` (see Left out) |
| Quantization.NothingCodedIsSilent | src/at9/Quantization.ts:8-12 | a channel that codes no unit dequantizes to 256 zero bins |
| Quantization.DequantizeQuantUnit | src/at9/Quantization.ts:16-27 | exactly the bins of unit `band` take their dequantized value; every other bin keeps its old value (a fine step size past its table reads 0.0: see Left out) |
| Quantization.DequantizeChannel | src/at9/Quantization.ts:8-12 | the channel's spectrum ends as `Dequantized` of its state: zero-filled, then each coded unit dequantized (finite where the source can give NaN: see Left out) |
| Quantization.DequantizeSpectra | src/at9/Quantization.ts:6-14 | every channel of the block ends with its own `Dequantized` spectrum (finite where the source can give NaN: see Left out) |
| Quantization.SeparateSpectra | src/at9/Quantization.ts:7 | the two channels of a decodable block own distinct spectrum buffers, so dequantizing one leaves the other alone |
| Quantization.Scaled | src/at9/Quantization.ts:39-43 | the scaled spectrum keeps 256 bins |
| Quantization.ScaledBins | src/at9/Quantization.ts:39-43 | a bin of unit u below the unit count is multiplied by `SpectrumScale[scaleFactors[u]]`; the bins from the unit count's start on keep their values |
| Quantization.ScaledFromBins | src/at9/Quantization.ts:39-43 | a spectrum that agrees bin by bin with that description is the scaled spectrum (the description determines it) |
| Quantization.Gained | src/at9/Quantization.ts:40-42 | multiplying a range of bins keeps 256 bins |
| Quantization.ScaleBins | src/at9/Quantization.ts:40-42 | the loop multiplies bins [lo, hi) by the gain and changes no other bin; an empty range changes nothing |
| Quantization.ScaleQuantUnit | src/at9/Quantization.ts:40-42 | exactly the bins of unit `band` are multiplied by that unit's scale |
| Quantization.ScaleSpectrumChannel | src/at9/Quantization.ts:35-44 | the channel's spectrum ends as `Scaled` of its old spectrum over the block's unit count |
| Quantization.ScaleSpectrum | src/at9/Quantization.ts:29-33 | every channel of the block is scaled once, by its own scale factors, over the block's unit count |
| Quantization.ReadyChannelsScalable | src/at9/Quantization.ts:30-32 | every channel of a decodable block can be scaled, and the two channels' buffers are distinct |
| Quantization.ScaleChannels | src/at9/Quantization.ts:30-32 | the channel loop scales each channel as `Scaled` says, none twice |
| Stereo.StereoUnits | src/at9/Stereo.ts:9-16 | the rewritten units run from the stereo boundary to the unit count when the boundary lies below it, and form an empty range when it is unassigned or at or past the count |
| Stereo.MirroredUnits | src/at9/Stereo.ts:16-25 | mirroring a range of units keeps 256 bins |
| Stereo.IntensityStereo | src/at9/Stereo.ts:6-26 | the secondary spectrum after intensity stereo keeps 256 bins |
| Stereo.IntensityStereoBins | src/at9/Stereo.ts:16-25 | a bin of a stereo unit u takes the primary's bin, negated when `JointStereoSigns[u] > 0`; a bin outside the stereo units keeps its secondary value |
| Stereo.IntensityStereoIdempotent | src/at9/Stereo.ts:6-26 | applying intensity stereo again from the same primary changes nothing |
| Stereo.MirrorUnit | src/at9/Stereo.ts:17-24 | exactly the bins of the unit take the (signed) primary value; every other secondary bin keeps its value |
| Stereo.ApplyIntensityStereo | src/at9/Stereo.ts:6-26 | in a stereo block the secondary spectrum becomes `IntensityStereo` of the two spectra and the primary is unchanged; a block of another type changes nothing |
| Stereo.MirrorUnits | src/at9/Stereo.ts:16-25 | the unit loop leaves the secondary spectrum as `MirroredUnits` says |
| Stereo.SeparateRoles | src/at9/Stereo.ts:13-14 | the primary and secondary channel of a stereo block own distinct 256-bin spectra |
| Stereo.StereoNoUnits | src/at9/Stereo.ts:11 | with the boundary at or past the unit count, intensity stereo leaves the secondary spectrum as it was |
| Mdct.GrayDecodeOfGray | src/utilities/Mdct.ts:163 | the Gray code `i ^ (i / 2)` is undone by its prefix-xor inverse, so distinct indices have distinct codes |
| Mdct.GrayZero | src/utilities/Mdct.ts:163 | only index 0 has Gray code 0 |
| Mdct.GrayOfGrayDecode | src/utilities/Mdct.ts:163 | every code is the Gray code of some index: the inverse is onto |
| Mdct.GrayBounded | src/utilities/Mdct.ts:163 | the Gray code and its inverse keep k-bit values within k bits |
| Mdct.BitXorGray | src/utilities/Mdct.ts:163 | the bitwise `x ^ (x / 2)` (the float half truncated to an integer) of an n-bit value is its Gray code |
| Mdct.ShuffleEntryIsReversedGray | src/utilities/Mdct.ts:163 | entry i of the table is the k-bit reversal of the Gray code of i |
| Mdct.ShuffleEntryInWord | src/utilities/Mdct.ts:160-163 | the entry fits the `Int32Array` unchanged for tables of up to 2^30 entries |
| Mdct.ReverseInWord | src/utilities/Mdct.ts:160-163 | a k-bit reversal with k <= 30 is stored in an `Int32Array` unchanged |
| Mdct.GrayWord | src/utilities/Mdct.ts:163 | for indices below 2^k the 32-bit xor of i and i / 2 is the Gray code, within k bits |
| Mdct.XorHalf | src/utilities/Mdct.ts:163 | JavaScript's `^` on those operands gives the same value as the 32-bit xor |
| Mdct.ShufflePrefix | src/utilities/Mdct.ts:162-164 | the first n entries of the table form a list of n entries |
| Mdct.ShufflePrefixIsTable | src/utilities/Mdct.ts:158-167 | the table built entry by entry up to 2^k is the shuffle table |
| Mdct.ShufflePrefixAt | src/utilities/Mdct.ts:162-164 | entry i of any prefix is the reversed Gray code of i, whatever the prefix length |
| Mdct.ShuffleTableIsPermutation | src/utilities/Mdct.ts:158-167 | the shuffle table of size 2^k holds every index of [0, 2^k) exactly once |
| Mdct.GenerateShuffleTable | src/utilities/Mdct.ts:158-167 | allocates a new table whose entries are `ShuffleTable(sizeBits)` |
| Mdct.FillShuffleTable | src/utilities/Mdct.ts:162-164 | the loop leaves every entry equal to the reversed Gray code of its index |
| Mdct.ShiftedOne | src/utilities/Mdct.ts:159 | `1 << n` is 2^n for n <= 30 |
| Mdct.ShuffleValue | src/utilities/Mdct.ts:163 | one entry computed with the float half, the 32-bit xor and the bit reversal extends the prefix by its reversed Gray code |
| Mdct.ShuffleTablesGrow | src/utilities/Mdct.ts:43 | appending the table of the next size keeps the list of shuffle tables indexed by size |
| Mdct.MdctTables.constructor | src/utilities/Mdct.ts:4-7 | the shared tables start at size bits -1, with no sine, cosine or shuffle tables |
| Mdct.MdctTables.SetTables | src/utilities/Mdct.ts:37-47 | tables are generated for each new size from the old maximum + 1 to `maxBits`; existing tables are kept, the maximum becomes the larger of the two, and a request at or below it changes nothing |
| Mdct.StageSizes | src/utilities/Mdct.ts:115-119 | stage s has 2^s blocks of 2^(bits-1-s) butterfly pairs, together covering the 2^bits buffer |
| Mdct.ButterflyStageRun | src/utilities/Mdct.ts:123-136 | the block loop of one stage leaves the scratch buffer as `ButterflyStage` of what it held: every sample is output 0 to 3 of its block's butterfly at its angle |
| Mdct.BlockButterflies | src/utilities/Mdct.ts:124-135 | the butterflies of one block: each of its butterflies has written its four outputs, computed from the samples before the stage, and no sample outside the block changes |
| Mdct.NextStage | src/utilities/Mdct.ts:114-136 | one pass of the stage loop takes the buffer from `Butterflies` of s after `stage` stages to after `stage + 1` |
| Mdct.StageShape | src/utilities/Mdct.ts:115-119 | `1 << stage` blocks, `1 << (stageCount - stage)` samples per half block, `1 << (stageCount - stage - 1)` butterflies each |
| Mdct.DctCoreRun | src/utilities/Mdct.ts:102-137 | the pre-rotation then the stages leave the scratch buffer as `DctCore` of the input; silence stays silent |
| Mdct.StageDoneExact | src/utilities/Mdct.ts:123-136 | once every butterfly of every block has written its outputs, the buffer is exactly `ButterflyStage` of what it held |
| Mdct.ButterfliesStep | src/utilities/Mdct.ts:114-121 | stage k of a 2^bits transform is `ButterflyStage` with half-size 2^(bits-2-k) and the angle tables of that size, applied to the buffer after stages 0 to k-1 |
| Mdct.DctCoreOfSilence | src/utilities/Mdct.ts:102-137 | a silent input gives a silent DCT-IV core |
| Mdct.TapPosition | src/utilities/Mdct.ts:124-135 | sample j of a stage is output `part` of butterfly `angle` of its block, sitting in the front pair for parts 0 and 1 and the back pair for 2 and 3 |
| Mdct.Mdct.constructor | src/utilities/Mdct.ts:19-35 | the transform keeps its size bits, scale, shared tables and window, and owns four new buffers of the transform size, all zero |
| Mdct.Mdct.Dct4 | src/utilities/Mdct.ts:92-142 | the scratch buffer holds `DctCore` of the input (pre-rotation then every butterfly stage); the output's first `MdctSize` samples are that buffer read through the shuffle table (a permutation) times the scale; later samples keep their values; silence in gives silence out |
| Mdct.Mdct.RunImdct | src/utilities/Mdct.ts:73-90 | fails exactly when input or output is shorter than the transform, and then writes nothing; otherwise the scratch buffer holds the shuffled DCT-IV, the output and history are the overlap-add of its halves with the old history, later outputs keep their values, and silence with silent history stays silent |
| Mdct.NewMdct | src/utilities/Mdct.ts:19-35 | grows the shared tables to 2^mdctBits, then fails exactly when the window is shorter than the transform; on success a new transform with zero history |
| Mdct.PreRotate | src/utilities/Mdct.ts:102-110 | the first loop leaves the scratch buffer as `PreRotated` of the input; silence stays silent |
| Mdct.PreRotated | src/utilities/Mdct.ts:102-110 | the pre-rotation keeps the number of samples |
| Mdct.PreRotatedPair | src/utilities/Mdct.ts:103-109 | pair i is `a cos + b sin` and `a sin - b cos`, with a the sample 2i and b its mirror |
| Mdct.PreRotatedOfSilence | src/utilities/Mdct.ts:102-110 | a silent input rotates to silence |
| Mdct.ButterflyStages | src/utilities/Mdct.ts:112-137 | the stage loop leaves the scratch buffer as `Butterflies` of what it held, all bits - 1 stages applied in order |
| Mdct.ShuffleOut | src/utilities/Mdct.ts:139-141 | output i is `dctTemp[shuffleTable[i]] * scale` for every sample of the transform, the rest of the output is unchanged, silence stays silent |
| Mdct.ShuffledAt | src/utilities/Mdct.ts:140 | sample i of the shuffled output is the table-named sample times the scale |
| Mdct.Shuffled | src/utilities/Mdct.ts:139-141 | the shuffled output has one sample per table entry |
| Mdct.Butterfly | src/utilities/Mdct.ts:127-134 | the front pair takes the sums, the back pair the difference rotated by the stage angle, and no other sample changes |
| Overlap.OverlapOutputs | src/utilities/Mdct.ts:84-89 | the overlap-add produces one output sample per transform sample |
| Overlap.OverlapHistories | src/utilities/Mdct.ts:84-89 | and one history sample per transform sample |
| Overlap.OverlapTargets | src/utilities/Mdct.ts:84-89 | for every sample k there is an output and a history list whose entry k is the sample the loop computes |
| Overlap.OverlapTargetsAre | src/utilities/Mdct.ts:84-89 | lists that agree with every sample are the overlap-add's output and history |
| Overlap.OverlapOfSilence | src/utilities/Mdct.ts:84-89 | a zero transform with zero history gives zero output and zero history, whatever the window |
| Overlap.OverlapAdd | src/utilities/Mdct.ts:84-89 | the loop writes `OverlapOutputs` into the first samples of the output, leaves `OverlapHistories` as the history, and changes no later output |
| Overlap.OverlapValues | src/utilities/Mdct.ts:85-88 | the four samples step i writes are output i, output i + half and history i and i + half |
| ScaleFactorReading.Zeros | src/at9/ScaleFactors.ts:9 | the factors after `fill(0)`: 31 zeros |
| ScaleFactorReading.Splice | src/at9/ScaleFactors.ts:63-65 | writing a run of values from unit `at` on changes exactly those units, each to its value, and keeps all others |
| ScaleFactorReading.StoredRun | src/at9/ScaleFactors.ts:64 | a store loop writes one value per field read |
| ScaleFactorReading.StoredAt | src/at9/ScaleFactors.ts:64 | unit from + k of a store run holds field k, stored as the coding says (plus a base value, or a distance to the baseline modulo 32) |
| ScaleFactorReading.AdjustedRun | src/at9/ScaleFactors.ts:84-86 | an adjustment loop writes one value per unit it covers |
| ScaleFactorReading.DeltaChain | src/at9/ScaleFactors.ts:79-82 | a delta chain has one value more than it has deltas and starts at the value read for unit 0 |
| ScaleFactorReading.DeltaRuns | src/at9/ScaleFactors.ts:77-86 | a delta coding changes no unit from the later of its chain's end and its unit count on |
| ScaleFactorReading.ClcRun | src/at9/ScaleFactors.ts:63-65 | the fixed-width store loop changes no unit from the extension unit on, and 5-bit fields with no base value are all in range |
| ScaleFactorReading.DeltaCoding | src/at9/ScaleFactors.ts:77-86 | the two loops of a delta coding change no unit past their reach |
| ScaleFactorReading.DistanceRun | src/at9/ScaleFactors.ts:95-98 | the distance loop changes only the units the baseline covers, and leaves them all in [0, 31] |
| ScaleFactorReading.PlainRest | src/at9/ScaleFactors.ts:100-102 | the plain loop over the units the baseline misses changes no unit from the extension unit on, and in-range units before it stay in range |
| ScaleFactorReading.ClcOffset | src/at9/ScaleFactors.ts:57-66 | `readClcOffset` changes no unit from the extension unit on; at the widest width (code 3) every factor it stores is in range |
| ScaleFactorReading.VlcDeltaHeader | src/at9/ScaleFactors.ts:69-77 | the header chooses a well-formed unsigned codebook and a weight row that covers every unit |
| ScaleFactorReading.VlcDeltaOffset | src/at9/ScaleFactors.ts:68-87 | `readVlcDeltaOffset` changes no unit past max(extension unit, 1) |
| ScaleFactorReading.DistanceBook | src/at9/ScaleFactors.ts:91-92 | the 2-bit width chooses a well-formed signed codebook |
| ScaleFactorReading.VlcDistanceToBaseline | src/at9/ScaleFactors.ts:89-103 | `readVlcDistanceToBaseline` changes no unit from the extension unit on and leaves every unit below it in range, so it never trips the range check |
| ScaleFactorReading.BaselineDeltaHeader | src/at9/ScaleFactors.ts:107-112 | the header chooses a well-formed unsigned codebook and an adjustment that covers every unit |
| ScaleFactorReading.VlcDeltaOffsetWithBaseline | src/at9/ScaleFactors.ts:105-126 | `readVlcDeltaOffsetWithBaseline` changes no unit past max(extension unit, 1) |
| ScaleFactorReading.Selected | src/at9/ScaleFactors.ts:13-46 | the coding a mode selects (by channel index) changes no unit past its reach; it fails only for a mode that needs the previous frame in a block that is first in its superframe |
| ScaleFactorReading.Attempt | src/at9/ScaleFactors.ts:9-46 | what a read leaves in the factors always has 31 units |
| ScaleFactorReading.ScaleFactorsRead | src/at9/ScaleFactors.ts:8-55 | a successful read returns exactly what the attempt left, and every unit below the extension unit lies in [0, 31] |
| ScaleFactorReading.RefusedMode | src/at9/ScaleFactors.ts:22-42 | the read fails with a message-less `InvalidDataException` exactly when the block is first in its superframe and the mode needs a previous frame (modes 2 and 3 on channel 0, mode 3 on channel 1) |
| ScaleFactorReading.OutOfRange | src/at9/ScaleFactors.ts:48-52 | otherwise the read fails exactly when some unit below the extension unit lies outside [0, 31], and then with the out-of-range message |
| ScaleFactorReading.MaskedSumBounded | src/at9/ScaleFactors.ts:81 | the masked sum `(x + d) & mask`, stored in an `Int8Array`, lies in [0, mask] |
| ScaleFactorReading.DeltaChainBounded | src/at9/ScaleFactors.ts:79-82 | every running value of a delta coding after the first lies in [0, mask] |
| ScaleFactorReading.PlainField | src/at9/ScaleFactors.ts:64 | every field of a run of w-bit unsigned fields lies below 2^w |
| ScaleFactorReading.RawFields | src/at9/ScaleFactors.ts:101 | plain 5-bit fields lie in [0, 31] |
| ScaleFactorReading.DistanceInRange | src/at9/ScaleFactors.ts:97 | `(baseline[i] + distance) & 31` always lies in [0, 31] |
| ScaleFactorReading.DistancesInRange | src/at9/ScaleFactors.ts:95-98 | so every factor the distance loop stores is in range |
| ScaleFactorReading.PlainStored | src/at9/ScaleFactors.ts:101 | in-range fields stored with no offset are the fields themselves |
| ScaleFactorReading.ReadKeepsZeros | src/at9/ScaleFactors.ts:9-52 | a successful read leaves zero in every unit from max(extension unit, 1) on |
| ScaleFactorReading.StoreNext | src/at9/ScaleFactors.ts:64 | one pass of a store loop reads the next field and stores it at the next unit |
| ScaleFactorReading.ReadStoredRun | src/at9/ScaleFactors.ts:63-65 | a store loop reads n fields from the reader's position, writes field i (stored) at unit from + i, changes nothing else and leaves the reader past the last field |
| ScaleFactorReading.DeltaNext | src/at9/ScaleFactors.ts:80-81 | one pass of a delta loop reads the next delta and sets the next unit to the one before plus it, masked |
| ScaleFactorReading.ReadDeltas | src/at9/ScaleFactors.ts:79-82 | the delta loop leaves units 1 to n - 1 as the delta chain over the deltas read, and the reader past the last one |
| ScaleFactorReading.AdjustFactors | src/at9/ScaleFactors.ts:84-86 | the adjustment loop adjusts each of the first n units and changes nothing else |
| ScaleFactorReading.DeltaCodingIs | src/at9/ScaleFactors.ts:77-86 | a delta coding is the chain over the deltas read, then the adjustment |
| ScaleFactorReading.ReadDeltaCoding | src/at9/ScaleFactors.ts:77-86 | the two loops on the reader give `DeltaCoding` and leave the reader where it ends |
| ScaleFactorReading.ReadDistanceRun | src/at9/ScaleFactors.ts:95-98 | the distance loop on the reader gives `DistanceRun` |
| ScaleFactorReading.ReadPlainRest | src/at9/ScaleFactors.ts:100-102 | the plain loop on the reader gives `PlainRest` |
| ScaleFactorReading.ReadClcHeader | src/at9/ScaleFactors.ts:60-61 | the width code and the base value (read only below the widest width) as `ClcHeader` says |
| ScaleFactorReading.ReadClcOffset | src/at9/ScaleFactors.ts:57-66 | `readClcOffset` on the reader gives `ClcOffset` |
| ScaleFactorReading.ReadVlcDeltaHeader | src/at9/ScaleFactors.ts:69-77 | the header on the reader gives `VlcDeltaHeader` |
| ScaleFactorReading.ReadVlcDeltaOffset | src/at9/ScaleFactors.ts:68-87 | `readVlcDeltaOffset` on the reader gives `VlcDeltaOffset` |
| ScaleFactorReading.ReadDistanceBook | src/at9/ScaleFactors.ts:91-92 | the width on the reader chooses `DistanceBook` and consumes 2 bits |
| ScaleFactorReading.ReadVlcDistanceToBaseline | src/at9/ScaleFactors.ts:89-103 | `readVlcDistanceToBaseline` on the reader gives `VlcDistanceToBaseline` |
| ScaleFactorReading.ReadOffsetField | src/at9/ScaleFactors.ts:107 | the offset-binary base value as `OffsetRead` says |
| ScaleFactorReading.ReadBaselineDeltaHeader | src/at9/ScaleFactors.ts:107-112 | the header on the reader gives `BaselineDeltaHeader` |
| ScaleFactorReading.ReadVlcDeltaOffsetWithBaseline | src/at9/ScaleFactors.ts:105-126 | `readVlcDeltaOffsetWithBaseline` on the reader gives `VlcDeltaOffsetWithBaseline` |
| ScaleFactorReading.CheckRange | src/at9/ScaleFactors.ts:48-52 | the range loop passes exactly when every unit below the extension unit lies in [0, 31] |
| ScaleFactorReading.ReadSelected | src/at9/ScaleFactors.ts:13-46 | the mode switches on the reader fail exactly when `Selected` does, with its error and without reading; otherwise they give its factors and end where it ends |
| ScaleFactorReading.ContextOf | src/at9/ScaleFactors.ts:13-43 | the read depends on the channel's index and previous factors (and the block's flags and channel 0's factors) |
| ScaleFactorReading.ReadChecked | src/at9/ScaleFactors.ts:11-52 | the read on the reader passes exactly when `ScaleFactorsRead` succeeds, with its error otherwise; the factors and position are the attempt's and the mode is the 2-bit field first read |
| ScaleFactorReading.ReadScaleFactors | src/at9/ScaleFactors.ts:8-55 | `ScaleFactors.read`: passes exactly when `ScaleFactorsRead` succeeds; the channel's mode becomes the field read and its factors what the attempt left, its previous factors follow them only on success, and nothing else in the channel changes |
| BitAllocation.CurvePoint | src/at9/BitAllocation.ts:110 | point i of a curve of the given length samples a valid index `floor(i * 48 / length)` of the main curve |
| BitAllocation.GenerateGradientCurves | src/at9/BitAllocation.ts:100-114 | there are 48 curves, curve k with k + 1 points |
| BitAllocation.MainCurveShape | src/at9/BitAllocation.ts:101-104 | the main curve has 48 values, each from 1 to 30, never decreasing |
| BitAllocation.MainCurveSorted | src/at9/BitAllocation.ts:101-104 | any earlier value of the main curve is at most any later one |
| BitAllocation.GradientCurvesShape | src/at9/BitAllocation.ts:100-114 | every point of every curve lies in [1, 30], every curve never decreases, and the longest curve is the main curve |
| BitAllocation.Gradient | src/at9/BitAllocation.ts:6-41 | the gradient has one entry per slot, entry k as `GradientAt` describes (start value, end value or the slope point) |
| BitAllocation.CreateGradient | src/at9/BitAllocation.ts:6-41 | `createGradient` replaces the block's gradient with `Gradient` of the block and changes nothing else in it |
| BitAllocation.DrawGradient | src/at9/BitAllocation.ts:10-40 | the three passes produce `Gradient` |
| BitAllocation.FillFlat | src/at9/BitAllocation.ts:10-16 | the first two passes give the start value below the end unit and the end value from there to the unit count, other entries unchanged |
| BitAllocation.DrawSlope | src/at9/BitAllocation.ts:22-40 | the third pass over the flat gradient gives `Gradient` when the header has a slope |
| BitAllocation.SlopeStep | src/at9/BitAllocation.ts:27-30 | one pass of the slope loop extends the drawn slope by one unit |
| BitAllocation.SlopeDrawn | src/at9/BitAllocation.ts:22-40 | the finished slope loop has drawn the whole gradient |
| BitAllocation.InterpolatedBetween | src/at9/BitAllocation.ts:25-38 | a slope point lies strictly past the start value (one step away) and no further than the end value, in either direction |
| BitAllocation.InterpolatedMonotone | src/at9/BitAllocation.ts:25-38 | a larger curve value gives a point further towards the end value |
| BitAllocation.GradientShape | src/at9/BitAllocation.ts:6-41 | up to the unit count the gradient stays between start and end value, and up to the end unit it moves monotonically from the one towards the other |
| BitAllocation.Mask | src/at9/BitAllocation.ts:43-53 | mask entry i is the bonus for a rise of more than one into unit i plus the bonus for a fall of more than one out of it |
| BitAllocation.CalculateMask | src/at9/BitAllocation.ts:43-53 | `calculateMask` sets the channel's mask to `Mask` of its scale factors over the unit count and changes nothing else |
| BitAllocation.MaskBounds | src/at9/BitAllocation.ts:45-52 | every mask entry is between 0 and 10, units at or past the unit count get none, and a unit whose neighbours differ from it by at most one gets none |
| BitAllocation.ClampedPrecision | src/at9/BitAllocation.ts:58-85 | a coded unit's precision after the clamp is at least 1 |
| BitAllocation.Precisions | src/at9/BitAllocation.ts:55-98 | the coarse precisions: one per slot, the coarse part of `PrecisionAt` |
| BitAllocation.PrecisionsFine | src/at9/BitAllocation.ts:91-97 | the fine precisions: one per slot, the fine part of `PrecisionAt` |
| BitAllocation.CalculatePrecisions | src/at9/BitAllocation.ts:55-98 | `calculatePrecisions` sets the channel's coarse and fine precisions to `Precisions` and `PrecisionsFine` and changes nothing else |
| BitAllocation.AllocatePrecisions | src/at9/BitAllocation.ts:58-97 | the four passes produce `Precisions` and `PrecisionsFine` |
| BitAllocation.PrecisionsBounded | src/at9/BitAllocation.ts:81-97 | with scale factors, mask and gradient in the decoder's ranges a coded unit's coarse precision lies in [1, 15], the fine part is what exceeds 15, and together they make the clamped precision plus the boundary bonus |
| UnpackHuffman.HuffmanRead | src/at9/Unpack.ts:340-348 | a Huffman read returns a symbol of the codebook and never moves the position back |
| UnpackHuffman.Read | src/at9/Unpack.ts:340-348 | reading one field (fixed-width unsigned, signed, or Huffman-coded) never moves the position back |
| UnpackHuffman.Run | src/at9/Unpack.ts:295-297 | a run of n reads returns n values and ends at or after where it started |
| UnpackHuffman.RunThrough | src/at9/Unpack.ts:295-297 | a run of k + 1 reads returns k + 1 values |
| UnpackHuffman.RunStep | src/at9/Unpack.ts:295-297 | a run of n + 1 fields is the run of n followed by one more field where it ends |
| UnpackHuffman.HuffmanReadDecodes | src/at9/Unpack.ts:340-348 | when the bits at the position begin with the code of symbol i, the read returns i and consumes exactly that code's length |
| UnpackHuffman.WindowSelects | src/at9/Unpack.ts:341-342 | the lookup slot of the MaxBitSize-bit window holds the symbol whose code begins there |
| UnpackHuffman.ReadAtWindow | src/at9/Unpack.ts:341-345 | the read returns the looked-up symbol and advances by its code length |
| UnpackHuffman.WindowOfCode | src/at9/Unpack.ts:341 | the window lies in the block of windows that begin with the code found there |
| UnpackHuffman.FixedRunEnd | src/at9/Unpack.ts:303-305 | n fixed-width fields end n times the width further on |
| UnpackHuffman.FixedRun | src/at9/Unpack.ts:303-305 | field k of a fixed-width run is the field k widths on |
| UnpackHuffman.UnsignedField | src/utilities/BitReader.ts:29-33 | an unsigned read of at most 17 bits is the stream's field, below 2^w |
| UnpackHuffman.ReadHuffmanValue | src/at9/Unpack.ts:340-348 | `readHuffmanValue` returns the decoded symbol (sign-extended when asked) and leaves the reader past its code, with the buffer unchanged |
| UnpackHuffman.ReadField | src/at9/Unpack.ts:296 | one field read from the reader returns `Read`'s value and moves to its end |
| UnpackHuffman.Group | src/at9/Unpack.ts:333-336 | a grouped value splits into `ValueCount` coefficients |
| UnpackHuffman.GroupThrough | src/at9/Unpack.ts:333-336 | the first f + 1 coefficients of a group |
| UnpackHuffman.GroupAt | src/at9/Unpack.ts:333-336 | coefficient f of a group is field f of its value |
| UnpackHuffman.Unpacked | src/at9/Unpack.ts:330-337 | the first g values unpack into g times `ValueCount` coefficients |
| UnpackHuffman.UnpackedThrough | src/at9/Unpack.ts:330-337 | the first i + 1 values unpack into (i + 1) times `ValueCount` coefficients |
| UnpackHuffman.UnpackedAt | src/at9/Unpack.ts:330-337 | coefficient f of group i sits at i * ValueCount + f |
| UnpackHuffman.FieldIsDigit | src/at9/Unpack.ts:334-335 | for a value below 2^31 and 1 to 30 bits per field, field f is base-2^b digit f of the value read as a b-bit two's-complement number |
| UnpackHuffman.DigitOfShifted | src/at9/Unpack.ts:334-335 | shifting and masking extract exactly that digit |
| UnpackHuffman.FieldCongruent | src/at9/Unpack.ts:334 | the stored coefficient is the sign-extension of the masked digit |
| UnpackHuffman.LowMask | src/at9/Unpack.ts:328 | `(1 << ValueBits) - 1` keeps the value's last base-2^b digit |
| UnpackHuffman.ShiftedDigits | src/at9/Unpack.ts:335 | after f shifts the value is divided by 2^(b f) and stays non-negative |
| UnpackHuffman.ShiftDigit | src/at9/Unpack.ts:335 | one more arithmetic shift by b divides by 2^b more |
| UnpackHuffman.GroupNext | src/at9/Unpack.ts:333-336 | a group of j + 1 fields is the group of j followed by field j |
| UnpackHuffman.SplitStep | src/at9/Unpack.ts:334-335 | one pass of the inner loop writes field j after the first j and shifts the value on |
| UnpackHuffman.SplitValue | src/at9/Unpack.ts:333-336 | the inner loop writes the value's fields from the position on |
| UnpackHuffman.UnpackedStep | src/at9/Unpack.ts:330-337 | unpacking one more value appends its group |
| UnpackHuffman.Spliced | src/at9/Unpack.ts:326-338 | what is written is the old spectrum with the coefficients placed at the index |
| UnpackHuffman.WriteGroup | src/at9/Unpack.ts:331-336 | one pass of the outer loop writes value i at index + i * ValueCount |
| UnpackHuffman.DecodeHuffmanValues | src/at9/Unpack.ts:326-338 | `decodeHuffmanValues` returns the spectrum with the unpacked coefficients of `bandCount >> ValueCountPower` values placed from the index on, every other entry unchanged |
| Spectra.CodebookSelection | src/at9/Unpack.ts:234-280 | one flag (0 or 1) per unit slot, and a unit is flagged only when it lies in [8, coded units) at a low sample rate |
| Spectra.LowUnitsPeakOnly | src/at9/Unpack.ts:259-267 | units 8 to 11 are flagged exactly when they peak over their neighbours (with the borrowed factor past the last coded unit) |
| Spectra.CalculateSpectrumCodebookIndex | src/at9/Unpack.ts:234-280 | the channel's codebook sets become `CodebookSelection`; nothing else changes, the borrowed scale factor included |
| Spectra.SelectCodebooks | src/at9/Unpack.ts:247-279 | the two passes (the peak rule from unit 8, the raised rule from unit 12) give `CodebookSelection` |
| Spectra.SumOfFirst | src/at9/Unpack.ts:253-255 | the loop adds up the first n scale factors |
| Spectra.SpectrumBook | src/at9/Unpack.ts:292 | a codebook exists exactly for set 0 or 1 and a precision in the loaded table's range, and it is a well-formed spectrum codebook |
| Spectra.GroupsFit | src/at9/Unpack.ts:293 | a unit's groups of coefficients fit in the unit |
| Spectra.HuffmanGroups | src/at9/Unpack.ts:293 | the number of codes in a unit is its size shifted right by the group-size power, and the groups fit the unit |
| Spectra.HuffmanValues | src/at9/Unpack.ts:295-297 | the value buffer keeps its 16 entries |
| Spectra.HuffmanUnit | src/at9/Unpack.ts:291-299 | a Huffman-coded unit passes and changes no coefficient outside the unit |
| Spectra.FixedUnit | src/at9/Unpack.ts:300-306 | a fixed-width unit changes no coefficient outside the unit |
| Spectra.UnitSpectra | src/at9/Unpack.ts:287-307 | one unit changes no coefficient outside it; it fails exactly when it is Huffman-coded (precision up to the rate's limit) and the table has no codebook for its set and precision, and then with an undefined access and nothing written |
| Spectra.SpectraUnits | src/at9/Unpack.ts:282-308 | `readSpectra` over the first n units keeps 256 coefficients and 16 buffered values |
| Spectra.SpectraThrough | src/at9/Unpack.ts:287-307 | the same through unit i |
| Spectra.SpectraUnitsStep | src/at9/Unpack.ts:287-307 | after units that pass, the next unit is read where they end |
| Spectra.SpectraPass | src/at9/Unpack.ts:282-308 | the stage passes exactly when every coded unit read with Huffman coding has a codebook; the only failure is an undefined access |
| Spectra.AllBooksSplit | src/at9/Unpack.ts:287 | every unit below n has a codebook exactly when those below n - 1 do and unit n - 1 does |
| Spectra.SpectraAboveZero | src/at9/Unpack.ts:284 | coefficients past the coded units stay zero |
| Spectra.SpectraAboveStep | src/at9/Unpack.ts:287-307 | a unit's read leaves the coefficients past it as they were |
| Spectra.SpectraFailureStays | src/at9/Unpack.ts:282-308 | once a unit fails nothing further is read or written |
| Spectra.ReadHuffmanUnit | src/at9/Unpack.ts:291-299 | the Huffman branch on the reader gives `HuffmanUnit` |
| Spectra.ReadHuffmanValues | src/at9/Unpack.ts:295-297 | the code loop on the reader gives `HuffmanValues` |
| Spectra.ReadFixedUnit | src/at9/Unpack.ts:301-305 | the fixed-width branch on the reader gives `FixedUnit` |
| Spectra.ReadUnitSpectra | src/at9/Unpack.ts:288-306 | one unit on the reader gives `UnitSpectra` |
| Spectra.ReadSpectra | src/at9/Unpack.ts:282-308 | `readSpectra`: the channel's quantized coefficients and value buffer become those of `SpectraUnits` over the coded units, the reader ends where it ends and the outcome is its outcome; nothing else in the channel changes |
| Spectra.ReadUnits | src/at9/Unpack.ts:287-307 | the unit loop on the reader gives `SpectraUnits` |
| Spectra.ReadUnitsUntilFailure | src/at9/Unpack.ts:287-307 | the loop stops after all n units or at the first that fails |
| Spectra.ReadNextUnit | src/at9/Unpack.ts:288-306 | one pass extends `SpectraUnits` by one unit |
| Spectra.StoreSpectra | src/at9/Unpack.ts:283-284 | the coefficients and buffer are stored and nothing else in the channel changes |
| Spectra.OverflowUnits | src/at9/Unpack.ts:310-324 | the overflow reading keeps 256 coefficients |
| Spectra.OverflowUnit | src/at9/Unpack.ts:313-323 | the same through unit i |
| Spectra.OverflowUnitsZero | src/at9/Unpack.ts:311-323 | a coefficient of a unit past the coded units, or of a unit whose precision is not positive, stays zero |
| Spectra.OverflowUnitKeeps | src/at9/Unpack.ts:314-322 | unit i leaves the coefficients outside it alone, and all of them when its precision is not positive |
| Spectra.ReadOverflowUnits | src/at9/Unpack.ts:313-323 | the shared loop on the reader gives `OverflowUnits` |
| Spectra.ReadOverflowUnit | src/at9/Unpack.ts:314-322 | one pass extends `OverflowUnits` by one unit |
| Spectra.ReadSpectraFine | src/at9/Unpack.ts:310-324 | `readSpectraFine`: the fine coefficients become `OverflowUnits` over the fine precisions and coded units, the reader ends where it ends, nothing else in the channel changes |
| Unpacking.ReadFlag | src/utilities/BitReader.ts:41-43 | `readBool` returns the bit at the position and moves one bit on |
| Unpacking.HeaderCheck | src/at9/Unpack.ts:38-44 | the header passes exactly when the first-in-superframe flag agrees with frame index 0 and, in the first frame, only an LFE block asks to reuse band parameters; the failure is `InvalidDataException` |
| Unpacking.ReadBlockHeader | src/at9/Unpack.ts:33-45 | `readBlockHeader` reads two bits, stores the inverted first bit as first-in-superframe and the second as reuse, changes nothing else in the block, and returns `HeaderCheck` |
| Unpacking.BandField | src/at9/Unpack.ts:78-79 | a 4-bit band field plus the rate's minimum band count is a valid index of the band table, 4 bits on |
| Unpacking.WithLayout | src/at9/Unpack.ts:74-113 | storing a band layout sets exactly the layout's fields |
| Unpacking.AcceptedUnits | src/at9/Unpack.ts:74-113 | an accepted layout codes at most as many units as it extends, within 30, and a stereo block codes at least its stereo units |
| Unpacking.BandParamsUnitCounts | src/at9/Unpack.ts:80-111 | every unit count the band stage stores comes from the band table, so the counts stay within 30 units, whether it passes or not |
| Unpacking.BandParamsChecks | src/at9/Unpack.ts:74-113 | the band stage passes exactly when the band count is at most the rate's maximum, the stereo band at most the band count and an enabled extension band between the band count and the rate's maximum; the only error is `InvalidDataException` |
| Unpacking.StereoBandKeeps | src/at9/Unpack.ts:86-96 | the stereo step sets only the stereo band and stereo unit (the band count for a non-stereo block), and the check passes exactly when the stereo band is at most the band count |
| Unpacking.ExtensionBandChecks | src/at9/Unpack.ts:98-112 | the extension step sets only the extension fields (the band count and unit count when disabled) and passes exactly when an enabled extension band is acceptable |
| Unpacking.ReadBandParams | src/at9/Unpack.ts:74-113 | `readBandParams` leaves the block with the layout `BandParams` reads, every other field kept, the reader where it ends and its outcome |
| Unpacking.ReadBandLayout | src/at9/Unpack.ts:75-112 | the reading half on the layout as a value gives `BandParams` |
| Unpacking.ReadStereoBand | src/at9/Unpack.ts:86-92 | the stereo step on the reader gives `StereoBand` |
| Unpacking.ReadExtensionBand | src/at9/Unpack.ts:98-112 | the extension step on the reader gives `ExtensionBand` |
| Unpacking.GradientCheck | src/at9/Unpack.ts:132-154 | the checks pass exactly when the header is accepted, and fail with `InvalidDataException` |
| Unpacking.GradientFieldsChecked | src/at9/Unpack.ts:115-155 | the mode lies in [0, 3] and the boundary in [0, 15]; a non-zero mode fixes end unit and end value at 31; the header is accepted exactly when the boundary is at most the unit count and 1 <= start unit <= end unit < 48 (the value checks cannot fail) |
| Unpacking.ShortGradientFields | src/at9/Unpack.ts:121-130 | the fields of a sloped header lie within their widths |
| Unpacking.LongGradientFields | src/at9/Unpack.ts:124-130 | the fields of a flat-mode header lie within their widths |
| Unpacking.AcceptedGradientDrawable | src/at9/Unpack.ts:136-146 | an accepted header describes a gradient whose curve exists (start and end unit in [1, 47], start before end) |
| Unpacking.ReadGradientFields | src/at9/Unpack.ts:116-130 | the reads on the reader give `GradientFields` |
| Unpacking.ReadGradientParams | src/at9/Unpack.ts:115-155 | `readGradientParams` stores the whole header before checking it, changes nothing else in the block and returns `GradientCheck` against the unit count |
| Unpacking.StoreField | src/at9/Unpack.ts:166-168 | one pass of a store loop reads the next field and writes it after those already written |
| Unpacking.ReadRunInto | src/at9/Unpack.ts:166-168 | a store loop writes n consecutive fields from the index on and changes nothing else |
| Unpacking.StereoParamsSigns | src/at9/Unpack.ts:157-172 | a non-stereo block keeps its stereo fields; a stereo block's primary index is 0 or 1, its flag is the bit read; without the flag every sign is 0, with it the signs from the stereo unit to the unit count hold the bits read for them and the others keep theirs |
| Unpacking.SignRunAt | src/at9/Unpack.ts:166-168 | unit i of a sign run holds the bit read for it when the loop reaches it, its old sign otherwise |
| Unpacking.ReadStereoParams | src/at9/Unpack.ts:157-172 | `readStereoParams` leaves the block with the stereo fields `StereoParams` reads, every other field kept |
| Unpacking.ReadSigns | src/at9/Unpack.ts:166-168 | the sign loop on the reader gives `SignRun` |
| Unpacking.BexHeader | src/at9/Unpack.ts:175-179 | a channel's header: a 2-bit mode (4 when the extension covers at most two bands), 0 to 4 values that mode codes, 2 bits on |
| Unpacking.BexWidths | src/at9/Unpack.ts:183 | one data length per value, each below 256 |
| Unpacking.Widths | src/at9/Unpack.ts:182-185 | one field per width, never moving back |
| Unpacking.WidthsAt | src/at9/Unpack.ts:184 | each narrow field lies below 2^width |
| Unpacking.BexData | src/at9/Unpack.ts:181-186 | a channel's values keep their four entries |
| Unpacking.ExtensionParamsOutcome | src/at9/Unpack.ts:174-232 | the stage fails with the undefined-row error exactly when band extension is on and the unit count has no group row; any other failure is `InvalidDataException` from values overrunning a positive announced length; with extension off the channels are untouched and the stage passes |
| Unpacking.ExtensionDataOutcome | src/at9/Unpack.ts:213-231 | after the flag the stage fails only by overrunning a positive announced length |
| Unpacking.ExtensionSkipped | src/at9/Unpack.ts:206-210 | without band extension, data present is skipped: a 2-bit mode, a 5-bit length and that many bits |
| Unpacking.ReadBexHeader | src/at9/Unpack.ts:175-179 | the header on the reader gives `BexHeader` |
| Unpacking.ReadWidths | src/at9/Unpack.ts:182-185 | the data loop writes one field per width from the first value on |
| Unpacking.ReadBexData | src/at9/Unpack.ts:181-186 | a channel's data on the reader gives `BexData` |
| Unpacking.ReadExtensionFields | src/at9/Unpack.ts:174-232 | the reading half on the fields as values gives `ExtensionParams` |
| Unpacking.ReadSkippedExtension | src/at9/Unpack.ts:206-210 | the skipped branch on the reader gives `SkippedExtension` |
| Unpacking.ReadBandedExtension | src/at9/Unpack.ts:190-198 | the banded header on the reader gives `BandedExtension` |
| Unpacking.ReadExtensionData | src/at9/Unpack.ts:213-231 | the data branch on the reader gives `ExtensionData` |
| Unpacking.BexStates | src/at9/Unpack.ts:175-186 | the channels' extension fields in channel order |
| Unpacking.ReadExtensionParams | src/at9/Unpack.ts:174-232 | `readExtensionParams`: the block's extension fields and each channel's mode, value count and values become what `ExtensionParams` reads, nothing else changes, and the reader ends where it ends |
| BlockUnpacking.DistinctChannels | src/at9/Block.ts:1-67 | the two channels of a stereo block are two distinct objects |
| BlockUnpacking.LfePrecision | src/at9/Unpack.ts:368-376 | the LFE precision is 8 when the block reuses its band parameters and 4 otherwise |
| BlockUnpacking.LfeScaleFactors | src/at9/Unpack.ts:360-366 | the factors past the unit count stay zero |
| BlockUnpacking.LfeScaleFactorsRead | src/at9/Unpack.ts:363-365 | each of the first units' factors is the 5-bit field at 5 bits per unit, in [0, 32), and the fields end 5 bits apiece on |
| BlockUnpacking.DecodeLfeScaleFactors | src/at9/Unpack.ts:360-366 | `decodeLfeScaleFactors` sets the channel's factors to `LfeScaleFactors` and changes nothing else |
| BlockUnpacking.CalculateLfePrecision | src/at9/Unpack.ts:368-376 | the first unit-count precisions become the LFE precision and their fine parts 0; later entries and every other field are kept |
| BlockUnpacking.ReadLfeSpectra | src/at9/Unpack.ts:378-392 | `readLfeSpectra`: the coefficients become `OverflowUnits` over the precisions (units with a positive precision p hold (p + 1)-bit signed fields), nothing else changes |
| BlockUnpacking.OverflowStep | src/at9/Unpack.ts:381-391 | a unit with a positive precision is read from where the units before it end |
| BlockUnpacking.LfeCoefficientsEnd | src/at9/Unpack.ts:378-392 | with both LFE precisions equal to p > 0 the coefficients take 4 (p + 1) bits |
| BlockUnpacking.LfeSecondUnit | src/at9/Unpack.ts:388-390 | the second unit writes two (p + 1)-bit fields at bins 2 and 3 |
| BlockUnpacking.LfeFirstUnit | src/at9/Unpack.ts:388-390 | the first unit writes two (p + 1)-bit fields at bins 0 and 1 and every other bin is zero |
| BlockUnpacking.UnpackLfeBlock | src/at9/Unpack.ts:350-358 | `unpackLfeBlock`: the block's unit count becomes 2 and nothing else in it changes; the first channel reads the 5-bit factors, takes the fixed precision, codes both units and reads its coefficients |
| BlockUnpacking.UnpackLfeChannel | src/at9/Unpack.ts:354-357 | the channel part of the LFE body, as `LfeChannelRead` says |
| BlockUnpacking.LfeBodyLength | src/at9/Unpack.ts:350-358 | the whole LFE body is ten bits of scale factors then four signed fields of 9 bits (reuse) or 5 bits |
| BlockUnpacking.BandStage | src/at9/Unpack.ts:50-52 | the band stage keeps the unit counts in range and sets only the layout; a block that reuses its band parameters skips it |
| BlockUnpacking.GradientStage | src/at9/Unpack.ts:54-55 | the gradient stage keeps the layout, the signs, the previous unit count and the gradient's size |
| BlockUnpacking.HeaderStagesShape | src/at9/Unpack.ts:50-56 | the header stages keep the unit counts within 30, thirty signs, the gradient's size and the previous unit count, and fail only with `InvalidDataException` |
| BlockUnpacking.BandStageFails | src/at9/Unpack.ts:50-52 | the band stage fails only with `InvalidDataException` |
| BlockUnpacking.ReadBandStage | src/at9/Unpack.ts:50-52 | the band stage on the heap gives `BandStage` |
| BlockUnpacking.ReadGradientStage | src/at9/Unpack.ts:54-55 | `readGradientParams` then `createGradient` (only when the header is accepted) give `GradientStage` |
| BlockUnpacking.ReadHeaderStages | src/at9/Unpack.ts:50-56 | the header stages on the heap give `HeaderStages` |
| BlockUnpacking.HeaderPart | src/at9/Unpack.ts:50-56 | the header stages on the heap are `HeaderStages`, and they keep the unit counts in range, thirty stereo signs and the gradient's size |
| BlockUnpacking.ExtensionPart | src/at9/Unpack.ts:57 | the block's extension fields and each channel's become those `ExtensionParams` reads, nothing else in them changes, and every channel stays valid |
| BlockUnpacking.ScaleFactorStep | src/at9/ScaleFactors.ts:8-55 | the read keeps the channel's arrays at their sizes |
| BlockUnpacking.Allocated | src/at9/Unpack.ts:63-65 | mask, precisions and codebook sets keep the channel's arrays at their sizes |
| BlockUnpacking.CoefficientStep | src/at9/Unpack.ts:67-68 | the coefficient reads keep the channel's arrays at their sizes |
| BlockUnpacking.ChannelPass | src/at9/Unpack.ts:59-69 | one pass of the channel loop keeps the channel's arrays at their sizes |
| BlockUnpacking.ChannelPassDecoded | src/at9/Unpack.ts:59-69 | a pass that succeeds leaves the channel's coded units those of its role, its factors in range and copied to the previous ones, its mask `Mask` and its codebook sets `CodebookSelection`; a pass fails exactly when the scale factors or the coefficients fail |
| BlockUnpacking.ReadChannelFactors | src/at9/Unpack.ts:60-62 | `updateCodedUnits` (the unit count for the primary channel, the stereo unit otherwise) then `ScaleFactors.read` give `ScaleFactorStep` |
| BlockUnpacking.AllocateChannel | src/at9/Unpack.ts:63-65 | the bit allocation on the heap gives `Allocated` |
| BlockUnpacking.ReadChannelCoefficients | src/at9/Unpack.ts:67-68 | `readSpectra` then `readSpectraFine` (unless the first fails) give `CoefficientStep` |
| BlockUnpacking.UnpackChannel | src/at9/Unpack.ts:59-69 | one pass on the heap gives `ChannelPass` |
| BlockUnpacking.FinishChannel | src/at9/Unpack.ts:63-68 | the allocation then the coefficients, as `CoefficientStep` of `Allocated` |
| BlockUnpacking.UnpackChannelAt | src/at9/Unpack.ts:59-69 | pass i: channel i becomes what `PassAt` computes from the bits where the reader stands (coded units, factors, allocation, codebooks, coefficients), the other channel is unchanged, and the reader stops where the pass does |
| BlockUnpacking.PassOnChannel | src/at9/Unpack.ts:59-69 | channel i's state becomes what `PassAt` computes, against the block and channel 0's factors as they stand |
| BlockUnpacking.PassAtDecoded | src/at9/Unpack.ts:59-69 | a pass of channel i that does not throw leaves it decoded for its role in the block |
| BlockUnpacking.ChannelsFromKeeps | src/at9/Unpack.ts:59-69 | the loop from channel i leaves the channels before i as they are and keeps every channel's buffer sizes |
| BlockUnpacking.ChannelsFromDecoded | src/at9/Unpack.ts:59-69 | a loop that passes leaves every channel from i on decoded: the coded units of its role, its factors in range, its mask and codebook sets |
| BlockUnpacking.UnpackChannels | src/at9/Unpack.ts:59-69 | the channel loop: each channel in turn, stopping at the first that throws, exactly as `ChannelsFrom` says (channel 1 reads against the factors channel 0 has just read); the block itself does not change |
| BlockUnpacking.NextPrev | src/at9/Unpack.ts:71 | the next block compares against the extension unit when band extension is on, the unit count otherwise |
| BlockUnpacking.BlockLevelReady | src/at9/Unpack.ts:50-57 | the block-level stages keep the unit counts, signs, gradient and channel sizes the channel loop relies on |
| BlockUnpacking.BlockLevelKeeps | src/at9/Unpack.ts:50-57 | the block-level stages keep the two header flags and the previous frame's unit count |
| BlockUnpacking.BlockLevelFails | src/at9/Unpack.ts:50-57 | the block-level stages throw only the invalid-data error or the undefined row of the group table |
| BlockUnpacking.StandardBodyDecoded | src/at9/Unpack.ts:47-72 | a standard body keeps the block ready and its header flags; one that passes records `NextPrev` and leaves every channel decoded for its role |
| BlockUnpacking.BlockStages | src/at9/Unpack.ts:50-57 | the header stages then, unless they threw, the extension parameters: the block and its channels end exactly as `BlockLevel` says, and stay ready |
| BlockUnpacking.UnpackStandardBlock | src/at9/Unpack.ts:47-72 | `unpackStandardBlock`: the block and its channels end exactly as `StandardBody` says (block-level stages, then the channel loop, then the unit count recorded when it passes), and the block stays decodable |
| BlockUnpacking.ChannelsThenPrev | src/at9/Unpack.ts:59-71 | the channels end as `ChannelsFrom` reads them, the reader where the loop stops, and the block gains `NextPrev` as its previous unit count exactly when the loop passes |
| BlockUnpacking.RecordPrev | src/at9/Unpack.ts:71 | only the previous unit count changes, to `NextPrev`, and decoded channels stay decoded |
| BlockUnpacking.BlockHeader | src/at9/Unpack.ts:33-45 | `readBlockHeader` on a decodable block keeps it decodable, as `ReadBlockHeader` says |
| BlockUnpacking.LfeReadFixed | src/at9/Unpack.ts:350-358 | the LFE read codes two units, with the fixed precision, no fine part and factors in [0, 32) |
| BlockUnpacking.LfeBody | src/at9/Unpack.ts:350-358 | `unpackLfeBlock` on a decodable block keeps it decodable and leaves its channel as `LfeFixed` says |
| BlockUnpacking.UnpackBlock | src/at9/Unpack.ts:21-31 | `unpackBlock`, exactly as `BlockRead` says: the two header flags and their check (a failed check stops there), then the LFE or the standard body, then padding to the next byte when the body passes; the block stays decodable whatever throws |
| BlockUnpacking.BlockReadPasses | src/at9/Unpack.ts:21-45 | a block read that passes ends on a byte boundary, with the first-in-superframe flag matching frame index 0 and the reuse flag the second bit; an LFE block then holds `LfeFixed`, a standard block has every channel decoded and `NextPrev` recorded |
| BlockUnpacking.BlockReadHeaderFails | src/at9/Unpack.ts:33-45 | a block whose header check throws is read as far as its two flags and no further |
| BlockUnpacking.BlockReadLfe | src/at9/Unpack.ts:24-30 | an LFE block whose check passes has two coded units, its only channel read as `LfeChannelRead` says, and the reader padded to the next byte |
| BlockUnpacking.BlockReadStandard | src/at9/Unpack.ts:26-30 | a standard block whose check passes is read as `StandardBody` says, padded to the next byte only when the body passes |
| BlockUnpacking.AlignedLfeBody | src/at9/Unpack.ts:24-30 | the LFE body, read as `LfeChannelRead` says up to `bodyEnd`, then padding to the next byte |
| BlockUnpacking.AlignedStandardBody | src/at9/Unpack.ts:26-30 | the block and channels end as `StandardBody` says, `bodyEnd` is where that body stops, and the reader is padded to the next byte only when it passes |
| FrameUnpacking.FrameParts | src/at9/Frame.ts:8-16 | a decodable frame has its shape and each of its blocks is decodable |
| FrameUnpacking.FrameWhole | src/at9/Frame.ts:8-16 | conversely the shape and decodable blocks make the frame decodable |
| FrameUnpacking.UnpackFrameBlock | src/at9/Unpack.ts:16-18 | block i of the frame is read from where the reader stands as `BlockRead` says; every other block and its channels keep their states, and every block stays decodable |
| FrameUnpacking.OtherBlockUnchanged | src/at9/Frame.ts:13-15 | each block of the frame is its own object, and owns none of another block's channels |
| FrameUnpacking.BlockObjectsInFrame | src/at9/Frame.ts:11-15 | a block and its channels belong to the frame's objects, and the frame is not one of them |
| FrameUnpacking.UnpackFrame | src/at9/Unpack.ts:15-19 | `unpackFrame`: each block in order, read as `BlockRead` says from where the one before stopped and checked against the frame's index, until one throws; the blocks after a throw keep their states, the frame stays decodable, and on success every block is read |
| DecodeState.ZeroFill | src/at9/Channel.ts:40-41 | a buffer after `fill(0)` has the requested size and holds only zeros |
| DecodeState.InitialChannel | src/at9/Channel.ts:40-62 | a fresh channel: every buffer at its size (31 factors, 30 unit slots, 256 bins, 16 values, 4 band extension values, 6 scales) and zero, no coded units yet beyond 0, and no noise generator |
| DecodeState.Channel.constructor | src/at9/Channel.ts:34-63 | a channel holds its index, configuration and transform, two fresh 256-sample buffers of zeros, and the initial channel state |
| DecodeState.Channel.UpdateCodedUnits | src/at9/Channel.ts:65-69 | the primary channel codes the block's unit count, any other channel the stereo unit; a block with no primary index leaves every channel at the stereo unit; nothing else changes |
| DecodeState.Channel.StoreScaleFactors | src/at9/Channel.ts:16-19 | the coding mode, the factors and the previous factors are replaced, nothing else changes, and factors of the right size keep the channel valid |
| DecodeState.Channel.StoreBexScales | src/at9/Channel.ts:28-31 | the band extension scale list is replaced, nothing else changes, and a list of at least six keeps the channel valid |
| DecodeState.Channel.StoreRng | src/at9/BandExtension.ts:134-138 | the channel's generator becomes the one given, nothing else changes |
| DecodeState.InitialBlock | src/at9/Block.ts:52-53 | a fresh block: 31 gradient entries and 30 stereo signs, all zero, with the primary channel index and stereo unit unassigned |
| DecodeState.Block.constructor | src/at9/Block.ts:45-54 | a block holds its configuration, index, type, the channels the type carries and the initial block state |
| DecodeState.Block.StereoRoles | src/at9/Block.ts:37-38 | in a stereo block the primary and secondary channels are the block's two distinct channels, and once the index is 0 or 1 exactly the primary one is primary |
| DecodeState.Block.UnassignedHasNoPrimary | src/at9/Block.ts:37-38 | a block whose primary index was never set has no primary channel; its primary slot is 1 and its secondary slot 0 |
| DecodeState.Block.ChannelsValid | src/at9/Block.ts:51 | the channels of a valid block are valid, at their own index, and distinct in a stereo block |
| DecodeState.NewChannel | src/at9/Channel.ts:34-63 | `new Channel`: fails exactly when the window for the frame size is shorter than the frame; otherwise a fresh valid channel with the configuration, the window and zeroed buffers and history, the shared tables grown to the frame size only when they were narrower |
| DecodeState.NewBlock | src/at9/Block.ts:45-54 | `new Block`: the type the configuration gives at the index, a fresh valid block in its initial state whose channels are all initial and share one window |
| DecodeState.NewChannels | src/at9/Block.ts:51 | one fresh valid channel per slot of the block, each at its index, and two channels that share no object |
| DecodeState.Frame.constructor | src/at9/Frame.ts:8-16 | a frame holds its configuration and blocks, frame index 0 |
| DecodeState.NewFrame | src/at9/Frame.ts:8-16 | `new Frame`: one initial block per entry of the configuration, frame index 0, as many channels in all as the configuration counts; fails exactly when the window is too short |
| DecodeState.NewBlocks | src/at9/Frame.ts:13-15 | the constructor's loop: block i for each index, mutually disjoint, carrying the configuration's channel count in all |
| DecodeState.ExtendBlocks | src/at9/Frame.ts:14 | one pass of that loop: one more block, fresh and disjoint from those before it |
| DecodeState.AppendBlock | src/at9/Frame.ts:13-15 | one more block adds its type's channels to the running channel total |
| Decoding.PrepareSpectra | src/at9/Atrac9Decoder.ts:124-126 | the first three stages of a block: each channel's spectrum becomes its dequantized spectrum, rebuilt from the primary one for a stereo secondary channel, then scaled by its factors |
| Decoding.StereoThenScale | src/at9/Atrac9Decoder.ts:125-126 | intensity stereo then scaling: each channel's spectrum is the scaled intensity-stereo spectrum of its source slot and its own |
| Decoding.SpectrumStages | src/at9/Atrac9Decoder.ts:124-127 | the four spectrum stages: they fail exactly when band extension throws for the block, and otherwise leave in each channel what band extension makes of the prepared spectrum |
| Decoding.DecodeBlock | src/at9/Atrac9Decoder.ts:124-128 | one block of `decodeFrame`: the spectrum stages, then, when they pass, each channel's inverse transform from its history and PCM tail; a throwing band extension ends it before any transform |
| Decoding.TransformStage | src/at9/Atrac9Decoder.ts:128 | the transforms change neither the block's fields, the channels' fields nor their spectra, and each channel ends transformed from the history and tail it started with |
| Decoding.ImdctBlock | src/at9/Atrac9Decoder.ts:132-136 | `imdctBlock`: each channel's spectrum through its own transform into its PCM, from the history and tail it held |
| Decoding.TransformFirst | src/at9/Atrac9Decoder.ts:133-135 | channel 0's transform, which leaves channel 1's PCM and history as they were |
| Decoding.TransformSecond | src/at9/Atrac9Decoder.ts:133-135 | channel 1's transform, which keeps channel 0's finished result |
| Decoding.SeparateTransforms | src/at9/Channel.ts:38 | each channel owns its transform: what one channel's transform writes is nothing the other's reads |
| Decoding.BlockTransformsApart | src/at9/Channel.ts:38-41 | the channels of a ready block can run their transforms independently |
| Decoding.FrameFits | src/at9/Channel.ts:40-41 | a frame of 2^6 to 2^8 samples fits the 256-sample PCM and spectrum buffers |
| Decoding.BlockStep | src/at9/Atrac9Decoder.ts:123-129 | one pass of the block loop: the block's fields are kept, the pass fails exactly when its band extension throws, and when it passes every channel decoded as `BlockDecoded` says (dequantized, stereo, scaled, extended spectrum, then its transform from the history and tail it held) |
| Decoding.DecodeFrameBlock | src/at9/Atrac9Decoder.ts:123-129 | block i's stages inside the frame: it fails exactly when block i's band extension throws, on success block i decoded as `BlockDecoded` says, and every other block's values unchanged |
| Decoding.OtherBlockOutside | src/at9/Frame.ts:13-15 | another block, its channels and its transforms are none of the objects block i's stages write |
| Decoding.DecodeBlocks | src/at9/Atrac9Decoder.ts:123-129 | every block in order; it passes exactly when no block's band extension throws, keeps the blocks' fields as unpacking set them, and on success every block decoded from its values as `BlockDecoded` says |
| Decoding.ReadBlocks | src/at9/Atrac9Decoder.ts:121 | the unpacking half of `decodeFrame`: the blocks read as `FrameRead` says, the blocks past a throw as they were; on success every block's first-in-superframe flag matches frame index 0 and the reader sits on a byte boundary |
| Decoding.DecodeFrame | src/at9/Atrac9Decoder.ts:120-130 | `decodeFrame`: the frame's values go from what they held to what `FrameDecoded` gives for the bits from the reader's position (every block read as `BlockRead` says, then decoded as `BlockDecoded` says); the reader's bytes are untouched, it stops where the last block read stops, and on success it is byte aligned and every block carries the frame's first-in-superframe flag |
| Decoding.FrameDecodedPasses | src/at9/Atrac9Decoder.ts:120-130 | a frame that decoded read every block, each with a header agreeing with the frame's index and a band extension that did not throw; every block kept the fields it read and the reader ends on a byte boundary |
| Atrac9Decoders.BufferCheck | src/at9/Atrac9Decoder.ts:37-62 | `validateDecodeBuffers`'s verdict, each error exactly when its check is the first to fail: no configuration, no ATRAC9 buffer, no PCM list, an ATRAC9 buffer shorter than a superframe, then too few or too short outputs; it passes exactly when the buffers fit |
| Atrac9Decoders.ValidateDecodeBuffers | src/at9/Atrac9Decoder.ts:37-62 | the checks one by one, with the output loop, decide what `BufferCheck` decides |
| Atrac9Decoders.ChannelsFit | src/at9/Atrac9Decoder.ts:37-62 | given output arrays that are distinct from one another (which `validateDecodeBuffers` does not check: see Left out), buffers that pass the checks give a present ATRAC9 buffer and a present output per channel, each large enough for the superframe |
| Atrac9Decoders.ChannelOutputs | src/at9/Atrac9Decoder.ts:57-61 | the first n outputs, each present, in order |
| Atrac9Decoders.Atrac9Decoder.constructor | src/at9/Atrac9Decoder.ts:16-18 | a new decoder is not initialized and has no configuration |
| Atrac9Decoders.Atrac9Decoder.Initialize | src/at9/Atrac9Decoder.ts:20-25 | `initialize`: fails exactly when the descriptor does not parse, with the parse error and the decoder unchanged; otherwise initialized with the parsed configuration, a frame at index 0 whose blocks are all initial, and a reader with no buffer at position 0 |
| Atrac9Decoders.Atrac9Decoder.Install | src/at9/Atrac9Decoder.ts:21-24 | the four assignments of `initialize` leave a valid initialized decoder holding the new configuration, frame and reader |
| Atrac9Decoders.Atrac9Decoder.Assign | src/at9/Atrac9Decoder.ts:21-24 | the field updates alone, which keep the frame and reader as built |
| Atrac9Decoders.Atrac9Decoder.ReadyValid | src/at9/Atrac9Decoder.ts:11-15 | an initialized decoder whose frame and reader are ready is valid |
| Atrac9Decoders.Atrac9Decoder.Decode | src/at9/Atrac9Decoder.ts:27-35 | `decode`: before `initialize` it fails as not initialized; buffers that do not fit fail with one of the four buffer errors; either failure leaves the reader, the frame and every output as they were. Otherwise (`DecodedInto`) the reader holds the bytes, the frames are those `SuperframeDecoded` reads from the bytes' bits from bit 0, and every output slot holds those frames' rounded PCM over what it held |
| Atrac9Decoders.Atrac9Decoder.DecodeFitted | src/at9/Atrac9Decoder.ts:33-34 | once the buffers fit: the decoder keeps its configuration, frame and reader, and the outputs hold, over their old contents, the superframe `SuperframeDecoded` reads from the bytes (`DecodedInto`) |
| Atrac9Decoders.DecodeChannels | src/at9/Atrac9Decoder.ts:33-34 | `setBuffer` then `decodeSuperFrame` into one output per channel: the reader over the bytes, the frames decoded from the bytes' bits as `SuperframeDecoded` says, and the outputs holding them over their old contents |
| Atrac9Decoders.Point | src/at9/Atrac9Decoder.ts:33 | `setBuffer`: the reader holds the bytes and their bits, at position 0, and the frame stays ready |
| Atrac9Decoders.NewParts | src/at9/Atrac9Decoder.ts:22-23 | `new Frame(config)` and `new BitReader(null)`: a fresh reader with no buffer at position 0 and a freshly built frame |
| Atrac9Decoders.InitialReady | src/at9/Frame.ts:8-16 | a freshly built frame whose tables are wide enough is ready to decode, its PCM fits, and it has as many output channels as the configuration |
| Atrac9Decoders.BlockReadyToTransform | src/at9/Channel.ts:38 | a valid block of a laid-out frame, with wide enough tables and one window, can run its channels' transforms apart |
| Superframes.ChannelSamples | src/at9/Atrac9Decoder.ts:106-112 | the first `frameSamples` PCM samples of each channel, in output order |
| Superframes.WindowIndex | src/at9/Atrac9Decoder.ts:72-74 | sample s lies in frame i's window, which starts at i times the frame size, exactly when s divided by the frame size is i; earlier samples belong to earlier frames and later ones to later frames |
| Superframes.WindowExtends | src/at9/Atrac9Decoder.ts:106-115 | writing frame i's window over outputs that hold frames 0 to i-1 makes every slot hold what the superframe picture of frames 0 to i gives |
| Superframes.DecodeStep | src/at9/Atrac9Decoder.ts:69-70 | set the frame index, then decode the frame: its values go to what `FrameDecoded` gives for the bits from the reader's position with that index; the outputs are untouched, and a passing frame leaves the reader byte aligned |
| Superframes.SetFrameIndex | src/at9/Atrac9Decoder.ts:69 | the frame index is set and the frame stays decodable |
| Superframes.OutputStep | src/at9/Atrac9Decoder.ts:74-76 | the frame's PCM, rounded and clamped, into the outputs' window from `start`, every other slot unchanged, and then the reader aligned up to the next byte |
| Superframes.FrameStep | src/at9/Atrac9Decoder.ts:69-76 | one pass of the loop, as `FrameStepped` says: a frame that decodes writes its window from the frame's PCM (`samples` are its channels' first `FrameSamples` samples) and aligns the reader; a frame that fails leaves every output as it was |
| Superframes.OutputPhase | src/at9/Atrac9Decoder.ts:71-76 | the output half of a pass: `samples` are the channels' first `FrameSamples` PCM samples in output order, each written rounded and clamped into its window from `start`, every other slot unchanged, and the reader byte aligned |
| Superframes.FramePass | src/at9/Atrac9Decoder.ts:68-77 | one pass as the loop sees it: the frame decoded from where the reader stood as `FrameStepped` says; a frame that decodes appends its samples to those decoded so far, and the outputs then hold all of them over their previous contents |
| Superframes.WrittenExtends | src/at9/Atrac9Decoder.ts:72-74 | outputs that held frames 0 to i-1, with frame i's window written, hold frames 0 to i |
| Superframes.WrittenKept | src/at9/Atrac9Decoder.ts:68-77 | outputs that kept their contents still hold the frames decoded before |
| Superframes.WindowsFit | src/at9/Atrac9Decoder.ts:72-74 | the next window starts where this one ends, and every window lies within the superframe |
| Superframes.FrameLoop | src/at9/Atrac9Decoder.ts:68-77 | the loop: the frames are those `SuperframeDecoded` reads from the bits from the reader's start, each from where the one before ended; every output slot holds them over its previous contents; it passes exactly when all frames decoded |
| Superframes.DecodeSuperFrame | src/at9/Atrac9Decoder.ts:64-78 | `decodeSuperFrame`: frames 0, 1, ... each decoded with its index from where the one before left the reader, as `SuperframeDecoded` says, and written into its window, until all are done or one fails; each output slot then holds the rounded PCM of the frames decoded, or what it held |
| Superframes.SuperframePasses | src/at9/Atrac9Decoder.ts:64-78 | a superframe that decoded read every frame: in frame f every block was flagged first-in-superframe exactly when f is 0, no band extension threw, every block kept the fields it read, and each frame ended on the byte boundary where the next one starts |
| Superframes.SuperframeExtends | src/at9/Atrac9Decoder.ts:68-77 | a frame stepped from where the frames before it left the reader extends the superframe by one frame, and a failing frame ends it |
| Superframes.FrameChannelsViewed | src/at9/Atrac9Decoder.ts:106-109 | the channels of the frame's values in output order are the values of the frame's channels in output order |
| Superframes.SamplesViewed | src/at9/Atrac9Decoder.ts:106-115 | the samples the output step takes from the channels are the first `FrameSamples` PCM samples of the frame's values |
| Superframes.WrittenStart | src/at9/Atrac9Decoder.ts:64-67 | before any frame the outputs hold their previous contents |
| ArrayUnpacking.LookupType | src/utilities/ArrayUnpacker.ts:164-170 | `TypeLookup[index]` names a type exactly for the eleven indices 0 to 10, and nothing past the table |
| ArrayUnpacking.Width | src/utilities/ArrayUnpacker.ts:97 | `BYTES_PER_ELEMENT` of every element type is 1, 2, 4 or 8 |
| ArrayUnpacking.NibblesSplit | src/utilities/ArrayUnpacker.ts:16-17 | the high and low nibble are each below 16 and put the byte back together |
| ArrayUnpacking.Modulus | src/utilities/ArrayUnpacker.ts:98 | the number of values an element of the type can take is positive |
| ArrayUnpacking.ModulusPow2 | src/utilities/ArrayUnpacker.ts:98 | that number is 2 to the power of eight times the element width |
| ArrayUnpacking.Wrap | src/utilities/ArrayUnpacker.ts:98 | an unsigned reading fits the type once taken as two's complement for a signed type, and is either kept or shifted down by the modulus |
| ArrayUnpacking.ElementValue | src/utilities/ArrayUnpacker.ts:98 | the element a typed array reads from its bytes lies in the type's range |
| ArrayUnpacking.Chunk | src/utilities/ArrayUnpacker.ts:98 | element i's bytes are the i-th run of `Width` bytes, inside the buffer |
| ArrayUnpacking.Elements | src/utilities/ArrayUnpacker.ts:98 | `new storedType(buffer)`: one element per run of bytes, element i read from the i-th run |
| ArrayUnpacking.Store | src/utilities/ArrayUnpacker.ts:102 | storing into an element keeps the value modulo 2^bits and lands in the type's range |
| ArrayUnpacking.StoreKeeps | src/utilities/ArrayUnpacker.ts:102 | a value the target type can hold is stored unchanged |
| ArrayUnpacking.Convert | src/utilities/ArrayUnpacker.ts:100-104 | the copy into a new array of the output type: same length, element i stored from element i |
| ArrayUnpacking.ConvertWidening | src/utilities/ArrayUnpacker.ts:99-104 | copying into a type that holds every value of the stored type changes no element |
| ArrayUnpacking.U16s | src/utilities/ArrayUnpacker.ts:73-75 | `count` consecutive u16 values, the i-th read at `pos + 2i` |
| ArrayUnpacking.ReadArrayAt | src/utilities/ArrayUnpacker.ts:88-105 | `ReadArray`: a length of 0xFFFF is `null` and consumes nothing; otherwise `length` elements of the stored type are consumed, and the result has the output type and `length` elements |
| ArrayUnpacking.ArrayOf | src/utilities/ArrayUnpacker.ts:97-104 | the typed array made from the bytes read has the output type and `length` elements |
| ArrayUnpacking.ReadArrayRead | src/utilities/ArrayUnpacker.ts:97-98 | a length other than 0xFFFF reads exactly `length` elements' bytes and builds the array from them |
| ArrayUnpacking.UnpackAt | src/utilities/ArrayUnpacker.ts:41-86 | `UnpackArray`: a mode byte of 0xFF is `null`, a mode above 2 is invalid data, and any success consumes at least the mode byte |
| ArrayUnpacking.Mode0At | src/utilities/ArrayUnpacker.ts:49-61 | mode 0: a rank other than 1 gives a list of as many sub-arrays as the u16 length |
| ArrayUnpacking.SubRecords | src/utilities/ArrayUnpacker.ts:56-60 | the mode-0 loop: `count` more items after those read so far, which are kept |
| ArrayUnpacking.Mode1At | src/utilities/ArrayUnpacker.ts:62-68 | mode 1: `rank` u16 dimensions, then an array shaped by them |
| ArrayUnpacking.Internal | src/utilities/ArrayUnpacker.ts:151-162 | `UnpackInternal`: the result has the shape the dimensions from `depth` give |
| ArrayUnpacking.Rows | src/utilities/ArrayUnpacker.ts:157-161 | the loop over one dimension: every row has the shape of the next depth |
| ArrayUnpacking.Mode2At | src/utilities/ArrayUnpacker.ts:69-82 | mode 2: a u16 count, that many u16 lengths, then one array per length, item i with length i |
| ArrayUnpacking.Jagged | src/utilities/ArrayUnpacker.ts:70-81 | the lengths then the arrays of mode 2: item i has the i-th length |
| ArrayUnpacking.Leaves | src/utilities/ArrayUnpacker.ts:77-80 | the mode-2 loop: item i after those read has the i-th length, and earlier items are kept |
| ArrayUnpacking.ArraysAt | src/utilities/ArrayUnpacker.ts:22-38 | `UnpackArrays` after decompression: a nonzero first or second byte is invalid data, and every array id is below 256 |
| ArrayUnpacking.Records | src/utilities/ArrayUnpacker.ts:30-36 | the record loop: ids already stored stay, and every id is below 256 |
| ArrayUnpacking.RecordAt | src/utilities/ArrayUnpacker.ts:31-35 | one record: the position only advances, and the table keeps its ids and adds one below 256 |
| ArrayUnpacking.UnpackArrays | src/utilities/ArrayUnpacker.ts:19-39 | the method computes what `ArraysAt` gives |
| ArrayUnpacking.ReadHeader | src/utilities/ArrayUnpacker.ts:22-27 | too short a stream is unreadable, a nonzero compressed or version byte is invalid data, and otherwise the u16 count at offset 2 is read and the reader sits at 4 |
| ArrayUnpacking.ReadRecords | src/utilities/ArrayUnpacker.ts:30-36 | the record loop computes `Records` from where the reader started |
| ArrayUnpacking.ReadRecord | src/utilities/ArrayUnpacker.ts:31-35 | one pass computes `RecordAt`: the same verdict, table and position |
| ArrayUnpacking.ReadRecordHeader | src/utilities/ArrayUnpacker.ts:31-32 | the id and type bytes are read exactly when two bytes remain, and the reader moves past them |
| ArrayUnpacking.UnpackArray | src/utilities/ArrayUnpacker.ts:41-86 | the method computes `UnpackAt`, value and position |
| ArrayUnpacking.UnpackMode0 | src/utilities/ArrayUnpacker.ts:49-61 | the method computes `Mode0At` |
| ArrayUnpacking.ReadSubRecords | src/utilities/ArrayUnpacker.ts:56-60 | the method computes `SubRecords` |
| ArrayUnpacking.UnpackMode1 | src/utilities/ArrayUnpacker.ts:62-68 | the method computes `Mode1At` |
| ArrayUnpacking.ReadU16s | src/utilities/ArrayUnpacker.ts:63-66 | `count` u16 values are read exactly when `2 * count` bytes remain, and they are `U16s` |
| ArrayUnpacking.UnpackInternal | src/utilities/ArrayUnpacker.ts:151-162 | the method computes `Internal` |
| ArrayUnpacking.UnpackMode2 | src/utilities/ArrayUnpacker.ts:69-82 | the method computes `Mode2At` |
| ArrayUnpacking.ReadJagged | src/utilities/ArrayUnpacker.ts:70-81 | the method computes `Jagged` |
| ArrayUnpacking.ReadLeaves | src/utilities/ArrayUnpacker.ts:77-80 | the method computes `Leaves` |
| ArrayUnpacking.ReadArray | src/utilities/ArrayUnpacker.ts:88-105 | the method computes `ReadArrayAt` |
| ArrayUnpacking.ReadElements | src/utilities/ArrayUnpacker.ts:97-104 | the method computes `ReadArrayAt` for a length other than 0xFFFF |
| ArrayUnpacking.MakeArray | src/utilities/ArrayUnpacker.ts:98-104 | the method builds `ArrayOf` from the bytes read |
| ArrayUnpacking.CopyElements | src/utilities/ArrayUnpacker.ts:100-104 | the copy loop computes `Convert` |
| Atrac9Formats.CopyWindowExact | src/at9/Atrac9Format.ts:41-49 | the window `copyBuffer` computes, when not empty, lies inside both buffers and is offset by the superframe's place less the encoder delay; an output slot lies in it exactly when it is covered by the superframe shifted to that place |
| Atrac9Formats.CopyBuffer | src/at9/Atrac9Format.ts:36-55 | `copyBuffer`: empty buffer lists fail; an empty window copies nothing; otherwise each output channel gets its input channel's window in order, and the copy fails at the first channel whose input or output is too short, with every slot outside the channels copied unchanged |
| Atrac9Formats.SetChannel | src/at9/Atrac9Format.ts:53 | `bufferOut[c].set(slice, destStart)`: the slice lands at `destStart`, the rest of channel c and every other channel unchanged |
| Atrac9Formats.NewPcmBuffers | src/at9/Atrac9Format.ts:25-26 | `createJaggedArray`: `count` fresh, distinct buffers of `length` zeros |
| Atrac9Formats.LoadSuperframe | src/at9/Atrac9Format.ts:29 | the superframe buffer holds the decoded superframe's samples |
| Atrac9Formats.Decode | src/at9/Atrac9Format.ts:18-34 | `decode`: a negative sample count fails; a superframe that does not decode fails at the first such superframe; otherwise one fresh output per channel of `SampleCount` samples, sample j holding stream sample j + EncoderDelay |
| Atrac9Formats.StreamSamplePast | src/at9/Atrac9Format.ts:44-49 | samples past the end of the stream read as zero, as the untouched slots of a fresh output do |
| Atrac9Formats.CopySuperframe | src/at9/Atrac9Format.ts:29-30 | one pass of the loop: superframe i decoded into the buffer and copied to its place, so the outputs hold superframes 0 to i trimmed by the delay |
| At9Data.FrameCount | src/at9/At9DataChunk.ts:28 | `Math.ceil((SampleCount + EncoderDelaySamples) / SuperframeSamples)`: the least count of superframes whose samples reach the total |
| At9Data.FrameCountUnique | src/at9/At9DataChunk.ts:28 | any count with that property is `FrameCount` |
| At9Data.Lookup | src/at9/At9DataChunk.ts:20-27 | the `fmt ` chunk must carry ATRAC9 configuration bytes, otherwise the format is missing; a configuration that is returned is valid |
| At9Data.ReadAt9Data | src/at9/At9DataChunk.ts:13-39 | the `data` chunk: the lookup's error when it fails; a size past the bytes remaining fails as too short; otherwise `FrameCount` superframes of `SuperframeBytes` each, superframe i the i-th run of bytes, and the reader moved past them |
| At9Data.ReadSuperframes | src/at9/At9DataChunk.ts:35 | `deInterleave` into `frameCount` superframes: superframe i is the i-th run of `superframeBytes` and the reader moves past all of them |
| Riff.NextOffset | src/riff/RiffParser.ts:74 | the next chunk starts at the even offset at or just past the chunk's end |
| Riff.ChunkSize | src/riff/RiffSubChunk.ts:9 | the sub-chunk size, read as an unsigned 32-bit number, is below 2^32 |
| Riff.SignedChunkSize | src/riff/RiffSubChunk.ts:9 | `readInt32` as written: the unsigned size, or that size less 2^32 |
| Riff.ChunkSizeAdvances | src/riff/RiffParser.ts:62-75 | with the unsigned size the walk always moves forward by at least a header |
| Riff.SignedSizeRewinds | src/riff/RiffParser.ts:48-51 | with the signed size, a 28-byte file whose first sub-chunk declares size -8 sends the walk back to the same offset while the loop condition still holds, so the loop never ends |
| Riff.RewindingFile | src/riff/RiffParser.ts:48-51 | the counterexample file is 28 bytes long |
| Riff.WalkAdvances | src/riff/RiffParser.ts:48-51 | offsets along the walk grow by at least 8 per chunk |
| Riff.WalkExtends | src/riff/RiffParser.ts:48-51 | one more chunk extends the walk, and the table then maps its id to it |
| Riff.CollectLatest | src/riff/RiffParser.ts:50 | every id read is in the table, and it maps to the last chunk with that id |
| Riff.CollectOnly | src/riff/RiffParser.ts:50 | every id in the table maps to a chunk the walk read with that id |
| Riff.ParseRiffHeader | src/riff/RiffChunk.ts:13-24 | `RiffChunk.Parse`: fewer than 12 bytes are unreadable; otherwise the reader moves 12 bytes and the header passes exactly when its id is "RIFF", with the signed size and the type read, and fails as not RIFF otherwise |
| Riff.ReadSubChunkHeader | src/riff/RiffSubChunk.ts:7-11 | with the sub-chunk size read unsigned, the intended reading (see Findings): the sub-chunk header: an id of 4 bytes and the size, read exactly when 8 bytes remain, and the reader moves past them |
| Riff.ReadIdAndSize | src/riff/RiffParser.ts:63-65 | with the sub-chunk size read unsigned, the intended reading (see Findings): the id peeked and the header read from where the reader stood |
| Riff.RiffParser.constructor | src/riff/RiffParser.ts:16-27 | no RIFF header and no sub-chunks yet, the data chunk read, and the four default readers registered for `fmt `, `smpl`, `fact` and `data` |
| Riff.RiffParser.RegisterSubChunk | src/riff/RiffParser.ts:29-35 | an id that is not 4 characters fails and changes nothing; otherwise the reader is registered for it, and nothing else changes |
| Riff.RiffParser.GetSubChunk | src/riff/RiffParser.ts:58-60 | the sub-chunk stored under the id, exactly when there is one |
| Riff.RiffParser.ParseRiff | src/riff/RiffParser.ts:37-52 | with the sub-chunk size read unsigned, the intended reading (see Findings): `ParseRiff`: a short file is unreadable and a non-RIFF id fails, both leaving the parser as it was; otherwise the header is stored and the sub-chunks are walked from offset 12 towards 8 + the signed size, the table holding the last chunk read for each id, and a walk that passes ends within 8 bytes of the end |
| Riff.RiffParser.WalkSubChunks | src/riff/RiffParser.ts:48-51 | with the sub-chunk size read unsigned, the intended reading (see Findings): the loop: a walk from the reader's position whose table collects the chunks read, ending within 8 bytes of the end when it passes |
| Riff.RiffParser.ReadFields | src/riff/RiffParser.ts:67-68 | an unregistered id reads nothing; a registered field reader's verdict and position are taken as they are; the `data` reader's superframe count is `FrameCount` of the looked-up configuration |
| Riff.RiffParser.ParseSubChunk | src/riff/RiffParser.ts:62-76 | with the sub-chunk size read unsigned, the intended reading (see Findings): one sub-chunk: its header at the reader's position, the rest of its body up to its end kept as `Extra`, and the reader at the next even offset; an unregistered chunk keeps its whole body |
| Riff.Finish | src/riff/RiffParser.ts:70-75 | what the reader left of the body up to the chunk end is kept, none when the reader is past it, and the reader moves to the even offset after the end |
| RiffChunks.IdString | src/riff/RiffSubChunk.ts:8 | `readUTF8(4)` on ASCII ids: one character per byte, with the byte's value |
| PcmOutput.SignedSample | src/at9/Atrac9Decoder.ts:114 | a `Uint16Array` slot read back as a signed 16-bit sample: in range, and storing it gives the slot back |
| PcmOutput.ShortSample | src/at9/Atrac9Decoder.ts:112-114 | `Clamp16(Math.floor(sample + 0.5))` stored into a `Uint16Array`: read back signed, the slot holds the sample rounded half up and clamped to the 16-bit range |
| PcmOutput.ShortSampleRounds | src/at9/Atrac9Decoder.ts:113 | a sample whose rounding is in range is stored as its rounding, the nearest whole number with halves going up |
| PcmOutput.ShortSampleSaturates | src/utilities/Helpers.ts:18-22 | samples that round above 32767 are stored as 32767, those below -32768 as 0x8000 |
| PcmOutput.ShortSampleOfWhole | src/at9/Atrac9Decoder.ts:112-114 | a whole 16-bit sample goes through unchanged |
| PcmOutput.FrameChannelsCount | src/at9/Atrac9Decoder.ts:106-109 | when every block holds as many channels as it counts, the outputs number the frame's channels |
| PcmOutput.FrameChannelsPrefix | src/at9/Atrac9Decoder.ts:106-109 | the channels of the first i blocks come first in the output order |
| PcmOutput.FrameChannelOf | src/at9/Atrac9Decoder.ts:106-109 | every output channel is a channel of one of the blocks |
| PcmOutput.FrameChannelsNext | src/at9/Atrac9Decoder.ts:106-109 | block i's channels follow those of the blocks before it |
| PcmOutput.PcmToShort | src/at9/Atrac9Decoder.ts:111-115 | the sample loop: `count` samples of the channel's PCM into the output from `start`, rounded and clamped; every other slot unchanged |
| PcmOutput.PcmFloatToShort | src/at9/Atrac9Decoder.ts:99-118 | `pcmFloatToShort`: output c, the c-th channel of the frame in block order, gets that channel's first `FrameSamples` samples rounded and clamped from `start`; every other slot of every output keeps its value |
| PcmOutput.WriteBlock | src/at9/Atrac9Decoder.ts:107-116 | the channel loop over one block: its channels to the outputs numbered from `first`, every other slot unchanged |
| PcmOutput.WriteChannel | src/at9/Atrac9Decoder.ts:108-115 | one pass: output c gets the channel's samples and every other output stays |

## Left out

- Atrac9Decoders.Atrac9Decoder.Decode: requires the output arrays to be distinct from one another, and so do `Atrac9Decoders.Atrac9Decoder.DecodeFitted`, `Atrac9Decoders.DecodeChannels`, `Superframes.DecodeSuperFrame` (with `FrameLoop`, `FramePass`, `FrameStep`, `OutputPhase` and `OutputStep`) and `PcmOutput.PcmFloatToShort` (with `WriteBlock`, `WriteChannel` and `PcmToShort`). `validateDecodeBuffers` (src/at9/Atrac9Decoder.ts:37-62) does not check this. Aliased outputs, where two channels write one `Uint16Array` and the later channel's samples win, are not modelled. Every caller of `decode` in the repository builds its outputs with `createJaggedArray`, whose arrays are distinct (`Atrac9Formats.NewPcmBuffers`).
- ChannelsFit: takes the outputs' distinctness as a precondition; it does not follow from the buffer checks, for the reason given on the line above.
- `Bit.bitReverse8` (src/utilities/Bit.ts:14-16): no core operation calls it.
- `Helpers.base64ToUint8Array` (src/utilities/Helpers.ts:33): text decoding of the bundled tables; the tables are a parameter of the model.
- Decompression of the packed tables (`TryDecompress`, `inflateAsync` in src/utilities/ArrayUnpacker.ts): a foreign library; `ArrayUnpacking` starts from the decompressed bytes.
- The table contents: the Huffman codebooks, scale-factor weights, band-extension tables and the floating-point step and scale tables are a parameter record (`RuntimeTables.CodecTables`) with the shape every stage relies on.
- Floating point: spectra, windows, trigonometric tables and PCM before rounding are `real` numbers; doubles' rounding is not modelled, and `Math.pow(2, x)` of band extension is a parameter `exp2`.
- `Mdct.GenerateTrigTables` (src/utilities/Mdct.ts:144-156): the sine and cosine tables are a parameter `trig` with the sizes the transform needs; their values are not modelled.
- `Mdct.MdctTables.SetTables`: modelled for up to 30 table bits, where `1 << n` stays exact; the decoder asks for at most 8.
- `Mdct.RunMdct` (src/utilities/Mdct.ts:49-71), the forward transform: the decoder never calls it.
- `Atrac9Decoder.pcmFloatOut` (src/at9/Atrac9Decoder.ts:80-97): the `Float32Array` output path (a division of doubles); the model decodes into `Uint16Array` outputs only, which is the path `Atrac9Format.decode` takes.
- `Atrac9Formats.Decode`: the decoder's output for each superframe is a parameter (`stream`, with `None` for a superframe that throws); it is connected to `Atrac9Decoders.Atrac9Decoder.Decode` only through that shape, and the progress callbacks are left out.
- `Atrac9Formats.CopyBuffer`: requires the input and output buffers to be distinct arrays; a JavaScript caller could alias them. Null buffer lists are not modelled (empty ones are).
- `BinaryReading.BinaryReader.DeInterleave`: the optional `outputSize` parameter is left out (every caller passes the default), and `interleaveSize` must be positive (with 0 the block count is infinite and the loop does not end).
- `BinaryReading.BinaryReader.DeInterleave`: when a read fails midway, the position the reader is left at is not stated.
- `BinaryReader.readUTF8`: chunk ids are read byte by byte as characters (`RiffChunks.IdString`), which is what UTF-8 decoding gives for the ASCII ids of RIFF files.
- The field layouts of `WaveFmtChunk`, `WaveFormatExtensible`, `At9WaveExtensible`, `WaveFactChunk`, `At9FactChunk` and `WaveSmplChunk`: the sub-chunk readers are parameters of `Riff.RiffParser`, and `At9Data` keeps only the fields it consults.
- `RiffParser.ReadDataChunk` and `RiffParser.FormatExtensibleParser`: only the `data` and `fmt ` chunk readers consult them, and those readers are parameters; `ReadDataChunk` is kept as a field, the format parser is not.
- `At9Reader`, `At9Player`, `Atrac9FormatBuilder`, `AudioFormatBase`, `AudioReader`, `UUID` and `MediaSubtypes`: file I/O, playback and builder plumbing outside the decoder core.
- Typed arrays are taken to be little-endian where the source reinterprets bytes (`ArrayUnpacker.ReadArray` on `Uint8Array` views).
- Elements of the float types in `ArrayUnpacking` are kept as their raw bytes; a conversion between a float and an integer element type is a `FloatConversion` failure in the model.
- `BitReading.BitReader.PeekInt` with 18 to 25 bits: the fast path's stray high bits (the `0xFFFFFFFF >> bitIndex` mask is -1) are modelled as written; the unsigned value is stated only for n <= 17 and for the signed reads, which mask the stray bits away.
- BinValue: a precision past `QuantizerStepSize` or a fine precision past the 16 entries of `QuantizerFineStepSize` reads 0.0, where the source reads `undefined` and the bin becomes NaN. A fine precision of 16 or more arises when a scale factor of 31 meets a gradient of at most 1 (src/at9/BitAllocation.ts:76-92). The NaN would spread through the transform and the overlap history, and `Clamp16(NaN)` stored in a `Uint16Array` is 0, so the source outputs silence where the model outputs the other bins' sum. The model does not carry NaN.
- Dequantized: its bins are stated through `BinValue`, so a fine precision of 16 or more gives a finite bin where the source's bin is NaN.
- DequantizedBins: states each coded bin through `BinValue`, with 0.0 for a step size past its table, where the source reads `undefined` and the bin is NaN.
- DequantizeQuantUnit: the unit's bins take `BinValue`, finite where the source's undefined fine step size makes them NaN.
- DequantizeChannel: ends as `Dequantized`, so it does not promise the NaN bins the source gives for fine precisions of 16 or more.
- DequantizeSpectra: every channel ends as `Dequantized`, finite where the source gives NaN bins.
- SetScale: when mode 0 writes past the six-entry `BexScales` (13 or 14 coded units, where the last unit's scale goes to entry 8 or 7), the holes it leaves read 0.0 here. The source reads `undefined` there, which turns the bins of those units into NaN.
- UnitsScaledBins: multiplies by `RealAt` of the scale list, so a hole left by `SetScale` scales its unit by 0.0 where the source gives NaN.
- Mode0NoiseInLastUnit: with 13 or 14 coded units the units at scale slots 6 and 7 are scaled by 0.0 here; in the source they are NaN.
- ExtendMode0: ends as `Mode0`, which reads the holes `SetScale` leaves as 0.0 rather than `undefined`, so those units are finite here and NaN in the source.
- ReadSubChunkHeader: reads the sub-chunk size as the unsigned number the RIFF format defines, the corrected behaviour, so it does not promise what the shipped code does for sizes of 2^31 and more. The source's `readInt32` (src/riff/RiffSubChunk.ts:9) is modelled only by `Riff.SignedChunkSize` and `Riff.SignedSizeRewinds` (see Findings).
- ReadIdAndSize: takes the size from `ReadSubChunkHeader`, unsigned, and does not promise the shipped behaviour for sizes of 2^31 and more.
- ParseSubChunk: moves to the end of a chunk whose size is read unsigned, always forward; the shipped code can move back (see Findings).
- WalkSubChunks: always advances, which holds of the corrected size read and not of the shipped `readInt32`, whose walk can revisit an offset forever.
- ParseRiff: walks the sub-chunks with the size read unsigned, the corrected behaviour, not the shipped one.
- NoiseStart: seeds a new generator with 543 * (sf[8] + sf[12] + sf[15] + 1) where the shipped code throws a `ReferenceError` (src/at9/BandExtension.ts:134-138); this is the corrected behaviour, and the shipped one is modelled only by `BandExtension.ShippedNoiseStart` and `BandExtension.ShippedFirstNoiseFillThrows` (see Findings).
- OpenRng: creates the generator `NoiseStart` names, the corrected behaviour, where the shipped code throws.
- AddNoiseToSpectrum: draws from the generator of `NoiseStart`, the corrected behaviour, where the shipped code throws on a channel with no generator.
- ExtendChannel: its failure condition, the unit count having no group-info row, holds of the corrected code; the shipped code also throws on the first noise fill of a channel.
- ApplyBandExtensionChannel: as `ExtendChannel`, the corrected behaviour, not the shipped `ReferenceError`.
- ExtendChannels: "fails exactly when the unit count has no group-info row" holds of the corrected code, not of the shipped one.
- ApplyBandExtension: "fails exactly when the unit count has no group-info row" holds of the corrected code; as shipped, a block whose band extension uses mode 0 or 1 also throws a `ReferenceError`.
- Concurrency, exceptions as control flow across modules, and the `Error` messages' text: a throw is a `Failure` value naming its cause.

## Findings

| source | as written | input that shows it | evidently intended | confidence | as-written member | corrected member |
|---|---|---|---|---|---|---|
| src/riff/RiffSubChunk.ts:9 | the sub-chunk size is read with `readInt32`, so sizes of 2^31 and more are negative and `ParseSubChunk` moves the reader back; the loop at src/riff/RiffParser.ts:48-51 can then revisit the same offset forever | a 28-byte file "RIFF", size 24, "WAVE", then a sub-chunk whose size bytes are F8 FF FF FF (size -8): the next offset is the chunk's own start | the size is an unsigned 32-bit number, as the RIFF format defines it, so every sub-chunk moves the walk forward | medium, not executed | Riff.SignedSizeRewinds | Riff.ChunkSizeAdvances |
| src/at9/BandExtension.ts:134-138 | `addNoiseToSpectrum` constructs `Atrac9Rng`, which src/at9/Atrac9Rng.ts:1 does not export and src/at9/BandExtension.ts:1-3 does not import, so the first noise fill of every channel throws a `ReferenceError` | any channel with band-extension mode 0 or 1 that has no generator yet, which is every channel the first time | a generator seeded with 543 * (sf[8] + sf[12] + sf[15] + 1) is created and kept in the channel | high, not executed | BandExtension.ShippedFirstNoiseFillThrows | BandExtension.NoiseStart |
