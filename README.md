# GSM 07.10 (CMUX) frame decoder — a Dafny model

This project models the SIMCOM GSM0710 protocol decoder for sigrok. The decoder
sits on top of a UART decoder and takes one byte at a time. Each byte is tagged
with its direction: RX (0) or TX (1). From these bytes it recovers the
basic-option CMUX frames of 3GPP TS 27.010, section 5.2.1. A frame is the flag
0xF9, an address octet, a control octet, a single length octet, the information
bytes, an FCS octet and a closing byte. The decoder emits two kinds of
annotation:

- debug annotations on rows 0 (RX) and 1 (TX), only when the `debug` option is
  `yes`;
- one payload annotation per information byte, on channel
  `(addr + 1) * 2 + direction`, always.

Each direction has its own phase, remaining length and control tag. The decoded
address is a single field that both directions share. A byte the grammar does
not expect sends its direction back to Open; there is no error state.

Modules:

- `Wrappers` (wrappers.dfy): `Option`.
- `ControlField` (control.dfy): the frame types and `DecodeControl`, with the
  encoder `ControlOctet` as its inverse.
- `ValueFormat` (format.dfy): `FormatValue`, the rendering of a payload byte in
  ascii, dec, hex, oct or bin. `ParseValue` reads a rendering back.
- `FrameMachine` (frame.dfy): the decoder as values. `Step` is the phase
  machine of one direction for one byte. `Feed` is `decode` for one UART packet
  on a `Machine` that holds both directions, the shared address and the output.
- `Gsm0710` (decoder.dfy): the `Decoder` class. It has two-element arrays
  `state`, `length` and `control`, an `addr` field, the options and the output
  sequence. `Decode` is proved to change the object exactly as `Feed` says.
- `StreamProperties` (stream.dfy): `FeedAll` runs the decoder over a stream of
  events. The lemmas cover resync, frame round trip, isolation of the
  directions, debug gating, channel range and the shared address.

`self.put` is modelled as appending an `Ann` (sample span, annotation class,
label) to the output sequence. Annotation texts are reduced to their kind and
numeric payload: `Resync` is the `'!'` text, and the others are `OpeningFlag`,
`Dlc(n)`, `Kind(type)`, `Length(n)`, `Value(text)`, `Checksum(b)` and
`ClosingFlag`.

Behaviour of the code that the model keeps:

- The length is one octet, `byte / 2`. The low bit is ignored, and there is no
  extended two-octet length.
- `addr` is shared by RX and TX (`SharedAddressCrossTalk`).
- Close returns to Open whatever the byte is. Only the debug label depends on
  whether the byte is the flag.
- In Fcs and Close the length field keeps its last value (1 after a payload).
  The next reset clears it.

## Model

| member | source | states |
|---|---|---|
| ControlField.DecodeControl | pd.py:23-36 | A byte gets a frame type exactly when it is one of the twelve listed control octets. Every other byte gets the empty tag. A recognised octet equals the encoding of its type with the poll/final bit it carries. |
| ControlField.ControlOctet | pd.py:23-36 | The encoder that DecodeControl inverts: one octet below 0x100 per type and poll/final bit. Bit 4 of the octet is the poll/final bit. |
| ControlField.ControlRoundTrip | pd.py:23-36 | Decoding the octet of any frame type gives that type back, with either poll/final bit. |
| ControlField.PollFinalIgnored | pd.py:23-36 | Flipping bit 4 (0x10) of a byte never changes its decoded frame type. |
| ValueFormat.FormatValue | pd.py:90-114 | The result is None exactly for an unknown mode. In ascii mode a printable value (32..126) is its own character, and any other value is escaped in at least four characters with no padding beyond two hex digits. Hex, oct and bin renderings have at least two digits and no zero padding beyond two. The dec rendering has no leading zero except for 0 itself. |
| ValueFormat.ToRadixLeading | pd.py:99-112 | The unpadded digit string of a value starts with '0' only for the value 0, and has one digit exactly when the value is below the radix. |
| ValueFormat.ToRadixDigits | pd.py:99-112 | The digit string of a value uses only digits of the radix and reads back as the value. |
| ValueFormat.ZeroPadValue | pd.py:102-112 | Zero padding to width two keeps the digits and the value. It gives width two for a one-digit string and leaves longer strings alone. |
| ValueFormat.ToRadixLength | pd.py:102-112 | A value has one digit exactly when it is below the radix, and at most two exactly when it is below the radix squared. |
| ValueFormat.FormatRoundTrip | pd.py:90-114 | In each of the five modes, the rendering of any value reads back as that value. This includes the bracketed hex escape of a non-printable value in ascii mode. |
| ValueFormat.ByteHexWidth | pd.py:93-112 | For a value below 256 the hex rendering is exactly two digits, and the ascii escape is `[XX]`, four characters. |
| FrameMachine.Debug | pd.py:116-118 | put_debug emits one annotation when the debug option is "yes" and nothing otherwise. That annotation carries the byte's sample span and the given label, on the direction's own debug row (class rxtx). |
| FrameMachine.Channel | pd.py:172 | The payload annotation class is at least 2, so it is never a debug row. Both the address and the direction can be recovered from it. It is below 10, inside the host's annotation table, exactly when the address is below 4. |
| FrameMachine.Step | pd.py:133-196 | One byte in one direction keeps that direction in a reachable state. Once the address is set it stays set, so a Data byte always has a channel. |
| FrameMachine.Feed | pd.py:120-131 | A packet that is not DATA, or whose direction is not 0 or 1, changes nothing. A byte for one direction leaves the other direction's state, length and control alone. The output only grows. |
| Gsm0710.Decoder.constructor | pd.py:78-80 | Both directions start in Open with length 0 and the empty tag. No address is set and nothing has been emitted. |
| Gsm0710.Decoder.ResetState | pd.py:85-88 | The given direction goes to Open with length 0 and the empty tag. The other direction is unchanged. |
| Gsm0710.Decoder.PutDebug | pd.py:116-118 | The output gains the debug annotation only when debug is "yes". |
| Gsm0710.Decoder.Decode | pd.py:120-199 | The arrays, the address and the output change exactly as Feed prescribes, and the object invariant is kept. |
| Gsm0710.Decoder.DecodeByte | pd.py:131-196 | The phase dispatch updates the byte's direction, the address and the output as Step says, and leaves the other direction unchanged. |
| StreamProperties.FeedAll | pd.py:120-199 | Over any stream of events, the decoder stays in reachable states and never removes output. |
| StreamProperties.FeedAllAppend | pd.py:120-199 | Decoding a concatenated stream is the same as decoding its two parts in turn. |
| StreamProperties.NoFlagStaysOpen | pd.py:133-140 | From Open, bytes that are never 0xF9 keep the direction in Open with length 0 and no tag. They emit only one '!' per byte on the debug row, and change neither the address nor the other direction. |
| StreamProperties.UnknownControlResets | pd.py:142-156 | Flag, address, then an unrecognised control octet: the address is set, '!' is emitted and the direction is back in Open without reaching Len. |
| StreamProperties.FlagAndAddress | pd.py:133-146 | From Open, 0xF9 moves to Addr. Any address octet is then accepted: the shared address becomes byte / 4 and the phase Control. |
| StreamProperties.ControlAndLength | pd.py:148-168 | A recognised control octet is stored and the phase becomes Len. The length octet then sets length to byte / 2, and the phase becomes Data if that is positive, else Fcs. |
| StreamProperties.FrameHead | pd.py:133-168 | The header octets take a direction from Open to Data with length N, or to Fcs when N is 0. The address is set to byte / 4 and the frame type is stored. |
| StreamProperties.DataStep | pd.py:170-178 | One byte in Data emits its debug and payload annotations. The length drops by one, or the phase becomes Fcs when at most one byte was left. |
| StreamProperties.DataRun | pd.py:170-178 | In Data with N bytes left, N bytes each give their annotations and the direction ends in Fcs. The address and the other direction stay as they were. |
| StreamProperties.FrameTail | pd.py:180-196 | FCS goes to Close without checking the byte. Close goes back to Open with length 0 and no tag, whether or not its byte is 0xF9. |
| StreamProperties.FrameRoundTrip | pd.py:133-196 | A complete frame from Open emits exactly its annotations, in order, and sets the shared address. The direction ends in Open and the other direction is untouched. |
| StreamProperties.DataAnnsPayloads | pd.py:170-178 | Each information byte gives exactly one payload annotation, in byte order. |
| StreamProperties.FramePayloads | pd.py:170-178 | The payload annotations of a frame are its N information bytes, in byte order, on channel (addr + 1) * 2 + direction. This holds with debug on or off. |
| StreamProperties.DirIsolation | pd.py:121-199 | A direction's state, length and tag after any interleaved stream are what its own data bytes alone would give. |
| StreamProperties.StepPayloads | pd.py:116-173 | For one byte, the debug option changes neither the state nor the address nor the payload annotations. With debug off, payloads are all that is emitted. |
| StreamProperties.DebugOnlyAddsDiagnostics | pd.py:116-173 | Over any stream, two runs that differ only in the debug option reach the same states and address and emit the same payload annotations. With debug off, the payload annotations are the whole output. |
| StreamProperties.ChannelRange | pd.py:142-173 | On byte input the address stays in 0..63, so every annotation class is below 130. |
| StreamProperties.SharedAddressCrossTalk | pd.py:142-173 | An address byte on TX while RX is in its payload redirects RX's next payload byte to the TX frame's channel. |
| StreamProperties.ExampleRxFrame | pd.py:133-196 | Take the RX bytes F9 00 EF 03 41 FF F9, with debug off and hex format. They give one annotation, "41" on channel 2, and RX ends in Open. |

## Left out

- The sigrok plumbing is not modelled: the `srd.Decoder` base class, `start`/`register`, the metadata, and the `annotations`, `annotation_rows` and `options` tables. Host options are a `Config` value, and `self.put` appends to the output sequence.
- The `STATES` list is not modelled. Nothing uses it, and because its commas are missing it is a single string.
- The frame checksum is reported but never computed or checked, and UIH subtypes are not decoded. The code does neither.
- 3GPP TS 27.010 allows a second length octet when the EA bit (bit 0) of the first length octet is 0. pd.py:158-168 ignores that bit and never reads a second octet, and so does the model: the length is always `byte / 2` of one octet.
- Label texts are reduced to the kind and number they carry. Python's `'!'` is `Resync`.
- In Python, `state`, `length` and `control` are class attributes, so all `Decoder` instances in one process share them. The model gives each decoder its own arrays. It does not capture sharing between instances.
- The final `else: self.reset_state(rxtx)` branch for an unknown phase has no counterpart. The phase is a closed enumeration, and the code only ever stores the seven known phases.
- Python leaves `self.addr` unset until the first address byte. The model starts it at `None`. For a single decoder instance, the invariant `Reachable` shows it is set before any Data byte, so reading it at pd.py:172 cannot fail. Across instances this does not hold: `state` is a class attribute shared by every instance (pd.py:78), while `self.addr` belongs to one instance and is set only at pd.py:144. A new instance started while the shared list still says 'DATA' (for example after a capture ended mid-frame) reads `self.addr` at pd.py:172 before setting it and raises AttributeError. The model, with its own arrays per decoder, does not capture this.
- Byte values are natural numbers. Negative values, and `format_value` of negative numbers, are not modelled. Values above 0xFF (9-bit UART frames) are allowed. `ChannelRange` and `ByteHexWidth` assume byte input.
- `__init__.py` only re-exports the decoder, and nothing in it is modelled.
- Annotation classes above 9 are not in the host's annotation table. The contract of `Channel` states that the class is below 10 exactly when the address is below 4, so they arise for addresses from 4 upward; `ChannelRange` bounds them below 130 on byte input. What the host does with them is not part of this model.
