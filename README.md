# SPL standard message codec, modelled in Dafny

The SPL standard message is the fixed-layout binary message robot-soccer players
broadcast to their teammates. It is 850 bytes, little-endian, and has these parts:

- a 4-byte tag `"SPL "` and a version byte (6);
- player number, team number and a fallen flag;
- twelve 32-bit floats at offsets 8..55: pose, walking target, shooting target,
  ball age, ball position, ball velocity;
- from offset 56, five suggestion ordinals and one intention ordinal;
- two shorts (average walk speed, maximum kick distance);
- two confidence bytes;
- a length-prefixed data block of at most 780 bytes.

The Java class `data.SPLStandardMessage` holds the fields of one message.
`toByteArray` writes them into a zero-filled 850-byte buffer. `fromByteArray`
reads them back from a `ByteBuffer` and validates them.

The project has four modules:

- `JavaBytes` (`java_bytes.dfy`): Java's `byte` and `short` as bounded integers;
  the casts `(byte)` and `(short)`; the little-endian `putShort`/`getShort` and
  `putFloat`/`getFloat`, with both round trips proved.
- `SplWire` (`spl_wire.dfy`): the constants, the two enums and the value of a
  message (`Message`). It also holds two pure descriptions:
  - of the encoder: `Prelude`, `Kinematics`, `SuggestionBytes` and `Tail`, the
    bytes put in order, make up `Wire`; `Encode` is the returned array, or
    `None` where Java throws;
  - of the decoder:
    - `ChecksPass`/`Reaches` say how far the decoder gets;
    - `Accepted` says when it returns true;
    - `Consumed` is how many bytes it takes;
    - `DecodedInto` is the state of the object afterwards. Each phase
      (`DecodeHeader`, `DecodePlayer`, `DecodePose`, … `DecodeData`) assigns
      its fields only if the decoder got that far, partial results included.
- `Codec` (`spl_standard_message.dfy`): the class `SPLStandardMessage` with the
  eighteen public fields, updated in place.
  - `ToByteArray` fills a fresh `array<int8>` of `SIZE` bytes, one `put` at a
    time, with a loop over the suggestions.
  - `FromByteArray` reads a buffer (its bytes up to the limit, plus a start
    position) phase by phase. It loops over the suggestions, assigns each field
    when it is read and returns at the first failing check. It returns whether
    the message was accepted and the new buffer position.
  - Each method is proved against the `SplWire` description.
- `SplProperties` (`spl_properties.dfy`): what the code promises, proved about
  those descriptions:
  - the exact byte layout;
  - the round trip in both directions;
  - an exact characterisation of the accepted buffers, in unsigned wire bytes;
  - that on success every field is overwritten and bytes after the message are
    ignored;
  - for every check, the exact object a rejected buffer leaves, in closed form.

Floats are modelled as their raw 32-bit patterns (`FloatBits`). A Java `byte`
is an integer in -128..127, on the wire as well, so every signed comparison of
the source is kept as written.

Where the code and the protocol description disagree, the model follows the code:

- The decoder does not require a full 850-byte buffer. It needs only the 70
  fixed bytes and the declared data (`Accepted`, `Consumed`). It never looks at
  anything after them (`AcceptedIgnoresRest`).
- On failure the decoder still changes the object. Each field assigned before
  the failing check keeps its new value (`RejectHeader` … `RejectTruncatedData`).
  The result is a `bool`, not a failure reason.
- The length word is read as a signed `short`. A wire length of 0x8000 or more
  is negative, passes the `> 780` test and then fails when the array is
  allocated. A player, enum or confidence byte of 0x80 or more is negative and
  fails its range check or the enum index. The accepted set is the same as with
  unsigned checks (`AcceptedExactly`).

## Model

| member | source | states |
|---|---|---|
| JavaBytes.ToShort | src/data/SPLStandardMessage.java:152 | `(short) x` keeps x modulo 2^16 and is x itself for 0 <= x < 0x8000 |
| JavaBytes.GetShort | src/data/SPLStandardMessage.java:245 | a little-endian short is negative exactly when its high byte is 0x80 or more |
| JavaBytes.ToByte | src/data/SPLStandardMessage.java:145-147 | `(byte) u` of an ordinal 0..255 is u modulo 256 and reads back as u on the wire |
| JavaBytes.ShortBytes | src/data/SPLStandardMessage.java:148-149 | putShort writes two bytes; ShortRoundTrip fixes their order |
| JavaBytes.FloatBytes | src/data/SPLStandardMessage.java:132-143 | putFloat writes four bytes; FloatRoundTrip fixes their order |
| JavaBytes.GetFloat | src/data/SPLStandardMessage.java:192-212 | definition, no contract: the 32 bits of four little-endian bytes; its partner is FloatRoundTrip |
| JavaBytes.ShortRoundTrip | src/data/SPLStandardMessage.java:148-149 | getShort reads back every short putShort wrote |
| JavaBytes.ShortBytesOfRead | src/data/SPLStandardMessage.java:231-232 | putShort writes back the two bytes getShort read |
| JavaBytes.FloatRoundTrip | src/data/SPLStandardMessage.java:132-143 | getFloat reads back the 32 bits putFloat wrote |
| JavaBytes.FloatBytesOfRead | src/data/SPLStandardMessage.java:192-212 | putFloat writes back the four bytes getFloat read |
| SplWire.SuggestionOrdinal | src/data/SPLStandardMessage.java:77-84 | `values()[s.ordinal()] == s`, and the ordinal is below 5 |
| SplWire.IntentionOrdinal | src/data/SPLStandardMessage.java:88-95 | `values()[i.ordinal()] == i`, and the ordinal is below 5 |
| SplWire.Prelude | src/data/SPLStandardMessage.java:127-131 | header, version, player, team and fallen take the header's length plus 4 bytes |
| SplWire.PoseBytes | src/data/SPLStandardMessage.java:132-134 | the pose takes 12 bytes |
| SplWire.TargetBytes | src/data/SPLStandardMessage.java:135-138 | the two targets take 16 bytes |
| SplWire.BallBytes | src/data/SPLStandardMessage.java:139-143 | ball age, position and velocity take 20 bytes |
| SplWire.Kinematics | src/data/SPLStandardMessage.java:132-143 | the twelve floats take 48 bytes |
| SplWire.SuggestionBytes | src/data/SPLStandardMessage.java:144-146 | one byte per suggestion, each its ordinal |
| SplWire.Tail | src/data/SPLStandardMessage.java:147-153 | intention to data take 9 bytes plus the data |
| SplWire.Wire | src/data/SPLStandardMessage.java:125-153 | the bytes put number header + suggestions + 61 + data |
| SplWire.Encode | src/data/SPLStandardMessage.java:123-156 | toByteArray succeeds iff no field is missing and the bytes fit 850; the array is SIZE bytes, starts with the bytes put and is zero after them |
| SplWire.Consumed | src/data/SPLStandardMessage.java:245-251 | an accepted message takes between 70 and 850 bytes, and no more than the buffer has |
| SplWire.ChecksPass | src/data/SPLStandardMessage.java:161-251 | definition, no contract: every check whose bytes lie below offset o passes (header, version, player 1..5, fallen 0/1, ordinals below 5, confidences 0..100, length 0..780) |
| SplWire.Reaches | src/data/SPLStandardMessage.java:161-251 | definition, no contract: the decoder reads past offset o, i.e. the buffer has o bytes and every check below o passes |
| SplWire.Accepted | src/data/SPLStandardMessage.java:158-259 | definition, no contract: fromByteArray returns true, i.e. all 70 fixed bytes pass and the declared data is present; characterised by AcceptedExactly |
| SplWire.SlotAt | src/data/SPLStandardMessage.java:214-222 | definition, no contract: suggestion slot i is the variant at byte 56+i if the decoder got past it, else null |
| SplWire.DecodedInto | src/data/SPLStandardMessage.java:158-259 | definition, no contract: the object after fromByteArray is the back phases applied after the front phases; its closed forms are DecodedAccepted and the Reject lemmas |
| SplWire.DecodeFront | src/data/SPLStandardMessage.java:161-212 | definition, no contract: header, player and float phases in source order |
| SplWire.DecodeBack | src/data/SPLStandardMessage.java:214-251 | definition, no contract: suggestion, intention, skill, confidence and data phases in source order |
| SplWire.DecodeHeader | src/data/SPLStandardMessage.java:161-169 | definition, no contract: header assigned when 4 bytes are there, version when the header passed |
| SplWire.DecodePlayer | src/data/SPLStandardMessage.java:171-189 | definition, no contract: player number, team number and fallen, each once the checks before it passed |
| SplWire.DecodePose | src/data/SPLStandardMessage.java:191-194 | definition, no contract: a zero pose filled float by float while the bytes last |
| SplWire.DecodeWalkingTo | src/data/SPLStandardMessage.java:196-198 | definition, no contract: a zero walking target filled while the bytes last |
| SplWire.DecodeShootingTo | src/data/SPLStandardMessage.java:200-202 | definition, no contract: a zero shooting target filled while the bytes last |
| SplWire.DecodeBall | src/data/SPLStandardMessage.java:204-208 | definition, no contract: ball age, then a zero ball position filled while the bytes last |
| SplWire.DecodeBallVel | src/data/SPLStandardMessage.java:210-212 | definition, no contract: a zero ball velocity filled while the bytes last |
| SplWire.DecodeSuggestions | src/data/SPLStandardMessage.java:214-222 | definition, no contract: a fresh five-slot array of SlotAt values once the floats are read |
| SplWire.DecodeIntention | src/data/SPLStandardMessage.java:224-229 | definition, no contract: the intention from byte 61 if it passes |
| SplWire.DecodeSkills | src/data/SPLStandardMessage.java:231-232 | definition, no contract: the shorts at 62 and 64 once the intention passed |
| SplWire.DecodeConfidences | src/data/SPLStandardMessage.java:234-243 | definition, no contract: each confidence assigned once the bytes before it passed, before its own check |
| SplWire.DecodeData | src/data/SPLStandardMessage.java:245-251 | definition, no contract: a zero array of the declared length once the length passed, then the data bytes if present |
| SplWire.ChecksMonotone | src/data/SPLStandardMessage.java:161-249 | checks passing up to an offset pass up to every earlier offset |
| SplWire.IdleAfterStop | src/data/SPLStandardMessage.java:161-249 | a phase after the first failed check assigns nothing, and the message is not accepted |
| SplWire.FloatBlockUnchecked | src/data/SPLStandardMessage.java:191-212 | no check guards the floats: past the fallen byte, only the buffer's end stops the decoder before 56 |
| SplWire.PreludeSteps | src/data/SPLStandardMessage.java:161-189 | the decoder passes 4, 5, 6, 7, 8 exactly when the header, version, player number, team byte and fallen byte are present and pass |
| SplWire.SlotsAfterStop | src/data/SPLStandardMessage.java:215-222 | once a suggestion byte fails, no later suggestion is assigned |
| Codec.Put | src/data/SPLStandardMessage.java:153 | `put(byte[])` writes the bytes at the position, or fails when they do not fit; the rest stays zero |
| Codec.SPLStandardMessage.ToByteArray | src/data/SPLStandardMessage.java:123-156 | returns a fresh SIZE-byte array equal to `Encode` of the fields, and fails exactly where `Encode` is None |
| Codec.SPLStandardMessage.PutPrelude | src/data/SPLStandardMessage.java:127-131 | puts header, version, player, team and the fallen byte after what was written |
| Codec.SPLStandardMessage.PutKinematics | src/data/SPLStandardMessage.java:132-143 | puts the twelve floats, failing if an array is too short |
| Codec.SPLStandardMessage.PutPose | src/data/SPLStandardMessage.java:132-134 | puts the three pose floats |
| Codec.SPLStandardMessage.PutTargets | src/data/SPLStandardMessage.java:135-138 | puts the walking and shooting targets |
| Codec.SPLStandardMessage.PutBall | src/data/SPLStandardMessage.java:139-143 | puts ball age, position and velocity |
| Codec.SPLStandardMessage.PutSuggestions | src/data/SPLStandardMessage.java:144-146 | the loop puts each ordinal; it fails on a null entry or overflow |
| Codec.SPLStandardMessage.PutTail | src/data/SPLStandardMessage.java:147-153 | puts intention, shorts, confidences, `(short) data.length` and the data |
| Codec.SPLStandardMessage.FromByteArray | src/data/SPLStandardMessage.java:158-259 | the fields become `DecodedInto(old fields, buffer[position..])`; the result is `Accepted`; on success the position advances by exactly `Consumed` |
| Codec.SPLStandardMessage.ReadFront | src/data/SPLStandardMessage.java:161-212 | bytes 0..55 assign the front fields as `DecodeFront` says; ok iff the decoder reaches 56 |
| Codec.SPLStandardMessage.ReadBack | src/data/SPLStandardMessage.java:214-253 | bytes 56.. assign the back fields as `DecodeBack` says; ok iff accepted, consuming exactly `Consumed` |
| Codec.SPLStandardMessage.ReadHeader | src/data/SPLStandardMessage.java:161-169 | header then version, each assigned before its check; ok iff both pass |
| Codec.SPLStandardMessage.ReadPlayer | src/data/SPLStandardMessage.java:171-189 | player number checked 1..5, team number, fallen set only by bytes 0 and 1 |
| Codec.SPLStandardMessage.ReadPose | src/data/SPLStandardMessage.java:191-194 | a fresh zero pose array filled float by float until the buffer ends |
| Codec.SPLStandardMessage.ReadWalkingTo | src/data/SPLStandardMessage.java:196-198 | a fresh zero walking-target array filled in turn |
| Codec.SPLStandardMessage.ReadShootingTo | src/data/SPLStandardMessage.java:200-202 | a fresh zero shooting-target array filled in turn |
| Codec.SPLStandardMessage.ReadBall | src/data/SPLStandardMessage.java:204-208 | ball age, then a fresh zero ball array filled in turn |
| Codec.SPLStandardMessage.ReadBallVel | src/data/SPLStandardMessage.java:210-212 | a fresh zero velocity array filled in turn |
| Codec.SPLStandardMessage.ReadSuggestions | src/data/SPLStandardMessage.java:214-222 | a fresh null array; slot i holds the variant at byte 56+i if every byte up to it passed, else null; ok iff all five pass |
| Codec.SPLStandardMessage.ReadIntention | src/data/SPLStandardMessage.java:224-229 | the intention is the variant at byte 61 if it is 0..4, else unchanged |
| Codec.SPLStandardMessage.ReadSkills | src/data/SPLStandardMessage.java:231-232 | the two shorts at 62 and 64 |
| Codec.SPLStandardMessage.ReadConfidences | src/data/SPLStandardMessage.java:234-243 | each confidence assigned, then checked 0..100 |
| Codec.SPLStandardMessage.ReadData | src/data/SPLStandardMessage.java:245-253 | length checked 0..780; `data` a fresh zero array, then bytes 70..70+n if present; ok iff accepted |
| SplProperties.FloatMatch | src/data/SPLStandardMessage.java:192-194 | the four bytes at o are putFloat(f) iff getFloat at o is f |
| SplProperties.ShortMatch | src/data/SPLStandardMessage.java:231-232 | the two bytes at o are putShort(s) iff getShort at o is s |
| SplProperties.PreludeLayout | src/data/SPLStandardMessage.java:127-131 | bytes 0..7 are the prelude iff they are header, version, player, team and the fallen byte 1/0 |
| SplProperties.PoseLayout | src/data/SPLStandardMessage.java:132-134 | bytes 8..19 are the pose iff the floats read at 8, 12, 16 are its elements |
| SplProperties.TargetLayout | src/data/SPLStandardMessage.java:135-138 | bytes 20..35 are the targets iff the floats at 20, 24, 28, 32 are theirs |
| SplProperties.BallLayout | src/data/SPLStandardMessage.java:139-143 | bytes 36..55 are the ball fields iff the floats at 36..52 are theirs |
| SplProperties.KinematicsLayout | src/data/SPLStandardMessage.java:132-143 | bytes 8..55 are the twelve floats iff each is read back at its offset |
| SplProperties.SuggestionLayout | src/data/SPLStandardMessage.java:144-146 | bytes 56..60 are the suggestions iff each byte is its suggestion's ordinal |
| SplProperties.TailLayout | src/data/SPLStandardMessage.java:147-153 | bytes 61..70+n are the tail iff intention, shorts, confidences, length word and data sit at 61, 62, 64, 66, 67, 68, 70 |
| SplProperties.WireLayout | src/data/SPLStandardMessage.java:125-153 | with a 4-byte header and 5 suggestions, the bytes put are a prefix of w iff every field sits at its fixed offset in w |
| SplProperties.EncodeLayout | src/data/SPLStandardMessage.java:123-156 | for nominal header and suggestion sizes: toByteArray succeeds iff data is at most 780 bytes; the array has SIZE = 850 bytes, fields at fixed offsets, zeros after 70 + n |
| SplProperties.FieldsShift | src/data/SPLStandardMessage.java:127-153 | version, pose, suggestions, intention, length word and data sit at offsets that move with the header and suggestion lengths |
| SplProperties.LengthOfLayout | src/data/SPLStandardMessage.java:152 | the length word of a laid-out message with at most 780 bytes of data reads back as its length |
| SplProperties.ChecksOfLayout | src/data/SPLStandardMessage.java:161-251 | a well-formed message laid out in a buffer passes every check, consuming 70 + n bytes |
| SplProperties.AcceptedMessage | src/data/SPLStandardMessage.java:158-253 | definition, no contract: the message an accepted buffer decodes to, every field read from its fixed offset and the data from 70..70+n |
| SplProperties.FrontAccepted | src/data/SPLStandardMessage.java:161-212 | proof step of DecodedAccepted: on an accepted buffer the front phases assign every front field from its offset |
| SplProperties.BackAccepted | src/data/SPLStandardMessage.java:214-251 | proof step of DecodedAccepted: on an accepted buffer the back phases assign every back field from its offset |
| SplProperties.DecodedAccepted | src/data/SPLStandardMessage.java:158-253 | on success the object holds `AcceptedMessage(w)`, whatever it held before |
| SplProperties.SuggestionOrdinalOfValue | src/data/SPLStandardMessage.java:221 | `Suggestion.values()[k].ordinal() == k` |
| SplProperties.IntentionOrdinalOfValue | src/data/SPLStandardMessage.java:229 | `Intention.values()[k].ordinal() == k` |
| SplProperties.AcceptedSuggestions | src/data/SPLStandardMessage.java:214-222 | an accepted buffer's five suggestions are all set, each to the variant its byte names |
| SplProperties.AcceptedLaidOut | src/data/SPLStandardMessage.java:158-253 | an accepted buffer decodes to a well-formed message laid out in it, data n bytes long |
| SplProperties.LayoutDetermines | src/data/SPLStandardMessage.java:158-253 | a well-formed message laid out in w is accepted from w and is exactly what w decodes to |
| SplProperties.DecodeOfLayout | src/data/SPLStandardMessage.java:158-253 | decoding a buffer holding a well-formed message succeeds, consumes it exactly and restores every field |
| SplProperties.RoundTrip | src/data/SPLStandardMessage.java:123-253 | for a well-formed message, decoding toByteArray's output succeeds, consumes 70 + n bytes and restores every field, data included |
| SplProperties.EncodeOfAccepted | src/data/SPLStandardMessage.java:123-156 | encoding an accepted buffer's message gives the consumed bytes followed by zeros |
| SplProperties.EncodeOfWire | src/data/SPLStandardMessage.java:124-155 | the array is the bytes put, then zeros up to SIZE |
| SplProperties.EncodeOfDecode | src/data/SPLStandardMessage.java:123-253 | re-encoding what an accepted buffer decoded to gives its first 70 + n bytes followed by zeros |
| SplProperties.AcceptedOverwritesAll | src/data/SPLStandardMessage.java:161-253 | on success the result does not depend on the object's previous fields |
| SplProperties.LaidOutPrefix | src/data/SPLStandardMessage.java:245-251 | a layout depends only on the first 70 + n bytes |
| SplProperties.AcceptedIgnoresRest | src/data/SPLStandardMessage.java:245-253 | any buffer agreeing on the first 70 + n bytes is accepted, consumes the same and decodes the same |
| SplProperties.DecodeIdempotent | src/data/SPLStandardMessage.java:158-259 | decoding the same buffer twice leaves the object as decoding it once |
| SplProperties.SignedLength | src/data/SPLStandardMessage.java:245-250 | the length short is negative iff the wire length is 0x8000 or more; the signed check 0..780 passes iff the wire length is at most 780 |
| SplProperties.AcceptedExactly | src/data/SPLStandardMessage.java:158-259 | fromByteArray returns true iff "SPL ", 6, player 1..5, fallen 0/1, ordinals below 5, confidences up to 100, length up to 780 on the unsigned wire bytes, and the data present |
| SplProperties.RejectTruncatedHeader | src/data/SPLStandardMessage.java:161-162 | fewer than 4 bytes: rejected and nothing assigned |
| SplProperties.RejectHeader | src/data/SPLStandardMessage.java:161-165 | a wrong header: rejected, only `header` assigned |
| SplProperties.RejectVersion | src/data/SPLStandardMessage.java:167-169 | a wrong version: rejected, only header and version assigned |
| SplProperties.RejectPlayer | src/data/SPLStandardMessage.java:171-175 | a player byte outside 1..5 (0x80.. included): rejected, only header, version and player assigned |
| SplProperties.RejectFallen | src/data/SPLStandardMessage.java:177-189 | a fallen byte other than 0/1: rejected, team assigned, fallen and later fields unchanged |
| SplProperties.PastFront | src/data/SPLStandardMessage.java:161-212 | definition, no contract: the object once the front phases have all assigned, back fields as before |
| SplProperties.AllSlots | src/data/SPLStandardMessage.java:214-222 | definition, no contract: the five suggestions, each the variant its byte names |
| SplProperties.PastSkills | src/data/SPLStandardMessage.java:161-232 | definition, no contract: PastFront with all suggestions, the intention and the two shorts assigned |
| SplProperties.FrontReached | src/data/SPLStandardMessage.java:161-212 | proof step: once the decoder reaches 56, the front phases give `PastFront` |
| SplProperties.SlotsReached | src/data/SPLStandardMessage.java:214-222 | proof step: once the decoder reaches 61, the suggestions are `AllSlots` |
| SplProperties.SkillsReached | src/data/SPLStandardMessage.java:161-232 | proof step: once the decoder reaches 66, the phases up to the shorts give `PastSkills` |
| SplProperties.SlotsOnStop | src/data/SPLStandardMessage.java:214-222 | proof step: when suggestion i fails, the slots before it hold their variants and the rest are null |
| SplProperties.RejectSuggestion | src/data/SPLStandardMessage.java:214-222 | suggestion i out of range: rejected; the object is exactly `PastFront` with the five SlotAt values, the slots before i set to their variants and i onward null; intention onward unchanged |
| SplProperties.RejectIntention | src/data/SPLStandardMessage.java:224-228 | intention out of range: rejected; the object is exactly `PastFront` with all five suggestions set; intention onward unchanged |
| SplProperties.RejectPositionConfidence | src/data/SPLStandardMessage.java:234-238 | position confidence above 100 on the wire: rejected; the object is exactly `PastSkills` with that confidence assigned; side confidence and data unchanged |
| SplProperties.RejectSideConfidence | src/data/SPLStandardMessage.java:239-243 | side confidence above 100 on the wire: rejected; the object is exactly `PastSkills` with both confidences assigned; data unchanged |
| SplProperties.RejectLength | src/data/SPLStandardMessage.java:245-250 | a wire length above 780, 0x8000.. included: rejected; the object is exactly `PastSkills` with both confidences assigned; data unchanged |
| SplProperties.RejectTruncatedData | src/data/SPLStandardMessage.java:250-251 | fewer data bytes than declared: rejected; the object is exactly `PastSkills` with both confidences assigned and data n zeros |

## Left out

- `Serializable` and `serialVersionUID`: Java object serialisation, not part of the wire format.
- Floats: IEEE-754 semantics are not modelled. A float is its 32-bit pattern, copied verbatim, which is all the codec does with it.
- The header charset: `String.getBytes()` and `new String(byte[])` are modelled as the identity on the header's bytes, compared with the bytes of `"SPL "`.
- `System.out.println` diagnostics in the decoder: console output only, with no effect on the result or the fields.
- The `ByteBuffer` is its bytes from the position up to the limit. `buffer.order(LITTLE_ENDIAN)`, which also changes the caller's buffer, is not modelled. Exceptions become a `false` or failed result; the JVM exception machinery is not modelled.
- Codec.SPLStandardMessage.FromByteArray: after a failure the returned position is only bounded by the buffer's end, not tied to the byte where the Java read stopped.
- Object identity of the float and suggestion arrays: fields hold sequence values, so aliasing between a field and an array held elsewhere is not modelled.
- Null fields other than suggestion entries (a null `header`, `data` or float array), and the default constructor: the model's fields always hold a value. A float array too short for toByteArray's indices is modelled as a failure.
- Network transport and the consumers of a decoded message are not part of this file.
