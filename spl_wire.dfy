/** The wire format of the SPL standard message: its constants, its two
    enumerations, the value of a message, and pure descriptions of what the
    encoder writes and of what the validating decoder accepts and assigns.
    Offsets are relative to the first byte of the message. */
module SplWire {
  import opened JavaBytes

  datatype Option<T> = None | Some(value: T)

  /** The 4-byte tag "SPL " that opens every message. */
  const STRUCT_HEADER: seq<int8> := ['S' as int, 'P' as int, 'L' as int, ' ' as int]
  const STRUCT_VERSION: int8 := 6
  const DATA_SIZE := 780
  const MAX_NUM_OF_PLAYERS := 5

  /** Bytes on the wire: header, version, player, team, fallen, twelve floats,
      the suggestions, intention, two shorts, two confidences, the data length
      and the data block. */
  const SIZE := 4 + 1 + 1 + 1 + 1 + 12 + 8 + 8 + 4 + 8 + 8 + MAX_NUM_OF_PLAYERS
                + 1 + 2 + 2 + 1 + 1 + 2 + DATA_SIZE

  /** What, in a robot's opinion, a teammate should do. */
  datatype Suggestion = Nothing | Keeper | Defense | Offense | PlayBall

  /** `Suggestion.values()`: the variants in ordinal order. */
  const SUGGESTION_VALUES: seq<Suggestion> :=
    [Suggestion.Nothing, Suggestion.Keeper, Suggestion.Defense, Suggestion.Offense, Suggestion.PlayBall]

  function SuggestionOrdinal(s: Suggestion): (k: nat)
    ensures k < |SUGGESTION_VALUES| && SUGGESTION_VALUES[k] == s
  {
    match s
    case Nothing => 0
    case Keeper => 1
    case Defense => 2
    case Offense => 3
    case PlayBall => 4
  }

  /** What a robot intends to do itself. */
  datatype Intention = Nothing | Keeper | Defense | PlayBall | Lost

  /** `Intention.values()`: the variants in ordinal order. */
  const INTENTION_VALUES: seq<Intention> :=
    [Intention.Nothing, Intention.Keeper, Intention.Defense, Intention.PlayBall, Intention.Lost]

  function IntentionOrdinal(i: Intention): (k: nat)
    ensures k < |INTENTION_VALUES| && INTENTION_VALUES[k] == i
  {
    match i
    case Nothing => 0
    case Keeper => 1
    case Defense => 2
    case PlayBall => 3
    case Lost => 4
  }

  /** The public fields of one message object. A `String` header is its bytes;
      a `float[]` is the sequence of its elements' bits; an element of the
      `suggestion` array may be null (None), as it is after a decode that
      stopped half-way through the suggestions. */
  datatype Message = Message(
    header: seq<int8>,
    version: int8,
    playerNum: int8,
    teamNum: int8,
    fallen: bool,
    pose: seq<FloatBits>,
    walkingTo: seq<FloatBits>,
    shootingTo: seq<FloatBits>,
    ballAge: FloatBits,
    ball: seq<FloatBits>,
    ballVel: seq<FloatBits>,
    suggestion: seq<Option<Suggestion>>,
    intention: Intention,
    averageWalkSpeed: int16,
    maxKickDistance: int16,
    currentPositionConfidence: int8,
    currentSideConfidence: int8,
    data: seq<int8>)

  /** A message every field of which lies in its documented domain: the one
      kind of message that both sides of the protocol agree on. */
  predicate WellFormed(m: Message)
  {
    m.header == STRUCT_HEADER && m.version == STRUCT_VERSION
    && 1 <= m.playerNum <= MAX_NUM_OF_PLAYERS
    && |m.pose| == 3 && |m.walkingTo| == 2 && |m.shootingTo| == 2
    && |m.ball| == 2 && |m.ballVel| == 2
    && |m.suggestion| == MAX_NUM_OF_PLAYERS
    && (forall i :: 0 <= i < |m.suggestion| ==> m.suggestion[i].Some?)
    && 0 <= m.currentPositionConfidence <= 100
    && 0 <= m.currentSideConfidence <= 100
    && |m.data| <= DATA_SIZE
  }

  function Zeros(n: nat): (z: seq<int8>)
    ensures |z| == n && forall i :: 0 <= i < n ==> z[i] == 0
  {
    seq(n, _ => 0)
  }

  // ---------------------------------------------------------------------
  // Encoder

  /** The float arrays are long enough for the indices toByteArray reads;
      otherwise it throws ArrayIndexOutOfBoundsException. */
  predicate FloatsPresent(m: Message)
  {
    |m.pose| >= 3 && |m.walkingTo| >= 2 && |m.shootingTo| >= 2
    && |m.ball| >= 2 && |m.ballVel| >= 2
  }

  /** toByteArray meets no null suggestion (NullPointerException) and no float
      array too short for the indices it reads. */
  predicate FieldsPresent(m: Message)
  {
    FloatsPresent(m) && forall i :: 0 <= i < |m.suggestion| ==> m.suggestion[i].Some?
  }

  function FallenByte(fallen: bool): int8
  {
    if fallen then 1 else 0
  }

  /** The bytes put first: header, version, player, team and the fallen flag. */
  function Prelude(m: Message): (bs: seq<int8>)
    ensures |bs| == |m.header| + 4
  {
    m.header + [m.version] + [m.playerNum] + [m.teamNum] + [FallenByte(m.fallen)]
  }

  /** The pose: x, y, theta. */
  function PoseBytes(m: Message): (bs: seq<int8>)
    requires |m.pose| >= 3
    ensures |bs| == 12
  {
    FloatBytes(m.pose[0]) + FloatBytes(m.pose[1]) + FloatBytes(m.pose[2])
  }

  /** The walking target and the shooting target. */
  function TargetBytes(m: Message): (bs: seq<int8>)
    requires |m.walkingTo| >= 2 && |m.shootingTo| >= 2
    ensures |bs| == 16
  {
    FloatBytes(m.walkingTo[0]) + FloatBytes(m.walkingTo[1])
    + FloatBytes(m.shootingTo[0]) + FloatBytes(m.shootingTo[1])
  }

  /** The ball's age, position and velocity. */
  function BallBytes(m: Message): (bs: seq<int8>)
    requires |m.ball| >= 2 && |m.ballVel| >= 2
    ensures |bs| == 20
  {
    FloatBytes(m.ballAge)
    + FloatBytes(m.ball[0]) + FloatBytes(m.ball[1])
    + FloatBytes(m.ballVel[0]) + FloatBytes(m.ballVel[1])
  }

  /** The twelve floats, four bytes each. */
  function Kinematics(m: Message): (bs: seq<int8>)
    requires FloatsPresent(m)
    ensures |bs| == 48
  {
    PoseBytes(m) + TargetBytes(m) + BallBytes(m)
  }

  /** The bytes the loop over `suggestion` puts: each entry's ordinal, as a byte. */
  function SuggestionBytes(s: seq<Option<Suggestion>>): (bs: seq<int8>)
    requires forall i :: 0 <= i < |s| ==> s[i].Some?
    ensures |bs| == |s|
    ensures forall i :: 0 <= i < |s| ==> bs[i] == SuggestionOrdinal(s[i].value)
  {
    if s == [] then [] else SuggestionBytes(s[..|s| - 1]) + [ToByte(SuggestionOrdinal(s[|s| - 1].value))]
  }

  /** The bytes put last: intention, the two shorts, the confidences, the data
      length (cast to short) and the data itself. */
  function Tail(m: Message): (bs: seq<int8>)
    ensures |bs| == 9 + |m.data|
  {
    [ToByte(IntentionOrdinal(m.intention))]
    + ShortBytes(m.averageWalkSpeed) + ShortBytes(m.maxKickDistance)
    + [m.currentPositionConfidence] + [m.currentSideConfidence]
    + ShortBytes(ToShort(|m.data|)) + m.data
  }

  /** Every byte toByteArray puts, in the order it puts them. The header and the
      suggestions are written whatever their length, so the later fields move
      when either is not of its nominal size. */
  function Wire(m: Message): (bs: seq<int8>)
    requires FieldsPresent(m)
    ensures |bs| == |m.header| + |m.suggestion| + 61 + |m.data|
  {
    Prelude(m) + Kinematics(m) + SuggestionBytes(m.suggestion) + Tail(m)
  }

  /** The array toByteArray returns, or None where it throws (a missing field,
      or more bytes than the SIZE-byte buffer holds). */
  function Encode(m: Message): (r: Option<seq<int8>>)
    ensures r.Some? <==> FieldsPresent(m) && |m.header| + |m.suggestion| + 61 + |m.data| <= SIZE
    ensures r.Some? ==> |r.value| == SIZE
    ensures r.Some? ==> r.value[..|Wire(m)|] == Wire(m)
    ensures r.Some? ==> forall i :: |Wire(m)| <= i < SIZE ==> r.value[i] == 0
  {
    if FieldsPresent(m) && |Wire(m)| <= SIZE then Some(Wire(m) + Zeros(SIZE - |Wire(m)|)) else None
  }

  // ---------------------------------------------------------------------
  // Decoder

  /** getShort at offset o. */
  function ShortAt(w: seq<int8>, o: nat): int16
    requires o + 2 <= |w|
  {
    GetShort(w[o], w[o + 1])
  }

  /** getFloat at offset o. */
  function FloatAt(w: seq<int8>, o: nat): FloatBits
    requires o + 4 <= |w|
  {
    GetFloat(w[o], w[o + 1], w[o + 2], w[o + 3])
  }

  /** The element of a fresh float array after fromByteArray tried to fill it
      from offset o: the float read, or 0 if the buffer ran out first. */
  function FloatOrZero(w: seq<int8>, o: nat): FloatBits
  {
    if o + 4 <= |w| then FloatAt(w, o) else 0
  }

  /** The length word at offset 68, read as the signed `short` the decoder uses. */
  function DataLength(w: seq<int8>): int16
    requires 70 <= |w|
  {
    ShortAt(w, 68)
  }

  /** Every validation fromByteArray applies to a byte before offset o passes:
      the header, the version, the player number 1..5, the fallen byte 0/1,
      the enum ordinals (an index below 0 throws, one of 5 or more is refused),
      the confidences 0..100, and the data length 0..780 (a negative length
      throws when the array is allocated). */
  predicate ChecksPass(w: seq<int8>, o: nat)
    requires o <= |w|
  {
    (o >= 4 ==> w[..4] == STRUCT_HEADER)
    && (o >= 5 ==> w[4] == STRUCT_VERSION)
    && (o >= 6 ==> 1 <= w[5] <= 5)
    && (o >= 8 ==> w[7] == 0 || w[7] == 1)
    && (forall i :: 56 <= i < 61 && i < o ==> 0 <= w[i] < |SUGGESTION_VALUES|)
    && (o >= 62 ==> 0 <= w[61] < |INTENTION_VALUES|)
    && (o >= 67 ==> 0 <= w[66] <= 100)
    && (o >= 68 ==> 0 <= w[67] <= 100)
    && (o >= 70 ==> 0 <= DataLength(w) <= DATA_SIZE)
  }

  /** The decoder gets as far as offset o: every byte before it is present and
      passed its check. */
  predicate Reaches(w: seq<int8>, o: nat)
  {
    o <= |w| && ChecksPass(w, o)
  }

  /** The decoder reads bytes [o, o+k): it got to o and k more bytes remain. */
  predicate Reads(w: seq<int8>, o: nat, k: nat)
  {
    Reaches(w, o) && o + k <= |w|
  }

  /** fromByteArray returns true on w. Only the 70 fixed bytes and the declared
      data are needed; a full SIZE-byte buffer is not required. */
  predicate Accepted(w: seq<int8>)
  {
    Reaches(w, 70) && 70 + DataLength(w) <= |w|
  }

  /** The bytes fromByteArray takes from the buffer when it returns true. */
  function Consumed(w: seq<int8>): (n: nat)
    requires Accepted(w)
    ensures 70 <= n <= 70 + DATA_SIZE && n <= |w|
  {
    70 + DataLength(w)
  }

  /** `suggestion[i]` after decoding: set once its byte passed its check, else null. */
  function SlotAt(w: seq<int8>, i: nat): Option<Suggestion>
    requires i < MAX_NUM_OF_PLAYERS
  {
    if Reaches(w, 57 + i) then Some(SUGGESTION_VALUES[w[56 + i]]) else None
  }

  /** The fields of a message object after fromByteArray ran on w, starting from
      the fields m. Each field the decoder assigns before it stops takes the
      value read; every other field keeps its value from m. Header, version,
      player number and the confidences are assigned before they are checked,
      the fallen flag and the enums only after; each float array is replaced by
      a fresh zero array before its elements are read, and so is `data` once its
      length passed the checks. The phases touch disjoint fields. */
  function DecodedInto(m: Message, w: seq<int8>): Message
  {
    DecodeBack(DecodeFront(m, w), w)
  }

  /** The fixed-width front of the message: bytes 0..55, up to the ball velocity. */
  function DecodeFront(m: Message, w: seq<int8>): Message
  {
    var prelude := DecodePlayer(DecodeHeader(m, w), w);
    var targets := DecodeShootingTo(DecodeWalkingTo(DecodePose(prelude, w), w), w);
    DecodeBallVel(DecodeBall(targets, w), w)
  }

  /** The back of the message: bytes 56.., from the suggestions to the data. */
  function DecodeBack(m: Message, w: seq<int8>): Message
  {
    DecodeData(DecodeConfidences(DecodeSkills(DecodeIntention(DecodeSuggestions(m, w), w), w), w), w)
  }

  /** The header and the version (bytes 0..4). */
  function DecodeHeader(m: Message, w: seq<int8>): Message
  {
    m.(
      header := if Reads(w, 0, 4) then w[..4] else m.header,
      version := if Reads(w, 4, 1) then w[4] else m.version)
  }

  /** The player number, the team number and the fallen flag (bytes 5..7). */
  function DecodePlayer(m: Message, w: seq<int8>): Message
  {
    m.(
      playerNum := if Reads(w, 5, 1) then w[5] else m.playerNum,
      teamNum := if Reads(w, 6, 1) then w[6] else m.teamNum,
      fallen := if Reaches(w, 8) then w[7] == 1 else m.fallen)
  }

  /** The pose (bytes 8..19). */
  function DecodePose(m: Message, w: seq<int8>): Message
  {
    m.(pose := if Reaches(w, 8) then [FloatOrZero(w, 8), FloatOrZero(w, 12), FloatOrZero(w, 16)] else m.pose)
  }

  /** The walking target (bytes 20..27). */
  function DecodeWalkingTo(m: Message, w: seq<int8>): Message
  {
    m.(walkingTo := if Reaches(w, 20) then [FloatOrZero(w, 20), FloatOrZero(w, 24)] else m.walkingTo)
  }

  /** The shooting target (bytes 28..35). */
  function DecodeShootingTo(m: Message, w: seq<int8>): Message
  {
    m.(shootingTo := if Reaches(w, 28) then [FloatOrZero(w, 28), FloatOrZero(w, 32)] else m.shootingTo)
  }

  /** The ball's age and position (bytes 36..47). */
  function DecodeBall(m: Message, w: seq<int8>): Message
  {
    m.(
      ballAge := if Reads(w, 36, 4) then FloatAt(w, 36) else m.ballAge,
      ball := if Reaches(w, 40) then [FloatOrZero(w, 40), FloatOrZero(w, 44)] else m.ball)
  }

  /** The ball's velocity (bytes 48..55). */
  function DecodeBallVel(m: Message, w: seq<int8>): Message
  {
    m.(ballVel := if Reaches(w, 48) then [FloatOrZero(w, 48), FloatOrZero(w, 52)] else m.ballVel)
  }

  /** The suggestion array (bytes 56..60). */
  function DecodeSuggestions(m: Message, w: seq<int8>): Message
  {
    m.(suggestion := if Reaches(w, 56) then [SlotAt(w, 0), SlotAt(w, 1), SlotAt(w, 2), SlotAt(w, 3), SlotAt(w, 4)]
                     else m.suggestion)
  }

  /** The intention (byte 61). */
  function DecodeIntention(m: Message, w: seq<int8>): Message
  {
    m.(intention := if Reaches(w, 62) then INTENTION_VALUES[w[61]] else m.intention)
  }

  /** The average walk speed and the maximum kick distance (bytes 62..65). */
  function DecodeSkills(m: Message, w: seq<int8>): Message
  {
    m.(
      averageWalkSpeed := if Reads(w, 62, 2) then ShortAt(w, 62) else m.averageWalkSpeed,
      maxKickDistance := if Reads(w, 64, 2) then ShortAt(w, 64) else m.maxKickDistance)
  }

  /** The two confidences (bytes 66 and 67). */
  function DecodeConfidences(m: Message, w: seq<int8>): Message
  {
    m.(
      currentPositionConfidence := if Reads(w, 66, 1) then w[66] else m.currentPositionConfidence,
      currentSideConfidence := if Reads(w, 67, 1) then w[67] else m.currentSideConfidence)
  }

  /** The data block, behind its length word (bytes 68..). */
  function DecodeData(m: Message, w: seq<int8>): Message
  {
    m.(data := if !Reaches(w, 70) then m.data
               else if 70 + DataLength(w) <= |w| then w[70..70 + DataLength(w)]
               else Zeros(DataLength(w)))
  }

  /** Checks that pass up to an offset pass up to every earlier one. */
  lemma ChecksMonotone(w: seq<int8>, o1: nat, o2: nat)
    requires o1 <= o2 <= |w| && ChecksPass(w, o2)
    ensures ChecksPass(w, o1)
  {
  }

  /** A phase the decoder never reaches changes nothing. */
  lemma IdleAfterStop(m: Message, w: seq<int8>, o: nat)
    requires !Reaches(w, o)
    ensures o <= 5 ==> DecodePlayer(m, w) == m
    ensures o <= 8 ==> DecodePose(m, w) == m
    ensures o <= 20 ==> DecodeWalkingTo(m, w) == m
    ensures o <= 28 ==> DecodeShootingTo(m, w) == m
    ensures o <= 36 ==> DecodeBall(m, w) == m
    ensures o <= 48 ==> DecodeBallVel(m, w) == m
    ensures o <= 56 ==> DecodeSuggestions(m, w) == m && DecodeBack(m, w) == m
    ensures o <= 61 ==> DecodeIntention(m, w) == m
    ensures o <= 62 ==> DecodeSkills(m, w) == m
    ensures o <= 66 ==> DecodeConfidences(m, w) == m
    ensures o <= 68 ==> DecodeData(m, w) == m
    ensures o <= 70 ==> !Accepted(w)
  {
    forall o2: nat | o <= o2 <= |w|
      ensures !ChecksPass(w, o2)
    {
      if ChecksPass(w, o2) { ChecksMonotone(w, o, o2); }
    }
  }

  /** No check guards a byte of the float block (offsets 8..55): once the
      decoder is past the fallen flag, it gets as far as the buffer goes there. */
  lemma FloatBlockUnchecked(w: seq<int8>, o1: nat, o2: nat)
    requires Reaches(w, o1) && 8 <= o1 <= o2 <= 56
    ensures Reaches(w, o2) == (o2 <= |w|)
  {
  }

  /** How far the decoder gets through the prelude, check by check. */
  lemma PreludeSteps(w: seq<int8>)
    ensures Reaches(w, 4) == (4 <= |w| && w[..4] == STRUCT_HEADER)
    ensures Reaches(w, 5) == (Reaches(w, 4) && 5 <= |w| && w[4] == STRUCT_VERSION)
    ensures Reaches(w, 6) == (Reaches(w, 5) && 6 <= |w| && 1 <= w[5] <= 5)
    ensures Reaches(w, 7) == (Reaches(w, 6) && 7 <= |w|)
    ensures Reaches(w, 8) == (Reaches(w, 7) && 8 <= |w| && (w[7] == 0 || w[7] == 1))
  {
  }

  /** Once a suggestion byte fails, no later suggestion is assigned. */
  lemma SlotsAfterStop(w: seq<int8>, i: nat)
    requires i < MAX_NUM_OF_PLAYERS && !Reaches(w, 57 + i)
    ensures forall j :: i <= j < MAX_NUM_OF_PLAYERS ==> SlotAt(w, j) == None
  {
    forall j | i <= j < MAX_NUM_OF_PLAYERS
      ensures SlotAt(w, j) == None
    {
      if Reaches(w, 57 + j) { ChecksMonotone(w, 57 + i, 57 + j); }
    }
  }
}
