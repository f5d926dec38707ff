/** The message object itself: public fields updated in place, an encoder
    that fills a freshly allocated SIZE-byte buffer, and a decoder that reads
    a buffer from its current position and assigns the fields as it goes. */
module Codec {
  import opened JavaBytes
  import opened SplWire

  /** ByteBuffer.put(byte[]) on a buffer whose first |written| bytes were put
      before and whose rest is still zero: writes src at the position, or fails
      (BufferOverflowException) when fewer than |src| bytes remain. */
  method Put(buffer: array<int8>, position: nat, ghost written: seq<int8>, src: seq<int8>)
    returns (ok: bool, next: nat)
    requires position == |written| <= buffer.Length
    requires buffer[..] == written + Zeros(buffer.Length - |written|)
    modifies buffer
    ensures ok == (position + |src| <= buffer.Length)
    ensures ok ==> next == position + |src|
    ensures ok ==> buffer[..] == written + src + Zeros(buffer.Length - next)
  {
    ok := position + |src| <= buffer.Length;
    next := position;
    if ok {
      forall i | position <= i < position + |src| {
        buffer[i] := src[i - position];
      }
      next := position + |src|;
      assert buffer[..] == written + src + Zeros(buffer.Length - next);
    }
  }

  class SPLStandardMessage {
    var header: seq<int8>
    var version: int8
    var playerNum: int8
    var teamNum: int8
    var fallen: bool
    var pose: seq<FloatBits>
    var walkingTo: seq<FloatBits>
    var shootingTo: seq<FloatBits>
    var ballAge: FloatBits
    var ball: seq<FloatBits>
    var ballVel: seq<FloatBits>
    var suggestion: seq<Option<Suggestion>>
    var intention: Intention
    var averageWalkSpeed: int16
    var maxKickDistance: int16
    var currentPositionConfidence: int8
    var currentSideConfidence: int8
    var data: seq<int8>

    /** The current value of every field. */
    function Value(): Message
      reads this
    {
      Message(header, version, playerNum, teamNum, fallen, pose, walkingTo, shootingTo,
              ballAge, ball, ballVel, suggestion, intention, averageWalkSpeed, maxKickDistance,
              currentPositionConfidence, currentSideConfidence, data)
    }

    /** fromByteArray: reads a message from `buffer` (the bytes of a ByteBuffer
        up to its limit) starting at `position`, assigning each field as soon as
        it is read, and returns false at the first check that fails or where the
        Java code throws (a read past the limit, a negative enum index, a
        negative array size). `next` is the buffer's position afterwards. */
    method FromByteArray(buffer: seq<int8>, position: nat) returns (ok: bool, next: nat)
      requires position <= |buffer|
      modifies this
      ensures Value() == DecodedInto(old(Value()), buffer[position..])
      ensures ok == Accepted(buffer[position..])
      ensures ok ==> next == position + Consumed(buffer[position..])
      ensures position <= next <= |buffer|
    {
      // The bytes from the buffer's position to its limit.
      var w := buffer[position..];
      var offset;
      ok, offset := ReadFront(w);
      next := position + offset;
      if !ok {
        IdleAfterStop(Value(), w, 56);
        return;
      }
      ok, offset := ReadBack(w);
      next := position + offset;
    }

    /** Bytes 0..55: the prelude, then the float arrays. */
    method ReadFront(w: seq<int8>) returns (ok: bool, next: nat)
      modifies this
      ensures Value() == DecodeFront(old(Value()), w)
      ensures ok == Reaches(w, 56)
      ensures ok ==> next == 56
      ensures next <= |w|
    {
      PreludeSteps(w);
      ok, next := ReadHeader(w);
      if !ok {
        IdleAfterStop(Value(), w, 5);
        return;
      }
      ok, next := ReadPlayer(w);
      if !ok {
        IdleAfterStop(Value(), w, 8);
        return;
      }
      ok, next := ReadPose(w);
      if !ok {
        IdleAfterStop(Value(), w, 20);
        return;
      }
      ok, next := ReadWalkingTo(w);
      if !ok {
        IdleAfterStop(Value(), w, 28);
        return;
      }
      ok, next := ReadShootingTo(w);
      if !ok {
        IdleAfterStop(Value(), w, 36);
        return;
      }
      ok, next := ReadBall(w);
      if !ok {
        IdleAfterStop(Value(), w, 48);
        return;
      }
      ok, next := ReadBallVel(w);
    }

    /** Bytes 56..: the suggestions, intention, walk speed, kick distance,
        the confidences and the data. */
    method ReadBack(w: seq<int8>) returns (ok: bool, next: nat)
      requires Reaches(w, 56)
      modifies this
      ensures Value() == DecodeBack(old(Value()), w)
      ensures ok == Accepted(w)
      ensures ok ==> next == Consumed(w)
      ensures next <= |w|
    {
      ok, next := ReadSuggestions(w);
      if !ok {
        IdleAfterStop(Value(), w, 61);
        return;
      }
      ok, next := ReadIntention(w);
      if !ok {
        IdleAfterStop(Value(), w, 62);
        return;
      }
      ok, next := ReadSkills(w);
      if !ok {
        IdleAfterStop(Value(), w, 66);
        return;
      }
      ok, next := ReadConfidences(w);
      if !ok {
        IdleAfterStop(Value(), w, 68);
        return;
      }
      ok, next := ReadData(w);
    }

    /** The header, compared with "SPL ", and the version, compared with 6;
        each is assigned before it is checked. */
    method ReadHeader(w: seq<int8>) returns (ok: bool, next: nat)
      modifies this`header, this`version
      ensures Value() == DecodeHeader(old(Value()), w)
      ensures ok == Reaches(w, 5)
      ensures ok ==> next == 5
      ensures next <= |w|
    {
      PreludeSteps(w);
      next := 0;
      ok := false;
      // get(byte[4]) throws BufferUnderflowException when fewer than 4 bytes remain.
      if |w| - next < 4 { return; }
      header := w[..4];
      next := next + 4;
      if header != STRUCT_HEADER { return; }

      if |w| - next < 1 { return; }
      version := w[next];
      next := next + 1;
      if version != STRUCT_VERSION { return; }
      ok := true;
    }

    /** The player number (assigned, then checked against 1..5), the team
        number, and the fallen flag, which only the bytes 0 and 1 set. */
    method ReadPlayer(w: seq<int8>) returns (ok: bool, next: nat)
      requires Reaches(w, 5)
      modifies this`playerNum, this`teamNum, this`fallen
      ensures Value() == DecodePlayer(old(Value()), w)
      ensures ok == Reaches(w, 8)
      ensures ok ==> next == 8
      ensures next <= |w|
    {
      PreludeSteps(w);
      next := 5;
      ok := false;
      if |w| - next < 1 { return; }
      playerNum := w[next];
      next := next + 1;
      if playerNum < 1 || playerNum > 5 { return; }

      if |w| - next < 1 { return; }
      teamNum := w[next];
      next := next + 1;

      if |w| - next < 1 { return; }
      var fallenByte := w[next];
      next := next + 1;
      if fallenByte == 0 {
        fallen := false;
      } else if fallenByte == 1 {
        fallen := true;
      } else {
        return;
      }
      ok := true;
    }

    /** The pose: a fresh zero array, filled one getFloat at a time. */
    method ReadPose(w: seq<int8>) returns (ok: bool, next: nat)
      requires Reaches(w, 8)
      modifies this`pose
      ensures Value() == DecodePose(old(Value()), w)
      ensures ok == Reaches(w, 20)
      ensures ok ==> next == 20
      ensures next <= |w|
    {
      FloatBlockUnchecked(w, 8, 20);
      next := 8;
      ok := false;
      pose := [0, 0, 0];
      if |w| - next < 4 { return; }
      pose := pose[0 := FloatAt(w, next)];
      next := next + 4;
      if |w| - next < 4 { return; }
      pose := pose[1 := FloatAt(w, next)];
      next := next + 4;
      if |w| - next < 4 { return; }
      pose := pose[2 := FloatAt(w, next)];
      next := next + 4;
      ok := true;
    }

    /** The walking target: a fresh zero array, filled in turn. */
    method ReadWalkingTo(w: seq<int8>) returns (ok: bool, next: nat)
      requires Reaches(w, 20)
      modifies this`walkingTo
      ensures Value() == DecodeWalkingTo(old(Value()), w)
      ensures ok == Reaches(w, 28)
      ensures ok ==> next == 28
      ensures next <= |w|
    {
      FloatBlockUnchecked(w, 20, 28);
      next := 20;
      ok := false;
      walkingTo := [0, 0];
      if |w| - next < 4 { return; }
      walkingTo := walkingTo[0 := FloatAt(w, next)];
      next := next + 4;
      if |w| - next < 4 { return; }
      walkingTo := walkingTo[1 := FloatAt(w, next)];
      next := next + 4;
      ok := true;
    }

    /** The shooting target: a fresh zero array, filled in turn. */
    method ReadShootingTo(w: seq<int8>) returns (ok: bool, next: nat)
      requires Reaches(w, 28)
      modifies this`shootingTo
      ensures Value() == DecodeShootingTo(old(Value()), w)
      ensures ok == Reaches(w, 36)
      ensures ok ==> next == 36
      ensures next <= |w|
    {
      FloatBlockUnchecked(w, 28, 36);
      next := 28;
      ok := false;
      shootingTo := [0, 0];
      if |w| - next < 4 { return; }
      shootingTo := shootingTo[0 := FloatAt(w, next)];
      next := next + 4;
      if |w| - next < 4 { return; }
      shootingTo := shootingTo[1 := FloatAt(w, next)];
      next := next + 4;
      ok := true;
    }

    /** The ball age, then the ball position array. */
    method ReadBall(w: seq<int8>) returns (ok: bool, next: nat)
      requires Reaches(w, 36)
      modifies this`ballAge, this`ball
      ensures Value() == DecodeBall(old(Value()), w)
      ensures ok == Reaches(w, 48)
      ensures ok ==> next == 48
      ensures next <= |w|
    {
      FloatBlockUnchecked(w, 36, 40);
      FloatBlockUnchecked(w, 36, 48);
      next := 36;
      ok := false;
      if |w| - next < 4 { return; }
      ballAge := FloatAt(w, next);
      next := next + 4;
      ball := [0, 0];
      if |w| - next < 4 { return; }
      ball := ball[0 := FloatAt(w, next)];
      next := next + 4;
      if |w| - next < 4 { return; }
      ball := ball[1 := FloatAt(w, next)];
      next := next + 4;
      ok := true;
    }

    /** The ball velocity array. */
    method ReadBallVel(w: seq<int8>) returns (ok: bool, next: nat)
      requires Reaches(w, 48)
      modifies this`ballVel
      ensures Value() == DecodeBallVel(old(Value()), w)
      ensures ok == Reaches(w, 56)
      ensures ok ==> next == 56
      ensures next <= |w|
    {
      FloatBlockUnchecked(w, 48, 56);
      next := 48;
      ok := false;
      ballVel := [0, 0];
      if |w| - next < 4 { return; }
      ballVel := ballVel[0 := FloatAt(w, next)];
      next := next + 4;
      if |w| - next < 4 { return; }
      ballVel := ballVel[1 := FloatAt(w, next)];
      next := next + 4;
      ok := true;
    }

    /** The loop that fills a fresh array of five suggestions; it stops at the
        first byte that is not an ordinal of Suggestion. */
    method ReadSuggestions(w: seq<int8>) returns (ok: bool, next: nat)
      requires Reaches(w, 56)
      modifies this`suggestion
      ensures Value() == DecodeSuggestions(old(Value()), w)
      ensures ok == Reaches(w, 61)
      ensures ok ==> next == 61
      ensures next <= |w|
    {
      next := 56;
      suggestion := [None, None, None, None, None];
      var i := 0;
      while i < MAX_NUM_OF_PLAYERS
        invariant 0 <= i <= MAX_NUM_OF_PLAYERS
        invariant next == 56 + i
        invariant Reaches(w, 56 + i)
        invariant |suggestion| == MAX_NUM_OF_PLAYERS
        invariant forall j :: 0 <= j < MAX_NUM_OF_PLAYERS ==> suggestion[j] == if j < i then SlotAt(w, j) else None
      {
        if |w| - next < 1 { break; }
        var s: int := w[next];
        next := next + 1;
        if s >= |SUGGESTION_VALUES| { break; }
        // Suggestion.values()[s] with s < 0 throws ArrayIndexOutOfBoundsException.
        if s < 0 { break; }
        suggestion := suggestion[i := Some(SUGGESTION_VALUES[s])];
        i := i + 1;
      }
      ok := i == MAX_NUM_OF_PLAYERS;
      if !ok {
        SlotsAfterStop(w, i);
      }
      assert suggestion == [SlotAt(w, 0), SlotAt(w, 1), SlotAt(w, 2), SlotAt(w, 3), SlotAt(w, 4)];
    }

    /** The intention, checked like a suggestion before it is assigned. */
    method ReadIntention(w: seq<int8>) returns (ok: bool, next: nat)
      requires Reaches(w, 61)
      modifies this`intention
      ensures Value() == DecodeIntention(old(Value()), w)
      ensures ok == Reaches(w, 62)
      ensures ok ==> next == 62
      ensures next <= |w|
    {
      next := 61;
      ok := false;
      if |w| - next < 1 { return; }
      var intentionOrdinal: int := w[next];
      next := next + 1;
      if intentionOrdinal >= |INTENTION_VALUES| { return; }
      // Intention.values()[k] with k < 0 throws ArrayIndexOutOfBoundsException.
      if intentionOrdinal < 0 { return; }
      intention := INTENTION_VALUES[intentionOrdinal];
      ok := true;
    }

    /** The average walk speed and the maximum kick distance, two shorts. */
    method ReadSkills(w: seq<int8>) returns (ok: bool, next: nat)
      requires Reaches(w, 62)
      modifies this`averageWalkSpeed, this`maxKickDistance
      ensures Value() == DecodeSkills(old(Value()), w)
      ensures ok == Reaches(w, 66)
      ensures ok ==> next == 66
      ensures next <= |w|
    {
      next := 62;
      ok := false;
      if |w| - next < 2 { return; }
      averageWalkSpeed := ShortAt(w, next);
      next := next + 2;
      if |w| - next < 2 { return; }
      maxKickDistance := ShortAt(w, next);
      next := next + 2;
      ok := true;
    }

    /** The two confidences, each assigned and then checked against 0..100. */
    method ReadConfidences(w: seq<int8>) returns (ok: bool, next: nat)
      requires Reaches(w, 66)
      modifies this`currentPositionConfidence, this`currentSideConfidence
      ensures Value() == DecodeConfidences(old(Value()), w)
      ensures ok == Reaches(w, 68)
      ensures ok ==> next == 68
      ensures next <= |w|
    {
      next := 66;
      ok := false;
      if |w| - next < 1 { return; }
      currentPositionConfidence := w[next];
      next := next + 1;
      if currentPositionConfidence < 0 || currentPositionConfidence > 100 { return; }
      if |w| - next < 1 { return; }
      currentSideConfidence := w[next];
      next := next + 1;
      if currentSideConfidence < 0 || currentSideConfidence > 100 { return; }
      ok := true;
    }

    /** The data length, checked against 0..780, then the data: a fresh zero
        array of that length, filled by a single bulk get. */
    method ReadData(w: seq<int8>) returns (ok: bool, next: nat)
      requires Reaches(w, 68)
      modifies this`data
      ensures Value() == DecodeData(old(Value()), w)
      ensures ok == Accepted(w)
      ensures ok ==> next == Consumed(w)
      ensures next <= |w|
    {
      next := 68;
      ok := false;
      if |w| - next < 2 { return; }
      var numOfDataBytes := ShortAt(w, next);
      next := next + 2;
      if numOfDataBytes > DATA_SIZE { return; }
      // new byte[n] with n < 0 throws NegativeArraySizeException.
      if numOfDataBytes < 0 { return; }
      data := Zeros(numOfDataBytes);
      // get(data, 0, n) throws BufferUnderflowException when fewer than n bytes remain.
      if |w| - next < numOfDataBytes { return; }
      data := w[next..next + numOfDataBytes];
      next := next + numOfDataBytes;
      ok := true;
    }


    /** toByteArray: puts every field, little-endian, into a zero-filled buffer
        of SIZE bytes. Fails where the Java code throws: a missing field or a
        buffer overflow. The object itself is not changed. */
    method ToByteArray() returns (ok: bool, bytes: array<int8>)
      ensures fresh(bytes) && bytes.Length == SIZE
      ensures ok == Encode(Value()).Some?
      ensures ok ==> bytes[..] == Encode(Value()).value
    {
      bytes := new int8[SIZE](_ => 0);
      assert bytes[..] == [] + Zeros(SIZE);
      var pos := 0;
      ok, pos := PutPrelude(bytes, pos, []);
      if !ok { return; }
      ghost var written := Prelude(Value());
      ok, pos := PutKinematics(bytes, pos, written);
      if !ok { return; }
      written := written + Kinematics(Value());
      ok, pos := PutSuggestions(bytes, pos, written);
      if !ok { return; }
      written := written + SuggestionBytes(suggestion);
      ok, pos := PutTail(bytes, pos, written);
      if !ok { return; }
      written := written + Tail(Value());
    }

    /** The puts of header, version, player number, team number and fallen. */
    method PutPrelude(bytes: array<int8>, pos: nat, ghost written: seq<int8>) returns (ok: bool, next: nat)
      requires pos == |written| <= bytes.Length
      requires bytes[..] == written + Zeros(bytes.Length - |written|)
      modifies bytes
      ensures ok == (pos + |Prelude(Value())| <= bytes.Length)
      ensures ok ==> next == pos + |Prelude(Value())|
      ensures ok ==> bytes[..] == written + Prelude(Value()) + Zeros(bytes.Length - next)
    {
      ghost var w := written;
      ok, next := Put(bytes, pos, w, header);
      if !ok { return; }
      w := w + header;
      ok, next := Put(bytes, next, w, [version]);
      if !ok { return; }
      w := w + [version];
      ok, next := Put(bytes, next, w, [playerNum]);
      if !ok { return; }
      w := w + [playerNum];
      ok, next := Put(bytes, next, w, [teamNum]);
      if !ok { return; }
      w := w + [teamNum];
      ok, next := Put(bytes, next, w, [FallenByte(fallen)]);
      if !ok { return; }
      w := w + [FallenByte(fallen)];
      assert w == written + Prelude(Value());
    }

    /** The twelve putFloat calls; a float array too short for the index read
        throws ArrayIndexOutOfBoundsException. */
    method PutKinematics(bytes: array<int8>, pos: nat, ghost written: seq<int8>) returns (ok: bool, next: nat)
      requires pos == |written| <= bytes.Length
      requires bytes[..] == written + Zeros(bytes.Length - |written|)
      modifies bytes
      ensures ok == (FloatsPresent(Value()) && pos + 48 <= bytes.Length)
      ensures ok ==> next == pos + 48
      ensures ok ==> bytes[..] == written + Kinematics(Value()) + Zeros(bytes.Length - next)
    {
      ok, next := PutPose(bytes, pos, written);
      if !ok { return; }
      ghost var w := written + PoseBytes(Value());
      ok, next := PutTargets(bytes, next, w);
      if !ok { return; }
      w := w + TargetBytes(Value());
      ok, next := PutBall(bytes, next, w);
      if !ok { return; }
      w := w + BallBytes(Value());
      assert w == written + Kinematics(Value());
    }

    /** pose[0], pose[1], pose[2]. */
    method PutPose(bytes: array<int8>, pos: nat, ghost written: seq<int8>) returns (ok: bool, next: nat)
      requires pos == |written| <= bytes.Length
      requires bytes[..] == written + Zeros(bytes.Length - |written|)
      modifies bytes
      ensures ok == (|pose| >= 3 && pos + 12 <= bytes.Length)
      ensures ok ==> next == pos + 12
      ensures ok ==> bytes[..] == written + PoseBytes(Value()) + Zeros(bytes.Length - next)
    {
      ghost var w := written;
      next := pos;
      if |pose| < 3 {
        ok := false;
        return;
      }
      ok, next := Put(bytes, next, w, FloatBytes(pose[0]));
      if !ok { return; }
      w := w + FloatBytes(pose[0]);
      ok, next := Put(bytes, next, w, FloatBytes(pose[1]));
      if !ok { return; }
      w := w + FloatBytes(pose[1]);
      ok, next := Put(bytes, next, w, FloatBytes(pose[2]));
      if !ok { return; }
      w := w + FloatBytes(pose[2]);
      assert w == written + PoseBytes(Value());
    }

    /** walkingTo[0..1], shootingTo[0..1]. */
    method PutTargets(bytes: array<int8>, pos: nat, ghost written: seq<int8>) returns (ok: bool, next: nat)
      requires pos == |written| <= bytes.Length
      requires bytes[..] == written + Zeros(bytes.Length - |written|)
      modifies bytes
      ensures ok == (|walkingTo| >= 2 && |shootingTo| >= 2 && pos + 16 <= bytes.Length)
      ensures ok ==> next == pos + 16
      ensures ok ==> bytes[..] == written + TargetBytes(Value()) + Zeros(bytes.Length - next)
    {
      ghost var w := written;
      next := pos;
      if |walkingTo| < 2 {
        ok := false;
        return;
      }
      ok, next := Put(bytes, next, w, FloatBytes(walkingTo[0]));
      if !ok { return; }
      w := w + FloatBytes(walkingTo[0]);
      ok, next := Put(bytes, next, w, FloatBytes(walkingTo[1]));
      if !ok { return; }
      w := w + FloatBytes(walkingTo[1]);
      if |shootingTo| < 2 {
        ok := false;
        return;
      }
      ok, next := Put(bytes, next, w, FloatBytes(shootingTo[0]));
      if !ok { return; }
      w := w + FloatBytes(shootingTo[0]);
      ok, next := Put(bytes, next, w, FloatBytes(shootingTo[1]));
      if !ok { return; }
      w := w + FloatBytes(shootingTo[1]);
      assert w == written + TargetBytes(Value());
    }

    /** ballAge, ball[0..1], ballVel[0..1]. */
    method PutBall(bytes: array<int8>, pos: nat, ghost written: seq<int8>) returns (ok: bool, next: nat)
      requires pos == |written| <= bytes.Length
      requires bytes[..] == written + Zeros(bytes.Length - |written|)
      modifies bytes
      ensures ok == (|ball| >= 2 && |ballVel| >= 2 && pos + 20 <= bytes.Length)
      ensures ok ==> next == pos + 20
      ensures ok ==> bytes[..] == written + BallBytes(Value()) + Zeros(bytes.Length - next)
    {
      ghost var w := written;
      next := pos;
      ok, next := Put(bytes, next, w, FloatBytes(ballAge));
      if !ok { return; }
      w := w + FloatBytes(ballAge);
      if |ball| < 2 {
        ok := false;
        return;
      }
      ok, next := Put(bytes, next, w, FloatBytes(ball[0]));
      if !ok { return; }
      w := w + FloatBytes(ball[0]);
      ok, next := Put(bytes, next, w, FloatBytes(ball[1]));
      if !ok { return; }
      w := w + FloatBytes(ball[1]);
      if |ballVel| < 2 {
        ok := false;
        return;
      }
      ok, next := Put(bytes, next, w, FloatBytes(ballVel[0]));
      if !ok { return; }
      w := w + FloatBytes(ballVel[0]);
      ok, next := Put(bytes, next, w, FloatBytes(ballVel[1]));
      if !ok { return; }
      w := w + FloatBytes(ballVel[1]);
      assert w == written + BallBytes(Value());
    }

    /** The loop that puts each suggestion's ordinal; a null entry throws
        NullPointerException. */
    method PutSuggestions(bytes: array<int8>, pos: nat, ghost written: seq<int8>) returns (ok: bool, next: nat)
      requires pos == |written| <= bytes.Length
      requires bytes[..] == written + Zeros(bytes.Length - |written|)
      modifies bytes
      ensures ok == ((forall j :: 0 <= j < |suggestion| ==> suggestion[j].Some?)
                     && pos + |suggestion| <= bytes.Length)
      ensures ok ==> next == pos + |suggestion|
      ensures ok ==> bytes[..] == written + SuggestionBytes(suggestion) + Zeros(bytes.Length - next)
    {
      ghost var w := written;
      next := pos;
      ok := true;
      var i := 0;
      while i < |suggestion|
        invariant 0 <= i <= |suggestion|
        invariant next == |w| == pos + i <= bytes.Length
        invariant bytes[..] == w + Zeros(bytes.Length - |w|)
        invariant forall j :: 0 <= j < i ==> suggestion[j].Some?
        invariant w == written + SuggestionBytes(suggestion[..i])
      {
        if suggestion[i].None? {
          ok := false;
          return;
        }
        var b := ToByte(SuggestionOrdinal(suggestion[i].value));
        ok, next := Put(bytes, next, w, [b]);
        if !ok { return; }
        assert suggestion[..i + 1][..i] == suggestion[..i];
        w := w + [b];
        i := i + 1;
      }
      assert suggestion[..i] == suggestion;
    }

    /** The puts of intention, walk speed, kick distance, the confidences, the
        data length and the data. */
    method PutTail(bytes: array<int8>, pos: nat, ghost written: seq<int8>) returns (ok: bool, next: nat)
      requires pos == |written| <= bytes.Length
      requires bytes[..] == written + Zeros(bytes.Length - |written|)
      modifies bytes
      ensures ok == (pos + |Tail(Value())| <= bytes.Length)
      ensures ok ==> next == pos + |Tail(Value())|
      ensures ok ==> bytes[..] == written + Tail(Value()) + Zeros(bytes.Length - next)
    {
      ghost var w := written;
      ok, next := Put(bytes, pos, w, [ToByte(IntentionOrdinal(intention))]);
      if !ok { return; }
      w := w + [ToByte(IntentionOrdinal(intention))];
      ok, next := Put(bytes, next, w, ShortBytes(averageWalkSpeed));
      if !ok { return; }
      w := w + ShortBytes(averageWalkSpeed);
      ok, next := Put(bytes, next, w, ShortBytes(maxKickDistance));
      if !ok { return; }
      w := w + ShortBytes(maxKickDistance);
      ok, next := Put(bytes, next, w, [currentPositionConfidence]);
      if !ok { return; }
      w := w + [currentPositionConfidence];
      ok, next := Put(bytes, next, w, [currentSideConfidence]);
      if !ok { return; }
      w := w + [currentSideConfidence];
      ok, next := Put(bytes, next, w, ShortBytes(ToShort(|data|)));
      if !ok { return; }
      w := w + ShortBytes(ToShort(|data|));
      ok, next := Put(bytes, next, w, data);
      if !ok { return; }
      w := w + data;
      assert w == written + Tail(Value());
    }
  }
}
