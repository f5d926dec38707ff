/** Properties of the SPL standard message codec, stated on the pure
    descriptions of the encoder (`Encode`) and of the decoder (`Accepted`,
    `DecodedInto`): the fixed byte layout, the round trip in both directions,
    which inputs are accepted, and what a rejected input leaves behind. */
module SplProperties {
  import opened JavaBytes
  import opened SplWire

  // ---------------------------------------------------------------------
  // The nominal layout, field by field

  /** Bytes 0..7 hold the header, version, player number, team number and
      the fallen flag as 1 or 0. */
  predicate PreludeAt(m: Message, w: seq<int8>)
    requires 8 <= |w|
  {
    m.header == w[..4] && m.version == w[4] && m.playerNum == w[5] && m.teamNum == w[6]
    && FallenByte(m.fallen) == w[7]
  }

  /** Bytes 8..55 hold the twelve floats, each as a little-endian word. */
  predicate KinematicsAt(m: Message, w: seq<int8>)
    requires FloatsPresent(m) && 56 <= |w|
  {
    m.pose[0] == FloatAt(w, 8) && m.pose[1] == FloatAt(w, 12) && m.pose[2] == FloatAt(w, 16)
    && m.walkingTo[0] == FloatAt(w, 20) && m.walkingTo[1] == FloatAt(w, 24)
    && m.shootingTo[0] == FloatAt(w, 28) && m.shootingTo[1] == FloatAt(w, 32)
    && m.ballAge == FloatAt(w, 36)
    && m.ball[0] == FloatAt(w, 40) && m.ball[1] == FloatAt(w, 44)
    && m.ballVel[0] == FloatAt(w, 48) && m.ballVel[1] == FloatAt(w, 52)
  }

  /** Bytes 56..60 hold the ordinals of the five suggestions. */
  predicate SuggestionsAt(m: Message, w: seq<int8>)
    requires |m.suggestion| == MAX_NUM_OF_PLAYERS && 61 <= |w|
  {
    forall i :: 0 <= i < MAX_NUM_OF_PLAYERS ==>
      m.suggestion[i].Some? && SuggestionOrdinal(m.suggestion[i].value) == w[56 + i]
  }

  /** Byte 61 holds the intention's ordinal, 62..65 the two shorts, 66 and 67
      the confidences, 68..69 the data length and 70.. the data. */
  predicate TailAt(m: Message, w: seq<int8>)
    requires 70 + |m.data| <= |w|
  {
    IntentionOrdinal(m.intention) == w[61]
    && m.averageWalkSpeed == ShortAt(w, 62) && m.maxKickDistance == ShortAt(w, 64)
    && m.currentPositionConfidence == w[66] && m.currentSideConfidence == w[67]
    && ToShort(|m.data|) == ShortAt(w, 68)
    && m.data == w[70..70 + |m.data|]
  }

  /** Every field of m sits in w at its fixed offset, in the form the decoder
      reads it back: the layout of a message with a 4-byte header and five
      suggestions. */
  predicate LaidOut(m: Message, w: seq<int8>)
  {
    |m.header| == 4 && |m.suggestion| == MAX_NUM_OF_PLAYERS && FloatsPresent(m)
    && 70 + |m.data| <= |w|
    && PreludeAt(m, w) && KinematicsAt(m, w) && SuggestionsAt(m, w) && TailAt(m, w)
  }

  // ---------------------------------------------------------------------
  // Matching the encoder's pieces against a buffer

  /** Two adjacent pieces match a slice exactly when each matches its part. */
  lemma SplitAt(a: seq<int8>, b: seq<int8>, w: seq<int8>, i: nat, k: nat)
    requires i + |a| + |b| == k <= |w|
    ensures a + b == w[i..k] <==> a == w[i..i + |a|] && b == w[i + |a|..k]
  {
    var j := i + |a|;
    assert w[i..k] == w[i..j] + w[j..k];
    if a + b == w[i..k] {
      assert a == (a + b)[..|a|];
      assert b == (a + b)[|a|..];
    }
  }

  /** putFloat wrote f at offset o exactly when getFloat reads f there. */
  lemma FloatMatch(f: FloatBits, w: seq<int8>, o: nat)
    requires o + 4 <= |w|
    ensures FloatBytes(f) == w[o..o + 4] <==> f == FloatAt(w, o)
  {
    assert w[o..o + 4] == [w[o], w[o + 1], w[o + 2], w[o + 3]];
    FloatBytesOfRead(w[o], w[o + 1], w[o + 2], w[o + 3]);
    FloatRoundTrip(f);
  }

  /** putShort wrote s at offset o exactly when getShort reads s there. */
  lemma ShortMatch(s: int16, w: seq<int8>, o: nat)
    requires o + 2 <= |w|
    ensures ShortBytes(s) == w[o..o + 2] <==> s == ShortAt(w, o)
  {
    assert w[o..o + 2] == [w[o], w[o + 1]];
    ShortBytesOfRead(w[o], w[o + 1]);
    ShortRoundTrip(s);
  }

  /** One put byte matches the buffer exactly when it is the byte there. */
  lemma ByteMatch(b: int8, w: seq<int8>, o: nat)
    requires o + 1 <= |w|
    ensures [b] == w[o..o + 1] <==> b == w[o]
  {
    assert w[o..o + 1] == [w[o]];
  }

  lemma PreludeLayout(m: Message, w: seq<int8>)
    requires |m.header| == 4 && 8 <= |w|
    ensures Prelude(m) == w[0..8] <==> PreludeAt(m, w)
  {
    var p := m.header + [m.version] + [m.playerNum] + [m.teamNum];
    SplitAt(p, [FallenByte(m.fallen)], w, 0, 8);
    ByteMatch(FallenByte(m.fallen), w, 7);
    SplitAt(m.header + [m.version] + [m.playerNum], [m.teamNum], w, 0, 7);
    ByteMatch(m.teamNum, w, 6);
    SplitAt(m.header + [m.version], [m.playerNum], w, 0, 6);
    ByteMatch(m.playerNum, w, 5);
    SplitAt(m.header, [m.version], w, 0, 5);
    ByteMatch(m.version, w, 4);
  }

  lemma PoseLayout(m: Message, w: seq<int8>)
    requires |m.pose| >= 3 && 20 <= |w|
    ensures PoseBytes(m) == w[8..20] <==>
      m.pose[0] == FloatAt(w, 8) && m.pose[1] == FloatAt(w, 12) && m.pose[2] == FloatAt(w, 16)
  {
    SplitAt(FloatBytes(m.pose[0]) + FloatBytes(m.pose[1]), FloatBytes(m.pose[2]), w, 8, 20);
    SplitAt(FloatBytes(m.pose[0]), FloatBytes(m.pose[1]), w, 8, 16);
    FloatMatch(m.pose[0], w, 8);
    FloatMatch(m.pose[1], w, 12);
    FloatMatch(m.pose[2], w, 16);
  }

  lemma TargetLayout(m: Message, w: seq<int8>)
    requires |m.walkingTo| >= 2 && |m.shootingTo| >= 2 && 36 <= |w|
    ensures TargetBytes(m) == w[20..36] <==>
      m.walkingTo[0] == FloatAt(w, 20) && m.walkingTo[1] == FloatAt(w, 24)
      && m.shootingTo[0] == FloatAt(w, 28) && m.shootingTo[1] == FloatAt(w, 32)
  {
    var w0, w1 := FloatBytes(m.walkingTo[0]), FloatBytes(m.walkingTo[1]);
    var s0, s1 := FloatBytes(m.shootingTo[0]), FloatBytes(m.shootingTo[1]);
    SplitAt(w0 + w1 + s0, s1, w, 20, 36);
    SplitAt(w0 + w1, s0, w, 20, 32);
    SplitAt(w0, w1, w, 20, 28);
    FloatMatch(m.walkingTo[0], w, 20);
    FloatMatch(m.walkingTo[1], w, 24);
    FloatMatch(m.shootingTo[0], w, 28);
    FloatMatch(m.shootingTo[1], w, 32);
  }

  lemma BallLayout(m: Message, w: seq<int8>)
    requires |m.ball| >= 2 && |m.ballVel| >= 2 && 56 <= |w|
    ensures BallBytes(m) == w[36..56] <==>
      m.ballAge == FloatAt(w, 36)
      && m.ball[0] == FloatAt(w, 40) && m.ball[1] == FloatAt(w, 44)
      && m.ballVel[0] == FloatAt(w, 48) && m.ballVel[1] == FloatAt(w, 52)
  {
    var a, b0, b1 := FloatBytes(m.ballAge), FloatBytes(m.ball[0]), FloatBytes(m.ball[1]);
    var v0, v1 := FloatBytes(m.ballVel[0]), FloatBytes(m.ballVel[1]);
    SplitAt(a + b0 + b1 + v0, v1, w, 36, 56);
    SplitAt(a + b0 + b1, v0, w, 36, 52);
    SplitAt(a + b0, b1, w, 36, 48);
    SplitAt(a, b0, w, 36, 44);
    FloatMatch(m.ballAge, w, 36);
    FloatMatch(m.ball[0], w, 40);
    FloatMatch(m.ball[1], w, 44);
    FloatMatch(m.ballVel[0], w, 48);
    FloatMatch(m.ballVel[1], w, 52);
  }

  lemma KinematicsLayout(m: Message, w: seq<int8>)
    requires FloatsPresent(m) && 56 <= |w|
    ensures Kinematics(m) == w[8..56] <==> KinematicsAt(m, w)
  {
    SplitAt(PoseBytes(m) + TargetBytes(m), BallBytes(m), w, 8, 56);
    SplitAt(PoseBytes(m), TargetBytes(m), w, 8, 36);
    PoseLayout(m, w);
    TargetLayout(m, w);
    BallLayout(m, w);
  }

  lemma SuggestionLayout(m: Message, w: seq<int8>)
    requires FieldsPresent(m) && |m.suggestion| == MAX_NUM_OF_PLAYERS && 61 <= |w|
    ensures SuggestionBytes(m.suggestion) == w[56..61] <==> SuggestionsAt(m, w)
  {
    var bs := SuggestionBytes(m.suggestion);
    if SuggestionsAt(m, w) {
      assert forall i :: 0 <= i < MAX_NUM_OF_PLAYERS ==> bs[i] == w[56..61][i];
    }
    if bs == w[56..61] {
      assert forall i :: 0 <= i < MAX_NUM_OF_PLAYERS ==> w[56 + i] == bs[i];
    }
  }

  lemma TailLayout(m: Message, w: seq<int8>)
    requires 70 + |m.data| <= |w|
    ensures Tail(m) == w[61..70 + |m.data|] <==> TailAt(m, w)
  {
    var c := 70 + |m.data|;
    var i := [ToByte(IntentionOrdinal(m.intention))];
    var sa, sk, sl := ShortBytes(m.averageWalkSpeed), ShortBytes(m.maxKickDistance), ShortBytes(ToShort(|m.data|));
    var c1, c2 := [m.currentPositionConfidence], [m.currentSideConfidence];
    SplitAt(i + sa + sk + c1 + c2 + sl, m.data, w, 61, c);
    SplitAt(i + sa + sk + c1 + c2, sl, w, 61, 70);
    SplitAt(i + sa + sk + c1, c2, w, 61, 68);
    SplitAt(i + sa + sk, c1, w, 61, 67);
    SplitAt(i + sa, sk, w, 61, 66);
    SplitAt(i, sa, w, 61, 64);
    ByteMatch(ToByte(IntentionOrdinal(m.intention)), w, 61);
    ShortMatch(m.averageWalkSpeed, w, 62);
    ShortMatch(m.maxKickDistance, w, 64);
    ByteMatch(m.currentPositionConfidence, w, 66);
    ByteMatch(m.currentSideConfidence, w, 67);
    ShortMatch(ToShort(|m.data|), w, 68);
  }

  /** With a 4-byte header and five suggestions, the encoder's bytes are a
      prefix of w exactly when every field of m sits at its fixed offset in w. */
  lemma WireLayout(m: Message, w: seq<int8>)
    requires FieldsPresent(m) && |m.header| == 4 && |m.suggestion| == MAX_NUM_OF_PLAYERS
    requires 70 + |m.data| <= |w|
    ensures Wire(m) == w[..70 + |m.data|] <==> LaidOut(m, w)
  {
    var c := 70 + |m.data|;
    assert w[..c] == w[0..c];
    SplitAt(Prelude(m) + Kinematics(m) + SuggestionBytes(m.suggestion), Tail(m), w, 0, c);
    SplitAt(Prelude(m) + Kinematics(m), SuggestionBytes(m.suggestion), w, 0, 61);
    SplitAt(Prelude(m), Kinematics(m), w, 0, 56);
    PreludeLayout(m, w);
    KinematicsLayout(m, w);
    SuggestionLayout(m, w);
    TailLayout(m, w);
  }

  // ---------------------------------------------------------------------
  // The encoder

  /** toByteArray, for a message with a 4-byte header and five suggestions:
      it succeeds exactly when the data fits the 780-byte block; the array is
      SIZE = 850 bytes, every field sits at its fixed little-endian offset,
      and every byte after the data is zero. */
  lemma EncodeLayout(m: Message)
    requires FieldsPresent(m) && |m.header| == 4 && |m.suggestion| == MAX_NUM_OF_PLAYERS
    ensures Encode(m).Some? <==> |m.data| <= DATA_SIZE
    ensures Encode(m).Some? ==>
      var e := Encode(m).value;
      |e| == SIZE == 850 && LaidOut(m, e)
      && forall i :: 70 + |m.data| <= i < SIZE ==> e[i] == 0
  {
    if Encode(m).Some? {
      WireLayout(m, Encode(m).value);
    }
  }

  /** Where toByteArray puts the later fields depends on the lengths of the
      header and of the suggestion array: each is written whole, so any other
      length than 4 and 5 moves every field behind it. */
  lemma FieldsShift(m: Message)
    requires FieldsPresent(m)
    ensures var bs, h, k := Wire(m), |m.header|, |m.suggestion|;
      bs[..h] == m.header && bs[h] == m.version && bs[h + 3] == FallenByte(m.fallen)
      && bs[h + 4..h + 8] == FloatBytes(m.pose[0])
      && bs[h + 52..h + 52 + k] == SuggestionBytes(m.suggestion)
      && bs[h + 52 + k] == IntentionOrdinal(m.intention)
      && bs[h + k + 59..h + k + 61] == ShortBytes(ToShort(|m.data|))
      && bs[h + k + 61..] == m.data
  {
    var h, k := |m.header|, |m.suggestion|;
    var p, kin, sg, t := Prelude(m), Kinematics(m), SuggestionBytes(m.suggestion), Tail(m);
    var bs := Wire(m);
    assert bs == p + kin + sg + t;
    assert bs[..h + 4] == p;
    assert bs[h + 4..h + 52] == kin;
    assert kin[..12] == PoseBytes(m);
    assert bs[h + 52..h + 52 + k] == sg;
    assert bs[h + 52 + k..] == t;
    assert t[..1] == [ToByte(IntentionOrdinal(m.intention))];
    assert t[7..9] == ShortBytes(ToShort(|m.data|));
    assert t[9..] == m.data;
  }

  // ---------------------------------------------------------------------
  // The decoder

  /** Once the decoder reaches an offset, it reached every earlier one. */
  lemma ReachesBelow(w: seq<int8>, o: nat)
    requires Reaches(w, o)
    ensures forall o' :: 0 <= o' <= o ==> Reaches(w, o')
  {
    forall o': nat | o' <= o
      ensures Reaches(w, o')
    {
      ChecksMonotone(w, o', o);
    }
  }

  /** The length word of a laid-out message is the data's length. */
  lemma LengthOfLayout(m: Message, w: seq<int8>)
    requires LaidOut(m, w) && |m.data| <= DATA_SIZE
    ensures DataLength(w) == |m.data|
  {
  }

  /** A well-formed message laid out in w passes every check. */
  lemma ChecksOfLayout(m: Message, w: seq<int8>)
    requires WellFormed(m) && LaidOut(m, w)
    ensures Accepted(w) && Consumed(w) == 70 + |m.data|
  {
    LengthOfLayout(m, w);
    forall i | 56 <= i < 61
      ensures 0 <= w[i] < |SUGGESTION_VALUES|
    {
      assert w[56 + (i - 56)] == SuggestionOrdinal(m.suggestion[i - 56].value);
    }
    assert ChecksPass(w, 70);
  }

  /** The message an accepted buffer decodes to, field by field from the
      fixed offsets: the fallen byte 1 is true, each enum is the variant at
      the wire ordinal, and the data is the declared number of bytes from 70. */
  function AcceptedMessage(w: seq<int8>): Message
    requires Accepted(w)
  {
    ReachesBelow(w, 70);
    Message(
      w[..4], w[4], w[5], w[6], w[7] == 1,
      [FloatAt(w, 8), FloatAt(w, 12), FloatAt(w, 16)],
      [FloatAt(w, 20), FloatAt(w, 24)],
      [FloatAt(w, 28), FloatAt(w, 32)],
      FloatAt(w, 36),
      [FloatAt(w, 40), FloatAt(w, 44)],
      [FloatAt(w, 48), FloatAt(w, 52)],
      [SlotAt(w, 0), SlotAt(w, 1), SlotAt(w, 2), SlotAt(w, 3), SlotAt(w, 4)],
      INTENTION_VALUES[w[61]],
      ShortAt(w, 62), ShortAt(w, 64), w[66], w[67],
      w[70..Consumed(w)])
  }

  /** Proof step, split out of DecodedAccepted to keep each proof small: past
      the float block, the front phases assign every front field. */
  lemma FrontAccepted(m0: Message, w: seq<int8>)
    requires Accepted(w)
    ensures var a := AcceptedMessage(w);
      DecodeFront(m0, w) == m0.(header := a.header, version := a.version,
        playerNum := a.playerNum, teamNum := a.teamNum, fallen := a.fallen, pose := a.pose,
        walkingTo := a.walkingTo, shootingTo := a.shootingTo, ballAge := a.ballAge,
        ball := a.ball, ballVel := a.ballVel)
  {
    ReachesBelow(w, 70);
  }

  /** Proof step, split out of DecodedAccepted to keep each proof small: on an
      accepted buffer, the back phases assign every back field. */
  lemma BackAccepted(x: Message, w: seq<int8>)
    requires Accepted(w)
    ensures var a := AcceptedMessage(w);
      DecodeBack(x, w) == x.(suggestion := a.suggestion, intention := a.intention,
        averageWalkSpeed := a.averageWalkSpeed, maxKickDistance := a.maxKickDistance,
        currentPositionConfidence := a.currentPositionConfidence,
        currentSideConfidence := a.currentSideConfidence, data := a.data)
  {
    ReachesBelow(w, 70);
  }

  /** On success every field is assigned from the buffer: the object ends up
      holding AcceptedMessage(w) whatever it held before. */
  lemma DecodedAccepted(m0: Message, w: seq<int8>)
    requires Accepted(w)
    ensures DecodedInto(m0, w) == AcceptedMessage(w)
  {
    FrontAccepted(m0, w);
    BackAccepted(DecodeFront(m0, w), w);
  }

  /** Suggestion.values()[k].ordinal() == k. */
  lemma SuggestionOrdinalOfValue(k: int)
    requires 0 <= k < |SUGGESTION_VALUES|
    ensures SuggestionOrdinal(SUGGESTION_VALUES[k]) == k
  {
    assert k == 0 || k == 1 || k == 2 || k == 3 || k == 4;
  }

  /** Intention.values()[k].ordinal() == k. */
  lemma IntentionOrdinalOfValue(k: int)
    requires 0 <= k < |INTENTION_VALUES|
    ensures IntentionOrdinal(INTENTION_VALUES[k]) == k
  {
    assert k == 0 || k == 1 || k == 2 || k == 3 || k == 4;
  }

  /** The suggestions of an accepted buffer are present and laid out. */
  lemma AcceptedSuggestions(w: seq<int8>)
    requires Accepted(w)
    ensures var m := AcceptedMessage(w);
      |m.suggestion| == MAX_NUM_OF_PLAYERS && 61 <= |w| && SuggestionsAt(m, w)
  {
    var s := AcceptedMessage(w).suggestion;
    forall i | 0 <= i < MAX_NUM_OF_PLAYERS
      ensures s[i].Some? && SuggestionOrdinal(s[i].value) == w[56 + i]
    {
      assert s[i] == SlotAt(w, i);
      ChecksMonotone(w, 57 + i, 70);
      SuggestionOrdinalOfValue(w[56 + i]);
    }
  }

  /** An accepted buffer decodes to a well-formed message laid out in it. */
  lemma AcceptedLaidOut(w: seq<int8>)
    requires Accepted(w)
    ensures WellFormed(AcceptedMessage(w)) && LaidOut(AcceptedMessage(w), w)
    ensures |AcceptedMessage(w).data| == DataLength(w)
  {
    ReachesBelow(w, 70);
    AcceptedSuggestions(w);
    var m := AcceptedMessage(w);
    IntentionOrdinalOfValue(w[61]);
    assert FallenByte(m.fallen) == w[7];
  }

  /** A well-formed message laid out in w is the message w decodes to. */
  lemma LayoutDetermines(m: Message, w: seq<int8>)
    requires WellFormed(m) && LaidOut(m, w)
    ensures Accepted(w) && Consumed(w) == 70 + |m.data|
    ensures AcceptedMessage(w) == m
  {
    ChecksOfLayout(m, w);
    ReachesBelow(w, 70);
    var a := AcceptedMessage(w);
    assert a.pose == m.pose by { assert m.pose == [m.pose[0], m.pose[1], m.pose[2]]; }
    assert a.walkingTo == m.walkingTo by { assert m.walkingTo == [m.walkingTo[0], m.walkingTo[1]]; }
    assert a.shootingTo == m.shootingTo by { assert m.shootingTo == [m.shootingTo[0], m.shootingTo[1]]; }
    assert a.ball == m.ball by { assert m.ball == [m.ball[0], m.ball[1]]; }
    assert a.ballVel == m.ballVel by { assert m.ballVel == [m.ballVel[0], m.ballVel[1]]; }
    forall i | 0 <= i < MAX_NUM_OF_PLAYERS
      ensures a.suggestion[i] == m.suggestion[i]
    {
      assert Reaches(w, 57 + i);
    }
  }

  /** Decoding a buffer in which a well-formed message is laid out succeeds,
      consumes exactly the message and restores every field of it, whatever
      the fields held before. */
  lemma DecodeOfLayout(m0: Message, m: Message, w: seq<int8>)
    requires WellFormed(m) && LaidOut(m, w)
    ensures Accepted(w) && Consumed(w) == 70 + |m.data|
    ensures DecodedInto(m0, w) == m
  {
    LayoutDetermines(m, w);
    DecodedAccepted(m0, w);
  }

  // ---------------------------------------------------------------------
  // Round trips

  /** Decoding what toByteArray wrote for a well-formed message succeeds,
      consumes 70 + |data| bytes and restores every field, data included. */
  lemma RoundTrip(m0: Message, m: Message)
    requires WellFormed(m)
    ensures Encode(m).Some?
    ensures Accepted(Encode(m).value)
    ensures Consumed(Encode(m).value) == 70 + |m.data|
    ensures DecodedInto(m0, Encode(m).value) == m
  {
    EncodeLayout(m);
    DecodeOfLayout(m0, m, Encode(m).value);
  }

  /** toByteArray on the message an accepted buffer decodes to writes back
      the bytes the decoder consumed, followed by zeros up to SIZE. */
  lemma EncodeOfAccepted(w: seq<int8>)
    requires Accepted(w)
    ensures Encode(AcceptedMessage(w)) == Some(w[..Consumed(w)] + Zeros(SIZE - Consumed(w)))
  {
    var m := AcceptedMessage(w);
    AcceptedLaidOut(w);
    WireLayout(m, w);
    EncodeOfWire(m, w[..Consumed(w)]);
  }

  /** toByteArray pads the bytes it put with zeros up to SIZE. */
  lemma EncodeOfWire(m: Message, x: seq<int8>)
    requires FieldsPresent(m) && Wire(m) == x && |x| <= SIZE
    ensures Encode(m) == Some(x + Zeros(SIZE - |x|))
  {
  }

  /** Encoding what an accepted buffer decoded to gives back the bytes the
      decoder consumed, followed by zeros up to SIZE. */
  lemma EncodeOfDecode(m0: Message, w: seq<int8>)
    requires Accepted(w)
    ensures Encode(DecodedInto(m0, w)) == Some(w[..Consumed(w)] + Zeros(SIZE - Consumed(w)))
  {
    DecodedAccepted(m0, w);
    EncodeOfAccepted(w);
  }

  /** On success the decoder overwrites every field: the result does not
      depend on what the object held before. */
  lemma AcceptedOverwritesAll(m0: Message, m1: Message, w: seq<int8>)
    requires Accepted(w)
    ensures DecodedInto(m1, w) == DecodedInto(m0, w)
  {
    DecodedAccepted(m0, w);
    DecodedAccepted(m1, w);
  }

  /** A layout depends only on the bytes it covers. */
  lemma LaidOutPrefix(m: Message, w: seq<int8>, v: seq<int8>)
    requires LaidOut(m, w) && 70 + |m.data| <= |v|
    requires v[..70 + |m.data|] == w[..70 + |m.data|]
    ensures LaidOut(m, v)
  {
    WireLayout(m, w);
    WireLayout(m, v);
  }

  /** The decoder looks at no byte after the 70 + n it consumes: any buffer
      that agrees on those bytes is accepted too and decodes the same way. */
  lemma AcceptedIgnoresRest(m0: Message, w: seq<int8>, v: seq<int8>)
    requires Accepted(w) && Consumed(w) <= |v| && v[..Consumed(w)] == w[..Consumed(w)]
    ensures Accepted(v) && Consumed(v) == Consumed(w)
    ensures DecodedInto(m0, v) == DecodedInto(m0, w)
  {
    AcceptedLaidOut(w);
    LaidOutPrefix(AcceptedMessage(w), w, v);
    DecodeOfLayout(m0, AcceptedMessage(w), v);
    DecodedAccepted(m0, w);
  }

  /** Decoding the same buffer twice leaves the object as decoding it once. */
  lemma DecodeIdempotent(m: Message, w: seq<int8>)
    ensures DecodedInto(DecodedInto(m, w), w) == DecodedInto(m, w)
  {
  }

  // ---------------------------------------------------------------------
  // Which buffers are accepted, read as unsigned wire bytes

  /** The length word at 68..69 as the unsigned 16-bit number on the wire. */
  function WireLength(w: seq<int8>): nat
    requires 70 <= |w|
  {
    Unsigned(w[68]) + 0x100 * Unsigned(w[69])
  }

  /** The decoder reads the length word as a signed short: a wire length of
      0x8000 or more is negative (and allocating the data array with it
      throws), so the signed check 0 <= n <= 780 passes exactly for the wire
      lengths up to 780, and for those n is the wire length. */
  lemma SignedLength(w: seq<int8>)
    requires 70 <= |w|
    ensures (DataLength(w) < 0) == (WireLength(w) >= 0x8000)
    ensures (0 <= DataLength(w) <= DATA_SIZE) == (WireLength(w) <= DATA_SIZE)
    ensures WireLength(w) < 0x8000 ==> DataLength(w) == WireLength(w)
  {
  }

  /** fromByteArray returns true exactly on the buffers that start with "SPL ",
      version 6, a player number 1..5, a fallen byte 0 or 1, five suggestion
      and one intention ordinal below 5, two confidences up to 100 and a
      length word up to 780, and that hold the declared data. Every range is
      on the unsigned wire byte: a byte of 0x80 or more reads as a negative
      Java byte, which fails the same checks. */
  lemma AcceptedExactly(w: seq<int8>)
    ensures Accepted(w) <==>
      70 <= |w| && w[..4] == STRUCT_HEADER && w[4] == STRUCT_VERSION
      && 1 <= Unsigned(w[5]) <= MAX_NUM_OF_PLAYERS && Unsigned(w[7]) <= 1
      && (forall i :: 56 <= i < 61 ==> Unsigned(w[i]) < |SUGGESTION_VALUES|)
      && Unsigned(w[61]) < |INTENTION_VALUES|
      && Unsigned(w[66]) <= 100 && Unsigned(w[67]) <= 100
      && WireLength(w) <= DATA_SIZE && 70 + WireLength(w) <= |w|
  {
    if 70 <= |w| {
      SignedLength(w);
    }
  }

  // ---------------------------------------------------------------------
  // Rejections: the first failing check ends the decode, the fields assigned
  // before it keep their new values and the later ones keep their old values

  /** Fewer than four bytes: reading the header underflows and nothing is assigned. */
  lemma RejectTruncatedHeader(m: Message, w: seq<int8>)
    requires |w| < 4
    ensures !Accepted(w) && DecodedInto(m, w) == m
  {
    IdleAfterStop(m, w, 4);
  }

  /** A wrong header: it is assigned, then refused. */
  lemma RejectHeader(m: Message, w: seq<int8>)
    requires 4 <= |w| && w[..4] != STRUCT_HEADER
    ensures !Accepted(w) && DecodedInto(m, w) == m.(header := w[..4])
  {
    assert Reaches(w, 0);
    IdleAfterStop(DecodeHeader(m, w), w, 4);
  }

  /** A wrong version: header and version are assigned, then refused. */
  lemma RejectVersion(m: Message, w: seq<int8>)
    requires 5 <= |w| && w[..4] == STRUCT_HEADER && w[4] != STRUCT_VERSION
    ensures !Accepted(w)
    ensures DecodedInto(m, w) == m.(header := STRUCT_HEADER, version := w[4])
  {
    PreludeSteps(w);
    IdleAfterStop(DecodeHeader(m, w), w, 5);
  }

  /** A player number outside 1..5 on the wire, bytes 0x80..0xff included. */
  lemma RejectPlayer(m: Message, w: seq<int8>)
    requires 6 <= |w| && w[..4] == STRUCT_HEADER && w[4] == STRUCT_VERSION
    requires !(1 <= Unsigned(w[5]) <= MAX_NUM_OF_PLAYERS)
    ensures !Accepted(w)
    ensures DecodedInto(m, w) == m.(header := STRUCT_HEADER, version := STRUCT_VERSION, playerNum := w[5])
  {
    PreludeSteps(w);
    IdleAfterStop(DecodePlayer(DecodeHeader(m, w), w), w, 6);
  }

  /** A fallen byte other than 0 or 1: the team number is assigned, the fallen
      flag is not. */
  lemma RejectFallen(m: Message, w: seq<int8>)
    requires 8 <= |w| && w[..4] == STRUCT_HEADER && w[4] == STRUCT_VERSION
    requires 1 <= Unsigned(w[5]) <= MAX_NUM_OF_PLAYERS && Unsigned(w[7]) > 1
    ensures !Accepted(w)
    ensures DecodedInto(m, w) == m.(header := STRUCT_HEADER, version := STRUCT_VERSION,
      playerNum := w[5], teamNum := w[6])
  {
    PreludeSteps(w);
    IdleAfterStop(DecodePlayer(DecodeHeader(m, w), w), w, 8);
  }

  /** The object once the decoder got past the float block (offset 56), in
      closed form: every front field read from its offset, every later field
      as it was in m. */
  function PastFront(m: Message, w: seq<int8>): Message
    requires Reaches(w, 56)
  {
    m.(header := STRUCT_HEADER, version := STRUCT_VERSION, playerNum := w[5], teamNum := w[6],
       fallen := w[7] == 1,
       pose := [FloatAt(w, 8), FloatAt(w, 12), FloatAt(w, 16)],
       walkingTo := [FloatAt(w, 20), FloatAt(w, 24)],
       shootingTo := [FloatAt(w, 28), FloatAt(w, 32)],
       ballAge := FloatAt(w, 36),
       ball := [FloatAt(w, 40), FloatAt(w, 44)],
       ballVel := [FloatAt(w, 48), FloatAt(w, 52)])
  }

  /** The five suggestions once every suggestion byte passed: the variant each
      byte names. */
  function AllSlots(w: seq<int8>): seq<Option<Suggestion>>
    requires Reaches(w, 61)
  {
    [Some(SUGGESTION_VALUES[w[56]]), Some(SUGGESTION_VALUES[w[57]]), Some(SUGGESTION_VALUES[w[58]]),
     Some(SUGGESTION_VALUES[w[59]]), Some(SUGGESTION_VALUES[w[60]])]
  }

  /** The object once the decoder got past the two shorts (offset 66), in
      closed form: the front, the five suggestions, the intention and the two
      shorts read, the confidences and the data as they were in m. */
  function PastSkills(m: Message, w: seq<int8>): Message
    requires Reaches(w, 66)
  {
    PastFront(m, w).(suggestion := AllSlots(w), intention := INTENTION_VALUES[w[61]],
      averageWalkSpeed := ShortAt(w, 62), maxKickDistance := ShortAt(w, 64))
  }

  /** Proof step: the front phases, once past offset 56, give PastFront. */
  lemma FrontReached(m: Message, w: seq<int8>)
    requires Reaches(w, 56)
    ensures DecodeFront(m, w) == PastFront(m, w)
  {
    ReachesBelow(w, 56);
  }

  /** Proof step: once past offset 61, the suggestion phase gives AllSlots. */
  lemma SlotsReached(m: Message, w: seq<int8>)
    requires Reaches(w, 61)
    ensures DecodeSuggestions(m, w) == m.(suggestion := AllSlots(w))
  {
    ReachesBelow(w, 61);
  }

  /** Proof step: once past offset 66, the phases up to the two shorts give
      PastSkills. */
  lemma SkillsReached(m: Message, w: seq<int8>)
    requires Reaches(w, 66)
    ensures DecodeSkills(DecodeIntention(DecodeSuggestions(DecodeFront(m, w), w), w), w) == PastSkills(m, w)
  {
    ReachesBelow(w, 66);
    FrontReached(m, w);
    SlotsReached(DecodeFront(m, w), w);
  }

  /** Suggestion i out of range after every earlier check passed: the front
      fields are assigned, the suggestions before i hold their values, i and
      the later ones are null, and every field from the intention on keeps
      its old value. */
  lemma RejectSuggestion(m: Message, w: seq<int8>, i: nat)
    requires i < MAX_NUM_OF_PLAYERS && Reaches(w, 56 + i) && 57 + i <= |w|
    requires Unsigned(w[56 + i]) >= |SUGGESTION_VALUES|
    ensures !Accepted(w)
    ensures DecodedInto(m, w) == PastFront(m, w).(suggestion :=
      [SlotAt(w, 0), SlotAt(w, 1), SlotAt(w, 2), SlotAt(w, 3), SlotAt(w, 4)])
    ensures forall j :: 0 <= j < MAX_NUM_OF_PLAYERS ==>
      SlotAt(w, j) == if j < i then Some(SUGGESTION_VALUES[w[56 + j]]) else None
  {
    ChecksMonotone(w, 56, 56 + i);
    FrontReached(m, w);
    IdleAfterStop(DecodeSuggestions(PastFront(m, w), w), w, 57 + i);
    SlotsOnStop(w, i);
  }

  /** Proof step: when suggestion i stops the decoder, the slots before it
      hold the variants their bytes name and the others are null. */
  lemma SlotsOnStop(w: seq<int8>, i: nat)
    requires i < MAX_NUM_OF_PLAYERS && Reaches(w, 56 + i) && !Reaches(w, 57 + i)
    ensures forall j :: 0 <= j < MAX_NUM_OF_PLAYERS ==>
      SlotAt(w, j) == if j < i then Some(SUGGESTION_VALUES[w[56 + j]]) else None
  {
    SlotsAfterStop(w, i);
    forall j | 0 <= j < i
      ensures SlotAt(w, j) == Some(SUGGESTION_VALUES[w[56 + j]])
    {
      ChecksMonotone(w, 57 + j, 56 + i);
    }
  }

  /** An intention out of range: the front and all five suggestions are
      assigned, every field from the intention on keeps its old value. */
  lemma RejectIntention(m: Message, w: seq<int8>)
    requires Reaches(w, 61) && 62 <= |w| && Unsigned(w[61]) >= |INTENTION_VALUES|
    ensures !Accepted(w)
    ensures DecodedInto(m, w) == PastFront(m, w).(suggestion := AllSlots(w))
  {
    ChecksMonotone(w, 56, 61);
    FrontReached(m, w);
    SlotsReached(DecodeFront(m, w), w);
    var x := DecodeSuggestions(DecodeFront(m, w), w);
    IdleAfterStop(x, w, 62);
  }

  /** A position confidence above 100 on the wire: it is assigned, then
      refused; everything before it is assigned, the side confidence and the
      data keep their old values. */
  lemma RejectPositionConfidence(m: Message, w: seq<int8>)
    requires Reaches(w, 66) && 67 <= |w| && Unsigned(w[66]) > 100
    ensures !Accepted(w)
    ensures DecodedInto(m, w) == PastSkills(m, w).(currentPositionConfidence := w[66])
  {
    SkillsReached(m, w);
    var x := DecodeConfidences(PastSkills(m, w), w);
    IdleAfterStop(x, w, 67);
  }

  /** A side confidence above 100 on the wire: it is assigned, then refused;
      everything before it is assigned, the data keeps its old value. */
  lemma RejectSideConfidence(m: Message, w: seq<int8>)
    requires Reaches(w, 67) && 68 <= |w| && Unsigned(w[67]) > 100
    ensures !Accepted(w)
    ensures DecodedInto(m, w) == PastSkills(m, w).(currentPositionConfidence := w[66], currentSideConfidence := w[67])
  {
    ChecksMonotone(w, 66, 67);
    SkillsReached(m, w);
    var x := DecodeConfidences(PastSkills(m, w), w);
    IdleAfterStop(x, w, 68);
  }

  /** A length word above 780, whether it reads as a positive short above 780
      or (from 0x8000 on) as a negative one: everything before it is assigned,
      the data keeps its old value. */
  lemma RejectLength(m: Message, w: seq<int8>)
    requires Reaches(w, 68) && 70 <= |w| && WireLength(w) > DATA_SIZE
    ensures !Accepted(w)
    ensures DecodedInto(m, w) == PastSkills(m, w).(currentPositionConfidence := w[66], currentSideConfidence := w[67])
  {
    SignedLength(w);
    ChecksMonotone(w, 66, 68);
    SkillsReached(m, w);
  }

  /** A valid length but fewer data bytes than it declares: everything before
      the data is assigned, the data array is allocated, the bulk read
      underflows, and `data` is left as that many zeros. */
  lemma RejectTruncatedData(m: Message, w: seq<int8>)
    requires Reaches(w, 68) && 70 <= |w| && WireLength(w) <= DATA_SIZE && |w| < 70 + WireLength(w)
    ensures !Accepted(w)
    ensures DecodedInto(m, w) == PastSkills(m, w).(currentPositionConfidence := w[66],
        currentSideConfidence := w[67], data := Zeros(WireLength(w)))
  {
    SignedLength(w);
    assert Reaches(w, 70);
    ChecksMonotone(w, 66, 68);
    SkillsReached(m, w);
  }
}
