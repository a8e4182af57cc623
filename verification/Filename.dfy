/** Remote common names and local pack filenames, octet by octet. */
module Filename {
  import opened Wrappers
  import opened Bytes
  import opened Splitting

  const HYPHEN: byte := 45
  const UNDERSCORE: byte := 95

  /** MIG version, message type, date, time, and the five groups of the UUID. */
  const SEGMENT_LENGTHS: seq<nat> := [3, 5, 8, 9, 8, 4, 4, 4, 12]
  const UUID_LENGTHS: seq<nat> := [8, 4, 4, 4, 12]

  datatype CommonName = CommonName(migVersion: bytes, messageType: bytes, date: bytes, time: bytes, uuid: bytes)

  datatype PackFilename = PackFilename(sourceName: bytes, fromParty: bytes, toParty: bytes, commonName: CommonName,
                                       packCount: i32)

  datatype FilenameError =
    | InvalidPackFilename
    | InvalidPackCount
    | InvalidCommonNameParts(actual: nat)
    | InvalidCommonSegmentLength(index: nat, expected: nat, actual: nat)

  // ---------------------------------------------------------------- common names

  /** The first segment, from `index` on, whose length is wrong. */
  function FirstWrong(parts: seq<bytes>, index: nat): (r: nat)
    requires |parts| == |SEGMENT_LENGTHS| && index <= |parts|
    ensures index <= r <= |parts|
    ensures forall i :: index <= i < r ==> |parts[i]| == SEGMENT_LENGTHS[i]
    ensures r < |parts| ==> |parts[r]| != SEGMENT_LENGTHS[r]
    decreases |parts| - index
  {
    if index == |parts| || |parts[index]| != SEGMENT_LENGTHS[index] then index else FirstWrong(parts, index + 1)
  }

  function ParseCommon(value: bytes): Result<CommonName, FilenameError> {
    var parts := SplitOn(value, HYPHEN);
    if |parts| != |SEGMENT_LENGTHS| then Failure(InvalidCommonNameParts(|parts|))
    else
      var wrong := FirstWrong(parts, 0);
      if wrong < |parts| then Failure(InvalidCommonSegmentLength(wrong, SEGMENT_LENGTHS[wrong], |parts[wrong]|))
      else Success(CommonName(parts[0], parts[1], parts[2], parts[3], JoinWith(parts[4..], HYPHEN)))
  }

  function RenderCommon(v: CommonName): bytes {
    JoinWith([v.migVersion, v.messageType, v.date, v.time, v.uuid], HYPHEN)
  }

  lemma JoinPair(a: bytes, rest: seq<bytes>)
    requires rest != []
    ensures |JoinWith([a] + rest, HYPHEN)| == |a| + 1 + |JoinWith(rest, HYPHEN)|
  {
    assert ([a] + rest)[1..] == rest;
  }

  lemma RenderCommonLength(v: CommonName)
    ensures |RenderCommon(v)| == |v.migVersion| + |v.messageType| + |v.date| + |v.time| + |v.uuid| + 4
  {
    hide JoinWith;
    JoinPair(v.time, [v.uuid]);
    JoinPair(v.date, [v.time, v.uuid]);
    JoinPair(v.messageType, [v.date, v.time, v.uuid]);
    JoinPair(v.migVersion, [v.messageType, v.date, v.time, v.uuid]);
    assert [v.time] + [v.uuid] == [v.time, v.uuid];
    assert [v.date] + [v.time, v.uuid] == [v.date, v.time, v.uuid];
    assert [v.messageType] + [v.date, v.time, v.uuid] == [v.messageType, v.date, v.time, v.uuid];
    assert [v.migVersion] + [v.messageType, v.date, v.time, v.uuid] ==
           [v.migVersion, v.messageType, v.date, v.time, v.uuid];
    JoinOne(v.uuid);
  }

  lemma JoinOne(a: bytes)
    ensures JoinWith([a], HYPHEN) == a
  {
  }

  /** The pieces between hyphens have exactly these lengths. */
  predicate HasShape(s: bytes, lengths: seq<nat>) {
    var parts := SplitOn(s, HYPHEN);
    |parts| == |lengths| && forall i :: 0 <= i < |parts| ==> |parts[i]| == lengths[i]
  }

  /** Offset `i` is just after one of the pieces but the last. */
  predicate IsHyphenOffset(lengths: seq<nat>, i: int) {
    |lengths| > 1 && (i == lengths[0] || (i > lengths[0] && IsHyphenOffset(lengths[1..], i - lengths[0] - 1)))
  }

  function TotalLength(lengths: seq<nat>): nat
    requires lengths != []
  {
    if |lengths| == 1 then lengths[0] else lengths[0] + 1 + TotalLength(lengths[1..])
  }

  /** Hyphens at the offsets the lengths fix, and nowhere else. */
  ghost predicate HyphensFit(s: bytes, lengths: seq<nat>)
    requires lengths != []
  {
    |s| == TotalLength(lengths) && forall i :: 0 <= i < |s| ==> (s[i] == HYPHEN <==> IsHyphenOffset(lengths, i))
  }

  lemma SplitHead(s: bytes, n: nat)
    requires n < |s| && s[n] == HYPHEN && HYPHEN !in s[..n]
    ensures SplitOn(s, HYPHEN) == [s[..n]] + SplitOn(s[n + 1..], HYPHEN)
  {
    hide SplitOn;
    var first, rest := s[..n], s[n + 1..];
    assert s == first + ([HYPHEN] + rest);
    SplitFirst(first, rest, HYPHEN);
  }

  /** Where the first piece ends. */
  lemma FirstPiece(s: bytes)
    requires |SplitOn(s, HYPHEN)| > 1
    ensures var n := |SplitOn(s, HYPHEN)[0]|;
            n < |s| && s[n] == HYPHEN && HYPHEN !in s[..n] && SplitOn(s[n + 1..], HYPHEN) == SplitOn(s, HYPHEN)[1..]
  {
    var parts := SplitOn(s, HYPHEN);
    JoinInvertsSplit(s, HYPHEN);
    var n, rest := |parts[0]|, JoinWith(parts[1..], HYPHEN);
    assert s == parts[0] + ([HYPHEN] + rest);
    assert s[..n] == parts[0] && s[n + 1..] == rest;
    SplitHead(s, n);
    hide SplitOn;
  }

  lemma {:induction false} ShapeIsHyphens(s: bytes, lengths: seq<nat>)
    requires lengths != []
    ensures HasShape(s, lengths) <==> HyphensFit(s, lengths)
    decreases |lengths|
  {
    var n := lengths[0];
    if |lengths| == 1 {
      OnePiece(s, n);
      assert lengths == [n];
      assert forall i :: !IsHyphenOffset(lengths, i);
    } else {
      if HasShape(s, lengths) {
        FirstPiece(s);
      }
      if HyphensFit(s, lengths) {
        FitHead(s, lengths);
      }
      hide HasShape, HyphensFit;
      if n < |s| && s[n] == HYPHEN && HYPHEN !in s[..n] {
        SplitHead(s, n);
        ShapeIsHyphens(s[n + 1..], lengths[1..]);
        ShapeStep(s, lengths);
        FitStep(s, lengths);
      }
    }
  }

  lemma FitHead(s: bytes, lengths: seq<nat>)
    requires |lengths| > 1 && HyphensFit(s, lengths)
    ensures lengths[0] < |s| && s[lengths[0]] == HYPHEN && HYPHEN !in s[..lengths[0]]
  {
    assert IsHyphenOffset(lengths, lengths[0]);
  }

  lemma OnePiece(s: bytes, n: nat)
    ensures HasShape(s, [n]) <==> |s| == n && HYPHEN !in s
  {
    JoinInvertsSplit(s, HYPHEN);
    if HYPHEN !in s {
      SplitWhole(s, HYPHEN);
    }
    hide SplitOn;
    var parts := SplitOn(s, HYPHEN);
    if |parts| == 1 {
      assert s == parts[0] && HYPHEN !in s;
      assert HasShape(s, [n]) <==> |parts[0]| == [n][0];
    }
  }

  lemma ShapeStep(s: bytes, lengths: seq<nat>)
    requires |lengths| > 1 && lengths[0] < |s|
    requires SplitOn(s, HYPHEN) == [s[..lengths[0]]] + SplitOn(s[lengths[0] + 1..], HYPHEN)
    ensures HasShape(s, lengths) <==> HasShape(s[lengths[0] + 1..], lengths[1..])
  {
    var parts := SplitOn(s, HYPHEN);
    var others := SplitOn(s[lengths[0] + 1..], HYPHEN);
    hide SplitOn;
    assert forall i :: 0 <= i < |others| ==> parts[i + 1] == others[i];
    if HasShape(s[lengths[0] + 1..], lengths[1..]) {
      assert forall i :: 1 <= i < |parts| ==> parts[i] == others[i - 1];
    }
    if HasShape(s, lengths) {
      forall i | 0 <= i < |others|
        ensures |others[i]| == lengths[1..][i]
      {
        assert |parts[i + 1]| == lengths[i + 1];
      }
    }
  }

  lemma FitStep(s: bytes, lengths: seq<nat>)
    requires |lengths| > 1 && lengths[0] < |s| && s[lengths[0]] == HYPHEN && HYPHEN !in s[..lengths[0]]
    ensures HyphensFit(s, lengths) <==> HyphensFit(s[lengths[0] + 1..], lengths[1..])
  {
    var n := lengths[0];
    var tail := s[n + 1..];
    if HyphensFit(s, lengths) {
      forall i | 0 <= i < |tail|
        ensures tail[i] == HYPHEN <==> IsHyphenOffset(lengths[1..], i)
      {
        assert tail[i] == s[i + n + 1];
      }
    }
    if HyphensFit(tail, lengths[1..]) {
      forall i | 0 <= i < |s|
        ensures s[i] == HYPHEN <==> IsHyphenOffset(lengths, i)
      {
        if i < n {
          assert s[i] == s[..n][i];
        } else if i > n {
          assert s[i] == tail[i - n - 1];
        }
      }
    }
  }

  lemma SegmentOffsets(i: int)
    ensures IsHyphenOffset(SEGMENT_LENGTHS, i) <==> i in {3, 9, 18, 28, 37, 42, 47, 52}
    ensures TotalLength(SEGMENT_LENGTHS) == 65
  {
    var l := SEGMENT_LENGTHS;
    assert l[1..] == [5, 8, 9, 8, 4, 4, 4, 12];
    assert l[1..][1..] == [8, 9, 8, 4, 4, 4, 12];
    assert [8, 9, 8, 4, 4, 4, 12][1..] == [9, 8, 4, 4, 4, 12];
    assert [9, 8, 4, 4, 4, 12][1..] == UUID_LENGTHS;
    assert UUID_LENGTHS[1..] == [4, 4, 4, 12];
    assert [4, 4, 4, 12][1..] == [4, 4, 12];
    assert [4, 4, 12][1..] == [4, 12];
    assert [4, 12][1..] == [12];
    assert TotalLength([4, 12]) == 17;
    assert TotalLength([4, 4, 4, 12]) == 27;
    assert TotalLength([9, 8, 4, 4, 4, 12]) == 46;
    assert TotalLength([5, 8, 9, 8, 4, 4, 4, 12]) == 61;
    assert IsHyphenOffset([4, 12], i - 48) <==> i == 52;
    assert IsHyphenOffset([4, 4, 12], i - 43) <==> i in {47, 52};
    assert IsHyphenOffset([4, 4, 4, 12], i - 38) <==> i in {42, 47, 52};
    assert IsHyphenOffset(UUID_LENGTHS, i - 29) <==> i in {37, 42, 47, 52};
    assert IsHyphenOffset([9, 8, 4, 4, 4, 12], i - 19) <==> i in {28, 37, 42, 47, 52};
    assert IsHyphenOffset([8, 9, 8, 4, 4, 4, 12], i - 10) <==> i in {18, 28, 37, 42, 47, 52};
    assert IsHyphenOffset([5, 8, 9, 8, 4, 4, 4, 12], i - 4) <==> i in {9, 18, 28, 37, 42, 47, 52};
  }

  lemma AcceptedShape(s: bytes)
    ensures ParseCommon(s).Success? <==> HasShape(s, SEGMENT_LENGTHS)
  {
    hide SplitOn, JoinWith;
  }

  /** Exactly the 65-octet strings with hyphens at the eight offsets, and nowhere else, are accepted. */
  lemma CommonAcceptedExactly(s: bytes)
    ensures ParseCommon(s).Success? <==>
            |s| == 65 && forall i :: 0 <= i < |s| ==> (s[i] == HYPHEN <==> i in {3, 9, 18, 28, 37, 42, 47, 52})
  {
    AcceptedShape(s);
    ShapeIsHyphens(s, SEGMENT_LENGTHS);
    hide ParseCommon, HasShape, IsHyphenOffset, TotalLength;
    SegmentOffsets(0);
    forall i | 0 <= i < |s|
      ensures IsHyphenOffset(SEGMENT_LENGTHS, i) <==> i in {3, 9, 18, 28, 37, 42, 47, 52}
    {
      SegmentOffsets(i);
    }
  }

  /** The fields a parsed name has. */
  predicate ValidCommon(v: CommonName) {
    && |v.migVersion| == 3 && HYPHEN !in v.migVersion && |v.messageType| == 5 && HYPHEN !in v.messageType
    && |v.date| == 8 && HYPHEN !in v.date && |v.time| == 9 && HYPHEN !in v.time
    && HasShape(v.uuid, UUID_LENGTHS)
  }

  lemma JoinFour(a: bytes, b: bytes, c: bytes, d: bytes, rest: seq<bytes>)
    requires rest != []
    ensures JoinWith([a, b, c, d] + rest, HYPHEN) == JoinWith([a, b, c, d, JoinWith(rest, HYPHEN)], HYPHEN)
  {
    var u := JoinWith(rest, HYPHEN);
    assert ([a, b, c, d] + rest)[1..] == [b, c, d] + rest;
    assert ([b, c, d] + rest)[1..] == [c, d] + rest;
    assert ([c, d] + rest)[1..] == [d] + rest;
    assert ([d] + rest)[1..] == rest;
    assert [a, b, c, d, u][1..] == [b, c, d, u] && [b, c, d, u][1..] == [c, d, u];
    assert [c, d, u][1..] == [d, u] && [d, u][1..] == [u];
    hide SplitOn;
    assert JoinWith([d, u], HYPHEN) == JoinWith([d] + rest, HYPHEN);
    assert JoinWith([c, d, u], HYPHEN) == JoinWith([c, d] + rest, HYPHEN);
  }

  /** Rendering inverts parsing, and a parsed name has the lengths of the grammar. */
  lemma RenderInvertsCommon(s: bytes)
    requires ParseCommon(s).Success?
    ensures RenderCommon(ParseCommon(s).value) == s && ValidCommon(ParseCommon(s).value)
  {
    var parts := SplitOn(s, HYPHEN);
    JoinInvertsSplit(s, HYPHEN);
    assert parts == [parts[0], parts[1], parts[2], parts[3]] + parts[4..];
    JoinFour(parts[0], parts[1], parts[2], parts[3], parts[4..]);
    SplitInvertsJoin(parts[4..], HYPHEN);
    hide SplitOn, JoinWith;
  }

  lemma SplitFour(a: bytes, b: bytes, c: bytes, d: bytes, rest: bytes)
    requires HYPHEN !in a && HYPHEN !in b && HYPHEN !in c && HYPHEN !in d
    ensures SplitOn(JoinWith([a, b, c, d, rest], HYPHEN), HYPHEN) == [a, b, c, d] + SplitOn(rest, HYPHEN)
  {
    var tail := SplitOn(rest, HYPHEN);
    JoinInvertsSplit(rest, HYPHEN);
    hide SplitOn;
    JoinFour(a, b, c, d, tail);
    SplitInvertsJoin([a, b, c, d] + tail, HYPHEN);
    hide JoinWith;
  }

  /** Parsing returns a rendered name exactly when the name has the lengths of the grammar. */
  lemma ParseInvertsCommonExactly(v: CommonName)
    ensures ParseCommon(RenderCommon(v)) == Success(v) <==> ValidCommon(v)
  {
    if ValidCommon(v) {
      SplitFour(v.migVersion, v.messageType, v.date, v.time, v.uuid);
      JoinInvertsSplit(v.uuid, HYPHEN);
      hide SplitOn, JoinWith;
      var parts, uuid := SplitOn(RenderCommon(v), HYPHEN), SplitOn(v.uuid, HYPHEN);
      assert parts[4..] == uuid;
      assert forall i :: 4 <= i < 9 ==> |parts[i]| == |uuid[i - 4]| == UUID_LENGTHS[i - 4] == SEGMENT_LENGTHS[i];
    }
    if ParseCommon(RenderCommon(v)) == Success(v) {
      RenderInvertsCommon(RenderCommon(v));
    }
  }

  // ---------------------------------------------------------------- where the fields are, and the refusals

  /** The fields of an accepted name, by their octets. */
  lemma CommonFields(s: bytes)
    requires ParseCommon(s).Success?
    ensures var v := ParseCommon(s).value;
            && |s| == 65 && v.migVersion == s[..3] && v.messageType == s[4..9] && v.date == s[10..18]
            && v.time == s[19..28] && v.uuid == s[29..]
  {
    RenderInvertsCommon(s);
    var v := ParseCommon(s).value;
    FiveJoined(v.migVersion, v.messageType, v.date, v.time, v.uuid);
    CommonAcceptedExactly(s);
    hide ParseCommon, RenderCommon;
    assert s == v.migVersion + [HYPHEN] + v.messageType + [HYPHEN] + v.date + [HYPHEN] + v.time + [HYPHEN] + v.uuid;
  }

  lemma FiveJoined(a: bytes, b: bytes, c: bytes, d: bytes, e: bytes)
    ensures JoinWith([a, b, c, d, e], HYPHEN) == a + [HYPHEN] + b + [HYPHEN] + c + [HYPHEN] + d + [HYPHEN] + e
  {
    assert [a, b, c, d, e][1..] == [b, c, d, e] && [b, c, d, e][1..] == [c, d, e];
    assert [c, d, e][1..] == [d, e] && [d, e][1..] == [e];
    assert JoinWith([d, e], HYPHEN) == d + ([HYPHEN] + e);
    assert JoinWith([c, d, e], HYPHEN) == c + ([HYPHEN] + (d + ([HYPHEN] + e)));
    assert JoinWith([b, c, d, e], HYPHEN) == b + ([HYPHEN] + (c + ([HYPHEN] + (d + ([HYPHEN] + e)))));
  }

  /** Why a name is refused: the number of its parts, or the first part of the wrong length. */
  lemma CommonRefusals(s: bytes)
    ensures var parts, r := SplitOn(s, HYPHEN), ParseCommon(s);
            && (r == Failure(InvalidCommonNameParts(|parts|)) <==> |parts| != 9)
            && (|parts| == 9 ==>
                  forall k :: 0 <= k < 9 ==>
                    (r == Failure(InvalidCommonSegmentLength(k, [3, 5, 8, 9, 8, 4, 4, 4, 12][k], |parts[k]|)) <==>
                     && |parts[k]| != [3, 5, 8, 9, 8, 4, 4, 4, 12][k]
                     && forall i :: 0 <= i < k ==> |parts[i]| == [3, 5, 8, 9, 8, 4, 4, 4, 12][i]))
  {
    hide SplitOn, JoinWith;
  }
}
