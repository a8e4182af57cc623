/** `split` and `join` on one delimiter, for text and for octets. */
module Splitting {

  /** The pieces between occurrences of `c`; the empty sequence has one empty piece. */
  function SplitOn<T(==)>(s: seq<T>, c: T): (parts: seq<seq<T>>)
    ensures |parts| >= 1
    ensures forall i :: 0 <= i < |parts| ==> c !in parts[i]
  {
    if s == [] then [[]]
    else
      var rest := SplitOn(s[1..], c);
      if s[0] == c then [[]] + rest else [[s[0]] + rest[0]] + rest[1..]
  }

  function JoinWith<T>(parts: seq<seq<T>>, c: T): seq<T>
    requires parts != []
  {
    if |parts| == 1 then parts[0] else parts[0] + ([c] + JoinWith(parts[1..], c))
  }

  lemma {:induction false} JoinInvertsSplit<T>(s: seq<T>, c: T)
    ensures JoinWith(SplitOn(s, c), c) == s
  {
    if s != [] {
      var rest := SplitOn(s[1..], c);
      JoinInvertsSplit(s[1..], c);
      if s[0] == c {
        assert ([[]] + rest)[1..] == rest;
      } else {
        var parts := [[s[0]] + rest[0]] + rest[1..];
        assert parts[1..] == rest[1..];
        assert JoinWith(parts, c) == [s[0]] + JoinWith(rest, c);
      }
    }
  }

  lemma {:induction false} SplitInvertsJoin<T>(parts: seq<seq<T>>, c: T)
    requires parts != [] && forall i :: 0 <= i < |parts| ==> c !in parts[i]
    ensures SplitOn(JoinWith(parts, c), c) == parts
    decreases |parts|
  {
    if |parts| == 1 {
      SplitWhole(parts[0], c);
      assert parts == [parts[0]];
    } else {
      SplitInvertsJoin(parts[1..], c);
      SplitFirst(parts[0], JoinWith(parts[1..], c), c);
      assert [parts[0]] + parts[1..] == parts;
    }
  }

  lemma {:induction false} SplitWhole<T>(s: seq<T>, c: T)
    requires c !in s
    ensures SplitOn(s, c) == [s]
  {
    if s != [] {
      SplitWhole(s[1..], c);
      assert [s[0]] + s[1..] == s;
    }
  }

  lemma {:induction false} SplitFirst<T>(first: seq<T>, rest: seq<T>, c: T)
    requires c !in first
    ensures SplitOn(first + ([c] + rest), c) == [first] + SplitOn(rest, c)
  {
    var s := first + ([c] + rest);
    if first == [] {
      assert s[1..] == rest;
    } else {
      assert s[1..] == first[1..] + ([c] + rest);
      SplitFirst(first[1..], rest, c);
      assert [first[0]] + first[1..] == first;
      assert SplitOn(s[1..], c)[1..] == SplitOn(rest, c);
    }
  }
}
