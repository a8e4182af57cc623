/** `to_turnkey_armored`: Base64 in lines of 64 characters, each ended by a line feed. */
module Armor {
  import opened Wrappers
  import opened Bytes
  import opened Splitting
  import opened LineEnds
  import Base64

  const LINE_WIDTH := 64

  /** Pieces of at most one line. */
  function Chunks(s: string): (r: seq<string>)
    ensures forall i :: 0 <= i < |r| ==> 0 < |r[i]| <= LINE_WIDTH
    ensures forall i :: 0 <= i < |r| - 1 ==> |r[i]| == LINE_WIDTH
    ensures s == "" <==> r == []
    ensures |r| == (|s| + 63) / LINE_WIDTH
  {
    if s == "" then []
    else if |s| <= LINE_WIDTH then [s]
    else [s[..LINE_WIDTH]] + Chunks(s[LINE_WIDTH..])
  }

  /** The armored text of CMS bytes. */
  function Armored(data: bytes): string { Println(Chunks(Base64.Encode(data))) }

  /** What the loop has written after the characters `s`: complete lines are ended already. */
  function Written(s: string): string {
    if |s| < LINE_WIDTH then s else s[..LINE_WIDTH] + "\n" + Written(s[LINE_WIDTH..])
  }

  lemma FullLine(s: string)
    requires |s| == LINE_WIDTH
    ensures Written(s) == s + "\n"
  {
    assert s[..LINE_WIDTH] == s && s[LINE_WIDTH..] == "";
    assert Written("") == "" && s + "\n" + "" == s + "\n";
  }

  /** A complete line in front is written once. */
  lemma LineInFront(head: string, tail: string)
    requires |head| == LINE_WIDTH
    ensures Written(head + tail) == head + "\n" + Written(tail)
  {
    assert (head + tail)[..LINE_WIDTH] == head && (head + tail)[LINE_WIDTH..] == tail;
  }

  lemma {:induction false} WriteOne(s: string, c: char)
    ensures Written(s + [c]) == Written(s) + [c] + (if (|s| + 1) % LINE_WIDTH == 0 then "\n" else "")
    decreases |s|
  {
    if |s| < LINE_WIDTH - 1 {
      assert s + [c] + "" == s + [c];
    } else if |s| == LINE_WIDTH - 1 {
      FullLine(s + [c]);
    } else {
      var head, tail := s[..LINE_WIDTH], s[LINE_WIDTH..];
      WriteOne(tail, c);
      LineInFront(head, tail);
      LineInFront(head, tail + [c]);
      hide Written;
      assert s == head + tail && s + [c] == head + (tail + [c]);
      assert (|tail| + 1) % LINE_WIDTH == (|s| + 1) % LINE_WIDTH;
      var end := if (|s| + 1) % LINE_WIDTH == 0 then "\n" else "";
      Regroup(head + "\n", Written(tail), [c], end);
    }
  }

  lemma Regroup(a: string, b: string, c: string, d: string)
    ensures a + (b + c + d) == a + b + c + d
  {
  }

  lemma {:induction false} WrittenIsWrapped(s: string)
    ensures Println(Chunks(s)) == Written(s) + (if |s| % LINE_WIDTH != 0 then "\n" else "")
    decreases |s|
  {
    if s == "" {
    } else if |s| < LINE_WIDTH {
      assert [s][1..] == [] && Println([]) == "";
      assert s + "\n" + "" == s + "\n";
    } else if |s| == LINE_WIDTH {
      assert s[..LINE_WIDTH] == s && s[LINE_WIDTH..] == "";
      assert [s][1..] == [] && Println([]) == "" && Written("") == "";
      assert s + "\n" + "" + "" == s + "\n" + "";
    } else {
      var head, tail := s[..LINE_WIDTH], s[LINE_WIDTH..];
      WrittenIsWrapped(tail);
      assert Chunks(s)[1..] == Chunks(tail);
      var end := if |s| % LINE_WIDTH != 0 then "\n" else "";
      assert |tail| % LINE_WIDTH == |s| % LINE_WIDTH;
      assert head + "\n" + (Written(tail) + end) == head + "\n" + Written(tail) + end;
    }
  }

  method ToTurnkeyArmored(data: bytes) returns (text: string)
    ensures text == Armored(data)
  {
    var encoded := Base64.Encode(data);
    var out := new TextBuffer();
    for i := 0 to |encoded|
      invariant out.text == Written(encoded[..i])
    {
      assert encoded[..i + 1] == encoded[..i] + [encoded[i]];
      WriteOne(encoded[..i], encoded[i]);
      hide Written;
      out.Push(encoded[i]);
      if (i + 1) % LINE_WIDTH == 0 {
        out.Push('\n');
      }
    }
    assert encoded[..|encoded|] == encoded;
    if |encoded| % LINE_WIDTH != 0 {
      out.Push('\n');
    }
    WrittenIsWrapped(encoded);
    text := out.text;
  }

  // ---------------------------------------------------------------- reading armor

  function WithoutLineFeeds(s: string): string {
    if s == "" then "" else (if s[0] == '\n' then "" else [s[0]]) + WithoutLineFeeds(s[1..])
  }

  function Dearmor(text: string): Option<bytes> { Base64.Decode(WithoutLineFeeds(text)) }

  lemma {:induction false} WithoutConcat(a: string, b: string)
    ensures WithoutLineFeeds(a + b) == WithoutLineFeeds(a) + WithoutLineFeeds(b)
  {
    if a == "" {
      assert a + b == b;
    } else {
      assert (a + b)[1..] == a[1..] + b;
      WithoutConcat(a[1..], b);
    }
  }

  lemma {:induction false} NothingToRemove(s: string)
    requires '\n' !in s
    ensures WithoutLineFeeds(s) == s
  {
    if s != "" {
      NothingToRemove(s[1..]);
    }
  }

  lemma LineFeedRemoved(rest: string)
    ensures WithoutLineFeeds("\n" + rest) == WithoutLineFeeds(rest)
  {
    assert ("\n" + rest)[1..] == rest;
  }

  lemma UnwrapLine(line: string, rest: string)
    requires '\n' !in line
    ensures WithoutLineFeeds(line + "\n" + rest) == line + WithoutLineFeeds(rest)
  {
    hide WithoutLineFeeds;
    assert line + "\n" + rest == line + ("\n" + rest);
    WithoutConcat(line, "\n" + rest);
    NothingToRemove(line);
    LineFeedRemoved(rest);
  }

  /** Removing the line feeds of printed lines leaves their characters. */
  lemma {:induction false} UnwrapLines(lines: seq<string>)
    requires forall i :: 0 <= i < |lines| ==> '\n' !in lines[i]
    ensures WithoutLineFeeds(Println(lines)) == Flatten(lines)
  {
    hide WithoutLineFeeds;
    if lines == [] {
      NothingToRemove("");
    } else {
      UnwrapLines(lines[1..]);
      UnwrapLine(lines[0], Println(lines[1..]));
    }
  }

  // ---------------------------------------------------------------- main results

  /** Dropping the line feeds and decoding returns the CMS bytes. */
  lemma DearmorInverts(data: bytes)
    ensures Dearmor(Armored(data)) == Some(data)
  {
    Base64.EncodeHasNoLineFeed(data);
    ChunksHaveNoLineFeed(Base64.Encode(data));
    UnwrapLines(Chunks(Base64.Encode(data)));
    FlattenChunks(Base64.Encode(data));
    Base64.DecodeInverts(data);
  }

  lemma {:induction false} ChunksHaveNoLineFeed(s: string)
    requires '\n' !in s
    ensures forall i :: 0 <= i < |Chunks(s)| ==> '\n' !in Chunks(s)[i]
    decreases |s|
  {
    if |s| > LINE_WIDTH {
      ChunksHaveNoLineFeed(s[LINE_WIDTH..]);
    }
  }

  lemma {:induction false} LastChunk(s: string)
    requires s != "" && |s| % 4 == 0
    ensures |Chunks(s)[|Chunks(s)| - 1]| % 4 == 0
    decreases |s|
  {
    if |s| > LINE_WIDTH {
      LastChunk(s[LINE_WIDTH..]);
    }
  }

  lemma {:induction false} PrintlnLength(lines: seq<string>)
    ensures |Println(lines)| == |Flatten(lines)| + |lines|
  {
    if lines != [] {
      PrintlnLength(lines[1..]);
    }
  }

  lemma {:induction false} FlattenChunks(s: string)
    ensures Flatten(Chunks(s)) == s
    decreases |s|
  {
    if s == "" {
    } else if |s| <= LINE_WIDTH {
      assert [s][1..] == [] && s + [] == s;
    } else {
      assert Chunks(s)[1..] == Chunks(s[LINE_WIDTH..]);
      FlattenChunks(s[LINE_WIDTH..]);
      assert s == s[..LINE_WIDTH] + s[LINE_WIDTH..];
    }
  }

  /** Splitting printed lines at the line feeds gives the lines back, and an empty piece. */
  lemma SplitPrintln(lines: seq<string>)
    requires forall i :: 0 <= i < |lines| ==> '\n' !in lines[i]
    ensures SplitOn(Println(lines), '\n') == lines + [""]
  {
    JoinEmptyLast(lines);
    SplitInvertsJoin(lines + [""], '\n');
  }

  /**
    The armor of non-empty bytes is a list of lines, each ended by a line feed: all but the
    last have 64 characters, the last has 4 to 64 and a multiple of 4.  Its length is the
    capacity reserved up front.
   */
  lemma ArmoredShape(data: bytes)
    requires data != []
    ensures var lines, n := SplitOn(Armored(data), '\n'), 4 * ((|data| + 2) / 3);
            && |lines| >= 2 && lines[|lines| - 1] == ""
            && (forall i :: 0 <= i < |lines| - 2 ==> |lines[i]| == 64)
            && 4 <= |lines[|lines| - 2]| <= 64 && |lines[|lines| - 2]| % 4 == 0
            && |Armored(data)| == n + (n + 63) / 64
  {
    hide Chunks, Println, SplitOn, Base64.Encode, Flatten;
    var encoded := Base64.Encode(data);
    var lines := Chunks(encoded);
    var n := 4 * ((|data| + 2) / 3);
    assert encoded != "" && |encoded| == n && n % 4 == 0;
    Base64.EncodeHasNoLineFeed(data);
    ChunksHaveNoLineFeed(encoded);
    LastChunk(encoded);
    SplitPrintln(lines);
    PrintlnLength(lines);
    FlattenChunks(encoded);
  }
}
