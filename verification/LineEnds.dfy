/**
  Line ends of payload text.  The program normalises with two replacements and re-appends
  the pieces of `split_terminator`; Java reads lines in one pass and prints each of them.
 */
module LineEnds {
  import opened Bytes
  import opened Splitting

  // ---------------------------------------------------------------- two replacements and a split

  function ReplaceCrLf(s: string): string {
    if s == "" then ""
    else if |s| >= 2 && s[0] == '\r' && s[1] == '\n' then "\n" + ReplaceCrLf(s[2..])
    else [s[0]] + ReplaceCrLf(s[1..])
  }

  function ReplaceCr(s: string): string {
    if s == "" then "" else [if s[0] == '\r' then '\n' else s[0]] + ReplaceCr(s[1..])
  }

  function Normalized(s: string): string { ReplaceCr(ReplaceCrLf(s)) }

  /** `split_terminator('\n')`: like `split`, without a trailing empty piece. */
  function SplitTerminator(s: string): seq<string> {
    var parts := SplitOn(s, '\n');
    var last := |parts| - 1;
    if parts[last] == "" then parts[..last] else parts
  }

  /** Every line followed by a line feed. */
  function Println(lines: seq<string>): string {
    if lines == [] then "" else lines[0] + "\n" + Println(lines[1..])
  }

  /** What `append_like_java_read_line` appends for `input`. */
  function Appended(input: string): string {
    var normalized := Normalized(input);
    if normalized == "" then "\n" else Println(SplitTerminator(normalized))
  }

  lemma {:induction false} PrintlnConcat(a: seq<string>, b: seq<string>)
    ensures Println(a + b) == Println(a) + Println(b)
  {
    if a == [] {
      assert a + b == b;
    } else {
      assert (a + b)[1..] == a[1..] + b;
      PrintlnConcat(a[1..], b);
    }
  }

  lemma PrintlnAppend(text: string, lines: seq<string>, line: string)
    ensures text + Println(lines) + line + "\n" == text + Println(lines + [line])
  {
    PrintlnConcat(lines, [line]);
    assert Println([line]) == line + "\n" + Println([line][1..]);
  }

  method AppendLikeJavaReadLine(out: TextBuffer, input: string)
    modifies out
    ensures out.text == old(out.text) + Appended(input)
  {
    var normalized := Normalized(input);
    if normalized == "" {
      out.Push('\n');
      return;
    }
    var lines := SplitTerminator(normalized);
    assert out.text + Println([]) == out.text;
    for i := 0 to |lines|
      invariant out.text == old(out.text) + Println(lines[..i])
    {
      assert lines[..i + 1] == lines[..i] + [lines[i]];
      PrintlnAppend(old(out.text), lines[..i], lines[i]);
      out.PushStr(lines[i]);
      out.Push('\n');
    }
    assert lines[..|lines|] == lines;
  }

  // ---------------------------------------------------------------- one pass

  datatype State = LineStart | InLine | AfterCr

  /** `readLine` until the end of the input, printing each line with a line feed. */
  function ReadAndPrint(s: string, state: State): string {
    if s == "" then (if state.InLine? then "\n" else "")
    else if s[0] == '\n' then (if state.AfterCr? then "" else "\n") + ReadAndPrint(s[1..], LineStart)
    else if s[0] == '\r' then "\n" + ReadAndPrint(s[1..], AfterCr)
    else [s[0]] + ReadAndPrint(s[1..], InLine)
  }

  /** `s` with a final line feed, unless it has one or is empty. */
  function Terminated(s: string): string {
    if s == "" || s[|s| - 1] == '\n' then s else s + "\n"
  }

  lemma {:induction false} PrintlnJoins(parts: seq<string>)
    requires parts != []
    ensures Println(parts) == JoinWith(parts, '\n') + "\n"
    decreases |parts|
  {
    if |parts| == 1 {
      assert Println(parts[1..]) == "";
    } else {
      PrintlnJoins(parts[1..]);
      var a, b := parts[0], JoinWith(parts[1..], '\n');
      assert a + "\n" + (b + "\n") == a + ("\n" + b) + "\n";
    }
  }

  lemma {:induction false} JoinEmptyLast(init: seq<string>)
    ensures JoinWith(init + [""], '\n') == Println(init)
    decreases |init|
  {
    if init != [] {
      assert (init + [""])[1..] == init[1..] + [""];
      JoinEmptyLast(init[1..]);
      var a, b := init[0], Println(init[1..]);
      assert a + ("\n" + b) == a + "\n" + b;
    }
  }

  lemma {:induction false} JoinLastChar(parts: seq<string>)
    requires parts != [] && parts[|parts| - 1] != ""
    ensures var s, p := JoinWith(parts, '\n'), parts[|parts| - 1]; s != "" && s[|s| - 1] == p[|p| - 1]
    decreases |parts|
  {
    if |parts| > 1 {
      JoinLastChar(parts[1..]);
    }
  }

  lemma {:induction false} PrintlnEnds(lines: seq<string>)
    requires lines != []
    ensures var s := Println(lines); s != "" && s[|s| - 1] == '\n'
    decreases |lines|
  {
    if |lines| > 1 {
      PrintlnEnds(lines[1..]);
    } else {
      assert Println(lines[1..]) == "";
    }
  }

  lemma SplitTerminated(s: string)
    ensures Println(SplitTerminator(s)) == Terminated(s)
  {
    var parts := SplitOn(s, '\n');
    var last := |parts| - 1;
    JoinInvertsSplit(s, '\n');
    if parts[last] == "" {
      assert parts == parts[..last] + [""];
      JoinEmptyLast(parts[..last]);
      if last > 0 {
        PrintlnEnds(parts[..last]);
      }
    } else {
      PrintlnJoins(parts);
      JoinLastChar(parts);
      var p := parts[last];
      assert p[|p| - 1] in p;
    }
  }

  function Ended(normalized: string, inLine: bool): string {
    if normalized == "" then (if inLine then "\n" else "") else Terminated(normalized)
  }

  lemma EndedStep(c: char, rest: string)
    ensures Terminated([c] + rest) == [c] + Ended(rest, c != '\n')
  {
    if rest == "" {
      assert [c] + rest == [c];
    } else {
      assert ([c] + rest)[|rest|] == rest[|rest| - 1];
      assert [c] + rest + "\n" == [c] + (rest + "\n");
    }
  }

  lemma NormalizedStep(s: string)
    requires s != ""
    ensures s[0] == '\r' && |s| >= 2 && s[1] == '\n' ==> Normalized(s) == "\n" + Normalized(s[2..])
    ensures s[0] == '\r' && !(|s| >= 2 && s[1] == '\n') ==> Normalized(s) == "\n" + Normalized(s[1..])
    ensures s[0] != '\r' ==> Normalized(s) == [s[0]] + Normalized(s[1..])
  {
    var r := ReplaceCrLf(s);
    if s[0] == '\r' && |s| >= 2 && s[1] == '\n' {
      assert r[1..] == ReplaceCrLf(s[2..]);
    } else {
      assert r[1..] == ReplaceCrLf(s[1..]);
    }
  }

  lemma {:induction false} OnePass(s: string, state: State)
    ensures ReadAndPrint(s, state) ==
            Ended(Normalized(if state.AfterCr? && s != "" && s[0] == '\n' then s[1..] else s), state.InLine?)
    decreases |s|
  {
    if s != "" {
      NormalizedStep(s);
      if s[0] == '\n' {
        OnePass(s[1..], LineStart);
        EndedStep('\n', Normalized(s[1..]));
        assert "" + ReadAndPrint(s[1..], LineStart) == ReadAndPrint(s[1..], LineStart);
      } else if s[0] == '\r' {
        OnePass(s[1..], AfterCr);
        EndedStep('\n', Normalized(if s[1..] != "" && s[1] == '\n' then s[1..][1..] else s[1..]));
      } else {
        OnePass(s[1..], InLine);
        EndedStep(s[0], Normalized(s[1..]));
      }
    }
  }

  lemma NormalizedEmpty(s: string)
    ensures Normalized(s) == "" <==> s == ""
  {
    if s != "" {
      NormalizedStep(s);
    }
  }

  // ---------------------------------------------------------------- main results

  /** Both readings agree exactly on non-empty input; for none Java prints nothing. */
  lemma AppendedLikeJava(s: string)
    ensures Appended(s) == ReadAndPrint(s, LineStart) <==> s != ""
  {
    OnePass(s, LineStart);
    NormalizedEmpty(s);
    SplitTerminated(Normalized(s));
    hide SplitTerminator, Println, Normalized;
  }

  lemma {:induction false} ReplaceCrRemoves(s: string)
    ensures '\r' !in ReplaceCr(s)
  {
    if s != "" {
      ReplaceCrRemoves(s[1..]);
    }
  }

  lemma {:induction false} NormalizedFixed(s: string)
    requires '\r' !in s
    ensures Normalized(s) == s
  {
    if s != "" {
      NormalizedStep(s);
      NormalizedFixed(s[1..]);
    }
  }

  /** The appended text holds no carriage return and ends with a line feed. */
  lemma AppendedShape(s: string)
    ensures var t := Appended(s); t != "" && t[|t| - 1] == '\n' && '\r' !in t
  {
    ReplaceCrRemoves(ReplaceCrLf(s));
    assert '\r' !in Normalized(s);
    SplitTerminated(Normalized(s));
    hide SplitTerminator, Println, Normalized;
  }

  lemma AppendedIdempotent(s: string)
    ensures Appended(Appended(s)) == Appended(s)
  {
    var t := Appended(s);
    AppendedShape(s);
    NormalizedFixed(t);
    SplitTerminated(t);
    hide SplitTerminator, Println, Normalized;
  }

  /** One line feed is added to text without carriage returns that does not end in one. */
  lemma AppendedPlain(s: string)
    requires s != "" && '\r' !in s && s[|s| - 1] != '\n'
    ensures Appended(s) == s + "\n"
  {
    NormalizedFixed(s);
    SplitTerminated(s);
    hide SplitTerminator, Println, Normalized;
  }
}
