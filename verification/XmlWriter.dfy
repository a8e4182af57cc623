/** The escaping loops of the printers, and pieces of text pushed in order. */
module XmlWriter {
  import opened Bytes
  import opened Xml
  import opened XmlTree

  lemma {:induction false} EscapeAppend(s: string, c: char)
    ensures Escape(s + [c]) == Escape(s) + EscapeChar(c)
  {
    if s == "" {
      assert s + [c] == [c];
      assert EscapeChar(c) + "" == EscapeChar(c);
    } else {
      assert (s + [c])[1..] == s[1..] + [c];
      EscapeAppend(s[1..], c);
    }
  }

  method PushEscaped(out: TextBuffer, value: string)
    modifies out
    ensures out.text == old(out.text) + Escape(value)
  {
    for i := 0 to |value|
      invariant out.text == old(out.text) + Escape(value[..i])
    {
      assert value[..i + 1] == value[..i] + [value[i]];
      EscapeAppend(value[..i], value[i]);
      Assoc(old(out.text), Escape(value[..i]), EscapeChar(value[i]));
      hide Escape;
      match value[i] {
        case '&' => out.PushStr("&amp;");
        case '<' => out.PushStr("&lt;");
        case '>' => out.PushStr("&gt;");
        case '"' => out.PushStr("&quot;");
        case '\'' => out.PushStr("&apos;");
        case c => out.Push(c);
      }
    }
    assert value[..|value|] == value;
  }

  lemma {:induction false} EscapeTextAppend(s: string, c: char)
    ensures EscapeText(s + [c]) == EscapeText(s) + EscapeTextChar(c)
  {
    if s == "" {
      assert s + [c] == [c];
      assert EscapeTextChar(c) + "" == EscapeTextChar(c);
    } else {
      assert (s + [c])[1..] == s[1..] + [c];
      EscapeTextAppend(s[1..], c);
    }
  }

  method PushTextEscaped(out: TextBuffer, value: string)
    modifies out
    ensures out.text == old(out.text) + EscapeText(value)
  {
    for i := 0 to |value|
      invariant out.text == old(out.text) + EscapeText(value[..i])
    {
      assert value[..i + 1] == value[..i] + [value[i]];
      EscapeTextAppend(value[..i], value[i]);
      Assoc(old(out.text), EscapeText(value[..i]), EscapeTextChar(value[i]));
      hide EscapeText;
      match value[i] {
        case '&' => out.PushStr("&amp;");
        case '<' => out.PushStr("&lt;");
        case '>' => out.PushStr("&gt;");
        case c => out.Push(c);
      }
    }
    assert value[..|value|] == value;
  }

  /** Push one piece of a text that goes on with `rest`. */
  method Put(out: TextBuffer, piece: string, ghost rest: string)
    modifies out
    ensures out.text + rest == old(out.text) + (piece + rest)
  {
    out.PushStr(piece);
    Assoc(old(out.text), piece, rest);
  }

  method PutEscaped(out: TextBuffer, value: string, ghost rest: string)
    modifies out
    ensures out.text + rest == old(out.text) + (Escape(value) + rest)
  {
    hide Escape;
    PushEscaped(out, value);
    Assoc(old(out.text), Escape(value), rest);
  }

  method PutTextEscaped(out: TextBuffer, value: string, ghost rest: string)
    modifies out
    ensures out.text + rest == old(out.text) + (EscapeText(value) + rest)
  {
    hide EscapeText;
    PushTextEscaped(out, value);
    Assoc(old(out.text), EscapeText(value), rest);
  }

  lemma PlainChar(c: char)
    requires c !in "&<>\"'"
    ensures EscapeChar(c) == [c]
  {
    assert "&<>\"'"[0] == '&' && "&<>\"'"[1] == '<' && "&<>\"'"[2] == '>' && "&<>\"'"[3] == '"' && "&<>\"'"[4] == '\'';
  }

  lemma {:induction false} EscapePlain(s: string)
    requires forall i :: 0 <= i < |s| ==> s[i] !in "&<>\"'"
    ensures Escape(s) == s
  {
    hide EscapeChar;
    if s != "" {
      EscapePlain(s[1..]);
      PlainChar(s[0]);
      assert [s[0]] + s[1..] == s;
    }
  }
}
