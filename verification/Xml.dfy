/**
  The part of XML 1.0 the printers rely on: element trees, and character data and attribute
  values with the predefined entities (sections 2.4 and 4.6).
 */
module Xml {
  import opened Wrappers

  datatype Attribute = Attribute(name: string, value: string)

  datatype Node =
    | Element(name: string, attributes: seq<Attribute>, children: seq<Node>)
    | Text(value: string)

  // ---------------------------------------------------------------- escaping

  function EscapeTextChar(c: char): string {
    match c
    case '&' => "&amp;"
    case '<' => "&lt;"
    case '>' => "&gt;"
    case _ => [c]
  }

  function EscapeChar(c: char): string {
    match c
    case '"' => "&quot;"
    case '\'' => "&apos;"
    case _ => EscapeTextChar(c)
  }

  /** Escaping of character data that leaves quotes alone. */
  function EscapeText(s: string): (r: string)
    ensures '<' !in r && '>' !in r && (s == "" <==> r == "")
    ensures ('"' in r <==> '"' in s) && ('\'' in r <==> '\'' in s)
  {
    if s == "" then "" else EscapeTextChar(s[0]) + EscapeText(s[1..])
  }

  /** Escaping of all five characters that have a predefined entity. */
  function Escape(s: string): (r: string)
    ensures '<' !in r && '>' !in r && '"' !in r && '\'' !in r && (s == "" <==> r == "")
  {
    if s == "" then "" else EscapeChar(s[0]) + Escape(s[1..])
  }

  predicate StartsWith(s: string, prefix: string) { prefix <= s }

  /** The character a reference at the start of `s` stands for, and its length. */
  function Entity(s: string): (r: Option<(char, nat)>)
    ensures r.Some? ==> 1 < r.value.1 <= |s|
  {
    if StartsWith(s, "&amp;") then Some(('&', 5))
    else if StartsWith(s, "&lt;") then Some(('<', 4))
    else if StartsWith(s, "&gt;") then Some(('>', 4))
    else if StartsWith(s, "&quot;") then Some(('"', 6))
    else if StartsWith(s, "&apos;") then Some(('\'', 6))
    else None
  }

  function Unescape(s: string): (r: Option<string>)
    decreases |s|
  {
    if s == "" then Some("")
    else if s[0] == '&' then
      var (c, n) :- Entity(s);
      var rest :- Unescape(s[n..]);
      Some([c] + rest)
    else
      var rest :- Unescape(s[1..]);
      Some([s[0]] + rest)
  }

  lemma EntityReads(c: char, e: string, rest: string)
    requires (e == EscapeChar(c) || e == EscapeTextChar(c)) && e != [c]
    ensures Entity(e + rest) == Some((c, |e|)) && e[0] == '&'
  {
    var s := e + rest;
    assert s[..|e|] == e;
    assert s[0] == e[0] && s[1] == e[1] && s[2] == e[2] && s[3] == e[3];
  }

  lemma EscapedIsEntity(c: char, e: string)
    requires e == EscapeChar(c) || e == EscapeTextChar(c)
    ensures e != "" && (e == [c] ==> c != '&')
  {
  }

  lemma UnescapeStep(c: char, e: string, rest: string)
    requires e == EscapeChar(c) || e == EscapeTextChar(c)
    ensures Unescape(e + rest) ==
            if Unescape(rest).Some? then Some([c] + Unescape(rest).value) else None
  {
    hide EscapeChar, EscapeTextChar, Entity;
    EscapedIsEntity(c, e);
    assert (e + rest)[|e|..] == rest;
    if e != [c] {
      EntityReads(c, e, rest);
      assert (e + rest)[0] == e[0];
    }
  }

  lemma {:induction false} UnescapeInverts(s: string)
    ensures Unescape(Escape(s)) == Some(s)
  {
    if s != "" {
      UnescapeInverts(s[1..]);
      UnescapeStep(s[0], EscapeChar(s[0]), Escape(s[1..]));
      assert [s[0]] + s[1..] == s;
    }
  }

  lemma {:induction false} UnescapeInvertsText(s: string)
    ensures Unescape(EscapeText(s)) == Some(s)
  {
    if s != "" {
      UnescapeInvertsText(s[1..]);
      UnescapeStep(s[0], EscapeTextChar(s[0]), EscapeText(s[1..]));
      assert [s[0]] + s[1..] == s;
    }
  }
}
