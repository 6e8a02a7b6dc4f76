/** Escaping text for the toast XML (toast_xml.rs `xml_escape`, toastxml.go `XMLEscape`). */
module XmlText {

  /** `str::replace` of one character. */
  function ReplaceChar(s: string, c: char, into: string): string {
    if s == [] then [] else (if s[0] == c then into else [s[0]]) + ReplaceChar(s[1..], c, into)
  }

  const AMP: string := "&amp;"
  const LT: string := "&lt;"
  const GT: string := "&gt;"
  const QUOT: string := "&quot;"
  const APOS: string := "&apos;"

  /** The Rust port: five replacements, one after the other. */
  function XmlEscape(s: string): string {
    var s1 := ReplaceChar(s, '&', AMP);
    var s2 := ReplaceChar(s1, '<', LT);
    var s3 := ReplaceChar(s2, '>', GT);
    var s4 := ReplaceChar(s3, '"', QUOT);
    ReplaceChar(s4, '\'', APOS)
  }

  function Entity(c: char): string {
    if c == '&' then AMP
    else if c == '<' then LT
    else if c == '>' then GT
    else if c == '"' then QUOT
    else if c == '\'' then APOS
    else [c]
  }

  /** The Go port: one simultaneous substitution. */
  function SinglePass(s: string): string {
    if s == [] then [] else Entity(s[0]) + SinglePass(s[1..])
  }

  /** A reader of the five predefined entities, as section 4.6 of XML 1.0 lists them. */
  function Unescape(s: string): string {
    if s == [] then []
    else if s[0] != '&' then [s[0]] + Unescape(s[1..])
    else if "&amp;" <= s then "&" + Unescape(s[5..])
    else if "&lt;" <= s then "<" + Unescape(s[4..])
    else if "&gt;" <= s then ">" + Unescape(s[4..])
    else if "&quot;" <= s then "\"" + Unescape(s[6..])
    else if "&apos;" <= s then "'" + Unescape(s[6..])
    else [s[0]] + Unescape(s[1..])
  }

  lemma Regroup(a: string, b: string, c: string)
    ensures a + (b + c) == (a + b) + c
  {
  }

  lemma {:induction false} ReplaceDistributes(a: string, b: string, c: char, into: string)
    ensures ReplaceChar(a + b, c, into) == ReplaceChar(a, c, into) + ReplaceChar(b, c, into)
  {
    if a == [] {
      assert a + b == b;
    } else {
      ReplaceDistributes(a[1..], b, c, into);
      assert (a + b)[1..] == a[1..] + b && (a + b)[0] == a[0];
      Regroup(if a[0] == c then into else [a[0]], ReplaceChar(a[1..], c, into), ReplaceChar(b, c, into));
    }
  }

  lemma EscapeDistributes(a: string, b: string)
    ensures XmlEscape(a + b) == XmlEscape(a) + XmlEscape(b)
  {
    var a1, b1 := ReplaceChar(a, '&', AMP), ReplaceChar(b, '&', AMP);
    var a2, b2 := ReplaceChar(a1, '<', LT), ReplaceChar(b1, '<', LT);
    var a3, b3 := ReplaceChar(a2, '>', GT), ReplaceChar(b2, '>', GT);
    var a4, b4 := ReplaceChar(a3, '"', QUOT), ReplaceChar(b3, '"', QUOT);
    ReplaceDistributes(a, b, '&', AMP);
    ReplaceDistributes(a1, b1, '<', LT);
    ReplaceDistributes(a2, b2, '>', GT);
    ReplaceDistributes(a3, b3, '"', QUOT);
    ReplaceDistributes(a4, b4, '\'', APOS);
  }

  lemma {:induction false} ReplaceAbsent(s: string, c: char, into: string)
    requires c !in s
    ensures ReplaceChar(s, c, into) == s
  {
    if s != [] {
      ReplaceAbsent(s[1..], c, into);
    }
  }

  lemma ReplaceSingle(c: char, d: char, into: string)
    ensures ReplaceChar([c], d, into) == if c == d then into else [c]
  {
    assert [c][1..] == [];
  }

  predicate MarkupFree(s: string) {
    forall i :: 0 <= i < |s| ==> s[i] != '<' && s[i] != '>' && s[i] != '"' && s[i] != '\''
  }

  /** Once a character has become an entity, the later replacements leave it alone. */
  lemma EntitiesAreInert(e: string)
    requires MarkupFree(e)
    ensures ReplaceChar(e, '<', LT) == e
    ensures ReplaceChar(e, '>', GT) == e
    ensures ReplaceChar(e, '"', QUOT) == e
    ensures ReplaceChar(e, '\'', APOS) == e
  {
    ReplaceAbsent(e, '<', LT);
    ReplaceAbsent(e, '>', GT);
    ReplaceAbsent(e, '"', QUOT);
    ReplaceAbsent(e, '\'', APOS);
  }

  lemma EntitiesAreMarkupFree()
    ensures MarkupFree(AMP) && MarkupFree(LT) && MarkupFree(GT) && MarkupFree(QUOT) && MarkupFree(APOS)
  {
  }

  lemma EscapeOfOne(c: char)
    ensures XmlEscape([c]) == Entity(c)
  {
    ReplaceSingle(c, '&', AMP);
    ReplaceSingle(c, '<', LT);
    ReplaceSingle(c, '>', GT);
    ReplaceSingle(c, '"', QUOT);
    ReplaceSingle(c, '\'', APOS);
    EntitiesAreMarkupFree();
    if Entity(c) != [c] {
      EntitiesAreInert(Entity(c));
    }
  }

  /** Five sequential replacements are one simultaneous substitution: the two ports escape alike. */
  lemma {:induction false} SequentialIsSinglePass(s: string)
    ensures XmlEscape(s) == SinglePass(s)
  {
    if s == [] {
    } else {
      assert s == [s[0]] + s[1..];
      EscapeDistributes([s[0]], s[1..]);
      EscapeOfOne(s[0]);
      SequentialIsSinglePass(s[1..]);
    }
  }

  lemma {:induction false} SinglePassIsMarkupFree(s: string)
    ensures MarkupFree(SinglePass(s))
  {
    if s != [] {
      SinglePassIsMarkupFree(s[1..]);
      assert MarkupFree(Entity(s[0]));
    }
  }

  lemma {:induction false} UnescapeSinglePass(s: string)
    ensures Unescape(SinglePass(s)) == s
  {
    if s == [] {
    } else {
      UnescapeSinglePass(s[1..]);
      UnescapeEntity(s[0], SinglePass(s[1..]));
      assert s == [s[0]] + s[1..];
    }
  }

  lemma UnescapeEntity(c: char, rest: string)
    ensures Unescape(Entity(c) + rest) == [c] + Unescape(rest)
  {
    var e := Entity(c);
    var s := e + rest;
    assert s[|e|..] == rest;
    assert s[0] == e[0] && (|e| > 1 ==> s[1] == e[1]) && (|e| > 2 ==> s[2] == e[2]);
  }

  /** Escaped text carries no markup characters and reads back as the original. */
  lemma EscapeRoundTrip(s: string)
    ensures MarkupFree(XmlEscape(s))
    ensures Unescape(XmlEscape(s)) == s
  {
    SequentialIsSinglePass(s);
    SinglePassIsMarkupFree(s);
    UnescapeSinglePass(s);
  }

  lemma {:induction false} EscapeOfPlain(s: string)
    requires MarkupFree(s) && '&' !in s
    ensures XmlEscape(s) == s
  {
    ReplaceAbsent(s, '&', AMP);
    ReplaceAbsent(s, '<', LT);
    ReplaceAbsent(s, '>', GT);
    ReplaceAbsent(s, '"', QUOT);
    ReplaceAbsent(s, '\'', APOS);
  }
}
