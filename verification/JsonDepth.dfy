/**
 The depth gate in front of the JSON decoder (parser.rs `depth_exceeds`): a
 byte scan that skips strings. It is exact: on the text of every JSON value,
 with any legal whitespace and string escapes, it answers whether the value
 nests deeper than the limit.
 */
module JsonDepth {
  import opened Model

  const QUOTE: Byte := 34
  const BACKSLASH: Byte := 92
  const OPEN_BRACE: Byte := 123
  const CLOSE_BRACE: Byte := 125
  const OPEN_BRACKET: Byte := 91
  const CLOSE_BRACKET: Byte := 93
  const COMMA: Byte := 44
  const COLON: Byte := 58

  // ---------------------------------------------------------------------------
  // The scan

  datatype Scan = Scan(depth: nat, inString: bool, escaped: bool)

  const START: Scan := Scan(0, false, false)

  /** One byte of the scan; `None` is the early return for exceeding the limit. */
  function Step(s: Scan, b: Byte, max: nat): Option<Scan> {
    if s.inString then
      Some(if s.escaped then s.(escaped := false)
           else if b == BACKSLASH then s.(escaped := true)
           else if b == QUOTE then s.(inString := false)
           else s)
    else if b == QUOTE then Some(s.(inString := true))
    else if b == OPEN_BRACE || b == OPEN_BRACKET then
      if s.depth + 1 > max then None else Some(s.(depth := s.depth + 1))
    else if b == CLOSE_BRACE || b == CLOSE_BRACKET then
      Some(s.(depth := if s.depth == 0 then 0 else s.depth - 1))
    else Some(s)
  }

  function ScanAll(s: Scan, bytes: seq<Byte>, max: nat): Option<Scan>
    decreases |bytes|
  {
    if bytes == [] then Some(s) else
    var next := Step(s, bytes[0], max);
    if next.None? then None else ScanAll(next.value, bytes[1..], max)
  }

  predicate ExceedsDepth(payload: seq<Byte>, max: nat) {
    ScanAll(START, payload, max).None?
  }

  method DepthExceeds(payload: seq<Byte>, max: nat) returns (exceeds: bool)
    ensures exceeds <==> ExceedsDepth(payload, max)
  {
    var depth: nat, inString, escaped := 0, false, false;
    for i := 0 to |payload|
      invariant ScanAll(START, payload, max) == ScanAll(Scan(depth, inString, escaped), payload[i..], max)
    {
      var b := payload[i];
      assert payload[i..][0] == b && payload[i..][1..] == payload[i + 1..];
      if inString {
        if escaped {
          escaped := false;
        } else if b == BACKSLASH {
          escaped := true;
        } else if b == QUOTE {
          inString := false;
        }
        continue;
      }
      if b == QUOTE {
        inString := true;
      } else if b == OPEN_BRACE || b == OPEN_BRACKET {
        depth := depth + 1;
        if depth > max {
          return true;
        }
      } else if b == CLOSE_BRACE || b == CLOSE_BRACKET {
        depth := if depth == 0 then 0 else depth - 1;
      }
    }
    assert payload[|payload|..] == [];
    return false;
  }

  // ---------------------------------------------------------------------------
  // JSON texts (sections 2 to 7 of RFC 8259)

  /** One element of a string literal. */
  datatype Piece = Raw(b: Byte) | Escape(b: Byte) | Unicode(h1: Byte, h2: Byte, h3: Byte, h4: Byte)

  datatype Json =
    | Scalar(text: seq<Byte>)
    | Str(body: seq<Piece>)
    | Arr(elems: Elems)
    | Obj(members: Members)

  /** A value with the whitespace around it. */
  datatype Padded = Padded(before: seq<Byte>, value: Json, after: seq<Byte>)

  datatype Elems = NoElems(ws: seq<Byte>) | LastElem(p: Padded) | MoreElems(p: Padded, rest: Elems)

  datatype Member = Member(before: seq<Byte>, name: seq<Piece>, mid: seq<Byte>, value: Padded)

  datatype Members = NoMembers(ws: seq<Byte>) | LastMember(m: Member) | MoreMembers(m: Member, rest: Members)

  predicate IsSpace(b: Byte) {
    b == 32 || b == 9 || b == 10 || b == 13
  }

  predicate AllSpace(ws: seq<Byte>) {
    forall i :: 0 <= i < |ws| ==> IsSpace(ws[i])
  }

  /** The bytes that numbers, `true`, `false` and `null` are made of. */
  predicate IsScalarByte(b: Byte) {
    48 <= b <= 57 || 97 <= b <= 122 || b == 69 || b == 43 || b == 45 || b == 46
  }

  predicate IsHex(b: Byte) {
    48 <= b <= 57 || 65 <= b <= 70 || 97 <= b <= 102
  }

  predicate LegalPiece(p: Piece) {
    match p
    case Raw(b) => b >= 32 && b != QUOTE && b != BACKSLASH
    case Escape(b) => b in [34, 92, 47, 98, 102, 110, 114, 116]
    case Unicode(h1, h2, h3, h4) => IsHex(h1) && IsHex(h2) && IsHex(h3) && IsHex(h4)
  }

  predicate LegalBody(body: seq<Piece>) {
    forall i :: 0 <= i < |body| ==> LegalPiece(body[i])
  }

  predicate Legal(v: Json) {
    match v
    case Scalar(text) => forall i :: 0 <= i < |text| ==> IsScalarByte(text[i])
    case Str(body) => LegalBody(body)
    case Arr(elems) => LegalElems(elems)
    case Obj(members) => LegalMembers(members)
  }

  predicate LegalPadded(p: Padded) {
    AllSpace(p.before) && Legal(p.value) && AllSpace(p.after)
  }

  predicate LegalElems(e: Elems) {
    match e
    case NoElems(ws) => AllSpace(ws)
    case LastElem(p) => LegalPadded(p)
    case MoreElems(p, rest) => LegalPadded(p) && LegalElems(rest)
  }

  predicate LegalMember(m: Member) {
    AllSpace(m.before) && LegalBody(m.name) && AllSpace(m.mid) && LegalPadded(m.value)
  }

  predicate LegalMembers(ms: Members) {
    match ms
    case NoMembers(ws) => AllSpace(ws)
    case LastMember(m) => LegalMember(m)
    case MoreMembers(m, rest) => LegalMember(m) && LegalMembers(rest)
  }

  function PrintPiece(p: Piece): seq<Byte> {
    match p
    case Raw(b) => [b]
    case Escape(b) => [BACKSLASH, b]
    case Unicode(h1, h2, h3, h4) => [BACKSLASH, 117, h1, h2, h3, h4]
  }

  function PrintBody(body: seq<Piece>): seq<Byte> {
    if body == [] then [] else PrintPiece(body[0]) + PrintBody(body[1..])
  }

  function PrintString(body: seq<Piece>): seq<Byte> {
    [QUOTE] + (PrintBody(body) + [QUOTE])
  }

  function Print(v: Json): seq<Byte> {
    match v
    case Scalar(text) => text
    case Str(body) => PrintString(body)
    case Arr(elems) => [OPEN_BRACKET] + (PrintElems(elems) + [CLOSE_BRACKET])
    case Obj(members) => [OPEN_BRACE] + (PrintMembers(members) + [CLOSE_BRACE])
  }

  function PrintPadded(p: Padded): seq<Byte> {
    p.before + (Print(p.value) + p.after)
  }

  function PrintElems(e: Elems): seq<Byte> {
    match e
    case NoElems(ws) => ws
    case LastElem(p) => PrintPadded(p)
    case MoreElems(p, rest) => PrintPadded(p) + ([COMMA] + PrintElems(rest))
  }

  function PrintMember(m: Member): seq<Byte> {
    m.before + (PrintString(m.name) + (m.mid + ([COLON] + PrintPadded(m.value))))
  }

  function PrintMembers(ms: Members): seq<Byte> {
    match ms
    case NoMembers(ws) => ws
    case LastMember(m) => PrintMember(m)
    case MoreMembers(m, rest) => PrintMember(m) + ([COMMA] + PrintMembers(rest))
  }

  function Max(a: nat, b: nat): nat {
    if a > b then a else b
  }

  /** How deeply objects and arrays nest. */
  function Nesting(v: Json): nat {
    match v
    case Scalar(_) => 0
    case Str(_) => 0
    case Arr(elems) => 1 + NestingOfElems(elems)
    case Obj(members) => 1 + NestingOfMembers(members)
  }

  function NestingOfElems(e: Elems): nat {
    match e
    case NoElems(_) => 0
    case LastElem(p) => Nesting(p.value)
    case MoreElems(p, rest) => Max(Nesting(p.value), NestingOfElems(rest))
  }

  function NestingOfMembers(ms: Members): nat {
    match ms
    case NoMembers(_) => 0
    case LastMember(m) => Nesting(m.value.value)
    case MoreMembers(m, rest) => Max(Nesting(m.value.value), NestingOfMembers(rest))
  }

  // ---------------------------------------------------------------------------
  // The scan over each kind of text

  lemma {:induction false} ScanConcat(s: Scan, a: seq<Byte>, b: seq<Byte>, max: nat)
    ensures ScanAll(s, a + b, max) ==
      (if ScanAll(s, a, max).None? then None else ScanAll(ScanAll(s, a, max).value, b, max))
    decreases |a|
  {
    if a == [] {
      assert a + b == b;
    } else {
      assert (a + b)[1..] == a[1..] + b;
      var next := Step(s, a[0], max);
      if next.Some? {
        ScanConcat(next.value, a[1..], b, max);
      }
    }
  }

  lemma ScanOne(s: Scan, b: Byte, max: nat)
    ensures ScanAll(s, [b], max) == Step(s, b, max)
  {
    assert [b][1..] == [];
  }

  ghost predicate Outside(s: Scan) {
    !s.inString && !s.escaped
  }

  predicate Neutral(b: Byte) {
    b != QUOTE && b != OPEN_BRACE && b != OPEN_BRACKET && b != CLOSE_BRACE && b != CLOSE_BRACKET
  }

  lemma {:induction false} ScanNeutral(s: Scan, bytes: seq<Byte>, max: nat)
    requires Outside(s) && forall i :: 0 <= i < |bytes| ==> Neutral(bytes[i])
    ensures ScanAll(s, bytes, max) == Some(s)
    decreases |bytes|
  {
    if bytes != [] {
      ScanNeutral(s, bytes[1..], max);
    }
  }

  lemma ScanPiece(s: Scan, p: Piece, max: nat)
    requires s.inString && !s.escaped && LegalPiece(p)
    ensures ScanAll(s, PrintPiece(p), max) == Some(s)
  {
    match p
    case Raw(b) => ScanOne(s, b, max);
    case Escape(b) =>
      ScanConcat(s, [BACKSLASH], [b], max);
      ScanOne(s, BACKSLASH, max);
      ScanOne(s.(escaped := true), b, max);
      assert PrintPiece(p) == [BACKSLASH] + [b];
    case Unicode(h1, h2, h3, h4) =>
      ScanConcat(s, [BACKSLASH], [117, h1, h2, h3, h4], max);
      ScanOne(s, BACKSLASH, max);
      var t := s.(escaped := true);
      ScanConcat(t, [117], [h1, h2, h3, h4], max);
      ScanOne(t, 117, max);
      ScanHex(s, [h1, h2, h3, h4], max);
      assert PrintPiece(p) == [BACKSLASH] + ([117] + [h1, h2, h3, h4]);
  }

  lemma {:induction false} ScanHex(s: Scan, bytes: seq<Byte>, max: nat)
    requires s.inString && !s.escaped && forall i :: 0 <= i < |bytes| ==> IsHex(bytes[i])
    ensures ScanAll(s, bytes, max) == Some(s)
    decreases |bytes|
  {
    if bytes != [] {
      ScanHex(s, bytes[1..], max);
    }
  }

  lemma {:induction false} ScanBody(s: Scan, body: seq<Piece>, max: nat)
    requires s.inString && !s.escaped && LegalBody(body)
    ensures ScanAll(s, PrintBody(body), max) == Some(s)
    decreases |body|
  {
    if body != [] {
      ScanPiece(s, body[0], max);
      ScanBody(s, body[1..], max);
      ScanConcat(s, PrintPiece(body[0]), PrintBody(body[1..]), max);
    }
  }

  lemma ScanString(s: Scan, body: seq<Piece>, max: nat)
    requires Outside(s) && LegalBody(body)
    ensures ScanAll(s, PrintString(body), max) == Some(s)
  {
    var t := s.(inString := true);
    ScanConcat(s, [QUOTE], PrintBody(body) + [QUOTE], max);
    ScanOne(s, QUOTE, max);
    ScanConcat(t, PrintBody(body), [QUOTE], max);
    ScanBody(t, body, max);
    ScanOne(t, QUOTE, max);
  }

  /** What the scan of a text of nesting `n` must give. */
  function Expected(s: Scan, n: nat, max: nat): Option<Scan> {
    if s.depth + n > max then None else Some(s)
  }

  lemma ScanBracketed(s: Scan, open: Byte, inner: seq<Byte>, close: Byte, n: nat, max: nat)
    requires Outside(s) && s.depth <= max
    requires open == OPEN_BRACE || open == OPEN_BRACKET
    requires close == CLOSE_BRACE || close == CLOSE_BRACKET
    requires s.depth < max ==>
      ScanAll(s.(depth := s.depth + 1), inner, max) == Expected(s.(depth := s.depth + 1), n, max)
    ensures ScanAll(s, [open] + (inner + [close]), max) == Expected(s, 1 + n, max)
  {
    ScanConcat(s, [open], inner + [close], max);
    ScanOne(s, open, max);
    if s.depth < max {
      var t := s.(depth := s.depth + 1);
      ScanConcat(t, inner, [close], max);
      ScanOne(t, close, max);
    }
  }

  lemma {:induction false} ScanValue(s: Scan, v: Json, max: nat)
    requires Outside(s) && s.depth <= max && Legal(v)
    ensures ScanAll(s, Print(v), max) == Expected(s, Nesting(v), max)
    decreases v, 0
  {
    match v
    case Scalar(text) => ScanNeutral(s, text, max);
    case Str(body) => ScanString(s, body, max);
    case Arr(elems) =>
      if s.depth < max {
        ScanElems(s.(depth := s.depth + 1), elems, max);
      }
      ScanBracketed(s, OPEN_BRACKET, PrintElems(elems), CLOSE_BRACKET, NestingOfElems(elems), max);
    case Obj(members) =>
      if s.depth < max {
        ScanMembers(s.(depth := s.depth + 1), members, max);
      }
      ScanBracketed(s, OPEN_BRACE, PrintMembers(members), CLOSE_BRACE, NestingOfMembers(members), max);
  }

  lemma {:induction false} ScanPadded(s: Scan, p: Padded, max: nat)
    requires Outside(s) && s.depth <= max && LegalPadded(p)
    ensures ScanAll(s, PrintPadded(p), max) == Expected(s, Nesting(p.value), max)
    decreases p, 1
  {
    ScanConcat(s, p.before, Print(p.value) + p.after, max);
    ScanNeutral(s, p.before, max);
    ScanConcat(s, Print(p.value), p.after, max);
    ScanValue(s, p.value, max);
    ScanNeutral(s, p.after, max);
  }

  lemma ScanSeparated(s: Scan, a: seq<Byte>, m: nat, sep: Byte, b: seq<Byte>, n: nat, max: nat)
    requires Outside(s) && Neutral(sep)
    requires ScanAll(s, a, max) == Expected(s, m, max)
    requires ScanAll(s, b, max) == Expected(s, n, max)
    ensures ScanAll(s, a + ([sep] + b), max) == Expected(s, Max(m, n), max)
  {
    ScanConcat(s, a, [sep] + b, max);
    ScanConcat(s, [sep], b, max);
    ScanOne(s, sep, max);
  }

  lemma {:induction false} ScanElems(s: Scan, e: Elems, max: nat)
    requires Outside(s) && s.depth <= max && LegalElems(e)
    ensures ScanAll(s, PrintElems(e), max) == Expected(s, NestingOfElems(e), max)
    decreases e, 2
  {
    match e
    case NoElems(ws) => ScanNeutral(s, ws, max);
    case LastElem(p) => ScanPadded(s, p, max);
    case MoreElems(p, rest) =>
      ScanPadded(s, p, max);
      ScanElems(s, rest, max);
      ScanSeparated(s, PrintPadded(p), Nesting(p.value), COMMA, PrintElems(rest), NestingOfElems(rest), max);
  }

  lemma {:induction false} ScanMember(s: Scan, m: Member, max: nat)
    requires Outside(s) && s.depth <= max && LegalMember(m)
    ensures ScanAll(s, PrintMember(m), max) == Expected(s, Nesting(m.value.value), max)
    decreases m, 2
  {
    var value := PrintPadded(m.value);
    ScanConcat(s, m.before, PrintString(m.name) + (m.mid + ([COLON] + value)), max);
    ScanNeutral(s, m.before, max);
    ScanConcat(s, PrintString(m.name), m.mid + ([COLON] + value), max);
    ScanString(s, m.name, max);
    ScanNeutral(s, m.mid, max);
    ScanPadded(s, m.value, max);
    ScanSeparated(s, m.mid, 0, COLON, value, Nesting(m.value.value), max);
  }

  lemma {:induction false} ScanMembers(s: Scan, ms: Members, max: nat)
    requires Outside(s) && s.depth <= max && LegalMembers(ms)
    ensures ScanAll(s, PrintMembers(ms), max) == Expected(s, NestingOfMembers(ms), max)
    decreases ms, 3
  {
    match ms
    case NoMembers(ws) => ScanNeutral(s, ws, max);
    case LastMember(m) => ScanMember(s, m, max);
    case MoreMembers(m, rest) =>
      ScanMember(s, m, max);
      ScanMembers(s, rest, max);
      ScanSeparated(s, PrintMember(m), Nesting(m.value.value), COMMA, PrintMembers(rest), NestingOfMembers(rest), max);
  }

  /**
   The scan is exact on every JSON text: whatever the whitespace and the string
   escapes, it reports an excess exactly when the value nests deeper than `max`.
   */
  lemma DepthScanIsExact(document: Padded, max: nat)
    requires LegalPadded(document)
    ensures ExceedsDepth(PrintPadded(document), max) <==> Nesting(document.value) > max
  {
    ScanPadded(START, document, max);
  }

  // ---------------------------------------------------------------------------
  // Any bytes at all

  /** The brackets outside strings, in order: one for an opening one, minus one for a closing one. */
  function Brackets(bytes: seq<Byte>, inString: bool, escaped: bool): seq<int>
    decreases |bytes|
  {
    if bytes == [] then [] else
    var b, rest := bytes[0], bytes[1..];
    if inString && escaped then Brackets(rest, true, false)
    else if b == 34 then Brackets(rest, !inString, false)
    else if inString then Brackets(rest, true, b == 92)
    else (if b == 91 || b == 123 then [1] else if b == 93 || b == 125 then [-1] else []) + Brackets(rest, false, false)
  }

  function Sum(s: seq<int>): int {
    if s == [] then 0 else s[0] + Sum(s[1..])
  }

  /** Some beginning of `s` adds up to more than `max`. */
  ghost predicate Climbs(s: seq<int>, max: int) {
    exists j :: 0 <= j <= |s| && Sum(s[..j]) > max
  }

  /** Some stretch of `s` adds up to more than `max`. */
  ghost predicate ClimbsSomewhere(s: seq<int>, max: int) {
    exists i :: 0 <= i <= |s| && Climbs(s[i..], max)
  }

  lemma ClimbsFromNext(s: seq<int>, max: int)
    requires s != [] && max >= 0
    ensures Climbs(s, max) <==> Climbs(s[1..], max - s[0])
  {
    if Climbs(s, max) {
      var j :| 0 <= j <= |s| && Sum(s[..j]) > max;
      assert j > 0 && s[..j][1..] == s[1..][..j - 1];
    }
    if Climbs(s[1..], max - s[0]) {
      var j :| 0 <= j <= |s[1..]| && Sum(s[1..][..j]) > max - s[0];
      assert s[..j + 1][1..] == s[1..][..j];
    }
  }

  lemma ClimbsSomewhereNext(s: seq<int>, max: int)
    requires s != []
    ensures ClimbsSomewhere(s, max) <==> Climbs(s, max) || ClimbsSomewhere(s[1..], max)
  {
    if ClimbsSomewhere(s, max) {
      var i :| 0 <= i <= |s| && Climbs(s[i..], max);
      if i == 0 {
        assert s[0..] == s;
      } else {
        assert s[1..][i - 1..] == s[i..];
      }
    }
    if Climbs(s, max) {
      assert s[0..] == s;
    } else if ClimbsSomewhere(s[1..], max) {
      var i :| 0 <= i <= |s[1..]| && Climbs(s[1..][i..], max);
      assert s[i + 1..] == s[1..][i..];
    }
  }

  lemma ClimbsLess(s: seq<int>, max: int, less: int)
    requires Climbs(s, max) && less <= max
    ensures Climbs(s, less)
  {
  }

  /** A level that follows the brackets but never goes below zero passes `max`. */
  predicate Passes(depth: nat, s: seq<int>, max: nat)
    decreases |s|
  {
    s != [] &&
    var next := depth + s[0];
    next > max || Passes(if next < 0 then 0 else next, s[1..], max)
  }

  lemma {:induction false} PassesExactly(depth: nat, s: seq<int>, max: nat)
    requires depth <= max && forall i :: 0 <= i < |s| ==> s[i] == 1 || s[i] == -1
    ensures Passes(depth, s, max) <==> Climbs(s, max - depth) || ClimbsSomewhere(s, max)
    decreases |s|
  {
    if s == [] {
      assert !Climbs(s, max - depth);
      forall i | 0 <= i <= |s| ensures !Climbs(s[i..], max) {}
    } else {
      var next := depth + s[0];
      ClimbsFromNext(s, max - depth);
      ClimbsSomewhereNext(s, max);
      if next > max {
        assert Climbs(s[1..], max - next) by {
          assert s[1..][..0] == [];
        }
      } else {
        PassesExactly(if next < 0 then 0 else next, s[1..], max);
        if Climbs(s, max) {
          ClimbsLess(s, max, max - depth);
        }
        if next < 0 && Climbs(s[1..], max - next) {
          ClimbsLess(s[1..], max - next, max);
        }
        if next < 0 && Climbs(s[1..], max) {
          assert s[1..][0..] == s[1..];
        }
      }
    }
  }

  lemma {:induction false} BracketsAreUnits(bytes: seq<Byte>, inString: bool, escaped: bool)
    ensures forall i :: 0 <= i < |Brackets(bytes, inString, escaped)| ==>
      Brackets(bytes, inString, escaped)[i] == 1 || Brackets(bytes, inString, escaped)[i] == -1
    decreases |bytes|
  {
    if bytes != [] {
      BracketsAreUnits(bytes[1..], inString, false);
      BracketsAreUnits(bytes[1..], !inString, false);
      BracketsAreUnits(bytes[1..], true, bytes[0] == 92);
    }
  }

  lemma PassesFirst(depth: nat, rest: seq<int>, max: nat)
    ensures [] + rest == rest
    ensures Passes(depth, [1] + rest, max) <==> depth + 1 > max || Passes(depth + 1, rest, max)
    ensures depth <= max ==>
      (Passes(depth, [-1] + rest, max) <==> Passes(if depth == 0 then 0 else depth - 1, rest, max))
  {
    assert ([1] + rest)[1..] == rest && ([-1] + rest)[1..] == rest;
  }

  lemma {:induction false} ScanPasses(s: Scan, bytes: seq<Byte>, max: nat)
    requires s.depth <= max && (s.escaped ==> s.inString)
    ensures ScanAll(s, bytes, max).None? <==> Passes(s.depth, Brackets(bytes, s.inString, s.escaped), max)
    decreases |bytes|
  {
    if bytes != [] {
      var next := Step(s, bytes[0], max);
      if next.Some? {
        ScanPasses(next.value, bytes[1..], max);
      }
      PassesFirst(s.depth, Brackets(bytes[1..], s.inString, false), max);
    }
  }

  /**
   On every byte string, JSON or not, the scan says exceeded if and only if some stretch of
   it, strings left out, opens more brackets than it closes by more than the limit.
   */
  lemma ScanExactly(payload: seq<Byte>, max: nat)
    ensures ExceedsDepth(payload, max) <==> ClimbsSomewhere(Brackets(payload, false, false), max)
  {
    var s := Brackets(payload, false, false);
    ScanPasses(START, payload, max);
    BracketsAreUnits(payload, false, false);
    PassesExactly(0, s, max);
    if Climbs(s, max) {
      assert s[0..] == s;
    }
  }
}
