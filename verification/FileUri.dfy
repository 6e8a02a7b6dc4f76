/** `file:///` URIs for cached images (toast_xml.rs `file_uri`, toastxml.go `fileURI`). */
module FileUri {
  import opened Model
  import opened XmlText

  const SCHEME: string := "file:///"
  const SLASH: Byte := 47
  const BACKSLASH: Byte := 92

  function ForwardSlashes(path: seq<Byte>): (r: seq<Byte>)
    ensures |r| == |path|
  {
    seq(|path|, i requires 0 <= i < |path| => if path[i] == BACKSLASH then SLASH else path[i])
  }

  /** Forward slashes, with at most one leading slash removed. */
  function NormalPath(path: seq<Byte>): seq<Byte> {
    var p := ForwardSlashes(path);
    if p != [] && p[0] == SLASH then p[1..] else p
  }

  /** Kept as they are: the unreserved characters of section 2.3 of RFC 3986, `/` and `:`. */
  predicate IsSafe(b: Byte) {
    65 <= b <= 90 || 97 <= b <= 122 || 48 <= b <= 57
    || b == 45 || b == 46 || b == 95 || b == 126 || b == 47 || b == 58
  }

  function HexDigit(n: int): char
    requires 0 <= n < 16
  {
    "0123456789ABCDEF"[n]
  }

  function EncodeByte(b: Byte): string {
    if IsSafe(b) then [b as int as char] else ['%', HexDigit(b as int / 16), HexDigit(b as int % 16)]
  }

  function PercentEncode(bytes: seq<Byte>): string {
    if bytes == [] then [] else EncodeByte(bytes[0]) + PercentEncode(bytes[1..])
  }

  function FileUriOf(path: seq<Byte>): string {
    SCHEME + PercentEncode(NormalPath(path))
  }

  lemma EncodeNext(encoded: string, p: seq<Byte>, i: nat)
    requires i < |p|
    ensures encoded + PercentEncode(p[i..]) == (encoded + EncodeByte(p[i])) + PercentEncode(p[i + 1..])
  {
    assert p[i..][0] == p[i] && p[i..][1..] == p[i + 1..];
    Regroup(encoded, EncodeByte(p[i]), PercentEncode(p[i + 1..]));
  }

  method BuildFileUri(path: seq<Byte>) returns (uri: string)
    ensures uri == FileUriOf(path)
  {
    var p := NormalPath(path);
    var encoded: string := [];
    for i := 0 to |p|
      invariant encoded + PercentEncode(p[i..]) == PercentEncode(p)
    {
      EncodeNext(encoded, p, i);
      ghost var next := encoded + EncodeByte(p[i]);
      if IsSafe(p[i]) {
        encoded := encoded + [p[i] as int as char];
      } else {
        encoded := encoded + ['%', HexDigit(p[i] as int / 16), HexDigit(p[i] as int % 16)];
      }
      assert encoded == next;
    }
    assert p[|p|..] == [];
    uri := SCHEME + encoded;
  }

  function HexValue(c: char): Option<int> {
    if '0' <= c <= '9' then Some(c as int - '0' as int)
    else if 'A' <= c <= 'F' then Some(c as int - 'A' as int + 10)
    else if 'a' <= c <= 'f' then Some(c as int - 'a' as int + 10)
    else None
  }

  /** A reader of percent-encoded text (section 2.1 of RFC 3986). */
  function PercentDecode(s: string): Option<seq<Byte>> {
    if s == [] then Some([])
    else if s[0] == '%' then
      if |s| < 3 || HexValue(s[1]).None? || HexValue(s[2]).None? then None else
      var rest := PercentDecode(s[3..]);
      if rest.None? then None
      else Some([(HexValue(s[1]).value * 16 + HexValue(s[2]).value) as Byte] + rest.value)
    else if s[0] as int >= 128 then None
    else
      var rest := PercentDecode(s[1..]);
      if rest.None? then None else Some([s[0] as int as Byte] + rest.value)
  }

  lemma HexRoundTrip(n: int)
    requires 0 <= n < 16
    ensures HexValue(HexDigit(n)) == Some(n)
    ensures HexDigit(n) != '%'
  {
  }

  lemma DecodeSafeByte(b: Byte, rest: string)
    requires IsSafe(b) && PercentDecode(rest).Some?
    ensures PercentDecode([b as int as char] + rest) == Some([b] + PercentDecode(rest).value)
  {
    var s := [b as int as char] + rest;
    assert s[0] != '%';
    assert s[1..] == rest;
  }

  lemma DecodeEscapedByte(b: Byte, rest: string)
    requires PercentDecode(rest).Some?
    ensures PercentDecode(['%', HexDigit(b as int / 16), HexDigit(b as int % 16)] + rest)
         == Some([b] + PercentDecode(rest).value)
  {
    var h, l := b as int / 16, b as int % 16;
    HexRoundTrip(h);
    HexRoundTrip(l);
    var s := ['%', HexDigit(h), HexDigit(l)] + rest;
    assert s[0] == '%' && s[1] == HexDigit(h) && s[2] == HexDigit(l);
    assert s[3..] == rest;
    assert h * 16 + l == b as int;
  }

  lemma DecodeOneByte(b: Byte, rest: string)
    requires PercentDecode(rest).Some?
    ensures PercentDecode(EncodeByte(b) + rest) == Some([b] + PercentDecode(rest).value)
  {
    if IsSafe(b) {
      DecodeSafeByte(b, rest);
    } else {
      DecodeEscapedByte(b, rest);
    }
  }

  /** Decoding what was encoded returns it. */
  lemma {:induction false} PercentRoundTrip(bytes: seq<Byte>)
    ensures PercentDecode(PercentEncode(bytes)) == Some(bytes)
  {
    if bytes == [] {
    } else {
      PercentRoundTrip(bytes[1..]);
      DecodeOneByte(bytes[0], PercentEncode(bytes[1..]));
      assert bytes == [bytes[0]] + bytes[1..];
    }
  }

  /** The unreserved characters of section 2.3 of RFC 3986, slash and colon. */
  predicate StaysPlain(c: char) {
    'A' <= c <= 'Z' || 'a' <= c <= 'z' || '0' <= c <= '9'
    || c == '-' || c == '.' || c == '_' || c == '~' || c == '/' || c == ':'
  }

  predicate IsUriChar(c: char) {
    StaysPlain(c) || c == '%'
  }

  predicate IsUpperHex(c: char) {
    '0' <= c <= '9' || 'A' <= c <= 'F'
  }

  /** Only plain characters, and upper-case triplets for exactly the bytes that are not plain (section 6.2.2). */
  predicate IsNormalForm(s: string) {
    if s == [] then true
    else if s[0] == '%' then
      && |s| >= 3 && IsUpperHex(s[1]) && IsUpperHex(s[2])
      && !StaysPlain((HexValue(s[1]).value * 16 + HexValue(s[2]).value) as char)
      && IsNormalForm(s[3..])
    else StaysPlain(s[0]) && IsNormalForm(s[1..])
  }

  lemma NormalTriplet(b: Byte, rest: string)
    requires !StaysPlain(b as int as char) && IsNormalForm(rest)
    ensures IsNormalForm(['%', HexDigit(b as int / 16), HexDigit(b as int % 16)] + rest)
  {
    var h, l := b as int / 16, b as int % 16;
    HexRoundTrip(h);
    HexRoundTrip(l);
    var s := ['%', HexDigit(h), HexDigit(l)] + rest;
    assert s[1] == HexDigit(h) && s[2] == HexDigit(l) && s[3..] == rest;
    assert h * 16 + l == b as int;
  }

  lemma {:induction false} EncodingIsNormal(bytes: seq<Byte>)
    ensures IsNormalForm(PercentEncode(bytes))
  {
    if bytes != [] {
      var b, rest := bytes[0], PercentEncode(bytes[1..]);
      EncodingIsNormal(bytes[1..]);
      assert IsSafe(b) <==> StaysPlain(b as int as char);
      if IsSafe(b) {
        assert ([b as int as char] + rest)[1..] == rest;
      } else {
        NormalTriplet(b, rest);
      }
    }
  }

  lemma HexDigitOfValue(c: char)
    requires IsUpperHex(c)
    ensures HexValue(c).Some? && 0 <= HexValue(c).value < 16 && HexDigit(HexValue(c).value) == c
  {
  }

  lemma ByteOfDigits(b: Byte, c: char, d: char)
    requires IsUpperHex(c) && IsUpperHex(d) && b as int == HexValue(c).value * 16 + HexValue(d).value
    requires !StaysPlain(b as int as char)
    ensures EncodeByte(b) == ['%', c, d]
  {
    HexDigitOfValue(c);
    HexDigitOfValue(d);
    assert b as int / 16 == HexValue(c).value && b as int % 16 == HexValue(d).value;
  }

  lemma TripletDecodes(s: string, bytes: seq<Byte>)
    requires |s| >= 3 && s[0] == '%' && PercentDecode(s) == Some(bytes)
    ensures HexValue(s[1]).Some? && HexValue(s[2]).Some? && PercentDecode(s[3..]).Some?
    ensures bytes != [] && bytes[0] as int == HexValue(s[1]).value * 16 + HexValue(s[2]).value
    ensures bytes[1..] == PercentDecode(s[3..]).value
  {
    assert bytes == [bytes[0]] + PercentDecode(s[3..]).value;
  }

  lemma TripletEncodes(s: string, bytes: seq<Byte>)
    requires |s| >= 3 && s[0] == '%' && IsNormalForm(s) && PercentDecode(s) == Some(bytes)
    ensures bytes != [] && PercentDecode(s[3..]) == Some(bytes[1..]) && EncodeByte(bytes[0]) == s[..3]
  {
    TripletDecodes(s, bytes);
    ByteOfDigits(bytes[0], s[1], s[2]);
    assert s[..3] == ['%', s[1], s[2]];
  }

  lemma PlainEncodes(s: string, bytes: seq<Byte>)
    requires s != [] && s[0] != '%' && IsNormalForm(s) && PercentDecode(s) == Some(bytes)
    ensures bytes != [] && PercentDecode(s[1..]) == Some(bytes[1..]) && EncodeByte(bytes[0]) == s[..1]
  {
    assert bytes[0] as int == s[0] as int && bytes[1..] == PercentDecode(s[1..]).value;
    assert s[..1] == [s[0]];
  }

  lemma {:induction false} NormalFormEncodes(s: string, bytes: seq<Byte>)
    requires IsNormalForm(s) && PercentDecode(s) == Some(bytes)
    ensures PercentEncode(bytes) == s
    decreases |s|
  {
    if s == [] {
    } else if s[0] == '%' {
      TripletEncodes(s, bytes);
      NormalFormEncodes(s[3..], bytes[1..]);
      assert s == s[..3] + s[3..];
    } else {
      PlainEncodes(s, bytes);
      NormalFormEncodes(s[1..], bytes[1..]);
      assert s == s[..1] + s[1..];
    }
  }

  /**
   The encoding of some bytes is exactly the normal form that decodes to them: a byte is
   kept as it is if and only if it is plain, and every other one is an upper-case triplet.
   */
  lemma EncodesExactly(s: string, bytes: seq<Byte>)
    ensures s == PercentEncode(bytes) <==> IsNormalForm(s) && PercentDecode(s) == Some(bytes)
  {
    PercentRoundTrip(bytes);
    EncodingIsNormal(bytes);
    if IsNormalForm(s) && PercentDecode(s) == Some(bytes) {
      NormalFormEncodes(s, bytes);
    }
  }

  lemma {:induction false} EncodedCharacters(bytes: seq<Byte>)
    ensures forall i :: 0 <= i < |PercentEncode(bytes)| ==> IsUriChar(PercentEncode(bytes)[i])
  {
    if bytes != [] {
      EncodedCharacters(bytes[1..]);
      var e := EncodeByte(bytes[0]);
      assert forall i :: 0 <= i < |e| ==> IsUriChar(e[i]);
    }
  }

  /** The URI holds only unreserved characters, `/`, `:` and `%XX`, so XML escaping leaves it alone. */
  lemma UriNeedsNoEscaping(path: seq<Byte>)
    ensures forall i :: 0 <= i < |FileUriOf(path)| ==> IsUriChar(FileUriOf(path)[i])
    ensures XmlEscape(FileUriOf(path)) == FileUriOf(path)
  {
    var body := PercentEncode(NormalPath(path));
    var uri := SCHEME + body;
    EncodedCharacters(NormalPath(path));
    forall i | 0 <= i < |uri| ensures IsUriChar(uri[i]) {
      if i < |SCHEME| {
        assert uri[i] == SCHEME[i];
      } else {
        assert uri[i] == body[i - |SCHEME|];
      }
    }
    EscapeOfPlain(uri);
  }

  /** The number of leading slashes, of either kind, that the URI leaves out. */
  function Skipped(path: seq<Byte>): nat {
    if path != [] && (path[0] == 47 || path[0] == 92) then 1 else 0
  }

  /** `p` is `path` with backslashes turned into slashes and its first slash, if it begins with one, left out. */
  predicate IsSlashed(path: seq<Byte>, p: seq<Byte>) {
    && |p| == |path| - Skipped(path)
    && forall i :: 0 <= i < |p| ==>
         p[i] == if path[i + Skipped(path)] == 92 then 47 else path[i + Skipped(path)]
  }

  /** The URI is in normal form, and its reader gets back the path up to the kind and the leading one of its slashes. */
  lemma UriReadsBack(path: seq<Byte>)
    ensures "file:///" <= FileUriOf(path)
    ensures var body := FileUriOf(path)[8..];
      IsNormalForm(body) && PercentDecode(body).Some? && IsSlashed(path, PercentDecode(body).value)
  {
    var body := PercentEncode(NormalPath(path));
    assert FileUriOf(path)[8..] == body;
    EncodesExactly(body, NormalPath(path));
  }
}
