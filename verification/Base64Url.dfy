// Base64url (section 5 of RFC 4648) without padding, as the desk share uses it: the printer that
// goes through the standard alphabet, and the parser that restores padding.
module Base64Url {
  import opened Wrappers
  import opened Types

  const CHUNK := 0x8000

  // ----- The standard alphabet -----------------------------------------------------------------

  type Sextet = n: int | 0 <= n < 64

  function CharOf(n: Sextet): char {
    if n < 26 then ('A' as int + n) as char
    else if n < 52 then ('a' as int + (n - 26)) as char
    else if n < 62 then ('0' as int + (n - 52)) as char
    else if n == 62 then '+' else '/'
  }

  function ValueOf(c: char): Option<Sextet> {
    if 'A' <= c <= 'Z' then Some(c as int - 'A' as int)
    else if 'a' <= c <= 'z' then Some(c as int - 'a' as int + 26)
    else if '0' <= c <= '9' then Some(c as int - '0' as int + 52)
    else if c == '+' then Some(62)
    else if c == '/' then Some(63)
    else None
  }

  lemma {:induction false} ValueOfChar(n: Sextet)
    ensures ValueOf(CharOf(n)) == Some(n)
  {
  }

  // Three bytes are four groups of six bits; a last group of one or two bytes is filled up with
  // zero bits.
  function Sextets(bytes: seq<Byte>): (v: seq<Sextet>)
    ensures |v| % 4 != 1
    ensures |v| == 0 <==> bytes == []
  {
    if |bytes| == 0 then []
    else
      var a := bytes[0];
      if |bytes| == 1 then [a / 4, a % 4 * 16]
      else
        var b := bytes[1];
        if |bytes| == 2 then [a / 4, a % 4 * 16 + b / 16, b % 16 * 4]
        else
          var c := bytes[2];
          [a / 4, a % 4 * 16 + b / 16, b % 16 * 4 + c / 64, c % 64] + Sextets(bytes[3..])
  }

  // The bytes that whole groups of six bits spell; spare low bits are dropped.
  function FromSextets(v: seq<Sextet>): seq<Byte> {
    if |v| < 2 then []
    else
      var v0: int, v1: int := v[0], v[1];
      if |v| == 2 then [v0 * 4 + v1 / 16]
      else
        var v2: int := v[2];
        if |v| == 3 then [v0 * 4 + v1 / 16, v1 % 16 * 16 + v2 / 4]
        else
          var v3: int := v[3];
          [v0 * 4 + v1 / 16, v1 % 16 * 16 + v2 / 4, v2 % 4 * 64 + v3] + FromSextets(v[4..])
  }

  function Chars(v: seq<Sextet>): (s: string)
    ensures |s| == |v|
  {
    seq(|v|, i requires 0 <= i < |v| => CharOf(v[i]))
  }

  predicate IsStdChar(c: char) {
    ValueOf(c).Some?
  }

  function SextetOf(c: char): Sextet {
    if IsStdChar(c) then ValueOf(c).value else 0
  }

  function Values(s: string): (v: seq<Sextet>)
    ensures |v| == |s|
  {
    seq(|s|, i requires 0 <= i < |s| => SextetOf(s[i]))
  }

  // How many padding characters complete a text of n characters to whole groups.
  function Missing(n: nat): nat {
    (4 - n % 4) % 4
  }

  function Padding(n: nat): (s: string)
    ensures |s| == n && forall i :: 0 <= i < n ==> s[i] == '='
  {
    seq(n, _ => '=')
  }

  // The host's encoder.
  function Btoa(bytes: seq<Byte>): string {
    Chars(Sextets(bytes)) + Padding(Missing(|Sextets(bytes)|))
  }

  // Up to two padding characters belong to a text of whole groups.
  function Unpadded(s: string): string {
    if |s| > 0 && |s| % 4 == 0 && s[|s| - 1] == '=' then
      if |s| > 1 && s[|s| - 2] == '=' then s[..|s| - 2] else s[..|s| - 1]
    else s
  }

  // The host's decoder.
  function Atob(s: string): Option<seq<Byte>> {
    var u := Unpadded(s);
    if |u| % 4 == 1 || exists i :: 0 <= i < |u| && !IsStdChar(u[i]) then None
    else Some(FromSextets(Values(u)))
  }

  // ----- The URL alphabet ----------------------------------------------------------------------

  function ToUrl(c: char): char {
    if c == '+' then '-' else if c == '/' then '_' else c
  }

  function FromUrl(c: char): char {
    if c == '-' then '+' else if c == '_' then '/' else c
  }

  function Map(f: char -> char, s: string): (r: string)
    ensures |r| == |s| && forall i :: 0 <= i < |s| ==> r[i] == f(s[i])
  {
    seq(|s|, i requires 0 <= i < |s| => f(s[i]))
  }

  function StripPadding(s: string): string {
    if s != "" && s[|s| - 1] == '=' then StripPadding(s[..|s| - 1]) else s
  }

  function Encode(bytes: seq<Byte>): string {
    StripPadding(Map(ToUrl, Btoa(bytes)))
  }

  predicate IsUrlChar(c: char) {
    'A' <= c <= 'Z' || 'a' <= c <= 'z' || '0' <= c <= '9' || c == '-' || c == '_'
  }

  predicate IsUrlText(s: string) {
    s != "" && forall i :: 0 <= i < |s| ==> IsUrlChar(s[i])
  }

  function Decode(value: string): Option<seq<Byte>> {
    if !IsUrlText(value) then None
    else Atob(Map(FromUrl, value) + Padding(Missing(|value|)))
  }

  // ----- Round trip ----------------------------------------------------------------------------

  lemma {:induction false} SextetsRoundTrip(bytes: seq<Byte>)
    ensures FromSextets(Sextets(bytes)) == bytes
  {
    if |bytes| < 3 {
      assert |bytes| == 1 ==> bytes == [bytes[0]];
      assert |bytes| == 2 ==> bytes == [bytes[0], bytes[1]];
    } else {
      SextetsRoundTrip(bytes[3..]);
      assert Sextets(bytes)[4..] == Sextets(bytes[3..]);
      assert bytes == [bytes[0], bytes[1], bytes[2]] + bytes[3..];
    }
  }

  lemma {:induction false} CharsRoundTrip(v: seq<Sextet>)
    ensures forall i :: 0 <= i < |v| ==> IsStdChar(Chars(v)[i])
    ensures Values(Chars(v)) == v
  {
    forall i | 0 <= i < |v|
      ensures ValueOf(Chars(v)[i]) == Some(v[i])
    {
      ValueOfChar(v[i]);
    }
    forall i | 0 <= i < |v|
      ensures IsStdChar(Chars(v)[i])
    {
    }
  }

  lemma {:induction false} StripPadded(s: string, n: nat)
    requires s != "" ==> s[|s| - 1] != '='
    ensures StripPadding(s + Padding(n)) == s
    decreases n
  {
    if n == 0 {
      assert s + Padding(0) == s;
    } else {
      assert (s + Padding(n))[..|s| + n - 1] == s + Padding(n - 1);
      StripPadded(s, n - 1);
    }
  }

  lemma {:induction false} PaddingStays(s: string, n: nat)
    ensures Map(ToUrl, s + Padding(n)) == Map(ToUrl, s) + Padding(n)
  {
    var l, r := Map(ToUrl, s + Padding(n)), Map(ToUrl, s) + Padding(n);
    forall i | 0 <= i < |l|
      ensures |r| == |l| && l[i] == r[i]
    {
      assert l[i] == ToUrl((s + Padding(n))[i]);
    }
  }

  lemma {:induction false} UrlAndBack(s: string)
    requires forall i :: 0 <= i < |s| ==> IsStdChar(s[i])
    ensures Map(FromUrl, Map(ToUrl, s)) == s
  {
    var url := Map(ToUrl, s);
    forall i | 0 <= i < |s|
      ensures Map(FromUrl, url)[i] == s[i]
    {
      assert IsStdChar(s[i]) && url[i] == ToUrl(s[i]);
    }
  }

  lemma {:induction false} EncodeIsUrlChars(bytes: seq<Byte>)
    ensures Encode(bytes) == Map(ToUrl, Chars(Sextets(bytes)))
  {
    var core := Chars(Sextets(bytes));
    CharsRoundTrip(Sextets(bytes));
    PaddingStays(core, Missing(|core|));
    if core != "" {
      assert IsStdChar(core[|core| - 1]);
    }
    StripPadded(Map(ToUrl, core), Missing(|core|));
  }

  lemma {:induction false} UnpaddedCore(s: string)
    requires s != "" && IsStdChar(s[|s| - 1]) && |s| % 4 != 1
    ensures Unpadded(s + Padding(Missing(|s|))) == s
  {
    var p := s + Padding(Missing(|s|));
    if |s| % 4 == 0 {
      assert p == s;
    } else if |s| % 4 == 3 {
      assert p[|p| - 2] == s[|s| - 1];
      assert p[..|p| - 1] == s;
    } else {
      assert p[..|p| - 2] == s;
    }
  }

  // The encoding is a non-empty URL text unless there is nothing to encode.
  lemma {:induction false} EncodeIsUrlText(bytes: seq<Byte>)
    ensures IsUrlText(Encode(bytes)) <==> bytes != []
  {
    EncodeIsUrlChars(bytes);
    CharsRoundTrip(Sextets(bytes));
    var core, url := Chars(Sextets(bytes)), Encode(bytes);
    forall i | 0 <= i < |url|
      ensures IsUrlChar(url[i])
    {
      assert IsStdChar(core[i]);
    }
  }

  // Every non-empty byte string survives; the empty one is refused by the parser.
  lemma {:induction false} DecodeInvertsEncode(bytes: seq<Byte>)
    ensures Decode(Encode(bytes)) == if bytes == [] then None else Some(bytes)
  {
    EncodeIsUrlChars(bytes);
    EncodeIsUrlText(bytes);
    if bytes != [] {
      var core := Chars(Sextets(bytes));
      CharsRoundTrip(Sextets(bytes));
      UrlAndBack(core);
      assert IsStdChar(core[|core| - 1]);
      UnpaddedCore(core);
      SextetsRoundTrip(bytes);
    }
  }

  // ----- What is decoded -------------------------------------------------------------------------

  // The same groups, up to the spare low bits of a last group that is cut short.
  predicate Survives(v: seq<Sextet>, w: seq<Sextet>) {
    |w| == |v| && forall i :: 0 <= i < |v| - (if |v| % 4 == 0 then 0 else 1) ==> w[i] == v[i]
  }

  // Groups that some bytes might have spelled survive being read as bytes.
  lemma {:induction false} SextetsBack(v: seq<Sextet>)
    requires |v| % 4 != 1
    ensures |FromSextets(v)| == |v| * 3 / 4 && Survives(v, Sextets(FromSextets(v)))
  {
    if |v| >= 4 {
      SextetsBack(v[4..]);
      GroupBack(v);
      GroupSurvives(v, Sextets(FromSextets(v)), Sextets(FromSextets(v[4..])));
    } else {
      LastGroupBack(v);
    }
  }

  lemma {:induction false} GroupSurvives(v: seq<Sextet>, w: seq<Sextet>, rest: seq<Sextet>)
    requires |v| >= 4 && w == v[..4] + rest && Survives(v[4..], rest)
    ensures Survives(v, w)
  {
    assert forall i :: 4 <= i < |v| ==> v[4..][i - 4] == v[i];
  }

  // A whole group survives, and the groups behind it are read on their own.
  lemma {:induction false} GroupBack(v: seq<Sextet>)
    requires |v| >= 4
    ensures |FromSextets(v)| == 3 + |FromSextets(v[4..])|
    ensures Sextets(FromSextets(v)) == v[..4] + Sextets(FromSextets(v[4..]))
  {
    var bytes, rest := FromSextets(v), FromSextets(v[4..]);
    assert bytes[3..] == rest;
    assert bytes[0] / 4 == v[0] && bytes[2] % 64 == v[3];
    assert bytes[0] % 4 * 16 + bytes[1] / 16 == v[1];
    assert bytes[1] % 16 * 4 + bytes[2] / 64 == v[2];
  }

  lemma {:induction false} LastGroupBack(v: seq<Sextet>)
    requires |v| < 4 && |v| != 1
    ensures |FromSextets(v)| == |v| * 3 / 4 && Survives(v, Sextets(FromSextets(v)))
  {
    if |v| == 2 {
      PairBack(v[0], v[1]);
      assert v == [v[0], v[1]];
    } else if |v| == 3 {
      TripleBack(v[0], v[1], v[2]);
      assert v == [v[0], v[1], v[2]];
    }
  }

  lemma {:induction false} PairBack(x: Sextet, y: Sextet)
    ensures |FromSextets([x, y])| == 1 && Survives([x, y], Sextets(FromSextets([x, y])))
  {
    var a := x * 4 + y / 16;
    assert FromSextets([x, y]) == [a];
    assert Sextets([a]) == [a / 4, a % 4 * 16] && a / 4 == x;
  }

  lemma {:induction false} TripleBack(x: Sextet, y: Sextet, z: Sextet)
    ensures |FromSextets([x, y, z])| == 2 && Survives([x, y, z], Sextets(FromSextets([x, y, z])))
  {
    var a, b := x * 4 + y / 16, y % 16 * 16 + z / 4;
    assert FromSextets([x, y, z]) == [a, b];
    assert Sextets([a, b]) == [a / 4, a % 4 * 16 + b / 16, b % 16 * 4];
    assert a / 4 == x && a % 4 * 16 + b / 16 == y;
  }

  lemma {:induction false} UrlIsStd(c: char)
    ensures IsUrlChar(c) ==> IsStdChar(FromUrl(c)) && ToUrl(FromUrl(c)) == c
  {
  }

  // A text is decoded exactly when it is a non-empty one of the URL alphabet whose length bytes can
  // spell; three bytes come of four characters; and printing them again gives the text back, up to the
  // spare bits of its last character.
  lemma {:induction false} DecodesExactly(value: string)
    ensures Decode(value).Some? <==>
      value != "" && |value| % 4 != 1 && forall i :: 0 <= i < |value| ==> IsUrlChar(value[i])
    ensures Decode(value).Some? ==>
      var bytes := Decode(value).value;
      && |bytes| == |value| * 3 / 4 && |Encode(bytes)| == |value|
      && forall i :: 0 <= i < |value| - (if |value| % 4 == 0 then 0 else 1) ==> Encode(bytes)[i] == value[i]
  {
    if IsUrlText(value) {
      var core := Map(FromUrl, value);
      forall i | 0 <= i < |value|
        ensures IsStdChar(core[i]) && ToUrl(core[i]) == value[i]
      {
        UrlIsStd(value[i]);
      }
      if |value| % 4 == 1 {
        LongPadding(core);
      } else {
        UnpaddedCore(core);
        PrintedBack(value, core);
      }
    }
  }

  // One character beyond whole groups cannot be completed.
  lemma {:induction false} LongPadding(s: string)
    requires |s| % 4 == 1
    ensures Atob(s + Padding(Missing(|s|))).None?
  {
    var p := s + Padding(Missing(|s|));
    assert p[|p| - 1] == '=' && p[|p| - 2] == '=' && p[|p| - 3] == '=';
    assert Unpadded(p)[|p| - 3] == '=';
  }

  lemma {:induction false} PrintedBack(value: string, core: string)
    requires |core| == |value| && |value| % 4 != 1
    requires forall i :: 0 <= i < |value| ==> IsStdChar(core[i]) && ToUrl(core[i]) == value[i]
    ensures
      var bytes := FromSextets(Values(core));
      && |bytes| == |value| * 3 / 4 && |Encode(bytes)| == |value|
      && forall i :: 0 <= i < |value| - (if |value| % 4 == 0 then 0 else 1) ==> Encode(bytes)[i] == value[i]
  {
    SextetsBack(Values(core));
    EncodeIsUrlChars(FromSextets(Values(core)));
    forall i | 0 <= i < |value|
      ensures ToUrl(CharOf(Values(core)[i])) == value[i]
    {
      CharOfValue(core[i]);
    }
  }

  lemma {:induction false} CharOfValue(c: char)
    requires IsStdChar(c)
    ensures CharOf(SextetOf(c)) == c
  {
  }

  // ----- The loops -----------------------------------------------------------------------------

  function CharCodes(bytes: seq<Byte>): (s: string)
    ensures |s| == |bytes|
  {
    seq(|bytes|, i requires 0 <= i < |bytes| => bytes[i] as char)
  }

  // The encoder's input is a text of character codes below 256.
  function CodesOf(binary: string): (bytes: seq<Byte>)
    requires forall i :: 0 <= i < |binary| ==> binary[i] as int < 256
  {
    seq(|binary|, i requires 0 <= i < |binary| => binary[i] as int)
  }

  // Accumulate the binary text chunk by chunk, then encode it.
  method BytesToBase64Url(bytes: seq<Byte>) returns (s: string)
    ensures s == Encode(bytes)
  {
    var binary := "";
    var i := 0;
    while i < |bytes|
      invariant 0 <= i && binary == CharCodes(bytes[..if i < |bytes| then i else |bytes|])
    {
      var end := if i + CHUNK < |bytes| then i + CHUNK else |bytes|;
      binary := binary + CharCodes(bytes[i..end]);
      assert binary == CharCodes(bytes[..end]);
      i := i + CHUNK;
    }
    assert binary == CharCodes(bytes);
    assert CodesOf(binary) == bytes;
    s := StripPadding(Map(ToUrl, Btoa(CodesOf(binary))));
  }

  method Base64UrlToBytes(value: string) returns (r: Option<seq<Byte>>)
    ensures r == Decode(value)
  {
    if !IsUrlText(value) {
      return None;
    }
    var padded := Map(FromUrl, value) + Padding(Missing(|value|));
    var decoded := Atob(padded);
    if decoded.None? {
      return None;
    }
    var bytes := FillBytes(CharCodes(decoded.value));
    assert bytes[..] == decoded.value;
    r := Some(bytes[..]);
  }

  // Copy character codes into a fresh byte array, index by index.
  method FillBytes(binary: string) returns (bytes: array<Byte>)
    requires forall i :: 0 <= i < |binary| ==> binary[i] as int < 256
    ensures fresh(bytes) && bytes[..] == CodesOf(binary)
  {
    bytes := new Byte[|binary|];
    var i := 0;
    while i < |binary|
      invariant 0 <= i <= |binary|
      invariant forall j :: 0 <= j < i ==> bytes[j] == binary[j] as int
    {
      bytes[i] := binary[i] as int;
      i := i + 1;
    }
  }
}
