// What the desk share parser takes and what it refuses: a tampered token, a cut block, and a payload that
// is not a desk's.
module ShareParsing {
  import opened Wrappers
  import opened Types
  import opened Text
  import opened DeskShare
  import Base64Url

  // ----- The checksum ----------------------------------------------------------------------------

  // Digit k of a byte string printed in hex, most significant first.
  function Nibble(bytes: seq<Byte>, k: nat): nat
    requires k < 2 * |bytes|
  {
    if k % 2 == 0 then bytes[k / 2] / 16 else bytes[k / 2] % 16
  }

  // The letter is this hex digit, in either case.
  predicate Spells(c: char, n: nat)
    requires n < 16
  {
    c == "0123456789abcdef"[n] || c == "0123456789ABCDEF"[n]
  }

  // The field prints the first twelve digits of the digest of the format and the body.
  ghost predicate PrintsDigest(w: World, body: string, c: string)
    requires Sound(w)
  {
    |c| == 12 && forall k :: 0 <= k < 12 ==> Spells(c[k], Nibble(w.sha256("MOSAIC-DESK-V1" + "." + body), k))
  }

  lemma {:induction false} HexAt(bytes: seq<Byte>, k: nat)
    requires k < 2 * |bytes|
    ensures Hex(bytes)[k] == "0123456789abcdef"[Nibble(bytes, k)]
  {
    if 2 <= k {
      HexAt(bytes[1..], k - 2);
      assert bytes[1..][(k - 2) / 2] == bytes[k / 2];
    }
  }

  lemma {:induction false} LowerSpells(c: char, n: nat)
    requires n < 16
    ensures Lower([c])[0] == "0123456789abcdef"[n] <==> Spells(c, n)
  {
  }

  lemma {:induction false} LowerAt(c: string, k: nat, n: nat)
    requires k < |c| && n < 16
    ensures Lower(c)[k] == "0123456789abcdef"[n] <==> Spells(c[k], n)
    ensures Spells(c[k], n) ==> IsLowerHex(c[k]) || 'A' <= c[k] <= 'F'
  {
    LowerSpells(c[k], n);
  }

  // A field that prints the digest in any letter case is twelve hex digits, and its lower case is the
  // checksum; and no other field's is.
  lemma {:induction false} ChecksumIsDigest(w: World, body: string, c: string)
    requires Sound(w)
    ensures IsChecksum(c) && Lower(c) == Checksum(w, body) <==> PrintsDigest(w, body, c)
  {
    if |c| == 12 {
      DigestIsLower(w, body, c);
      if PrintsDigest(w, body, c) {
        assert Lower(c) == Checksum(w, body);
      }
    }
  }

  lemma {:induction false} DigestIsLower(w: World, body: string, c: string)
    requires Sound(w) && |c| == 12
    ensures |Checksum(w, body)| == 12
    ensures forall k :: 0 <= k < 12 ==>
      (Lower(c)[k] == Checksum(w, body)[k] <==> Spells(c[k], Nibble(w.sha256("MOSAIC-DESK-V1" + "." + body), k)))
    ensures PrintsDigest(w, body, c) ==> IsChecksum(c)
  {
    var digest := w.sha256("MOSAIC-DESK-V1" + "." + body);
    forall k | 0 <= k < 12
      ensures Lower(c)[k] == Checksum(w, body)[k] <==> Spells(c[k], Nibble(digest, k))
      ensures Spells(c[k], Nibble(digest, k)) ==> IsLowerHex(c[k]) || 'A' <= c[k] <= 'F'
    {
      HexAt(digest, k);
      LowerAt(c, k, Nibble(digest, k));
    }
  }

  // ----- Tokens ----------------------------------------------------------------------------------

  function Dotted(parts: seq<string>): string {
    if parts == [] then "" else if |parts| == 1 then parts[0] else parts[0] + "." + Dotted(parts[1..])
  }

  // Splitting cuts at every dot and at nothing else.
  lemma {:induction false} SplitIsDotted(s: string)
    ensures Dotted(Split(s)) == s
    ensures forall i :: 0 <= i < |Split(s)| ==> HasNoDot(Split(s)[i])
  {
    if s != "" {
      SplitIsDotted(s[1..]);
      var rest := Split(s[1..]);
      assert s == [s[0]] + s[1..];
      if s[0] == '.' {
        assert ([""] + rest)[1..] == rest;
      } else {
        var parts := [[s[0]] + rest[0]] + rest[1..];
        assert parts[1..] == rest[1..];
      }
    }
  }

  function Token(format: string, body: string, c: string): string {
    format + "." + body + "." + c
  }

  lemma {:induction false} ThreeParts(token: string)
    requires |Split(token)| == 3
    ensures
      var parts := Split(token);
      token == Token(parts[0], parts[1], parts[2]) && HasNoDot(parts[1])
  {
    var parts := Split(token);
    SplitIsDotted(token);
    assert parts[1..][1..] == [parts[2]] && parts[1..][0] == parts[1];
    assert Dotted(parts[1..]) == parts[1] + "." + parts[2];
    assert parts[0] + "." + (parts[1] + "." + parts[2]) == Token(parts[0], parts[1], parts[2]);
  }

  predicate IsPlain(s: string) {
    HasNoDot(s) && HasNoSpace(s)
  }

  // What a token is taken for, once it is out of its block.
  function Taken(w: World, token: string): Result<seq<Byte>, ShareError> {
    PayloadBytes(w, WrapToken(token))
  }

  // Whatever is put into the three fields of a share: another format is not supported, and a checksum
  // field that is not twelve hex digits is malformed; one that does not print the digest of the body
  // that stands before it is wrong, whatever that body decodes to; otherwise the body's bytes come out,
  // if it is base64url.
  lemma {:induction false} FieldsDecide(w: World, format: string, body: string, c: string)
    requires Sound(w) && IsPlain(format) && IsPlain(body) && IsPlain(c)
    ensures Taken(w, Token(format, body, c)) ==
      if format != "MOSAIC-DESK-V1" then Err(UnsupportedFormat)
      else if !IsChecksum(c) then Err(MalformedChecksum)
      else if !PrintsDigest(w, body, c) then Err(WrongChecksum)
      else if Base64Url.Decode(body).None? then Err(Undecodable)
      else Ok(Base64Url.Decode(body).value)
  {
    FieldsSplit(format, body, c);
    NormalizeInvertsWrap(Token(format, body, c));
    ChecksumIsDigest(w, body, c);
  }

  // A body that does not match the twelve digits behind it is refused, and so the whole share.
  lemma {:induction false} TamperedIsRefused(w: World, body: string, c: string)
    requires Sound(w) && IsPlain(body) && IsPlain(c) && IsChecksum(c) && !PrintsDigest(w, body, c)
    ensures ParseDeskShare(w, WrapToken(Token("MOSAIC-DESK-V1", body, c))) == Err(WrongChecksum)
  {
    FormatIsPlain();
    FieldsDecide(w, "MOSAIC-DESK-V1", body, c);
  }

  // The tokens that are taken are exactly those of this format whose checksum prints the digest of
  // their body, in any letter case, and then the body's bytes come out.
  lemma {:induction false} TakesExactly(w: World, token: string, bytes: seq<Byte>)
    requires Sound(w) && HasNoSpace(token)
    ensures Taken(w, token) == Ok(bytes) <==>
      exists body, c :: IsShare(w, token, body, c) && Base64Url.Decode(body) == Some(bytes)
  {
    NormalizeInvertsWrap(token);
    var parts := Split(token);
    if Taken(w, token) == Ok(bytes) {
      ThreeParts(token);
      ChecksumIsDigest(w, parts[1], parts[2]);
      assert IsShare(w, token, parts[1], parts[2]);
    }
    forall body, c | IsShare(w, token, body, c) && Base64Url.Decode(body) == Some(bytes)
      ensures Taken(w, token) == Ok(bytes)
    {
      ChecksumIsDigest(w, body, c);
      HexHasNoDot(c);
      FormatIsPlain();
      FieldsSplit("MOSAIC-DESK-V1", body, c);
    }
  }

  ghost predicate IsShare(w: World, token: string, body: string, c: string)
    requires Sound(w)
  {
    token == Token("MOSAIC-DESK-V1", body, c) && HasNoDot(body) && PrintsDigest(w, body, c)
  }

  lemma {:induction false} HexHasNoDot(c: string)
    requires IsChecksum(c)
    ensures HasNoDot(c)
  {
  }

  lemma {:induction false} RunOfPlain(s: string, width: nat)
    requires HasNoSpace(s)
    ensures RunLength(s, width) == if |s| < width then |s| else width
  {
    if width != 0 && s != "" {
      RunOfPlain(s[1..], width - 1);
    }
  }

  // A token is cut into lines of 76 characters, the last of which may be shorter but not empty.
  lemma {:induction false} LinesAre76(token: string)
    requires HasNoSpace(token)
    ensures Flat(Lines(token)) == token
    ensures forall i :: 0 <= i < |Lines(token)| ==>
      if i < |Lines(token)| - 1 then |Lines(token)[i]| == 76 else 0 < |Lines(token)[i]| <= 76
    decreases |token|
  {
    LinesKeepToken(token);
    if token != "" {
      var n := if |token| < 76 then |token| else 76;
      RunOfPlain(token, 76);
      LinesAre76(token[n..]);
      assert Lines(token) == [token[..n]] + Lines(token[n..]);
    }
  }

  // ----- Blocks ----------------------------------------------------------------------------------

  lemma {:induction false} IndexIsFirst(s: string, pattern: string, i: nat)
    ensures
      var r := IndexOf(s, pattern, i);
      && (r.None? ==> forall k :: i <= k ==> !MatchesAt(s, pattern, k))
      && (r.Some? ==>
            && i <= r.value && MatchesAt(s, pattern, r.value)
            && forall k :: i <= k < r.value ==> !MatchesAt(s, pattern, k))
    decreases |s| - i
  {
    if i + |pattern| <= |s| && !MatchesAt(s, pattern, i) && i < |s| {
      IndexIsFirst(s, pattern, i + 1);
    }
  }

  // A marker stands somewhere in the text.
  ghost predicate Occurs(text: string, marker: string) {
    exists k: nat :: MatchesAt(text, marker, k)
  }

  // A header stands before the first footer.
  ghost predicate Framed(text: string, header: string, footer: string) {
    exists i: nat, j: nat ::
      && MatchesAt(text, header, i) && MatchesAt(text, footer, j) && i < j
      && forall k :: 0 <= k < j ==> !MatchesAt(text, footer, k)
  }

  lemma {:induction false} CutExactly(text: string, header: string, footer: string)
    ensures Between(text, header, footer) == Err(IncompleteBlock) <==>
      (Occurs(text, header) || Occurs(text, footer)) && !Framed(text, header, footer)
    ensures Between(text, header, footer).Err? ==> Between(text, header, footer) == Err(IncompleteBlock)
  {
    IndexIsFirst(text, header, 0);
    IndexIsFirst(text, footer, 0);
  }

  // A text is refused as an incomplete block exactly when it carries a marker but no header before its
  // first footer.
  lemma {:induction false} IncompleteExactly(input: string)
    ensures NormalizeToken(input) == Err(IncompleteBlock) <==>
      (Occurs(Trim(input), HEADER) || Occurs(Trim(input), FOOTER)) && !Framed(Trim(input), HEADER, FOOTER)
  {
    CutExactly(Trim(input), HEADER, FOOTER);
  }

  // A token pasted without its block is the same token.
  lemma {:induction false} BareTokenIsTaken(w: World, token: string)
    requires HasNoSpace(token)
    ensures PayloadBytes(w, token) == Taken(w, token)
  {
    NormalizeInvertsWrap(token);
    NoSpace(token);
    Markers();
    NothingToRemove(token);
    MarkerNeedsSpace(token, HEADER, 10);
    MarkerNeedsSpace(token, FOOTER, 8);
  }

  lemma {:induction false} MarkerNeedsSpace(token: string, marker: string, o: nat)
    requires HasNoSpace(token) && o < |marker| && marker[o] == ' '
    ensures IndexOf(token, marker, 0) == None
  {
    IndexIsFirst(token, marker, 0);
    forall k: nat
      ensures !MatchesAt(token, marker, k)
    {
      DiffersAt(token, marker, k, o);
    }
  }

  // ----- Payloads --------------------------------------------------------------------------------

  // The object has every field of another, whatever else it has.
  predicate Carries(v: Json, o: Json)
    requires o.Object?
  {
    v.Object? && forall k :: k in o.fields ==> k in v.fields && v.fields[k] == o.fields[k]
  }

  // A listed asset as validation returns it: its symbol trimmed and in upper case.
  function Shouted(w: World, a: Asset): Asset {
    a.(symbol := w.upper(Trim(a.symbol)))
  }

  predicate ValidAsset(a: Asset) {
    0 <= a.assetId <= 0x1F_FFFF_FFFF_FFFF && 0 <= a.decimals <= 0x1F_FFFF_FFFF_FFFF && Trim(a.symbol) != ""
  }

  // A listed value reads as this asset.
  ghost predicate ReadsAsset(w: World, v: Json, r: Asset) {
    exists a :: Carries(v, AssetJson(a)) && ValidAsset(a) && r == Shouted(w, a)
  }

  predicate ReadsPair(v: Json, r: Pair) {
    Carries(v, PairJson(r)) && CleanPair(r)
  }

  lemma {:induction false} AssetExactly(w: World, v: Json, r: Asset)
    ensures AssertAsset(w, v) == Ok(r) <==> ReadsAsset(w, v, r)
  {
    if AssertAsset(w, v) == Ok(r) {
      AssetCarried(w, v, r);
    }
    if ReadsAsset(w, v, r) {
      var a :| Carries(v, AssetJson(a)) && ValidAsset(a) && r == Shouted(w, a);
      AssetTaken(w, v, a);
    }
  }

  lemma {:induction false} AssetCarried(w: World, v: Json, r: Asset)
    requires AssertAsset(w, v) == Ok(r)
    ensures ReadsAsset(w, v, r)
  {
    var a := r.(symbol := v.fields[Symbol].text);
    assert ValidAsset(a) && r == Shouted(w, a);
    assert Carries(v, AssetJson(a));
  }

  lemma {:induction false} AssetTaken(w: World, v: Json, a: Asset)
    requires Carries(v, AssetJson(a)) && ValidAsset(a)
    ensures AssertAsset(w, v) == Ok(Shouted(w, a))
  {
    KindNamesDiffer();
    var o := AssetJson(a).fields;
    assert AssetId in o && Symbol in o && Field.Token in o && Decimals in o && Kind in o;
  }

  lemma {:induction false} PairExactly(v: Json, r: Pair)
    ensures AssertPair(v) == Ok(r) <==> ReadsPair(v, r)
  {
    var o := PairJson(r).fields;
    assert PairId in o && BaseAsset in o && QuoteAsset in o;
  }

  lemma {:induction false} AssetsExactly(w: World, vs: seq<Json>, rs: seq<Asset>)
    ensures AssertAssets(w, vs) == Ok(rs)
       <==> |vs| == |rs| && forall i :: 0 <= i < |vs| ==> ReadsAsset(w, vs[i], rs[i])
  {
    if vs != [] {
      if rs != [] {
        AssetExactly(w, vs[0], rs[0]);
        AssetsExactly(w, vs[1..], rs[1..]);
        assert rs == [rs[0]] + rs[1..];
      }
    }
  }

  lemma {:induction false} PairsExactly(vs: seq<Json>, rs: seq<Pair>)
    ensures AssertPairs(vs) == Ok(rs)
       <==> |vs| == |rs| && forall i :: 0 <= i < |vs| ==> ReadsPair(vs[i], rs[i])
  {
    if vs != [] {
      if rs != [] {
        PairExactly(vs[0], rs[0]);
        PairsExactly(vs[1..], rs[1..]);
        assert rs == [rs[0]] + rs[1..];
      }
    }
  }

  // The field holds a list whose items read, one by one, as these.
  ghost predicate ListsAssets(w: World, v: Option<Json>, rs: seq<Asset>) {
    && v.Some? && v.value.List? && |v.value.items| == |rs|
    && (forall i :: 0 <= i < |rs| ==> ReadsAsset(w, v.value.items[i], rs[i]))
  }

  ghost predicate ListsPairs(v: Option<Json>, rs: seq<Pair>) {
    && v.Some? && v.value.List? && |v.value.items| == |rs|
    && (forall i :: 0 <= i < |rs| ==> ReadsPair(v.value.items[i], rs[i]))
  }

  lemma {:induction false} HeadExactly(f: map<Field, Json>, h: Head)
    ensures DecodeHead(f) == Ok(h) <==> HeadIn(f, h) && CleanHead(h)
  {
    if HeadIn(f, h) {
      HeadReads(f, h);
    }
  }

  // The payloads that validation takes are exactly the objects of version 1 that carry a head with every
  // text present, at least one asset and only valid ones, and only valid pairs; and then it returns that
  // desk, with the symbols trimmed and in upper case and a missing Base deployment as null.
  lemma {:induction false} PayloadExactly(w: World, v: Json, s: Share)
    ensures DecodePayload(w, v) == Ok(s) <==>
      && v.Object? && Get(v.fields, Version) == Some(Integer(1))
      && HeadIn(v.fields, HeadOf(s)) && CleanHead(HeadOf(s))
      && s.desk.assets != [] && ListsAssets(w, Get(v.fields, Assets), s.desk.assets)
      && ListsPairs(Get(v.fields, Pairs), s.desk.pairs)
      && s.desk.baseDeployment == (if BaseDeployment in v.fields then v.fields[BaseDeployment] else Null)
  {
    if v.Object? {
      var assets, pairs := Get(v.fields, Assets), Get(v.fields, Pairs);
      HeadExactly(v.fields, HeadOf(s));
      if assets.Some? && assets.value.List? {
        AssetsExactly(w, assets.value.items, s.desk.assets);
      }
      if pairs.Some? && pairs.value.List? {
        PairsExactly(pairs.value.items, s.desk.pairs);
      }
    }
  }
}
