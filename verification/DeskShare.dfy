// Desk share tokens: a desk printed as a checksummed, line-wrapped base64url block, and the parser
// that takes such a block back. JSON and SHA-256 are functions of the surrounding world.
module DeskShare {
  import opened Wrappers
  import opened Types
  import opened Text
  import Base64Url

  const FORMAT := "MOSAIC-DESK-V1"
  const HEADER := "-----BEGIN MOSAIC DESK-----"
  const FOOTER := "-----END MOSAIC DESK-----"
  const CHECKSUM_HEX := 12
  const LINE_WIDTH := 76
  const MAX_SAFE_INTEGER := 0x1F_FFFF_FFFF_FFFF

  datatype ShareError =
    | IncompleteBlock
    | UnsupportedFormat
    | MalformedChecksum
    | WrongChecksum
    | Undecodable
    | NotAnObject
    | UnsupportedVersion
    | NoAssets
    | BadPairs
    | MissingText
    | BadLedger
    | BadAsset
    | BadPair

  // ----- Wrapping ------------------------------------------------------------------------------

  predicate IsTerminator(c: char) {
    c == '\n' || c == '\r' || c == '\U{2028}' || c == '\U{2029}'
  }

  // How many of the next characters, up to a line's width, precede a line terminator.
  function RunLength(s: string, width: nat): (n: nat)
    ensures n <= |s| && n <= width
    ensures 0 < width && s != "" && !IsTerminator(s[0]) ==> 0 < n
  {
    if width == 0 || s == "" || IsTerminator(s[0]) then 0 else 1 + RunLength(s[1..], width - 1)
  }

  function Lines(s: string): seq<string>
    decreases |s|
  {
    if s == "" then []
    else if IsTerminator(s[0]) then Lines(s[1..])
    else
      var n := RunLength(s, LINE_WIDTH);
      [s[..n]] + Lines(s[n..])
  }

  function Joined(lines: seq<string>): string {
    if lines == [] then "" else if |lines| == 1 then lines[0] else lines[0] + "\n" + Joined(lines[1..])
  }

  // A token's lines between the two markers.
  function WrapBody(token: string): string {
    var lines := Lines(token);
    "\n" + Joined(if lines == [] then [token] else lines) + "\n"
  }

  function WrapToken(token: string): string {
    HEADER + WrapBody(token) + FOOTER
  }

  function WithoutSpace(s: string): string {
    if s == "" then ""
    else if IsSpace(s[0]) then WithoutSpace(s[1..])
    else [s[0]] + WithoutSpace(s[1..])
  }

  predicate MatchesAt(s: string, pattern: string, i: nat) {
    i + |pattern| <= |s| && s[i..i + |pattern|] == pattern
  }

  function IndexOf(s: string, pattern: string, i: nat): (r: Option<nat>)
    ensures r.Some? ==> i <= r.value && MatchesAt(s, pattern, r.value)
    decreases |s| - i
  {
    if i + |pattern| > |s| then None
    else if MatchesAt(s, pattern, i) then Some(i)
    else if i < |s| then IndexOf(s, pattern, i + 1)
    else None
  }

  function NormalizeToken(input: string): Result<string, ShareError> {
    Between(Trim(input), HEADER, FOOTER)
  }

  // What stands between the first header and the first footer, or the whole text without either.
  function Between(text: string, header: string, footer: string): Result<string, ShareError> {
    var start, end := IndexOf(text, header, 0), IndexOf(text, footer, 0);
    if start.None? && end.None? then Ok(WithoutSpace(text))
    else if start.None? || end.None? || end.value <= start.value then Err(IncompleteBlock)
    else
      var from := start.value + |header|;
      Ok(WithoutSpace(if from <= end.value then text[from..end.value] else ""))
  }

  predicate HasNoSpace(s: string) {
    forall i :: 0 <= i < |s| ==> !IsSpace(s[i])
  }

  lemma {:induction false} WithoutSpaceConcat(a: string, b: string)
    ensures WithoutSpace(a + b) == WithoutSpace(a) + WithoutSpace(b)
  {
    if a == "" {
      assert a + b == b;
    } else {
      WithoutSpaceConcat(a[1..], b);
      assert (a + b)[1..] == a[1..] + b;
    }
  }

  lemma {:induction false} NothingToRemove(s: string)
    requires HasNoSpace(s)
    ensures WithoutSpace(s) == s
  {
    if s != "" {
      NothingToRemove(s[1..]);
    }
  }

  function Flat(lines: seq<string>): string {
    if lines == [] then "" else lines[0] + Flat(lines[1..])
  }

  lemma {:induction false} LinesKeepToken(s: string)
    requires HasNoSpace(s)
    ensures Flat(Lines(s)) == s
    ensures forall i :: 0 <= i < |Lines(s)| ==> HasNoSpace(Lines(s)[i])
    decreases |s|
  {
    if s != "" {
      var n := RunLength(s, LINE_WIDTH);
      LinesKeepToken(s[n..]);
      assert Lines(s) == [s[..n]] + Lines(s[n..]);
      assert s == s[..n] + s[n..];
    }
  }

  // Joined lines carry the lines' characters and newlines, and no other space.
  lemma {:induction false} JoinedLines(lines: seq<string>)
    requires forall i :: 0 <= i < |lines| ==> HasNoSpace(lines[i])
    ensures WithoutSpace(Joined(lines)) == Flat(lines)
    ensures forall i :: 0 <= i < |Joined(lines)| ==> Joined(lines)[i] != ' '
  {
    if |lines| == 1 {
      NothingToRemove(lines[0]);
      assert Flat(lines) == lines[0] + Flat(lines[1..]) == lines[0];
    } else if |lines| > 1 {
      JoinedLines(lines[1..]);
      NothingToRemove(lines[0]);
      WithoutSpaceConcat(lines[0] + "\n", Joined(lines[1..]));
      WithoutSpaceConcat(lines[0], "\n");
      assert WithoutSpace("\n") == WithoutSpace("\n"[1..]) == "";
    }
  }

  // Where the two marker lines have spaces, and one letter that tells them apart.
  predicate AreMarkers(header: string, footer: string) {
    && |header| == 27 && |footer| == 25
    && (forall i :: 0 <= i < 27 ==> (header[i] == ' ' <==> i == 10 || i == 17))
    && (forall i :: 0 <= i < 25 ==> (footer[i] == ' ' <==> i == 8 || i == 15))
    && header[7] != footer[5] && !IsSpace(header[0]) && !IsSpace(footer[24])
  }

  lemma {:induction false} Markers()
    ensures AreMarkers(HEADER, FOOTER)
  {
  }

  lemma {:induction false} DiffersAt(s: string, pattern: string, i: nat, o: nat)
    requires o < |pattern| && (i + |pattern| <= |s| ==> s[i + o] != pattern[o])
    ensures !MatchesAt(s, pattern, i)
  {
    if i + |pattern| <= |s| {
      assert s[i..i + |pattern|][o] == s[i + o];
    }
  }

  // The footer cannot appear before its own line, because the lines between carry no space.
  lemma {:induction false} NoEarlyFooter(header: string, body: string, footer: string, j: nat)
    requires AreMarkers(header, footer) && (forall i :: 0 <= i < |body| ==> body[i] != ' ')
    requires j < |header| + |body|
    ensures !MatchesAt(header + body + footer, footer, j)
  {
    var text := header + body + footer;
    DiffersAt(text, footer, j, if j == 2 then 5 else if j == 9 then 15 else 8);
  }

  lemma {:induction false} FirstIndex(s: string, pattern: string, i: nat, k: nat)
    requires i <= k && MatchesAt(s, pattern, k)
    requires forall j :: i <= j < k ==> !MatchesAt(s, pattern, j)
    ensures IndexOf(s, pattern, i) == Some(k)
    decreases k - i
  {
    if i < k {
      FirstIndex(s, pattern, i + 1, k);
    }
  }

  lemma {:induction false} BlockIsTrimmed(header: string, body: string, footer: string)
    requires AreMarkers(header, footer)
    ensures Trim(header + body + footer) == header + body + footer
  {
    var text := header + body + footer;
    assert text[0] == header[0] && text[|text| - 1] == footer[24];
    NoSpace(text);
  }

  lemma {:induction false} BlockParts(header: string, body: string, footer: string)
    ensures MatchesAt(header + body + footer, header, 0)
    ensures MatchesAt(header + body + footer, footer, |header| + |body|)
    ensures (header + body + footer)[|header|..|header| + |body|] == body
  {
    var text, end := header + body + footer, |header| + |body|;
    assert text[end..end + |footer|] == footer;
  }

  lemma {:induction false} FirstFooter(header: string, body: string, footer: string)
    requires AreMarkers(header, footer) && (forall i :: 0 <= i < |body| ==> body[i] != ' ')
    ensures IndexOf(header + body + footer, footer, 0) == Some(|header| + |body|)
  {
    forall j | 0 <= j < |header| + |body|
      ensures !MatchesAt(header + body + footer, footer, j)
    {
      NoEarlyFooter(header, body, footer, j);
    }
    BlockParts(header, body, footer);
    FirstIndex(header + body + footer, footer, 0, |header| + |body|);
  }

  lemma {:induction false} BlockBetween(header: string, body: string, footer: string)
    requires AreMarkers(header, footer) && (forall i :: 0 <= i < |body| ==> body[i] != ' ')
    ensures Between(header + body + footer, header, footer) == Ok(WithoutSpace(body))
  {
    BlockParts(header, body, footer);
    FirstIndex(header + body + footer, header, 0, 0);
    FirstFooter(header, body, footer);
  }

  // Between the markers, a wrapped token is its lines and newlines only.
  lemma {:induction false} WrappedLines(token: string)
    requires HasNoSpace(token)
    ensures WithoutSpace(WrapBody(token)) == token
    ensures forall i :: 0 <= i < |WrapBody(token)| ==> WrapBody(token)[i] != ' '
  {
    var lines := if Lines(token) == [] then [token] else Lines(token);
    LinesKeepToken(token);
    assert Flat([token]) == token + Flat([]) == token;
    JoinedLines(lines);
    NewlinesVanish(Joined(lines));
  }

  lemma {:induction false} NewlinesVanish(s: string)
    ensures WithoutSpace("\n" + s + "\n") == WithoutSpace(s)
  {
    WithoutSpaceConcat("\n" + s, "\n");
    WithoutSpaceConcat("\n", s);
    assert WithoutSpace("\n") == WithoutSpace("\n"[1..]) == "";
  }

  lemma {:induction false} BlockNormalizes(header: string, footer: string, token: string)
    requires AreMarkers(header, footer) && HasNoSpace(token)
    ensures Between(Trim(header + WrapBody(token) + footer), header, footer) == Ok(token)
  {
    WrappedLines(token);
    BlockIsTrimmed(header, WrapBody(token), footer);
    BlockBetween(header, WrapBody(token), footer);
  }

  // Wrapping is undone by normalizing, for every token without white space.
  lemma {:induction false} NormalizeInvertsWrap(token: string)
    requires HasNoSpace(token)
    ensures NormalizeToken(WrapToken(token)) == Ok(token)
  {
    Markers();
    BlockNormalizes(HEADER, FOOTER, token);
  }

  // ----- Tokens --------------------------------------------------------------------------------

  // The hash and the JSON codec (with its text encoding) of the surrounding world.
  datatype World = World(
    sha256: string -> seq<Byte>,
    stringify: Json -> seq<Byte>,
    parse: seq<Byte> -> Option<Json>,
    upper: string -> string)

  // The property names that the payload uses, and any other.
  datatype Field =
    | Version | NetworkPassphrase | Id | DeskName | ContractId | SponsorPubkey | EventStartLedger
    | Assets | Pairs | BaseDeployment
    | AssetId | Symbol | Token | Decimals | Kind
    | PairId | BaseAsset | QuoteAsset
    | Unused(name: string)

  datatype Json =
    | Null
    | Boolean(value: bool)
    | Integer(n: int)
    | Fraction(digits: string)
    | Text(text: string)
    | List(items: seq<Json>)
    | Object(fields: map<Field, Json>)

  // A digest has 32 bytes, and parsing inverts printing.
  ghost predicate Sound(w: World) {
    && (forall t :: |w.sha256(t)| == 32)
    && (forall j: Json :: w.stringify(j) != [] && w.parse(w.stringify(j)) == Some(j))
  }

  function HexDigit(n: nat): char
    requires n < 16
  {
    "0123456789abcdef"[n]
  }

  function Hex(bytes: seq<Byte>): (s: string)
    ensures |s| == 2 * |bytes|
  {
    if bytes == [] then "" else [HexDigit(bytes[0] / 16), HexDigit(bytes[0] % 16)] + Hex(bytes[1..])
  }

  predicate IsLowerHex(c: char) {
    '0' <= c <= '9' || 'a' <= c <= 'f'
  }

  function Lower(s: string): (r: string)
    ensures |r| == |s|
  {
    seq(|s|, i requires 0 <= i < |s| =>
      if 'A' <= s[i] <= 'Z' then (s[i] as int - 'A' as int + 'a' as int) as char else s[i])
  }

  function Slice(s: string, n: nat): string {
    if n < |s| then s[..n] else s
  }

  function Checksum(w: World, body: string): string {
    Slice(Hex(w.sha256(FORMAT + "." + body)), CHECKSUM_HEX)
  }

  predicate IsChecksum(s: string) {
    |s| == CHECKSUM_HEX && forall i :: 0 <= i < |s| ==> IsLowerHex(s[i]) || 'A' <= s[i] <= 'F'
  }

  function Split(s: string): (parts: seq<string>)
    ensures |parts| >= 1
  {
    if s == "" then [""]
    else
      var rest := Split(s[1..]);
      if s[0] == '.' then [""] + rest else [[s[0]] + rest[0]] + rest[1..]
  }

  function TokenOf(w: World, bytes: seq<Byte>): string {
    var body := Base64Url.Encode(bytes);
    FORMAT + "." + body + "." + Checksum(w, body)
  }

  // The bytes a pasted share carries, if it is intact.
  function PayloadBytes(w: World, input: string): Result<seq<Byte>, ShareError> {
    var token :- NormalizeToken(input);
    var parts := Split(token);
    if |parts| != 3 || parts[0] != FORMAT then Err(UnsupportedFormat)
    else if !IsChecksum(parts[2]) then Err(MalformedChecksum)
    else if Lower(parts[2]) != Checksum(w, parts[1]) then Err(WrongChecksum)
    else
      var bytes := Base64Url.Decode(parts[1]);
      if bytes.None? then Err(Undecodable) else Ok(bytes.value)
  }

  lemma {:induction false} HexIsLower(bytes: seq<Byte>)
    ensures forall i :: 0 <= i < |Hex(bytes)| ==> IsLowerHex(Hex(bytes)[i])
  {
    if bytes != [] {
      HexIsLower(bytes[1..]);
    }
  }

  lemma {:induction false} ChecksumShape(w: World, body: string)
    requires Sound(w)
    ensures var c := Checksum(w, body);
      && |c| == CHECKSUM_HEX && IsChecksum(c) && Lower(c) == c
      && forall i :: 0 <= i < |c| ==> IsLowerHex(c[i])
  {
    HexIsLower(w.sha256(FORMAT + "." + body));
    var c := Checksum(w, body);
    assert forall i :: 0 <= i < |c| ==> c[i] == Hex(w.sha256(FORMAT + "." + body))[i];
    assert Lower(c) == c;
  }

  predicate HasNoDot(s: string) {
    forall i :: 0 <= i < |s| ==> s[i] != '.'
  }

  lemma {:induction false} SplitAtDot(a: string, rest: string)
    requires HasNoDot(a)
    ensures Split(a + "." + rest) == [a] + Split(rest)
  {
    var s := a + "." + rest;
    if a == "" {
      assert s[1..] == rest;
    } else {
      SplitAtDot(a[1..], rest);
      assert s[1..] == a[1..] + "." + rest;
      assert [a[0]] + a[1..] == a;
    }
  }

  lemma {:induction false} SplitNothing(a: string)
    requires HasNoDot(a)
    ensures Split(a) == [a]
  {
    if a != "" {
      SplitNothing(a[1..]);
      assert [a[0]] + a[1..] == a;
    }
  }

  // A token has no white space, and splits into its three fields only.
  lemma {:induction false} TokenShape(w: World, bytes: seq<Byte>)
    requires Sound(w)
    ensures
      var body := Base64Url.Encode(bytes);
      HasNoSpace(TokenOf(w, bytes)) && Split(TokenOf(w, bytes)) == [FORMAT, body, Checksum(w, body)]
  {
    var body := Base64Url.Encode(bytes);
    UrlTextIsPlain(bytes);
    ChecksumShape(w, body);
    FormatIsPlain();
    FieldsSplit(FORMAT, body, Checksum(w, body));
  }

  lemma {:induction false} FormatIsPlain()
    ensures HasNoDot(FORMAT) && HasNoSpace(FORMAT)
  {
  }

  lemma {:induction false} UrlTextIsPlain(bytes: seq<Byte>)
    ensures HasNoSpace(Base64Url.Encode(bytes)) && HasNoDot(Base64Url.Encode(bytes))
  {
    Base64Url.EncodeIsUrlText(bytes);
    Base64Url.EncodeIsUrlChars(bytes);
  }

  lemma {:induction false} FieldsSplit(a: string, b: string, c: string)
    requires HasNoDot(a) && HasNoDot(b) && HasNoDot(c)
    ensures Split(a + "." + b + "." + c) == [a, b, c]
    ensures HasNoSpace(a) && HasNoSpace(b) && HasNoSpace(c) ==> HasNoSpace(a + "." + b + "." + c)
  {
    assert a + "." + b + "." + c == a + "." + (b + "." + c);
    SplitAtDot(a, b + "." + c);
    SplitAtDot(b, c);
    SplitNothing(c);
  }

  // Any non-empty payload survives encoding, checksumming, wrapping and parsing.
  lemma {:induction false} PayloadSurvives(w: World, bytes: seq<Byte>)
    requires Sound(w) && bytes != []
    ensures PayloadBytes(w, WrapToken(TokenOf(w, bytes))) == Ok(bytes)
  {
    TokenShape(w, bytes);
    NormalizeInvertsWrap(TokenOf(w, bytes));
    ChecksumShape(w, Base64Url.Encode(bytes));
    Base64Url.DecodeInvertsEncode(bytes);
  }

  // ----- Desks ---------------------------------------------------------------------------------

  datatype Asset = Asset(assetId: int, symbol: string, token: Option<string>, decimals: int, kind: AssetKind)

  datatype Pair = Pair(pairId: int, baseAsset: int, quoteAsset: int)

  datatype Desk = Desk(
    id: string,
    name: string,
    contractId: string,
    sponsorPubkey: string,
    eventStartLedger: Option<int>,
    assets: seq<Asset>,
    pairs: seq<Pair>,
    baseDeployment: Json)

  datatype Share = Share(desk: Desk, networkPassphrase: string)

  function KindName(k: AssetKind): string {
    match k
    case Stellar => "Stellar"
    case Dual => "Dual"
    case BaseRepresented => "BaseRepresented"
  }

  function Nullable(t: Option<string>): Json {
    if t.Some? then Json.Text(t.value) else Null
  }

  function AssetJson(a: Asset): Json {
    Object(map[AssetId := Integer(a.assetId), Symbol := Json.Text(a.symbol), Token := Nullable(a.token),
      Decimals := Integer(a.decimals), Kind := Json.Text(KindName(a.kind))])
  }

  function PairJson(p: Pair): Json {
    Object(map[PairId := Integer(p.pairId), BaseAsset := Integer(p.baseAsset),
      QuoteAsset := Integer(p.quoteAsset)])
  }

  function EncodePayload(s: Share): Json {
    var d := s.desk;
    Object(map[
      Version := Integer(1),
      NetworkPassphrase := Json.Text(s.networkPassphrase),
      Id := Json.Text(d.id),
      DeskName := Json.Text(d.name),
      ContractId := Json.Text(d.contractId),
      SponsorPubkey := Json.Text(d.sponsorPubkey),
      EventStartLedger := if d.eventStartLedger.Some? then Integer(d.eventStartLedger.value) else Null,
      Assets := List(seq(|d.assets|, i requires 0 <= i < |d.assets| => AssetJson(d.assets[i]))),
      Pairs := List(seq(|d.pairs|, i requires 0 <= i < |d.pairs| => PairJson(d.pairs[i]))),
      BaseDeployment := d.baseDeployment])
  }

  // ----- Reading a payload ---------------------------------------------------------------------

  function Get(fields: map<Field, Json>, name: Field): Option<Json> {
    if name in fields then Some(fields[name]) else None
  }

  function AssertText(v: Option<Json>): Result<string, ShareError> {
    if v.Some? && v.value.Text? && Trim(v.value.text) != "" then Ok(v.value.text) else Err(MissingText)
  }

  // A non-negative safe integer, or the given error.
  function AssertCount(v: Option<Json>, e: ShareError): Result<int, ShareError> {
    if v.Some? && v.value.Integer? && 0 <= v.value.n <= MAX_SAFE_INTEGER then Ok(v.value.n) else Err(e)
  }

  function AssertLedger(v: Option<Json>): Result<Option<int>, ShareError> {
    if v == Some(Null) then Ok(None)
    else
      var n :- AssertCount(v, BadLedger);
      Ok(Some(n))
  }

  function AssertKind(v: Option<Json>): Result<AssetKind, ShareError> {
    if v == Some(Json.Text("Stellar")) then Ok(Stellar)
    else if v == Some(Json.Text("Dual")) then Ok(Dual)
    else if v == Some(Json.Text("BaseRepresented")) then Ok(BaseRepresented)
    else Err(BadAsset)
  }

  function AssertToken(v: Option<Json>): Result<Option<string>, ShareError> {
    if v == Some(Null) then Ok(None)
    else if v.Some? && v.value.Text? then Ok(Some(v.value.text))
    else Err(BadAsset)
  }

  function AssertAsset(w: World, v: Json): Result<Asset, ShareError> {
    if !v.Object? then Err(BadAsset)
    else
      var assetId :- AssertCount(Get(v.fields, AssetId), BadAsset);
      var decimals :- AssertCount(Get(v.fields, Decimals), BadAsset);
      var token :- AssertToken(Get(v.fields, Token));
      var symbol :- AssertText(Get(v.fields, Symbol));
      var kind :- AssertKind(Get(v.fields, Kind));
      Ok(Asset(assetId, w.upper(Trim(symbol)), token, decimals, kind))
  }

  function AssertPair(v: Json): Result<Pair, ShareError> {
    if !v.Object? then Err(BadPair)
    else
      var pairId :- AssertCount(Get(v.fields, PairId), BadPair);
      var baseAsset :- AssertCount(Get(v.fields, BaseAsset), BadPair);
      var quoteAsset :- AssertCount(Get(v.fields, QuoteAsset), BadPair);
      Ok(Pair(pairId, baseAsset, quoteAsset))
  }

  function AssertAssets(w: World, vs: seq<Json>): Result<seq<Asset>, ShareError> {
    if vs == [] then Ok([])
    else
      var first :- AssertAsset(w, vs[0]);
      var rest :- AssertAssets(w, vs[1..]);
      Ok([first] + rest)
  }

  function AssertPairs(vs: seq<Json>): Result<seq<Pair>, ShareError> {
    if vs == [] then Ok([])
    else
      var first :- AssertPair(vs[0]);
      var rest :- AssertPairs(vs[1..]);
      Ok([first] + rest)
  }

  function OrNull(v: Option<Json>): Json {
    if v.Some? then v.value else Null
  }

  // The payload's texts and its start ledger.
  datatype Head = Head(
    networkPassphrase: string,
    id: string,
    name: string,
    contractId: string,
    sponsorPubkey: string,
    eventStartLedger: Option<int>)

  function DecodeHead(f: map<Field, Json>): Result<Head, ShareError> {
    var passphrase :- AssertText(Get(f, NetworkPassphrase));
    var id :- AssertText(Get(f, Id));
    var name :- AssertText(Get(f, DeskName));
    var contractId :- AssertText(Get(f, ContractId));
    var sponsor :- AssertText(Get(f, SponsorPubkey));
    var ledger :- AssertLedger(Get(f, EventStartLedger));
    Ok(Head(passphrase, id, name, contractId, sponsor, ledger))
  }

  function DecodePayload(w: World, v: Json): Result<Share, ShareError> {
    if !v.Object? then Err(NotAnObject)
    else
      var f := v.fields;
      var assets, pairs := Get(f, Assets), Get(f, Pairs);
      if Get(f, Version) != Some(Integer(1)) then Err(UnsupportedVersion)
      else if assets.None? || !assets.value.List? || assets.value.items == [] then Err(NoAssets)
      else if pairs.None? || !pairs.value.List? then Err(BadPairs)
      else
        var h :- DecodeHead(f);
        var listed :- AssertAssets(w, assets.value.items);
        var traded :- AssertPairs(pairs.value.items);
        Ok(Share(Desk(h.id, h.name, h.contractId, h.sponsorPubkey, h.eventStartLedger, listed, traded,
          OrNull(Get(f, BaseDeployment))), h.networkPassphrase))
  }

  function EncodeDeskShare(w: World, s: Share): string {
    WrapToken(TokenOf(w, w.stringify(EncodePayload(s))))
  }

  function ParseDeskShare(w: World, input: string): Result<Share, ShareError> {
    var bytes :- PayloadBytes(w, input);
    var raw := w.parse(bytes);
    if raw.None? then Err(Undecodable) else DecodePayload(w, raw.value)
  }

  // ----- Round trip ----------------------------------------------------------------------------

  predicate Count(n: int) {
    0 <= n <= MAX_SAFE_INTEGER
  }

  predicate Present(s: string) {
    Trim(s) != ""
  }

  predicate CleanAsset(w: World, a: Asset) {
    Count(a.assetId) && Count(a.decimals) && Present(a.symbol) && w.upper(Trim(a.symbol)) == a.symbol
  }

  predicate CleanPair(p: Pair) {
    Count(p.pairId) && Count(p.baseAsset) && Count(p.quoteAsset)
  }

  // What validation accepts and leaves unchanged.
  predicate Clean(w: World, s: Share) {
    var d := s.desk;
    && CleanHead(HeadOf(s))
    && d.assets != [] && (forall i :: 0 <= i < |d.assets| ==> CleanAsset(w, d.assets[i]))
    && (forall i :: 0 <= i < |d.pairs| ==> CleanPair(d.pairs[i]))
  }

  lemma {:induction false} AssetReads(w: World, a: Asset)
    ensures AssertAsset(w, AssetJson(a)) == Ok(a) <==> CleanAsset(w, a)
  {
    KindNamesDiffer();
  }

  lemma {:induction false} KindNamesDiffer()
    ensures "Stellar" != "Dual" && "Stellar" != "BaseRepresented" && "Dual" != "BaseRepresented"
  {
    assert |"Stellar"| == 7 && |"Dual"| == 4 && |"BaseRepresented"| == 15;
  }

  lemma {:induction false} PairReads(p: Pair)
    ensures AssertPair(PairJson(p)) == Ok(p) <==> CleanPair(p)
  {
  }

  lemma {:induction false} AssetsRead(w: World, assets: seq<Asset>, vs: seq<Json>)
    requires |vs| == |assets| && forall i :: 0 <= i < |assets| ==> vs[i] == AssetJson(assets[i])
    ensures AssertAssets(w, vs) == Ok(assets) <==> forall i :: 0 <= i < |assets| ==> CleanAsset(w, assets[i])
  {
    if assets != [] {
      AssetReads(w, assets[0]);
      AssetsRead(w, assets[1..], vs[1..]);
      assert assets == [assets[0]] + assets[1..];
      assert (forall i :: 0 <= i < |assets[1..]| ==> CleanAsset(w, assets[1..][i]))
        <==> (forall i :: 1 <= i < |assets| ==> CleanAsset(w, assets[i]));
    }
  }

  lemma {:induction false} PairsRead(pairs: seq<Pair>, vs: seq<Json>)
    requires |vs| == |pairs| && forall i :: 0 <= i < |pairs| ==> vs[i] == PairJson(pairs[i])
    ensures AssertPairs(vs) == Ok(pairs) <==> forall i :: 0 <= i < |pairs| ==> CleanPair(pairs[i])
  {
    if pairs != [] {
      PairReads(pairs[0]);
      PairsRead(pairs[1..], vs[1..]);
      assert pairs == [pairs[0]] + pairs[1..];
    }
  }

  predicate CleanHead(h: Head) {
    && Present(h.networkPassphrase) && Present(h.id) && Present(h.name) && Present(h.contractId)
    && Present(h.sponsorPubkey) && (h.eventStartLedger.Some? ==> Count(h.eventStartLedger.value))
  }

  predicate HeadIn(f: map<Field, Json>, h: Head) {
    && Get(f, NetworkPassphrase) == Some(Json.Text(h.networkPassphrase))
    && Get(f, Id) == Some(Json.Text(h.id)) && Get(f, DeskName) == Some(Json.Text(h.name))
    && Get(f, ContractId) == Some(Json.Text(h.contractId))
    && Get(f, SponsorPubkey) == Some(Json.Text(h.sponsorPubkey))
    && Get(f, EventStartLedger) == Some(if h.eventStartLedger.Some? then Integer(h.eventStartLedger.value) else Null)
  }

  lemma {:induction false} HeadReads(f: map<Field, Json>, h: Head)
    requires HeadIn(f, h)
    ensures DecodeHead(f) == Ok(h) <==> CleanHead(h)
    ensures DecodeHead(f).Ok? ==> CleanHead(h)
  {
  }

  function HeadOf(s: Share): Head {
    Head(s.networkPassphrase, s.desk.id, s.desk.name, s.desk.contractId, s.desk.sponsorPubkey, s.desk.eventStartLedger)
  }

  lemma {:induction false} PayloadFields(s: Share)
    ensures
      var f := EncodePayload(s).fields;
      HeadIn(f, HeadOf(s)) && Get(f, Version) == Some(Integer(1))
        && Get(f, BaseDeployment) == Some(s.desk.baseDeployment)
  {
  }

  lemma {:induction false} PayloadReads(w: World, s: Share)
    ensures DecodePayload(w, EncodePayload(s)) == Ok(s) <==> Clean(w, s)
  {
    var f := EncodePayload(s).fields;
    PayloadFields(s);
    HeadReads(f, HeadOf(s));
    ListsRead(w, s, f[Assets].items, f[Pairs].items);
  }

  lemma {:induction false} ListsRead(w: World, s: Share, assets: seq<Json>, pairs: seq<Json>)
    requires |assets| == |s.desk.assets| && forall i :: 0 <= i < |assets| ==> assets[i] == AssetJson(s.desk.assets[i])
    requires |pairs| == |s.desk.pairs| && forall i :: 0 <= i < |pairs| ==> pairs[i] == PairJson(s.desk.pairs[i])
    ensures AssertAssets(w, assets) == Ok(s.desk.assets) <==>
      forall i :: 0 <= i < |s.desk.assets| ==> CleanAsset(w, s.desk.assets[i])
    ensures AssertPairs(pairs) == Ok(s.desk.pairs) <==>
      forall i :: 0 <= i < |s.desk.pairs| ==> CleanPair(s.desk.pairs[i])
  {
    AssetsRead(w, s.desk.assets, assets);
    PairsRead(s.desk.pairs, pairs);
  }

  // Sharing a desk and parsing the share returns it, exactly when it is one that validation would
  // accept and leave as it is: every text present, every number a safe count, at least one asset, and
  // symbols already trimmed and upper case.
  lemma {:induction false} ShareRoundTrip(w: World, s: Share)
    requires Sound(w)
    ensures ParseDeskShare(w, EncodeDeskShare(w, s)) == Ok(s) <==> Clean(w, s)
  {
    var json := EncodePayload(s);
    PayloadSurvives(w, w.stringify(json));
    PayloadReads(w, s);
  }
}
