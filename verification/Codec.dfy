// The byte level of the contract: 32-byte big-endian words inside a public-input blob, their
// narrowing to machine integers, and the order that a lift proof's public inputs denote.
module Codec {
  import opened Wrappers

  import opened Types

  function Big(bytes: seq<Byte>): (v: nat)
  {
    if bytes == [] then 0 else Big(bytes[..|bytes| - 1]) * 256 + bytes[|bytes| - 1]
  }

  function Pow256(n: nat): (p: nat)
    ensures 0 < p
  {
    if n == 0 then 1 else 256 * Pow256(n - 1)
  }

  function Bytes(v: nat, n: nat): (bytes: seq<Byte>)
    ensures |bytes| == n
  {
    if n == 0 then [] else Bytes(v / 256, n - 1) + [v % 256]
  }

  lemma {:induction false} BigBound(bytes: seq<Byte>)
    ensures Big(bytes) < Pow256(|bytes|)
  {
    if bytes != [] {
      BigBound(bytes[..|bytes| - 1]);
    }
  }

  // Big-endian words and values below 256^n correspond one to one.
  lemma {:induction false} BigBytes(v: nat, n: nat)
    requires v < Pow256(n)
    ensures Big(Bytes(v, n)) == v
  {
    if n > 0 {
      BigBytes(v / 256, n - 1);
      assert Bytes(v, n)[..n - 1] == Bytes(v / 256, n - 1);
    }
  }

  lemma {:induction false} BytesBig(bytes: seq<Byte>)
    ensures Bytes(Big(bytes), |bytes|) == bytes
  {
    if bytes != [] {
      var front, last := bytes[..|bytes| - 1], bytes[|bytes| - 1];
      BytesBig(front);
      assert Big(bytes) / 256 == Big(front) && Big(bytes) % 256 == last;
      assert bytes == front + [last];
    }
  }

  lemma {:induction false} BigSplit(a: seq<Byte>, b: seq<Byte>)
    ensures Big(a + b) == Big(a) * Pow256(|b|) + Big(b)
  {
    if b == [] {
      assert a + b == a;
    } else {
      var front, last := b[..|b| - 1], b[|b| - 1];
      assert (a + b)[..|a + b| - 1] == a + front;
      BigSplit(a, front);
    }
  }

  lemma {:induction false} BigZero(bytes: seq<Byte>)
    ensures Big(bytes) == 0 <==> forall i :: 0 <= i < |bytes| ==> bytes[i] == 0
  {
    if bytes != [] {
      BigZero(bytes[..|bytes| - 1]);
      var front := bytes[..|bytes| - 1];
      assert forall i :: 0 <= i < |front| ==> front[i] == bytes[i];
    }
  }

  // A word fits its low `low` bytes exactly when every byte before them is zero.
  lemma {:induction false} FitsLowBytes(w: seq<Byte>, low: nat)
    requires low <= |w|
    ensures Big(w) < Pow256(low) <==> forall i :: 0 <= i < |w| - low ==> w[i] == 0
    ensures Big(w) < Pow256(low) ==> Big(w) == Big(w[|w| - low..])
  {
    var hi, lo := w[..|w| - low], w[|w| - low..];
    assert w == hi + lo;
    HighPartDecides(hi, lo);
    BigZero(hi);
    assert forall i :: 0 <= i < |hi| ==> hi[i] == w[i];
  }

  lemma {:induction false} HighPartDecides(hi: seq<Byte>, lo: seq<Byte>)
    ensures Big(hi + lo) < Pow256(|lo|) <==> Big(hi) == 0
    ensures Big(hi) == 0 ==> Big(hi + lo) == Big(lo)
  {
    BigSplit(hi, lo);
    BigBound(lo);
    HighDigit(Big(hi), Pow256(|lo|), Big(lo));
  }

  lemma {:induction false} HighDigit(q: nat, p: nat, low: nat)
    requires low < p
    ensures q * p + low < p <==> q == 0
  {
    if q > 0 {
      assert q * p == (q - 1) * p + p && (q - 1) * p >= 0;
    }
  }

  function Narrow(v: Word, limit: nat): Result<nat, Error> {
    if v < limit then Ok(v) else Err(FieldOverflow)
  }

  lemma {:induction false} Limits()
    ensures Pow256(4) == U32_LIMIT && Pow256(8) == U64_LIMIT && Pow256(16) == 2 * I128_LIMIT
  {
  }

  lemma {:induction false} AddressLimit()
    ensures Pow256(20) == 0x1_0000000000_0000000000_0000000000_0000000000
  {
    Limits();
    assert Pow256(18) == 256 * 256 * Pow256(16);
    assert Pow256(20) == 256 * 256 * Pow256(18);
  }

  method HighBytesZero(w: seq<Byte>, low: nat) returns (zero: bool)
    requires low <= |w|
    ensures zero <==> Big(w) < Pow256(low)
  {
    FitsLowBytes(w, low);
    var i := 0;
    while i < |w| - low
      invariant 0 <= i <= |w| - low
      invariant forall j :: 0 <= j < i ==> w[j] == 0
    {
      if w[i] != 0 {
        return false;
      }
      i := i + 1;
    }
    zero := true;
  }

  method WordToU32(w: seq<Byte>) returns (r: Result<nat, Error>)
    requires |w| == 32
    ensures r == Narrow(Big(w), U32_LIMIT)
  {
    Limits();
    FitsLowBytes(w, 4);
    var zero := HighBytesZero(w, 4);
    r := if zero then Ok(Big(w[28..])) else Err(FieldOverflow);
  }

  method WordToU64(w: seq<Byte>) returns (r: Result<nat, Error>)
    requires |w| == 32
    ensures r == Narrow(Big(w), U64_LIMIT)
  {
    Limits();
    FitsLowBytes(w, 8);
    var zero := HighBytesZero(w, 8);
    r := if zero then Ok(Big(w[24..])) else Err(FieldOverflow);
  }

  // The low 16 bytes read as a two's complement i128; a set sign bit is rejected.
  function SignedI128(lo: nat): int {
    if lo < I128_LIMIT then lo else lo - 2 * I128_LIMIT
  }

  method WordToI128(w: seq<Byte>) returns (r: Result<nat, Error>)
    requires |w| == 32
    ensures r == Narrow(Big(w), I128_LIMIT)
  {
    Limits();
    FitsLowBytes(w, 16);
    var zero := HighBytesZero(w, 16);
    if !zero {
      return Err(FieldOverflow);
    }
    var v := SignedI128(Big(w[16..]));
    r := if v < 0 then Err(FieldOverflow) else Ok(v);
  }

  // ----- Public inputs -------------------------------------------------------------------------

  function ReadWord(pi: seq<Byte>, k: nat): (w: seq<Byte>)
    requires 32 * k + 32 <= |pi|
    ensures |w| == 32
  {
    pi[32 * k..32 * k + 32]
  }

  function WordAt(pi: seq<Byte>, k: nat): Word
    requires 32 * k + 32 <= |pi|
  {
    Big(ReadWord(pi, k))
  }

  const LIFT_DOMAIN := 1
  const UNSHIELD_DOMAIN := 2
  const CANCEL_DOMAIN := 3
  const JOIN_DOMAIN := 4
  const LIFT_WORDS := 12
  const UNSHIELD_WORDS := 6
  const CANCEL_WORDS := 4
  const JOIN_WORDS := 9

  function Words(pi: seq<Byte>, n: nat): (ws: seq<Word>)
    requires |pi| == 32 * n
    ensures |ws| == n
  {
    seq(n, k requires 0 <= k < n => WordAt(pi, k))
  }

  // Derive one order side from a verified order proof's public-input words.
  function ParseOrder(roots: set<Word>, ws: seq<Word>): Result<Order, Error>
    requires |ws| == LIFT_WORDS
  {
    if ws[0] != LIFT_DOMAIN then Err(BadPublicInputs)
    else if ws[1] !in roots then Err(UnknownRoot)
    else
      var partialWord :- Narrow(ws[10], U32_LIMIT);
      if partialWord > 1 then Err(BadPublicInputs)
      else
        var assetIn :- Narrow(ws[3], U32_LIMIT);
        var amountIn :- Narrow(ws[4], I128_LIMIT);
        var assetOut :- Narrow(ws[5], U32_LIMIT);
        var minOut :- Narrow(ws[6], I128_LIMIT);
        var expiry :- Narrow(ws[9], U64_LIMIT);
        Ok(Order(ws[2], assetIn, amountIn, assetOut, minOut, ws[7], ws[8], expiry, partialWord == 1, ws[11]))
  }

  function Concat(words: seq<Word>): (bytes: seq<Byte>)
    ensures |bytes| == 32 * |words|
  {
    if words == [] then [] else Concat(words[..|words| - 1]) + Bytes(words[|words| - 1], 32)
  }

  lemma {:induction false} WordAtConcat(words: seq<Word>, k: nat)
    requires k < |words| && words[k] < Pow256(32)
    ensures WordAt(Concat(words), k) == words[k]
  {
    var front := words[..|words| - 1];
    if k == |words| - 1 {
      assert ReadWord(Concat(words), k) == Bytes(words[k], 32);
      BigBytes(words[k], 32);
    } else {
      WordAtConcat(front, k);
      assert ReadWord(Concat(words), k) == ReadWord(Concat(front), k);
    }
  }

  function OrderWords(root: Word, o: Order): (ws: seq<Word>)
    ensures |ws| == LIFT_WORDS
  {
    [LIFT_DOMAIN, root, o.nullifier, o.assetIn, o.amountIn, o.assetOut, o.minOut,
     o.outputTag, o.cancelTag, o.expiry, if o.partialAllowed then 1 else 0, o.leaf]
  }

  predicate FitsWords(ws: seq<Word>) {
    forall i :: 0 <= i < |ws| ==> ws[i] < Pow256(32)
  }

  predicate InRange(o: Order) {
    o.assetIn < U32_LIMIT && o.assetOut < U32_LIMIT && o.amountIn < I128_LIMIT
    && o.minOut < I128_LIMIT && o.expiry < U64_LIMIT
  }

  lemma {:induction false} WordsOfConcat(words: seq<Word>)
    requires FitsWords(words)
    ensures Words(Concat(words), |words|) == words
  {
    forall k | 0 <= k < |words|
      ensures Words(Concat(words), |words|)[k] == words[k]
    {
      WordAtConcat(words, k);
    }
  }

  lemma {:induction false} ParseOfWords(roots: set<Word>, root: Word, o: Order)
    ensures ParseOrder(roots, OrderWords(root, o)) ==
            if root !in roots then Err(UnknownRoot)
            else if InRange(o) then Ok(o) else Err(FieldOverflow)
  {
  }

  // The parser accepts the encoding of an order under a root exactly when the root is accepted
  // and the fields fit their machine types, and then returns that order.
  lemma {:induction false} ParseInvertsEncoding(roots: set<Word>, root: Word, o: Order)
    requires FitsWords(OrderWords(root, o))
    ensures ParseOrder(roots, Words(Concat(OrderWords(root, o)), LIFT_WORDS)) ==
            if root !in roots then Err(UnknownRoot)
            else if InRange(o) then Ok(o) else Err(FieldOverflow)
  {
    WordsOfConcat(OrderWords(root, o));
    ParseOfWords(roots, root, o);
  }
}
