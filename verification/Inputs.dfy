// What a caller hands over, byte for byte: the public inputs of a verified proof are the encoding of
// exactly one list of words, and those of a lift proof present exactly one order.
module Inputs {
  import opened Wrappers
  import opened Types
  import opened Codec
  import opened Ledger

  // The words of a longer string are those of its front and then its last.
  lemma {:induction false} LastWord(pi: seq<Byte>, n: nat)
    requires 0 < n && |pi| == 32 * n
    ensures Words(pi, n) == Words(pi[..32 * (n - 1)], n - 1) + [Big(pi[32 * (n - 1)..])]
  {
    forall k | 0 <= k < n - 1
      ensures WordAt(pi[..32 * (n - 1)], k) == WordAt(pi, k)
    {
      assert ReadWord(pi[..32 * (n - 1)], k) == ReadWord(pi, k);
    }
    assert ReadWord(pi, n - 1) == pi[32 * (n - 1)..];
  }

  // Every string of whole words is the encoding of the words it is read as.
  lemma {:induction false} ConcatOfWords(pi: seq<Byte>, n: nat)
    requires |pi| == 32 * n
    ensures FitsWords(Words(pi, n)) && Concat(Words(pi, n)) == pi
  {
    if n > 0 {
      var front, last := pi[..32 * (n - 1)], pi[32 * (n - 1)..];
      LastWord(pi, n);
      ConcatOfWords(front, n - 1);
      AppendWord(Words(front, n - 1), last);
      assert pi == front + last;
    }
  }

  lemma {:induction false} AppendWord(ws: seq<Word>, last: seq<Byte>)
    requires FitsWords(ws) && |last| == 32
    ensures FitsWords(ws + [Big(last)]) && Concat(ws + [Big(last)]) == Concat(ws) + last
  {
    BigBound(last);
    BytesBig(last);
    assert (ws + [Big(last)])[..|ws|] == ws;
  }

  lemma {:induction false} EncodingIsExact(pi: seq<Byte>, ws: seq<Word>)
    ensures |pi| == 32 * |ws| && Words(pi, |ws|) == ws <==> FitsWords(ws) && pi == Concat(ws)
  {
    if |pi| == 32 * |ws| {
      ConcatOfWords(pi, |ws|);
    }
    if FitsWords(ws) {
      WordsOfConcat(ws);
    }
  }

  // A proof of full length that verifies for an operation, over the encoding of these words.
  ghost predicate Proven(host: Host, op: nat, x: Signed, ws: seq<Word>) {
    && |x.proof| == host.proofBytes && FitsWords(ws) && x.pi == Concat(ws)
    && host.verify(op, x.proof, x.pi)
  }

  lemma {:induction false} ProofIsExact(host: Host, op: nat, x: Signed, n: nat, ws: seq<Word>)
    ensures VerifyProof(host, op, x.proof, x.pi, n) == Ok(ws) <==> |ws| == n && Proven(host, op, x, ws)
  {
    EncodingIsExact(x.pi, ws);
  }

  // A verified proof of so many words is one over its own words.
  lemma {:induction false} VerifiedIsProven(host: Host, op: nat, x: Signed, n: nat)
    ensures var r := VerifyProof(host, op, x.proof, x.pi, n);
      r.Ok? ==> |r.value| == n && Proven(host, op, x, r.value)
  {
    var r := VerifyProof(host, op, x.proof, x.pi, n);
    if r.Ok? {
      ProofIsExact(host, op, x, n, r.value);
    }
  }

  // The caller presents this order: a lift proof over its encoding under an accepted root, every field
  // within its machine type.
  ghost predicate Presents(host: Host, st: State, x: Signed, o: Order) {
    InRange(o) && exists root :: root in st.tree.roots && Proven(host, LIFT_OP, x, OrderWords(root, o))
  }

  // Words are read as an order exactly when they are its encoding under an accepted root.
  lemma {:induction false} ParseIsExact(roots: set<Word>, ws: seq<Word>, o: Order)
    requires |ws| == LIFT_WORDS
    ensures ParseOrder(roots, ws) == Ok(o) <==> ws[1] in roots && InRange(o) && ws == OrderWords(ws[1], o)
  {
    ParseOfWords(roots, ws[1], o);
  }

  // The contract takes exactly the orders presented to it.
  lemma {:induction false} OrderIsExact(host: Host, st: State, x: Signed, o: Order)
    ensures
      var ws := VerifyProof(host, LIFT_OP, x.proof, x.pi, LIFT_WORDS);
      (ws.Ok? && ParseOrder(st.tree.roots, ws.value) == Ok(o)) <==> Presents(host, st, x, o)
  {
    var ws := VerifyProof(host, LIFT_OP, x.proof, x.pi, LIFT_WORDS);
    if ws.Ok? {
      VerifiedIsProven(host, LIFT_OP, x, LIFT_WORDS);
      ParseIsExact(st.tree.roots, ws.value, o);
    }
    if Presents(host, st, x, o) {
      var root :| root in st.tree.roots && Proven(host, LIFT_OP, x, OrderWords(root, o));
      ProofIsExact(host, LIFT_OP, x, LIFT_WORDS, OrderWords(root, o));
      ParseOfWords(st.tree.roots, root, o);
    }
  }

  lemma {:induction false} OrdersAreExact(host: Host, st: State, x: Signed, y: Signed, a: Order, b: Order)
    ensures TwoOrders(host, st, x, y) == Ok((a, b)) <==> Presents(host, st, x, a) && Presents(host, st, y, b)
  {
    OrderIsExact(host, st, x, a);
    OrderIsExact(host, st, y, b);
  }

  // One proof presents one order.
  lemma {:induction false} OneOrderPresented(host: Host, st: State, x: Signed, o: Order, p: Order)
    requires Presents(host, st, x, o) && Presents(host, st, x, p)
    ensures o == p
  {
    OrderIsExact(host, st, x, o);
    OrderIsExact(host, st, x, p);
  }
}
