/** The local embedder: a hashing vectorizer that counts tokens into buckets and
    normalises the counts. */
module Embedder {
  import opened Texts
  import opened VectorMath

  // `hash` stands for the digest of a token read as a number, `root` for the
  // exact square root.
  datatype Model = Model(hash: string -> nat, root: real -> real, dim: nat)

  predicate TokenChar(c: char) { 'a' <= c <= 'z' || '0' <= c <= '9' }

  // Maximal runs of letters and digits of the lower-cased text, after `run`.
  function TokensFrom(text: string, run: string): seq<string>
    decreases |text|
  {
    if text == "" then (if run == "" then [] else [run])
    else if TokenChar(LowerChar(text[0])) then TokensFrom(text[1..], run + [LowerChar(text[0])])
    else (if run == "" then [] else [run]) + TokensFrom(text[1..], "")
  }

  function Tokens(text: string): seq<string> { TokensFrom(text, "") }

  lemma {:induction false} SomeToken(text: string, run: string)
    ensures TokensFrom(text, run) != [] <==> run != "" || exists i :: 0 <= i < |text| && TokenChar(LowerChar(text[i]))
    decreases |text|
  {
    if text != "" {
      if TokenChar(LowerChar(text[0])) {
        SomeToken(text[1..], run + [LowerChar(text[0])]);
      } else {
        SomeToken(text[1..], "");
        if exists i :: 0 <= i < |text| && TokenChar(LowerChar(text[i])) {
          var i :| 0 <= i < |text| && TokenChar(LowerChar(text[i]));
          assert text[1..][i - 1] == text[i];
        }
      }
    }
  }

  predicate LetterOrDigit(c: char) { 'a' <= c <= 'z' || 'A' <= c <= 'Z' || '0' <= c <= '9' }

  lemma TokenCharIff(c: char)
    ensures TokenChar(LowerChar(c)) <==> LetterOrDigit(c)
  {}

  // A word is letters and digits only.
  predicate Word(w: string) { w != "" && forall i :: 0 <= i < |w| ==> LetterOrDigit(w[i]) }

  lemma {:induction false} RunGoesOn(w: string, run: string)
    requires forall i :: 0 <= i < |w| ==> LetterOrDigit(w[i])
    ensures TokensFrom(w, run) == if run + Lower(w) == "" then [] else [run + Lower(w)]
    decreases |w|
  {
    if w != "" {
      RunGoesOn(w[1..], run + [LowerChar(w[0])]);
      assert run + [LowerChar(w[0])] + Lower(w[1..]) == run + Lower(w);
    } else {
      assert run + Lower(w) == run;
    }
  }

  // A word is one token, itself in lower case; and whatever is not part of a word ends
  // one token and begins the next.
  lemma WordIsToken(w: string)
    requires Word(w)
    ensures Tokens(w) == [Lower(w)]
  {
    RunGoesOn(w, "");
    assert "" + Lower(w) == Lower(w);
  }

  lemma {:induction false} TokensSplit(a: string, c: char, b: string, run: string)
    requires !LetterOrDigit(c)
    ensures TokensFrom(a + [c] + b, run) == TokensFrom(a, run) + Tokens(b)
    decreases |a|
  {
    if a == "" {
      assert (a + [c] + b)[1..] == b && (a + [c] + b)[0] == c;
    } else {
      assert (a + [c] + b)[1..] == a[1..] + [c] + b && (a + [c] + b)[0] == a[0];
      if TokenChar(LowerChar(a[0])) {
        TokensSplit(a[1..], c, b, run + [LowerChar(a[0])]);
      } else {
        TokensSplit(a[1..], c, b, "");
      }
    }
  }

  // How many tokens fall into bucket j.
  function Hits(m: Model, tokens: seq<string>, j: nat): nat
    requires m.dim > 0
  {
    if tokens == [] then 0
    else Hits(m, tokens[..|tokens|-1], j) + (if m.hash(tokens[|tokens|-1]) % m.dim == j then 1 else 0)
  }

  function Counts(m: Model, tokens: seq<string>): Vector
    requires m.dim > 0
  {
    seq(m.dim, j requires 0 <= j < m.dim => Hits(m, tokens, j) as real)
  }

  lemma {:induction false} HitsAdd(m: Model, a: seq<string>, b: seq<string>, j: nat)
    requires m.dim > 0
    ensures Hits(m, a + b, j) == Hits(m, a, j) + Hits(m, b, j)
  {
    if b == [] {
      assert a + b == a;
    } else {
      var n := |b| - 1;
      assert (a + b)[..|a + b|-1] == a + b[..n];
      HitsAdd(m, a, b[..n], j);
    }
  }

  function Embed(m: Model, text: string): Vector
    requires m.dim > 0
  {
    Normalise(m.root, Counts(m, Tokens(text)))
  }

  lemma {:induction false} PositiveEntry(a: Vector, j: nat, n: nat)
    requires j < n <= |a| && a[j] > 0.0
    ensures SumSquares(a, n) > 0.0
  {
    SquareNonNegative(a[n-1]);
    if j < n - 1 {
      PositiveEntry(a, j, n - 1);
    } else {
      PositiveProduct(a[j], a[j]);
    }
  }

  lemma {:induction false} NoHits(m: Model, n: nat)
    requires m.dim > 0 && n <= m.dim
    ensures SumSquares(Counts(m, []), n) == 0.0
  {
    if n > 0 { NoHits(m, n - 1); }
  }

  // An embedding has length one exactly when the text has a letter or digit, and
  // is the zero vector otherwise.
  lemma EmbeddingLength(m: Model, text: string)
    requires m.dim > 0 && ExactRoot(m.root)
    ensures |Embed(m, text)| == m.dim
    ensures SumSquares(Embed(m, text), m.dim) == 1.0 <==> exists i :: 0 <= i < |text| && TokenChar(LowerChar(text[i]))
    ensures SumSquares(Embed(m, text), m.dim) == 1.0 <==> Tokens(text) != []
    ensures Tokens(text) == [] ==> forall j :: 0 <= j < m.dim ==> Embed(m, text)[j] == 0.0
  {
    var tokens := Tokens(text);
    var counts := Counts(m, tokens);
    SomeToken(text, "");
    if tokens != [] {
      var j := m.hash(tokens[|tokens|-1]) % m.dim;
      assert Hits(m, tokens, j) > 0;
      PositiveEntry(counts, j, m.dim);
    } else {
      NoHits(m, m.dim);
    }
    NormalisedLength(m.root, counts);
  }

  // A text with a token is as similar to itself as can be.
  lemma OwnTextScoresOne(m: Model, text: string)
    requires m.dim > 0 && ExactRoot(m.root) && Tokens(text) != []
    ensures Cosine(m.root, Embed(m, text), Embed(m, text)) == 1.0
  {
    EmbeddingLength(m, text);
    CosineSelf(m.root, Embed(m, text));
  }

  method EmbedText(m: Model, text: string) returns (vec: Vector)
    requires m.dim > 0
    ensures vec == Embed(m, text)
  {
    var buckets := new real[m.dim](_ => 0.0);
    var tokens := Tokens(text);
    var i := 0;
    while i < |tokens|
      invariant 0 <= i <= |tokens|
      invariant forall j :: 0 <= j < m.dim ==> buckets[j] == Hits(m, tokens[..i], j) as real
    {
      var h := m.hash(tokens[i]);
      buckets[h % m.dim] := buckets[h % m.dim] + 1.0;
      assert tokens[..i + 1][..i] == tokens[..i];
      i := i + 1;
    }
    assert tokens[..i] == tokens;
    var counts := buckets[..];
    assert counts == Counts(m, tokens);
    var norm := m.root(SumSquares(counts, |counts|));
    if norm != 0.0 {
      vec := Scale(counts, norm);
    } else {
      vec := counts;
    }
  }

  // The bucket of a word is its lower-cased text's hash modulo the dimension.
  lemma WordHits(m: Model, w: string, j: nat)
    requires m.dim > 0 && Word(w)
    ensures Hits(m, Tokens(w), j) == if j == m.hash(Lower(w)) % m.dim then 1 else 0
  {
    WordIsToken(w);
    assert [Lower(w)][..0] == [];
  }

  // Two texts apart count what each counts.
  lemma CountsAdd(m: Model, a: string, c: char, b: string, j: nat)
    requires m.dim > 0 && !LetterOrDigit(c) && j < m.dim
    ensures Counts(m, Tokens(a + [c] + b))[j] == Counts(m, Tokens(a))[j] + Counts(m, Tokens(b))[j]
  {
    TokensSplit(a, c, b, "");
    HitsAdd(m, Tokens(a), Tokens(b), j);
  }

  // An embedding is the counts, scaled to length one.
  lemma EmbeddingIsScaledCounts(m: Model, text: string, j: nat)
    requires m.dim > 0 && ExactRoot(m.root) && j < m.dim && Tokens(text) != []
    ensures var length := m.root(SumSquares(Counts(m, Tokens(text)), m.dim));
            |Embed(m, text)| == m.dim && Times(length, Embed(m, text)[j]) == Counts(m, Tokens(text))[j]
  {
    var counts := Counts(m, Tokens(text));
    var t := Tokens(text);
    var k := m.hash(t[|t|-1]) % m.dim;
    assert Hits(m, t, k) > 0;
    PositiveEntry(counts, k, m.dim);
    NormalisedDirection(m.root, counts, j);
  }
}
