/** The hashing embedder: one pseudo-random vector per token, summed and normalised. */
module Embeddings {
  import opened Numbers
  import opened Vectors

  /** The `i`-th number drawn from a generator seeded with the token: a library, always the same. */
  type Noise = (string, nat) -> real

  /** The `i`-th component before normalisation. */
  function Sum(tokens: seq<string>, noise: Noise, i: nat): real {
    if tokens == [] then 0.0 else Sum(tokens[..|tokens| - 1], noise, i) + noise(tokens[|tokens| - 1], i)
  }

  function Sums(tokens: seq<string>, noise: Noise, dims: nat): Vector {
    seq(dims, i requires i >= 0 => Sum(tokens, noise, i))
  }

  function Scaled(v: Vector, divisor: real): Vector
    requires divisor != 0.0
  {
    seq(|v|, i requires 0 <= i < |v| => v[i] / divisor)
  }

  lemma SquareOfQuotient(x: real, d: real)
    requires d != 0.0
    ensures (x / d) * (x / d) * (d * d) == x * x
  {
    var q := x / d;
    assert q * d == x;
    assert q * q * (d * d) == (q * d) * (q * d);
  }

  lemma Distribute(a: real, b: real, c: real)
    ensures (a + b) * c == a * c + b * c
  {
  }

  lemma {:induction false} NormOfScaled(v: Vector, d: real)
    requires d != 0.0
    ensures NormSquared(Scaled(v, d)) * (d * d) == NormSquared(v)
  {
    if v != [] {
      NormOfScaled(v[1..], d);
      assert Scaled(v, d)[1..] == Scaled(v[1..], d);
      SquareOfQuotient(v[0], d);
      Distribute((v[0] / d) * (v[0] / d), NormSquared(Scaled(v[1..], d)), d * d);
    }
  }

  lemma Cancel(a: real, b: real)
    requires b > 0.0 && a * b == b
    ensures a == 1.0
  {
    var e := a - 1.0;
    assert e * b == a * b - b;
    assert e > 0.0 ==> e * b > 0.0;
    assert e < 0.0 ==> (-e) * b > 0.0;
  }

  lemma UnitOrZeroByNumbers(a: real, b: real, n: real)
    requires b > 0.0 && a * b == n && (b == n || n == 0.0)
    ensures a == if n == 0.0 then 0.0 else 1.0
  {
    if n != 0.0 {
      Cancel(a, b);
    }
  }

  /** Dividing by the norm gives norm one, except that a vector without length keeps norm zero. */
  lemma NormalisedIsUnitOrZero(v: Vector, d: real)
    requires d > 0.0 && (d * d == NormSquared(v) || NormSquared(v) == 0.0)
    ensures NormSquared(Scaled(v, d)) == if NormSquared(v) == 0.0 then 0.0 else 1.0
  {
    NormOfScaled(v, d);
    StrictSquare(d, 0.0);
    UnitOrZeroByNumbers(NormSquared(Scaled(v, d)), d * d, NormSquared(v));
  }

  /** The embedding: the summed vector over its norm. */
  function Normalised(v: Vector, sqrt: RealFunction): Vector
    requires IsSqrt(sqrt)
  {
    DivisorPositive(v, sqrt);
    Scaled(v, Divisor(v, sqrt))
  }

  lemma NormalisedIs(v: Vector, sqrt: RealFunction)
    requires IsSqrt(sqrt)
    ensures UnitOrZero(Normalised(v, sqrt))
    ensures NormSquared(Normalised(v, sqrt)) == 0.0 <==> NormSquared(v) == 0.0
  {
    DivisorPositive(v, sqrt);
    NormalisedIsUnitOrZero(v, Divisor(v, sqrt));
  }

  /** Normalising changes the length only: scaled back, it is the summed vector. */
  lemma NormalisedScalesBack(v: Vector, sqrt: RealFunction, i: nat)
    requires IsSqrt(sqrt) && i < |v|
    ensures Divisor(v, sqrt) > 0.0 && Normalised(v, sqrt)[i] * Divisor(v, sqrt) == v[i]
  {
    DivisorPositive(v, sqrt);
    QuotientTimes(v[i], Divisor(v, sqrt));
  }

  /** The summed vector is built from the tokens' vectors, each as often as the token occurs, in any order. */
  lemma {:induction false} SumIsAdditive(a: seq<string>, b: seq<string>, noise: Noise, i: nat)
    ensures Sum(a + b, noise, i) == Sum(a, noise, i) + Sum(b, noise, i)
    ensures forall t :: Sum([t], noise, i) == noise(t, i)
  {
    forall t ensures Sum([t], noise, i) == noise(t, i) {
      assert [t][..0] == [];
    }
    if b == [] {
      assert a + b == a;
    } else {
      SumIsAdditive(a, b[..|b| - 1], noise, i);
      assert (a + b)[..|a + b| - 1] == a + b[..|b| - 1];
    }
  }

  class HashingEmbedder {
    const dims: nat
    const noise: Noise

    constructor (dims: nat, noise: Noise)
      ensures this.dims == dims && this.noise == noise
    {
      this.dims := dims;
      this.noise := noise;
    }

    /** Adds one token's vector in place. */
    method AddToken(vector: array<real>, token: string)
      requires vector.Length == dims
      modifies vector
      ensures forall i :: 0 <= i < dims ==> vector[i] == old(vector[i]) + noise(token, i)
    {
      for i := 0 to dims
        invariant forall j :: 0 <= j < dims ==>
          vector[j] == if j < i then old(vector[j]) + noise(token, j) else old(vector[j])
      {
        vector[i] := vector[i] + noise(token, i);
      }
    }

    /** Sums the tokens' vectors, then normalises. */
    method EmbedTokens(tokens: seq<string>, sqrt: RealFunction) returns (v: Vector)
      requires IsSqrt(sqrt)
      ensures v == Normalised(Sums(tokens, noise, dims), sqrt)
      ensures |v| == dims && UnitOrZero(v)
    {
      var vector := new real[dims](_ => 0.0);
      for t := 0 to |tokens|
        invariant forall i :: 0 <= i < dims ==> vector[i] == Sum(tokens[..t], noise, i)
      {
        assert tokens[..t + 1][..t] == tokens[..t];
        AddToken(vector, tokens[t]);
      }
      assert tokens[..|tokens|] == tokens;
      assert vector[..] == Sums(tokens, noise, dims);
      NormalisedIs(vector[..], sqrt);
      v := Normalised(vector[..], sqrt);
    }

    /** Each text's own embedding, in order. */
    method Embed(texts: seq<seq<string>>, sqrt: RealFunction) returns (vectors: seq<Vector>)
      requires IsSqrt(sqrt)
      ensures |vectors| == |texts|
      ensures forall i :: 0 <= i < |vectors| ==>
        vectors[i] == Normalised(Sums(texts[i], noise, dims), sqrt) && |vectors[i]| == dims && UnitOrZero(vectors[i])
    {
      vectors := [];
      for i := 0 to |texts|
        invariant |vectors| == i
        invariant forall j :: 0 <= j < i ==>
          vectors[j] == Normalised(Sums(texts[j], noise, dims), sqrt) && |vectors[j]| == dims && UnitOrZero(vectors[j])
      {
        var v := EmbedTokens(texts[i], sqrt);
        vectors := vectors + [v];
      }
    }
  }
}
