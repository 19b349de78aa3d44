/** Finite sums over real sequences, and the reshapes and marginals of a
    flattened volume that the heatmap decoder reduces with `sum(dim=...)`. */
module Sums {

  /** Sum of a sequence of reals (a `sum` over one axis). */
  function Sum(s: seq<real>): real
  {
    if |s| == 0 then 0.0 else s[0] + Sum(s[1..])
  }

  lemma {:induction false} SumConcat(a: seq<real>, b: seq<real>)
    ensures Sum(a + b) == Sum(a) + Sum(b)
  {
    if |a| == 0 {
      assert a + b == b;
    } else {
      assert (a + b)[1..] == a[1..] + b;
      SumConcat(a[1..], b);
    }
  }

  /** Summing is linear: a pointwise scaled sequence sums to the scaled sum. */
  lemma {:induction false} SumScale(s: seq<real>, t: seq<real>, c: real)
    requires |t| == |s|
    requires forall i :: 0 <= i < |s| ==> t[i] == c * s[i]
    ensures Sum(t) == c * Sum(s)
  {
    if |s| > 0 {
      SumScale(s[1..], t[1..], c);
    }
  }

  /** Summing is additive: a pointwise sum of two sequences sums to the sum of sums. */
  lemma {:induction false} SumAdd(s: seq<real>, t: seq<real>, u: seq<real>)
    requires |s| == |t| == |u|
    requires forall i :: 0 <= i < |u| ==> u[i] == s[i] + t[i]
    ensures Sum(u) == Sum(s) + Sum(t)
  {
    if |u| > 0 {
      SumAdd(s[1..], t[1..], u[1..]);
    }
  }

  /** Summing is monotone. */
  lemma {:induction false} SumMono(s: seq<real>, t: seq<real>)
    requires |s| == |t|
    requires forall i :: 0 <= i < |s| ==> s[i] <= t[i]
    ensures Sum(s) <= Sum(t)
  {
    if |s| > 0 {
      SumMono(s[1..], t[1..]);
    }
  }

  lemma {:induction false} SumNonNeg(s: seq<real>)
    requires forall i :: 0 <= i < |s| ==> 0.0 <= s[i]
    ensures 0.0 <= Sum(s)
  {
    if |s| > 0 {
      SumNonNeg(s[1..]);
    }
  }

  /** A sequence that is zero everywhere except at index k sums to its entry at k. */
  lemma {:induction false} SumSingle(s: seq<real>, k: int)
    requires 0 <= k < |s|
    requires forall i :: 0 <= i < |s| && i != k ==> s[i] == 0.0
    ensures Sum(s) == s[k]
  {
    if k == 0 {
      SumZero(s[1..]);
    } else {
      SumSingle(s[1..], k - 1);
    }
  }

  lemma {:induction false} SumZero(s: seq<real>)
    requires forall i :: 0 <= i < |s| ==> s[i] == 0.0
    ensures Sum(s) == 0.0
  {
    if |s| > 0 {
      SumZero(s[1..]);
    }
  }

  /** `n` consecutive slices of length `m` of `s` (a reshape of one axis into two). */
  function Chunks<T>(s: seq<T>, n: nat, m: nat): (r: seq<seq<T>>)
    requires |s| == n * m
    ensures |r| == n
    ensures forall i :: 0 <= i < n ==> |r[i]| == m
  {
    seq(n, i requires 0 <= i < n => Slice(s, n, m, i))
  }

  function Slice<T>(s: seq<T>, n: nat, m: nat, i: nat): (r: seq<T>)
    requires |s| == n * m && i < n
    ensures |r| == m
  {
    ChunkBound(i, n, m);
    s[i * m .. i * m + m]
  }

  /** Entry j of chunk i is entry i*m + j of the flat sequence. */
  lemma ChunksAt<T>(s: seq<T>, n: nat, m: nat, i: nat, j: nat)
    requires |s| == n * m && i < n && j < m
    ensures i * m + j < |s| && Chunks(s, n, m)[i][j] == s[i * m + j]
  {
    ChunkBound(i, n, m);
  }

  lemma ChunkBound(i: nat, n: nat, m: nat)
    requires i < n
    ensures 0 <= i * m && i * m + m <= n * m
  {
    assert (n - i - 1) * m >= 0;
    assert (n - i - 1) * m == n * m - i * m - m;
  }

  /** Sum of every row of a matrix (summing out the last axis). */
  function RowSums(m: seq<seq<real>>): (r: seq<real>)
    ensures |r| == |m|
  {
    seq(|m|, i requires 0 <= i < |m| => Sum(m[i]))
  }

  predicate IsRectangle(m: seq<seq<real>>, width: nat)
  {
    forall i :: 0 <= i < |m| ==> |m[i]| == width
  }

  /** Sum of every column of a rectangular matrix (summing out the first axis). */
  function ColumnSums(m: seq<seq<real>>, width: nat): (r: seq<real>)
    requires IsRectangle(m, width)
    ensures |r| == width
  {
    seq(width, j requires 0 <= j < width => Sum(Column(m, width, j)))
  }

  function Column(m: seq<seq<real>>, width: nat, j: nat): (c: seq<real>)
    requires IsRectangle(m, width) && j < width
    ensures |c| == |m| && forall i :: 0 <= i < |m| ==> c[i] == m[i][j]
  {
    seq(|m|, i requires 0 <= i < |m| => m[i][j])
  }

  /** Summing a matrix by columns or by rows gives the same total. */
  lemma {:induction false} SumExchange(m: seq<seq<real>>, width: nat)
    requires IsRectangle(m, width)
    ensures Sum(ColumnSums(m, width)) == Sum(RowSums(m))
  {
    if |m| == 0 {
      SumZero(ColumnSums(m, width));
    } else {
      var rest := m[1..];
      SumExchange(rest, width);
      forall j | 0 <= j < width
        ensures ColumnSums(m, width)[j] == m[0][j] + ColumnSums(rest, width)[j]
      {
        assert Column(m, width, j)[1..] == Column(rest, width, j);
      }
      SumAdd(m[0], ColumnSums(rest, width), ColumnSums(m, width));
      assert RowSums(m)[1..] == RowSums(rest);
    }
  }

  /** Reshaping one axis into (n, m) keeps the total. */
  lemma {:induction false} SumChunks(s: seq<real>, n: nat, m: nat)
    requires |s| == n * m
    ensures Sum(RowSums(Chunks(s, n, m))) == Sum(s)
  {
    if n == 0 {
      assert s == [];
      assert RowSums(Chunks(s, n, m)) == [];
    } else {
      var chunks := Chunks(s, n, m);
      ChunksTail(s, n, m);
      SumChunks(s[m..], n - 1, m);
      assert RowSums(chunks)[1..] == RowSums(chunks[1..]);
      assert s == s[..m] + s[m..];
      SumConcat(s[..m], s[m..]);
    }
  }

  /** The first chunk is the first m entries; the others are the chunks of the rest. */
  lemma ChunksTail<T>(s: seq<T>, n: nat, m: nat)
    requires 0 < n && |s| == n * m
    ensures m <= |s| && |s[m..]| == (n - 1) * m
    ensures Chunks(s, n, m)[0] == s[..m]
    ensures Chunks(s, n, m)[1..] == Chunks(s[m..], n - 1, m)
  {
    ChunkBound(0, n, m);
    MulSucc(n - 1, m);
    var rest := s[m..];
    forall i | 0 <= i < n - 1
      ensures Chunks(s, n, m)[1..][i] == Chunks(rest, n - 1, m)[i]
    {
      MulSucc(i, m);
      ChunkBound(i, n - 1, m);
      assert Chunks(s, n, m)[1..][i] == s[i * m + m .. i * m + m + m];
      assert Chunks(rest, n - 1, m)[i] == rest[i * m .. i * m + m];
      assert rest[i * m .. i * m + m] == s[i * m + m .. i * m + m + m];
    }
  }

  lemma MulSucc(i: nat, m: nat)
    ensures (i + 1) * m == i * m + m
  {
  }
}
