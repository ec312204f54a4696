/** The `chunks` generator: contiguous slices of at most `n` elements. */
module Chunking {

  function Min(a: int, b: int): int
  {
    if a <= b then a else b
  }

  /** The slices `s[i:i+n]` for `i` in `range(0, len(s), n)`, in order. */
  function Chunks<T>(s: seq<T>, n: nat): seq<seq<T>>
    requires n > 0
    decreases |s|
  {
    if |s| == 0 then []
    else
      var k := Min(n, |s|);
      [s[..k]] + Chunks(s[k..], n)
  }

  /** Concatenation of a sequence of sequences. */
  function Flatten<T>(ss: seq<seq<T>>): seq<T>
  {
    if ss == [] then [] else ss[0] + Flatten(ss[1..])
  }

  /** Joining the chunks back together gives the original sequence. */
  lemma {:induction false} FlattenChunks<T>(s: seq<T>, n: nat)
    requires n > 0
    ensures Flatten(Chunks(s, n)) == s
    decreases |s|
  {
    if |s| > 0 {
      var k := Min(n, |s|);
      var cs := Chunks(s, n);
      assert cs[0] == s[..k] && cs[1..] == Chunks(s[k..], n);
      FlattenChunks(s[k..], n);
      assert s[..k] + s[k..] == s;
    }
  }

  lemma MulSucc(c: nat, n: nat)
    ensures (c + 1) * n == c * n + n
  {
  }

  lemma SliceOfSuffix<T>(s: seq<T>, d: nat, a: nat, b: nat)
    requires a <= b && d + b <= |s|
    ensures s[d..][a..b] == s[d + a .. d + b]
  {
  }

  /** The number of chunks `c` is the least with `c * n >= |s|`: that is,
      `c == ceil(|s| / n)`, and `c == 0` exactly for an empty input. */
  lemma {:induction false} ChunkCount<T>(s: seq<T>, n: nat)
    requires n > 0
    ensures |Chunks(s, n)| * n - n < |s| <= |Chunks(s, n)| * n
    decreases |s|
  {
    if |s| > n {
      ChunkCount(s[n..], n);
      MulSucc(|Chunks(s[n..], n)|, n);
    }
  }

  /** Every chunk is non-empty and at most `n` long; all but the last are
      exactly `n` long. */
  lemma {:induction false} ChunkSizes<T>(s: seq<T>, n: nat)
    requires n > 0
    ensures forall i :: 0 <= i < |Chunks(s, n)| ==> 0 < |Chunks(s, n)[i]| <= n
    ensures forall i :: 0 <= i < |Chunks(s, n)| - 1 ==> |Chunks(s, n)[i]| == n
    decreases |s|
  {
    if |s| > 0 {
      var k := Min(n, |s|);
      var cs, rest := Chunks(s, n), Chunks(s[k..], n);
      ChunkSizes(s[k..], n);
      assert cs == [s[..k]] + rest;
      if |s| <= n {
        assert s[k..] == [];
      }
      forall i | 0 < i < |cs|
        ensures 0 < |cs[i]| <= n && (i < |cs| - 1 ==> |cs[i]| == n)
      {
        assert cs[i] == rest[i - 1];
      }
    }
  }

  lemma ChunksTail<T>(s: seq<T>, n: nat, k: nat)
    requires n > 0 && 0 < k < |Chunks(s, n)|
    ensures |s| > n && Chunks(s, n)[k] == Chunks(s[n..], n)[k - 1]
  {
  }

  /** Chunk `k` is the slice `s[k*n : (k+1)*n]`, clipped at the end of `s`,
      just as the generator's range over start offsets produces it. */
  lemma {:induction false} ChunkAt<T>(s: seq<T>, n: nat, k: nat)
    requires n > 0 && k < |Chunks(s, n)|
    ensures k * n < |s|
    ensures Chunks(s, n)[k] == s[k * n .. Min((k + 1) * n, |s|)]
    decreases |s|
  {
    if k > 0 {
      ChunksTail(s, n, k);
      var t := s[n..];
      ChunkAt(t, n, k - 1);
      var lo, hi := (k - 1) * n, k * n;
      MulSucc(k - 1, n);
      MulSucc(k, n);
      var end := Min(hi, |t|);
      SliceOfSuffix(s, n, lo, end);
      assert lo + n == k * n && end + n == Min((k + 1) * n, |s|);
    }
  }
}
