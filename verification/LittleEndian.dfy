/** Little-endian integers and arrays of them, as bytes. */
module LittleEndian {

  type Byte = x: nat | x < 256

  function Power(k: nat): (p: nat)
    ensures p > 0
  {
    if k == 0 then 1 else 256 * Power(k - 1)
  }

  function PutLe(v: nat, k: nat): (bytes: seq<Byte>)
    ensures |bytes| == k
  {
    if k == 0 then [] else [v % 256] + PutLe(v / 256, k - 1)
  }

  function GetLe(bytes: seq<Byte>): nat {
    if bytes == [] then 0 else bytes[0] + 256 * GetLe(bytes[1..])
  }

  lemma {:induction false} GetPut(v: nat, k: nat)
    requires v < Power(k)
    ensures GetLe(PutLe(v, k)) == v
  {
    if k > 0 {
      assert PutLe(v, k)[1..] == PutLe(v / 256, k - 1);
      GetPut(v / 256, k - 1);
    }
  }

  lemma {:induction false} PutGet(bytes: seq<Byte>)
    ensures GetLe(bytes) < Power(|bytes|) && PutLe(GetLe(bytes), |bytes|) == bytes
  {
    if bytes != [] {
      var rest := GetLe(bytes[1..]);
      PutGet(bytes[1..]);
      assert (bytes[0] + 256 * rest) / 256 == rest && (bytes[0] + 256 * rest) % 256 == bytes[0];
      assert bytes == [bytes[0]] + bytes[1..];
    }
  }

  /** The loop that assembles an integer from the lowest byte up. */
  method GetLeLoop(bytes: seq<Byte>, offset: nat, k: nat) returns (v: nat)
    requires offset + k <= |bytes|
    ensures v == GetLe(bytes[offset..offset + k])
  {
    v := 0;
    var i: nat, scale: nat := 0, 1;
    assert bytes[offset..offset + 0] == [];
    while i < k
      invariant i <= k && scale == Power(i)
      invariant v == GetLe(bytes[offset..offset + i])
    {
      GetLast(bytes[offset..offset + i + 1]);
      assert bytes[offset..offset + i + 1][..i] == bytes[offset..offset + i];
      v := v + bytes[offset + i] * scale;
      scale := scale * 256;
      i := i + 1;
    }
  }

  lemma {:induction false} GetLast(bytes: seq<Byte>)
    requires bytes != []
    ensures GetLe(bytes) == GetLe(bytes[..|bytes| - 1]) + bytes[|bytes| - 1] * Power(|bytes| - 1)
  {
    var n := |bytes| - 1;
    if n > 0 {
      GetLast(bytes[1..]);
      assert bytes[1..][..n - 1] == bytes[..n][1..];
      Shifted(GetLe(bytes[1..n]), bytes[n], Power(n - 1));
    }
  }

  lemma Shifted(low: nat, b: nat, p: nat)
    ensures 256 * (low + b * p) == 256 * low + b * (256 * p)
  {
  }

  // ----- arrays of integers -----

  /** `k` bytes for each word. */
  function Bytes(words: seq<nat>, k: nat): (bytes: seq<Byte>)
    ensures |bytes| == k * |words|
  {
    if words == [] then [] else Bytes(words[..|words| - 1], k) + PutLe(words[|words| - 1], k)
  }

  /** Word `w` of an array. */
  function WordAt(bytes: seq<Byte>, k: nat, w: nat): nat
    requires k * w + k <= |bytes|
  {
    GetLe(bytes[k * w..k * w + k])
  }

  predicate FitIn(words: seq<nat>, k: nat) {
    forall w: nat | w < |words| :: words[w] < Power(k)
  }

  /** Word `w` of an array is there and has a certain value. */
  predicate Reads(bytes: seq<Byte>, k: nat, w: nat, v: nat) {
    k * w + k <= |bytes| && WordAt(bytes, k, w) == v
  }

  lemma {:induction false} BytesRead(words: seq<nat>, k: nat, w: nat)
    requires w < |words| && FitIn(words, k)
    ensures Reads(Bytes(words, k), k, w, words[w])
  {
    var n := |words| - 1;
    var front, last := Bytes(words[..n], k), PutLe(words[n], k);
    Scaled(k, w, n);
    GetPut(words[n], k);
    if w == n {
      assert Bytes(words, k)[k * w..k * w + k] == last;
    } else {
      BytesRead(words[..n], k, w);
      PrefixReads(front, last, k, w, words[w]);
    }
  }

  lemma PrefixReads(front: seq<Byte>, last: seq<Byte>, k: nat, w: nat, v: nat)
    requires Reads(front, k, w, v)
    ensures Reads(front + last, k, w, v)
  {
    assert (front + last)[k * w..k * w + k] == front[k * w..k * w + k];
  }

  lemma Scaled(k: nat, w: nat, n: nat)
    requires w <= n
    ensures k * w <= k * n && k * (n + 1) == k * n + k && (w < n ==> k * w + k <= k * n)
  {
    if w < n {
      Scaled(k, w, n - 1);
      assert k * n == k * (n - 1) + k;
    }
  }

  lemma FrontReads(bytes: seq<Byte>, k: nat, w: nat, n: nat, v: nat)
    requires w < n && k * n <= |bytes| && Reads(bytes, k, w, v)
    ensures Reads(bytes[..k * n], k, w, v)
  {
    Scaled(k, w, n);
    assert bytes[..k * n][k * w..k * w + k] == bytes[k * w..k * w + k];
  }

  ghost predicate ReadAs(bytes: seq<Byte>, k: nat, words: seq<nat>) {
    forall w: nat | w < |words| :: Reads(bytes, k, w, words[w])
  }

  /** Bytes are determined by their words. */
  lemma {:induction false} BytesOfWords(bytes: seq<Byte>, words: seq<nat>, k: nat)
    requires |bytes| == k * |words| && ReadAs(bytes, k, words)
    ensures Bytes(words, k) == bytes && FitIn(words, k)
  {
    if words != [] {
      var n := |words| - 1;
      Scaled(k, n, n);
      FrontIsRead(bytes, words, k, n);
      BytesOfWords(bytes[..k * n], words[..n], k);
      LastIsPut(bytes, k, n, words[n]);
      FitNext(words, k, n);
    }
  }

  lemma FrontIsRead(bytes: seq<Byte>, words: seq<nat>, k: nat, n: nat)
    requires n <= |words| && k * n <= |bytes| && ReadAs(bytes, k, words)
    ensures ReadAs(bytes[..k * n], k, words[..n])
  {
    hide Reads;
    forall w: nat | w < n
      ensures Reads(bytes[..k * n], k, w, words[..n][w])
    {
      assert Reads(bytes, k, w, words[w]);
      FrontReads(bytes, k, w, n, words[w]);
    }
  }

  lemma LastIsPut(bytes: seq<Byte>, k: nat, n: nat, v: nat)
    requires |bytes| == k * n + k && Reads(bytes, k, n, v)
    ensures v < Power(k) && bytes == bytes[..k * n] + PutLe(v, k)
  {
    PutGet(bytes[k * n..k * n + k]);
  }

  lemma FitNext(words: seq<nat>, k: nat, n: nat)
    requires |words| == n + 1 && FitIn(words[..n], k) && words[n] < Power(k)
    ensures FitIn(words, k)
  {
    forall w: nat | w <= n
      ensures words[w] < Power(k)
    {
      if w < n {
        assert words[..n][w] < Power(k);
      }
    }
  }

  // ----- regions of an array -----

  /** The words from `first` on are exactly `words`. */
  ghost predicate RegionReads(bytes: seq<Byte>, k: nat, first: nat, words: seq<nat>) {
    forall j: nat | j < |words| :: Reads(bytes, k, first + j, words[j])
  }

  lemma RegionAppend(bytes: seq<Byte>, k: nat, first: nat, a: seq<nat>, b: seq<nat>)
    ensures RegionReads(bytes, k, first, a + b)
       <==> RegionReads(bytes, k, first, a) && RegionReads(bytes, k, first + |a|, b)
  {
    hide Reads;
    if RegionReads(bytes, k, first, a + b) {
      forall j: nat | j < |a|
        ensures Reads(bytes, k, first + j, a[j])
      {
        assert Reads(bytes, k, first + j, (a + b)[j]);
      }
      forall j: nat | j < |b|
        ensures Reads(bytes, k, first + |a| + j, b[j])
      {
        assert Reads(bytes, k, first + (|a| + j), (a + b)[|a| + j]);
      }
    }
    if RegionReads(bytes, k, first, a) && RegionReads(bytes, k, first + |a|, b) {
      forall j: nat | j < |a + b|
        ensures Reads(bytes, k, first + j, (a + b)[j])
      {
        if j >= |a| {
          assert Reads(bytes, k, first + |a| + (j - |a|), b[j - |a|]);
        }
      }
    }
  }

  /** An array is the bytes of some words exactly when it has their size and reads as them. */
  lemma BytesAreWords(bytes: seq<Byte>, words: seq<nat>, k: nat)
    requires FitIn(words, k)
    ensures bytes == Bytes(words, k) <==> |bytes| == k * |words| && RegionReads(bytes, k, 0, words)
  {
    hide Reads;
    if |bytes| == k * |words| && RegionReads(bytes, k, 0, words) {
      forall w: nat | w < |words|
        ensures Reads(bytes, k, w, words[w])
      {
        assert Reads(bytes, k, 0 + w, words[w]);
      }
      BytesOfWords(bytes, words, k);
    }
    if bytes == Bytes(words, k) {
      forall w: nat | w < |words|
        ensures Reads(bytes, k, 0 + w, words[w])
      {
        BytesRead(words, k, w);
      }
    }
  }

  lemma RegionFits(bytes: seq<Byte>, words: seq<nat>, k: nat)
    requires |bytes| == k * |words| && RegionReads(bytes, k, 0, words)
    ensures FitIn(words, k)
  {
    hide Reads;
    forall w: nat | w < |words|
      ensures Reads(bytes, k, w, words[w])
    {
      assert Reads(bytes, k, 0 + w, words[w]);
    }
    BytesOfWords(bytes, words, k);
  }

  lemma RegionWord(bytes: seq<Byte>, k: nat, first: nat, words: seq<nat>, j: nat)
    requires RegionReads(bytes, k, first, words) && j < |words|
    ensures Reads(bytes, k, first + j, words[j])
  {
    hide Reads;
  }

  lemma RegionNext(bytes: seq<Byte>, k: nat, first: nat, words: seq<nat>, v: nat)
    requires RegionReads(bytes, k, first, words) && Reads(bytes, k, first + |words|, v)
    ensures RegionReads(bytes, k, first, words + [v])
  {
    hide Reads;
  }

  lemma RegionOne(bytes: seq<Byte>, k: nat, first: nat, v: nat)
    ensures RegionReads(bytes, k, first, [v]) <==> Reads(bytes, k, first, v)
    ensures RegionReads(bytes, k, first, [])
  {
    hide Reads;
    if RegionReads(bytes, k, first, [v]) {
      assert Reads(bytes, k, first + 0, [v][0]);
    }
  }

  /** Two readings of the same words agree. */
  lemma RegionsAgree(bytes: seq<Byte>, k: nat, first: nat, a: seq<nat>, b: seq<nat>)
    requires RegionReads(bytes, k, first, a) && RegionReads(bytes, k, first, b) && |a| <= |b|
    ensures a <= b
  {
    forall j: nat | j < |a|
      ensures a[j] == b[j]
    {
      RegionWord(bytes, k, first, a, j);
      RegionWord(bytes, k, first, b, j);
    }
  }
}
