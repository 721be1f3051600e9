/** CRC-32C (section 12.1 of RFC 3720): the table-driven slice-by-8 form against the bit-by-bit definition. */
module Crc32c {

  // Words and the few operations on them; proofs see only the laws proved about each.

  type Word = bv32

  const POLYNOMIAL: Word := 0x82F6_3B78

  function Xor(a: Word, b: Word): Word {
    a ^ b
  }

  function Not(a: Word): Word {
    !a
  }

  function Half(c: Word): Word {
    c >> 1
  }

  predicate Odd(c: Word) {
    c & 1 != 0
  }

  function Wide(d: bv8): Word {
    d as bv32
  }

  function Up8(x: Word): Word {
    x << 8
  }

  function Down8(x: Word): Word {
    x >> 8
  }

  function LowByte(x: Word): bv8 {
    (x & 0xFF) as bv8
  }

  // ----- the definition, one bit at a time -----

  /** One shift of the reflected register. */
  function Step(c: Word): Word {
    if Odd(c) then Xor(Half(c), POLYNOMIAL) else Half(c)
  }

  function Steps(c: Word, n: nat): Word
    decreases n
  {
    if n == 0 then c else Steps(Step(c), n - 1)
  }

  function Feed(c: Word, d: bv8): Word {
    Steps(Xor(c, Wide(d)), 8)
  }

  function Fold(c: Word, data: seq<bv8>): Word {
    if data == [] then c else Feed(Fold(c, data[..|data| - 1]), data[|data| - 1])
  }

  /** The running checksum `crc` continued over `data`. */
  function Crc(crc: Word, data: seq<bv8>): Word {
    Not(Fold(Not(crc), data))
  }

  // ----- laws of words -----

  lemma XorCommutes(a: Word, b: Word)
    ensures Xor(a, b) == Xor(b, a)
  {
  }

  lemma XorAssociates(a: Word, b: Word, c: Word)
    ensures Xor(Xor(a, b), c) == Xor(a, Xor(b, c))
  {
  }

  lemma XorThrough(p: Word, b: Word)
    ensures Xor(p, Xor(b, p)) == b
  {
  }

  lemma XorCancels(a: Word, b: Word, p: Word)
    ensures Xor(Xor(a, p), Xor(b, p)) == Xor(a, b)
  {
    hide Xor;
    XorAssociates(a, p, Xor(b, p));
    XorThrough(p, b);
  }

  lemma HalfXor(a: Word, b: Word)
    ensures Half(Xor(a, b)) == Xor(Half(a), Half(b))
  {
  }

  lemma OddXor(a: Word, b: Word)
    ensures Odd(Xor(a, b)) == (Odd(a) != Odd(b))
  {
  }

  lemma NotTwice(a: Word)
    ensures Not(Not(a)) == a
  {
  }

  // ----- the register is linear -----

  lemma StepLinear(a: Word, b: Word)
    ensures Step(Xor(a, b)) == Xor(Step(a), Step(b))
  {
    hide Xor, Half, Odd;
    HalfXor(a, b);
    OddXor(a, b);
    var h, k, p := Half(a), Half(b), POLYNOMIAL;
    XorCancels(h, k, p);
    XorAssociates(h, k, p);
    XorAssociates(h, p, k);
    XorCommutes(k, p);
  }

  lemma {:induction false} StepsLinear(a: Word, b: Word, n: nat)
    ensures Steps(Xor(a, b), n) == Xor(Steps(a, n), Steps(b, n))
    decreases n
  {
    hide Xor, Step;
    if n > 0 {
      StepLinear(a, b);
      StepsLinear(Step(a), Step(b), n - 1);
    }
  }

  lemma {:induction false} StepsAdd(c: Word, m: nat, n: nat)
    ensures Steps(Steps(c, m), n) == Steps(c, m + n)
    decreases m
  {
    hide Step;
    if m > 0 {
      StepsAdd(Step(c), m - 1, n);
    }
  }

  // ----- shifting whole bytes through -----

  /** The top byte is clear, so nothing is lost by moving up a byte. */
  predicate TopClear(x: Word) {
    x & 0xFF00_0000 == 0
  }

  function Up(x: Word, k: bv32): Word
    requires k <= 8
  {
    x << k
  }

  lemma UpIsEven(x: Word, k: bv32)
    requires 0 < k <= 8
    ensures !Odd(Up(x, k))
  {
  }

  lemma HalfUp(x: Word, k: bv32)
    requires TopClear(x) && 0 < k <= 8
    ensures Half(Up(x, k)) == Up(x, k - 1)
  {
  }

  lemma UpNames(x: Word)
    ensures Up(x, 0) == x && Up(x, 8) == Up8(x)
  {
  }

  lemma StepUp(x: Word, k: bv32)
    requires TopClear(x) && 0 < k <= 8
    ensures Step(Up(x, k)) == Up(x, k - 1)
  {
    hide Odd, Half, Up, TopClear;
    UpIsEven(x, k);
    HalfUp(x, k);
  }

  lemma StepsThroughByte(x: Word)
    requires TopClear(x)
    ensures Steps(Up8(x), 8) == x
  {
    hide Step, Up, Up8, TopClear;
    UpNames(x);
    StepUp(x, 8); StepUp(x, 7); StepUp(x, 6); StepUp(x, 5);
    StepUp(x, 4); StepUp(x, 3); StepUp(x, 2); StepUp(x, 1);
    assert Steps(Up(x, 8), 8) == Steps(Up(x, 7), 7) == Steps(Up(x, 6), 6) == Steps(Up(x, 5), 5);
    assert Steps(Up(x, 5), 5) == Steps(Up(x, 4), 4) == Steps(Up(x, 3), 3) == Steps(Up(x, 2), 2);
    assert Steps(Up(x, 2), 2) == Steps(Up(x, 1), 1) == Steps(Up(x, 0), 0);
  }

  lemma SplitLow(x: Word)
    ensures x == Xor(Up8(Down8(x)), Wide(LowByte(x)))
  {
  }

  lemma DownFits(x: Word)
    ensures TopClear(Down8(x))
  {
  }

  /** What the table stores: byte `b` followed by `k` zero bytes. */
  function Entry(k: nat, b: bv8): Word {
    Steps(Wide(b), 8 * k + 8)
  }

  /** Eight shifts are one table lookup. */
  lemma ByteStep(x: Word)
    ensures Steps(x, 8) == Xor(Down8(x), Entry(0, LowByte(x)))
  {
    hide Xor, Up8, Down8, Wide, LowByte, TopClear, Steps;
    SplitLow(x);
    StepsLinear(Up8(Down8(x)), Wide(LowByte(x)), 8);
    DownFits(x);
    StepsThroughByte(Down8(x));
  }

  /** How `make_tables` gets each table from the one before. */
  lemma EntryNext(k: nat, b: bv8)
    requires k > 0
    ensures Entry(k, b) == Xor(Down8(Entry(k - 1, b)), Entry(0, LowByte(Entry(k - 1, b))))
  {
    hide Xor, Down8, Wide, LowByte, Steps;
    StepsAdd(Wide(b), 8 * k, 8);
    ByteStep(Entry(k - 1, b));
  }

  // ----- eight bytes at once -----

  /** Byte `d` in byte position `j` of a word. */
  function Place(d: bv8, j: nat): Word {
    if j == 0 then Wide(d) else Up8(Place(d, j - 1))
  }

  lemma PlaceFits(d: bv8)
    ensures TopClear(Wide(d)) && TopClear(Up8(Wide(d))) && TopClear(Up8(Up8(Wide(d))))
  {
  }

  lemma Places(d: bv8)
    ensures Place(d, 0) == Wide(d) && Place(d, 1) == Up8(Wide(d))
    ensures Place(d, 2) == Up8(Up8(Wide(d))) && Place(d, 3) == Up8(Up8(Up8(Wide(d))))
  {
    hide Up8, Wide;
    assert Place(d, 1) == Up8(Place(d, 0));
    assert Place(d, 2) == Up8(Place(d, 1));
    assert Place(d, 3) == Up8(Place(d, 2));
  }

  lemma {:induction false} PlaceSteps(d: bv8, j: nat, n: nat)
    requires j <= 3 && 8 * j <= n
    ensures Steps(Place(d, j), n) == Steps(Wide(d), n - 8 * j)
  {
    hide Up8, Wide, TopClear, Steps;
    if j > 0 {
      PlaceFits(d);
      Places(d);
      StepsThroughByte(Place(d, j - 1));
      StepsAdd(Place(d, j), 8, n - 8);
      PlaceSteps(d, j - 1, n - 8);
    }
  }

  /** Adding a byte after `8 * j` shifts is adding it in position `j` before them. */
  lemma LateByte(x: Word, d: bv8, j: nat)
    requires j <= 3
    ensures Feed(Steps(x, 8 * j), d) == Steps(Xor(x, Place(d, j)), 8 * j + 8)
  {
    hide Xor, Wide, Steps, Place;
    PlaceSteps(d, j, 8 * j);
    assert Steps(Wide(d), 0) == Wide(d) by { NoSteps(Wide(d)); }
    StepsLinear(x, Place(d, j), 8 * j);
    StepsAdd(Xor(x, Place(d, j)), 8 * j, 8);
  }

  lemma NoSteps(x: Word)
    ensures Steps(x, 0) == x
  {
  }

  /** The little-endian word made of four bytes. */
  function Load(d0: bv8, d1: bv8, d2: bv8, d3: bv8): Word {
    (d0 as bv32) | ((d1 as bv32) << 8) | ((d2 as bv32) << 16) | ((d3 as bv32) << 24)
  }

  lemma LoadIsPlaced(d0: bv8, d1: bv8, d2: bv8, d3: bv8)
    ensures Load(d0, d1, d2, d3)
         == Xor(Xor(Xor(Wide(d0), Up8(Wide(d1))), Up8(Up8(Wide(d2)))), Up8(Up8(Up8(Wide(d3)))))
  {
  }

  function Joined(a: Word, b: Word, c: Word, d: Word): Word {
    Xor(Xor(Xor(a, b), c), d)
  }

  lemma XorJoined(x: Word, a: Word, b: Word, c: Word, d: Word)
    ensures Xor(x, Joined(a, b, c, d)) == Xor(Xor(Xor(Xor(x, a), b), c), d)
  {
    hide Xor;
    XorAssociates(x, Xor(Xor(a, b), c), d);
    XorAssociates(x, Xor(a, b), c);
    XorAssociates(x, a, b);
  }

  lemma LoadAsPlaces(d0: bv8, d1: bv8, d2: bv8, d3: bv8)
    ensures Load(d0, d1, d2, d3) == Joined(Place(d0, 0), Place(d1, 1), Place(d2, 2), Place(d3, 3))
  {
    hide Xor, Load, Up8, Wide;
    LoadIsPlaced(d0, d1, d2, d3);
    Places(d0); Places(d1); Places(d2); Places(d3);
  }

  lemma FourBytes(c: Word, d0: bv8, d1: bv8, d2: bv8, d3: bv8)
    ensures Feed(Feed(Feed(Feed(c, d0), d1), d2), d3) == Steps(Xor(c, Load(d0, d1, d2, d3)), 32)
  {
    hide Xor, Load, Place, Steps, Feed, Joined;
    NoSteps(c);
    var x0 := Xor(c, Place(d0, 0));
    var x1 := Xor(x0, Place(d1, 1));
    var x2 := Xor(x1, Place(d2, 2));
    LateByte(c, d0, 0);
    LateByte(x0, d1, 1);
    LateByte(x1, d2, 2);
    LateByte(x2, d3, 3);
    LoadAsPlaces(d0, d1, d2, d3);
    XorJoined(c, Place(d0, 0), Place(d1, 1), Place(d2, 2), Place(d3, 3));
  }

  function Byte1(x: Word): bv8 { ((x >> 8) & 0xFF) as bv8 }
  function Byte2(x: Word): bv8 { ((x >> 16) & 0xFF) as bv8 }
  function Byte3(x: Word): bv8 { (x >> 24) as bv8 }

  lemma BytesOfWord(x: Word)
    ensures Load(LowByte(x), Byte1(x), Byte2(x), Byte3(x)) == x
  {
  }

  /** A whole word shifted out is four table lookups. */
  lemma WordOut(x: Word)
    ensures Steps(x, 64) == Joined(Entry(7, LowByte(x)), Entry(6, Byte1(x)), Entry(5, Byte2(x)), Entry(4, Byte3(x)))
  {
    hide Xor, Load, Place, Steps, LowByte, Byte1, Byte2, Byte3;
    var p0, p1, p2, p3 := Place(LowByte(x), 0), Place(Byte1(x), 1), Place(Byte2(x), 2), Place(Byte3(x), 3);
    BytesOfWord(x);
    LoadAsPlaces(LowByte(x), Byte1(x), Byte2(x), Byte3(x));
    StepsLinear(Xor(Xor(p0, p1), p2), p3, 64);
    StepsLinear(Xor(p0, p1), p2, 64);
    StepsLinear(p0, p1, 64);
    PlaceSteps(LowByte(x), 0, 64);
    PlaceSteps(Byte1(x), 1, 64);
    PlaceSteps(Byte2(x), 2, 64);
    PlaceSteps(Byte3(x), 3, 64);
  }

  lemma FeedAsEntry(s: Word, d: bv8)
    ensures Feed(s, d) == Xor(Steps(s, 8), Entry(0, d))
  {
    hide Xor, Wide, Steps;
    StepsLinear(s, Wide(d), 8);
  }

  lemma EntryShifted(k: nat, d: bv8)
    ensures Steps(Entry(k, d), 8) == Entry(k + 1, d)
  {
    hide Wide, Steps;
    StepsAdd(Wide(d), 8 * k + 8, 8);
  }

  lemma LastFour(x: Word, d4: bv8, d5: bv8, d6: bv8, d7: bv8)
    ensures Feed(Feed(Feed(Feed(Steps(x, 32), d4), d5), d6), d7)
         == Xor(Xor(Xor(Xor(Steps(x, 64), Entry(3, d4)), Entry(2, d5)), Entry(1, d6)), Entry(0, d7))
  {
    hide Xor, Steps, Feed, Entry;
    StepsAdd(x, 32, 8); StepsAdd(x, 40, 8); StepsAdd(x, 48, 8); StepsAdd(x, 56, 8);
    EntryShifted(0, d4); EntryShifted(1, d4); EntryShifted(2, d4);
    EntryShifted(0, d5); EntryShifted(1, d5);
    EntryShifted(0, d6);
    var s4 := Xor(Steps(x, 40), Entry(0, d4));
    FeedAsEntry(Steps(x, 32), d4);
    StepsLinear(Steps(x, 40), Entry(0, d4), 8);
    var s5 := Xor(Xor(Steps(x, 48), Entry(1, d4)), Entry(0, d5));
    FeedAsEntry(s4, d5);
    StepsLinear(Xor(Steps(x, 48), Entry(1, d4)), Entry(0, d5), 8);
    StepsLinear(Steps(x, 48), Entry(1, d4), 8);
    var s6 := Xor(Xor(Xor(Steps(x, 56), Entry(2, d4)), Entry(1, d5)), Entry(0, d6));
    FeedAsEntry(s5, d6);
    StepsLinear(Xor(Xor(Steps(x, 56), Entry(2, d4)), Entry(1, d5)), Entry(0, d6), 8);
    StepsLinear(Xor(Steps(x, 56), Entry(2, d4)), Entry(1, d5), 8);
    StepsLinear(Steps(x, 56), Entry(2, d4), 8);
    FeedAsEntry(s6, d7);
  }

  /** The slice-by-8 step. */
  lemma EightBytes(c: Word, d0: bv8, d1: bv8, d2: bv8, d3: bv8, d4: bv8, d5: bv8, d6: bv8, d7: bv8)
    ensures var lo := Xor(c, Load(d0, d1, d2, d3));
            Feed(Feed(Feed(Feed(Feed(Feed(Feed(Feed(c, d0), d1), d2), d3), d4), d5), d6), d7)
            == Xor(Xor(Xor(Xor(
                 Joined(Entry(7, LowByte(lo)), Entry(6, Byte1(lo)), Entry(5, Byte2(lo)), Entry(4, Byte3(lo))),
                 Entry(3, d4)), Entry(2, d5)), Entry(1, d6)), Entry(0, d7))
  {
    hide Xor, Load, Steps, Feed, Entry, LowByte, Byte1, Byte2, Byte3, Joined;
    var lo := Xor(c, Load(d0, d1, d2, d3));
    FourBytes(c, d0, d1, d2, d3);
    LastFour(lo, d4, d5, d6, d7);
    WordOut(lo);
  }

  /** The byte-at-a-time step of the tail. */
  lemma TailByte(c: Word, d: bv8)
    ensures Feed(c, d) == Xor(Down8(c), Entry(0, LowByte(Xor(c, Wide(d)))))
  {
    hide Xor, Down8, Wide, LowByte, Steps, Entry;
    ByteStep(Xor(c, Wide(d)));
    DownIgnoresByte(c, d);
  }

  lemma DownIgnoresByte(c: Word, d: bv8)
    ensures Down8(Xor(c, Wide(d))) == Down8(c)
  {
  }

  // ----- the tables and the algorithm -----

  ghost predicate IsTable(t: array2<Word>, k: nat)
    reads t
  {
    && t.Length0 == 8 && t.Length1 == 256 && k < 8
    && forall b: bv8 :: t[k, b as nat] == Entry(k, b)
  }

  ghost predicate AreTables(t: array2<Word>)
    reads t
  {
    forall k: nat | k < 8 :: IsTable(t, k)
  }

  lemma FoldNext(c: Word, data: seq<bv8>, i: nat)
    requires i < |data|
    ensures Fold(c, data[..i + 1]) == Feed(Fold(c, data[..i]), data[i])
  {
    assert data[..i + 1][..i] == data[..i];
  }

  lemma FoldNext8(c: Word, data: seq<bv8>, i: nat)
    requires i + 8 <= |data|
    ensures Fold(c, data[..i + 8])
         == Feed(Feed(Feed(Feed(Feed(Feed(Feed(Feed(Fold(c, data[..i]), data[i]), data[i + 1]), data[i + 2]), data[i + 3]),
              data[i + 4]), data[i + 5]), data[i + 6]), data[i + 7])
  {
    hide Feed, Fold;
    FoldNext(c, data, i); FoldNext(c, data, i + 1); FoldNext(c, data, i + 2); FoldNext(c, data, i + 3);
    FoldNext(c, data, i + 4); FoldNext(c, data, i + 5); FoldNext(c, data, i + 6); FoldNext(c, data, i + 7);
  }

  /** Eight shifts of one byte. */
  method ShiftByte(b: bv8) returns (crc: Word)
    ensures crc == Entry(0, b)
  {
    hide Xor, Half, Odd, Wide;
    crc := Wide(b);
    var bit: nat := 0;
    NoSteps(Wide(b));
    while bit < 8
      invariant bit <= 8
      invariant crc == Steps(Wide(b), bit)
    {
      StepsAdd(Wide(b), bit, 1);
      OneStep(crc);
      crc := if Odd(crc) then Xor(Half(crc), POLYNOMIAL) else Half(crc);
      bit := bit + 1;
    }
  }

  method MakeTables() returns (t: array2<Word>)
    ensures fresh(t) && AreTables(t)
  {
    hide Xor, Down8, LowByte, Entry;
    t := new Word[8, 256];
    var b: nat := 0;
    while b < 256
      invariant b <= 256
      invariant forall n: nat | n < b :: t[0, n] == Entry(0, n as bv8)
    {
      var crc := ShiftByte(b as bv8);
      t[0, b] := crc;
      b := b + 1;
    }
    b := 0;
    while b < 256
      invariant b <= 256
      invariant forall n: nat | n < 256 :: t[0, n] == Entry(0, n as bv8)
      invariant forall k: nat, n: nat | k < 8 && n < b :: t[k, n] == Entry(k, n as bv8)
    {
      var k: nat := 1;
      while k < 8
        invariant 1 <= k <= 8
        invariant forall n: nat | n < 256 :: t[0, n] == Entry(0, n as bv8)
        invariant forall j: nat, n: nat | j < 8 && n < b :: t[j, n] == Entry(j, n as bv8)
        invariant forall j: nat | j < k :: t[j, b] == Entry(j, b as bv8)
      {
        EntryNext(k, b as bv8);
        var prev := t[k - 1, b];
        ByteIndex(LowByte(prev));
        t[k, b] := Xor(Down8(prev), t[0, LowByte(prev) as nat]);
        k := k + 1;
      }
      b := b + 1;
    }
  }

  lemma ByteIndex(x: bv8)
    ensures (x as nat) as bv8 == x && x as nat < 256
  {
  }

  lemma OneStep(c: Word)
    ensures Steps(c, 1) == if Odd(c) then Xor(Half(c), POLYNOMIAL) else Half(c)
  {
    hide Xor, Half, Odd;
    NoSteps(Step(c));
  }

  method Extend(t: array2<Word>, crc: Word, data: seq<bv8>) returns (r: Word)
    requires AreTables(t)
    ensures r == Crc(crc, data)
  {
    hide Xor, Not, Wide, Down8, LowByte, Load, Byte1, Byte2, Byte3, Feed, Fold, Entry;
    assert IsTable(t, 0) && IsTable(t, 1) && IsTable(t, 2) && IsTable(t, 3);
    assert IsTable(t, 4) && IsTable(t, 5) && IsTable(t, 6) && IsTable(t, 7);
    var c := Not(crc);
    FoldNothing(c);
    assert data[..0] == [];
    var i, n := 0, |data|;
    while i + 8 <= n
      invariant 0 <= i <= n
      invariant c == Fold(Not(crc), data[..i])
    {
      FoldNext8(Not(crc), data, i);
      EightBytes(c, data[i], data[i + 1], data[i + 2], data[i + 3], data[i + 4], data[i + 5], data[i + 6], data[i + 7]);
      var lo := Xor(c, Load(data[i], data[i + 1], data[i + 2], data[i + 3]));
      c := Xor(Xor(Xor(Xor(Xor(Xor(Xor(
             t[7, LowByte(lo) as nat], t[6, Byte1(lo) as nat]), t[5, Byte2(lo) as nat]), t[4, Byte3(lo) as nat]),
             t[3, data[i + 4] as nat]), t[2, data[i + 5] as nat]), t[1, data[i + 6] as nat]), t[0, data[i + 7] as nat]);
      i := i + 8;
    }
    while i < n
      invariant 0 <= i <= n
      invariant c == Fold(Not(crc), data[..i])
    {
      FoldNext(Not(crc), data, i);
      TailByte(c, data[i]);
      c := Xor(Down8(c), t[0, LowByte(Xor(c, Wide(data[i]))) as nat]);
      i := i + 1;
    }
    assert data[..i] == data;
    return Not(c);
  }

  lemma FoldNothing(c: Word)
    ensures Fold(c, []) == c
  {
  }

  // ----- what the checksum promises -----

  lemma {:induction false} FoldAppends(c: Word, a: seq<bv8>, b: seq<bv8>)
    ensures Fold(c, a + b) == Fold(Fold(c, a), b)
  {
    hide Feed;
    if b == [] {
      assert a + b == a;
    } else {
      assert (a + b)[..|a + b| - 1] == a + b[..|b| - 1];
      FoldAppends(c, a, b[..|b| - 1]);
    }
  }

  /** Continuing over `a` and then `b` is continuing over `a + b`, wherever the data is cut. */
  lemma ExtendAppends(crc: Word, a: seq<bv8>, b: seq<bv8>)
    ensures Crc(Crc(crc, a), b) == Crc(crc, a + b)
  {
    hide Not, Fold;
    NotTwice(Fold(Not(crc), a));
    FoldAppends(Not(crc), a, b);
  }

  // ----- the polynomial division of RFC 3720, most significant bit first -----

  const GENERATOR: Word := 0x1EDC_6F41

  /** Bit `i` goes to position `31 - i`. */
  function Reversed(x: Word): Word {
    ((x & 0x1) << 31) | ((x & 0x2) << 29) | ((x & 0x4) << 27) | ((x & 0x8) << 25)
    | ((x & 0x10) << 23) | ((x & 0x20) << 21) | ((x & 0x40) << 19) | ((x & 0x80) << 17)
    | ((x & 0x100) << 15) | ((x & 0x200) << 13) | ((x & 0x400) << 11) | ((x & 0x800) << 9)
    | ((x & 0x1000) << 7) | ((x & 0x2000) << 5) | ((x & 0x4000) << 3) | ((x & 0x8000) << 1)
    | ((x & 0x10000) >> 1) | ((x & 0x20000) >> 3) | ((x & 0x40000) >> 5) | ((x & 0x80000) >> 7)
    | ((x & 0x100000) >> 9) | ((x & 0x200000) >> 11) | ((x & 0x400000) >> 13) | ((x & 0x800000) >> 15)
    | ((x & 0x1000000) >> 17) | ((x & 0x2000000) >> 19) | ((x & 0x4000000) >> 21) | ((x & 0x8000000) >> 23)
    | ((x & 0x10000000) >> 25) | ((x & 0x20000000) >> 27) | ((x & 0x40000000) >> 29) | ((x & 0x80000000) >> 31)
  }

  function Doubled(x: Word): Word {
    x << 1
  }

  predicate Top(x: Word) {
    x & 0x8000_0000 != 0
  }

  /** The remainder register takes one message bit: shift left, and subtract the generator if a one falls out. */
  function Divide(r: Word, bit: bool): Word {
    if Top(r) != bit then Xor(Doubled(r), GENERATOR) else Doubled(r)
  }

  predicate LowBit(d: bv8) {
    d & 1 != 0
  }

  function Rest(d: bv8): bv8 {
    d >> 1
  }

  /** The last `n` bits of a byte in transmission order, least significant first. */
  function DivideBits(r: Word, d: bv8, n: nat): Word
    decreases n
  {
    if n == 0 then r else DivideBits(Divide(r, LowBit(d)), Rest(d), n - 1)
  }

  function Remainder(r: Word, data: seq<bv8>): Word {
    if data == [] then r else DivideBits(Remainder(r, data[..|data| - 1]), data[|data| - 1], 8)
  }

  lemma ReversedShift(x: Word)
    ensures Reversed(x >> 1) == Reversed(x) << 1
  {
  }

  lemma ReversedHalf(x: Word)
    ensures Reversed(Half(x)) == Doubled(Reversed(x))
  {
    hide Reversed;
    ReversedShift(x);
  }

  lemma ReversedXor(a: Word, b: Word)
    ensures Reversed(Xor(a, b)) == Xor(Reversed(a), Reversed(b))
  {
  }

  lemma ReversedTop(x: Word)
    ensures Top(Reversed(x)) == Odd(x)
  {
  }

  lemma ReversedTwice(x: Word)
    ensures Reversed(Reversed(x)) == x
  {
  }

  lemma ReversedConstants()
    ensures Reversed(POLYNOMIAL) == GENERATOR && Reversed(0xFFFF_FFFF) == 0xFFFF_FFFF && Not(0) == 0xFFFF_FFFF
  {
  }

  /** A message bit as a word. */
  function BitWord(bit: bool): Word {
    if bit then 1 else 0
  }

  lemma AddBit(c: Word, bit: bool)
    ensures Odd(Xor(c, BitWord(bit))) == (Odd(c) != bit) && Half(Xor(c, BitWord(bit))) == Half(c)
  {
  }

  lemma StepDivides(c: Word, bit: bool)
    ensures Reversed(Step(Xor(c, BitWord(bit)))) == Divide(Reversed(c), bit)
  {
    hide Xor, Odd, Half, Reversed, Top, Doubled, BitWord;
    AddBit(c, bit);
    ReversedHalf(c);
    ReversedTop(c);
    ReversedXor(Half(c), POLYNOMIAL);
    ReversedConstants();
  }

  /** Peeling one bit off a byte that is yet to be fed in. */
  lemma PeelBit(d: bv8)
    ensures Wide(d) == Xor(BitWord(LowBit(d)), Up(Wide(Rest(d)), 1)) && TopClear(Wide(Rest(d)))
  {
  }

  lemma PeelStep(c: Word, d: bv8)
    ensures Step(Xor(c, Wide(d))) == Xor(Step(Xor(c, BitWord(LowBit(d)))), Wide(Rest(d)))
  {
    hide Xor, Step, Wide, BitWord, LowBit, Rest, Up, TopClear;
    PeelBit(d);
    XorAssociates(c, BitWord(LowBit(d)), Up(Wide(Rest(d)), 1));
    StepLinear(Xor(c, BitWord(LowBit(d))), Up(Wide(Rest(d)), 1));
    StepUp(Wide(Rest(d)), 1);
    UpNames(Wide(Rest(d)));
  }

  predicate BitsBelow(d: bv8, n: nat)
    decreases n
  {
    if n == 0 then d == 0 else BitsBelow(Rest(d), n - 1)
  }

  lemma EightBits(d: bv8)
    ensures BitsBelow(d, 8)
  {
    var r2 := Rest(Rest(d));
    var r4 := Rest(Rest(r2));
    var r6 := Rest(Rest(r4));
    ShiftedAway(d);
    hide Rest;
    assert BitsBelow(Rest(Rest(r6)), 0);
    assert BitsBelow(r6, 2);
    assert BitsBelow(r4, 4) == BitsBelow(Rest(r4), 3);
    assert BitsBelow(r2, 6) == BitsBelow(Rest(r2), 5);
    assert BitsBelow(d, 8) == BitsBelow(Rest(d), 7);
  }

  lemma ShiftedAway(d: bv8)
    ensures Rest(Rest(Rest(Rest(Rest(Rest(Rest(Rest(d)))))))) == 0
  {
  }

  lemma XorZero(c: Word)
    ensures Xor(c, Wide(0)) == c
  {
  }

  lemma {:induction false} FeedDivides(c: Word, d: bv8, n: nat)
    requires BitsBelow(d, n)
    ensures Reversed(Steps(Xor(c, Wide(d)), n)) == DivideBits(Reversed(c), d, n)
    decreases n
  {
    hide Xor, Wide, Step, Divide, Reversed, LowBit, Rest;
    if n == 0 {
      XorZero(c);
    } else {
      PeelStep(c, d);
      StepDivides(c, LowBit(d));
      FeedDivides(Step(Xor(c, BitWord(LowBit(d)))), Rest(d), n - 1);
    }
  }

  lemma {:induction false} FoldDivides(c: Word, data: seq<bv8>)
    ensures Reversed(Fold(c, data)) == Remainder(Reversed(c), data)
  {
    hide Xor, Wide, Steps, Reversed, DivideBits;
    if data != [] {
      var front := Fold(c, data[..|data| - 1]);
      FoldDivides(c, data[..|data| - 1]);
      EightBits(data[|data| - 1]);
      FeedDivides(front, data[|data| - 1], 8);
    }
  }

  /** The checksum of RFC 3720: all-ones preset, bits least significant first, remainder reflected and complemented. */
  lemma IsRfc3720(data: seq<bv8>)
    ensures Crc(0, data) == Not(Reversed(Remainder(0xFFFF_FFFF, data)))
  {
    hide Fold, Reversed, Remainder, Not;
    ReversedConstants();
    FoldDivides(Not(0), data);
    ReversedTwice(Fold(Not(0), data));
  }
}
