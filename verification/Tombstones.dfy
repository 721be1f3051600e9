/** Deletion markers: one bit per row, packed in 64-bit words, with a maintained count. */
module Tombstones {

  const ROWS_PER_WORD: nat := 64

  /** `1 << i`, as `i` doublings. */
  function Mask(i: nat): bv64 {
    if i == 0 then 1 else Mask(i - 1) << 1
  }

  /** `w >> i`, one place at a time. */
  function ShiftedDown(w: bv64, i: nat): bv64 {
    if i == 0 then w else ShiftedDown(w >> 1, i - 1)
  }

  predicate Bit(w: bv64, i: nat) {
    ShiftedDown(w, i) & 1 != 0
  }

  // ----- one word -----

  lemma {:induction false} MasksDisjoint(i: nat, j: nat)
    requires i < j
    ensures Mask(i) & Mask(j) == 0
  {
    var low, high := Mask(i), Mask(j - 1);
    if i == 0 {
      assert 1 & (high << 1) == 0;
    } else {
      MasksDisjoint(i - 1, j - 1);
      ShiftTogether(Mask(i - 1), high);
    }
  }

  lemma ShiftTogether(a: bv64, b: bv64)
    requires a & b == 0
    ensures (a << 1) & (b << 1) == 0
  {
  }

  lemma TopMask()
    ensures Mask(63) == 0x8000_0000_0000_0000
  {
    Doubled8(0); Doubled8(8); Doubled8(16); Doubled8(24); Doubled8(32); Doubled8(40); Doubled8(48);
    assert Mask(8) == 0x100;
    assert Mask(16) == 0x1_0000;
    assert Mask(56) == 0x100_0000_0000_0000;
    assert Mask(59) == Mask(56) << 1 << 1 << 1;
    assert Mask(62) == Mask(59) << 1 << 1 << 1;
  }

  lemma Doubled2(i: nat)
    ensures Mask(i + 2) == Mask(i) << 2
  {
    assert Mask(i + 2) == Mask(i + 1) << 1;
  }

  lemma Doubled4(i: nat)
    ensures Mask(i + 4) == Mask(i) << 4
  {
    Doubled2(i);
    Doubled2(i + 2);
  }

  lemma Doubled8(i: nat)
    ensures Mask(i + 8) == Mask(i) << 8
  {
    Doubled4(i);
    Doubled4(i + 4);
  }

  lemma {:induction false} MaskNotZero(i: nat)
    requires i < ROWS_PER_WORD
    ensures Mask(i) != 0
    ensures i < 63 ==> Mask(i) & 0x8000_0000_0000_0000 == 0
  {
    TopMask();
    if i < 63 {
      MasksDisjoint(i, 63);
    }
    if i > 0 {
      MaskNotZero(i - 1);
      DoubledNotZero(Mask(i - 1));
    }
  }

  lemma DoubledNotZero(m: bv64)
    requires m != 0 && m & 0x8000_0000_0000_0000 == 0
    ensures m << 1 != 0
  {
  }

  lemma BitBelow(w: bv64, i: nat)
    requires i > 0
    ensures Bit(w, i) == Bit(w >> 1, i - 1)
  {
  }

  /** The test `set` and `clear` make. */
  predicate Hits(w: bv64, mask: bv64) {
    w & mask != 0
  }

  lemma HitsBelow(w: bv64, m: bv64, doubled: bv64)
    requires m & 0x8000_0000_0000_0000 == 0
    requires doubled == m << 1
    ensures Hits(w, doubled) == Hits(w >> 1, m)
  {
  }

  /** Testing a bit with the mask (`set`, `clear`) and by shifting the word down (`test`) agree. */
  lemma {:induction false} MaskTestsBit(w: bv64, i: nat)
    requires i < ROWS_PER_WORD
    ensures Hits(w, Mask(i)) == Bit(w, i)
  {
    if i > 0 {
      MaskNotZero(i - 1);
      HitsBelow(w, Mask(i - 1), Mask(i));
      MaskTestsBit(w >> 1, i - 1);
      BitBelow(w, i);
      hide Bit;
      hide Hits;
    }
  }

  function With(w: bv64, mask: bv64): bv64 {
    w | mask
  }

  function Without(w: bv64, mask: bv64): bv64 {
    w & !mask
  }

  predicate Present(m: bv64) {
    m != 0
  }

  lemma MaskExists(i: nat)
    requires i < ROWS_PER_WORD
    ensures Present(Mask(i))
  {
    MaskNotZero(i);
  }

  lemma WithHits(w: bv64, m: bv64)
    requires Present(m)
    ensures Hits(With(w, m), m)
  {
    Absorb(w, m);
  }

  lemma Absorb(w: bv64, m: bv64)
    ensures (w | m) & m == m
  {
  }

  lemma WithoutHits(w: bv64, m: bv64)
    ensures !Hits(Without(w, m), m)
  {
  }

  predicate Apart(m: bv64, other: bv64) {
    m & other == 0
  }

  lemma MasksApart(i: nat, j: nat)
    requires i != j
    ensures Apart(Mask(i), Mask(j))
  {
    if i < j { MasksDisjoint(i, j); } else { MasksDisjoint(j, i); }
  }

  lemma WithMisses(w: bv64, m: bv64, other: bv64)
    requires Apart(m, other)
    ensures Hits(With(w, m), other) == Hits(w, other)
  {
  }

  lemma WithoutMisses(w: bv64, m: bv64, other: bv64)
    requires Apart(m, other)
    ensures Hits(Without(w, m), other) == Hits(w, other)
  {
  }

  lemma SetAndClearHits(w: bv64, i: nat, j: nat)
    requires i < ROWS_PER_WORD && j < ROWS_PER_WORD
    ensures Hits(With(w, Mask(i)), Mask(j)) <==> i == j || Hits(w, Mask(j))
    ensures Hits(Without(w, Mask(i)), Mask(j)) <==> i != j && Hits(w, Mask(j))
  {
    hide *;
    if i == j {
      MaskExists(i);
      WithHits(w, Mask(i));
      WithoutHits(w, Mask(i));
    } else {
      MasksApart(i, j);
      WithMisses(w, Mask(i), Mask(j));
      WithoutMisses(w, Mask(i), Mask(j));
    }
  }

  /** Setting or clearing bit `i` changes bit `i` and no other. */
  lemma SetAndClear(w: bv64, i: nat, j: nat)
    requires i < ROWS_PER_WORD && j < ROWS_PER_WORD
    ensures Bit(With(w, Mask(i)), j) <==> i == j || Bit(w, j)
    ensures Bit(Without(w, Mask(i)), j) <==> i != j && Bit(w, j)
  {
    hide *;
    MaskTestsBit(w, j);
    MaskTestsBit(With(w, Mask(i)), j);
    MaskTestsBit(Without(w, Mask(i)), j);
    SetAndClearHits(w, i, j);
  }

  // ----- the whole set -----

  predicate Marked(words: seq<bv64>, id: nat) {
    id / ROWS_PER_WORD < |words| && Bit(words[id / ROWS_PER_WORD], id % ROWS_PER_WORD)
  }

  ghost function Marks(words: seq<bv64>): (s: set<nat>) {
    set id: nat | id < ROWS_PER_WORD * |words| && Marked(words, id)
  }

  lemma MarksMember(words: seq<bv64>, id: nat)
    ensures id in Marks(words) <==> Marked(words, id)
  {
  }

  lemma SameWord(id: nat, other: nat)
    requires id / ROWS_PER_WORD == other / ROWS_PER_WORD && id % ROWS_PER_WORD == other % ROWS_PER_WORD
    ensures id == other
  {
  }

  lemma MarkedAfter(words: seq<bv64>, id: nat, other: nat)
    requires id / ROWS_PER_WORD < |words|
    ensures var word, mask := words[id / ROWS_PER_WORD], Mask(id % ROWS_PER_WORD);
            && Marked(words[id / ROWS_PER_WORD := With(word, mask)], other) == (id == other || Marked(words, other))
            && Marked(words[id / ROWS_PER_WORD := Without(word, mask)], other) == (id != other && Marked(words, other))
  {
    SetAndClear(words[id / ROWS_PER_WORD], id % ROWS_PER_WORD, other % ROWS_PER_WORD);
    if id / ROWS_PER_WORD == other / ROWS_PER_WORD && id % ROWS_PER_WORD == other % ROWS_PER_WORD {
      SameWord(id, other);
    }
    hide Bit;
    hide Mask;
  }

  lemma MarksAfter(words: seq<bv64>, id: nat)
    requires id / ROWS_PER_WORD < |words|
    ensures var word, mask := words[id / ROWS_PER_WORD], Mask(id % ROWS_PER_WORD);
            && Marks(words[id / ROWS_PER_WORD := With(word, mask)]) == Marks(words) + {id}
            && Marks(words[id / ROWS_PER_WORD := Without(word, mask)]) == Marks(words) - {id}
  {
    var word, mask := words[id / ROWS_PER_WORD], Mask(id % ROWS_PER_WORD);
    var with, without := words[id / ROWS_PER_WORD := With(word, mask)], words[id / ROWS_PER_WORD := Without(word, mask)];
    forall other: nat
      ensures other in Marks(with) <==> other in Marks(words) + {id}
      ensures other in Marks(without) <==> other in Marks(words) - {id}
    {
      MarkedAfter(words, id, other);
      MarksMember(words, other);
      MarksMember(with, other);
      MarksMember(without, other);
      hide Marks;
      hide Marked;
    }
    assert Marks(with) == Marks(words) + {id} by { hide Marks; }
    assert Marks(without) == Marks(words) - {id} by { hide Marks; }
  }

  function ZeroWords(n: nat): (words: seq<bv64>)
    ensures |words| == n
  {
    seq(n, _ => 0)
  }

  lemma GrownMarks(words: seq<bv64>, extra: nat)
    ensures Marks(words + ZeroWords(extra)) == Marks(words)
  {
    var grown := words + ZeroWords(extra);
    forall id: nat
      ensures Marked(grown, id) <==> Marked(words, id)
    {
      if |words| <= id / ROWS_PER_WORD < |grown| {
        ZeroHasNoBits(id % ROWS_PER_WORD);
      }
    }
    forall id: nat
      ensures id in Marks(grown) <==> id in Marks(words)
    {
      MarksMember(words, id);
      MarksMember(grown, id);
    }
  }

  lemma {:induction false} ZeroHasNoBits(i: nat)
    ensures !Bit(0, i)
  {
    if i > 0 {
      ZeroHasNoBits(i - 1);
    }
  }

  // ----- counting and the tail -----

  function PopCount(w: bv64, from: nat): nat
    requires from <= ROWS_PER_WORD
    decreases ROWS_PER_WORD - from
  {
    if from == ROWS_PER_WORD then 0
    else (if Bit(w, from) then 1 else 0) + PopCount(w, from + 1)
  }

  ghost function MarksOfWord(w: bv64, from: nat, base: nat): set<nat> {
    set i: nat | from <= i < ROWS_PER_WORD && Bit(w, i) :: base + i
  }

  lemma {:induction false} PopCountCounts(w: bv64, from: nat, base: nat)
    requires from <= ROWS_PER_WORD
    ensures |MarksOfWord(w, from, base)| == PopCount(w, from)
    decreases ROWS_PER_WORD - from
  {
    hide Bit;
    var here, rest := MarksOfWord(w, from, base), MarksOfWord(w, from + 1, base);
    if from == ROWS_PER_WORD {
      assert here == {};
    } else {
      PopCountCounts(w, from + 1, base);
      assert here == if Bit(w, from) then rest + {base + from} else rest;
    }
  }

  lemma LastWordMarks(words: seq<bv64>)
    requires |words| > 0
    ensures Marks(words) == Marks(words[..|words| - 1]) + MarksOfWord(words[|words| - 1], 0, ROWS_PER_WORD * (|words| - 1))
    ensures Marks(words[..|words| - 1]) !! MarksOfWord(words[|words| - 1], 0, ROWS_PER_WORD * (|words| - 1))
  {
    hide Bit;
    var front, w, base := words[..|words| - 1], words[|words| - 1], ROWS_PER_WORD * (|words| - 1);
    forall id: nat
      ensures id in Marks(words) <==> id in Marks(front) || id in MarksOfWord(w, 0, base)
    {
      if base <= id < base + ROWS_PER_WORD {
        assert id == base + (id - base) && id / ROWS_PER_WORD == |words| - 1 && id % ROWS_PER_WORD == id - base;
      }
    }
  }

  lemma TailBits(w: bv64, from: nat)
    requires from <= ROWS_PER_WORD
    ensures ShiftedDown(w, from) == 0 <==> forall i: nat :: from <= i < ROWS_PER_WORD ==> !Bit(w, i)
    decreases ROWS_PER_WORD - from
  {
    if from == ROWS_PER_WORD {
      AllShiftedOut(w);
    } else {
      TailBits(w, from + 1);
      BitAndRest(w, from);
      hide ShiftedDown, Bit;
    }
  }

  /** Words that mark nothing are zero. */
  lemma NoMarksMeansZero(words: seq<bv64>)
    requires Marks(words) == {}
    ensures words == ZeroWords(|words|)
  {
    forall k: nat | k < |words|
      ensures words[k] == 0
    {
      UnmarkedWord(words, k);
    }
  }

  lemma UnmarkedWord(words: seq<bv64>, k: nat)
    requires Marks(words) == {} && k < |words|
    ensures words[k] == 0
  {
    hide Bit;
    forall i: nat | i < ROWS_PER_WORD
      ensures !Bit(words[k], i)
    {
      var id := ROWS_PER_WORD * k + i;
      assert id / ROWS_PER_WORD == k && id % ROWS_PER_WORD == i;
      assert id !in Marks(words);
    }
    TailBits(words[k], 0);
    NotShifted(words[k]);
  }

  lemma NotShifted(w: bv64)
    ensures ShiftedDown(w, 0) == w
  {
  }

  lemma BitAndRest(w: bv64, i: nat)
    ensures ShiftedDown(w, i) == 0 <==> !Bit(w, i) && ShiftedDown(w, i + 1) == 0
  {
    OneDown(w, i);
    LowestBit(ShiftedDown(w, i));
  }

  lemma LowestBit(x: bv64)
    ensures x == 0 <==> x & 1 == 0 && x >> 1 == 0
  {
  }

  lemma {:induction false} OneDown(w: bv64, i: nat)
    ensures ShiftedDown(w, i + 1) == ShiftedDown(w, i) >> 1
  {
    if i > 0 {
      OneDown(w >> 1, i - 1);
    }
  }

  lemma Down2(w: bv64, i: nat)
    ensures ShiftedDown(w, i + 2) == ShiftedDown(w >> 2, i)
  {
    assert ShiftedDown(w, i + 2) == ShiftedDown(w >> 1, i + 1);
  }

  lemma Down4(w: bv64, i: nat)
    ensures ShiftedDown(w, i + 4) == ShiftedDown(w >> 4, i)
  {
    Down2(w, i + 2);
    Down2(w >> 2, i);
  }

  lemma Down8(w: bv64, i: nat)
    ensures ShiftedDown(w, i + 8) == ShiftedDown(w >> 8, i)
  {
    Down4(w, i + 4);
    Down4(w >> 4, i);
  }

  lemma Down16(w: bv64, i: nat)
    ensures ShiftedDown(w, i + 16) == ShiftedDown(w >> 16, i)
  {
    Down8(w, i + 8);
    Down8(w >> 8, i);
  }

  lemma Down32(w: bv64, i: nat)
    ensures ShiftedDown(w, i + 32) == ShiftedDown(w >> 32, i)
  {
    Down16(w, i + 16);
    Down16(w >> 16, i);
  }

  lemma HalvesGone(w: bv64)
    ensures (w >> 32) >> 32 == 0
  {
  }

  lemma AllShiftedOut(w: bv64)
    ensures ShiftedDown(w, 64) == 0
  {
    Down32(w, 32);
    Down32(w >> 32, 0);
    HalvesGone(w);
  }

  predicate TailClear(words: seq<bv64>, rows: nat) {
    rows % ROWS_PER_WORD != 0 && |words| > 0 ==> ShiftedDown(words[|words| - 1], rows % ROWS_PER_WORD) == 0
  }

  /** The shift test on the last word says exactly that no mark lies past the last row. */
  lemma TailClearMeans(words: seq<bv64>, rows: nat)
    requires |words| == (rows + 63) / 64
    ensures TailClear(words, rows) <==> forall id <- Marks(words) :: id < rows
  {
    hide Bit;
    if rows % ROWS_PER_WORD != 0 {
      var w, t := words[|words| - 1], rows % ROWS_PER_WORD;
      TailBits(w, t);
      hide ShiftedDown;
      if !TailClear(words, rows) {
        var i: nat :| t <= i < ROWS_PER_WORD && Bit(w, i);
        var id := ROWS_PER_WORD * (|words| - 1) + i;
        assert id / ROWS_PER_WORD == |words| - 1 && id % ROWS_PER_WORD == i;
        assert id in Marks(words) && id >= rows;
      } else {
        forall id <- Marks(words)
          ensures id < rows
        {
          var bit := id % ROWS_PER_WORD;
          assert t <= bit ==> !Bit(w, bit);
        }
      }
    }
  }

  datatype Restored = Restored(tombstones: TombstoneSet) | Malformed

  class TombstoneSet {
    var words: seq<bv64>
    var count: nat

    ghost predicate Valid()
      reads this
    {
      count == |Marks(words)|
    }

    /** How many rows the words have bits for. */
    ghost function Room(): nat
      reads this
    {
      ROWS_PER_WORD * |words|
    }

    ghost function Contents(): set<nat>
      reads this
    {
      Marks(words)
    }

    constructor ()
      ensures Valid() && Contents() == {} && words == []
    {
      words, count := [], 0;
    }

    /** Makes room for rows `[0, rows)`; never forgets a mark. */
    method EnsureSize(rows: nat)
      requires Valid()
      modifies this
      ensures Valid() && Contents() == old(Contents()) && count == old(count)
      ensures Room() >= old(Room()) && rows <= Room()
      ensures words == old(words) + ZeroWords(if (rows + 63) / 64 > |old(words)| then (rows + 63) / 64 - |old(words)| else 0)
    {
      var needed := (rows + 63) / 64;
      if needed > |words| {
        GrownMarks(words, needed - |words|);
        words := words + ZeroWords(needed - |words|);
      }
    }

    method Set(id: nat) returns (added: bool)
      requires Valid() && id < Room()
      modifies this
      ensures Valid() && Contents() == old(Contents()) + {id} && Room() == old(Room())
      ensures added == (id !in old(Contents()))
      ensures count == old(count) + if added then 1 else 0
    {
      var word, mask := words[id / ROWS_PER_WORD], Mask(id % ROWS_PER_WORD);
      MaskTestsBit(word, id % ROWS_PER_WORD);
      MarksMember(words, id);
      MarksAfter(words, id);
      hide Bit, Mask, Hits, With, Without, Marks;
      if Hits(word, mask) {
        return false;
      }
      words := words[id / ROWS_PER_WORD := With(word, mask)];
      count := count + 1;
      return true;
    }

    method Clear(id: nat) returns (was: bool)
      requires Valid() && id < Room()
      modifies this
      ensures Valid() && Contents() == old(Contents()) - {id} && Room() == old(Room())
      ensures was == (id in old(Contents()))
      ensures count == old(count) - if was then 1 else 0
    {
      var word, mask := words[id / ROWS_PER_WORD], Mask(id % ROWS_PER_WORD);
      MaskTestsBit(word, id % ROWS_PER_WORD);
      MarksMember(words, id);
      MarksAfter(words, id);
      hide Bit, Mask, Hits, With, Without, Marks;
      if !Hits(word, mask) {
        return false;
      }
      words := words[id / ROWS_PER_WORD := Without(word, mask)];
      count := count - 1;
      return true;
    }

    method Test(id: nat) returns (marked: bool)
      ensures marked <==> id in Contents()
    {
      MarksMember(words, id);
      var index := id / ROWS_PER_WORD;
      marked := index < |words| && ShiftedDown(words[index], id % ROWS_PER_WORD) & 1 != 0;
    }

    /** Accepts persisted words exactly when there are enough of them for `rows` rows and none marks a later row. */
    static method Restore(stored: seq<bv64>, rows: nat) returns (r: Restored)
      ensures r.Restored? <==> |stored| == (rows + 63) / 64 && forall id <- Marks(stored) :: id < rows
      ensures r.Restored? ==> fresh(r.tombstones) && r.tombstones.Valid() && r.tombstones.words == stored
    {
      if |stored| != (rows + 63) / 64 {
        return Malformed;
      }
      TailClearMeans(stored, rows);
      hide Bit, ShiftedDown;
      var tailBits := rows % ROWS_PER_WORD;
      if tailBits != 0 && ShiftedDown(stored[|stored| - 1], tailBits) != 0 {
        return Malformed;
      }
      var restored := new TombstoneSet();
      var i := 0;
      while i < |stored|
        invariant i <= |stored|
        invariant restored.count == |Marks(stored[..i])|
        invariant fresh(restored)
      {
        assert stored[..i + 1][..i] == stored[..i];
        LastWordMarks(stored[..i + 1]);
        PopCountCounts(stored[i], 0, ROWS_PER_WORD * i);
        restored.count := restored.count + PopCount(stored[i], 0);
        i := i + 1;
      }
      assert stored[..i] == stored;
      restored.words := stored;
      return Restored(restored);
    }
  }
}
