/** The pool of random sources behind audit IDs (internal/audit/id.go): rounding a
    size up to a power of two and walking the pool with a masked counter. A uint64
    is a natural number below 2^64; wrap-around is written out. */
module RandPool {
  import opened Common

  function Pow2(k: nat): (p: nat)
    ensures p >= 1
  {
    if k == 0 then 1 else 2 * Pow2(k - 1)
  }

  predicate Bit(x: nat) {
    x % 2 == 1
  }

  function Or(x: nat, y: nat): nat
    decreases x + y
  {
    if x == 0 && y == 0 then 0
    else (if Bit(x) || Bit(y) then 1 else 0) + 2 * Or(x / 2, y / 2)
  }

  function And(x: nat, y: nat): nat
    decreases x + y
  {
    if x == 0 && y == 0 then 0
    else (if Bit(x) && Bit(y) then 1 else 0) + 2 * And(x / 2, y / 2)
  }

  /** x >> k */
  function Shr(x: nat, k: nat): nat
    decreases k
  {
    if k == 0 then x else Shr(x / 2, k - 1)
  }

  function BitLen(v: nat): nat {
    if v == 0 then 0 else 1 + BitLen(v / 2)
  }

  // ---- v | v >> 1 | ... | v >> n-1 ------------------------------------------------

  function OrShifts(v: nat, n: nat): nat
    decreases n
  {
    if n == 0 then 0 else Or(v, OrShifts(v / 2, n - 1))
  }

  lemma {:induction false} OrZero(x: nat)
    ensures Or(x, 0) == x
  {
    if x > 0 {
      OrZero(x / 2);
    }
  }

  lemma {:induction false} OrAssoc(x: nat, y: nat, z: nat)
    ensures Or(Or(x, y), z) == Or(x, Or(y, z))
    decreases x + y + z
  {
    if x + y + z > 0 {
      OrAssoc(x / 2, y / 2, z / 2);
      OrHalves(x, y);
      OrHalves(y, z);
      OrHalves(Or(x, y), z);
      OrHalves(x, Or(y, z));
    }
  }

  lemma OrHalves(x: nat, y: nat)
    ensures Or(x, y) / 2 == Or(x / 2, y / 2)
    ensures Bit(Or(x, y)) <==> Bit(x) || Bit(y)
    ensures Or(x, y) == (if Bit(x) || Bit(y) then 1 else 0) + 2 * Or(x / 2, y / 2)
  {
  }

  lemma {:induction false} ShrOr(x: nat, y: nat, k: nat)
    ensures Shr(Or(x, y), k) == Or(Shr(x, k), Shr(y, k))
    decreases k
  {
    if k > 0 {
      OrHalves(x, y);
      ShrOr(x / 2, y / 2, k - 1);
    }
  }

  lemma {:induction false} ShrHalf(x: nat, k: nat)
    ensures Shr(x, k) / 2 == Shr(x / 2, k)
    decreases k
  {
    if k > 0 {
      ShrHalf(x / 2, k - 1);
    }
  }

  lemma {:induction false} ShiftsOfShr(v: nat, n: nat, k: nat)
    ensures Shr(OrShifts(v, n), k) == OrShifts(Shr(v, k), n)
    decreases n
  {
    if n == 0 {
      ShrZero(k);
    } else {
      ShrOr(v, OrShifts(v / 2, n - 1), k);
      ShiftsOfShr(v / 2, n - 1, k);
      ShrHalf(v, k);
    }
  }

  lemma {:induction false} ShrZero(k: nat)
    ensures Shr(0, k) == 0
  {
    if k > 0 {
      ShrZero(k - 1);
    }
  }

  lemma {:induction false} ShiftsSplit(v: nat, m: nat, n: nat)
    ensures OrShifts(v, m + n) == Or(OrShifts(v, m), OrShifts(Shr(v, m), n))
    decreases m
  {
    if m == 0 {
      OrComm(0, OrShifts(v, n));
      OrZero(OrShifts(v, n));
    } else {
      ShiftsSplit(v / 2, m - 1, n);
      OrAssoc(v, OrShifts(v / 2, m - 1), OrShifts(Shr(v, m), n));
    }
  }

  lemma {:induction false} OrComm(x: nat, y: nat)
    ensures Or(x, y) == Or(y, x)
    decreases x + y
  {
    if x + y > 0 {
      OrComm(x / 2, y / 2);
    }
  }

  /** v | v >> n */
  function OrShr(v: nat, n: nat): nat {
    Or(v, Shr(v, n))
  }

  /** w covers the first n shifts of v. */
  predicate Covers(w: nat, v: nat, n: nat) {
    w == OrShifts(v, n)
  }

  /** One line of the bit trick doubles the number of shifts covered. */
  lemma Doubling(w: nat, v: nat, n: nat)
    requires Covers(w, v, n)
    ensures Covers(OrShr(w, n), v, n + n)
  {
    ShiftsSplit(v, n, n);
    ShiftsOfShr(v, n, n);
  }

  // ---- all ones -----------------------------------------------------------------------

  lemma {:induction false} BitLenBounds(v: nat)
    ensures v < Pow2(BitLen(v)) && (v > 0 ==> Pow2(BitLen(v) - 1) <= v)
  {
    if v > 0 {
      BitLenBounds(v / 2);
    }
  }

  lemma {:induction false} BitLenLeast(v: nat, k: nat)
    requires v < Pow2(k)
    ensures BitLen(v) <= k
    decreases k
  {
    if v > 0 {
      BitLenLeast(v / 2, k - 1);
    }
  }

  lemma {:induction false} Pow2Monotone(j: nat, k: nat)
    requires j <= k
    ensures Pow2(j) <= Pow2(k)
    decreases k
  {
    if j < k {
      Pow2Monotone(j, k - 1);
    }
  }

  lemma OrOddMask(v: nat, p: nat)
    requires p > 0
    ensures Or(v, 2 * p - 1) == 1 + 2 * Or(v / 2, p - 1)
  {
    var m := 2 * p - 1;
    assert Bit(m) && m / 2 == p - 1;
  }

  lemma {:induction false} OrOnes(v: nat)
    requires v > 0
    ensures Or(v, Pow2(BitLen(v) - 1) - 1) == Pow2(BitLen(v)) - 1
  {
    if v == 1 {
      OrZero(1);
    } else {
      var length := BitLen(v / 2);
      assert BitLen(v) == length + 1 && length > 0;
      OrOnes(v / 2);
      OrOddMask(v, Pow2(length - 1));
    }
  }

  lemma {:induction false} ShiftsAreOnes(v: nat, n: nat)
    requires v < Pow2(n)
    ensures OrShifts(v, n) == Pow2(BitLen(v)) - 1
    decreases n
  {
    if n > 0 {
      ShiftsAreOnes(v / 2, n - 1);
      if v > 0 {
        assert BitLen(v / 2) == BitLen(v) - 1;
        OrOnes(v);
      } else {
        OrZero(0);
      }
    }
  }

  lemma {:induction false} Pow2Add(j: nat, k: nat)
    ensures Pow2(j + k) == Pow2(j) * Pow2(k)
  {
    if j > 0 {
      Pow2Add(j - 1, k);
    }
  }

  lemma WordIsPow2()
    ensures Pow2(64) == WORD && Pow2(63) == 0x8000_0000_0000_0000
  {
    assert Pow2(8) == 0x100;
    assert Pow2(64) == 2 * Pow2(63);
    hide Pow2;
    Pow2Add(8, 8);
    Pow2Add(16, 16);
    Pow2Add(32, 32);
  }

  // ---- rounding up -----------------------------------------------------------------------

  ghost predicate PowerOfTwo(v: nat) {
    exists k :: v == Pow2(k)
  }

  /** For 1 <= size <= 2^63 the least power of two that is not below size; zero for
      every other size. */
  method NearestPowerOfTwo(size: nat) returns (v: nat)
    requires size < WORD
    ensures 1 <= size <= 0x8000_0000_0000_0000 ==>
              PowerOfTwo(v) && size <= v < WORD && forall p | PowerOfTwo(p) && size <= p :: v <= p
    ensures size == 0 || size > 0x8000_0000_0000_0000 ==> v == 0
  {
    var w := if size == 0 then WORD - 1 else size - 1;
    ghost var start := w;
    hide *;
    RoundedUp(size, start);
    OneShift(start);
    Doubling(w, start, 1);
    w := OrShr(w, 1);
    Doubling(w, start, 2);
    w := OrShr(w, 2);
    Doubling(w, start, 4);
    w := OrShr(w, 4);
    Doubling(w, start, 8);
    w := OrShr(w, 8);
    Doubling(w, start, 16);
    w := OrShr(w, 16);
    Doubling(w, start, 32);
    w := OrShr(w, 32);
    AllOnes(start, w);
    v := if w == WORD - 1 then 0 else w + 1;
  }

  lemma OneShift(v: nat)
    ensures Covers(v, v, 1)
  {
    OrZero(v);
    assert OrShifts(v / 2, 0) == 0;
  }

  lemma AllOnes(start: nat, w: nat)
    requires start < WORD && Covers(w, start, 64)
    ensures w == Pow2(BitLen(start)) - 1
  {
    WordIsPow2();
    hide Pow2, BitLen, OrShifts;
    ShiftsAreOnes(start, 64);
  }

  lemma RoundedUp(size: nat, start: nat)
    requires size < WORD && start == if size == 0 then WORD - 1 else size - 1
    ensures PowerOfTwo(Pow2(BitLen(start)))
    ensures 1 <= size <= 0x8000_0000_0000_0000 ==> size <= Pow2(BitLen(start)) < WORD
    ensures 1 <= size <= 0x8000_0000_0000_0000 ==>
              forall p | PowerOfTwo(p) && size <= p :: Pow2(BitLen(start)) <= p
    ensures size == 0 || size > 0x8000_0000_0000_0000 ==> Pow2(BitLen(start)) == WORD
  {
    hide Pow2, BitLen;
    WordIsPow2();
    BitLenBounds(start);
    BitLenLeast(start, 64);
    if 1 <= size <= 0x8000_0000_0000_0000 {
      BitLenLeast(start, 63);
      Pow2Monotone(BitLen(start), 63);
      forall p | PowerOfTwo(p) && size <= p ensures Pow2(BitLen(start)) <= p {
        var k :| p == Pow2(k);
        BitLenLeast(start, k);
        Pow2Monotone(BitLen(start), k);
      }
    } else if BitLen(start) < 64 {
      Pow2Monotone(BitLen(start), 63);
    }
  }

  // ---- walking the pool ---------------------------------------------------------------------

  function Mod(x: nat, d: nat): nat
    requires d > 0
  {
    x % d
  }

  lemma {:induction false} MulLess(a: nat, b: nat, d: nat)
    requires a < b
    ensures a * d + d <= b * d
    decreases b
  {
    assert b * d == (b - 1) * d + d;
    if a < b - 1 {
      MulLess(a, b - 1, d);
    }
  }

  lemma ModUnique(x: nat, d: nat, q: nat, r: nat)
    requires d > 0 && r < d && x == q * d + r
    ensures Mod(x, d) == r
  {
    var y := x / d;
    assert x == y * d + Mod(x, d);
    if y < q {
      MulLess(y, q, d);
      assert false;
    } else if q < y {
      MulLess(q, y, d);
      assert false;
    }
  }

  lemma ModSplit(x: nat, d: nat) returns (q: nat)
    requires d > 0
    ensures x == q * d + Mod(x, d) && Mod(x, d) < d
  {
    q := x / d;
  }

  /** Masking with size - 1 is the remainder by size. */
  lemma {:induction false} MaskIsModulo(x: nat, k: nat)
    ensures And(x, Pow2(k) - 1) == Mod(x, Pow2(k))
    decreases k
  {
    hide And, Mod;
    if k == 0 {
      AndZero(x);
      ModUnique(x, 1, x, 0);
    } else {
      var p := Pow2(k - 1);
      assert Pow2(k) == 2 * p;
      MaskIsModulo(x / 2, k - 1);
      AndHalves(x, p);
      HalfMod(x, p);
    }
  }

  lemma AndHalves(x: nat, p: nat)
    requires p > 0
    ensures And(x, 2 * p - 1) == (if Bit(x) then 1 else 0) + 2 * And(x / 2, p - 1)
  {
    var m := 2 * p - 1;
    assert Bit(m) && m / 2 == p - 1;
  }

  lemma {:induction false} AndZero(x: nat)
    ensures And(x, 0) == 0
  {
    if x > 0 {
      AndZero(x / 2);
    }
  }

  lemma HalfMod(x: nat, p: nat)
    requires p > 0
    ensures Mod(x, 2 * p) == (if Bit(x) then 1 else 0) + 2 * Mod(x / 2, p)
  {
    var b := if Bit(x) then 1 else 0;
    assert x == 2 * (x / 2) + b;
    hide Mod;
    var q := ModSplit(x / 2, p);
    assert q * (2 * p) == 2 * (q * p);
    ModUnique(x, 2 * p, q, 2 * Mod(x / 2, p) + b);
  }

  /** The slot a counter value selects. */
  function Slot(counter: nat, size: nat): nat
    requires size > 0
  {
    And(counter, size - 1)
  }

  /** The counter n calls after c. */
  function Advanced(c: nat, n: nat): nat {
    Mod(c + n, WORD)
  }

  /** The wrap-around of the 64-bit counter does not show in the slots. */
  lemma SlotAfter(c: nat, n: nat, k: nat)
    requires k <= 64
    ensures Slot(Advanced(c, n), Pow2(k)) == Mod(c + n, Pow2(k))
  {
    hide And, Mod, Pow2;
    MaskIsModulo(Advanced(c, n), k);
    WordSplit(k);
    ModOfMod(c + n, Pow2(64 - k), Pow2(k));
  }

  lemma WordSplit(k: nat)
    requires k <= 64
    ensures Pow2(64 - k) * Pow2(k) == WORD
  {
    WordIsPow2();
    hide Pow2;
    Pow2Add(64 - k, k);
  }

  lemma ModOfMod(x: nat, a: nat, p: nat)
    requires a > 0 && p > 0 && a * p > 0
    ensures Mod(Mod(x, a * p), p) == Mod(x, p)
  {
    hide *;
    var q := ModSplit(x, a * p);
    var y := Mod(x, a * p);
    var z := ModSplit(y, p);
    assert q * (a * p) == (q * a) * p;
    assert (q * a + z) * p == (q * a) * p + z * p;
    ModUnique(x, p, q * a + z, Mod(y, p));
  }

  /** Among `size` consecutive calls, also across the wrap-around of the counter, no
      two select the same slot. */
  lemma SlotsDistinct(c: nat, k: nat, i: nat, j: nat)
    requires k <= 64 && i < j < Pow2(k)
    ensures Slot(Advanced(c, i), Pow2(k)) != Slot(Advanced(c, j), Pow2(k))
  {
    hide *;
    SlotAfter(c, i, k);
    SlotAfter(c, j, k);
    var p := Pow2(k);
    var q := ModSplit(c + i, p);
    var r := ModSplit(c + j, p);
    if Mod(c + i, p) == Mod(c + j, p) {
      if q < r {
        MulLess(q, r, p);
      } else if r < q {
        MulLess(r, q, p);
      }
    }
  }

  /** ... and every slot is selected. */
  lemma SlotsCovered(c: nat, k: nat, slot: nat) returns (j: nat)
    requires k <= 64 && slot < Pow2(k)
    ensures j < Pow2(k) && Slot(Advanced(c, j), Pow2(k)) == slot
  {
    hide *;
    var p := Pow2(k);
    var q := ModSplit(c, p);
    var r := Mod(c, p);
    j := if r <= slot then slot - r else p + slot - r;
    SlotAfter(c, j, k);
    if r <= slot {
      ModUnique(c + j, p, q, slot);
    } else {
      assert (q + 1) * p == q * p + p;
      ModUnique(c + j, p, q + 1, slot);
    }
  }

  /** The pool: one source per slot and a counter that every call advances. */
  class Pool<T> {
    const pool: seq<T>
    const size: nat
    var counter: nat

    ghost predicate Valid()
      reads this
    {
      size == |pool| && (size == 0 || exists k | 0 <= k <= 63 :: size == Pow2(k)) && counter < WORD
    }

    /** As many sources as the size asked for, rounded up; none when there is no such
        power of two among the 64-bit words. */
    constructor (size: nat, source: nat -> T)
      requires size < WORD
      ensures Valid() && counter == 0 && (this.size == 0 <==> size == 0 || size > 0x8000_0000_0000_0000)
      ensures this.size > 0 ==>
              PowerOfTwo(this.size) && size <= this.size && forall p | PowerOfTwo(p) && size <= p :: this.size <= p
      ensures forall i | 0 <= i < |pool| :: pool[i] == source(i)
    {
      var s := NearestPowerOfTwo(size);
      if s > 0 {
        SmallPower(s);
      }
      this.pool := seq(s, (i: nat) => source(i));
      this.size := s;
      this.counter := 0;
    }

    method Get() returns (source: T)
      requires Valid() && size > 0
      modifies this
      ensures Valid() && counter == Advanced(old(counter), 1)
      ensures Slot(counter, size) < |pool| && source == pool[Slot(counter, size)]
    {
      counter := (counter + 1) % WORD;
      ghost var k :| 0 <= k <= 63 && size == Pow2(k);
      MaskIsModulo(counter, k);
      assert Slot(counter, size) < |pool|;
      source := pool[And(counter, size - 1)];
    }
  }

  lemma SmallPower(v: nat)
    requires PowerOfTwo(v) && v < WORD
    ensures exists k | 0 <= k <= 63 :: v == Pow2(k)
  {
    var k :| v == Pow2(k);
    if k > 63 {
      WordIsPow2();
      Pow2Monotone(64, k);
    }
  }
}
