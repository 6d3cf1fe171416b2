/** Digits as bit strings, most significant bit first, and what a wrapping 32-bit word keeps of them. */
module BitStreams {

  const WORD: nat := 0x1_0000_0000

  /** Two's complement of 32 bits: what an int holds after any arithmetic. */
  function Wrap(x: int): (w: int)
    ensures -0x8000_0000 <= w < 0x8000_0000
  {
    var r := x % WORD;
    if r >= 0x8000_0000 then r - WORD else r
  }

  /** x >> k, arithmetic: the sign moves in from the left. */
  function Shr(x: int, k: nat): int
    decreases k
  {
    if k == 0 then x else Shr(x / 2, k - 1)
  }

  predicate Bit(x: int, k: nat) {
    Shr(x, k) % 2 == 1
  }

  /** The low w bits of x; a negative x is read as its infinite two's complement. */
  function Bits(x: int, w: nat): (bits: seq<bool>)
    ensures |bits| == w
  {
    seq(w, i requires 0 <= i < w => Bit(x, w - 1 - i))
  }

  lemma LastBit(x: int, w: nat)
    requires w > 0
    ensures Bits(x, w) == Bits(x / 2, w - 1) + [x % 2 == 1]
  {
    var longer, shorter := Bits(x, w), Bits(x / 2, w - 1);
    forall i | 0 <= i < w - 1
      ensures longer[i] == shorter[i]
    {
      assert longer[i] == Bit(x, w - 1 - i) && shorter[i] == Bit(x / 2, w - 1 - 1 - i);
      assert Shr(x, w - 1 - i) == Shr(x / 2, w - 1 - i - 1);
    }
    assert longer[w - 1] == Bit(x, 0) && Shr(x, 0) == x;
  }

  function Pow2(k: nat): (p: nat)
    ensures p > 0
  {
    if k == 0 then 1 else 2 * Pow2(k - 1)
  }

  lemma Powers()
    ensures Pow2(1) == 2 && Pow2(2) == 4 && Pow2(3) == 8 && Pow2(4) == 16 && Pow2(5) == 32 && Pow2(8) == 256
  {
    assert Pow2(4) == 2 * Pow2(3);
    assert Pow2(8) == 2 * Pow2(7) == 2 * (2 * Pow2(6)) == 2 * (2 * (2 * Pow2(5))) == 2 * (2 * (2 * (2 * Pow2(4))));
  }

  lemma Associates(x: int, y: int, z: int)
    ensures (x * y) * z == x * (y * z)
  {
  }

  lemma {:induction false} PowAdds(j: nat, k: nat)
    ensures Pow2(j + k) == Pow2(j) * Pow2(k)
  {
    if j > 0 {
      calc {
        Pow2(j + k);
      ==
        2 * Pow2(j - 1 + k);
      == { PowAdds(j - 1, k); }
        2 * (Pow2(j - 1) * Pow2(k));
      == { Associates(2, Pow2(j - 1), Pow2(k)); }
        (2 * Pow2(j - 1)) * Pow2(k);
      ==
        Pow2(j) * Pow2(k);
      }
    }
  }

  lemma WordSplits(k: nat)
    requires k <= 32
    ensures WORD == Pow2(k) * Pow2(32 - k)
  {
    Powers();
    PowAdds(8, 8);
    PowAdds(16, 16);
    PowAdds(k, 32 - k);
  }

  /** Adding a multiple of two to the w leaves the low w bits alone. */
  lemma {:induction false} BitsAway(x: int, w: nat, q: int)
    ensures Bits(x + Pow2(w) * q, w) == Bits(x, w)
    decreases w
  {
    if w > 0 {
      var y := x + Pow2(w) * q;
      assert y == x + 2 * (Pow2(w - 1) * q);
      assert y / 2 == x / 2 + Pow2(w - 1) * q && y % 2 == x % 2;
      BitsAway(x / 2, w - 1, q);
      LastBit(x, w);
      LastBit(y, w);
    }
  }

  lemma BitsAwayWord(x: int, w: nat, q: int)
    requires w <= 32
    ensures Bits(x + WORD * q, w) == Bits(x, w)
  {
    WordSplits(w);
    Associates(Pow2(w), Pow2(32 - w), q);
    BitsAway(x, w, Pow2(32 - w) * q);
  }

  lemma WrapWords(x: int) returns (q: int)
    ensures Wrap(x) == x + WORD * q
  {
    q := -(x / WORD) - if x % WORD >= 0x8000_0000 then 1 else 0;
  }

  lemma BitsOfWrap(x: int, w: nat)
    requires w <= 32
    ensures Bits(Wrap(x), w) == Bits(x, w)
  {
    var q := WrapWords(x);
    BitsAwayWord(x, w, q);
  }

  /** Filling in a digit after wrapping is filling it in before, as far as the low 32 bits go. */
  lemma BitsOfWrapPlus(x: int, digit: nat, w: nat)
    requires w <= 32
    ensures Bits(Wrap(x) + digit, w) == Bits(x + digit, w)
  {
    var q := WrapWords(x);
    BitsAwayWord(x + digit, w, q);
  }

  lemma BitsOfMod(x: int, w: nat)
    ensures Bits(x % Pow2(w), w) == Bits(x, w)
  {
    var q := x / Pow2(w);
    assert x % Pow2(w) == x + Pow2(w) * -q;
    BitsAway(x, w, -q);
  }

  /** Shifting left by k and filling in a digit of k bits. */
  lemma {:induction false} BitsOfShift(x: int, w: nat, k: nat, d: nat)
    requires d < Pow2(k)
    ensures Bits(x * Pow2(k) + d, w + k) == Bits(x, w) + Bits(d, k)
    decreases k
  {
    if k > 0 {
      var p := Pow2(k - 1);
      var y := x * Pow2(k) + d;
      assert y == 2 * (x * p) + d;
      assert y / 2 == x * p + d / 2 && y % 2 == d % 2;
      BitsOfShift(x, w, k - 1, d / 2);
      LastBit(y, w + k);
      LastBit(d, k);
    } else {
      assert Bits(d, 0) == [];
    }
  }

  /** The upper bits are the bits of the number shifted right. */
  lemma {:induction false} BitsSplit(x: int, w: nat, k: nat)
    ensures Bits(x, w + k) == Bits(Shr(x, k), w) + Bits(x, k)
    decreases k
  {
    if k > 0 {
      BitsSplit(x / 2, w, k - 1);
      LastBit(x, w + k);
      LastBit(x, k);
    } else {
      assert Bits(x, 0) == [];
    }
  }

  lemma {:induction false} BitsInjective(x: nat, y: nat, w: nat)
    requires x < Pow2(w) && y < Pow2(w) && Bits(x, w) == Bits(y, w)
    ensures x == y
    decreases w
  {
    if w > 0 {
      LastBit(x, w);
      LastBit(y, w);
      var highX, highY := Bits(x / 2, w - 1), Bits(y / 2, w - 1);
      assert highX == Bits(x, w)[..w - 1] && highY == Bits(y, w)[..w - 1];
      assert Bits(x, w)[w - 1] == Bits(y, w)[w - 1];
      BitsInjective(x / 2, y / 2, w - 1);
    }
  }

  function Zeros(n: nat): (bits: seq<bool>)
    ensures |bits| == n
  {
    seq(n, i => false)
  }

  lemma {:induction false} BitsOfZero(w: nat)
    ensures Bits(0, w) == Zeros(w)
  {
    if w > 0 {
      BitsOfZero(w - 1);
      LastBit(0, w);
    }
  }

  // -- Strings of digits -------------------------------------------------------

  predicate AllBelow(b: nat, digits: seq<nat>) {
    forall i :: 0 <= i < |digits| ==> digits[i] < b
  }

  /** The digits' bits, w each, one after the other. */
  function Stream(digits: seq<nat>, w: nat): seq<bool> {
    if digits == [] then []
    else Stream(digits[..|digits| - 1], w) + Bits(digits[|digits| - 1], w)
  }

  lemma {:induction false} StreamLength(digits: seq<nat>, w: nat)
    ensures |Stream(digits, w)| == w * |digits|
  {
    if digits != [] {
      var rest := digits[..|digits| - 1];
      StreamLength(rest, w);
      assert w * |digits| == w * |rest| + w;
    }
  }

  lemma StreamSnoc(digits: seq<nat>, d: nat, w: nat)
    ensures Stream(digits + [d], w) == Stream(digits, w) + Bits(d, w)
  {
    assert (digits + [d])[..|digits|] == digits;
  }

  lemma StreamStep(digits: seq<nat>, i: nat, w: nat)
    requires i < |digits|
    ensures Stream(digits[..i + 1], w) == Stream(digits[..i], w) + Bits(digits[i], w)
  {
    assert digits[..i + 1] == digits[..i] + [digits[i]];
    StreamSnoc(digits[..i], digits[i], w);
  }

  /** A string of digits is determined by its length and its bits. */
  lemma {:induction false} StreamInjective(a: seq<nat>, b: seq<nat>, w: nat)
    requires |a| == |b| && AllBelow(Pow2(w), a) && AllBelow(Pow2(w), b) && Stream(a, w) == Stream(b, w)
    ensures a == b
  {
    if a != [] {
      var n := |a| - 1;
      var ra, rb := a[..n], b[..n];
      StreamLength(ra, w);
      StreamLength(rb, w);
      assert Stream(a, w)[..w * n] == Stream(ra, w) && Stream(b, w)[..w * n] == Stream(rb, w);
      assert Stream(a, w)[w * n..] == Bits(a[n], w) && Stream(b, w)[w * n..] == Bits(b[n], w);
      StreamInjective(ra, rb, w);
      BitsInjective(a[n], b[n], w);
      assert a == ra + [a[n]] && b == rb + [b[n]];
    }
  }
}
