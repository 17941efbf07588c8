/** 64-bit words in two's complement, as the numbers that their bits spell, with the shifts and ors of the packed
    integers. */
module Words {
  import opened Numbers

  const WORDS := 0x1_0000_0000_0000_0000
  const HALF := 0x8000_0000_0000_0000

  function Pow2(n: nat): (p: int)
    ensures p > 0
  {
    if n == 0 then 1 else 2 * Pow2(n - 1)
  }

  function Word(n: int): (w: nat)
    ensures w < WORDS
  {
    n % WORDS
  }

  function Signed(w: nat): int {
    if w < HALF then w else w - WORDS
  }

  function Shl(w: nat, bits: nat): (r: nat)
    ensures r < WORDS
  {
    w * Pow2(bits) % WORDS
  }

  /** Bit by bit. */
  function Or(a: nat, b: nat): nat {
    if a == 0 then b else 2 * Or(a / 2, b / 2) + if a % 2 == 1 || b % 2 == 1 then 1 else 0
  }

  lemma {:induction false} OrZero(a: nat)
    ensures Or(a, 0) == a
  {
    if a != 0 {
      OrZero(a / 2);
    }
  }

  predicate Bit(a: nat, k: nat) {
    a / Pow2(k) % 2 == 1
  }

  lemma HalfBit(a: nat, k: nat)
    requires k > 0
    ensures Bit(a, k) <==> Bit(a / 2, k - 1)
  {
    Halves(a, Pow2(k - 1));
  }

  lemma Halves(a: nat, p: nat)
    requires p > 0
    ensures a / (2 * p) == a / 2 / p
  {
    var q := a / 2 / p;
    Division(a / 2, p);
    DivModUnique(q, 2 * (a / 2 % p) + a % 2, 2 * p);
    assert q * (2 * p) == 2 * (q * p);
  }

  lemma OrHalves(a: nat, b: nat)
    ensures Or(a, b) / 2 == Or(a / 2, b / 2) && (Or(a, b) % 2 == 1 <==> a % 2 == 1 || b % 2 == 1)
  {
    if a == 0 {
      assert Or(0, b / 2) == b / 2;
    }
  }

  lemma LowestBit(a: nat)
    ensures Bit(a, 0) <==> a % 2 == 1
  {
    assert Pow2(0) == 1;
  }

  /** Each bit of the or is set exactly when it is set in one of the two. */
  lemma {:induction false} OrBits(a: nat, b: nat, k: nat)
    ensures Bit(Or(a, b), k) <==> Bit(a, k) || Bit(b, k)
    decreases k
  {
    OrHalves(a, b);
    if k == 0 {
      LowestBit(Or(a, b));
      LowestBit(a);
      LowestBit(b);
    } else {
      HalfBit(Or(a, b), k);
      HalfBit(a, k);
      HalfBit(b, k);
      OrBits(a / 2, b / 2, k - 1);
    }
  }

  lemma OrStep(a: nat, b: nat)
    ensures Or(2 * a, b) == 2 * Or(a, b / 2) + b % 2
  {
  }

  lemma DoubleProduct(q: int, p: int)
    ensures q * (2 * p) == 2 * (q * p)
  {
  }

  /** Below a number that ends in `m` zero bits, or-ing `m` bits in adds them. */
  lemma {:induction false} OrIsSum(q: nat, low: nat, m: nat)
    requires low < Pow2(m)
    ensures q * Pow2(m) >= 0 && Or(q * Pow2(m), low) == q * Pow2(m) + low
  {
    if m == 0 {
      OrZero(q);
    } else {
      OrIsSum(q, low / 2, m - 1);
      DoubleProduct(q, Pow2(m - 1));
      OrStep(q * Pow2(m - 1), low);
    }
  }

  lemma Pow2Values()
    ensures Pow2(8) == 0x100 && Pow2(16) == 0x1_0000 && Pow2(24) == 0x100_0000 && Pow2(32) == 0x1_0000_0000
    ensures Pow2(40) == 0x100_0000_0000 && Pow2(48) == 0x1_0000_0000_0000 && Pow2(56) == 0x100_0000_0000_0000
  {
    Pow2Byte(0);
    Pow2Byte(8);
    Pow2Byte(16);
    Pow2Byte(24);
    Pow2Byte(32);
    Pow2Byte(40);
    Pow2Byte(48);
  }

  lemma Pow2Byte(n: nat)
    ensures Pow2(n + 8) == 256 * Pow2(n)
  {
    assert Pow2(n + 8) == 2 * Pow2(n + 7) && Pow2(n + 7) == 2 * Pow2(n + 6);
    assert Pow2(n + 6) == 2 * Pow2(n + 5) && Pow2(n + 5) == 2 * Pow2(n + 4);
    assert Pow2(n + 4) == 2 * Pow2(n + 3) && Pow2(n + 3) == 2 * Pow2(n + 2);
    assert Pow2(n + 2) == 2 * Pow2(n + 1) && Pow2(n + 1) == 2 * Pow2(n);
  }

  lemma ModUnique(a: int, k: int, b: int)
    requires a == k * WORDS + b && 0 <= b < WORDS
    ensures a % WORDS == b
  {
  }

  lemma SmallShift(prefix: int, f: int, g: int)
    requires f * g == WORDS && f >= 1 && g >= 16 && -16 <= prefix < 16
    ensures Word(prefix) * f % WORDS == (if prefix < 0 then g + prefix else prefix) * f
  {
    if prefix < 0 {
      assert (g + prefix) * f == WORDS + prefix * f;
      MulOrder(0, g + prefix, f);
      MulOrder(prefix, -1, f);
      assert Word(prefix) == WORDS + prefix;
      assert (WORDS + prefix) * f == (f - 1) * WORDS + (g + prefix) * f;
      ModUnique(Word(prefix) * f, f - 1, (g + prefix) * f);
    } else {
      MulOrder(0, prefix, f);
      MulOrder(prefix, g - 1, f);
      assert (g - 1) * f == WORDS - f;
      assert Word(prefix) == prefix;
    }
  }

  function Rest(width: nat): nat {
    match width
    case 1 => 0x100_0000_0000_0000
    case 2 => 0x1_0000_0000_0000
    case 3 => 0x100_0000_0000
    case 4 => 0x1_0000_0000
    case 5 => 0x100_0000
    case _ => 0x1_0000
  }

  lemma Widths(width: nat)
    requires 1 <= width <= 6
    ensures Pow2(8 * width) * Rest(width) == WORDS && 0x100 <= Pow2(8 * width) <= 0x1_0000_0000_0000
    ensures Rest(width) >= 16
  {
    Pow2Values();
    if width == 1 {
    } else if width == 2 {
    } else if width == 3 {
    } else if width == 4 {
    } else if width == 5 {
    } else {
    }
  }

  /** A small prefix, also a negative one, shifted by whole bytes: the number that its word spells. */
  lemma ShiftedPrefix(prefix: int, width: nat) returns (q: nat)
    requires -16 <= prefix < 16 && 1 <= width <= 6
    ensures q * Pow2(8 * width) == Shl(Word(prefix), 8 * width)
    ensures q * Pow2(8 * width) == prefix * Pow2(8 * width) + if prefix < 0 then WORDS else 0
  {
    var f, g := Pow2(8 * width), Rest(width);
    Widths(width);
    SmallShift(prefix, f, g);
    q := if prefix < 0 then g + prefix else prefix;
    assert (g + prefix) * f == f * g + prefix * f;
  }

  lemma SignedSum(prefix: int, f: int, low: nat, w: nat)
    requires -16 <= prefix < 16 && low < f <= 0x1_0000_0000_0000
    requires w == prefix * f + low + if prefix < 0 then WORDS else 0
    ensures Signed(w) == prefix * f + low
  {
    MulOrder(prefix, if prefix < 0 then -1 else 15, f);
    MulOrder(-16, prefix, f);
    if prefix >= 0 {
      MulOrder(0, prefix, f);
    }
  }

  /** So shifting a prefix and or-ing low bytes in, as words, is their sum, read as a signed number. */
  lemma PrefixAndLow(prefix: int, width: nat, low: nat)
    requires -16 <= prefix < 16 && 1 <= width <= 6 && low < Pow2(8 * width)
    ensures Signed(Or(Shl(Word(prefix), 8 * width), low)) == prefix * Pow2(8 * width) + low
  {
    var q := ShiftedPrefix(prefix, width);
    OrIsSum(q, low, 8 * width);
    Widths(width);
    SignedSum(prefix, Pow2(8 * width), low, Or(Shl(Word(prefix), 8 * width), low));
  }
}
