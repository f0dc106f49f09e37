/** The simulator's configuration and its address decoding.

    The C++ program keeps these values in file-scope globals that every
    `CacheConstants` object reads; here they are one immutable record.  The
    only global that changes, the cycle counter, lives elsewhere. */
module Constants {

  datatype Option<+T> = None | Some(value: T)

  datatype Protocol = MSI | MESI | MOESI

  /** `tagMaskBits` is how many low bits the tag mask `(1 << numTagBits) - 1` keeps. */
  datatype Config = Config(
    protocol: Protocol,
    numProcessors: nat,
    numSetBits: nat,
    numBytesBits: nat,
    numAddressBits: nat,
    tagMaskBits: nat,
    numLinesInSet: nat,
    cacheHitCycleCost: nat,
    memoryResponseCycleCost: nat,
    cacheResponseCycleCost: nat)
  {
    /** The masks are `int`s.  The set mask is in range, since the number of sets is one
        too.  For a tag of at most 30 bits the tag mask keeps the whole tag; for a wider
        one the shift overflows, and the mask keeps some low bits, as many as an `int` has. */
    predicate Valid() {
      && 1 <= numProcessors
      && 1 <= numLinesInSet
      && numSetBits <= 30
      && numSetBits + numBytesBits <= numAddressBits
      && tagMaskBits <= 31
      && (numAddressBits - (numSetBits + numBytesBits) <= 30
          ==> tagMaskBits == numAddressBits - (numSetBits + numBytesBits))
      && 0 < cacheResponseCycleCost < memoryResponseCycleCost
    }

    function NumSets(): nat { Pow2(numSetBits) }

    function NumTagBits(): nat
      requires Valid()
    {
      numAddressBits - (numSetBits + numBytesBits)
    }
  }

  function Pow2(n: nat): (p: nat)
    ensures 1 <= p
  {
    if n == 0 then 1 else 2 * Pow2(n - 1)
  }

  /** `a >> k` */
  function ShiftRight(a: nat, k: nat): nat {
    if k == 0 then a else ShiftRight(a / 2, k - 1)
  }

  /** `a & ((1 << k) - 1)` */
  function LowBits(a: nat, k: nat): (r: nat)
    ensures r < Pow2(k)
  {
    if k == 0 then 0 else 2 * LowBits(a / 2, k - 1) + a % 2
  }

  function SetOf(cfg: Config, address: nat): (r: nat)
    ensures r < cfg.NumSets()
  {
    LowBits(ShiftRight(address, cfg.numBytesBits), cfg.numSetBits)
  }

  function TagOf(cfg: Config, address: nat): nat
    requires cfg.Valid()
  {
    LowBits(ShiftRight(address, cfg.numSetBits + cfg.numBytesBits), cfg.tagMaskBits)
  }

  function OffsetOf(cfg: Config, address: nat): nat {
    LowBits(address, cfg.numBytesBits)
  }

  /** The trace assumption under which scanning every set for a tag is the same
      as looking in the decoded set. */
  ghost predicate TagsIdentifySets(cfg: Config, addresses: set<nat>)
    requires cfg.Valid()
  {
    forall a, b :: a in addresses && b in addresses && TagOf(cfg, a) == TagOf(cfg, b)
                   ==> SetOf(cfg, a) == SetOf(cfg, b)
  }

  // ---------------------------------------------------------------------
  // Address decoding is a bijection
  // ---------------------------------------------------------------------

  lemma {:induction false} SplitBits(a: nat, k: nat)
    ensures a == ShiftRight(a, k) * Pow2(k) + LowBits(a, k)
  {
    if k != 0 {
      SplitBits(a / 2, k - 1);
      DoubleProduct(ShiftRight(a / 2, k - 1), Pow2(k - 1));
    }
  }

  lemma DoubleProduct(x: nat, y: nat)
    ensures x * (2 * y) == 2 * (x * y)
  {
  }

  lemma {:induction false} ShiftTwice(a: nat, i: nat, j: nat)
    ensures ShiftRight(a, i + j) == ShiftRight(ShiftRight(a, i), j)
  {
    if i != 0 {
      ShiftTwice(a / 2, i - 1, j);
    }
  }

  lemma {:induction false} LowBitsOfSmall(a: nat, k: nat)
    requires a < Pow2(k)
    ensures LowBits(a, k) == a
  {
    if k != 0 {
      LowBitsOfSmall(a / 2, k - 1);
    }
  }

  lemma {:induction false} ShiftIsSmall(a: nat, i: nat, j: nat)
    requires a < Pow2(i + j)
    ensures ShiftRight(a, i) < Pow2(j)
  {
    if i != 0 {
      ShiftIsSmall(a / 2, i - 1, j);
    }
  }

  lemma {:induction false} LowBitsInTwo(a: nat, i: nat, j: nat)
    ensures LowBits(a, i + j) == LowBits(ShiftRight(a, i), j) * Pow2(i) + LowBits(a, i)
  {
    if i != 0 {
      LowBitsInTwo(a / 2, i - 1, j);
      DoubleProduct(LowBits(ShiftRight(a, i), j), Pow2(i - 1));
    }
  }

  /** `a & ((1 << k) - 1)` is the remainder. */
  lemma LowBitsIsRemainder(a: nat, k: nat)
    ensures LowBits(a, k) == a % Pow2(k)
  {
    SplitBits(a, k);
    QuotientIsUnique(a, Pow2(k), ShiftRight(a, k), LowBits(a, k));
  }

  /** The address's line, counted from address 0: the address divided by the bytes of a line. */
  function LineNumber(cfg: Config, a: nat): (n: nat)
    ensures n == a / Pow2(cfg.numBytesBits)
  {
    ShiftIsDivision(a, cfg.numBytesBits);
    ShiftRight(a, cfg.numBytesBits)
  }

  /** What set, tag and byte offset say about the address. */
  function Rebuilt(cfg: Config, a: nat): int
    requires cfg.Valid()
  {
    (TagOf(cfg, a) * cfg.NumSets() + SetOf(cfg, a)) * Pow2(cfg.numBytesBits) + OffsetOf(cfg, a)
  }

  /** Set and tag are the line number, as far as the two masks reach. */
  lemma SetAndTagAreLine(cfg: Config, a: nat)
    requires cfg.Valid()
    ensures TagOf(cfg, a) * cfg.NumSets() + SetOf(cfg, a) == LowBits(LineNumber(cfg, a), cfg.numSetBits + cfg.tagMaskBits)
  {
    var b, s, m := cfg.numBytesBits, cfg.numSetBits, cfg.tagMaskBits;
    ShiftTwice(a, b, s);
    LowBitsInTwo(ShiftRight(a, b), s, m);
  }

  /** Set, tag and byte offset rebuild an address exactly when the masks reach its last bit. */
  lemma DecodeRebuildsAddress(cfg: Config, a: nat)
    requires cfg.Valid()
    ensures Rebuilt(cfg, a) == a <==> a < Pow2(cfg.numBytesBits + (cfg.numSetBits + cfg.tagMaskBits))
  {
    var b, k := cfg.numBytesBits, cfg.numSetBits + cfg.tagMaskBits;
    SetAndTagAreLine(cfg, a);
    LowBitsInTwo(a, b, k);
    hide TagOf, SetOf, LowBits, ShiftRight, Pow2;
    assert Rebuilt(cfg, a) == LowBits(a, b + k);
    if a < Pow2(b + k) {
      LowBitsOfSmall(a, b + k);
    }
  }

  /** Two addresses decode alike exactly when their lines agree in the bits the masks keep. */
  lemma SameSetAndTagIff(cfg: Config, a: nat, b: nat)
    requires cfg.Valid()
    ensures (SetOf(cfg, a) == SetOf(cfg, b) && TagOf(cfg, a) == TagOf(cfg, b))
            <==> LineNumber(cfg, a) % Pow2(cfg.numSetBits + cfg.tagMaskBits)
                 == LineNumber(cfg, b) % Pow2(cfg.numSetBits + cfg.tagMaskBits)
  {
    var k := cfg.numSetBits + cfg.tagMaskBits;
    SetAndTagAreLine(cfg, a);
    SetAndTagAreLine(cfg, b);
    LowBitsIsRemainder(LineNumber(cfg, a), k);
    LowBitsIsRemainder(LineNumber(cfg, b), k);
    var x, y, n := TagOf(cfg, a), TagOf(cfg, b), cfg.NumSets();
    hide TagOf, SetOf, LowBits, Pow2, LineNumber;
    if x * n + SetOf(cfg, a) == y * n + SetOf(cfg, b) {
      PairIsUnique(x, SetOf(cfg, a), y, SetOf(cfg, b), n);
    }
  }

  lemma PairIsUnique(x: nat, r: nat, y: nat, q: nat, n: nat)
    requires r < n && q < n && x * n + r == y * n + q
    ensures x == y && r == q
  {
    if x < y {
      DistinctMultiples(x, y, n);
    } else if y < x {
      DistinctMultiples(y, x, n);
    }
  }

  lemma Pow2Grows(i: nat, j: nat)
    requires i <= j
    ensures Pow2(i) <= Pow2(j)
    ensures i < j ==> Pow2(i) < Pow2(j)
  {
  }

  lemma {:induction false} ShiftOfPow2(i: nat, j: nat)
    ensures ShiftRight(Pow2(i + j), i) == Pow2(j)
  {
    if i != 0 {
      assert Pow2(i + j) / 2 == Pow2(i - 1 + j);
      ShiftOfPow2(i - 1, j);
    }
  }

  /** Decoding tells lines apart: two addresses of the configured width have the same set
      and tag exactly when they lie in the same line. */
  ghost predicate TellsLinesApart(cfg: Config)
    requires cfg.Valid()
  {
    forall a: nat, b: nat :: a < Pow2(cfg.numAddressBits) && b < Pow2(cfg.numAddressBits) ==>
      (SetOf(cfg, a) == SetOf(cfg, b) && TagOf(cfg, a) == TagOf(cfg, b) <==> LineNumber(cfg, a) == LineNumber(cfg, b))
  }

  lemma LineNumberIsSmall(cfg: Config, a: nat)
    requires cfg.Valid() && a < Pow2(cfg.numAddressBits) && cfg.NumTagBits() <= cfg.tagMaskBits
    ensures LineNumber(cfg, a) % Pow2(cfg.numSetBits + cfg.tagMaskBits) == LineNumber(cfg, a)
  {
    ShiftIsSmall(a, cfg.numBytesBits, cfg.numSetBits + cfg.NumTagBits());
    Pow2Grows(cfg.numSetBits + cfg.NumTagBits(), cfg.numSetBits + cfg.tagMaskBits);
    hide Pow2, ShiftRight;
    SmallRemainder(LineNumber(cfg, a), Pow2(cfg.numSetBits + cfg.tagMaskBits));
  }

  lemma SmallRemainder(x: nat, n: nat)
    requires x < n
    ensures x % n == x
  {
  }

  /** It does so if and only if the mask reaches all tag bits, hence not for a tag of 32 bits or more. */
  lemma TellsLinesApartIff(cfg: Config)
    requires cfg.Valid()
    ensures TellsLinesApart(cfg) <==> cfg.NumTagBits() <= cfg.tagMaskBits
    ensures 32 <= cfg.NumTagBits() ==> !TellsLinesApart(cfg)
  {
    hide SetOf, TagOf, LineNumber, Pow2;
    if cfg.NumTagBits() <= cfg.tagMaskBits {
      forall a: nat, b: nat | a < Pow2(cfg.numAddressBits) && b < Pow2(cfg.numAddressBits)
        ensures SetOf(cfg, a) == SetOf(cfg, b) && TagOf(cfg, a) == TagOf(cfg, b) <==> LineNumber(cfg, a) == LineNumber(cfg, b)
      {
        SameSetAndTagIff(cfg, a, b);
        LineNumberIsSmall(cfg, a);
        LineNumberIsSmall(cfg, b);
      }
    } else {
      MaskedTagsCollide(cfg);
    }
  }

  /** The first address beyond the masks' reach decodes like address 0. */
  lemma MaskedTagsCollide(cfg: Config)
    requires cfg.Valid() && cfg.tagMaskBits < cfg.NumTagBits()
    ensures var b := Pow2(cfg.numBytesBits + (cfg.numSetBits + cfg.tagMaskBits));
            && b < Pow2(cfg.numAddressBits)
            && SetOf(cfg, 0) == SetOf(cfg, b) && TagOf(cfg, 0) == TagOf(cfg, b) && LineNumber(cfg, 0) != LineNumber(cfg, b)
  {
    var k := cfg.numSetBits + cfg.tagMaskBits;
    var b := Pow2(cfg.numBytesBits + k);
    Pow2Grows(cfg.numBytesBits + k, cfg.numAddressBits);
    ShiftOfPow2(cfg.numBytesBits, k);
    ShiftOfZero(cfg.numBytesBits);
    hide SetOf, TagOf, Pow2, ShiftRight;
    MultiplesHaveNoRemainder(Pow2(k));
    SameSetAndTagIff(cfg, 0, b);
  }

  lemma {:induction false} ShiftOfZero(k: nat)
    ensures ShiftRight(0, k) == 0
  {
    if k != 0 {
      ShiftOfZero(k - 1);
    }
  }

  lemma MultiplesHaveNoRemainder(m: nat)
    requires 0 < m
    ensures m % m == 0 && 0 % m == 0
  {
  }

  lemma ShiftIsDivision(a: nat, k: nat)
    ensures ShiftRight(a, k) == a / Pow2(k)
  {
    SplitBits(a, k);
    QuotientIsUnique(a, Pow2(k), ShiftRight(a, k), LowBits(a, k));
  }

  lemma QuotientIsUnique(a: nat, d: nat, q: nat, r: nat)
    requires 0 < d && r < d && a == q * d + r
    ensures q == a / d
  {
    var p := a / d;
    assert p * d <= a < p * d + d;
    if p < q {
      DistinctMultiples(p, q, d);
    } else if q < p {
      DistinctMultiples(q, p, d);
    }
  }

  lemma DistinctMultiples(x: nat, y: nat, d: nat)
    requires x < y
    ensures x * d + d <= y * d
  {
    assert (x + 1) * d <= y * d;
  }
}
