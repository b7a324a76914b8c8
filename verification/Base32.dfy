/** The raw callback tokens: ten random bytes in base 32, made by a shift register
    that wraps around at 32 bits. */
module Base32 {
  import opened Basics

  type Byte = n: nat | n < 256

  function Alphabet(): string { "ABCDEFGHIJKLMNOPQRSTUVWXYZ234567" }

  // ---- the reference: bits, cut into groups ---------------------------

  function Pow2(k: nat): (p: nat)
    ensures p > 0
  {
    if k == 0 then 1 else 2 * Pow2(k - 1)
  }

  /** The value of a bit string, most significant bit first. */
  function ValueOf(bits: seq<bool>): nat {
    if bits == [] then 0 else 2 * ValueOf(bits[..|bits| - 1]) + if bits[|bits| - 1] then 1 else 0
  }

  /** The low `w` bits of a number, most significant first. */
  function BitsOf(v: nat, w: nat): (bits: seq<bool>)
    ensures |bits| == w
  {
    if w == 0 then [] else BitsOf(v / 2, w - 1) + [v % 2 == 1]
  }

  /** The values of the full `w`-bit groups from the left; a shorter rest is dropped. */
  function Chop(bits: seq<bool>, w: nat): seq<nat>
    requires w > 0
  {
    if |bits| < w then [] else [ValueOf(bits[..w])] + Chop(bits[w..], w)
  }

  /** Numbers of `w` bits each, written one after the other. */
  function Spell(values: seq<nat>, w: nat): seq<bool> {
    if values == [] then [] else Spell(values[..|values| - 1], w) + BitsOf(values[|values| - 1], w)
  }

  function Letter(v: nat): char {
    if v < 26 then 'A' + v as char else if v < 32 then '2' + (v - 26) as char else '?'
  }

  function Letters(values: seq<nat>): (s: string)
    ensures |s| == |values| && forall i :: 0 <= i < |s| ==> s[i] == Letter(values[i])
  {
    seq(|values|, i requires 0 <= i < |values| => Letter(values[i]))
  }

  function Rank(c: char): nat { if 'A' <= c <= 'Z' then (c - 'A') as nat else if '2' <= c <= '7' then 26 + (c - '2') as nat else 0 }

  function Ranks(s: string): (values: seq<nat>)
    ensures |values| == |s| && forall i :: 0 <= i < |s| ==> values[i] == Rank(s[i])
  {
    seq(|s|, i requires 0 <= i < |s| => Rank(s[i]))
  }

  /** The full five-bit groups of section 6 of RFC 4648, without the padded last one. */
  function Encode(bytes: seq<Byte>): string { Letters(Chop(Spell(bytes, 8), 5)) }

  function Decode(s: string): seq<nat> { Chop(Spell(Ranks(s), 5), 8) }

  // ---- the shift register ---------------------------------------------

  const WORD := 0x1_0000_0000

  function ToUint32(x: int): int { x % WORD }

  function ToInt32(x: int): int {
    if x % WORD >= 0x8000_0000 then x % WORD - WORD else x % WORD
  }

  /** `(value << 8) | byte`: the shift leaves eight zero bits for the byte. */
  function ShiftIn(value: int, byte: Byte): int { ToInt32(value * 256) + byte }

  /** `(value >>> k) & 31` */
  function FiveAbove(value: int, k: nat): (r: int)
    ensures 0 <= r < 32
  {
    (ToUint32(value) / Pow2(k)) % 32
  }

  // ---- lemmas ---------------------------------------------------------

  lemma {:induction false} ValueOfConcat(a: seq<bool>, b: seq<bool>)
    ensures ValueOf(a + b) == ValueOf(a) * Pow2(|b|) + ValueOf(b)
  {
    if b == [] {
      assert a + b == a;
    } else {
      var front, all := b[..|b| - 1], a + b;
      ValueOfConcat(a, front);
      assert all[..|all| - 1] == a + front && all[|all| - 1] == b[|b| - 1];
      Doubled(ValueOf(a), Pow2(|front|));
    }
  }

  lemma Doubled(v: nat, p: nat)
    ensures v * (2 * p) == 2 * (v * p)
  {
  }

  lemma {:induction false} ValueBelow(bits: seq<bool>)
    ensures ValueOf(bits) < Pow2(|bits|)
  {
    if bits != [] {
      ValueBelow(bits[..|bits| - 1]);
    }
  }

  lemma {:induction false} BitsOfValue(bits: seq<bool>)
    ensures BitsOf(ValueOf(bits), |bits|) == bits
  {
    if bits != [] {
      BitsOfValue(bits[..|bits| - 1]);
    }
  }

  lemma {:induction false} ValueOfBits(v: nat, w: nat)
    requires v < Pow2(w)
    ensures ValueOf(BitsOf(v, w)) == v
  {
    if w > 0 {
      ValueOfBits(v / 2, w - 1);
      assert BitsOf(v, w)[..w - 1] == BitsOf(v / 2, w - 1);
    }
  }

  lemma {:induction false} SpellCons(v: nat, rest: seq<nat>, w: nat)
    ensures Spell([v] + rest, w) == BitsOf(v, w) + Spell(rest, w)
  {
    var all := [v] + rest;
    if rest == [] {
      assert all == [v] && [v][..0] == [];
    } else {
      SpellCons(v, rest[..|rest| - 1], w);
      assert all[..|all| - 1] == [v] + rest[..|rest| - 1];
    }
  }

  lemma {:induction false} ChopSpell(values: seq<nat>, w: nat)
    requires w > 0 && forall i :: 0 <= i < |values| ==> values[i] < Pow2(w)
    ensures Chop(Spell(values, w), w) == values
  {
    if values != [] {
      ChopSpell(values[1..], w);
      SpellCons(values[0], values[1..], w);
      assert [values[0]] + values[1..] == values;
      ValueOfBits(values[0], w);
      var bits := Spell(values, w);
      assert bits[..w] == BitsOf(values[0], w) && bits[w..] == Spell(values[1..], w);
    }
  }

  lemma SpellNothing(w: nat)
    ensures Spell([], w) == []
  {
  }

  lemma Rejoin(bits: seq<bool>, w: nat, k: nat)
    requires w + k <= |bits|
    ensures bits[..w] + bits[w..][..k] == bits[..w + k]
  {
  }

  /** Writing the groups out again gives the bits back, but for the short rest. */
  lemma {:induction false} SpellChop(bits: seq<bool>, w: nat)
    requires w > 0
    ensures var kept := Spell(Chop(bits, w), w);
      |kept| <= |bits| && kept == bits[..|kept|] && |bits| - |kept| < w
  {
    hide Spell, ValueOf, BitsOf;
    if |bits| < w {
      assert Spell([], w) == [] by { SpellNothing(w); }
    } else {
      var first, rest := bits[..w], bits[w..];
      SpellChop(rest, w);
      SpellCons(ValueOf(first), Chop(rest, w), w);
      BitsOfValue(first);
      var kept := Spell(Chop(rest, w), w);
      Rejoin(bits, w, |kept|);
    }
  }

  lemma {:induction false} SpellLength(values: seq<nat>)
    ensures |Spell(values, 5)| == 5 * |values| && |Spell(values, 8)| == 8 * |values|
  {
    if values != [] {
      SpellLength(values[..|values| - 1]);
    }
  }

  lemma {:induction false} ChopMore(a: seq<bool>, five: seq<bool>)
    requires |a| % 5 == 0 && |five| == 5
    ensures Chop(a + five, 5) == Chop(a, 5) + [ValueOf(five)]
  {
    if a == [] {
      assert a + five == five && five[..5] == five && five[5..] == [];
    } else {
      ChopMore(a[5..], five);
      assert (a + five)[..5] == a[..5] && (a + five)[5..] == a[5..] + five;
    }
  }

  lemma {:induction false} ChopIgnoresRest(a: seq<bool>, rest: seq<bool>)
    requires |a| % 5 == 0 && |rest| < 5
    ensures Chop(a + rest, 5) == Chop(a, 5)
  {
    if a != [] {
      ChopIgnoresRest(a[5..], rest);
      assert (a + rest)[..5] == a[..5] && (a + rest)[5..] == a[5..] + rest;
    }
  }

  lemma AtLeastOnce(a: int, p: int)
    requires a >= 1 && p > 0
    ensures a * p >= p
  {
  }

  lemma Apart(d: int, e: int, p: int)
    ensures (d - e) * p == d * p - e * p && (e - d) * p == e * p - d * p
  {
  }

  lemma QuotientIs(u: int, d: int, p: int, low: int)
    requires u == d * p + low && 0 <= low < p
    ensures u / p == d
  {
    var e, rest := u / p, u % p;
    assert u == e * p + rest;
    Apart(d, e, p);
    if d > e { AtLeastOnce(d - e, p); }
    if d < e { AtLeastOnce(e - d, p); }
  }

  lemma Spread(h: int, f: int, m: int, p: int)
    ensures (32 * (h - m) + f) * p == (h * 32 + f) * p - m * (32 * p)
  {
  }

  /** How many five-bit cuts of this kind fill the register. */
  function Cuts(k: nat): (c: int)
    requires k <= 7
    ensures c * (32 * Pow2(k)) == WORD
  {
    assert Pow2(3) == 8 && Pow2(5) == 32;
    WORD / (32 * Pow2(k))
  }

  lemma Regroup(q: int, c: int, p: int)
    ensures q * (c * p) == (q * c) * p
  {
  }

  lemma FiveIs(value: int, k: nat, h: int, five: nat)
    requires five < 32 && ToUint32(value) / Pow2(k) == 32 * h + five
    ensures FiveAbove(value, k) == five
  {
  }

  /** Cutting five bits out of a number, also when only its low 32 bits are known. */
  lemma CutFive(v: nat, high: nat, five: nat, low: nat, k: nat, value: int)
    requires k <= 7 && five < 32 && low < Pow2(k)
    requires v == (high * 32 + five) * Pow2(k) + low
    requires ToUint32(value) == v % WORD
    ensures FiveAbove(value, k) == five
  {
    hide ToUint32, Pow2, Cuts, FiveAbove;
    var p, q, u := Pow2(k), v / WORD, v % WORD;
    var m := q * Cuts(k);
    Regroup(q, Cuts(k), 32 * p);
    Spread(high, five, m, p);
    assert u == (32 * (high - m) + five) * p + low;
    QuotientIs(u, 32 * (high - m) + five, p, low);
    FiveIs(value, k, high - m, five);
  }

  lemma Congruent(x: int, y: int, c: int)
    requires x == y + c * WORD
    ensures x % WORD == y % WORD
  {
  }

  /** The register holds the low 32 bits of everything shifted in. */
  lemma ShiftInKeeps(value: int, v: nat, byte: Byte)
    requires ToUint32(value) == v % WORD
    ensures ToUint32(ShiftIn(value, byte)) == (v * 256 + byte) % WORD
  {
    var x := value * 256;
    var c := if x % WORD >= 0x8000_0000 then x / WORD + 1 else x / WORD;
    assert ToInt32(x) == x - c * WORD;
    var d := value / WORD - v / WORD;
    assert value - v == d * WORD;
    Congruent(ShiftIn(value, byte), v * 256 + byte, 256 * d - c);
  }

  lemma {:induction false} ChopAt(bits: seq<bool>, i: nat)
    requires 5 * i + 5 <= |bits|
    ensures |Chop(bits, 5)| == |bits| / 5 && Chop(bits, 5)[i] == ValueOf(bits[5 * i..5 * i + 5])
    decreases |bits|
  {
    if |bits| >= 10 {
      ChopAt(bits[5..], if i > 0 then i - 1 else 0);
    }
    if i > 0 {
      assert bits[5..][5 * (i - 1)..5 * (i - 1) + 5] == bits[5 * i..5 * i + 5];
    }
  }

  lemma {:induction false} ChopSize(bits: seq<bool>)
    ensures |Chop(bits, 5)| == |bits| / 5 && |Chop(bits, 8)| == |bits| / 8
    decreases |bits|
  {
    if |bits| >= 5 { ChopSize(bits[5..]); }
    if |bits| >= 8 { ChopSize(bits[8..]); }
  }

  lemma {:induction false} ChopBelow(bits: seq<bool>)
    ensures forall i :: 0 <= i < |Chop(bits, 5)| ==> Chop(bits, 5)[i] < 32
  {
    if |bits| >= 5 {
      ValueBelow(bits[..5]);
      assert Pow2(5) == 32;
      ChopBelow(bits[5..]);
    }
  }

  lemma AlphabetLetter(v: nat)
    requires v < 32
    ensures |Alphabet()| == 32 && Alphabet()[v] == Letter(v) && Rank(Letter(v)) == v
  {
  }

  // ---- the generator --------------------------------------------------

  /** Of the bits seen so far, `out` spells the first ones in letters, `pending` are
      left, and the register holds the low 32 bits of their number. */
  predicate Register(seen: seq<bool>, out: string, pending: nat, value: int) {
    && 5 * |out| + pending == |seen|
    && ToUint32(value) == ValueOf(seen) % WORD
    && out == Letters(Chop(seen[..5 * |out|], 5))
  }

  lemma ByteShiftedIn(seen: seq<bool>, out: string, pending: nat, value: int, byte: Byte)
    requires Register(seen, out, pending, value)
    ensures Register(seen + BitsOf(byte, 8), out, pending + 8, ShiftIn(value, byte))
  {
    hide ShiftIn, ToUint32, Letters, Chop;
    ValueOfConcat(seen, BitsOf(byte, 8));
    assert Pow2(3) == 8 && Pow2(6) == 64 && Pow2(8) == 256;
    ValueOfBits(byte, 8);
    ShiftInKeeps(value, ValueOf(seen), byte);
    assert (seen + BitsOf(byte, 8))[..5 * |out|] == seen[..5 * |out|];
  }

  /** The five bits cut out are the next five in line. */
  lemma NextFive(done: seq<bool>, five: seq<bool>, rest: seq<bool>, value: int)
    requires |five| == 5 && |rest| <= 7 && ToUint32(value) == ValueOf(done + five + rest) % WORD
    ensures FiveAbove(value, |rest|) == ValueOf(five)
  {
    hide ToUint32, FiveAbove;
    ValueOfConcat(done + five, rest);
    ValueOfConcat(done, five);
    ValueBelow(rest);
    ValueBelow(five);
    assert Pow2(2) == 4 && Pow2(5) == 32;
    CutFive(ValueOf(done + five + rest), ValueOf(done), ValueOf(five), ValueOf(rest), |rest|, value);
  }

  lemma LettersMore(values: seq<nat>, v: nat)
    ensures Letters(values + [v]) == Letters(values) + [Letter(v)]
  {
  }

  lemma LetterOut(seen: seq<bool>, out: string, pending: nat, value: int)
    requires Register(seen, out, pending, value) && 5 <= pending <= 12
    ensures var v := FiveAbove(value, pending - 5);
      v < 32 && Register(seen, out + [Letter(v)], pending - 5, value)
  {
    hide ToUint32, Letters, Letter, Chop, ValueOf;
    var n := 5 * |out|;
    var done, five, rest := seen[..n], seen[n..n + 5], seen[n + 5..];
    assert done + five + rest == seen && done + five == seen[..n + 5];
    NextFive(done, five, rest, value);
    ChopMore(done, five);
    LettersMore(Chop(done, 5), ValueOf(five));
  }

  method GenerateRawCallbackToken(bytes: seq<Byte>) returns (token: string)
    ensures token == Encode(bytes)[..Min(16, |Encode(bytes)|)]
    ensures |bytes| == 10 ==> token == Encode(bytes) && |token| == 16
  {
    hide ToUint32, Register, FiveAbove, ShiftIn, Alphabet, Letter;
    var bits, value, out := 0, 0, "";
    assert Register([], "", 0, 0) by { EmptyRegister(); }
    assert bytes[..0] == [];
    for n := 0 to |bytes|
      invariant 0 <= bits < 5
      invariant Register(Spell(bytes[..n], 8), out, bits, value)
    {
      ghost var seen := Spell(bytes[..n + 1], 8);
      assert bytes[..n + 1][..n] == bytes[..n];
      ByteShiftedIn(Spell(bytes[..n], 8), out, bits, value, bytes[n]);
      value := ShiftIn(value, bytes[n]);
      bits := bits + 8;
      while bits >= 5
        invariant 0 <= bits <= 12
        invariant Register(seen, out, bits, value)
      {
        LetterOut(seen, out, bits, value);
        AlphabetLetter(FiveAbove(value, bits - 5));
        out := out + [Alphabet()[FiveAbove(value, bits - 5)]];
        bits := bits - 5;
      }
    }
    assert bytes[..|bytes|] == bytes;
    AllOut(bytes, out, bits, value);
    EncodeLength(bytes);
    token := out[..Min(16, |out|)];
  }

  lemma EmptyRegister()
    ensures Register([], "", 0, 0)
  {
  }

  lemma AllOut(bytes: seq<Byte>, out: string, pending: nat, value: int)
    requires Register(Spell(bytes, 8), out, pending, value) && pending < 5
    ensures out == Encode(bytes)
  {
    hide Letters, Chop, Spell, ToUint32;
    var bits, n := Spell(bytes, 8), 5 * |out|;
    ChopIgnoresRest(bits[..n], bits[n..]);
    assert bits[..n] + bits[n..] == bits;
  }

  // ---- theorems -------------------------------------------------------

  /** One letter per five full bits, all of them from the alphabet. */
  lemma EncodeLength(bytes: seq<Byte>)
    ensures |Encode(bytes)| == 8 * |bytes| / 5
    ensures forall c :: c in Encode(bytes) ==> 'A' <= c <= 'Z' || '2' <= c <= '7'
  {
    var bits := Spell(bytes, 8);
    SpellLength(bytes);
    ChopSize(bits);
    ChopBelow(bits);
  }

  /** Letter `i` stands for bits `5i` to `5i+4` of the bytes written in binary. */
  lemma LetterIsGroup(bytes: seq<Byte>, i: nat)
    requires i < 8 * |bytes| / 5
    ensures |Spell(bytes, 8)| == 8 * |bytes|
    ensures i < |Encode(bytes)| && Encode(bytes)[i] == Letter(ValueOf(Spell(bytes, 8)[5 * i..5 * i + 5]))
  {
    SpellLength(bytes);
    EncodeLength(bytes);
    ChopAt(Spell(bytes, 8), i);
  }

  lemma RanksOfLetters(values: seq<nat>)
    requires forall i :: 0 <= i < |values| ==> values[i] < 32
    ensures Ranks(Letters(values)) == values
  {
    forall i | 0 <= i < |values| ensures Rank(Letter(values[i])) == values[i] {
      AlphabetLetter(values[i]);
    }
  }

  /** The bytes can be read back if and only if no bits were left over. */
  lemma RoundTripIff(bytes: seq<Byte>)
    ensures Decode(Encode(bytes)) == bytes <==> |bytes| % 5 == 0
  {
    hide Letters, Ranks, Spell, Chop;
    var bits := Spell(bytes, 8);
    var groups := Chop(bits, 5);
    ChopBelow(bits);
    RanksOfLetters(groups);
    SpellChop(bits, 5);
    var kept := Spell(groups, 5);
    SpellLength(bytes);
    SpellLength(groups);
    ChopSize(kept);
    if |bytes| % 5 == 0 {
      assert kept == bits;
      assert Pow2(3) == 8 && Pow2(6) == 64 && Pow2(8) == 256;
      ChopSpell(bytes, 8);
    }
  }

  /** Different ten-byte draws give different tokens. */
  lemma TokensDiffer(a: seq<Byte>, b: seq<Byte>)
    requires |a| == |b| && |a| % 5 == 0
    ensures Encode(a) == Encode(b) <==> a == b
  {
    RoundTripIff(a);
    RoundTripIff(b);
  }

  /** The button data of a token: `v1:` and sixteen letters. */
  predicate IsWire(s: string) {
    && |s| == 19 && s[..3] == "v1:"
    && forall i :: 3 <= i < 19 ==> 'A' <= s[i] <= 'Z' || '2' <= s[i] <= '7'
  }

  lemma TokensFitTheWire(bytes: seq<Byte>)
    requires |bytes| == 10
    ensures IsWire("v1:" + Encode(bytes))
  {
    EncodeLength(bytes);
    forall i | 3 <= i < 19 ensures ("v1:" + Encode(bytes))[i] in Encode(bytes) {
      assert ("v1:" + Encode(bytes))[i] == Encode(bytes)[i - 3];
    }
  }
}
