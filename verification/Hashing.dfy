/**
 The grouping key of fingerprint.go: a 64-bit FNV-1a fold over four strings framed by NUL
 bytes. Each character of a string stands for one byte.
 */
module Hashing {
  import opened Decimal
  import opened Text

  const OFFSET: nat := 14695981039346656037
  const PRIME: nat := 1099511628211
  const TWO64: nat := 0x1_0000_0000_0000_0000

  function Pow2(bits: nat): nat {
    if bits == 0 then 1 else 2 * Pow2(bits - 1)
  }

  // The exclusive or of the lowest bits, bit by bit.
  function Xor(a: nat, b: nat, bits: nat): (x: nat)
    ensures x < Pow2(bits)
  {
    if bits == 0 then 0 else (a + b) % 2 + 2 * Xor(a / 2, b / 2, bits - 1)
  }

  // The byte is mixed into the low byte of the state.
  function Mix(h: nat, c: char): nat {
    h / 256 * 256 + Xor(h % 256, c as int % 256, 8)
  }

  // One FNV-1a step.
  function Absorb(h: nat, c: char): (h': nat)
    ensures h' < TWO64
  {
    (Mix(h, c) * PRIME) % TWO64
  }

  // h.Write(s)
  function Write(h: nat, s: string): (h': nat)
    ensures h < TWO64 ==> h' < TWO64
    decreases |s|
  {
    if s == "" then h else Write(Absorb(h, s[0]), s[1..])
  }

  // The hash is a stream: two writes are one write of the concatenation.
  lemma {:induction false} WriteAppend(h: nat, s: string, t: string)
    ensures Write(Write(h, s), t) == Write(h, s + t)
    decreases |s|
  {
    if s == "" {
      assert s + t == t;
    } else {
      assert (s + t)[1..] == s[1..] + t;
      WriteAppend(Absorb(h, s[0]), s[1..], t);
    }
  }

  function HexDigit(d: nat): char
    requires d < 16
  {
    if d < 10 then '0' + d as char else 'a' + (d - 10) as char
  }

  // strconv.FormatUint(n, 16)
  function Hex(n: nat): (s: string)
    ensures s != ""
  {
    if n < 16 then [HexDigit(n)] else Hex(n / 16) + [HexDigit(n % 16)]
  }

  const NUL: char := 0 as char

  // The bytes that are hashed.
  function Framed(domain: string, code: string, function_: string, line: int): string {
    domain + [NUL] + (code + [NUL] + (function_ + [NUL] + Itoa(line)))
  }

  // The seven writes of Fingerprint hash the framed stream.
  lemma WritesAreFramed(h: nat, domain: string, code: string, function_: string, line: int)
    ensures Write(Write(Write(Write(Write(Write(Write(h,
              domain), [NUL]), code), [NUL]), function_), [NUL]), Itoa(line))
         == Write(h, Framed(domain, code, function_, line))
  {
    var tail := function_ + [NUL] + Itoa(line);
    var h1 := Write(Write(h, domain), [NUL]);
    var h2 := Write(Write(h1, code), [NUL]);
    WriteThree(h2, function_, Itoa(line));
    WriteThree(h1, code, tail);
    WriteThree(h, domain, code + [NUL] + tail);
  }

  lemma WriteThree(h: nat, s: string, t: string)
    ensures Write(Write(Write(h, s), [NUL]), t) == Write(h, s + [NUL] + t)
  {
    WriteAppend(h, s, [NUL]);
    WriteAppend(h, s + [NUL], t);
  }

  function Key(domain: string, code: string, function_: string, line: int): (s: string)
    ensures s != ""
  {
    Hex(Write(OFFSET, Framed(domain, code, function_, line)))
  }

  /** The framing loses nothing for NUL-free strings. */
  lemma FramingIsInjective(d1: string, c1: string, f1: string, l1: int, d2: string, c2: string, f2: string, l2: int)
    requires NUL !in d1 && NUL !in c1 && NUL !in f1 && NUL !in d2 && NUL !in c2 && NUL !in f2
    requires Framed(d1, c1, f1, l1) == Framed(d2, c2, f2, l2)
    ensures d1 == d2 && c1 == c2 && f1 == f2 && l1 == l2
  {
    var r1, r2 := f1 + [NUL] + Itoa(l1), f2 + [NUL] + Itoa(l2);
    SplitFirst(d1, c1 + [NUL] + r1, d2, c2 + [NUL] + r2, NUL);
    SplitFirst(c1, r1, c2, r2, NUL);
    SplitFirst(f1, Itoa(l1), f2, Itoa(l2), NUL);
    ItoaInjective(l1, l2);
  }

  // How many NUL bytes the stream holds: three separators and those of the strings.
  lemma FramedNuls(d: string, c: string, f: string, l: int)
    ensures multiset(Framed(d, c, f, l))[NUL] == 3 + multiset(d)[NUL] + multiset(c)[NUL] + multiset(f)[NUL]
  {
    var line := Itoa(l);
    ItoaHasNoNul(l);
    assert multiset(line)[NUL] == 0;
    var tail := f + [NUL] + line;
    assert multiset(tail) == multiset(f) + multiset([NUL]) + multiset(line);
    assert multiset(c + [NUL] + tail) == multiset(c) + multiset([NUL]) + multiset(tail);
  }

  lemma ItoaHasNoNul(l: int)
    ensures NUL !in Itoa(l)
  {
    var n := Numeral(if l < 0 then -l else l);
    assert forall i :: 0 <= i < |n| ==> n[i] != NUL;
  }

  // Moving a separator into or out of a component does not change the stream.
  lemma FrameDomain(a: string, b: string, c: string, f: string, l: int)
    ensures Framed(a + [NUL] + b, c, f, l) == Framed(a, b + [NUL] + c, f, l)
  {
    MoveSeparator(a, b, c, [NUL] + (f + [NUL] + Itoa(l)));
  }

  lemma FrameCode(a: string, b: string, c: string, f: string, l: int)
    ensures Framed(a, b + [NUL] + c, f, l) == Framed(a, b, c + [NUL] + f, l)
  {
    MoveSeparator(b, c, f, [NUL] + Itoa(l));
  }

  lemma MoveSeparator(a: string, b: string, c: string, tail: string)
    ensures a + [NUL] + b + [NUL] + (c + tail) == a + [NUL] + (b + [NUL] + c + tail)
  {
  }

  // Two identities with one stream.
  predicate Collide(d: string, c: string, f: string, l: int, d2: string, c2: string, f2: string, l2: int) {
    (d, c, f, l) != (d2, c2, f2, l2) && Framed(d, c, f, l) == Framed(d2, c2, f2, l2)
  }

  ghost predicate Ambiguous(d: string, c: string, f: string, l: int) {
    exists d2, c2, f2, l2 :: Collide(d, c, f, l, d2, c2, f2, l2)
  }

  // A NUL in a component can be read as a separator.
  lemma NulIsAmbiguous(d: string, c: string, f: string, l: int)
    requires NUL in d || NUL in c || NUL in f
    ensures Ambiguous(d, c, f, l)
  {
    if NUL in d {
      var (a, b) := AtNul(d);
      FrameDomain(a, b, c, f, l);
      assert Collide(d, c, f, l, a, b + [NUL] + c, f, l);
    } else if NUL in c {
      var (a, b) := AtNul(c);
      FrameDomain(d, a, b, f, l);
      assert Collide(d, c, f, l, d + [NUL] + a, b, f, l);
    } else {
      var (a, b) := AtNul(f);
      FrameCode(d, c, a, b, l);
      assert Collide(d, c, f, l, d, c + [NUL] + a, b, l);
    }
  }

  function AtNul(s: string): (r: (string, string))
    requires NUL in s
    ensures s == r.0 + [NUL] + r.1
  {
    var k := IndexOf(s, NUL);
    IndexOfFirst(s, NUL);
    (s[..k], s[k + 1..])
  }

  lemma NulFreeIsUnique(d: string, c: string, f: string, l: int, d2: string, c2: string, f2: string, l2: int)
    requires NUL !in d && NUL !in c && NUL !in f
    ensures !Collide(d, c, f, l, d2, c2, f2, l2)
  {
    if Framed(d, c, f, l) == Framed(d2, c2, f2, l2) {
      FramedNuls(d, c, f, l);
      FramedNuls(d2, c2, f2, l2);
      FramingIsInjective(d, c, f, l, d2, c2, f2, l2);
    }
  }

  /** Another identity hashes the same bytes if and only if some component holds a NUL. */
  lemma FramingCollidesWithNul(d: string, c: string, f: string, l: int)
    ensures Ambiguous(d, c, f, l) <==> NUL in d || NUL in c || NUL in f
  {
    if NUL in d || NUL in c || NUL in f {
      NulIsAmbiguous(d, c, f, l);
    } else if Ambiguous(d, c, f, l) {
      var d2, c2, f2, l2 :| Collide(d, c, f, l, d2, c2, f2, l2);
      NulFreeIsUnique(d, c, f, l, d2, c2, f2, l2);
    }
  }

  // ---- what the key tells apart --------------------------------------------------------

  // The inverse of PRIME modulo 2^64.
  const INVERSE: nat := 14886173955864302971

  lemma TimesPrimeIsInjective(a: nat, b: nat)
    requires a < TWO64 && b < TWO64 && (a * PRIME) % TWO64 == (b * PRIME) % TWO64
    ensures a == b
  {
    var k := (a * PRIME) / TWO64 - (b * PRIME) / TWO64;
    assert (a - b) * PRIME == k * TWO64;
    assert PRIME * INVERSE == 1 + 887285111055 * TWO64;
    assert a - b == (k * INVERSE - (a - b) * 887285111055) * TWO64;
  }

  lemma {:induction false} XorIsInjective(a1: nat, b1: nat, a2: nat, b2: nat, bits: nat)
    requires a1 < Pow2(bits) && b1 < Pow2(bits) && a2 < Pow2(bits) && b2 < Pow2(bits)
    requires Xor(a1, b1, bits) == Xor(a2, b2, bits)
    ensures a1 == a2 <==> b1 == b2
    decreases bits
  {
    if bits > 0 {
      var x1, x2 := Xor(a1 / 2, b1 / 2, bits - 1), Xor(a2 / 2, b2 / 2, bits - 1);
      LowBits(a1, b1, x1, a2, b2, x2);
      XorIsInjective(a1 / 2, b1 / 2, a2 / 2, b2 / 2, bits - 1);
      Halves(a1, a2);
      Halves(b1, b2);
    }
  }

  lemma LowBits(a1: nat, b1: nat, x1: nat, a2: nat, b2: nat, x2: nat)
    requires (a1 + b1) % 2 + 2 * x1 == (a2 + b2) % 2 + 2 * x2
    ensures x1 == x2 && (a1 % 2 == a2 % 2 <==> b1 % 2 == b2 % 2)
  {
  }

  lemma Halves(a: nat, b: nat)
    ensures a == b <==> a / 2 == b / 2 && a % 2 == b % 2
  {
  }

  lemma MixIsInjective(h1: nat, h2: nat, c1: char, c2: char)
    requires Mix(h1, c1) == Mix(h2, c2)
    ensures h1 == h2 <==> c1 as int % 256 == c2 as int % 256
  {
    assert Pow2(8) == 256;
    var x1, x2 := Xor(h1 % 256, c1 as int % 256, 8), Xor(h2 % 256, c2 as int % 256, 8);
    HighAndLow(h1 / 256, x1, h2 / 256, x2);
    XorIsInjective(h1 % 256, c1 as int % 256, h2 % 256, c2 as int % 256, 8);
  }

  lemma HighAndLow(a: int, x: int, b: int, y: int)
    requires a * 256 + x == b * 256 + y && 0 <= x < 256 && 0 <= y < 256
    ensures a == b && x == y
  {
  }

  lemma MixFits(h: nat, c: char)
    requires h < TWO64
    ensures Mix(h, c) < TWO64
  {
    assert Pow2(8) == 256;
    BytesFit(h / 256, Xor(h % 256, c as int % 256, 8));
  }

  lemma BytesFit(a: int, x: int)
    requires a < TWO64 / 256 && x < 256
    ensures a * 256 + x < TWO64
  {
  }

  // One step loses neither the state nor the byte.
  lemma AbsorbIsInjective(h1: nat, h2: nat, c1: char, c2: char)
    requires h1 < TWO64 && h2 < TWO64 && Absorb(h1, c1) == Absorb(h2, c2)
    ensures h1 == h2 <==> c1 as int % 256 == c2 as int % 256
  {
    MixFits(h1, c1);
    MixFits(h2, c2);
    TimesPrimeIsInjective(Mix(h1, c1), Mix(h2, c2));
    MixIsInjective(h1, h2, c1, c2);
  }

  // So what follows cannot merge two states.
  lemma {:induction false} WriteIsInjective(h1: nat, h2: nat, s: string)
    requires h1 < TWO64 && h2 < TWO64
    ensures Write(h1, s) == Write(h2, s) <==> h1 == h2
    decreases |s|
  {
    if s != "" {
      WriteIsInjective(Absorb(h1, s[0]), Absorb(h2, s[0]), s[1..]);
      if Absorb(h1, s[0]) == Absorb(h2, s[0]) {
        AbsorbIsInjective(h1, h2, s[0], s[0]);
      }
    }
  }

  function Bit(a: nat, i: nat): nat
    decreases i
  {
    if i == 0 then a % 2 else Bit(a / 2, i - 1)
  }

  lemma LowestBit(bit: nat, rest: nat)
    requires bit < 2
    ensures (bit + 2 * rest) % 2 == bit && (bit + 2 * rest) / 2 == rest
  {
  }

  /** The exclusive or differs from its first argument in exactly the bits set in the second. */
  lemma {:induction false} XorBits(a: nat, b: nat, bits: nat, i: nat)
    requires i < bits
    ensures Bit(Xor(a, b, bits), i) != Bit(a, i) <==> Bit(b, i) == 1
    decreases bits
  {
    LowestBit((a + b) % 2, Xor(a / 2, b / 2, bits - 1));
    if i > 0 {
      XorBits(a / 2, b / 2, bits - 1, i - 1);
    }
  }

  function HexValue(c: char): int {
    if '0' <= c <= '9' then c as int - '0' as int
    else if 'a' <= c <= 'f' then c as int - 'a' as int + 10 else -1
  }

  // The number a string of hexadecimal digits denotes.
  function ParseHex(s: string): int {
    if s == "" then 0 else ParseHex(s[..|s| - 1]) * 16 + HexValue(s[|s| - 1])
  }

  /** The key reads back, has lower-case digits only, and no leading zero. */
  lemma {:induction false} HexReadsBack(n: nat)
    ensures ParseHex(Hex(n)) == n && (n > 0 ==> Hex(n)[0] != '0')
    ensures forall i :: 0 <= i < |Hex(n)| ==> HexValue(Hex(n)[i]) >= 0
    decreases n
  {
    HexUnfold(n);
    if n >= 16 {
      HexReadsBack(n / 16);
      assert Hex(n)[0] == Hex(n / 16)[0];
    } else {
      assert Hex(n)[..0] == "";
    }
  }

  lemma {:induction false} HexIsInjective(a: nat, b: nat)
    requires Hex(a) == Hex(b)
    ensures a == b
    decreases a
  {
    HexUnfold(a);
    HexUnfold(b);
    if a >= 16 {
      HexIsInjective(a / 16, b / 16);
    }
  }

  lemma HexUnfold(n: nat)
    ensures var s := Hex(n);
            HexDigit(n % 16) == s[|s| - 1] && s[..|s| - 1] == if n < 16 then "" else Hex(n / 16)
  {
  }

  /** Two codes give one key if and only if the hash merges them right after they are written:
      function, line and everything else that follows cannot tell, nor merge, them. */
  lemma KeyTellsCodes(domain: string, c1: string, c2: string, function_: string, line: int)
    ensures Key(domain, c1, function_, line) == Key(domain, c2, function_, line)
       <==> Write(OFFSET, domain + [NUL] + c1) == Write(OFFSET, domain + [NUL] + c2)
  {
    var tail := [NUL] + (function_ + [NUL] + Itoa(line));
    KeyIsStream(domain, c1, function_, line, tail);
    KeyIsStream(domain, c2, function_, line, tail);
    var h1, h2 := Write(OFFSET, domain + [NUL] + c1), Write(OFFSET, domain + [NUL] + c2);
    WriteIsInjective(h1, h2, tail);
    if Write(h1, tail) != Write(h2, tail) && Hex(Write(h1, tail)) == Hex(Write(h2, tail)) {
      HexIsInjective(Write(h1, tail), Write(h2, tail));
    }
  }

  lemma KeyIsStream(domain: string, code: string, function_: string, line: int, tail: string)
    requires tail == [NUL] + (function_ + [NUL] + Itoa(line))
    ensures Key(domain, code, function_, line) == Hex(Write(Write(OFFSET, domain + [NUL] + code), tail))
  {
    WriteAppend(OFFSET, domain + [NUL] + code, tail);
    Regroup(domain, code, function_ + [NUL] + Itoa(line));
  }

  lemma Regroup(a: string, b: string, c: string)
    ensures a + [NUL] + (b + [NUL] + c) == a + [NUL] + b + ([NUL] + c)
  {
  }

  /** Codes that differ in exactly one byte never share a key. */
  lemma OneByteChangesKey(domain: string, a: string, x: char, y: char, b: string, function_: string, line: int)
    requires (x as int) % 256 != (y as int) % 256
    ensures Key(domain, a + [x] + b, function_, line) != Key(domain, a + [y] + b, function_, line)
  {
    KeyTellsCodes(domain, a + [x] + b, a + [y] + b, function_, line);
    var before := domain + [NUL] + a;
    var h := Write(OFFSET, before);
    StreamAround(before, x, b, domain, a);
    StreamAround(before, y, b, domain, a);
    WriteIsInjective(Absorb(h, x), Absorb(h, y), b);
    if Absorb(h, x) == Absorb(h, y) {
      AbsorbIsInjective(h, h, x, y);
    }
  }

  lemma StreamAround(before: string, x: char, b: string, domain: string, a: string)
    requires before == domain + [NUL] + a
    ensures Write(OFFSET, domain + [NUL] + (a + [x] + b)) == Write(Absorb(Write(OFFSET, before), x), b)
  {
    assert domain + [NUL] + (a + [x] + b) == before + ([x] + b);
    WriteAppend(OFFSET, before, [x] + b);
    assert ([x] + b)[1..] == b;
  }
}
