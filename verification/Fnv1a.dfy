/** The 64-bit FNV-1a hash behind the request signature, and what makes it separate single-byte changes. */
module Fnv1a {
  import opened Text

  type Byte = b: int | 0 <= b < 256
  type Hash = h: int | 0 <= h < U64_LIMIT

  const OFFSET_BASIS: Hash := 0xcbf29ce484222325
  const PRIME: int := 0x00000100000001b3
  /** The inverse of the prime modulo two to the 64; it exists because the prime is odd. */
  const INVERSE: int := 0xce965057aff6957b

  function PowerOfTwo(bits: nat): nat {
    if bits == 0 then 1 else 2 * PowerOfTwo(bits - 1)
  }

  /** Exclusive or of the low `bits` bits, bit by bit. */
  function Xor(bits: nat, a: nat, b: nat): (c: nat)
    ensures c < PowerOfTwo(bits)
  {
    if bits == 0 then 0
    else (if a % 2 == b % 2 then 0 else 1) + 2 * Xor(bits - 1, a / 2, b / 2)
  }

  function XorByte(a: Byte, b: Byte): (c: Byte) {
    assert PowerOfTwo(8) == 256;
    Xor(8, a, b)
  }

  /** Only the low eight bits of the state meet the byte. */
  function Mix(h: Hash, b: Byte): (m: Hash) {
    h / 256 * 256 + XorByte(h % 256, b)
  }

  function Scale(h: Hash): (m: Hash) {
    h * PRIME % U64_LIMIT
  }

  function Step(h: Hash, b: Byte): Hash {
    Scale(Mix(h, b))
  }

  /** The step backwards. */
  function Unstep(h: Hash, b: Byte): Hash {
    Mix(h * INVERSE % U64_LIMIT, b)
  }

  function Write(h: Hash, bytes: seq<Byte>): Hash
    decreases |bytes|
  {
    if bytes == [] then h else Write(Step(h, bytes[0]), bytes[1..])
  }

  /** `fnv1a_write`. */
  method WriteInPlace(start: Hash, bytes: seq<Byte>) returns (h: Hash)
    ensures h == Write(start, bytes)
  {
    h := start;
    var i := 0;
    while i < |bytes|
      invariant 0 <= i <= |bytes|
      invariant Write(h, bytes[i..]) == Write(start, bytes)
    {
      assert bytes[i..][0] == bytes[i] && bytes[i..][1..] == bytes[i + 1..];
      h := h / 256 * 256 + XorByte(h % 256, bytes[i]);
      h := h * PRIME % U64_LIMIT;
      i := i + 1;
    }
  }

  lemma {:induction false} XorTwice(bits: nat, a: nat, b: nat)
    requires a < PowerOfTwo(bits)
    ensures Xor(bits, Xor(bits, a, b), b) == a
  {
    if bits > 0 {
      XorTwice(bits - 1, a / 2, b / 2);
      assert Xor(bits, a, b) / 2 == Xor(bits - 1, a / 2, b / 2);
    }
  }

  lemma {:induction false} XorInjective(bits: nat, a: nat, b: nat, c: nat)
    requires b < PowerOfTwo(bits) && c < PowerOfTwo(bits)
    requires Xor(bits, a, b) == Xor(bits, a, c)
    ensures b == c
  {
    if bits > 0 {
      assert Xor(bits, a, b) / 2 == Xor(bits - 1, a / 2, b / 2);
      assert Xor(bits, a, c) / 2 == Xor(bits - 1, a / 2, c / 2);
      XorInjective(bits - 1, a / 2, b / 2, c / 2);
    }
  }

  lemma {:induction false} MixTwice(h: Hash, b: Byte)
    ensures Mix(Mix(h, b), b) == h
  {
    var m := Mix(h, b);
    assert m / 256 == h / 256 && m % 256 == XorByte(h % 256, b);
    assert PowerOfTwo(8) == 256;
    XorTwice(8, h % 256, b);
  }

  lemma {:induction false} MultipleBelow(k: int, m: int)
    requires m > 0 && -m < k * m < m
    ensures k == 0
  {
  }

  lemma {:induction false} DivModUnique(x: int, m: int, q: int, r: int)
    requires m > 0 && 0 <= r < m && x == q * m + r
    ensures x % m == r
  {
    var d, e := DivMod(x, m);
    assert (d - q) * m == d * m - q * m;
    MultipleBelow(d - q, m);
  }

  lemma {:induction false} DivMod(x: int, m: int) returns (d: int, e: int)
    requires m > 0
    ensures d == x / m && e == x % m && x == d * m + e && 0 <= e < m
  {
    d, e := x / m, x % m;
  }

  /** Multiplying the product reduced modulo `m` is multiplying the product. */
  lemma {:induction false} ModProduct(a: int, b: int, m: int)
    requires m > 0
    ensures (a % m) * b % m == a * b % m
  {
    var q, r := a / m, a % m;
    var e, s := r * b / m, r * b % m;
    assert a == q * m + r && r * b == e * m + s;
    assert a * b == (q * b + e) * m + s by {
      assert (q * m + r) * b == q * m * b + r * b;
      assert q * m * b == q * b * m;
      assert (q * b + e) * m == q * b * m + e * m;
    }
    DivModUnique(a * b, m, q * b + e, s);
  }

  lemma {:induction false} ScaleUndone(h: Hash)
    ensures Scale(h) * INVERSE % U64_LIMIT == h
  {
    ModProduct(h * PRIME, INVERSE, U64_LIMIT);
    var k := (PRIME * INVERSE - 1) / U64_LIMIT;
    assert PRIME * INVERSE == k * U64_LIMIT + 1;
    assert h * PRIME * INVERSE == h + (h * k) * U64_LIMIT by {
      assert h * PRIME * INVERSE == h * (PRIME * INVERSE);
      assert h * (k * U64_LIMIT + 1) == (h * k) * U64_LIMIT + h;
    }
    DivModUnique(h + (h * k) * U64_LIMIT, U64_LIMIT, h * k, h);
  }

  lemma {:induction false} UnscaleUndone(h: Hash)
    ensures (h * INVERSE % U64_LIMIT) * PRIME % U64_LIMIT == h
  {
    ModProduct(h * INVERSE, PRIME, U64_LIMIT);
    var k := (PRIME * INVERSE - 1) / U64_LIMIT;
    assert PRIME * INVERSE == k * U64_LIMIT + 1;
    assert h * INVERSE * PRIME == h + (h * k) * U64_LIMIT by {
      assert h * INVERSE * PRIME == h * (PRIME * INVERSE);
      assert h * (k * U64_LIMIT + 1) == (h * k) * U64_LIMIT + h;
    }
    DivModUnique(h + (h * k) * U64_LIMIT, U64_LIMIT, h * k, h);
  }

  /** Each byte step is a bijection on the state: it is undone from either side. */
  lemma {:induction false} StepBijective(h: Hash, b: Byte)
    ensures Unstep(Step(h, b), b) == h
    ensures Step(Unstep(h, b), b) == h
  {
    ScaleUndone(Mix(h, b));
    MixTwice(h, b);
    UnscaleUndone(h);
    MixTwice(h * INVERSE % U64_LIMIT, b);
  }

  /** From one state, different bytes lead to different states. */
  lemma {:induction false} StepSeparatesBytes(h: Hash, b: Byte, c: Byte)
    requires Step(h, b) == Step(h, c)
    ensures b == c
  {
    ScaleUndone(Mix(h, b));
    ScaleUndone(Mix(h, c));
    assert PowerOfTwo(8) == 256;
    XorInjective(8, h % 256, b, c);
  }

  lemma {:induction false} WriteConcat(h: Hash, a: seq<Byte>, b: seq<Byte>)
    ensures Write(h, a + b) == Write(Write(h, a), b)
    decreases |a|
  {
    if a == [] {
      assert a + b == b;
    } else {
      WriteConcat(Step(h, a[0]), a[1..], b);
      assert (a + b)[1..] == a[1..] + b;
    }
  }

  lemma {:induction false} StepInjective(g: Hash, h: Hash, b: Byte)
    requires Step(g, b) == Step(h, b)
    ensures g == h
  {
    StepBijective(g, b);
    StepBijective(h, b);
  }

  lemma {:induction false} WriteInjective(g: Hash, h: Hash, bytes: seq<Byte>)
    ensures Write(g, bytes) == Write(h, bytes) ==> g == h
    decreases |bytes|
  {
    hide Step;
    if bytes != [] && Write(g, bytes) == Write(h, bytes) {
      WriteInjective(Step(g, bytes[0]), Step(h, bytes[0]), bytes[1..]);
      StepInjective(g, h, bytes[0]);
    }
  }

  /** Streams of the same length that differ in exactly one byte never have the same hash. */
  lemma {:induction false} OneByteChangesHash(h: Hash, before: seq<Byte>, b: Byte, c: Byte, after: seq<Byte>)
    requires b != c
    ensures Write(h, before + [b] + after) != Write(h, before + [c] + after)
  {
    WriteConcat(h, before + [b], after);
    WriteConcat(h, before, [b]);
    WriteConcat(h, before + [c], after);
    WriteConcat(h, before, [c]);
    var state := Write(h, before);
    assert Write(state, [b]) == Step(state, b);
    assert Write(state, [c]) == Step(state, c);
    if Write(Step(state, b), after) == Write(Step(state, c), after) {
      WriteInjective(Step(state, b), Step(state, c), after);
      StepSeparatesBytes(state, b, c);
    }
  }

  // ----- Request signatures -----

  /** `{:0Nx}`: exactly `digits` lower-case hexadecimal digits. */
  function Hex(digits: nat, n: nat): (s: string)
    ensures |s| == digits
  {
    if digits == 0 then "" else Hex(digits - 1, n / 16) + [HexDigit(n % 16)]
  }

  function HexDigit(d: nat): char
    requires d < 16
  {
    if d < 10 then ('0' as int + d) as char else ('a' as int + (d - 10)) as char
  }

  lemma {:induction false} HexInjective(digits: nat, m: nat, n: nat)
    requires m < PowerOfTwo(4 * digits) && n < PowerOfTwo(4 * digits)
    requires Hex(digits, m) == Hex(digits, n)
    ensures m == n
  {
    if digits > 0 {
      hide PowerOfTwo, Hex;
      SixteenTimes(digits - 1);
      HexSplits(digits, m, n);
      HexInjective(digits - 1, m / 16, n / 16);
    }
  }

  lemma {:induction false} SixteenTimes(digits: nat)
    ensures PowerOfTwo(4 * (digits + 1)) == 16 * PowerOfTwo(4 * digits)
  {
    var bits := 4 * digits;
    assert PowerOfTwo(bits + 1) == 2 * PowerOfTwo(bits);
    assert PowerOfTwo(bits + 2) == 2 * PowerOfTwo(bits + 1);
    assert PowerOfTwo(bits + 3) == 2 * PowerOfTwo(bits + 2);
    assert PowerOfTwo(bits + 4) == 2 * PowerOfTwo(bits + 3);
  }

  /** Equal prints agree in the last digit and in the digits before it. */
  lemma {:induction false} HexSplits(digits: nat, m: nat, n: nat)
    requires digits > 0 && Hex(digits, m) == Hex(digits, n)
    ensures Hex(digits - 1, m / 16) == Hex(digits - 1, n / 16) && m % 16 == n % 16
  {
    var a, b := Hex(digits, m), Hex(digits, n);
    assert a[..digits - 1] == Hex(digits - 1, m / 16) && b[..digits - 1] == Hex(digits - 1, n / 16);
    assert a[digits - 1] == HexDigit(m % 16) && b[digits - 1] == HexDigit(n % 16);
  }

  /** What is hashed: model name, system prompt, then name and schema of every tool, each closed by a zero byte. */
  datatype Signed = Signed(model: seq<Byte>, prompt: seq<Byte>, tools: seq<(seq<Byte>, seq<Byte>)>)

  function ToolStream(tools: seq<(seq<Byte>, seq<Byte>)>): seq<Byte> {
    if tools == [] then [] else tools[0].0 + [0] + tools[0].1 + [0] + ToolStream(tools[1..])
  }

  function SignedStream(s: Signed): seq<Byte> {
    s.model + [0] + (s.prompt + [0] + ToolStream(s.tools))
  }

  function WindowId(session: string, s: Signed): string {
    session + ":" + Hex(16, Write(OFFSET_BASIS, SignedStream(s)))
  }

  /**
   Two requests whose signed streams differ in exactly one byte have different window ids, so a socket opened for one
   is not taken for the other. Nothing is said of streams that differ in more.
   */
  lemma {:induction false} OneByteChangesWindow(session: string, s: Signed, t: Signed, before: seq<Byte>, b: Byte,
                                                c: Byte, after: seq<Byte>)
    requires SignedStream(s) == before + [b] + after && SignedStream(t) == before + [c] + after && b != c
    ensures WindowId(session, s) != WindowId(session, t)
  {
    OneByteChangesHash(OFFSET_BASIS, before, b, c, after);
    var g, h := Write(OFFSET_BASIS, SignedStream(s)), Write(OFFSET_BASIS, SignedStream(t));
    assert PowerOfTwo(64) == U64_LIMIT by {
      SixtyFourBits();
    }
    if WindowId(session, s) == WindowId(session, t) {
      var n := |session + ":"|;
      assert (session + ":" + Hex(16, g))[n..] == Hex(16, g);
      assert (session + ":" + Hex(16, h))[n..] == Hex(16, h);
      HexInjective(16, g, h);
    }
  }

  /** For instance, changing one byte of the model name changes the window id. */
  lemma {:induction false} ModelByteChangesWindow(session: string, s: Signed, at: nat, b: Byte)
    requires at < |s.model| && s.model[at] != b
    ensures WindowId(session, s) != WindowId(session, s.(model := s.model[at := b]))
  {
    var changed := s.(model := s.model[at := b]);
    var before, after := s.model[..at], s.model[at + 1..] + [0] + (s.prompt + [0] + ToolStream(s.tools));
    assert SignedStream(s) == before + [s.model[at]] + after;
    assert SignedStream(changed) == before + [b] + after;
    OneByteChangesWindow(session, s, changed, before, s.model[at], b, after);
  }

  lemma {:induction false} SixtyFourBits()
    ensures PowerOfTwo(64) == U64_LIMIT
  {
    DoubleBits(8);
    DoubleBits(16);
    DoubleBits(32);
    assert PowerOfTwo(8) == 256;
  }

  lemma {:induction false} DoubleBits(bits: nat)
    ensures PowerOfTwo(2 * bits) == PowerOfTwo(bits) * PowerOfTwo(bits)
  {
    PowerSum(bits, bits);
  }

  lemma {:induction false} PowerSum(a: nat, b: nat)
    ensures PowerOfTwo(a + b) == PowerOfTwo(a) * PowerOfTwo(b)
  {
    if a > 0 {
      PowerSum(a - 1, b);
    }
  }
}
