/** Stable pack and question identifiers (internal/pack/hash.go): FNV-1a
    64 over the bytes of a few fields, printed in lower-case hexadecimal
    and cut to six characters. A string's characters are taken as its
    bytes. */
module Hashing {
  import opened Text
  import opened PackDomain

  const TwoTo64: nat := 0x1_0000_0000_0000_0000
  const FnvOffset64: nat := 14695981039346656037
  const FnvPrime64: nat := 1099511628211

  /** The byte a character stands for. */
  function Byte(c: char): (b: nat)
    ensures b < 256
  {
    (c as int) % 256
  }

  /** Bitwise exclusive or of two natural numbers. */
  function Xor(a: nat, b: nat): nat
    decreases a + b
  {
    if a == 0 then b
    else if b == 0 then a
    else 2 * Xor(a / 2, b / 2) + (a % 2 + b % 2) % 2
  }

  /** One FNV-1a round on the 64-bit sum: the byte is xor-ed in, then the
      sum is multiplied by the prime, wrapping around at 2^64. */
  function FnvStep(h: nat, b: nat): (r: nat)
    ensures r < TwoTo64
  {
    (Xor(h, b) * FnvPrime64) % TwoTo64
  }

  /** Writing the bytes of `s` into a hasher whose running sum is `h`. */
  function FnvWrite(h: nat, s: string): nat
    decreases |s|
  {
    if s == [] then h else FnvWrite(FnvStep(h, Byte(s[0])), s[1..])
  }

  /** Writing in pieces is writing the concatenation, so three `Write`
      calls hash the three fields run together. */
  lemma {:induction false} FnvWriteAppend(h: nat, a: string, b: string)
    ensures FnvWrite(h, a + b) == FnvWrite(FnvWrite(h, a), b)
    decreases |a|
  {
    if a != [] {
      var h' := FnvStep(h, Byte(a[0]));
      assert (a + b)[0] == a[0];
      assert (a + b)[1..] == a[1..] + b;
      assert FnvWrite(h, a + b) == FnvWrite(h', a[1..] + b);
      assert FnvWrite(h, a) == FnvWrite(h', a[1..]);
      FnvWriteAppend(h', a[1..], b);
    } else {
      assert a + b == b;
    }
  }

  /** The FNV-1a 64 sum of the three fields written in order. */
  function Sum3(a: string, b: string, c: string): (sum: nat)
    ensures sum == FnvWrite(FnvOffset64, a + b + c)
  {
    FnvWriteAppend(FnvOffset64, a, b);
    FnvWriteAppend(FnvOffset64, a + b, c);
    FnvWrite(FnvWrite(FnvWrite(FnvOffset64, a), b), c)
  }

  /** A lower-case hexadecimal digit. */
  function HexDigit(d: nat): (c: char)
    requires d < 16
    ensures IsHexDigit(c)
  {
    "0123456789abcdef"[d]
  }

  predicate IsHexDigit(c: char) {
    '0' <= c <= '9' || 'a' <= c <= 'f'
  }

  /** `%x` of an unsigned number: lower-case digits without leading zeros,
      "0" for zero. */
  function Hex(n: nat): (s: string)
    ensures |s| >= 1
    ensures forall i :: 0 <= i < |s| ==> IsHexDigit(s[i])
    decreases n
  {
    if n < 16 then [HexDigit(n)] else Hex(n / 16) + [HexDigit(n % 16)]
  }

  /** `%x` has at least six digits exactly from 0x100000 up. */
  lemma {:induction false} HexLength(n: nat)
    ensures |Hex(n)| >= 6 <==> n >= 0x10_0000
    decreases n
  {
    if n >= 16 {
      HexLength(n / 16);
      HexShort(n / 16);
    }
  }

  lemma {:induction false} HexShort(n: nat)
    ensures |Hex(n)| >= 5 <==> n >= 0x1_0000
    ensures |Hex(n)| >= 4 <==> n >= 0x1000
    ensures |Hex(n)| >= 3 <==> n >= 0x100
    ensures |Hex(n)| >= 2 <==> n >= 0x10
    decreases n
  {
    if n >= 16 {
      HexShort(n / 16);
    }
  }

  /** `sum[:6]` panics unless the sum prints with six or more digits. */
  predicate HashDefined(sum: nat) {
    sum >= 0x10_0000
  }

  /** The six leading hex digits of a sum. */
  function Hash6(sum: nat): (h: string)
    requires HashDefined(sum)
    ensures |h| == 6 && |Hex(sum)| >= 6 && h == Hex(sum)[..6]
    ensures forall i :: 0 <= i < 6 ==> IsHexDigit(h[i])
  {
    HexLength(sum);
    Hex(sum)[..6]
  }

  /** `PackHash`'s fields. */
  datatype PackHash = PackHash(name: string, creator: string, version: string)
  {
    /** The running sum after name, creator and version. */
    function Sum(): (sum: nat)
      ensures sum == FnvWrite(FnvOffset64, name + creator + version)
    {
      Sum3(name, creator, version)
    }

    /** `PackHash.Hash`: six lower-case hex digits of the FNV-1a 64 sum of
        name, creator and version run together. */
    function Hash(): (h: string)
      requires HashDefined(Sum())
      ensures |h| == 6 && forall i :: 0 <= i < 6 ==> IsHexDigit(h[i])
      ensures var x := Hex(FnvWrite(FnvOffset64, name + creator + version)); |x| >= 6 && h == x[..6]
    {
      Hash6(Sum())
    }

    /** `PackHash.ID`: "pack-" then the hash. */
    function ID(): (id: string)
      requires HashDefined(Sum())
      ensures |id| == 11 && id[..5] == "pack-" && id[5..] == Hash()
    {
      "pack-" + Hash()
    }
  }

  /** `QuestionHash`'s fields. */
  datatype QuestionHash = QuestionHash(
    packHash: string, prompt: string, difficulty: string, qtype: PackType, category: string, index: int)
  {
    /** The running sum after prompt, difficulty and category. */
    function Sum(): (sum: nat)
      ensures sum == FnvWrite(FnvOffset64, prompt + difficulty + category)
    {
      Sum3(prompt, difficulty, category)
    }

    /** `QuestionHash.Hash`: six hex digits of the FNV-1a 64 sum of prompt,
        difficulty and category; the pack hash, type and index do not
        enter it. */
    function Hash(): (h: string)
      requires HashDefined(Sum())
      ensures |h| == 6
    {
      Hash6(Sum())
    }

    /** `QuestionHash.ID`: "q-<pack>-<type>-<index, two digits>-<hash>". */
    function ID(): (id: string)
      requires HashDefined(Sum())
      ensures |id| >= 2
    {
      "q-" + packHash + "-" + TypeString(qtype) + "-" + Format02d(index) + "-" + Hash()
    }
  }

  /** A question's hash is the first six lower-case hex digits of the
      FNV-1a 64 sum of its prompt, difficulty and category run together. */
  lemma QuestionHashIsFnv(h: QuestionHash)
    requires HashDefined(h.Sum())
    ensures var x := Hex(FnvWrite(FnvOffset64, h.prompt + h.difficulty + h.category)); |x| >= 6 && h.Hash() == x[..6]
    ensures forall i :: 0 <= i < 6 ==> IsHexDigit(h.Hash()[i])
  {
    var sum := h.Sum();
    assert h.Hash() == Hash6(sum);
  }

  /** A question ID starts with "q-" and ends with the question's hash;
      between them come the pack hash, the type name and the index. */
  lemma QuestionIDFormat(h: QuestionHash)
    requires HashDefined(h.Sum())
    ensures h.ID()[..2] == "q-" && h.ID()[|h.ID()| - 6..] == h.Hash()
    ensures h.ID() == "q-" + h.packHash + "-" + TypeString(h.qtype) + "-" + Format02d(h.index) + "-" + h.Hash()
  {
    IDFraming(h.packHash, TypeString(h.qtype), Format02d(h.index), h.Hash());
  }

  /** "q-" and the hash frame the fields in between. */
  lemma IDFraming(packHash: string, typeName: string, index: string, hash: string)
    ensures var id := "q-" + packHash + "-" + typeName + "-" + index + "-" + hash;
      id[..2] == "q-" && id[|id| - |hash|..] == hash
  {
    var prefix := "q-" + packHash + "-" + typeName + "-" + index + "-";
    assert (prefix + hash)[|prefix|..] == hash;
    assert prefix[..2] == "q-";
  }

  /** `%02d`: at least two characters, zero-padded, with a sign for
      negative values. */
  function Format02d(n: int): (s: string)
    ensures |s| >= 2
    ensures s[0] == '-' <==> n < 0
  {
    if n < 0 then "-" + NatToString(-n) else Pad2(n)
  }

  /** Different numbers print differently under `%02d`. */
  lemma Format02dInjective(a: int, b: int)
    requires Format02d(a) == Format02d(b)
    ensures a == b
  {
    if a < 0 {
      assert b < 0;
      NegativeDigits(a, b);
    } else {
      assert b >= 0;
      assert DecimalValue(Pad2(a)) == a;
    }
  }

  lemma NegativeDigits(a: int, b: int)
    requires a < 0 && b < 0 && "-" + NatToString(-a) == "-" + NatToString(-b)
    ensures a == b
  {
    var x, y := NatToString(-a), NatToString(-b);
    assert ("-" + x)[1..] == x;
    assert ("-" + y)[1..] == y;
    NatToStringInjective(-a, -b);
  }

  /** Questions of the same pack, type and hashed fields at different
      indices get different IDs. */
  lemma {:induction false} QuestionIDsDistinctByIndex(h: QuestionHash, i: int, j: int)
    requires HashDefined(h.Sum()) && i != j
    ensures h.(index := i).ID() != h.(index := j).ID()
  {
    var prefix := "q-" + h.packHash + "-" + TypeString(h.qtype) + "-";
    assert h.(index := i).Hash() == h.Hash() && h.(index := j).Hash() == h.Hash();
    if h.(index := i).ID() == h.(index := j).ID() {
      MiddleEqual(prefix, Format02d(i), Format02d(j), h.Hash());
      Format02dInjective(i, j);
    }
  }

  /** Two strings with the same prefix and the same "-"-separated suffix
      agree in the middle. */
  lemma MiddleEqual(prefix: string, a: string, b: string, hash: string)
    requires prefix + a + "-" + hash == prefix + b + "-" + hash
    ensures a == b
  {
    var x := prefix + a + "-" + hash;
    assert x[|prefix|..|x| - |hash| - 1] == a;
    var y := prefix + b + "-" + hash;
    assert y[|prefix|..|y| - |hash| - 1] == b;
  }
}
