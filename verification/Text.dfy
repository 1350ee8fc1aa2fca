/** Hexadecimal and decimal text, digests, and path names. */
module Text {
  import opened Basics

  /** MD5 (RFC 1321) is any function from byte strings to 16 bytes. */
  type Digest = s: Bytes | |s| == 16 witness seq(16, _ => 0)

  type Hash = Bytes -> Digest

  const HEX := "0123456789abcdef"

  /** hex.EncodeToString: lower case, two characters a byte. */
  function Hex(b: Bytes): (s: string)
    ensures |s| == 2 * |b|
  {
    if b == [] then "" else [HEX[b[0] / 16], HEX[b[0] % 16]] + Hex(b[1..])
  }

  function HexDigit(c: char): Option<nat> {
    if '0' <= c <= '9' then Some(c as int - '0' as int)
    else if 'a' <= c <= 'f' then Some(c as int - 'a' as int + 10)
    else if 'A' <= c <= 'F' then Some(c as int - 'A' as int + 10)
    else None
  }

  /** hex.DecodeString: an odd length or any other character is an error. */
  function Unhex(s: string): (r: Option<Bytes>)
    ensures r.Some? ==> |s| == 2 * |r.value|
  {
    if s == "" then Some([])
    else if |s| == 1 then None
    else
      var hi, lo, rest := HexDigit(s[0]), HexDigit(s[1]), Unhex(s[2..]);
      if hi.None? || lo.None? || rest.None? || hi.value >= 16 || lo.value >= 16 then None
      else Some([hi.value * 16 + lo.value] + rest.value)
  }

  lemma HexDigits(n: nat)
    requires n < 16
    ensures HexDigit(HEX[n]) == Some(n) && HEX[n] != '-'
  {
  }

  lemma {:induction false} UnhexHex(b: Bytes)
    ensures Unhex(Hex(b)) == Some(b)
  {
    if b != [] {
      HexDigits(b[0] / 16);
      HexDigits(b[0] % 16);
      UnhexHex(b[1..]);
      assert Hex(b)[2..] == Hex(b[1..]);
      assert b[0] / 16 * 16 + b[0] % 16 == b[0];
      assert [b[0]] + b[1..] == b;
    }
  }

  lemma HexCons(x: byte, b: Bytes)
    ensures Hex([x] + b) == [HEX[x / 16], HEX[x % 16]] + Hex(b)
  {
    assert ([x] + b)[1..] == b;
  }

  lemma {:induction false} HexCat(a: Bytes, b: Bytes)
    ensures Hex(a + b) == Hex(a) + Hex(b)
  {
    if a == [] {
      assert a + b == b;
      assert Hex(a) == "";
    } else {
      var x, rest := a[0], a[1..];
      assert a == [x] + rest;
      assert a + b == [x] + (rest + b);
      hide Hex;
      HexCat(rest, b);
      HexCons(x, rest);
      HexCons(x, rest + b);
      Assoc([HEX[x / 16], HEX[x % 16]], Hex(rest), Hex(b));
    }
  }

  lemma Assoc(a: string, b: string, c: string)
    ensures a + (b + c) == (a + b) + c
  {
  }

  lemma HexInjective(a: Bytes, b: Bytes)
    requires Hex(a) == Hex(b)
    ensures a == b
  {
    UnhexHex(a);
    UnhexHex(b);
  }

  /** %d of a non-negative number. */
  function Dec(n: nat): string {
    if n < 10 then [HEX[n]] else Dec(n / 10) + [HEX[n % 10]]
  }

  function DecValue(s: string): int {
    if s == "" then 0
    else 10 * DecValue(s[..|s| - 1]) + match HexDigit(s[|s| - 1]) case Some(d) => d case None => 0
  }

  lemma {:induction false} DecValueDec(n: nat)
    ensures DecValue(Dec(n)) == n
  {
    HexDigits(n % 10);
    if n >= 10 {
      DecValueDec(n / 10);
      assert Dec(n)[..|Dec(n)| - 1] == Dec(n / 10);
    } else {
      assert DecValue("") == 0;
      assert Dec(n)[..0] == "";
    }
  }

  /** fmt.Sprintf("%s-%d", hex, n). */
  function Tag(d: Digest, n: nat): string {
    Hex(d) + "-" + Dec(n)
  }

  /** The two parts of a tag can be read back. */
  lemma TagInjective(d: Digest, m: nat, e: Digest, n: nat)
    requires Tag(d, m) == Tag(e, n)
    ensures d == e && m == n
  {
    assert Tag(d, m)[..32] == Hex(d) && Tag(e, n)[..32] == Hex(e);
    assert Tag(d, m)[33..] == Dec(m) && Tag(e, n)[33..] == Dec(n);
    HexInjective(d, e);
    DecValueDec(m);
    DecValueDec(n);
  }

  lemma HexSpelled()
    ensures Hex([0xd4, 0x1d, 0x8c]) == "d41d8c"
  {
    hide Hex;
    HexCons(0xd4, [0x1d, 0x8c]);
    HexCons(0x1d, [0x8c]);
    HexCons(0x8c, []);
    HexNothing();
    assert [0xd4] + [0x1d, 0x8c] == [0xd4, 0x1d, 0x8c] && [0x1d] + [0x8c] == [0x1d, 0x8c] && [0x8c] + [] == [0x8c];
  }

  lemma HexNothing()
    ensures Hex([]) == ""
  {
  }

  lemma DecSpelled()
    ensures Dec(0) == "0" && Dec(10) == "10" && Dec(125) == "125"
  {
    assert Dec(1) == "1" && Dec(12) == "12";
  }

  /** filepath.Split: where the last element of a path begins. */
  function LastElement(s: string): (r: nat)
    ensures r <= |s|
    ensures r > 0 ==> s[r - 1] == '/'
    ensures forall j :: r <= j < |s| ==> s[j] != '/'
  {
    if s == "" then 0 else if s[|s| - 1] == '/' then |s| else LastElement(s[..|s| - 1])
  }
}
