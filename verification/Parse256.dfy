/** Parsing a hexadecimal string into 32 bytes that form one big-endian integer. */
module Parse256 {
  import opened Options

  type Octet = n: int | 0 <= n < 256

  const BYTES := 32
  const BAD_DIGIT := "invalid hex digit read"
  const TOO_LONG := "hex code too long"

  predicate IsHex(c: char) { '0' <= c <= '9' || 'a' <= c <= 'f' || 'A' <= c <= 'F' }

  predicate AllHex(s: string) { forall i :: 0 <= i < |s| ==> IsHex(s[i]) }

  function DigitValue(c: char): (d: nat)
    requires IsHex(c)
    ensures d < 16
  {
    if c <= '9' then c as int - '0' as int
    else if c <= 'F' then c as int - 'A' as int + 10
    else c as int - 'a' as int + 10
  }

  /** The number a digit string stands for. */
  function HexValue(s: string): nat
    requires AllHex(s)
  {
    if s == "" then 0 else HexValue(s[..|s| - 1]) * 16 + DigitValue(s[|s| - 1])
  }

  /** The number a byte string stands for, most significant byte first. */
  function BigEndian(b: seq<Octet>): nat {
    if b == [] then 0 else BigEndian(b[..|b| - 1]) * 256 + b[|b| - 1]
  }

  /** What follows an optional 0x or 0X. */
  function Digits(arg: string): string {
    if "0x" <= arg || "0X" <= arg then arg[2..] else arg
  }

  /** The first byte written for `n` digits. */
  function StartIndex(n: nat): (i: nat)
    requires n <= 2 * BYTES
    ensures i < BYTES
  {
    BYTES - (if n == 0 then 0 else (n - 1) / 2) - 1
  }

  lemma ValueNext(s: string, k: nat)
    requires AllHex(s) && k < |s|
    ensures HexValue(s[..k + 1]) == HexValue(s[..k]) * 16 + DigitValue(s[k])
  {
    assert s[..k + 1][..k] == s[..k];
  }

  // ------------------------------------------------------------ the value, by printing

  function HexDigit(d: nat, upper: bool): char
    requires d < 16
  {
    (if upper then "0123456789ABCDEF" else "0123456789abcdef")[d]
  }

  lemma DigitOf(d: nat, upper: bool)
    requires d < 16
    ensures IsHex(HexDigit(d, upper)) && DigitValue(HexDigit(d, upper)) == d
  {
  }

  /** A number in base 16. */
  function Hex(n: nat, upper: bool): (s: string)
    ensures s != ""
  {
    (if n < 16 then "" else Hex(n / 16, upper)) + [HexDigit(n % 16, upper)]
  }

  lemma ValueSnoc(s: string, c: char)
    requires AllHex(s) && IsHex(c)
    ensures AllHex(s + [c]) && HexValue(s + [c]) == HexValue(s) * 16 + DigitValue(c)
  {
    assert (s + [c])[..|s|] == s;
  }

  /** The value of a digit string is the number it is the printed form of. */
  lemma {:induction false} ValueOfHex(n: nat, upper: bool)
    ensures AllHex(Hex(n, upper)) && HexValue(Hex(n, upper)) == n
  {
    var front := if n < 16 then "" else Hex(n / 16, upper);
    if n >= 16 { ValueOfHex(n / 16, upper); }
    DigitOf(n % 16, upper);
    ValueSnoc(front, HexDigit(n % 16, upper));
  }

  /** Numbers of `k` digits. */
  function Pow16(k: nat): nat { if k == 0 then 1 else 16 * Pow16(k - 1) }

  lemma {:induction false} HexLength(n: nat, upper: bool, k: nat)
    requires n < Pow16(k) && k > 0
    ensures |Hex(n, upper)| <= k
  {
    if n >= 16 {
      assert Pow16(k) == 16 * Pow16(k - 1) && k > 1;
      HexLength(n / 16, upper, k - 1);
    }
  }

  /** An optional 0x or 0X is not part of the digits, and nothing else is left away. */
  lemma PrefixIsSkipped(s: string)
    requires AllHex(s)
    ensures Digits(s) == s
    ensures Digits("0x" + s) == s && Digits("0X" + s) == s
  {
    assert |s| >= 2 ==> IsHex(s[1]);
    assert ("0x" + s)[..2] == "0x" && ("0x" + s)[2..] == s;
    assert ("0X" + s)[..2] == "0X" && ("0X" + s)[2..] == s;
  }

  /** One or two digits fit a byte. */
  lemma ValueBound(s: string)
    requires AllHex(s) && |s| <= 2
    ensures HexValue(s) < 256
  {
  }

  lemma ValueOfPair(s: string, k: nat)
    requires AllHex(s) && k + 2 <= |s|
    ensures HexValue(s[..k + 2]) == HexValue(s[..k]) * 256 + HexValue(s[k..k + 2])
  {
    ValueNext(s, k);
    ValueNext(s, k + 1);
    var pair := s[k..k + 2];
    ValueNext(pair, 0);
    ValueNext(pair, 1);
    assert pair[..2] == pair && pair[..0] == "";
  }

  lemma BigEndianNext(b: seq<Octet>, x: Octet)
    ensures BigEndian(b + [x]) == BigEndian(b) * 256 + x
  {
  }

  lemma {:induction false} LeadingZeros(z: seq<Octet>, b: seq<Octet>)
    requires forall i :: 0 <= i < |z| ==> z[i] == 0
    ensures BigEndian(z + b) == BigEndian(b)
    decreases |z| + |b|
  {
    if b != [] {
      var n := |b| - 1;
      assert (z + b)[..|z + b| - 1] == z + b[..n];
      LeadingZeros(z, b[..n]);
    } else if z != [] {
      assert z + b == z && (z + b)[..|z| - 1] == z[..|z| - 1] + [];
      LeadingZeros(z[..|z| - 1], []);
    }
  }

  /** The loop that checks and counts the digits. */
  method CountDigits(arg: string) returns (numdigits: nat, valid: bool)
    ensures valid <==> AllHex(arg)
    ensures valid ==> numdigits == |arg|
  {
    numdigits := 0;
    while numdigits < |arg|
      invariant numdigits <= |arg| && forall i :: 0 <= i < numdigits ==> IsHex(arg[i])
    {
      if !IsHex(arg[numdigits]) { return numdigits, false; }
      numdigits := numdigits + 1;
    }
    valid := true;
  }

  /** Where the digits of byte `i` begin when `start` is the first byte written. */
  function Offset(n: nat, start: nat, i: nat): (at: nat)
    requires n <= 2 * BYTES && start == StartIndex(n) && start <= i <= BYTES
    ensures at <= n && (i == start ==> at == 0) && (i == BYTES ==> at == n)
  {
    if i == start || n == 0 then 0 else 2 * (i - start) - n % 2
  }

  /** How many digits byte `i` takes; past the end of an empty string there is none. */
  function Width(n: nat, start: nat, i: nat): (w: nat)
    requires n <= 2 * BYTES && start == StartIndex(n) && start <= i < BYTES
    ensures w <= 2 && Offset(n, start, i) + w == Offset(n, start, i + 1)
    ensures w == 2 || Offset(n, start, i) == 0
  {
    if i == start && n % 2 == 1 then 1 else if n == 0 then 0 else 2
  }

  /** The bytes from `start` up to `i` hold the first `at` digits, the rest is as it was. */
  ghost predicate Filled(arg: string, at: nat, start: nat, i: nat, now: seq<Octet>, was: seq<Octet>)
    requires AllHex(arg) && at <= |arg|
  {
    start <= i <= |now| == |was| && now[..start] == was[..start] &&
    BigEndian(now[start..i]) == HexValue(arg[..at])
  }

  /** Appending a byte to bytes and its digits to digits keeps their values equal. */
  lemma SameProduct(bytes: nat, digits: nat, x: nat, n: nat, bytes': nat, digits': nat)
    requires bytes == digits && bytes' == bytes * 256 + x
    requires if n == 2 then digits' == digits * 256 + x else digits == 0 && digits' == x
    ensures bytes' == digits'
  {
  }

  /** What the next one or two digits add to the value. */
  lemma DigitsNext(arg: string, at: nat, n: nat)
    requires AllHex(arg) && at + n <= |arg| && n <= 2 && (n == 2 || at == 0)
    ensures AllHex(arg[at..at + n]) && HexValue(arg[at..at + n]) < 256
    ensures var x := HexValue(arg[at..at + n]);
            if n == 2 then HexValue(arg[..at + n]) == HexValue(arg[..at]) * 256 + x
            else HexValue(arg[..at]) == 0 && HexValue(arg[..at + n]) == x
  {
    ValueBound(arg[at..at + n]);
    if n == 2 {
      ValueOfPair(arg, at);
    } else {
      assert arg[..at] == "" && arg[..at + n] == arg[at..at + n];
    }
  }

  lemma BytesNext(now: seq<Octet>, start: nat, i: nat, x: Octet)
    requires start <= i < |now|
    ensures now[i := x][..start] == now[..start]
    ensures BigEndian(now[i := x][start..i + 1]) == BigEndian(now[start..i]) * 256 + x
  {
    assert now[i := x][start..i + 1] == now[start..i] + [x];
    BigEndianNext(now[start..i], x);
  }

  lemma FilledNext(arg: string, at: nat, start: nat, i: nat, now: seq<Octet>, was: seq<Octet>, n: nat)
    requires AllHex(arg) && at + n <= |arg| && n <= 2
    requires i < |now| && Filled(arg, at, start, i, now, was) && (n == 2 || at == 0)
    ensures HexValue(arg[at..at + n]) < 256
    ensures Filled(arg, at + n, start, i + 1, now[i := HexValue(arg[at..at + n])], was)
  {
    DigitsNext(arg, at, n);
    var x := HexValue(arg[at..at + n]);
    BytesNext(now, start, i, x);
    SameProduct(BigEndian(now[start..i]), HexValue(arg[..at]), x, n,
                BigEndian(now[i := x][start..i + 1]), HexValue(arg[..at + n]));
  }

  lemma FilledLast(arg: string, start: nat, now: seq<Octet>, was: seq<Octet>)
    requires AllHex(arg) && Filled(arg, |arg|, start, |now|, now, was)
    ensures now[..start] == was[..start] && BigEndian(now[start..]) == HexValue(arg)
  {
    assert arg[..|arg|] == arg && now[start..|now|] == now[start..];
  }

  /** The loop that fills the buffer, two digits a byte, one digit first when they are odd. */
  method Fill(arg: string, buf: array<Octet>)
    requires buf.Length == BYTES && AllHex(arg) && |arg| <= 2 * BYTES
    modifies buf
    ensures var start := StartIndex(|arg|);
            buf[..][..start] == old(buf[..])[..start] && BigEndian(buf[..][start..]) == HexValue(arg)
  {
    var start := StartIndex(|arg|);
    var i, at := start, 0;
    ghost var was := buf[..];
    ghost var now := was;
    while i < BYTES
      invariant start <= i <= BYTES && at == Offset(|arg|, start, i)
      invariant buf[..] == now && Filled(arg, at, start, i, now, was)
    {
      var n := Width(|arg|, start, i);
      FilledNext(arg, at, start, i, now, was, n);
      var tmpint := HexValue(arg[at..at + n]);
      buf[i] := tmpint;
      now := now[i := tmpint];
      i, at := i + 1, at + n;
    }
    FilledLast(arg, start, now, was);
  }

  /** parse256: the bytes of a zeroed buffer, read as one big-endian integer, are the value of
      the digits; on an error the buffer is left alone. */
  method Parse(arg: string, buf: array<Octet>) returns (err: Option<string>)
    requires buf.Length == BYTES
    modifies buf
    ensures err == if !AllHex(Digits(arg)) then Some(BAD_DIGIT)
                   else if |Digits(arg)| > 2 * BYTES then Some(TOO_LONG) else None
    ensures err.Some? ==> buf[..] == old(buf[..])
    ensures err.None? ==>
              var start := StartIndex(|Digits(arg)|);
              buf[..][..start] == old(buf[..])[..start] && BigEndian(buf[..][start..]) == HexValue(Digits(arg))
    ensures err.None? && (forall i :: 0 <= i < BYTES ==> old(buf[i]) == 0) ==>
              BigEndian(buf[..]) == HexValue(Digits(arg))
  {
    var digits := Digits(arg);
    var numdigits, valid := CountDigits(digits);
    if !valid { return Some(BAD_DIGIT); }
    if numdigits > 2 * BYTES { return Some(TOO_LONG); }
    Fill(digits, buf);
    ghost var start := StartIndex(numdigits);
    if forall i :: 0 <= i < BYTES ==> old(buf[i]) == 0 {
      LeadingZeros(buf[..][..start], buf[..][start..]);
      assert buf[..] == buf[..][..start] + buf[..][start..];
    }
    err := None;
  }

  /** Printing any 256-bit number, with a prefix or without, and parsing it into a zeroed buffer
      gives its big-endian bytes. */
  method PrintThenParse(n: nat, upper: bool, prefix: string, buf: array<Octet>) returns (err: Option<string>)
    requires n < Pow16(64) && prefix in {"", "0x", "0X"}
    requires buf.Length == BYTES && forall i :: 0 <= i < BYTES ==> buf[i] == 0
    modifies buf
    ensures err == None && BigEndian(buf[..]) == n
  {
    var s := Hex(n, upper);
    ValueOfHex(n, upper);
    HexLength(n, upper, 64);
    PrefixIsSkipped(s);
    assert prefix == "" ==> prefix + s == s;
    err := Parse(prefix + s, buf);
  }
}
