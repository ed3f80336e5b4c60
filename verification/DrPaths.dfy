/** Direct-route paths: the parser of a comma-separated hop list and the bounded printer. */
module DrPaths {
  import opened Options
  import opened Seqs

  type Hop = n: int | 0 <= n < 256

  const HOPS_MAX := 64
  const PERMISSIVE_LID := 0xffff

  // ------------------------------------------------------------ decimal numbers

  predicate IsDigit(c: char) { '0' <= c <= '9' }

  predicate AllDigits(s: string) { forall i :: 0 <= i < |s| ==> IsDigit(s[i]) }

  function Decimal(n: nat): (s: string)
    ensures s != ""
  {
    var last := [('0' as int + n % 10) as char];
    if n < 10 then last else Decimal(n / 10) + last
  }

  function Number(s: string): int {
    if s == "" then 0 else Number(s[..|s| - 1]) * 10 + (s[|s| - 1] as int - '0' as int)
  }

  /** How many digits `s` starts with. */
  function DigitRun(s: string): (k: nat)
    ensures k <= |s|
  {
    if s == "" || !IsDigit(s[0]) then 0 else 1 + DigitRun(s[1..])
  }

  function SkipSpace(s: string): string {
    if s != "" && (s[0] == ' ' || 9 as char <= s[0] <= 13 as char) then SkipSpace(s[1..]) else s
  }

  /** atoi. */
  function Atoi(s: string): int {
    var t := SkipSpace(s);
    var u := if t != "" && (t[0] == '-' || t[0] == '+') then t[1..] else t;
    var n := Number(u[..DigitRun(u)]);
    if t != "" && t[0] == '-' then -n else n
  }

  lemma {:induction false} DecimalDigits(n: nat)
    ensures AllDigits(Decimal(n))
  {
    if n >= 10 { DecimalDigits(n / 10); }
  }

  lemma {:induction false} NumberOfDecimal(n: nat)
    ensures Number(Decimal(n)) == n
  {
    if n >= 10 {
      NumberOfDecimal(n / 10);
      assert Decimal(n)[..|Decimal(n)| - 1] == Decimal(n / 10);
    }
  }

  /** Where the digits end. */
  lemma {:induction false} RunOfDigits(s: string, rest: string)
    requires AllDigits(s) && (rest == "" || !IsDigit(rest[0]))
    ensures DigitRun(s + rest) == |s|
  {
    if s == "" {
      assert s + rest == rest;
    } else {
      RunOfDigits(s[1..], rest);
      assert (s + rest)[1..] == s[1..] + rest;
    }
  }

  /** atoi undoes decimal printing, whatever follows the digits. */
  lemma AtoiOfDecimal(n: nat, rest: string)
    requires rest == "" || !IsDigit(rest[0])
    ensures Atoi(Decimal(n) + rest) == n
  {
    var d := Decimal(n);
    DecimalDigits(n);
    NumberOfDecimal(n);
    RunOfDigits(d, rest);
    assert IsDigit((d + rest)[0]) && (d + rest)[..|d|] == d;
  }

  /** atoi reads a sign. */
  lemma AtoiOfSigned(d: string)
    requires d != "" && IsDigit(d[0])
    ensures Atoi("-" + d) + Atoi(d) == 0 && Atoi("+" + d) == Atoi(d)
  {
    assert ("-" + d)[1..] == d && ("+" + d)[1..] == d;
  }

  /** And it skips white space, of which there are six kinds. */
  lemma AtoiOfSpaced(c: char, d: string)
    requires c in " \t\n\r" || c == 11 as char || c == 12 as char
    ensures Atoi([c] + d) == Atoi(d)
  {
    assert ([c] + d)[1..] == d;
  }

  lemma {:induction false} DecimalLength(n: nat)
    requires n < 100_000
    ensures |Decimal(n)| <= 5
    ensures n < 256 ==> |Decimal(n)| <= 3
  {
    if n >= 10 {
      assert n / 10 < 10_000;
      assert |Decimal(n)| == |Decimal(n / 10)| + 1;
      assert n >= 100 ==> |Decimal(n / 10)| == |Decimal(n / 10 / 10)| + 1;
      assert n >= 1000 ==> |Decimal(n / 10 / 10)| == |Decimal(n / 10 / 10 / 10)| + 1;
      assert n >= 10000 ==> |Decimal(n / 10 / 10 / 10)| == |Decimal(n / 10 / 10 / 10 / 10)| + 1;
    }
  }

  // ------------------------------------------------------------ the hop list

  /** strchr for `c` from position `at` on, or the end when there is none. */
  function Strchr(s: string, c: char, at: nat): (i: nat)
    requires at <= |s|
    ensures at <= i <= |s| && (i < |s| ==> s[i] == c)
    decreases |s| - at
  {
    if at == |s| || s[at] == c then at else Strchr(s, c, at + 1)
  }

  predicate NoComma(s: string) { Strchr(s, ',', 0) == |s| }

  function Piece(s: string): string { s[..Strchr(s, ',', 0)] }

  function AfterPiece(s: string): (t: string)
    ensures s != "" ==> |t| < |s|
  {
    var i := Strchr(s, ',', 0);
    if i == |s| then "" else s[i + 1..]
  }

  function ToHop(s: string): Hop { Atoi(s) % 256 }

  /** What the parser reads: one hop per piece between commas, and nothing after a comma that
      ends the string. */
  function Hops(s: string): seq<Hop>
    decreases |s|
  {
    if s == "" then [] else [ToHop(Piece(s))] + Hops(AfterPiece(s))
  }

  /** What the printer writes for the hops `h`. */
  function HopList(h: seq<Hop>): (s: string)
    requires h != []
    ensures s != ""
  {
    if |h| == 1 then Decimal(h[0]) else HopList(h[..|h| - 1]) + "," + Decimal(h[|h| - 1])
  }

  function Prefix(slid: nat, dlid: nat): string {
    "slid " + Decimal(slid) + "; dlid " + Decimal(dlid) + "; "
  }

  function Printed(slid: nat, dlid: nat, h: seq<Hop>): string
    requires h != []
  {
    Prefix(slid, dlid) + HopList(h)
  }

  lemma {:induction false} StrchrStops(a: string, c: char, b: string, at: nat)
    requires at <= |a|
    ensures Strchr(a + [c] + b, c, at) == Strchr(a, c, at)
    decreases |a| - at
  {
    if at < |a| { StrchrStops(a, c, b, at + 1); }
  }

  lemma Pieces(a: string, b: string)
    requires NoComma(a)
    ensures Piece(a + "," + b) == a && AfterPiece(a + "," + b) == b
  {
    StrchrStops(a, ',', b, 0);
  }

  lemma {:induction false} StrchrMisses(s: string, c: char, at: nat)
    requires at <= |s| && forall i :: at <= i < |s| ==> s[i] != c
    ensures Strchr(s, c, at) == |s|
    decreases |s| - at
  {
    if at < |s| { StrchrMisses(s, c, at + 1); }
  }

  lemma LowByteOfNegative(k: int, n: nat)
    requires k + n == 0
    ensures (k % 256 + n) % 256 == 0
  {
  }

  /** A hop is the low byte of its number, also of a negative one. */
  lemma HopIsLowByte(n: nat)
    ensures ToHop(Decimal(n)) == n % 256 && (ToHop("-" + Decimal(n)) + n) % 256 == 0
  {
    AtoiOfDecimal(n, "");
    assert Decimal(n) + "" == Decimal(n);
    DecimalDigits(n);
    AtoiOfSigned(Decimal(n));
    LowByteOfNegative(Atoi("-" + Decimal(n)), n);
  }

  lemma HopOfDecimal(n: Hop)
    ensures ToHop(Decimal(n)) == n && NoComma(Decimal(n))
  {
    HopIsLowByte(n);
    DecimalDigits(n);
    StrchrMisses(Decimal(n), ',', 0);
  }

  lemma OneHop(n: Hop)
    ensures Hops(Decimal(n)) == [n]
  {
    HopOfDecimal(n);
    assert Piece(Decimal(n)) == Decimal(n);
  }

  lemma FirstHop(n: Hop, rest: string)
    ensures Hops(Decimal(n) + "," + rest) == [n] + Hops(rest)
  {
    HopOfDecimal(n);
    Pieces(Decimal(n), rest);
  }

  /** Pieces with commas between them. */
  function Join(pieces: seq<string>): string
    requires pieces != []
  {
    if |pieces| == 1 then pieces[0] else pieces[0] + "," + Join(pieces[1..])
  }

  function ToHops(pieces: seq<string>): seq<Hop> {
    if pieces == [] then [] else [ToHop(pieces[0])] + ToHops(pieces[1..])
  }

  lemma {:induction false} StrchrIsFirst(s: string, c: char, at: nat)
    requires at <= |s|
    ensures forall i :: at <= i < Strchr(s, c, at) ==> s[i] != c
    decreases |s| - at
  {
    if at < |s| && s[at] != c { StrchrIsFirst(s, c, at + 1); }
  }

  /** Every text is made of such pieces. */
  lemma {:induction false} TextIsPieces(s: string) returns (pieces: seq<string>)
    ensures pieces != [] && Join(pieces) == s && forall i :: 0 <= i < |pieces| ==> NoComma(pieces[i])
    decreases |s|
  {
    var i := Strchr(s, ',', 0);
    StrchrIsFirst(s, ',', 0);
    StrchrMisses(s[..i], ',', 0);
    if i == |s| {
      pieces := [s];
    } else {
      var rest := TextIsPieces(s[i + 1..]);
      pieces := [s[..i]] + rest;
      assert pieces[1..] == rest && s == s[..i] + "," + s[i + 1..];
    }
  }

  lemma HopsOfOnePiece(s: string)
    requires NoComma(s)
    ensures Hops(s) == if s == "" then [] else [ToHop(s)]
  {
    if s != "" { assert Piece(s) == s && AfterPiece(s) == ""; }
  }

  lemma HopsOfMorePieces(s: string, rest: string)
    requires NoComma(s)
    ensures Hops(s + "," + rest) == [ToHop(s)] + Hops(rest)
  {
    Pieces(s, rest);
  }

  /** The pieces the parser takes: all but an empty one at the end. */
  function Taken(pieces: seq<string>): seq<string>
    requires pieces != []
  {
    if pieces[|pieces| - 1] == "" then pieces[..|pieces| - 1] else pieces
  }

  /** The parser on any text at all: the low byte of what atoi makes of each piece between commas,
      but for an empty piece at the end. */
  lemma {:induction false} HopsOfPieces(pieces: seq<string>)
    requires pieces != [] && forall i :: 0 <= i < |pieces| ==> NoComma(pieces[i])
    ensures Hops(Join(pieces)) == ToHops(Taken(pieces))
  {
    var first, rest := pieces[0], pieces[1..];
    if rest == [] {
      HopsOfOnePiece(first);
      assert pieces[1..] == [];
    } else {
      HopsOfPieces(rest);
      HopsOfMorePieces(first, Join(rest));
      assert Taken(pieces)[0] == first && Taken(pieces)[1..] == Taken(rest);
    }
  }

  lemma Rebracket(a: string, b: string, c: string)
    ensures a + "," + (b + "," + c) == a + "," + b + "," + c
  {
  }

  /** The hop list from the front. */
  lemma {:induction false} HopListFirst(h: seq<Hop>)
    requires |h| > 1
    ensures HopList(h) == Decimal(h[0]) + "," + HopList(h[1..])
  {
    var n := |h| - 1;
    if n > 1 {
      HopListFirst(h[..n]);
      assert h[..n][1..] == h[1..][..n - 1];
      Rebracket(Decimal(h[0]), HopList(h[..n][1..]), Decimal(h[n]));
    }
  }

  lemma {:induction false} HopsOfHopList(h: seq<Hop>)
    requires h != []
    ensures Hops(HopList(h)) == h
  {
    if |h| == 1 {
      OneHop(h[0]);
    } else {
      HopListFirst(h);
      HopsOfHopList(h[1..]);
      FirstHop(h[0], HopList(h[1..]));
    }
  }

  /** A hop list cut short is a prefix of the whole. */
  lemma {:induction false} HopListPrefix(h: seq<Hop>, n: nat)
    requires 1 <= n <= |h|
    ensures HopList(h[..n]) <= HopList(h)
  {
    if n < |h| {
      HopListPrefix(h[..|h| - 1], n);
      assert h[..|h| - 1][..n] == h[..n];
    } else {
      assert h[..n] == h;
    }
  }

  lemma HopListNext(pre: string, h: seq<Hop>, n: nat)
    requires 1 <= n < |h|
    ensures pre + HopList(h[..n + 1]) == pre + HopList(h[..n]) + ("," + Decimal(h[n]))
  {
    assert h[..n + 1][..n] == h[..n];
    Assoc(HopList(h[..n]), ",", Decimal(h[n]));
    Assoc(pre, HopList(h[..n]), "," + Decimal(h[n]));
  }

  /** The parser has read `n` hops and stands before `str`; the rest of the array is as it was. */
  ghost predicate ReadSoFar(tmp: string, str: string, n: nat, now: seq<Hop>, was: seq<Hop>) {
    n <= |now| == |was| && now[n..] == was[n..] && Hops(tmp) == now[..n] + Hops(str)
  }

  lemma ReadFirst(tmp: string, was: seq<Hop>)
    ensures ReadSoFar(tmp, tmp, 0, was, was)
  {
  }

  lemma ReadLast(tmp: string, n: nat, now: seq<Hop>, was: seq<Hop>)
    requires ReadSoFar(tmp, "", n, now, was)
    ensures |Hops(tmp)| == n && now == Hops(tmp) + was[n..]
  {
  }

  /** The array is full and there is more to read. */
  lemma ReadTooMany(tmp: string, str: string, now: seq<Hop>, was: seq<Hop>)
    requires str != "" && ReadSoFar(tmp, str, |now|, now, was)
    ensures |Hops(tmp)| > |now| && now == Hops(tmp)[..|now|]
  {
  }

  lemma ReadNext(tmp: string, str: string, n: nat, now: seq<Hop>, was: seq<Hop>)
    requires str != "" && ReadSoFar(tmp, str, n, now, was) && n < |now|
    ensures ReadSoFar(tmp, AfterPiece(str), n + 1, now[n := ToHop(Piece(str))], was)
  {
    var hop := ToHop(Piece(str));
    var next := now[n := hop];
    Assoc(now[..n], [hop], Hops(AfterPiece(str)));
    assert next[..n + 1] == now[..n] + [hop];
    assert next[n + 1..] == was[n + 1..] by {
      assert next[n + 1..] == now[n..][1..];
      assert was[n + 1..] == was[n..][1..];
    }
  }

  /** `t` is a tag of five characters, the number `n` and what follows the next "; ". */
  ghost predicate Labelled(t: string, tag: string, n: nat, rest: string) {
    && |tag| == 5 <= |t| && t[..5] == tag && Atoi(t[5..]) == n
    && Strchr(t, ';', 0) + 2 <= |t| && t[Strchr(t, ';', 0) + 2..] == rest
  }

  lemma LabelledNumber(tag: string, n: nat, rest: string)
    requires |tag| == 5 && forall i :: 0 <= i < 5 ==> tag[i] != ';'
    ensures Labelled(tag + Decimal(n) + "; " + rest, tag, n, rest)
  {
    var head := tag + Decimal(n);
    var t := head + "; " + rest;
    DecimalDigits(n);
    StrchrMisses(head, ';', 0);
    StrchrStops(head, ';', " " + rest, 0);
    assert t == head + [';'] + (" " + rest);
    AtoiOfDecimal(n, "; " + rest);
    assert t[5..] == Decimal(n) + ("; " + rest);
  }

  /** Reading what the printer writes, number by number, gives back both LIDs and the same hops. */
  lemma RoundTrip(slid: nat, dlid: nat, h: seq<Hop>)
    requires h != []
    ensures exists rest :: Labelled(Printed(slid, dlid, h), "slid ", slid, rest)
                           && Labelled(rest, "dlid ", dlid, HopList(h))
    ensures Hops(HopList(h)) == h
    ensures Hops(Printed(slid, dlid, h)[|Prefix(slid, dlid)|..]) == h
  {
    var rest := "dlid " + Decimal(dlid) + "; " + HopList(h);
    assert Printed(slid, dlid, h) == "slid " + Decimal(slid) + "; " + rest;
    LabelledNumber("slid ", slid, rest);
    LabelledNumber("dlid ", dlid, HopList(h));
    assert Printed(slid, dlid, h)[|Prefix(slid, dlid)|..] == HopList(h);
    HopsOfHopList(h);
  }

  lemma {:induction false} HopListLength(h: seq<Hop>)
    requires h != []
    ensures |HopList(h)| <= 4 * |h| - 1
  {
    DecimalLength(h[|h| - 1]);
    if |h| > 1 { HopListLength(h[..|h| - 1]); }
  }

  /** A buffer of 280 characters holds every path. */
  lemma PrintedFits(slid: nat, dlid: nat, h: seq<Hop>)
    requires slid <= 0xffff && dlid <= 0xffff && 1 <= |h| <= HOPS_MAX
    ensures |Printed(slid, dlid, h)| < 280
  {
    DecimalLength(slid);
    DecimalLength(dlid);
    HopListLength(h);
  }

  // ------------------------------------------------------------ the buffer

  /** The C string in `buf` is `s`. */
  ghost predicate Holds(buf: array<char>, s: string)
    reads buf
  {
    |s| < buf.Length && buf[..|s|] == s && buf[|s|] == '\0'
  }

  /** What fits of `s` in a buffer of `size` characters. */
  function Cut(s: string, size: nat): string
    requires size > 0
  {
    if |s| < size then s else s[..size - 1]
  }

  /** Stopping once the buffer is full loses nothing that would still have fitted. */
  lemma CutHopList(pre: string, h: seq<Hop>, n: nat, size: nat)
    requires 1 <= n <= |h| && size > 0
    requires n == |h| || |pre + HopList(h[..n])| >= size
    ensures Cut(pre + HopList(h[..n]), size) == Cut(pre + HopList(h), size)
  {
    HopListPrefix(h, n);
    assert n == |h| ==> h[..n] == h;
  }

  /** snprintf at offset `at`, where the text so far ends. */
  method Snprintf(buf: array<char>, at: nat, text: string, ghost sofar: string) returns (rc: nat)
    requires at < buf.Length && buf[..at] == sofar
    modifies buf
    ensures rc == |text|
    ensures Holds(buf, Cut(sofar + text, buf.Length))
  {
    rc := |text|;
    var n := if at + |text| < buf.Length then |text| else buf.Length - 1 - at;
    for i := 0 to n
      invariant buf[..at + i] == sofar + text[..i]
    {
      buf[at + i] := text[i];
    }
    buf[at + n] := '\0';
    assert Cut(sofar + text, buf.Length) == sofar + text[..n];
  }

  /** snprintf where the text so far leaves room. */
  method Append(buf: array<char>, at: nat, text: string, ghost sofar: string) returns (rc: nat)
    requires at == |sofar| < buf.Length && Holds(buf, sofar)
    modifies buf
    ensures rc == |sofar + text| && Holds(buf, Cut(sofar + text, buf.Length))
  {
    rc := Snprintf(buf, at, text, sofar);
    rc := at + rc;
  }

  class DrPath {
    var cnt: int
    const p: array<Hop>
    var drslid: nat
    var drdlid: nat

    constructor ()
      ensures fresh(p) && p.Length == HOPS_MAX
    {
      p := new Hop[HOPS_MAX](_ => 0);
    }

    /** The loop of str2drpath, on its copy of the route. Where the next hop would go beyond the
        array, the code's behaviour is not defined; the model stops there. */
    method ReadHops(tmp: string) returns (within: bool)
      requires p.Length == HOPS_MAX
      modifies `cnt, p
      ensures within <==> |Hops(tmp)| <= HOPS_MAX
      ensures within ==> cnt == |Hops(tmp)| - 1 && p[..] == Hops(tmp) + old(p[..])[cnt + 1..]
      ensures !within ==> p[..] == Hops(tmp)[..HOPS_MAX]
    {
      cnt := -1;
      ghost var now := p[..];
      var str := tmp;
      ReadFirst(tmp, now);
      while str != ""
        invariant -1 <= cnt < HOPS_MAX
        invariant p[..] == now && ReadSoFar(tmp, str, cnt + 1, now, old(p[..]))
        decreases |str|
      {
        if cnt + 1 == HOPS_MAX {
          ReadTooMany(tmp, str, now, old(p[..]));
          return false;
        }
        var hop := ToHop(Piece(str));
        ReadNext(tmp, str, cnt + 1, now, old(p[..]));
        cnt := cnt + 1;
        p[cnt] := hop;
        now := now[cnt := hop];
        str := AfterPiece(str);
      }
      ReadLast(tmp, cnt + 1, now, old(p[..]));
      return true;
    }

    /** str2drpath: `tmp` is the copy of the route, or None when there is no route or no copy. It
        stays within its array exactly for routes of up to 64 hops. */
    method Str2DrPath(tmp: Option<string>, slid: int, dlid: int) returns (r: int, within: bool)
      requires p.Length == HOPS_MAX
      modifies this, p
      ensures within <==> tmp.None? || |Hops(tmp.value)| <= HOPS_MAX
      ensures within ==>
                && r == cnt == (if tmp.Some? then |Hops(tmp.value)| - 1 else -1)
                && p[..] == (if tmp.Some? then Hops(tmp.value) else []) + old(p[..])[cnt + 1..]
                && drslid == (if slid == 0 then PERMISSIVE_LID else slid % 0x1_0000)
                && drdlid == (if dlid == 0 then PERMISSIVE_LID else dlid % 0x1_0000)
    {
      cnt, within := -1, true;
      if tmp.Some? {
        within := ReadHops(tmp.value);
      }
      drdlid := if dlid != 0 then dlid % 0x1_0000 else PERMISSIVE_LID;
      drslid := if slid != 0 then slid % 0x1_0000 else PERMISSIVE_LID;
      r := cnt;
    }

    /** The hops that get printed: the first one whatever the count. */
    function Shown(): seq<Hop>
      requires p.Length == HOPS_MAX && cnt < HOPS_MAX
      reads this, p
    {
      p[..if cnt < 1 then 1 else cnt + 1]
    }

    /** The loop of drpath2str, after `pre` and the first hop. */
    method PrintHops(dstr: array<char>, first: nat, ghost pre: string)
      requires p.Length == HOPS_MAX && cnt < HOPS_MAX && dstr.Length > 0
      requires first == |pre + HopList(Shown()[..1])|
      requires Holds(dstr, Cut(pre + HopList(Shown()[..1]), dstr.Length))
      modifies dstr
      ensures Holds(dstr, Cut(pre + HopList(Shown()), dstr.Length))
    {
      ghost var hops := Shown();
      ghost var text := pre + HopList(hops[..1]);
      var rc, i := first, 1;
      while rc < dstr.Length && i <= cnt
        invariant 1 <= i <= |hops|
        invariant rc == |text|
        invariant text == pre + HopList(hops[..i])
        invariant Holds(dstr, Cut(text, dstr.Length))
        decreases cnt - i
      {
        HopListNext(pre, hops, i);
        rc := Append(dstr, rc, "," + Decimal(p[i]), text);
        text := text + ("," + Decimal(p[i]));
        i := i + 1;
      }
      CutHopList(pre, hops, i, dstr.Length);
    }

    /** drpath2str: the printed path, cut where the buffer ends. */
    method DrPath2Str(dstr: array<char>)
      requires p.Length == HOPS_MAX && cnt < HOPS_MAX
      modifies dstr
      ensures dstr.Length > 0 ==> Holds(dstr, Cut(Printed(drslid, drdlid, Shown()), dstr.Length))
    {
      if dstr.Length == 0 { return; }
      var pre := Prefix(drslid, drdlid);
      assert Shown()[..1] == [p[0]];
      var rc := Snprintf(dstr, 0, pre + Decimal(p[0]), "");
      assert "" + (pre + Decimal(p[0])) == pre + HopList([p[0]]);
      PrintHops(dstr, rc, pre);
    }
  }

  // ------------------------------------------------------------ printing and parsing

  lemma {:induction false} HopListHasNoNul(h: seq<Hop>)
    requires h != []
    ensures forall i :: 0 <= i < |HopList(h)| ==> HopList(h)[i] != '\0'
  {
    DecimalDigits(h[|h| - 1]);
    if |h| > 1 { HopListHasNoNul(h[..|h| - 1]); }
  }

  /** Where the C string that passes position `at` ends. */
  method StringEnd(buf: array<char>, at: nat) returns (n: nat)
    requires exists k :: at <= k < buf.Length && buf[k] == '\0'
    ensures at <= n < buf.Length && buf[n] == '\0' && forall k :: at <= k < n ==> buf[k] != '\0'
  {
    n := at;
    while buf[n] != '\0'
      invariant at <= n < buf.Length && forall k :: at <= k < n ==> buf[k] != '\0'
      invariant exists k :: n <= k < buf.Length && buf[k] == '\0'
      decreases buf.Length - n
    {
      n := n + 1;
    }
  }

  /** The printed text after its prefix is the hop list, up to the terminating zero. */
  lemma TextAfterPrefix(buf: seq<char>, pre: string, h: seq<Hop>, n: nat)
    requires h != [] && |pre + HopList(h)| < |buf| && buf[..|pre + HopList(h)|] == pre + HopList(h)
    requires |pre| <= n < |buf| && buf[n] == '\0' && forall k :: |pre| <= k < n ==> buf[k] != '\0'
    requires buf[|pre + HopList(h)|] == '\0'
    ensures buf[|pre|..n] == HopList(h)
  {
    HopListHasNoNul(h);
    var end := |pre + HopList(h)|;
    assert forall k :: |pre| <= k < end ==> buf[k] == buf[..end][k] == HopList(h)[k - |pre|];
  }

  /** Printing a path into a buffer of 280 characters or more and parsing what follows the prefix
      gives another path the same count and the same hops. */
  method PrintThenParse(src: DrPath, dst: DrPath, dstr: array<char>)
    requires src != dst && src.p != dst.p && src.p.Length == HOPS_MAX && dst.p.Length == HOPS_MAX
    requires 0 <= src.cnt < HOPS_MAX && src.drslid <= 0xffff && src.drdlid <= 0xffff && dstr.Length >= 280
    modifies dstr, dst, dst.p
    ensures dst.cnt == src.cnt && dst.p[..dst.cnt + 1] == src.p[..src.cnt + 1]
  {
    ghost var h := src.Shown();
    var pre := Prefix(src.drslid, src.drdlid);
    src.DrPath2Str(dstr);
    PrintedFits(src.drslid, src.drdlid, h);
    assert dstr[|pre + HopList(h)|] == '\0';
    var n := StringEnd(dstr, |pre|);
    TextAfterPrefix(dstr[..], pre, h, n);
    HopsOfHopList(h);
    var text := dstr[..][|pre|..n];
    var _, _ := dst.Str2DrPath(Some(text), 0, 0);
  }
}
