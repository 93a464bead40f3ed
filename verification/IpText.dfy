/**
 * Dotted addresses: the printer, the parser and the validator of PTTUtil.
 *
 * A Java long is an int between LONG_MIN and LONG_MAX; `Wrapped` is its wrap-around.
 */
module IpText {
  import opened Basics

  const LONG_MIN: int := -0x8000_0000_0000_0000
  const LONG_MAX: int := 0x7FFF_FFFF_FFFF_FFFF
  const WORD: int := 0x1_0000_0000

  type Long = x: int | LONG_MIN <= x <= LONG_MAX

  function Wrapped(x: int): Long {
    (x - LONG_MIN) % (WORD * WORD) + LONG_MIN
  }

  // ---------- decimal digits ----------

  predicate IsDigit(c: char) {
    '0' <= c <= '9'
  }

  predicate AllDigits(s: string) {
    forall k :: 0 <= k < |s| ==> IsDigit(s[k])
  }

  /** What StringBuffer.append(long) writes for a non-negative number. */
  function Decimal(n: nat): (s: string)
    ensures |s| >= 1 && AllDigits(s)
    ensures |s| == 1 <==> n < 10
    ensures |s| <= 2 <==> n < 100
    ensures |s| <= 3 <==> n < 1000
    ensures |s| > 1 ==> s[0] != '0'
  {
    var last := ('0' as int + n % 10) as char;
    if n < 10 then [last] else Decimal(n / 10) + [last]
  }

  function Value(s: string): nat
    requires AllDigits(s)
  {
    if s == "" then 0 else 10 * Value(s[..|s| - 1]) + (s[|s| - 1] as int - '0' as int)
  }

  /** The text without its leading zeros, keeping at least one digit. */
  function Stripped(s: string): string {
    if |s| > 1 && s[0] == '0' then Stripped(s[1..]) else s
  }

  lemma {:induction false} ValueOfDecimal(n: nat)
    ensures Value(Decimal(n)) == n
  {
    if n >= 10 {
      ValueOfDecimal(n / 10);
      assert Decimal(n)[..|Decimal(n)| - 1] == Decimal(n / 10);
    }
  }

  lemma {:induction false} StrippedSnoc(s: string, c: char)
    requires s != ""
    ensures Stripped(s + [c]) == if Stripped(s) == "0" then [c] else Stripped(s) + [c]
  {
    if |s| > 1 && s[0] == '0' {
      assert (s + [c])[1..] == s[1..] + [c];
      StrippedSnoc(s[1..], c);
    } else if s == "0" {
      assert (s + [c])[1..] == [c];
    }
  }

  lemma {:induction false} DecimalOfValue(s: string)
    requires s != "" && AllDigits(s)
    ensures Decimal(Value(s)) == Stripped(s)
  {
    var front, last := s[..|s| - 1], s[|s| - 1];
    assert s == front + [last];
    if front == "" {
      assert Value(front) == 0;
    } else {
      DecimalOfValue(front);
      StrippedSnoc(front, last);
      if Value(front) == 0 {
        assert Decimal(0) == "0";
      } else {
        assert Decimal(Value(front)) != "0" by { ValueOfDecimal(Value(front)); assert Value("0") == 0; }
      }
    }
  }

  /** Long.parseLong; None stands for its NumberFormatException. */
  function ParseLong(s: string): (r: Option<int>)
    ensures r.Some? ==> LONG_MIN <= r.value <= LONG_MAX
  {
    var signed := s != "" && (s[0] == '-' || s[0] == '+');
    var body := if signed then s[1..] else s;
    if body == "" || !AllDigits(body) then None
    else
      var n: int := Value(body);
      var v := if signed && s[0] == '-' then -n else n;
      if LONG_MIN <= v <= LONG_MAX then Some(v) else None
  }

  /** Digits, after at most one sign, that stay within a long. */
  lemma ParseLongLaw(s: string)
    requires s != "" && AllDigits(s)
    ensures ParseLong(s) == ParseLong("+" + s) == if Value(s) < 0x8000_0000_0000_0000 then Some(Value(s)) else None
    ensures var n: int := Value(s); ParseLong("-" + s) == if n <= 0x8000_0000_0000_0000 then Some(-n) else None
    ensures ParseLong("") == ParseLong("+") == ParseLong("-") == None
  {
    assert ("+" + s)[1..] == s && ("-" + s)[1..] == s;
  }

  lemma OtherTextsAreNoLongs(s: string)
    requires |s| > 0 && exists k :: 0 <= k < |s| && !IsDigit(s[k]) && !(k == 0 && (s[0] == '+' || s[0] == '-'))
    ensures ParseLong(s) == None
  {
    var k :| 0 <= k < |s| && !IsDigit(s[k]) && !(k == 0 && (s[0] == '+' || s[0] == '-'));
    if s[0] == '+' || s[0] == '-' {
      assert s[1..][k - 1] == s[k];
    }
  }

  /** Wrapping lands in the long with the same remainder modulo 2^64. */
  lemma WrappedLaw(x: int)
    ensures -0x8000_0000_0000_0000 <= Wrapped(x) <= 0x7FFF_FFFF_FFFF_FFFF
    ensures (x - Wrapped(x)) % 0x1_0000_0000_0000_0000 == 0
  {
    var m := WORD * WORD;
    var q := (x - LONG_MIN) / m;
    assert x - Wrapped(x) == q * m;
    SameRemainder(0, -q);
  }

  // ---------- trimming, splitting and joining ----------

  function Trimmed(s: string): string {
    if s == "" then s
    else if s[0] <= ' ' then Trimmed(s[1..])
    else if s[|s| - 1] <= ' ' then Trimmed(s[..|s| - 1])
    else s
  }

  /** The maximal stretches of text between dots, empty ones included. */
  function Pieces(s: string): (ps: seq<string>)
    ensures |ps| >= 1
  {
    if s == "" then [""]
    else if s[0] == '.' then [""] + Pieces(s[1..])
    else var ps := Pieces(s[1..]); [[s[0]] + ps[0]] + ps[1..]
  }

  function Joined(ps: seq<string>): string
    requires |ps| >= 1
  {
    if |ps| == 1 then ps[0] else ps[0] + "." + Joined(ps[1..])
  }

  function WithoutTrailingEmpties(ps: seq<string>): seq<string> {
    if ps != [] && ps[|ps| - 1] == "" then WithoutTrailingEmpties(ps[..|ps| - 1]) else ps
  }

  /** String.split("\\."): trailing empty pieces are dropped, unless there is no dot at all. */
  function Split(s: string): seq<string> {
    var ps := Pieces(s);
    if |ps| == 1 then ps else WithoutTrailingEmpties(ps)
  }

  /** A text without a dot stays whole; otherwise no empty piece is left at the end, and none is lost before. */
  lemma SplitLaw(s: string)
    ensures '.' !in s ==> Split(s) == [s]
    ensures '.' in s ==> Split(s) == [] || Split(s)[|Split(s)| - 1] != ""
    ensures Split(s) <= Pieces(s) && forall k :: |Split(s)| <= k < |Pieces(s)| ==> Pieces(s)[k] == ""
  {
    if '.' !in s {
      PiecesOfOne(s, "");
    } else {
      DotSplits(s);
    }
    EmptiesDropped(Pieces(s));
  }

  lemma {:induction false} DotSplits(s: string)
    requires '.' in s
    ensures |Pieces(s)| >= 2
  {
    if s[0] != '.' {
      DotSplits(s[1..]);
    }
  }

  lemma {:induction false} EmptiesDropped(ps: seq<string>)
    ensures var r := WithoutTrailingEmpties(ps);
            r <= ps && (r == [] || r[|r| - 1] != "") && forall k :: |r| <= k < |ps| ==> ps[k] == ""
  {
    if ps != [] && ps[|ps| - 1] == "" {
      EmptiesDropped(ps[..|ps| - 1]);
    }
  }

  ghost predicate Dotless(ps: seq<string>) {
    forall k :: 0 <= k < |ps| ==> '.' !in ps[k]
  }

  lemma {:induction false} PiecesOfOne(p: string, rest: string)
    requires '.' !in p
    ensures Pieces(p) == [p]
    ensures Pieces(p + "." + rest) == [p] + Pieces(rest)
  {
    if p == "" {
      assert (p + "." + rest)[1..] == rest;
    } else {
      PiecesOfOne(p[1..], rest);
      assert (p + "." + rest)[1..] == p[1..] + "." + rest;
      assert [p[0]] + p[1..] == p;
    }
  }

  lemma {:induction false} PiecesOfJoined(ps: seq<string>)
    requires |ps| >= 1 && Dotless(ps)
    ensures Pieces(Joined(ps)) == ps
  {
    if |ps| == 1 {
      PiecesOfOne(ps[0], "");
    } else {
      PiecesOfJoined(ps[1..]);
      PiecesOfOne(ps[0], Joined(ps[1..]));
    }
  }

  lemma {:induction false} JoinedPieces(s: string)
    ensures Joined(Pieces(s)) == s && Dotless(Pieces(s))
  {
    if s != "" {
      JoinedPieces(s[1..]);
      var ps := Pieces(s[1..]);
      if s[0] == '.' {
        assert Pieces(s)[1..] == ps;
        assert s == "" + "." + s[1..];
      } else {
        assert Pieces(s)[1..] == ps[1..];
        assert s == [s[0]] + s[1..];
      }
    }
  }

  // ---------- the validator ----------

  /** One octet group of the pattern, given the whole octet. */
  predicate Octet(o: string) {
    && AllDigits(o)
    && (|| 1 <= |o| <= 2
        || (|o| == 3 && (o[0] == '1' || (o[0] == '2' && (o[1] <= '4' || (o[1] == '5' && o[2] <= '5'))))))
  }

  predicate CheckIP(ip: Option<string>) {
    match ip
    case None => false
    case Some(s) => Trimmed(s) != "" && IsAddress(s)
  }

  predicate IsAddress(s: string) {
    var ps := Pieces(s);
    |ps| == 4 && forall k :: 0 <= k < 4 ==> Octet(ps[k])
  }

  predicate StartsWithThreeDigits(s: string) {
    |s| >= 3 && AllDigits(s[..3])
  }

  /** The pattern's octet group matched against o with `rest` still to come: the look-ahead sees both. */
  predicate GroupMatches(o: string, rest: string) {
    || (o != "" && AllDigits(o) && !StartsWithThreeDigits(o + rest))
    || (|o| == 3 && AllDigits(o) && o[0] == '1')
    || (|o| == 3 && AllDigits(o) && o[0] == '2' && '0' <= o[1] <= '4')
    || (|o| == 3 && AllDigits(o) && o[0] == '2' && o[1] == '5' && '0' <= o[2] <= '5')
  }

  predicate IsWordChar(c: char) {
    IsDigit(c) || 'a' <= c <= 'z' || 'A' <= c <= 'Z' || c == '_'
  }

  /** The anchors at both ends of the pattern, which must match the whole text. */
  predicate AtWordBoundaries(s: string) {
    s != "" && IsWordChar(s[0]) && IsWordChar(s[|s| - 1])
  }

  ghost predicate PatternMatches(s: string, a: string, b: string, c: string, d: string) {
    && AtWordBoundaries(s)
    && s == a + "." + b + "." + c + "." + d
    && GroupMatches(a, "." + b + "." + c + "." + d)
    && GroupMatches(b, "." + c + "." + d)
    && GroupMatches(c, "." + d)
    && GroupMatches(d, "")
  }

  lemma GroupIsOctet(o: string, rest: string)
    requires rest == "" || rest[0] == '.'
    ensures GroupMatches(o, rest) <==> Octet(o)
  {
    var t := o + rest;
    if |o| >= 3 {
      assert t[..3] == o[..3];
      if AllDigits(o) {
        assert AllDigits(o[..3]);
      }
    } else if |t| >= 3 {
      assert t[..3][|o|] == '.';
    }
  }

  lemma FourJoined(a: string, b: string, c: string, d: string)
    ensures Joined([a, b, c, d]) == a + "." + b + "." + c + "." + d
  {
    assert [a, b, c, d][1..] == [b, c, d];
    assert [b, c, d][1..] == [c, d];
    assert [c, d][1..] == [d];
    assert Joined([c, d]) == c + "." + d;
    assert Joined([b, c, d]) == b + "." + (c + "." + d);
    assert a + "." + (b + "." + (c + "." + d)) == a + "." + b + "." + c + "." + d;
  }

  lemma AddressMatches(s: string)
    requires IsAddress(s)
    ensures var ps := Pieces(s); PatternMatches(s, ps[0], ps[1], ps[2], ps[3])
  {
    var ps := Pieces(s);
    JoinedPieces(s);
    var a, b, c, d := ps[0], ps[1], ps[2], ps[3];
    assert ps == [a, b, c, d];
    FourJoined(a, b, c, d);
    GroupIsOctet(a, "." + b + "." + c + "." + d);
    GroupIsOctet(b, "." + c + "." + d);
    GroupIsOctet(c, "." + d);
    GroupIsOctet(d, "");
    assert s[0] == a[0] && s[|s| - 1] == d[|d| - 1];
  }

  lemma MatchIsAddress(s: string, a: string, b: string, c: string, d: string)
    requires PatternMatches(s, a, b, c, d)
    ensures Pieces(s) == [a, b, c, d] && IsAddress(s) && Trimmed(s) == s
  {
    GroupIsOctet(a, "." + b + "." + c + "." + d);
    GroupIsOctet(b, "." + c + "." + d);
    GroupIsOctet(c, "." + d);
    GroupIsOctet(d, "");
    FourJoined(a, b, c, d);
    PiecesOfJoined([a, b, c, d]);
    assert s[0] == a[0];
    assert s[|s| - 1] == d[|d| - 1];
  }

  /** Splitting at dots decides exactly what the regular expression matches. */
  lemma CheckIPIsThePattern(s: string)
    ensures CheckIP(Some(s)) <==> exists a, b, c, d :: PatternMatches(s, a, b, c, d)
  {
    if CheckIP(Some(s)) {
      AddressMatches(s);
    }
    if a, b, c, d :| PatternMatches(s, a, b, c, d) {
      MatchIsAddress(s, a, b, c, d);
      assert s != "";
    }
  }

  // ---------- the parser ----------

  /** The exact value of four parsed pieces, before any wrap-around. */
  function Weighed(ps: seq<string>): Option<int>
    requires |ps| == 4
  {
    match (ParseLong(ps[0]), ParseLong(ps[1]), ParseLong(ps[2]), ParseLong(ps[3]))
    case (Some(a), Some(b), Some(c), Some(d)) => Some(a * 0x100_0000 + b * 0x1_0000 + c * 0x100 + d)
    case _ => None
  }

  function Parsed(ip: Option<string>): Long {
    match ip
    case None => 0
    case Some(s) =>
      var ps := Split(Trimmed(s));
      if s == "" || |ps| != 4 then 0
      else match Weighed(ps) case None => 0 case Some(v) => Wrapped(v)
  }

  /** The parser takes the text: it does not fall back on the 0 it answers for what it cannot read. */
  predicate Parses(s: string) {
    s != "" && |Split(Trimmed(s))| == 4 && Weighed(Split(Trimmed(s))).Some?
  }

  /** What the parser does not take gives 0, and so does a missing text. */
  lemma UnreadableIsZero(s: string)
    ensures Parsed(None) == 0
    ensures !Parses(s) ==> Parsed(Some(s)) == 0
  {
  }

  function Shift(i: nat): int
    requires i < 4
  {
    if i == 0 then 0x100_0000 else if i == 1 then 0x1_0000 else if i == 2 then 0x100 else 1
  }

  lemma WrapsAdd(x: int, y: int)
    ensures Wrapped(Wrapped(x) + Wrapped(y)) == Wrapped(x + y)
  {
    var m := WORD * WORD;
    var p, q := (x - LONG_MIN) / m, (y - LONG_MIN) / m;
    assert Wrapped(x) == x - p * m && Wrapped(y) == y - q * m;
    var z := x + y - LONG_MIN;
    assert Wrapped(x) + Wrapped(y) - LONG_MIN == z - (p + q) * m;
    SameRemainder(z, p + q);
  }

  lemma SameRemainder(z: int, k: int)
    ensures (z - k * (WORD * WORD)) % (WORD * WORD) == z % (WORD * WORD)
  {
    var m := WORD * WORD;
    assert z == (z / m) * m + z % m;
    assert z - k * m == (z / m - k) * m + z % m;
  }

  /** The exact sum of the first i shifted pieces, as the loop meets them. */
  ghost function Prefix(ps: seq<string>, i: nat): Option<int>
    requires |ps| == 4 && i <= 4
  {
    if i == 0 then Some(0)
    else match (Prefix(ps, i - 1), ParseLong(ps[i - 1]))
         case (Some(v), Some(w)) => Some(v + w * Shift(i - 1))
         case _ => None
  }

  lemma {:induction false} PrefixStops(ps: seq<string>, i: nat)
    requires |ps| == 4 && i <= 4 && Prefix(ps, i).None?
    ensures Prefix(ps, 4).None?
    decreases 4 - i
  {
    if i < 4 {
      PrefixStops(ps, i + 1);
    }
  }

  lemma PrefixGrows(ps: seq<string>, i: nat)
    requires |ps| == 4 && i < 4 && Prefix(ps, i).Some? && ParseLong(ps[i]).Some?
    ensures Prefix(ps, i + 1).Some?
    ensures Wrapped(Prefix(ps, i + 1).value)
         == Wrapped(Wrapped(Prefix(ps, i).value) + Wrapped(ParseLong(ps[i]).value * Shift(i)))
  {
    WrapsAdd(Prefix(ps, i).value, ParseLong(ps[i]).value * Shift(i));
  }

  lemma PrefixIsWeighed(ps: seq<string>)
    requires |ps| == 4
    ensures Prefix(ps, 4) == Weighed(ps)
  {
    assert Prefix(ps, 1) == match ParseLong(ps[0]) case None => None case Some(a) => Some(a * 0x100_0000);
    assert Prefix(ps, 3) == match (Prefix(ps, 2), ParseLong(ps[2])) case (Some(v), Some(w)) => Some(v + w * 0x100) case _ => None;
  }

  /** The try block: the first piece that does not parse gives 0, and every addition wraps. */
  method SumPieces(temp: seq<string>) returns (ret: Long)
    requires |temp| == 4
    ensures ret == match Weighed(temp) case None => 0 case Some(v) => Wrapped(v)
  {
    ret := 0;
    for i := 0 to 4
      invariant Prefix(temp, i).Some? && ret == Wrapped(Prefix(temp, i).value)
    {
      var piece := ParseLong(temp[i]);
      if piece.None? {
        PrefixStops(temp, i + 1);
        PrefixIsWeighed(temp);
        return 0;
      }
      PrefixGrows(temp, i);
      ret := Wrapped(ret + Wrapped(piece.value * Shift(i)));
    }
    PrefixIsWeighed(temp);
  }

  method IpToLong(ip: Option<string>) returns (ret: Long)
    ensures ret == Parsed(ip)
  {
    if ip.None? || |ip.value| == 0 {
      return 0;
    }
    var temp := Split(Trimmed(ip.value));
    if |temp| != 4 {
      return 0;
    }
    ret := SumPieces(temp);
  }

  // ---------- the printer ----------

  /** `(ip >> 8k) & 0xff` of a long: the shift floors, so negative numbers keep their bits. */
  function Octets(ip: int): (os: seq<string>) {
    [Decimal(ip / 0x100_0000 % 256), Decimal(ip / 0x1_0000 % 256), Decimal(ip / 0x100 % 256), Decimal(ip % 256)]
  }

  function Printed(ip: int): string {
    Joined(Octets(ip))
  }

  method LongToIp(ip: Long) returns (ret: string)
    ensures ret == Printed(ip)
  {
    ret := "";
    var temp := ip / 0x100_0000 % 256;
    ret := ret + Decimal(temp) + ".";
    temp := ip / 0x1_0000 % 256;
    ret := ret + Decimal(temp) + ".";
    temp := ip / 0x100 % 256;
    ret := ret + Decimal(temp) + ".";
    temp := ip % 256;
    ret := ret + Decimal(temp);
    var os := Octets(ip);
    FourJoined(os[0], os[1], os[2], os[3]);
  }

  // ---------- the laws ----------

  lemma ThreeDigits(o: string)
    requires |o| == 3 && AllDigits(o)
    ensures Value(o) == 100 * (o[0] as int - '0' as int) + 10 * (o[1] as int - '0' as int) + (o[2] as int - '0' as int)
  {
    var f := o[..2];
    var g := f[..1];
    assert f[..|f| - 1] == g && f[1] == o[1];
    assert Value(g[..0]) == 0;
    assert Value(g) == o[0] as int - '0' as int;
    assert Value(f) == 10 * Value(g) + (o[1] as int - '0' as int);
  }

  lemma OctetBounds(o: string)
    requires Octet(o)
    ensures Value(o) <= 255 && ParseLong(o) == Some(Value(o))
  {
    assert o[0] != '-' && o[0] != '+';
    if |o| == 3 {
      ThreeDigits(o);
    } else {
      var f := o[..|o| - 1];
      assert f == "" || Value(f) == 10 * Value(f[..0]) + (f[0] as int - '0' as int);
      assert Value("") == 0 && Value(f) <= 9;
    }
  }

  lemma ByteIsOctet(n: nat)
    requires n <= 255
    ensures Octet(Decimal(n))
  {
    ValueOfDecimal(n);
    if |Decimal(n)| == 3 {
      ThreeDigits(Decimal(n));
    }
  }

  lemma AcceptedSplits(s: string)
    requires CheckIP(Some(s))
    ensures Trimmed(s) == s != "" && Split(s) == Pieces(s) && |Pieces(s)| == 4
  {
    var ps := Pieces(s);
    AddressMatches(s);
    MatchIsAddress(s, ps[0], ps[1], ps[2], ps[3]);
  }

  lemma OctetsWeigh(ps: seq<string>)
    requires |ps| == 4 && Octet(ps[0]) && Octet(ps[1]) && Octet(ps[2]) && Octet(ps[3])
    ensures Weighed(ps) == Some(Quad(Value(ps[0]), Value(ps[1]), Value(ps[2]), Value(ps[3])))
    ensures 0 <= Quad(Value(ps[0]), Value(ps[1]), Value(ps[2]), Value(ps[3])) < WORD
  {
    OctetBounds(ps[0]);
    OctetBounds(ps[1]);
    OctetBounds(ps[2]);
    OctetBounds(ps[3]);
  }

  /** Every accepted address parses to its four octets' bytes, without failing or wrapping. */
  lemma ParsedAddress(s: string)
    requires CheckIP(Some(s))
    ensures var ps := Pieces(s);
            |ps| == 4 && Parsed(Some(s)) == Quad(Value(ps[0]), Value(ps[1]), Value(ps[2]), Value(ps[3]))
    ensures 0 <= Parsed(Some(s)) < WORD
  {
    AcceptedSplits(s);
    OctetsWeigh(Pieces(s));
  }

  lemma PrintedPieces(ip: int)
    ensures Pieces(Printed(ip)) == Octets(ip) && CheckIP(Some(Printed(ip)))
  {
    var os := Octets(ip);
    PiecesOfJoined(os);
    ByteIsOctet(ip / 0x100_0000 % 256);
    ByteIsOctet(ip / 0x1_0000 % 256);
    ByteIsOctet(ip / 0x100 % 256);
    ByteIsOctet(ip % 256);
    AddressMatches(Printed(ip));
    MatchIsAddress(Printed(ip), os[0], os[1], os[2], os[3]);
  }

  lemma Peel(q: int, r: nat)
    requires r < 256
    ensures (q * 256 + r) / 256 == q && (q * 256 + r) % 256 == r
  {}

  lemma NestedShifts(ip: int)
    ensures ip / 0x1_0000 == ip / 0x100 / 256
    ensures ip / 0x100_0000 == ip / 0x1_0000 / 256
    ensures ip / WORD == ip / 0x100_0000 / 256
  {}

  function Quad(a: int, b: int, c: int, d: int): int {
    a * 0x100_0000 + b * 0x1_0000 + c * 0x100 + d
  }

  lemma LowWord(ip: int)
    ensures ip % WORD == Quad(ip / 0x100_0000 % 256, ip / 0x1_0000 % 256, ip / 0x100 % 256, ip % 256)
  {
    NestedShifts(ip);
    assert ip == ip / WORD * WORD + Quad(ip / 0x100_0000 % 256, ip / 0x1_0000 % 256, ip / 0x100 % 256, ip % 256);
  }

  lemma BytesOfQuad(a: nat, b: nat, c: nat, d: nat)
    requires a < 256 && b < 256 && c < 256 && d < 256
    ensures var q := Quad(a, b, c, d);
            q / 0x100_0000 % 256 == a && q / 0x1_0000 % 256 == b && q / 0x100 % 256 == c && q % 256 == d
  {
    var bc := a * 256 + b;
    var cd := bc * 256 + c;
    var q := Quad(a, b, c, d);
    assert q == cd * 256 + d;
    Peel(cd, d);
    Peel(bc, c);
    Peel(a, b);
    NestedShifts(q);
  }

  lemma OctetsOfQuad(a: nat, b: nat, c: nat, d: nat)
    requires a < 256 && b < 256 && c < 256 && d < 256
    ensures Octets(Quad(a, b, c, d)) == [Decimal(a), Decimal(b), Decimal(c), Decimal(d)]
  {
    BytesOfQuad(a, b, c, d);
  }

  /** Every long prints as an address the validator accepts, and parses back to its low 32 bits. */
  lemma PrintThenParse(ip: Long)
    ensures CheckIP(Some(Printed(ip)))
    ensures Parsed(Some(Printed(ip))) == ip % WORD
  {
    PrintedPieces(ip);
    ParsedAddress(Printed(ip));
    ValueOfDecimal(ip / 0x100_0000 % 256);
    ValueOfDecimal(ip / 0x1_0000 % 256);
    ValueOfDecimal(ip / 0x100 % 256);
    ValueOfDecimal(ip % 256);
    LowWord(ip);
  }

  /** Two longs print alike exactly when they agree on their low 32 bits. */
  lemma PrintsAlike(x: Long, y: Long)
    ensures Printed(x) == Printed(y) <==> x % WORD == y % WORD
  {
    PrintThenParse(x);
    PrintThenParse(y);
    if x % WORD == y % WORD {
      OctetsOfWord(x);
      OctetsOfWord(y);
    }
  }

  lemma OctetsOfWord(ip: int)
    ensures Octets(ip) == Octets(ip % WORD)
  {
    LowWord(ip);
    OctetsOfQuad(ip / 0x100_0000 % 256, ip / 0x1_0000 % 256, ip / 0x100 % 256, ip % 256);
  }

  ghost function Canonical(s: string): string {
    var ps := Pieces(s);
    Joined(seq(|ps|, k requires 0 <= k < |ps| => Stripped(ps[k])))
  }

  lemma OctetReprints(o: string)
    requires Octet(o)
    ensures Value(o) <= 255 && Decimal(Value(o)) == Stripped(o)
  {
    OctetBounds(o);
    DecimalOfValue(o);
  }

  lemma OctetsReprint(ps: seq<string>)
    requires |ps| == 4 && Octet(ps[0]) && Octet(ps[1]) && Octet(ps[2]) && Octet(ps[3])
    ensures Octets(Quad(Value(ps[0]), Value(ps[1]), Value(ps[2]), Value(ps[3])))
         == [Stripped(ps[0]), Stripped(ps[1]), Stripped(ps[2]), Stripped(ps[3])]
  {
    OctetReprints(ps[0]);
    OctetReprints(ps[1]);
    OctetReprints(ps[2]);
    OctetReprints(ps[3]);
    OctetsOfQuad(Value(ps[0]), Value(ps[1]), Value(ps[2]), Value(ps[3]));
  }

  /** What an accepted address prints back, octet by octet. */
  lemma OctetsPrintedBack(s: string)
    requires CheckIP(Some(s))
    ensures Pieces(Printed(Parsed(Some(s)))) == Octets(Parsed(Some(s)))
    ensures |Pieces(s)| == 4 == |Octets(Parsed(Some(s)))|
    ensures forall k :: 0 <= k < 4 ==> Octets(Parsed(Some(s)))[k] == Stripped(Pieces(s)[k])
  {
    ParsedAddress(s);
    OctetsReprint(Pieces(s));
    PrintedPieces(Parsed(Some(s)));
  }

  /** Every accepted address parses and prints back to itself without its octets' leading zeros. */
  lemma ParseThenPrint(s: string)
    requires CheckIP(Some(s))
    ensures Printed(Parsed(Some(s))) == Canonical(s)
  {
    OctetsPrintedBack(s);
    var ps := Pieces(s);
    assert Octets(Parsed(Some(s))) == seq(|ps|, k requires 0 <= k < |ps| => Stripped(ps[k]));
  }

  lemma {:induction false} StrippedShorter(s: string)
    ensures |Stripped(s)| <= |s|
    ensures Stripped(s) == s <==> !(|s| > 1 && s[0] == '0')
  {
    if |s| > 1 && s[0] == '0' {
      StrippedShorter(s[1..]);
    }
  }

  /** An accepted address is what its own value prints exactly when no octet has a leading zero. */
  lemma PrintsBackExactly(s: string)
    requires CheckIP(Some(s))
    ensures Printed(Parsed(Some(s))) == s
            <==> forall k :: 0 <= k < 4 ==> !(|Pieces(s)[k]| > 1 && Pieces(s)[k][0] == '0')
  {
    OctetsPrintedBack(s);
    JoinedPieces(s);
    var ps, os := Pieces(s), Octets(Parsed(Some(s)));
    forall k | 0 <= k < 4 ensures os[k] == ps[k] <==> !(|ps[k]| > 1 && ps[k][0] == '0') {
      StrippedShorter(ps[k]);
    }
    if forall k :: 0 <= k < 4 ==> os[k] == ps[k] {
      assert os == ps;
    }
  }

  // ---------- where parser and validator part ----------

  /** At most three digits, and of three no leading zero and no value over 255. */
  predicate PlainOctet(o: string) {
    && AllDigits(o)
    && 1 <= |o| <= 3
    && (|o| == 3 ==> o[0] != '0' && Value(o) <= 255)
  }

  lemma OctetIsPlain(o: string)
    ensures Octet(o) <==> PlainOctet(o)
  {
    if |o| == 3 && AllDigits(o) {
      ThreeDigits(o);
    }
  }

  lemma {:induction false} LastPiece(s: string)
    ensures Pieces(s)[|Pieces(s)| - 1] == "" <==> s == "" || s[|s| - 1] == '.'
  {
    if s != "" {
      LastPiece(s[1..]);
    }
  }

  /** Whatever the validator accepts, the parser takes. */
  lemma AcceptedParses(s: string)
    requires CheckIP(Some(s))
    ensures Parses(s)
  {
    AcceptedSplits(s);
    OctetsWeigh(Pieces(s));
  }

  /**
   * Of what the parser takes, the validator accepts exactly the texts without surrounding spaces and
   * without a final dot whose pieces are plain octets: no signs, no long runs of zeros, nothing over 255.
   */
  lemma ParserAgreesExactly(s: string)
    requires Parses(s)
    ensures CheckIP(Some(s))
            <==> && Trimmed(s) == s
                 && s[|s| - 1] != '.'
                 && forall k :: 0 <= k < 4 ==> PlainOctet(Split(s)[k])
  {
    LastPiece(s);
    var ps := Pieces(s);
    forall k | 0 <= k < |ps|
      ensures Octet(ps[k]) <==> PlainOctet(ps[k])
    {
      OctetIsPlain(ps[k]);
    }
    if CheckIP(Some(s)) {
      AcceptedSplits(s);
      assert Octet(ps[3]);
    } else if Trimmed(s) == s && s[|s| - 1] != '.' {
      assert Split(s) == ps;
    }
  }

  /** Four runs of digits that fit a long always parse; the validator accepts them exactly when all are plain. */
  lemma DigitPiecesParse(ps: seq<string>)
    requires |ps| == 4 && forall k :: 0 <= k < 4 ==> ps[k] != "" && AllDigits(ps[k]) && Value(ps[k]) <= LONG_MAX
    ensures Parses(Joined(ps))
    ensures CheckIP(Some(Joined(ps))) <==> forall k :: 0 <= k < 4 ==> PlainOctet(ps[k])
  {
    var s := Joined(ps);
    PiecesOfJoined(ps);
    FourJoined(ps[0], ps[1], ps[2], ps[3]);
    assert ps == [ps[0], ps[1], ps[2], ps[3]];
    assert s[0] == ps[0][0] && s[|s| - 1] == ps[3][|ps[3]| - 1];
    assert Trimmed(s) == s && Split(s) == ps;
    forall k | 0 <= k < 4
      ensures ParseLong(ps[k]).Some?
    {
      assert ps[k][0] != '-' && ps[k][0] != '+';
    }
    ParserAgreesExactly(s);
  }

  lemma AcceptedEnds(s: string)
    requires CheckIP(Some(s))
    ensures Trimmed(s) == s != "" && IsDigit(s[0]) && IsDigit(s[|s| - 1])
  {
    AcceptedSplits(s);
    LastPiece(s);
    JoinedPieces(s);
    AddressMatches(s);
    var ps := Pieces(s);
    assert s[0] == ps[0][0] && s[|s| - 1] == ps[3][|ps[3]| - 1];
    assert Octet(ps[0]) && Octet(ps[3]);
  }

  predicate Blanks(s: string) {
    forall k :: 0 <= k < |s| ==> s[k] <= ' '
  }

  /** Trimming takes every blank off both ends and nothing else. */
  lemma {:induction false} TrimmedLaw(left: string, s: string, right: string)
    requires s != "" && s[0] > ' ' && s[|s| - 1] > ' '
    requires Blanks(left) && Blanks(right)
    ensures Trimmed(left + s + right) == s
    decreases |left| + |right|
  {
    var t := left + s + right;
    if left != "" {
      assert t[1..] == left[1..] + s + right;
      TrimmedLaw(left[1..], s, right);
    } else if right != "" {
      assert t[0] == s[0] && t[|t| - 1] == right[|right| - 1];
      assert t[..|t| - 1] == left + s + right[..|right| - 1];
      TrimmedLaw(left, s, right[..|right| - 1]);
    } else {
      assert t == s;
    }
  }

  /** Blanks around an accepted address change nothing for the parser. */
  lemma SpaceIsIgnored(left: string, s: string, right: string)
    requires CheckIP(Some(s)) && left + right != "" && Blanks(left) && Blanks(right)
    ensures Parses(left + s + right) && !CheckIP(Some(left + s + right))
    ensures Parsed(Some(left + s + right)) == Parsed(Some(s))
  {
    AcceptedEnds(s);
    AcceptedParses(s);
    TrimmedLaw(left, s, right);
    assert |left + s + right| > |s|;
    ParserAgreesExactly(left + s + right);
  }

  lemma PlusSplits(s: string)
    requires CheckIP(Some(s))
    ensures |Pieces(s)| == 4 && Trimmed("+" + s) == "+" + s
    ensures Split("+" + s) == [['+'] + Pieces(s)[0]] + Pieces(s)[1..]
  {
    AcceptedEnds(s);
    AcceptedSplits(s);
    var t := "+" + s;
    assert t[1..] == s && t[|t| - 1] == s[|s| - 1];
    assert Pieces(t) == [['+'] + Pieces(s)[0]] + Pieces(s)[1..];
    LastPiece(s);
  }

  /** A plus sign before an accepted address changes nothing for the parser. */
  lemma PlusIsIgnored(s: string)
    requires CheckIP(Some(s))
    ensures Parses("+" + s) && !CheckIP(Some("+" + s))
    ensures Parsed(Some("+" + s)) == Parsed(Some(s))
  {
    AcceptedParses(s);
    AcceptedSplits(s);
    PlusSplits(s);
    var ps, t := Pieces(s), "+" + s;
    assert Octet(ps[0]);
    assert (['+'] + ps[0])[1..] == ps[0];
    assert ParseLong(['+'] + ps[0]) == ParseLong(ps[0]);
    assert Split(t)[0][0] == '+' && !PlainOctet(Split(t)[0]);
    ParserAgreesExactly(t);
  }

  /** Dots after an accepted address change nothing for the parser. */
  lemma TrailingDotIsIgnored(s: string)
    requires CheckIP(Some(s))
    ensures Parses(s + ".") && !CheckIP(Some(s + "."))
    ensures Parsed(Some(s + ".")) == Parsed(Some(s))
  {
    AcceptedParses(s);
    var ps := Pieces(s);
    JoinedPieces(s);
    AddressMatches(s);
    MatchIsAddress(s, ps[0], ps[1], ps[2], ps[3]);
    DotAppended(s);
    assert (s + ".")[0] == s[0];
    assert Trimmed(s + ".") == s + ".";
    assert Pieces(s + ".")[..4] == ps;
    assert WithoutTrailingEmpties(Pieces(s + ".")) == WithoutTrailingEmpties(ps) == ps;
  }

  lemma {:induction false} DotAppended(s: string)
    ensures Pieces(s + ".") == Pieces(s) + [""]
  {
    if s == "" {
      assert s + "." == ".";
      assert "."[1..] == "";
    } else {
      DotAppended(s[1..]);
      assert (s + ".")[1..] == s[1..] + ".";
    }
  }
}
