/**
  Text forms of addresses: Python's `str.split`, the script's `strip_mask`,
  and the canonical dotted-quad and `addr/len` notations with their
  parsers.
*/
module DottedQuad {
  import opened Options
  import opened Ipv4

  /** Python's `s.split(sep)`: the pieces between occurrences of `sep`. */
  function Split(s: string, sep: char): (parts: seq<string>)
    ensures |parts| >= 1
    ensures forall k :: 0 <= k < |parts| ==> sep !in parts[k]
    ensures parts[0] <= s
    ensures |parts[0]| < |s| ==> s[|parts[0]|] == sep
    decreases |s|
  {
    if s == [] then [[]]
    else
      var rest := Split(s[1..], sep);
      if s[0] == sep then [[]] + rest
      else [[s[0]] + rest[0]] + rest[1..]
  }

  /** Python's `sep.join(parts)`. */
  function Join(parts: seq<string>, sep: char): string
    requires |parts| >= 1
    decreases |parts|
  {
    if |parts| == 1 then parts[0] else parts[0] + [sep] + Join(parts[1..], sep)
  }

  /** Joining the pieces of a split gives back the original text. */
  lemma {:induction false} JoinSplit(s: string, sep: char)
    ensures Join(Split(s, sep), sep) == s
    decreases |s|
  {
    if s != [] {
      var rest := Split(s[1..], sep);
      JoinSplit(s[1..], sep);
      if s[0] == sep {
        assert Split(s, sep) == [[]] + rest;
        assert Join([[]] + rest, sep) == [] + [sep] + Join(rest, sep);
      } else {
        if |rest| == 1 {
          assert Split(s, sep) == [[s[0]] + rest[0]];
        } else {
          assert Split(s, sep)[1..] == rest[1..];
          assert Join(rest, sep) == rest[0] + [sep] + Join(rest[1..], sep);
        }
      }
    }
  }

  lemma {:induction false} SplitPrefix(p: string, t: string, sep: char)
    requires sep !in p
    ensures Split(p + t, sep) == [p + Split(t, sep)[0]] + Split(t, sep)[1..]
    decreases |p|
  {
    var st := Split(t, sep);
    if p == [] {
      assert p + t == t;
      assert p + st[0] == st[0];
      assert [st[0]] + st[1..] == st;
    } else {
      var u := p[1..] + t;
      assert p[0] != sep && sep !in p[1..] by {
        assert p == [p[0]] + p[1..];
      }
      SplitPrefix(p[1..], t, sep);
      var s := p + t;
      ConcatTail(p, t);
      var rest := Split(u, sep);
      assert Split(s, sep) == [[p[0]] + rest[0]] + rest[1..];
      assert [p[0]] + (p[1..] + st[0]) == p + st[0];
    }
  }

  lemma ConcatTail(p: string, t: string)
    requires |p| >= 1
    ensures (p + t)[0] == p[0] && (p + t)[1..] == p[1..] + t
  {
  }

  /** Splitting a join of separator-free pieces gives back the pieces. */
  lemma {:induction false} SplitJoin(parts: seq<string>, sep: char)
    requires |parts| >= 1
    requires forall k :: 0 <= k < |parts| ==> sep !in parts[k]
    ensures Split(Join(parts, sep), sep) == parts
    decreases |parts|
  {
    if |parts| == 1 {
      SplitPrefix(parts[0], [], sep);
      assert parts[0] + [] == parts[0];
    } else {
      var tail := Join(parts[1..], sep);
      SplitJoin(parts[1..], sep);
      SplitPrefix(parts[0], [sep] + tail, sep);
      assert ([sep] + tail)[1..] == tail;
      assert Split([sep] + tail, sep) == [[]] + parts[1..];
      assert parts[0] + ([sep] + tail) == Join(parts, sep);
      assert parts[0] + [] == parts[0];
      assert [parts[0]] + parts[1..] == parts;
    }
  }

  /**
    The script's `strip_mask`: `ip_with_mask.split('/')[0]`, the text before
    the first '/', or the whole text when it has none.
  */
  function StripMask(s: string): (r: string)
    ensures r <= s && '/' !in r
    ensures |r| < |s| ==> s[|r|] == '/'
    ensures '/' !in s ==> r == s
  {
    Split(s, '/')[0]
  }

  predicate IsDigit(c: char) {
    '0' <= c <= '9'
  }

  predicate AllDigits(s: string) {
    forall k :: 0 <= k < |s| ==> IsDigit(s[k])
  }

  function DigitChar(d: nat): (c: char)
    requires d < 10
    ensures IsDigit(c) && c as int - '0' as int == d
  {
    (d + '0' as int) as char
  }

  /** The decimal notation of `n`, without leading zeros (Python's `str(n)`). */
  function Decimal(n: nat): (s: string)
    ensures |s| >= 1 && AllDigits(s)
    ensures s[0] == '0' ==> n == 0
    ensures n < 10 ==> |s| == 1
    ensures n < 100 ==> |s| <= 2
    ensures n < 1000 ==> |s| <= 3
    decreases n
  {
    if n < 10 then [DigitChar(n)] else Decimal(n / 10) + [DigitChar(n % 10)]
  }

  /** The value of a string of decimal digits. */
  function DigitsValue(s: string): nat
    requires AllDigits(s)
    decreases |s|
  {
    if s == [] then 0 else 10 * DigitsValue(s[..|s| - 1]) + (s[|s| - 1] as int - '0' as int)
  }

  lemma {:induction false} DecimalValue(n: nat)
    ensures DigitsValue(Decimal(n)) == n
    decreases n
  {
    if n >= 10 {
      DecimalValue(n / 10);
      var s := Decimal(n);
      assert s[..|s| - 1] == Decimal(n / 10);
    }
  }

  /** One component of a dotted quad: one to three digits, no leading zero, at most 255. */
  function ParseOctet(t: string): (r: Option<nat>)
    ensures r.Some? ==> r.value < 256 && Decimal(r.value) == t
  {
    if 1 <= |t| <= 3 && AllDigits(t) && (|t| == 1 || t[0] != '0') && DigitsValue(t) < 256
    then CanonicalDigits(t); Some(DigitsValue(t))
    else None
  }

  /** A digit string without leading zeros is the decimal notation of its value. */
  lemma {:induction false} CanonicalDigits(t: string)
    requires |t| >= 1 && AllDigits(t) && (|t| == 1 || t[0] != '0')
    ensures Decimal(DigitsValue(t)) == t
    decreases |t|
  {
    var v := DigitsValue(t);
    if |t| == 1 {
      assert t[..0] == [];
    } else {
      var front := t[..|t| - 1];
      assert front[0] == t[0];
      CanonicalDigits(front);
      assert front[..|front| - 1] == t[..|t| - 2];
      if |front| == 1 {
        assert DigitsValue(front) >= 1;
      } else {
        DigitsValueLower(front);
      }
      assert v / 10 == DigitsValue(front);
      assert front + [t[|t| - 1]] == t;
    }
  }

  lemma {:induction false} DigitsValueLower(t: string)
    requires |t| >= 1 && AllDigits(t) && t[0] != '0'
    ensures DigitsValue(t) >= 1
    decreases |t|
  {
    if |t| > 1 {
      var front := t[..|t| - 1];
      assert front[0] == t[0];
      DigitsValueLower(front);
    }
  }

  lemma {:induction false} ParseOctetDecimal(n: nat)
    requires n < 256
    ensures ParseOctet(Decimal(n)) == Some(n)
  {
    DecimalValue(n);
  }

  /** The four octets of an address, most significant first. */
  function Octets(a: Addr): (o: seq<nat>)
    ensures |o| == 4 && forall k :: 0 <= k < 4 ==> o[k] < 256
    ensures Dotted(o[0], o[1], o[2], o[3]) == a
  {
    var t1 := a / 0x100;
    var t2 := t1 / 0x100;
    [t2 / 0x100, t2 % 0x100, t1 % 0x100, a % 0x100]
  }

  lemma {:induction false} OctetsDotted(a: nat, b: nat, c: nat, d: nat)
    requires a < 256 && b < 256 && c < 256 && d < 256
    ensures Octets(Dotted(a, b, c, d)) == [a, b, c, d]
  {
  }

  /** The dotted-quad text of an address, as `a.b.c.d`. */
  function FormatAddr(a: Addr): string {
    var o := Octets(a);
    Decimal(o[0]) + "." + Decimal(o[1]) + "." + Decimal(o[2]) + "." + Decimal(o[3])
  }

  lemma {:induction false} Join4(w: string, x: string, y: string, z: string, sep: char)
    ensures Join([w, x, y, z], sep) == w + [sep] + x + [sep] + y + [sep] + z
  {
    var p := [w, x, y, z];
    assert p[1..] == [x, y, z] && p[1..][1..] == [y, z] && p[1..][1..][1..] == [z];
    assert Join([z], sep) == z;
    assert Join([y, z], sep) == y + [sep] + z;
    assert Join([x, y, z], sep) == x + [sep] + (y + [sep] + z);
    assert Join(p, sep) == w + [sep] + (x + [sep] + (y + [sep] + z));
  }

  lemma {:induction false} Join2(x: string, y: string, sep: char)
    ensures Join([x, y], sep) == x + [sep] + y
  {
  }

  /** The text of a.b.c.d is the four decimals joined by dots. */
  lemma FormatDotted(a: nat, b: nat, c: nat, d: nat)
    requires a < 256 && b < 256 && c < 256 && d < 256
    ensures FormatAddr(Dotted(a, b, c, d)) == Decimal(a) + "." + Decimal(b) + "." + Decimal(c) + "." + Decimal(d)
  {
  }

  /** The canonical dotted-quad parser: four decimal octets, without leading zeros, separated by dots. */
  function ParseAddr(s: string): Option<Addr> {
    var p := Split(s, '.');
    if |p| != 4 then None
    else match (ParseOctet(p[0]), ParseOctet(p[1]), ParseOctet(p[2]), ParseOctet(p[3]))
      case (Some(a), Some(b), Some(c), Some(d)) => Some(Dotted(a, b, c, d))
      case _ => None
  }

  lemma NoSeparatorInDigits(s: string, sep: char)
    requires AllDigits(s) && !IsDigit(sep)
    ensures sep !in s
  {
  }

  /** Parsing the text of an address gives back the address. */
  lemma {:induction false} ParseFormatAddr(a: Addr)
    ensures ParseAddr(FormatAddr(a)) == Some(a)
  {
    var o := Octets(a);
    var parts := [Decimal(o[0]), Decimal(o[1]), Decimal(o[2]), Decimal(o[3])];
    forall k | 0 <= k < 4 ensures '.' !in parts[k] && ParseOctet(parts[k]) == Some(o[k]) {
      NoSeparatorInDigits(parts[k], '.');
      ParseOctetDecimal(o[k]);
    }
    Join4(parts[0], parts[1], parts[2], parts[3], '.');
    SplitJoin(parts, '.');
  }

  /** A text that parses is the canonical text of its address. */
  lemma {:induction false} FormatParseAddr(s: string)
    requires ParseAddr(s).Some?
    ensures FormatAddr(ParseAddr(s).value) == s
  {
    var p := Split(s, '.');
    var o0, o1, o2, o3 := ParseOctet(p[0]).value, ParseOctet(p[1]).value, ParseOctet(p[2]).value, ParseOctet(p[3]).value;
    var a := ParseAddr(s).value;
    assert a == Dotted(o0, o1, o2, o3);
    OctetsDotted(o0, o1, o2, o3);
    assert [Decimal(o0), Decimal(o1), Decimal(o2), Decimal(o3)] == p;
    Join4(p[0], p[1], p[2], p[3], '.');
    JoinSplit(s, '.');
  }

  /** The `addr/len` notation. */
  function FormatCidr(c: Cidr): string {
    Join([FormatAddr(c.addr), Decimal(c.len)], '/')
  }

  /** The canonical `addr/len` parser. */
  function ParseCidr(s: string): Option<Cidr> {
    var p := Split(s, '/');
    if |p| != 2 then None
    else match (ParseAddr(p[0]), ParseLength(p[1]))
      case (Some(a), Some(l)) => Some(Cidr(a, l))
      case _ => None
  }

  function ParseLength(t: string): (r: Option<PrefixLen>)
    ensures r.Some? ==> Decimal(r.value) == t
  {
    if |t| >= 1 && AllDigits(t) && (|t| == 1 || t[0] != '0') && DigitsValue(t) <= 32
    then CanonicalDigits(t); Some(DigitsValue(t))
    else None
  }

  lemma FormatAddrNoSlash(a: Addr)
    ensures '/' !in FormatAddr(a)
  {
  }

  /** Parsing the `addr/len` text of a value gives back the value. */
  lemma {:induction false} ParseFormatCidr(c: Cidr)
    ensures ParseCidr(FormatCidr(c)) == Some(c)
  {
    var parts := [FormatAddr(c.addr), Decimal(c.len)];
    FormatAddrNoSlash(c.addr);
    NoSeparatorInDigits(Decimal(c.len), '/');
    SplitJoin(parts, '/');
    ParseFormatAddr(c.addr);
    DecimalValue(c.len);
  }

  /** `strip_mask` of the text `addr/len` is the text of the address. */
  lemma {:induction false} StripMaskCidr(c: Cidr)
    ensures StripMask(FormatCidr(c)) == FormatAddr(c.addr)
  {
    FormatAddrNoSlash(c.addr);
    NoSeparatorInDigits(Decimal(c.len), '/');
    SplitJoin([FormatAddr(c.addr), Decimal(c.len)], '/');
  }
}
