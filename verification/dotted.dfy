/** Dotted IPv4 text, the two-octet rewrite of dind/docker.go and the arithmetic of an iptables NETMAP rule. */
module Dotted {
  import opened Wrappers

  type Octet = x: int | 0 <= x < 256

  datatype Address = Address(a: Octet, b: Octet, c: Octet, d: Octet)

  /** A subnet in prefix notation (section 3.1 of RFC 4632). */
  datatype Cidr = Cidr(base: Address, prefix: nat)

  // ---------- decimal numerals ----------

  predicate IsDigit(c: char) {
    '0' <= c <= '9'
  }

  predicate AllDigits(s: string) {
    forall i | 0 <= i < |s| :: IsDigit(s[i])
  }

  function Decimal(n: nat): (s: string)
    ensures |s| > 0 && AllDigits(s)
    ensures s[0] == '0' ==> n == 0 && |s| == 1
    ensures n < 10 ==> |s| == 1
    ensures n < 100 ==> |s| <= 2
    ensures n < 1000 ==> |s| <= 3
  {
    if n < 10 then ['0' + n as char] else Decimal(n / 10) + ['0' + (n % 10) as char]
  }

  function Value(s: string): nat
    requires AllDigits(s)
  {
    if s == "" then 0 else 10 * Value(s[..|s| - 1]) + (s[|s| - 1] as nat - '0' as nat)
  }

  /** Reads a numeral without leading zeros. */
  function ParseDecimal(s: string): Option<nat> {
    if |s| > 0 && AllDigits(s) && (s[0] == '0' ==> |s| == 1) then Some(Value(s)) else None
  }

  lemma {:induction false} DecimalParses(n: nat)
    ensures ParseDecimal(Decimal(n)) == Some(n)
  {
    var s := Decimal(n);
    if n < 10 {
      assert s[..0] == "";
      assert s[0] as nat == '0' as nat + n;
      assert Value(s) == 10 * Value(s[..0]) + n;
    } else {
      DecimalParses(n / 10);
      assert s[..|s| - 1] == Decimal(n / 10);
      assert s[|s| - 1] == '0' + (n % 10) as char;
    }
  }

  lemma {:induction false} DecimalOfValue(s: string)
    requires ParseDecimal(s).Some?
    ensures Decimal(Value(s)) == s
  {
    if |s| > 1 {
      var front := s[..|s| - 1];
      DecimalOfValue(front);
      assert s == front + [s[|s| - 1]];
      assert Value(front) > 0;
    }
  }

  // ---------- separated fields ----------

  function Join(fields: seq<string>, sep: char): string
    requires |fields| > 0
  {
    if |fields| == 1 then fields[0] else fields[0] + [sep] + Join(fields[1..], sep)
  }

  function Split(s: string, sep: char): (fields: seq<string>)
    ensures |fields| > 0
    ensures forall f | f in fields :: sep !in f
  {
    if s == "" then [""]
    else if s[0] == sep then [""] + Split(s[1..], sep)
    else
      var rest := Split(s[1..], sep);
      [[s[0]] + rest[0]] + rest[1..]
  }

  lemma {:induction false} SplitJoin(fields: seq<string>, sep: char)
    requires |fields| > 0 && forall f | f in fields :: sep !in f
    ensures Split(Join(fields, sep), sep) == fields
    decreases |fields|, |fields[0]|
  {
    var s := Join(fields, sep);
    if fields[0] == "" {
      if |fields| > 1 {
        assert s[1..] == Join(fields[1..], sep);
        SplitJoin(fields[1..], sep);
      }
    } else {
      var shorter := [fields[0][1..]] + fields[1..];
      assert shorter[1..] == fields[1..];
      assert s[1..] == Join(shorter, sep);
      forall f | f in shorter ensures sep !in f {
        if f == fields[0][1..] { assert fields[0] in fields; }
      }
      SplitJoin(shorter, sep);
      assert s[0] == fields[0][0] && fields[0] in fields;
      assert [s[0]] + fields[0][1..] == fields[0];
    }
  }

  lemma {:induction false} JoinSplit(s: string, sep: char)
    ensures Join(Split(s, sep), sep) == s
  {
    if s != "" {
      JoinSplit(s[1..], sep);
      var rest := Split(s[1..], sep);
      if s[0] == sep {
        assert ([""] + rest)[1..] == rest;
      } else {
        assert Split(s, sep)[1..] == rest[1..];
      }
    }
  }

  // ---------- addresses and subnets as text ----------

  /** Four octets as text. */
  function Quad(a: nat, b: nat, c: nat, d: nat): string {
    Decimal(a) + "." + Decimal(b) + Tail(c, d)
  }

  /** What the rewrite leaves of an address: everything from the second dot on. */
  function Tail(c: nat, d: nat): string {
    "." + Decimal(c) + "." + Decimal(d)
  }

  lemma QuadIsJoin(a: nat, b: nat, c: nat, d: nat)
    ensures Quad(a, b, c, d) == Join([Decimal(a), Decimal(b), Decimal(c), Decimal(d)], '.')
    ensures '/' !in Quad(a, b, c, d)
  {
    var p, q, r, s := Decimal(a), Decimal(b), Decimal(c), Decimal(d);
    JoinFour(p, q, r, s);
    Regroup(p, q, r, s);
  }

  lemma Regroup(p: string, q: string, r: string, s: string)
    requires AllDigits(p) && AllDigits(q) && AllDigits(r) && AllDigits(s)
    ensures p + "." + q + ("." + r + "." + s) == p + "." + q + "." + r + "." + s
    ensures '/' !in p + "." + q + ("." + r + "." + s)
  {
    assert '/' !in p && '/' !in q && '/' !in r && '/' !in s;
    assert '/' !in "." + r + "." + s;
    assert '/' !in p + "." + q;
  }

  lemma JoinFour(p: string, q: string, r: string, s: string)
    ensures Join([p, q, r, s], '.') == p + "." + q + "." + r + "." + s
  {
    assert [p, q, r, s][1..] == [q, r, s];
    assert [q, r, s][1..] == [r, s];
    assert [r, s][1..] == [s];
    assert Join([r, s], '.') == r + "." + s;
    assert Join([q, r, s], '.') == q + "." + (r + "." + s);
    assert Join([p, q, r, s], '.') == p + "." + (q + "." + (r + "." + s));
  }

  function AddressText(x: Address): string {
    Quad(x.a, x.b, x.c, x.d)
  }

  function ParseOctet(s: string): Option<Octet> {
    match ParseDecimal(s)
    case Some(n) => if n < 256 then Some(n) else None
    case None => None
  }

  function ParseAddress(s: string): Option<Address> {
    var fs := Split(s, '.');
    if |fs| != 4 then None
    else
      match (ParseOctet(fs[0]), ParseOctet(fs[1]), ParseOctet(fs[2]), ParseOctet(fs[3]))
      case (Some(a), Some(b), Some(c), Some(d)) => Some(Address(a, b, c, d))
      case _ => None
  }

  lemma OctetRoundTrip(o: Octet)
    ensures ParseOctet(Decimal(o)) == Some(o)
  {
    DecimalParses(o);
  }

  lemma OctetOfText(s: string)
    requires ParseOctet(s).Some?
    ensures Decimal(ParseOctet(s).value as int) == s
  {
    DecimalOfValue(s);
  }

  /** Reading back the text of an address gives the address. */
  lemma AddressRoundTrip(x: Address)
    ensures ParseAddress(AddressText(x)) == Some(x)
  {
    QuadIsJoin(x.a, x.b, x.c, x.d);
    SplitJoin([Decimal(x.a), Decimal(x.b), Decimal(x.c), Decimal(x.d)], '.');
    OctetRoundTrip(x.a);
    OctetRoundTrip(x.b);
    OctetRoundTrip(x.c);
    OctetRoundTrip(x.d);
  }

  /** An address is read from its own text only. */
  lemma AddressTextUnique(s: string)
    requires ParseAddress(s).Some?
    ensures AddressText(ParseAddress(s).value) == s
  {
    var fs := Split(s, '.');
    var x := ParseAddress(s).value;
    OctetOfText(fs[0]);
    OctetOfText(fs[1]);
    OctetOfText(fs[2]);
    OctetOfText(fs[3]);
    QuadIsJoin(x.a, x.b, x.c, x.d);
    assert fs == [fs[0], fs[1], fs[2], fs[3]];
    JoinSplit(s, '.');
  }

  function CidrText(n: Cidr): string {
    AddressText(n.base) + "/" + Decimal(n.prefix)
  }

  function ParseCidr(s: string): Option<Cidr> {
    var fs := Split(s, '/');
    if |fs| != 2 then None
    else
      match (ParseAddress(fs[0]), ParseDecimal(fs[1]))
      case (Some(base), Some(p)) => if p <= 32 then Some(Cidr(base, p)) else None
      case _ => None
  }

  lemma CidrRoundTrip(n: Cidr)
    requires n.prefix <= 32
    ensures ParseCidr(CidrText(n)) == Some(n)
  {
    QuadIsJoin(n.base.a, n.base.b, n.base.c, n.base.d);
    var fs := [AddressText(n.base), Decimal(n.prefix)];
    assert Join(fs, '/') == CidrText(n) by { assert fs[1..] == [fs[1]]; }
    SplitJoin(fs, '/');
    AddressRoundTrip(n.base);
    DecimalParses(n.prefix);
  }

  lemma CidrTextUnique(s: string)
    requires ParseCidr(s).Some?
    ensures CidrText(ParseCidr(s).value) == s && ParseCidr(s).value.prefix <= 32
  {
    var fs := Split(s, '/');
    AddressTextUnique(fs[0]);
    DecimalOfValue(fs[1]);
    JoinSplit(s, '/');
    assert fs[1..] == [fs[1]];
  }

  // ---------- the regular expression ^[0-9]{1,3}\.[0-9]{1,3} ----------

  function DigitRun(s: string, cap: nat): (k: nat)
    ensures k <= cap && k <= |s| && AllDigits(s[..k])
    ensures k < cap && k < |s| ==> !IsDigit(s[k])
  {
    if cap == 0 || s == "" || !IsDigit(s[0]) then 0
    else
      var k := DigitRun(s[1..], cap - 1);
      assert s[..k + 1] == [s[0]] + s[1..][..k];
      1 + k
  }

  /** Length of the greedy match at the start of the text, if there is one. */
  function MatchLength(s: string): Option<nat> {
    var i := DigitRun(s, 3);
    if i == 0 || i == |s| || s[i] != '.' then None
    else
      var j := DigitRun(s[i + 1..], 3);
      if j == 0 then None else Some(i + 1 + j)
  }

  /** The language of the expression: one to three digits, a dot at position i, one to three digits. */
  predicate DottedAt(s: string, i: nat) {
    1 <= i <= 3 && i + 2 <= |s| <= i + 4 && AllDigits(s[..i]) && s[i] == '.' && AllDigits(s[i + 1..])
  }

  /** The match found is a prefix in the language of the expression. */
  lemma MatchIsInLanguage(s: string)
    requires MatchLength(s).Some?
    ensures MatchLength(s).value <= |s|
    ensures exists i :: DottedAt(s[..MatchLength(s).value], i)
  {
    var i := DigitRun(s, 3);
    var j := DigitRun(s[i + 1..], 3);
    var m := s[..i + 1 + j];
    assert m[..i] == s[..i];
    assert m[i + 1..] == s[i + 1..][..j];
    assert DottedAt(m, i);
  }

  /** No prefix in the language is missed, and none is longer than the match found. */
  lemma MatchIsLongest(s: string, k: nat, i: nat)
    requires k <= |s| && DottedAt(s[..k], i)
    ensures MatchLength(s).Some? && k <= MatchLength(s).value
  {
    var p := s[..k];
    assert p[..i] == s[..i] && p[i] == s[i];
    PrefixDigits(s, i, 3);
    assert DigitRun(s, 3) == i by { assert !IsDigit(s[i]); DigitRunStops(s, i, 3); }
    assert p[i + 1..] == s[i + 1..][..k - i - 1];
    PrefixDigits(s[i + 1..], k - i - 1, 3);
  }

  lemma {:induction false} DigitRunStops(s: string, i: nat, cap: nat)
    requires i < |s| && !IsDigit(s[i])
    ensures DigitRun(s, cap) <= i
  {
    if i > 0 && cap > 0 { DigitRunStops(s[1..], i - 1, cap - 1); }
  }

  lemma {:induction false} PrefixDigits(s: string, k: nat, cap: nat)
    requires k <= |s| && k <= cap && AllDigits(s[..k])
    ensures k <= DigitRun(s, cap)
  {
    if k > 0 {
      assert s[..k][0] == s[0] && s[1..][..k - 1] == s[..k][1..];
      PrefixDigits(s[1..], k - 1, cap - 1);
    }
  }

  /** ReplaceAllLiteralString with the expression anchored at the start. */
  function Rewrite(s: string, repl: string): string {
    match MatchLength(s)
    case Some(k) => if k <= |s| then repl + s[k..] else s
    case None => s
  }

  lemma {:induction false} DigitRunOf(p: string, rest: string, cap: nat)
    requires AllDigits(p) && |p| <= cap && (rest != "" ==> !IsDigit(rest[0]))
    ensures DigitRun(p + rest, cap) == |p|
  {
    if p == "" {
      assert p + rest == rest;
    } else {
      assert (p + rest)[1..] == p[1..] + rest;
      DigitRunOf(p[1..], rest, cap - 1);
    }
  }

  lemma MatchPair(p: string, q: string, rest: string)
    requires AllDigits(p) && AllDigits(q) && 1 <= |p| <= 3 && 1 <= |q| <= 3 && rest != "" && !IsDigit(rest[0])
    ensures MatchLength(p + "." + q + rest) == Some(|p| + 1 + |q|)
  {
    var s := p + "." + q + rest;
    assert s == p + ("." + q + rest);
    DigitRunOf(p, "." + q + rest, 3);
    assert s[|p| + 1..] == q + rest;
    DigitRunOf(q, rest, 3);
  }

  /** The replacement text of the forwarder, "127.N". */
  function HostOctets(n: nat): string {
    "127." + Decimal(n)
  }

  /** On four octets followed by anything, the rewrite replaces exactly the first two. */
  lemma RewriteQuad(a: nat, b: nat, c: nat, d: nat, suffix: string, n: nat)
    requires a < 256 && b < 256
    ensures Rewrite(Quad(a, b, c, d) + suffix, HostOctets(n)) == Quad(127, n, c, d) + suffix
  {
    var p, q, rest := Decimal(a), Decimal(b), Tail(c, d) + suffix;
    var s := p + "." + q + rest;
    assert Quad(a, b, c, d) + suffix == s;
    MatchPair(p, q, rest);
    assert s[|p| + 1 + |q|..] == rest;
    assert Decimal(127) == "127" by {
      DecimalOfValue("127");
      assert Value("127") == 127 by { assert "127"[..2] == "12" && "12"[..1] == "1" && "1"[..0] == ""; }
    }
    assert HostOctets(n) + rest == Quad(127, n, c, d) + suffix;
  }

  lemma RewriteAddress(x: Address, n: Octet)
    ensures Rewrite(AddressText(x), HostOctets(n)) == AddressText(x.(a := 127, b := n))
  {
    RewriteQuad(x.a, x.b, x.c, x.d, "", n);
    assert AddressText(x) + "" == AddressText(x);
    assert AddressText(x.(a := 127, b := n)) == Quad(127, n, x.c, x.d) + "";
  }

  lemma CidrTextSplits(s: Cidr)
    ensures CidrText(s) == Quad(s.base.a, s.base.b, s.base.c, s.base.d) + ("/" + Decimal(s.prefix))
  {
    hide Quad, Decimal;
  }

  lemma RewriteCidr(s: Cidr, n: Octet)
    ensures Rewrite(CidrText(s), HostOctets(n)) == CidrText(s.(base := s.base.(a := 127, b := n)))
  {
    hide *;
    RewriteQuad(s.base.a, s.base.b, s.base.c, s.base.d, "/" + Decimal(s.prefix), n);
    CidrTextSplits(s);
    CidrTextSplits(s.(base := s.base.(a := 127, b := n)));
  }

  // ---------- NETMAP ----------

  /** How many of the leading ones of a mask of length p fall into octet i. */
  function Ones(p: nat, i: nat): (k: nat)
    ensures k <= 8
  {
    if p <= 8 * i then 0 else if p >= 8 * i + 8 then 8 else p - 8 * i
  }

  /** 2 to the number of host bits in an octet that has k mask bits. */
  function Span(k: nat): (w: nat)
    requires k <= 8
    ensures w > 0
  {
    [256, 128, 64, 32, 16, 8, 4, 2, 1][k]
  }

  /** An octet under the host mask: its bits below the k leading ones. */
  function HostBits(x: Octet, k: nat): Octet
    requires k <= 8
  {
    x % Span(k)
  }

  /** An octet under the network mask: its k leading bits. */
  function NetBits(x: Octet, k: nat): Octet
    requires k <= 8
  {
    x - x % Span(k)
  }

  /** Host bits of one octet joined to the network bits of another; the two parts share no bit, so or-ing adds. */
  function Merge(x: Octet, to: Octet, k: nat): (r: Octet)
    requires k <= 8
    ensures HostBits(r, k) == HostBits(x, k) && NetBits(r, k) == NetBits(to, k)
  {
    HostBits(x, k) + NetBits(to, k)
  }

  predicate InSubnet(x: Address, s: Cidr) {
    && NetBits(x.a, Ones(s.prefix, 0)) == NetBits(s.base.a, Ones(s.prefix, 0))
    && NetBits(x.b, Ones(s.prefix, 1)) == NetBits(s.base.b, Ones(s.prefix, 1))
    && NetBits(x.c, Ones(s.prefix, 2)) == NetBits(s.base.c, Ones(s.prefix, 2))
    && NetBits(x.d, Ones(s.prefix, 3)) == NetBits(s.base.d, Ones(s.prefix, 3))
  }

  /** The address a NETMAP target substitutes, (addr & hostmask) | (to & netmask), octet by octet. */
  function Netmap(x: Address, to: Cidr): Address {
    Address(
      Merge(x.a, to.base.a, Ones(to.prefix, 0)),
      Merge(x.b, to.base.b, Ones(to.prefix, 1)),
      Merge(x.c, to.base.c, Ones(to.prefix, 2)),
      Merge(x.d, to.base.d, Ones(to.prefix, 3)))
  }

  // ---------- the same as arithmetic on 32 bits ----------

  function Pow2(n: nat): (r: nat)
    ensures r > 0
  {
    if n == 0 then 1 else 2 * Pow2(n - 1)
  }

  /** An address as a number. */
  function Number(x: Address): nat {
    ((x.a * 256 + x.b) * 256 + x.c) * 256 + x.d
  }

  lemma SpanIsPow2(k: nat)
    requires k <= 8
    ensures Span(k) == Pow2(8 - k) && 256 % Span(k) == 0
  {
    assert Pow2(0) == 1 && Pow2(1) == 2 && Pow2(2) == 4 && Pow2(3) == 8 && Pow2(4) == 16;
    assert Pow2(5) == 32 && Pow2(6) == 64 && Pow2(7) == 128 && Pow2(8) == 256;
  }

  lemma {:induction false} Pow2Adds(m: nat, n: nat)
    ensures Pow2(m + n) == Pow2(m) * Pow2(n)
  {
    if m > 0 { Pow2Adds(m - 1, n); }
  }

  lemma RemainderUnique(n: nat, d: nat, q: nat, r: nat)
    requires d > 0 && r < d && n == q * d + r
    ensures n % d == r
  {
    var p := n / d;
    assert n == p * d + n % d;
    Multiples(p, q, d);
    Multiples(q, p, d);
  }

  lemma Multiples(p: nat, q: nat, d: nat)
    ensures p < q ==> p * d + d <= q * d
  {
    if p < q { assert (p + 1) * d <= q * d; }
  }

  /** Low digits pass through a remainder whose divisor is a multiple of their base. */
  lemma SplitMod(hi: nat, lo: nat, base: nat, w: nat)
    requires lo < base && w > 0
    ensures base * w > 0 && (hi * base + lo) % (base * w) == (hi % w) * base + lo
  {
    var q, r := hi / w, hi % w;
    Regrouped(q, w, r, base, lo);
    assert hi == q * w + r;
    RemainderUnique(hi * base + lo, base * w, q, r * base + lo);
  }

  lemma Regrouped(q: nat, w: nat, r: nat, base: nat, lo: nat)
    requires r < w && lo < base
    ensures (q * w + r) * base + lo == q * (base * w) + (r * base + lo) && r * base + lo < base * w
  {
    assert (r + 1) * base <= w * base;
  }

  lemma Collect(hi: nat, n: nat, w: nat, q: nat, r: nat)
    ensures hi * (n * w) + (q * w + r) == (hi * n + q) * w + r
  {
  }

  /** Higher octets vanish in a remainder that divides 256. */
  lemma HighOctetsVanish(hi: nat, o: Octet, w: nat)
    requires w > 0 && 256 % w == 0
    ensures (hi * 256 + o) % w == o % w
  {
    var n, q, r := 256 / w, o / w, o % w;
    assert 256 == n * w && o == q * w + r;
    Collect(hi, n, w, q, r);
    RemainderUnique(hi * 256 + o, w, hi * n + q, r);
  }

  /** The remainder of a number at the octet in which the mask ends. */
  lemma HostPart(hi: nat, o: Octet, lo: nat, base: nat, k: nat)
    requires k <= 8 && lo < base
    ensures base * Span(k) > 0 && ((hi * 256 + o) * base + lo) % (base * Span(k)) == HostBits(o, k) * base + lo
  {
    SpanIsPow2(k);
    SplitMod(hi * 256 + o, lo, base, Span(k));
    HighOctetsVanish(hi, o, Span(k));
  }

  /** One number made of the octets above, the octet in which the mask ends, and those below. */
  lemma Assemble(hi: nat, o: Octet, lo: nat, xhi: nat, x: Octet, xlo: nat, base: nat, k: nat)
    requires k <= 8 && lo < base && xlo < base
    ensures var n, m := (hi * 256 + o) * base + lo, (xhi * 256 + x) * base + xlo;
            base * Span(k) > 0 &&
            (hi * 256 + Merge(x, o, k)) * base + xlo == n - n % (base * Span(k)) + m % (base * Span(k))
  {
    HostPart(hi, o, lo, base, k);
    HostPart(xhi, x, xlo, base, k);
    var h, t := HostBits(x, k), HostBits(o, k);
    assert Merge(x, o, k) == h + o - t;
    hide *;
    Distribute(hi, o, lo, h, t, xlo, base);
  }

  lemma Distribute(hi: int, o: int, lo: int, h: int, t: int, xlo: int, base: int)
    ensures (hi * 256 + (h + o - t)) * base + xlo == ((hi * 256 + o) * base + lo) - (t * base + lo) + (h * base + xlo)
  {
  }

  lemma WholeOctets(x: Octet, to: Octet)
    ensures Merge(x, to, 0) == x && Merge(x, to, 8) == to
  {
    assert Span(0) == 256 && Span(8) == 1;
  }

  /** Octet by octet or as one 32-bit number, NETMAP keeps the host bits of the address and takes the network bits of the
      target. */
  lemma NetmapIsArithmetic(x: Address, to: Cidr)
    requires to.prefix <= 32
    ensures var span := Pow2(32 - to.prefix);
            Number(Netmap(x, to)) == Number(to.base) - Number(to.base) % span + Number(x) % span
  {
    var t := to.base;
    WholeOctets(x.a, t.a);
    WholeOctets(x.b, t.b);
    WholeOctets(x.c, t.c);
    WholeOctets(x.d, t.d);
    hide Merge, HostBits, NetBits, Span, Pow2;
    HostSpan(to.prefix);
    var p := to.prefix;
    if p <= 8 {
      Assemble(0, t.a, (t.b * 256 + t.c) * 256 + t.d, 0, x.a, (x.b * 256 + x.c) * 256 + x.d, 0x100_0000, p);
      assert Netmap(x, to) == Address(Merge(x.a, t.a, p), x.b, x.c, x.d);
    } else if p <= 16 {
      Assemble(t.a, t.b, t.c * 256 + t.d, x.a, x.b, x.c * 256 + x.d, 0x1_0000, p - 8);
      assert Netmap(x, to) == Address(t.a, Merge(x.b, t.b, p - 8), x.c, x.d);
    } else if p <= 24 {
      Assemble(t.a * 256 + t.b, t.c, t.d, x.a * 256 + x.b, x.c, x.d, 256, p - 16);
      assert Netmap(x, to) == Address(t.a, t.b, Merge(x.c, t.c, p - 16), x.d);
    } else {
      Assemble((t.a * 256 + t.b) * 256 + t.c, t.d, 0, (x.a * 256 + x.b) * 256 + x.c, x.d, 0, 1, p - 24);
      assert Netmap(x, to) == Address(t.a, t.b, t.c, Merge(x.d, t.d, p - 24));
    }
  }

  lemma NumbersDiffer(x: Address, y: Address)
    requires Number(x) == Number(y)
    ensures x == y
  {
  }

  /** Likewise for membership: an address is in a subnet exactly when the two have the same network bits. */
  lemma InSubnetIsArithmetic(x: Address, s: Cidr)
    requires s.prefix <= 32
    ensures var span := Pow2(32 - s.prefix);
            InSubnet(x, s) <==> Number(x) - Number(x) % span == Number(s.base) - Number(s.base) % span
  {
    NetmapIsArithmetic(x, s);
    assert InSubnet(x, s) <==> Netmap(x, s) == x by { hide Span, Pow2, Number; }
    hide Pow2, Netmap, InSubnet;
    if Number(Netmap(x, s)) == Number(x) { NumbersDiffer(Netmap(x, s), x); }
  }

  /** 2 to the number of host bits, seen from the octet in which the mask ends. */
  lemma HostSpan(p: nat)
    requires p <= 32
    ensures p <= 8 ==> Pow2(32 - p) == 0x100_0000 * Span(p)
    ensures 8 < p <= 16 ==> Pow2(32 - p) == 0x1_0000 * Span(p - 8)
    ensures 16 < p <= 24 ==> Pow2(32 - p) == 256 * Span(p - 16)
    ensures 24 < p ==> Pow2(32 - p) == 1 * Span(p - 24)
  {
    SpanIsPow2(0);
    Pow2Adds(8, 8);
    Pow2Adds(8, 16);
    hide Pow2;
    if p <= 8 { SpanIsPow2(p); Pow2Adds(24, 8 - p); }
    else if p <= 16 { SpanIsPow2(p - 8); Pow2Adds(16, 16 - p); }
    else if p <= 24 { SpanIsPow2(p - 16); Pow2Adds(8, 24 - p); }
    else { SpanIsPow2(p - 24); }
  }

  /** For every prefix length: the textual rewrite of an address of the subnet is what NETMAP computes from the
      textual rewrite of the subnet exactly when the address already carries the host bits of 127.n in its first
      two octets. */
  lemma RewriteAgreesWithNetmap(s: Cidr, x: Address, n: Octet)
    requires s.prefix <= 32 && InSubnet(x, s)
    ensures var to := ParseCidr(Rewrite(CidrText(s), HostOctets(n)));
            var ip := ParseAddress(Rewrite(AddressText(x), HostOctets(n)));
            && to.Some? && to.value.prefix == s.prefix && ip.Some?
            && (ip.value == Netmap(x, to.value) <==>
                HostBits(x.a, Ones(s.prefix, 0)) == HostBits(127, Ones(s.prefix, 0)) &&
                HostBits(x.b, Ones(s.prefix, 1)) == HostBits(n, Ones(s.prefix, 1)))
  {
    RewriteCidr(s, n);
    RewriteAddress(x, n);
    CidrRoundTrip(s.(base := s.base.(a := 127, b := n)));
    AddressRoundTrip(x.(a := 127, b := n));
  }

  /** The forwarder's case: with a prefix of 16 or longer the two always agree. */
  lemma RewriteIsNetmap(s: Cidr, x: Address, n: Octet)
    requires 16 <= s.prefix <= 32 && InSubnet(x, s)
    ensures var to := ParseCidr(Rewrite(CidrText(s), HostOctets(n)));
            var ip := ParseAddress(Rewrite(AddressText(x), HostOctets(n)));
            to.Some? && to.value.prefix == s.prefix && ip.Some? && ip.value == Netmap(x, to.value)
  {
    RewriteAgreesWithNetmap(s, x, n);
  }

  /** A shorter prefix is where it fails: 10.1.0.1 of 10.0.0.0/8, rewritten with octet 5. */
  lemma ShortPrefixDisagrees()
    ensures var s, x := Cidr(Address(10, 0, 0, 0), 8), Address(10, 1, 0, 1);
            var to := ParseCidr(Rewrite(CidrText(s), HostOctets(5)));
            var ip := ParseAddress(Rewrite(AddressText(x), HostOctets(5)));
            InSubnet(x, s) && to.Some? && to.value.prefix == 8 && ip.Some? && ip.value != Netmap(x, to.value)
  {
    var s, x := Cidr(Address(10, 0, 0, 0), 8), Address(10, 1, 0, 1);
    assert Ones(8, 0) == 8 && Ones(8, 1) == 0 && Ones(8, 2) == 0 && Ones(8, 3) == 0;
    assert Span(8) == 1 && Span(0) == 256;
    RewriteCidr(s, 5);
    RewriteAddress(x, 5);
    CidrRoundTrip(s.(base := s.base.(a := 127, b := 5)));
    AddressRoundTrip(x.(a := 127, b := 5));
  }

  // ---------- when two rewrites collide ----------

  /** The second octet that a rule's target text names. */
  function SecondOctet(target: string): Option<int> {
    match ParseCidr(target)
    case Some(n) => Some(n.base.b)
    case None => None
  }

  /** The target of a rule for an IPv4 subnet names the octet it was built with. */
  lemma TargetNamesOctet(docker: string, o: nat)
    requires ParseCidr(docker).Some? && o < 256
    ensures SecondOctet(Rewrite(docker, HostOctets(o))) == Some(o)
  {
    CidrTextUnique(docker);
    var s := ParseCidr(docker).value;
    var n: Octet := o;
    RewriteCidr(s, n);
    CidrRoundTrip(s.(base := s.base.(a := 127, b := n)));
  }

  /** Rewritten addresses are equal exactly when the octets and the last two octets of the addresses are. */
  lemma RewriteInjective(x: Address, y: Address, n: nat, m: nat)
    requires n < 256 && m < 256
    ensures Rewrite(AddressText(x), HostOctets(n)) == Rewrite(AddressText(y), HostOctets(m)) <==> n == m && x.c == y.c && x.d == y.d
  {
    var n': Octet, m': Octet := n, m;
    RewriteAddress(x, n');
    RewriteAddress(y, m');
    AddressRoundTrip(x.(a := 127, b := n'));
    AddressRoundTrip(y.(a := 127, b := m'));
  }

  /** Two addresses of one subnet of prefix 16 or longer differ in their last two octets. */
  lemma SameSubnetLowOctets(s: Cidr, x: Address, y: Address)
    requires 16 <= s.prefix <= 32 && InSubnet(x, s) && InSubnet(y, s)
    ensures x.a == y.a && x.b == y.b
  {
    assert Span(8) == 1;
  }
}
