/** `_ip_range` of `api/policy.py`: the /24 or /48 range an address is counted under. */
module IpRange {
  import opened Text

  function RangeOf(ip: string): string {
    if ':' in ip then
      var parts := Split(ip, ':');
      Join(Groups(parts), ':') + "::/48"
    else
      var parts := Split(ip, '.');
      if |parts| == 4 then Join(parts[..3], '.') + ".0/24"
      else if ip == "" then "unknown" else ip
  }

  /** The slice `[:3]`. */
  function Groups(parts: seq<string>): (r: seq<string>)
    requires |parts| >= 1
    ensures 1 <= |r| <= 3
  {
    if |parts| <= 3 then parts else parts[..3]
  }

  datatype Shape = Colons(groups: seq<string>) | Quad(net: seq<string>) | Other(text: string)

  /** What a range identifies: the leading groups of the address, as they are spelled. */
  function ShapeOf(ip: string): Shape {
    if ':' in ip then Colons(Groups(Split(ip, ':')))
    else if |Split(ip, '.')| == 4 then Quad(Split(ip, '.')[..3])
    else Other(if ip == "" then "unknown" else ip)
  }

  // ---------------------------------------------------------------- strings

  lemma {:induction false} JoinConcat(parts: seq<string>, sep: char, more: seq<string>)
    requires |parts| >= 1 && |more| >= 1
    ensures Join(parts + more, sep) == Join(parts, sep) + [sep] + Join(more, sep)
  {
    var all := parts + more;
    assert all[1..] == parts[1..] + more;
    if |parts| > 1 {
      JoinConcat(parts[1..], sep, more);
      assert Join(all, sep) == parts[0] + [sep] + (Join(parts[1..], sep) + [sep] + Join(more, sep));
    } else {
      assert all[1..] == more;
    }
  }

  lemma {:induction false} SplitLacks(s: string, sep: char, c: char)
    requires Lacks(s, c)
    ensures forall i :: 0 <= i < |Split(s, sep)| ==> Lacks(Split(s, sep)[i], c)
    decreases |s|
  {
    if s != "" {
      SplitLacks(s[1..], sep, c);
    }
  }

  lemma {:induction false} JoinLacks(parts: seq<string>, sep: char, c: char)
    requires |parts| >= 1 && c != sep && forall i :: 0 <= i < |parts| ==> Lacks(parts[i], c)
    ensures Lacks(Join(parts, sep), c)
  {
    if |parts| > 1 {
      JoinLacks(parts[1..], sep, c);
    }
  }

  // ---------------------------------------------------------------- what a range determines

  /** Splitting the range gives back the groups it was built from. */
  lemma ColonRange(ip: string)
    requires ':' in ip
    ensures Split(RangeOf(ip), ':') == Groups(Split(ip, ':')) + ["", "/48"]
    ensures ':' in RangeOf(ip)
  {
    JoinInvertsSplit(ip, ':');
    var groups := Groups(Split(ip, ':'));
    JoinConcat(groups, ':', ["", "/48"]);
    assert [':'] + Join(["", "/48"], ':') == "::/48";
    assert RangeOf(ip) == Join(groups + ["", "/48"], ':');
    SplitInvertsJoin(groups + ["", "/48"], ':');
    assert RangeOf(ip)[|Join(groups, ':')|] == ':';
  }

  lemma QuadText(net: seq<string>)
    requires |net| == 3 && forall i :: 0 <= i < 3 ==> Lacks(net[i], '.') && Lacks(net[i], ':')
    ensures Split(Join(net, '.') + ".0/24", '.') == net + ["0/24"]
    ensures Lacks(Join(net, '.') + ".0/24", ':')
  {
    var all := net + ["0/24"];
    JoinConcat(net, '.', ["0/24"]);
    assert Join(["0/24"], '.') == "0/24";
    hide Split, Join;
    assert Join(net, '.') + ['.'] + "0/24" == Join(net, '.') + ".0/24";
    SplitInvertsJoin(all, '.');
    JoinLacks(all, '.', ':');
  }

  lemma QuadRange(ip: string)
    requires ':' !in ip && |Split(ip, '.')| == 4
    ensures Split(RangeOf(ip), '.') == Split(ip, '.')[..3] + ["0/24"]
    ensures ':' !in RangeOf(ip)
  {
    var net := Split(ip, '.')[..3];
    hide Split, Join;
    JoinInvertsSplit(ip, '.');
    SplitLacks(ip, '.', ':');
    QuadText(net);
  }

  lemma OtherRange(ip: string)
    requires ':' !in ip && |Split(ip, '.')| != 4
    ensures ':' !in RangeOf(ip) && |Split(RangeOf(ip), '.')| != 4
  {
    if ip == "" {
      SplitInvertsJoin(["unknown"], '.');
    }
  }

  /** The range determines the shape it stands for. */
  lemma RangeHasShape(ip: string)
    ensures ShapeOf(ip) == (
      var r := RangeOf(ip);
      if ':' in r && |Split(r, ':')| >= 2 then Colons(Split(r, ':')[..|Split(r, ':')| - 2])
      else if |Split(r, '.')| == 4 then Quad(Split(r, '.')[..3])
      else Other(r))
  {
    if ':' in ip {
      ColonRange(ip);
    } else if |Split(ip, '.')| == 4 {
      QuadRange(ip);
    } else {
      OtherRange(ip);
    }
  }

  /**
   Two addresses are counted together exactly when they spell the leading
   three groups of the same notation alike; anything else is its own range, except
   that the empty address shares the range of the literal "unknown".
   */
  lemma SameRangeIffSameSpelling(a: string, b: string)
    ensures RangeOf(a) == RangeOf(b) <==> ShapeOf(a) == ShapeOf(b)
  {
    RangeHasShape(a);
    RangeHasShape(b);
  }

  // ---------------------------------------------------------------- networks

  function Digit(d: nat): (c: char)
    requires d < 16
    ensures c != ':' && c != '.'
  {
    "0123456789abcdef"[d]
  }

  function DigitValue(c: char): int { if c <= '9' then c as int - '0' as int else c as int - 'a' as int + 10 }

  lemma DigitRoundTrip(d: nat)
    requires d < 16
    ensures DigitValue(Digit(d)) == d
  {
  }

  predicate Radix(base: nat) { base == 10 || base == 16 }

  /** A number without leading zeros, in lower case. */
  function Digits(n: nat, base: nat): (s: string)
    requires Radix(base)
    ensures s != "" && Lacks(s, ':') && Lacks(s, '.')
  {
    if n < base then [Digit(n)] else Digits(n / base, base) + [Digit(n % base)]
  }

  function Number(s: string, base: nat): int {
    if s == "" then 0 else Number(s[..|s| - 1], base) * base + DigitValue(s[|s| - 1])
  }

  lemma {:induction false} NumberInvertsDigits(n: nat, base: nat)
    requires Radix(base)
    ensures Number(Digits(n, base), base) == n
    decreases n
  {
    var s := Digits(n, base);
    DigitRoundTrip(n % base);
    if n < base {
      assert s[..0] == "";
    } else {
      assert s[..|s| - 1] == Digits(n / base, base);
      NumberInvertsDigits(n / base, base);
    }
  }

  /** The groups of an address, each spelled that way. */
  function Spelling(groups: seq<nat>, base: nat): (r: seq<string>)
    requires Radix(base)
    ensures |r| == |groups| && forall i :: 0 <= i < |r| ==> r[i] == Digits(groups[i], base)
  {
    seq(|groups|, i requires 0 <= i < |groups| => Digits(groups[i], base))
  }

  lemma SameGroups(a: seq<nat>, b: seq<nat>, base: nat)
    requires Radix(base) && |a| >= 3 && |b| >= 3
    ensures Spelling(a, base)[..3] == Spelling(b, base)[..3] <==> a[..3] == b[..3]
  {
    var (x, y) := (Spelling(a, base), Spelling(b, base));
    forall i | 0 <= i < 3 ensures x[i] == y[i] <==> a[i] == b[i] {
      NumberInvertsDigits(a[i], base);
      NumberInvertsDigits(b[i], base);
    }
    FirstThree(x, y);
    FirstThree(a, b);
  }

  lemma FirstThree<T>(x: seq<T>, y: seq<T>)
    requires |x| >= 3 && |y| >= 3
    ensures x[..3] == y[..3] <==> x[0] == y[0] && x[1] == y[1] && x[2] == y[2]
  {
    assert x[..3] == [x[0], x[1], x[2]] && y[..3] == [y[0], y[1], y[2]];
  }

  function Ipv6(groups: seq<nat>): string
    requires |groups| == 8
  {
    Join(Spelling(groups, 16), ':')
  }

  function Ipv4(parts: seq<nat>): string
    requires |parts| == 4
  {
    Join(Spelling(parts, 10), '.')
  }

  lemma {:induction false} JoinHasSeparator(parts: seq<string>, sep: char)
    requires |parts| >= 2
    ensures sep in Join(parts, sep)
  {
    assert Join(parts, sep)[|parts[0]|] == sep;
  }

  /** Written out in full, two IPv6 addresses share a range exactly when they share their /48. */
  lemma WrittenOutIpv6(a: seq<nat>, b: seq<nat>)
    requires |a| == |b| == 8
    ensures RangeOf(Ipv6(a)) == RangeOf(Ipv6(b)) <==> a[..3] == b[..3]
  {
    Spelled(Spelling(a, 16), Spelling(b, 16));
    SameGroups(a, b, 16);
  }

  /** Two dotted quads without leading zeros share a range exactly when they share their /24. */
  lemma WrittenOutIpv4(a: seq<nat>, b: seq<nat>)
    requires |a| == |b| == 4
    ensures RangeOf(Ipv4(a)) == RangeOf(Ipv4(b)) <==> a[..3] == b[..3]
  {
    SplitInvertsJoin(Spelling(a, 10), '.');
    SplitInvertsJoin(Spelling(b, 10), '.');
    JoinLacks(Spelling(a, 10), '.', ':');
    JoinLacks(Spelling(b, 10), '.', ':');
    SameRangeIffSameSpelling(Ipv4(a), Ipv4(b));
    SameGroups(a, b, 10);
  }

  /** The text of an address with "::" for its groups i to j - 1, split at colons. */
  function CompressedParts(groups: seq<nat>, i: nat, j: nat): (r: seq<string>)
    requires |groups| == 8 && i < j <= 8
    ensures |r| >= 3 && forall k :: 0 <= k < |r| ==> Lacks(r[k], ':')
  {
    var all := Spelling(groups, 16);
    (if i == 0 then [""] else []) + all[..i] + [""] + (if j == 8 then [""] else []) + all[j..]
  }

  function Compressed(groups: seq<nat>, i: nat, j: nat): string
    requires |groups| == 8 && i < j <= 8
  {
    Join(CompressedParts(groups, i, j), ':')
  }

  /**
   An address and its compressed form get one range exactly when the "::"
   stands behind the third group: leading, inner and trailing ones alike.
   */
  lemma CompressionKeepsRangeIff(groups: seq<nat>, i: nat, j: nat)
    requires |groups| == 8 && i < j <= 8
    ensures RangeOf(Compressed(groups, i, j)) == RangeOf(Ipv6(groups)) <==> i >= 3
  {
    var (x, y) := (CompressedParts(groups, i, j), Spelling(groups, 16));
    hide RangeOf, Join;
    Spelled(x, y);
    FirstThree(x, y);
    if i >= 3 {
      assert x[0] == y[0] && x[1] == y[1] && x[2] == y[2];
    } else {
      assert x[i] == "" && y[i] != "";
    }
  }

  /**
   The other way round: with the "::" behind the first group, the range is that
   group and the first one after the "::".  So addresses that agree on these two
   share a range, and if one of them compresses a single group and the other
   more, they share their /48 only if that next group is zero.
   */
  lemma CompressionMergesNetworks(a: seq<nat>, b: seq<nat>, j: nat)
    requires |a| == |b| == 8 && 3 <= j < 8 && a[0] == b[0] && a[j] == b[2]
    requires a[1] == b[1] == 0 && a[2] == 0
    ensures RangeOf(Compressed(a, 1, j)) == RangeOf(Compressed(b, 1, 2))
    ensures a[..3] == b[..3] <==> b[2] == 0
  {
    var (x, y) := (CompressedParts(a, 1, j), CompressedParts(b, 1, 2));
    hide RangeOf, Join;
    Spelled(x, y);
    FirstThree(x, y);
    FirstThree(a, b);
  }

  lemma ShapeOfColons(a: seq<string>)
    requires |a| >= 3 && forall i :: 0 <= i < |a| ==> Lacks(a[i], ':')
    ensures ShapeOf(Join(a, ':')) == Colons(a[..3])
  {
    hide Split, Join;
    SplitInvertsJoin(a, ':');
    JoinHasSeparator(a, ':');
    assert |a| == 3 ==> a[..3] == a;
  }

  lemma Spelled(a: seq<string>, b: seq<string>)
    requires |a| >= 3 && |b| >= 3
    requires (forall i :: 0 <= i < |a| ==> Lacks(a[i], ':')) && (forall i :: 0 <= i < |b| ==> Lacks(b[i], ':'))
    ensures RangeOf(Join(a, ':')) == RangeOf(Join(b, ':')) <==> a[..3] == b[..3]
  {
    hide RangeOf, Join, ShapeOf;
    ShapeOfColons(a);
    ShapeOfColons(b);
    SameRangeIffSameSpelling(Join(a, ':'), Join(b, ':'));
  }
}
