/**
 `_unb64` of `api/auth.py` on every string: Python's non-strict decoder, with
 its table, its rules for padding and for characters outside the alphabet, told
 without its registers.
 */
module Base64Decode {
  import opened Wrappers
  import opened Jwt
  import opened Base64Url

  // ---------------------------------------------------------------- what counts as data

  /** The decoder's table: the URL-safe alphabet, and `+` and `/` for its last two characters. */
  lemma TableIs(c: char, v: sextet)
    ensures ValueOf(c) == Some(v) <==> c == ALPHABET[v] || (c == '+' && v == 62) || (c == '/' && v == 63)
  {
    CharIsInTable(v);
    CharRoundTrip(v);
    if ValueOf(c) == Some(v) {
      OneCharEach(c, v);
    }
  }

  lemma OneCharEach(c: char, v: sextet)
    requires ValueOf(c) == Some(v)
    ensures c == CharOf(v) || (c == '+' && v == 62) || (c == '/' && v == 63)
  {
  }

  /** The values of the characters of `t` that are in the table, in order. */
  function Values(t: string): seq<sextet> {
    if t == "" then []
    else
      var v := ValueOf(t[|t| - 1]);
      Values(t[..|t| - 1]) + (if v.Some? then [v.value] else [])
  }

  /** A pad, and no data after it. */
  predicate EndsPadded(t: string) {
    t != "" && (t[|t| - 1] == '=' || (ValueOf(t[|t| - 1]).None? && EndsPadded(t[..|t| - 1])))
  }

  /** The pad at `p` ends the input: the one pad a quad with three characters needs, or the second of two. */
  predicate EndsAt(t: string, p: nat) {
    && p < |t| && t[p] == '='
    && var n := |Values(t[..p])| % 4;
       n == 3 || (n == 2 && EndsPadded(t[..p]))
  }

  // ---------------------------------------------------------------- the bytes

  /** Four sextets are always the groups of three bytes. */
  lemma SomeBytes(v0: sextet, v1: sextet, v2: sextet, v3: sextet) returns (a: byte, b: byte, c: byte)
    ensures Group(a, b, c) == [v0, v1, v2, v3]
  {
    a := (v0 * 4 + v1 / 16) as byte;
    b := (v1 % 16 * 16 + v2 / 4) as byte;
    c := (v2 % 4 * 64 + v3) as byte;
    SplitsBack(v0, v1 / 16, 4);
    SplitsBack(v1 % 16, v2 / 4, 16);
    SplitsBack(v2 % 4, v3, 64);
  }

  lemma SplitsBack(hi: int, lo: int, w: int)
    requires hi >= 0 && 0 <= lo < w && (w == 4 || w == 16 || w == 64)
    ensures (hi * w + lo) / w == hi && (hi * w + lo) % w == lo
  {
  }

  /** The sextets without the bits that fill no byte. */
  function WholeBytes(vs: seq<sextet>): seq<sextet> {
    if |vs| >= 4 then vs[..4] + WholeBytes(vs[4..])
    else if |vs| == 3 then [vs[0], vs[1], vs[2] - vs[2] % 4]
    else if |vs| == 2 then [vs[0], vs[1] - vs[1] % 16]
    else []
  }

  lemma GroupOfTwo(v0: sextet, v1: sextet, out: seq<byte>) returns (a: byte)
    ensures Group(a, 0, 0)[..2] == [v0, v1 - v1 % 16]
    ensures var k := PushAll(Scan(0, 0, 0, out, false), [v0, v1]); k.out == out + [a] && k.quad == 2 && k.pads == 0
  {
    a := (v0 * 4 + v1 / 16) as byte;
    SplitsBack(v0, v1 / 16, 4);
    assert [v0, v1] == [v0] + ([v1] + []);
    PushCons(Scan(0, 0, 0, out, false), v0, [v1] + []);
    PushCons(Push(Scan(0, 0, 0, out, false), v0), v1, []);
  }

  lemma GroupOfThree(v0: sextet, v1: sextet, v2: sextet, out: seq<byte>) returns (a: byte, b: byte)
    ensures Group(a, b, 0)[..3] == [v0, v1, v2 - v2 % 4]
    ensures var k := PushAll(Scan(0, 0, 0, out, false), [v0, v1, v2]); k.out == out + [a, b] && k.quad == 3 && k.pads == 0
  {
    a := (v0 * 4 + v1 / 16) as byte;
    b := (v1 % 16 * 16 + v2 / 4) as byte;
    SplitsBack(v0, v1 / 16, 4);
    SplitsBack(v1 % 16, v2 / 4, 16);
    assert [v0, v1, v2] == [v0, v1, v2] + [];
    Push3(Scan(0, 0, 0, out, false), v0, v1, v2, []);
  }

  /** Fewer than four sextets put out one byte less than there are. */
  lemma PushFew(out: seq<byte>, vs: seq<sextet>) returns (data: seq<byte>)
    requires |vs| < 4
    ensures Sextets(data) == WholeBytes(vs)
    ensures var k := PushAll(Scan(0, 0, 0, out, false), vs);
      k.out == out + data && k.quad == |vs| && k.pads == 0 && !k.done
  {
    if |vs| == 3 {
      var a, b := GroupOfThree(vs[0], vs[1], vs[2], out);
      data := [a, b];
      assert vs == [vs[0], vs[1], vs[2]];
    } else if |vs| == 2 {
      var a := GroupOfTwo(vs[0], vs[1], out);
      data := [a];
      assert vs == [vs[0], vs[1]];
    } else {
      data := [];
      if |vs| == 1 {
        assert vs == [vs[0]] + [];
        PushCons(Scan(0, 0, 0, out, false), vs[0], []);
      }
    }
  }

  /** Reading any sextets puts out the bytes whose own sextets those are, up to the bits that fill no byte. */
  lemma {:induction false} PushAny(out: seq<byte>, vs: seq<sextet>) returns (data: seq<byte>)
    ensures Sextets(data) == WholeBytes(vs)
    ensures var k := PushAll(Scan(0, 0, 0, out, false), vs);
      k.out == out + data && k.quad == Rem4(|vs|) && k.pads == 0 && !k.done
    decreases |vs|
  {
    hide Group, PushAll;
    if |vs| >= 4 {
      var a, b, c := SomeBytes(vs[0], vs[1], vs[2], vs[3]);
      var rest := PushAny(out + [a, b, c], vs[4..]);
      data := [a, b, c] + rest;
      assert vs[..4] == Group(a, b, c);
      assert vs == Group(a, b, c) + vs[4..] && data[3..] == rest;
      assert out + [a, b, c] + rest == out + data;
      PushWholeGroup(out, a, b, c, vs[4..]);
    } else {
      data := PushFew(out, vs);
    }
  }

  // ---------------------------------------------------------------- the scan

  lemma {:induction false} ScanSnoc(k: Scan, t: string, c: char)
    requires ScanOk(k)
    ensures ScanAll(k, t + [c]) == ScanChar(ScanAll(k, t), c)
    decreases |t|
  {
    if t == "" {
      assert t + [c] == [c] && [c][1..] == "";
    } else {
      assert (t + [c])[0] == t[0] && (t + [c])[1..] == t[1..] + [c];
      ScanSnoc(ScanChar(k, t[0]), t[1..], c);
    }
  }

  lemma {:induction false} PushSnoc(k: Scan, vs: seq<sextet>, v: sextet)
    requires ScanOk(k)
    ensures PushAll(k, vs + [v]) == Push(PushAll(k, vs), v)
    decreases |vs|
  {
    if vs == [] {
      assert vs + [v] == [v] && [v][1..] == [];
    } else {
      assert (vs + [v])[0] == vs[0] && (vs + [v])[1..] == vs[1..] + [v];
      PushSnoc(Push(k, vs[0]), vs[1..], v);
    }
  }

  const START: Scan := Scan(0, 0, 0, [], false)

  /** The registers after data `vs`, with one pad seen or none. */
  ghost function After(vs: seq<sextet>, padded: bool): (k: Scan)
    ensures ScanOk(k)
  {
    var k := PushAll(START, vs);
    k.(pads := if k.quad == 2 && padded then 1 else 0)
  }

  /** What one more character does to registers with a pad seen or none, unless it ends the input. */
  lemma ScanRegisters(k: Scan, padded: bool, c: char)
    requires ScanOk(k) && k.pads == 0 && !k.done
    requires c == '=' ==> !(k.quad == 3 || (k.quad == 2 && padded))
    ensures var k' := ScanChar(k.(pads := if k.quad == 2 && padded then 1 else 0), c);
      match ValueOf(c)
      case Some(v) => k' == Push(k, v)
      case None => k' == k.(pads := if k.quad == 2 && (padded || c == '=') then 1 else 0)
  {
  }

  /** One more character that does not end the input. */
  lemma ScanNext(vs: seq<sextet>, padded: bool, c: char)
    requires var n := Rem4(|vs|); c == '=' ==> !(n == 3 || (n == 2 && padded))
    ensures ScanChar(After(vs, padded), c) ==
      match ValueOf(c)
      case Some(v) => After(vs + [v], false)
      case None => After(vs, padded || c == '=')
  {
    hide Push, PushAll, ScanChar, Rem4, Sextets, WholeBytes, ValueOf;
    var data := PushAny([], vs);
    ScanRegisters(PushAll(START, vs), padded, c);
    if ValueOf(c).Some? {
      var next := vs + [ValueOf(c).value];
      PushSnoc(START, vs, ValueOf(c).value);
      var more := PushAny([], next);
    }
  }

  /** While nothing ends it, the scan has read the data so far and remembers a pad at most. */
  lemma {:induction false} ScanIs(t: string)
    requires forall p: nat :: p < |t| ==> !EndsAt(t, p)
    ensures ScanAll(START, t) == After(Values(t), EndsPadded(t))
    decreases |t|
  {
    if t != "" {
      var (front, c) := (t[..|t| - 1], t[|t| - 1]);
      forall p: nat | p < |front| ensures !EndsAt(front, p) {
        assert !EndsAt(t, p) && front[..p] == t[..p];
      }
      ScanIs(front);
      assert t == front + [c];
      ScanSnoc(START, front, c);
      assert !EndsAt(t, |front|);
      Rem4IsMod(|Values(front)|);
      hide After, ScanAll;
      ScanNext(Values(front), EndsPadded(front), c);
      assert ValueOf(c).None? ==> Values(front) + [] == Values(front);
    } else {
      assert Values(t) == [];
    }
  }

  /** The pad that ends the input stops the scan where it is. */
  lemma ScanEnds(t: string, p: nat)
    requires EndsAt(t, p) && forall q: nat :: q < p ==> !EndsAt(t, q)
    ensures var k := ScanAll(START, t); k.done && k.out == PushAll(START, Values(t[..p])).out
  {
    var front := t[..p];
    forall q: nat | q < |front| ensures !EndsAt(front, q) {
      assert !EndsAt(t, q) && front[..q] == t[..q];
    }
    ScanIs(front);
    ScanSnoc(START, front, '=');
    var data := PushAny([], Values(front));
    Rem4IsMod(|Values(front)|);
    assert t == (front + ['=']) + t[p + 1..];
    ScanStops(START, front + ['='], t[p + 1..]);
  }

  lemma {:induction false} ScanStops(k: Scan, a: string, b: string)
    requires ScanOk(k) && ScanAll(k, a).done
    ensures ScanAll(k, a + b) == ScanAll(k, a)
    decreases |a| + |b|
  {
    if a != "" {
      assert (a + b)[0] == a[0] && (a + b)[1..] == a[1..] + b;
      ScanStops(ScanChar(k, a[0]), a[1..], b);
    } else {
      assert a + b == b;
      if b != "" {
        ScanStops(k, a, b[1..]);
        assert a + b[1..] == b[1..];
      }
    }
  }

  // ---------------------------------------------------------------- the result

  predicate Ascii(s: string) { forall i :: 0 <= i < |s| ==> s[i] as int < 128 }

  /** Where the input ends: at its first ending pad, or nowhere before its own end. */
  lemma FindEnd(t: string, n: nat) returns (end: nat)
    requires n <= |t|
    ensures end <= n && (forall p: nat :: p < end ==> !EndsAt(t, p)) && (end < n ==> EndsAt(t, end))
  {
    end := 0;
    while end < n && !EndsAt(t, end)
      invariant end <= n && forall p: nat :: p < end ==> !EndsAt(t, p)
    {
      end := end + 1;
    }
  }

  /**
   What decoding any string gives: the bytes of all its data up to the first pad
   that ends it, whatever other characters lie between; nothing, if there is a
   character that is not ASCII, or no such pad although the data do not fill up
   their last quad.
   */
  lemma DecodesAny(s: string) returns (end: nat, data: seq<byte>)
    ensures var t := s + Pads(|s|);
      && end <= |t| && (forall p: nat :: p < end ==> !EndsAt(t, p)) && (end < |t| ==> EndsAt(t, end))
      && Sextets(data) == WholeBytes(Values(t[..end]))
      && Unb64(s) == if Ascii(s) && (end < |t| || |Values(t)| % 4 == 0) then Some(data) else None
  {
    var t := s + Pads(|s|);
    end := FindEnd(t, |t|);
    data := PushAny([], Values(t[..end]));
    assert [] + data == data;
    assert Ascii(s) <==> forall i :: 0 <= i < |s| ==> s[i] < 128 as char;
    if end < |t| {
      ScanEnds(t, end);
    } else {
      assert t[..end] == t;
      ScanIs(t);
      Rem4IsMod(|Values(t)|);
    }
  }
}
