/** Dotted addresses: `itod` over its fixed buffer, the address `getOriginalDst` reads from the
    socket, and `GetFourField`, which takes such an address apart. */
module Dotted {
  import opened Options
  import opened Decimal

  datatype Fields = Fields(a: string, b: string, c: string, d: string)

  newtype byte = x: int | 0 <= x < 256

  const BUFFER: nat := 32

  /** The digits are written backwards from the end of the buffer. */
  method Itod(i: nat) returns (s: string)
    requires i < 0x1_0000_0000_0000_0000
    ensures s == Render(i)
    ensures Numeral(s) && Value(s) == i
  {
    hide Render, Pow10, Value;
    ValueOfRender(i);
    if i == 0 {
      RenderLast(0);
      return "0";
    }
    var b := new char[BUFFER];
    var bp := b.Length;
    var k: nat := i;
    Pow10At20();
    UpperWhole(i);
    while k > 0
      invariant 0 <= k
      invariant 12 <= bp <= b.Length && k < Pow10(bp - 12)
      invariant Render(i) == Upper(k) + b[bp..]
    {
      FitsOneLess(k, bp - 12);
      RenderLast(k);
      bp := bp - 1;
      ghost var tail := b[bp + 1..];
      b[bp] := Digit(k % 10);
      assert b[bp..] == [Digit(k % 10)] + tail;
      Onto(Upper(k / 10), Digit(k % 10), tail);
      k := k / 10;
    }
    s := b[bp..];
    assert [] + s == s;
  }

  /** The numeral of what is still to be written. */
  function Upper(k: nat): string {
    if k == 0 then [] else Render(k)
  }

  lemma Onto(u: string, c: char, t: string)
    ensures u + [c] + t == u + ([c] + t)
  {
  }

  lemma RenderLast(k: nat)
    ensures Render(k) == Upper(k / 10) + [Digit(k % 10)]
    ensures Render(0) == "0"
  {
  }

  lemma UpperWhole(i: nat)
    ensures Upper(i) + [] == if i == 0 then [] else Render(i)
    ensures Upper(0) == []
  {
  }

  lemma FitsOneLess(k: nat, n: nat)
    requires 0 < k < Pow10(n)
    ensures n > 0 && k / 10 < Pow10(n - 1)
  {
  }

  lemma Pow10At20()
    ensures Pow10(20) > 0xFFFF_FFFF_FFFF_FFFF
  {
    assert Pow10(5) == 100000;
    assert Pow10(10) == 10000000000;
    assert Pow10(15) == 1000000000000000;
  }

  /** strings.Index for one character: the first position, or -1. */
  function Index(s: string, c: char): (i: int)
    ensures -1 <= i < |s|
  {
    if s == [] then -1
    else if s[0] == c then 0
    else
      var j := Index(s[1..], c);
      if j == -1 then -1 else j + 1
  }

  lemma {:induction false} IndexIsFirst(s: string, c: char)
    ensures var i := Index(s, c);
            if i == -1 then c !in s else s[i] == c && c !in s[..i]
  {
    if s != [] && s[0] != c {
      IndexIsFirst(s[1..], c);
      var j := Index(s[1..], c);
      assert j >= 0 ==> s[..j + 1] == [s[0]] + s[1..][..j];
    }
  }

  function Dots(s: string): nat {
    if s == [] then 0 else (if s[0] == '.' then 1 else 0) + Dots(s[1..])
  }

  lemma {:induction false} DotsAppend(s: string, t: string)
    ensures Dots(s + t) == Dots(s) + Dots(t)
  {
    if s == [] {
      assert s + t == t;
    } else {
      assert (s + t)[1..] == s[1..] + t;
      DotsAppend(s[1..], t);
    }
  }

  lemma {:induction false} NoDots(s: string)
    ensures Dots(s) == 0 <==> DotFree(s)
  {
    if s != [] {
      assert s == [s[0]] + s[1..];
      NoDots(s[1..]);
    }
  }

  function WithDot(x: string, y: string): string {
    x + "." + y
  }

  lemma WithDotParts(x: string, y: string)
    ensures |WithDot(x, y)| == |x| + 1 + |y|
    ensures WithDot(x, y)[..|x|] == x && WithDot(x, y)[|x|] == '.' && WithDot(x, y)[|x| + 1..] == y
    ensures Dots(WithDot(x, y)) == Dots(x) + 1 + Dots(y)
  {
    DotsAppend(x + ".", y);
    DotsAppend(x, ".");
    assert Dots(".") == 1 by { assert "."[1..] == []; }
  }

  /** Cutting a string at its first dot. */
  lemma Cut(s: string)
    ensures var i := Index(s, '.');
            && (i == -1 <==> Dots(s) == 0)
            && (i >= 0 ==> s == WithDot(s[..i], s[i + 1..]) && Dots(s) == 1 + Dots(s[i + 1..]) && DotFree(s[..i]))
  {
    NoDots(s);
    IndexIsFirst(s, '.');
    var i := Index(s, '.');
    if i >= 0 {
      assert s == s[..i] + "." + s[i + 1..];
      hide Dots;
      NoDots(s[..i]);
      WithDotParts(s[..i], s[i + 1..]);
    }
  }

  function Join(f: Fields): string {
    WithDot(f.a, WithDot(f.b, WithDot(f.c, f.d)))
  }

  predicate DotFree(s: string) {
    '.' !in s
  }

  /** The first three fields hold no dot; the fourth is all the rest. */
  predicate Split(f: Fields) {
    DotFree(f.a) && DotFree(f.b) && DotFree(f.c)
  }

  /** One cut at the first dot; not `ok` where there is none and the slice `s[:-1]` panics. */
  method TakeField(s: string) returns (ok: bool, head: string, tail: string)
    ensures ok <==> Dots(s) > 0
    ensures ok ==> s == WithDot(head, tail) && Dots(s) == 1 + Dots(tail) && DotFree(head)
  {
    hide Dots, WithDot, Index, DotFree;
    var index := Index(s, '.');
    Cut(s);
    if index == -1 {
      return false, "", "";
    }
    return true, s[..index], s[index + 1..];
  }

  /** `None` where a dot is missing. */
  method GetFourField(ipV4: string) returns (r: Option<Fields>)
    ensures r.Some? <==> Dots(ipV4) >= 3
    ensures r.Some? ==> Join(r.value) == ipV4 && Split(r.value)
    ensures r.Some? ==> var f := r.value; ipV4 == f.a + "." + f.b + "." + f.c + "." + f.d
  {
    hide Dots, WithDot, DotFree;
    var rest := ipV4;
    var ok, a, b, c, d;
    ok, a, rest := TakeField(rest);
    if !ok {
      return None;
    }
    ok, b, rest := TakeField(rest);
    if !ok {
      return None;
    }
    ok, c, d := TakeField(rest);
    if !ok {
      return None;
    }
    r := Some(Fields(a, b, c, d));
    Joined(r.value);
  }

  lemma {:induction false} IndexWithDot(x: string, y: string)
    requires DotFree(x)
    ensures Index(WithDot(x, y), '.') == |x|
  {
    if x != [] {
      assert WithDot(x, y)[1..] == WithDot(x[1..], y);
      IndexWithDot(x[1..], y);
    }
  }

  lemma SameHead(a: string, s: string, b: string, t: string)
    requires WithDot(a, s) == WithDot(b, t) && DotFree(a) && DotFree(b)
    ensures a == b && s == t
  {
    hide WithDot, Index;
    IndexWithDot(a, s);
    IndexWithDot(b, t);
    WithDotParts(a, s);
    WithDotParts(b, t);
  }

  /** Only one way to take a string apart. */
  lemma SplitUnique(f: Fields, g: Fields)
    requires Split(f) && Split(g) && Join(f) == Join(g)
    ensures f == g
  {
    hide WithDot;
    SameHead(f.a, WithDot(f.b, WithDot(f.c, f.d)), g.a, WithDot(g.b, WithDot(g.c, g.d)));
    SameHead(f.b, WithDot(f.c, f.d), g.b, WithDot(g.c, g.d));
    SameHead(f.c, f.d, g.c, g.d);
  }

  lemma NumeralHasNoDot(n: nat)
    ensures DotFree(Render(n))
  {
    ValueOfRender(n);
  }

  /** The four parts `GetFourField` finds again. */
  function Quad(m: seq<byte>): Fields
    requires |m| == 4
  {
    Fields(Render(m[0] as nat), Render(m[1] as nat), Render(m[2] as nat), Render(m[3] as nat))
  }

  /** The address and port of the connection's first destination, from the socket option's bytes. */
  method OriginalDst(multiaddr: seq<byte>) returns (ipv4: string, port: nat)
    requires |multiaddr| == 16
    ensures ipv4 == Join(Quad(multiaddr[4..8]))
    ensures port < 0x1_0000
    ensures port / 256 == multiaddr[2] as nat && port % 256 == multiaddr[3] as nat
  {
    var a := Itod(multiaddr[4] as nat);
    var b := Itod(multiaddr[5] as nat);
    var c := Itod(multiaddr[6] as nat);
    var d := Itod(multiaddr[7] as nat);
    ipv4 := a + "." + b + "." + c + "." + d;
    Joined(Fields(a, b, c, d));
    port := 256 * (multiaddr[2] as nat) + multiaddr[3] as nat;
  }

  lemma Joined(f: Fields)
    ensures f.a + "." + f.b + "." + f.c + "." + f.d == Join(f)
  {
    assert f.a + "." + f.b + "." + f.c + "." + f.d == f.a + "." + (f.b + "." + (f.c + "." + f.d));
  }

  /** An address from the socket comes apart into the numerals of its four bytes. */
  method SplitOriginalDst(multiaddr: seq<byte>) returns (r: Option<Fields>)
    requires |multiaddr| == 16
    ensures r == Some(Quad(multiaddr[4..8]))
    ensures var f := r.value;
            && Numeral(f.a) && Numeral(f.b) && Numeral(f.c) && Numeral(f.d)
            && Value(f.a) == multiaddr[4] as nat && Value(f.b) == multiaddr[5] as nat
            && Value(f.c) == multiaddr[6] as nat && Value(f.d) == multiaddr[7] as nat
  {
    var ipv4, _ := OriginalDst(multiaddr);
    r := GetFourField(ipv4);
    var q := Quad(multiaddr[4..8]);
    NumeralHasNoDot(multiaddr[4] as nat);
    NumeralHasNoDot(multiaddr[5] as nat);
    NumeralHasNoDot(multiaddr[6] as nat);
    ThreeDots(q);
    SplitUnique(q, r.value);
    ValueOfRender(multiaddr[4] as nat);
    ValueOfRender(multiaddr[5] as nat);
    ValueOfRender(multiaddr[6] as nat);
    ValueOfRender(multiaddr[7] as nat);
  }

  lemma ThreeDots(f: Fields)
    ensures Dots(Join(f)) >= 3
  {
    hide WithDot, Dots;
    WithDotParts(f.c, f.d);
    WithDotParts(f.b, WithDot(f.c, f.d));
    WithDotParts(f.a, WithDot(f.b, WithDot(f.c, f.d)));
  }

  /** Different bytes give different addresses. */
  lemma AddressInjective(m: seq<byte>, n: seq<byte>)
    requires |m| == 4 && |n| == 4 && Join(Quad(m)) == Join(Quad(n))
    ensures m == n
  {
    forall i | 0 <= i < 3
      ensures DotFree(Render(m[i] as nat)) && DotFree(Render(n[i] as nat))
    {
      NumeralHasNoDot(m[i] as nat);
      NumeralHasNoDot(n[i] as nat);
    }
    SplitUnique(Quad(m), Quad(n));
    RenderInjective(m[0] as nat, n[0] as nat);
    RenderInjective(m[1] as nat, n[1] as nat);
    RenderInjective(m[2] as nat, n[2] as nat);
    RenderInjective(m[3] as nat, n[3] as nat);
  }
}
