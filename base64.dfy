/**
 * `btoa`/`atob`: base64 with the alphabet and `=` padding of section 4 of
 * RFC 4648, applied to a string whose characters are all code points below
 * 256 (each character is one byte). `btoa` throws `InvalidCharacterError`
 * on any other character; this is `None` here.
 *
 * Encoding goes bytes -> 6-bit values (64 standing for the pad) -> characters;
 * decoding goes back the same way, so each stage has its own inverse.
 */
module Base64 {
  import opened Wrappers
  import Text

  const Pad: nat := 64

  predicate IsLatin1(s: string)
  {
    forall i :: 0 <= i < |s| ==> s[i] as int < 256
  }

  predicate IsSym(c: char)
  {
    Text.IsAlnum(c) || c == '+' || c == '/'
  }

  /** The character of the alphabet for a 6-bit value, or `=` for `Pad`. */
  function Sym(v: nat): (c: char)
    requires v <= Pad
    ensures v < Pad ==> IsSym(c)
    ensures v == Pad ==> c == '='
  {
    if v < 26 then ('A' as int + v) as char
    else if v < 52 then ('a' as int + (v - 26)) as char
    else if v < 62 then ('0' as int + (v - 52)) as char
    else if v == 62 then '+'
    else if v == 63 then '/'
    else '='
  }

  /** The 6-bit value of an alphabet character, `Pad` for `=`, and 65 for anything else. */
  function Val(c: char): (v: nat)
    ensures v <= Pad + 1
    ensures v < Pad <==> IsSym(c)
  {
    if 'A' <= c <= 'Z' then c as int - 'A' as int
    else if 'a' <= c <= 'z' then c as int - 'a' as int + 26
    else if '0' <= c <= '9' then c as int - '0' as int + 52
    else if c == '+' then 62
    else if c == '/' then 63
    else if c == '=' then Pad
    else Pad + 1
  }

  lemma SymVal(v: nat)
    requires v <= Pad
    ensures Val(Sym(v)) == v
  {
  }

  function Syms(vs: seq<nat>): (r: string)
    requires forall i :: 0 <= i < |vs| ==> vs[i] <= Pad
    ensures |r| == |vs|
    ensures forall i :: 0 <= i < |r| ==> r[i] == Sym(vs[i])
  {
    if vs == [] then [] else [Sym(vs[0])] + Syms(vs[1..])
  }

  function Vals(e: string): (r: seq<nat>)
    ensures |r| == |e|
    ensures forall i :: 0 <= i < |r| ==> r[i] == Val(e[i])
  {
    if e == [] then [] else [Val(e[0])] + Vals(e[1..])
  }

  lemma ValsSyms(vs: seq<nat>)
    requires forall i :: 0 <= i < |vs| ==> vs[i] <= Pad
    ensures Vals(Syms(vs)) == vs
  {
    forall i | 0 <= i < |vs|
      ensures Vals(Syms(vs))[i] == vs[i]
    {
      SymVal(vs[i]);
    }
  }

  /** Three bytes become four 6-bit values. */
  function Sextets(x: nat, y: nat, z: nat): (r: seq<nat>)
    requires x < 256 && y < 256 && z < 256
    ensures |r| == 4 && r[0] < Pad && r[1] < Pad && r[2] < Pad && r[3] < Pad
  {
    [x / 4, x % 4 * 16 + y / 16, y % 16 * 4 + z / 64, z % 64]
  }

  /** Four 6-bit values become three bytes. */
  function Octets(v0: nat, v1: nat, v2: nat, v3: nat): seq<nat>
  {
    [v0 * 4 + v1 / 16, v1 % 16 * 16 + v2 / 4, v2 % 4 * 64 + v3]
  }

  lemma OctetsSextets(x: nat, y: nat, z: nat)
    requires x < 256 && y < 256 && z < 256
    ensures var v := Sextets(x, y, z); Octets(v[0], v[1], v[2], v[3]) == [x, y, z]
  {
    assert (x % 4 * 16 + y / 16) / 16 == x % 4;
    assert (x % 4 * 16 + y / 16) % 16 == y / 16;
    assert (y % 16 * 4 + z / 64) / 4 == y % 16;
    assert (y % 16 * 4 + z / 64) % 4 == z / 64;
  }

  predicate AllBytes(b: seq<nat>)
  {
    forall i :: 0 <= i < |b| ==> b[i] < 256
  }

  /** The 6-bit values (with `Pad`s) that encode a byte sequence. */
  function EncodeBytes(b: seq<nat>): (r: seq<nat>)
    requires AllBytes(b)
    ensures forall i :: 0 <= i < |r| ==> r[i] <= Pad
    ensures |r| == 4 * ((|b| + 2) / 3)
  {
    if |b| == 0 then []
    else if |b| == 1 then Sextets(b[0], 0, 0)[..2] + [Pad, Pad]
    else if |b| == 2 then Sextets(b[0], b[1], 0)[..3] + [Pad]
    else Sextets(b[0], b[1], b[2]) + EncodeBytes(b[3..])
  }

  /** The bytes that a sequence of 6-bit values (with `Pad`s) decodes to, if it is well formed. */
  function DecodeValues(v: seq<nat>): (r: Option<seq<nat>>)
  {
    if v == [] then Some([])
    else if |v| < 4 || v[0] >= Pad || v[1] >= Pad then None
    else if |v| == 4 && v[2] == Pad && v[3] == Pad then Some(Octets(v[0], v[1], 0, 0)[..1])
    else if |v| == 4 && v[2] < Pad && v[3] == Pad then Some(Octets(v[0], v[1], v[2], 0)[..2])
    else if v[2] < Pad && v[3] < Pad then
      match DecodeValues(v[4..])
      case None => None
      case Some(rest) => Some(Octets(v[0], v[1], v[2], v[3]) + rest)
    else None
  }

  lemma {:induction false} DecodeEncodeBytes(b: seq<nat>)
    requires AllBytes(b)
    ensures DecodeValues(EncodeBytes(b)) == Some(b)
    decreases |b|
  {
    if |b| == 1 {
      OctetsSextets(b[0], 0, 0);
      var v := Sextets(b[0], 0, 0);
      assert v[2] == 0 && v[3] == 0;
      var e := EncodeBytes(b);
      assert e == v[..2] + [Pad, Pad];
      assert DecodeValues(e) == Some(Octets(v[0], v[1], 0, 0)[..1]);
      assert Octets(v[0], v[1], 0, 0) == [b[0], 0, 0];
      assert [b[0], 0, 0][..1] == [b[0]] == b;
    } else if |b| == 2 {
      OctetsSextets(b[0], b[1], 0);
      var v := Sextets(b[0], b[1], 0);
      assert v[3] == 0;
      var e := EncodeBytes(b);
      assert e == v[..3] + [Pad];
      assert DecodeValues(e) == Some(Octets(v[0], v[1], v[2], 0)[..2]);
      assert Octets(v[0], v[1], v[2], 0) == [b[0], b[1], 0];
      assert [b[0], b[1], 0][..2] == [b[0], b[1]] == b;
    } else if |b| >= 3 {
      DecodeEncodeBytes(b[3..]);
      OctetsSextets(b[0], b[1], b[2]);
      var v := EncodeBytes(b);
      assert v[4..] == EncodeBytes(b[3..]);
      assert b == [b[0], b[1], b[2]] + b[3..];
    }
  }

  function Codes(s: string): (r: seq<nat>)
    ensures |r| == |s|
    ensures forall i :: 0 <= i < |s| ==> r[i] == s[i] as int
  {
    if s == [] then [] else [s[0] as int] + Codes(s[1..])
  }

  function Chars(b: seq<nat>): (r: string)
    requires AllBytes(b)
    ensures |r| == |b|
    ensures forall i :: 0 <= i < |b| ==> r[i] as int == b[i]
  {
    if b == [] then [] else [b[0] as char] + Chars(b[1..])
  }

  lemma CharsCodes(s: string)
    requires IsLatin1(s)
    ensures AllBytes(Codes(s)) && Chars(Codes(s)) == s
  {
  }

  /** `btoa(s)`: the base64 text, or `None` where `btoa` throws. */
  function Btoa(s: string): (r: Option<string>)
    ensures r.Some? <==> IsLatin1(s)
    ensures r.Some? ==> |r.value| == 4 * ((|s| + 2) / 3)
    ensures r.Some? ==> forall i :: 0 <= i < |r.value| ==> IsSym(r.value[i]) || r.value[i] == '='
  {
    if IsLatin1(s) then Some(Syms(EncodeBytes(Codes(s)))) else None
  }

  /** `atob(e)`: the decoded text, or `None` where `atob` throws. */
  function Atob(e: string): (r: Option<string>)
  {
    match DecodeValues(Vals(e))
    case None => None
    case Some(b) => if AllBytes(b) then Some(Chars(b)) else None
  }

  /** Decoding what `btoa` produced gives back the original text. */
  lemma AtobBtoa(s: string)
    requires IsLatin1(s)
    ensures Atob(Btoa(s).value) == Some(s)
  {
    var b := Codes(s);
    ValsSyms(EncodeBytes(b));
    DecodeEncodeBytes(b);
    CharsCodes(s);
  }

  lemma CodesConcat(a: string, b: string)
    ensures Codes(a + b) == Codes(a) + Codes(b)
  {
  }

  lemma {:induction false} EncodeConcat(a: seq<nat>, b: seq<nat>)
    requires AllBytes(a) && AllBytes(b) && |a| % 3 == 0
    ensures AllBytes(a + b)
    ensures EncodeBytes(a + b) == EncodeBytes(a) + EncodeBytes(b)
    decreases |a|
  {
    if a == [] {
      assert a + b == b;
    } else {
      var ab := a + b;
      assert ab[0] == a[0] && ab[1] == a[1] && ab[2] == a[2];
      assert ab[3..] == a[3..] + b;
      EncodeConcat(a[3..], b);
      assert EncodeBytes(ab) == Sextets(a[0], a[1], a[2]) + EncodeBytes(ab[3..]);
    }
  }

  lemma SymsConcat(u: seq<nat>, v: seq<nat>)
    requires forall i :: 0 <= i < |u| ==> u[i] <= Pad
    requires forall i :: 0 <= i < |v| ==> v[i] <= Pad
    ensures Syms(u + v) == Syms(u) + Syms(v)
  {
  }

  lemma Latin1Concat(a: string, b: string)
    requires IsLatin1(a) && IsLatin1(b)
    ensures IsLatin1(a + b)
  {
  }

  /**
   * The encoding of a string whose first part is made of whole
   * three-character groups is the two parts' encodings one after the other.
   */
  lemma BtoaConcat(a: string, t: string)
    requires IsLatin1(a) && IsLatin1(t) && |a| % 3 == 0
    ensures IsLatin1(a + t)
    ensures Btoa(a + t).value == Btoa(a).value + Btoa(t).value
  {
    Latin1Concat(a, t);
    CodesConcat(a, t);
    EncodeConcat(Codes(a), Codes(t));
    SymsConcat(EncodeBytes(Codes(a)), EncodeBytes(Codes(t)));
  }
}
