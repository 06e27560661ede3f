/**
 * The JavaScript string operations the extension relies on, over
 * `seq<char>`: ASCII case mapping, `startsWith`/`includes`, `split`/`join`,
 * `trim`, and number formatting.
 */
module Text {

  predicate IsUpper(c: char) { 'A' <= c <= 'Z' }
  predicate IsLower(c: char) { 'a' <= c <= 'z' }
  predicate IsDigit(c: char) { '0' <= c <= '9' }
  predicate IsAlpha(c: char) { IsUpper(c) || IsLower(c) }
  /** The character class `[a-zA-Z0-9]`. */
  predicate IsAlnum(c: char) { IsAlpha(c) || IsDigit(c) }

  /** The whitespace `String.prototype.trim` removes (the non-ASCII spaces beyond NBSP and BOM are not modelled). */
  predicate IsSpace(c: char)
  {
    c == ' ' || c == '\t' || c == '\n' || c == '\r' || c == '\U{000B}' || c == '\U{000C}' || c == '\U{00A0}' || c == '\U{FEFF}'
  }

  function Lower(c: char): (r: char)
    ensures IsUpper(c) ==> IsLower(r)
    ensures !IsUpper(c) ==> r == c
  {
    if IsUpper(c) then (c as int + 32) as char else c
  }

  function Upper(c: char): (r: char)
    ensures IsLower(c) ==> IsUpper(r)
    ensures !IsLower(c) ==> r == c
  {
    if IsLower(c) then (c as int - 32) as char else c
  }

  /** `toLowerCase()`, ASCII letters only. */
  function LowerStr(s: string): (r: string)
    ensures |r| == |s|
    ensures forall i :: 0 <= i < |s| ==> r[i] == Lower(s[i])
  {
    if s == [] then [] else [Lower(s[0])] + LowerStr(s[1..])
  }

  /** `toUpperCase()`, ASCII letters only. */
  function UpperStr(s: string): (r: string)
    ensures |r| == |s|
    ensures forall i :: 0 <= i < |s| ==> r[i] == Upper(s[i])
  {
    if s == [] then [] else [Upper(s[0])] + UpperStr(s[1..])
  }

  /** Lower-casing twice is lower-casing once. */
  lemma LowerStrIdempotent(s: string)
    ensures LowerStr(LowerStr(s)) == LowerStr(s)
  {
  }

  predicate StartsWith(s: string, prefix: string)
  {
    |prefix| <= |s| && s[..|prefix|] == prefix
  }

  /** `s.includes(p)`. */
  predicate Contains(s: string, p: string)
    decreases |s|
  {
    StartsWith(s, p) || (|s| > 0 && Contains(s[1..], p))
  }

  lemma {:induction false} ContainsAt(s: string, p: string, i: nat)
    requires i + |p| <= |s| && s[i..i + |p|] == p
    ensures Contains(s, p)
    decreases i
  {
    if i > 0 {
      assert s[1..][i - 1..i - 1 + |p|] == s[i..i + |p|];
      ContainsAt(s[1..], p, i - 1);
    }
  }

  lemma {:induction false} ContainsWitness(s: string, p: string) returns (i: nat)
    requires Contains(s, p)
    ensures i + |p| <= |s| && s[i..i + |p|] == p
    decreases |s|
  {
    if StartsWith(s, p) {
      i := 0;
    } else {
      var j := ContainsWitness(s[1..], p);
      i := j + 1;
      assert s[1..][j..j + |p|] == s[i..i + |p|];
    }
  }

  predicate OccursAt(s: string, p: string, i: nat)
  {
    i + |p| <= |s| && s[i..i + |p|] == p
  }

  /** `s.includes(p)` is false when `p` occurs at no position of `s`. */
  lemma NotContains(s: string, p: string)
    requires forall i: nat :: !OccursAt(s, p, i)
    ensures !Contains(s, p)
  {
    if Contains(s, p) {
      var i := ContainsWitness(s, p);
      assert OccursAt(s, p, i);
    }
  }

  /** `s.includes(p)` holds of a string that contains `s` in turn. */
  lemma ContainsTransitive(t: string, s: string, p: string)
    requires Contains(t, s) && Contains(s, p)
    ensures Contains(t, p)
  {
    var i := ContainsWitness(t, s);
    var j := ContainsWitness(s, p);
    forall k | 0 <= k < |p|
      ensures t[i + j + k] == p[k]
    {
      assert t[i..i + |s|][j + k] == s[j + k];
      assert s[j..j + |p|][k] == s[j + k];
    }
    assert t[i + j..i + j + |p|] == p;
    ContainsAt(t, p, i + j);
  }

  /** `capitalize`: `charAt(0).toUpperCase() + slice(1)`. */
  function Capitalize(s: string): (r: string)
    ensures |r| == |s|
    ensures s != [] ==> r[0] == Upper(s[0]) && r[1..] == s[1..]
  {
    if s == [] then [] else [Upper(s[0])] + s[1..]
  }

  /**
   * `s.split(c)` for any separator character in `seps` (a one-character
   * separator, or a character-class regular expression such as `/[-_]/`).
   */
  function Split(s: string, seps: set<char>): (r: seq<string>)
    ensures |r| >= 1
    ensures forall k :: 0 <= k < |r| ==> forall c :: c in r[k] ==> c !in seps
    decreases |s|
  {
    if s == [] then [""]
    else
      var rest := Split(s[1..], seps);
      if s[0] in seps then [""] + rest else [[s[0]] + rest[0]] + rest[1..]
  }

  /** `parts.join(sep)`. */
  function Join(parts: seq<string>, sep: string): (r: string)
  {
    if parts == [] then ""
    else if |parts| == 1 then parts[0]
    else parts[0] + sep + Join(parts[1..], sep)
  }

  /** Splitting on a character and joining on the same character is the identity. */
  lemma {:induction false} JoinSplit(s: string, c: char)
    ensures Join(Split(s, {c}), [c]) == s
    decreases |s|
  {
    if s != [] {
      var rest := Split(s[1..], {c});
      JoinSplit(s[1..], c);
      if s[0] == c {
        assert Split(s, {c}) == [""] + rest;
        assert ([""] + rest)[1..] == rest;
      } else {
        var parts := [[s[0]] + rest[0]] + rest[1..];
        assert Split(s, {c}) == parts;
        if |rest| == 1 {
          assert Join(parts, [c]) == [s[0]] + rest[0];
        } else {
          assert parts[1..] == rest[1..];
          assert Join(rest, [c]) == rest[0] + [c] + Join(rest[1..], [c]);
        }
      }
    }
  }

  /** Splitting a text whose first separator follows `a` gives `a`, then the parts of the rest. */
  lemma {:induction false} SplitAfter(a: string, c: char, b: string)
    requires c !in a
    ensures Split(a + [c] + b, {c}) == [a] + Split(b, {c})
    decreases |a|
  {
    if a == [] {
      assert ([c] + b)[1..] == b;
    } else {
      assert (a + [c] + b)[1..] == a[1..] + [c] + b;
      SplitAfter(a[1..], c, b);
      assert [a[0]] + a[1..] == a;
    }
  }

  /** A text free of separators is one part. */
  lemma {:induction false} SplitNoSep(s: string, seps: set<char>)
    requires forall i :: 0 <= i < |s| ==> s[i] !in seps
    ensures Split(s, seps) == [s]
    decreases |s|
  {
    if s != [] {
      SplitNoSep(s[1..], seps);
      assert [s[0]] + s[1..] == s;
    }
  }

  /** The parts hold only characters of the text. */
  lemma {:induction false} SplitChars(s: string, seps: set<char>)
    ensures forall k, c :: 0 <= k < |Split(s, seps)| && c in Split(s, seps)[k] ==> c in s
    decreases |s|
  {
    if s != [] {
      SplitChars(s[1..], seps);
      var rest := Split(s[1..], seps);
      forall k, c | 0 <= k < |Split(s, seps)| && c in Split(s, seps)[k]
        ensures c in s
      {
        if s[0] !in seps && k == 0 {
          assert c in [s[0]] + rest[0];
          assert c == s[0] || c in rest[0];
        } else if s[0] !in seps {
          assert Split(s, seps)[k] == rest[k];
          assert c in rest[k];
        } else if k > 0 {
          assert Split(s, seps)[k] == rest[k - 1];
          assert c in rest[k - 1];
        }
        assert c in s[1..] ==> c in s;
      }
    }
  }

  /** A text made of separators only splits into empty parts. */
  lemma SplitOfSeps(s: string, seps: set<char>)
    requires forall i :: 0 <= i < |s| ==> s[i] in seps
    ensures forall k :: 0 <= k < |Split(s, seps)| ==> Split(s, seps)[k] == ""
  {
    SplitChars(s, seps);
    forall k | 0 <= k < |Split(s, seps)|
      ensures Split(s, seps)[k] == ""
    {
      var part := Split(s, seps)[k];
      assert forall c :: c in s ==> c in seps;
      assert forall c :: c in part ==> c in s && c !in seps;
      assert forall c :: c !in part;
    }
  }

  /** Joining separator-free parts and splitting again gives the parts back. */
  lemma {:induction false} SplitJoin(parts: seq<string>, c: char)
    requires parts != []
    requires forall k :: 0 <= k < |parts| ==> c !in parts[k]
    ensures Split(Join(parts, [c]), {c}) == parts
    decreases |parts|
  {
    if |parts| == 1 {
      SplitNoSep(parts[0], {c});
    } else {
      SplitJoin(parts[1..], c);
      SplitAfter(parts[0], c, Join(parts[1..], [c]));
      assert parts == [parts[0]] + parts[1..];
    }
  }

  /** Each part followed by the separator, one after another. */
  function Terminated(parts: seq<string>, c: char): string
  {
    if parts == [] then "" else parts[0] + [c] + Terminated(parts[1..], c)
  }

  /** Parts free of the separator, each ended by it, split back into those parts. */
  lemma {:induction false} SplitTerminated(parts: seq<string>, c: char, rest: string)
    requires forall k :: 0 <= k < |parts| ==> c !in parts[k]
    ensures Split(Terminated(parts, c) + rest, {c}) == parts + Split(rest, {c})
    decreases |parts|
  {
    if parts == [] {
      assert Terminated(parts, c) + rest == rest;
    } else {
      var p, tail := parts[0], Terminated(parts[1..], c) + rest;
      calc {
        Split(Terminated(parts, c) + rest, {c});
        { assert Terminated(parts, c) + rest == p + [c] + tail; }
        Split(p + [c] + tail, {c});
        { SplitAfter(p, c, tail); }
        [p] + Split(tail, {c});
        { SplitTerminated(parts[1..], c, rest); }
        [p] + (parts[1..] + Split(rest, {c}));
        { assert parts == [p] + parts[1..]; }
        parts + Split(rest, {c});
      }
    }
  }

  /** A non-empty join ended by one more separator is the parts, each terminated. */
  lemma {:induction false} JoinTerminated(parts: seq<string>, c: char)
    requires parts != []
    ensures Join(parts, [c]) + [c] == Terminated(parts, c)
    decreases |parts|
  {
    if |parts| == 1 {
      assert Terminated(parts[1..], c) == "";
    } else {
      JoinTerminated(parts[1..], c);
    }
  }

  /**
   * Joining parts free of a separator, and ending the text with one more
   * separator, gives a text that splits back into those parts and a final
   * empty one.
   */
  lemma SplitJoinTerminated(parts: seq<string>, c: char)
    requires parts != []
    requires forall k :: 0 <= k < |parts| ==> c !in parts[k]
    ensures Split(Join(parts, [c]) + [c], {c}) == parts + [""]
  {
    JoinTerminated(parts, c);
    SplitTerminated(parts, c, "");
    assert Terminated(parts, c) + "" == Terminated(parts, c);
  }

  /** `parts.filter(p => p)`: the non-empty parts, in order. */
  function NonEmpty(parts: seq<string>): (r: seq<string>)
    ensures |r| <= |parts|
    ensures forall k :: 0 <= k < |r| ==> r[k] != "" && r[k] in parts
    ensures forall p :: p in parts && p != "" ==> p in r
  {
    if parts == [] then []
    else if parts[0] == "" then NonEmpty(parts[1..])
    else [parts[0]] + NonEmpty(parts[1..])
  }

  /** Parts that are all non-empty pass the filter unchanged. */
  lemma {:induction false} NonEmptyOfNonEmpty(parts: seq<string>)
    requires forall k :: 0 <= k < |parts| ==> parts[k] != ""
    ensures NonEmpty(parts) == parts
    decreases |parts|
  {
    if parts != [] {
      NonEmptyOfNonEmpty(parts[1..]);
    }
  }

  /** Capitalising introduces no character that was not a letter of the word. */
  lemma CapitalizeKeeps(s: string, c: char)
    requires !IsAlpha(c) && c !in s
    ensures c !in Capitalize(s)
  {
    if s != [] {
      assert Capitalize(s) == [Upper(s[0])] + s[1..];
    }
  }

  /** `parts.map(capitalize)`. */
  function CapitalizeAll(parts: seq<string>): (r: seq<string>)
    ensures |r| == |parts|
    ensures forall k :: 0 <= k < |r| ==> r[k] == Capitalize(parts[k])
  {
    if parts == [] then [] else [Capitalize(parts[0])] + CapitalizeAll(parts[1..])
  }

  function TrimStart(s: string): (r: string)
    ensures |r| <= |s| && r == s[|s| - |r|..]
    ensures r == [] || !IsSpace(r[0])
    ensures forall i :: 0 <= i < |s| - |r| ==> IsSpace(s[i])
  {
    if s != [] && IsSpace(s[0]) then TrimStart(s[1..]) else s
  }

  function TrimEnd(s: string): (r: string)
    ensures |r| <= |s| && r == s[..|r|]
    ensures r == [] || !IsSpace(r[|r| - 1])
    ensures forall i :: |r| <= i < |s| ==> IsSpace(s[i])
  {
    if s != [] && IsSpace(s[|s| - 1]) then TrimEnd(s[..|s| - 1]) else s
  }

  /** `trim()`: the longest slice of `s` that neither starts nor ends with whitespace. */
  function Trim(s: string): (r: string)
    ensures |r| <= |s|
    ensures r == [] || (!IsSpace(r[0]) && !IsSpace(r[|r| - 1]))
    ensures Contains(s, r)
  {
    var t := TrimStart(s);
    var r := TrimEnd(t);
    assert r == s[|s| - |t|..][..|r|] == s[|s| - |t|..|s| - |t| + |r|];
    ContainsAt(s, r, |s| - |t|);
    r
  }

  /** A text that trims to nothing is whitespace throughout. */
  lemma TrimBlank(s: string)
    requires Trim(s) == []
    ensures forall i :: 0 <= i < |s| ==> IsSpace(s[i])
  {
    assert TrimEnd(TrimStart(s)) == [];
  }

  /** The only characters `Trim` removes are whitespace. */
  lemma TrimOfNoSpace(s: string)
    requires forall i :: 0 <= i < |s| ==> !IsSpace(s[i])
    ensures Trim(s) == s
  {
  }

  function DigitChar(d: nat): (c: char)
    requires d < 10
    ensures IsDigit(c)
  {
    ('0' as int + d) as char
  }

  /** `String(n)` for a natural number: its decimal digits, without leading zeros. */
  function NatToString(n: nat): (r: string)
    ensures |r| >= 1
    ensures forall i :: 0 <= i < |r| ==> IsDigit(r[i])
    ensures |r| > 1 ==> r[0] != '0'
  {
    if n < 10 then [DigitChar(n)] else NatToString(n / 10) + [DigitChar(n % 10)]
  }

  lemma NatToStringLong(n: nat)
    requires n >= 10
    ensures |NatToString(n)| >= 2
  {
  }

  /** Different numbers are written differently. */
  lemma {:induction false} NatToStringInjective(m: nat, n: nat)
    requires NatToString(m) == NatToString(n)
    ensures m == n
  {
    if m >= 10 && n >= 10 {
      var a, b := NatToString(m), NatToString(n);
      assert a[..|a| - 1] == NatToString(m / 10) && b[..|b| - 1] == NatToString(n / 10);
      NatToStringInjective(m / 10, n / 10);
      assert DigitChar(m % 10) == a[|a| - 1] == b[|b| - 1] == DigitChar(n % 10);
    } else if m >= 10 {
      NatToStringLong(m);
    } else if n >= 10 {
      NatToStringLong(n);
    } else {
      assert DigitChar(m) == NatToString(m)[0];
    }
  }

  /** `s.replace(/[^a-zA-Z0-9]/g, '')`. */
  function KeepAlnum(s: string): (r: string)
    ensures |r| <= |s|
    ensures forall i :: 0 <= i < |r| ==> IsAlnum(r[i])
    ensures forall i :: 0 <= i < |s| && IsAlnum(s[i]) ==> s[i] in r
  {
    if s == [] then []
    else if IsAlnum(s[0]) then [s[0]] + KeepAlnum(s[1..])
    else KeepAlnum(s[1..])
  }

  lemma {:induction false} KeepAlnumOfAlnum(s: string)
    requires forall i :: 0 <= i < |s| ==> IsAlnum(s[i])
    ensures KeepAlnum(s) == s
  {
    if s != [] {
      KeepAlnumOfAlnum(s[1..]);
    }
  }

  /** `s.substring(0, n)`. */
  function Take(s: string, n: nat): (r: string)
    ensures |r| == if |s| < n then |s| else n
    ensures r == s[..|r|]
  {
    if |s| <= n then s else s[..n]
  }
}
