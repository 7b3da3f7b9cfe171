/** String primitives the generator relies on: ASCII lower-casing (`str.lower`),
    Python's ordering of strings (`<` on `str`), `str.join`, and a small
    scanner used to read identifiers back out of rendered statements. */
module Text {

  /** Lower-case one character; only the ASCII letters A-Z change. */
  function LowerChar(c: char): char {
    if 'A' <= c <= 'Z' then (c as int + 32) as char else c
  }

  /** `s.lower()`, restricted to ASCII letters. */
  function Lower(s: string): (r: string)
    ensures |r| == |s|
    ensures forall i :: 0 <= i < |s| ==> r[i] == LowerChar(s[i])
  {
    seq(|s|, i requires 0 <= i < |s| => LowerChar(s[i]))
  }

  /** Lower-casing twice is lower-casing once. */
  lemma LowerIdempotent(s: string)
    ensures Lower(Lower(s)) == Lower(s)
  {
  }

  /** The characters of an SQL identifier as the schema is expected to use them. */
  predicate IsIdentChar(c: char) {
    ('a' <= c <= 'z') || ('A' <= c <= 'Z') || ('0' <= c <= '9') || c == '_'
  }

  predicate IsIdentifier(s: string) {
    forall i :: 0 <= i < |s| ==> IsIdentChar(s[i])
  }

  /** Lower-casing keeps an identifier an identifier, so it never introduces a
      quote, a parenthesis or a blank. */
  lemma LowerKeepsIdentifier(s: string)
    requires IsIdentifier(s)
    ensures IsIdentifier(Lower(s))
    ensures '"' !in Lower(s) && '(' !in Lower(s) && ' ' !in Lower(s)
  {
    var r := Lower(s);
    forall i | 0 <= i < |r| ensures IsIdentChar(r[i]) && r[i] != '"' && r[i] != '(' && r[i] != ' ' {
      assert IsIdentChar(s[i]);
    }
  }

  /** Python's `a < b` on strings: lexicographic by code point, a proper prefix
      being smaller. */
  predicate Less(a: string, b: string)
    decreases |a|
  {
    if |b| == 0 then false
    else if |a| == 0 then true
    else a[0] < b[0] || (a[0] == b[0] && Less(a[1..], b[1..]))
  }

  lemma {:induction false} LessIrreflexiveAsymmetric(a: string, b: string)
    ensures !(Less(a, b) && Less(b, a))
    ensures !Less(a, a)
    decreases |a|
  {
    if |a| > 0 {
      LessIrreflexiveAsymmetric(a[1..], if |b| > 0 then b[1..] else a[1..]);
    }
  }

  lemma {:induction false} LessTrichotomy(a: string, b: string)
    ensures Less(a, b) || a == b || Less(b, a)
    decreases |a|
  {
    if |a| > 0 && |b| > 0 && a[0] == b[0] {
      LessTrichotomy(a[1..], b[1..]);
      if a[1..] == b[1..] {
        assert a == [a[0]] + a[1..] && b == [b[0]] + b[1..];
        assert a == b;
      }
    }
  }

  /** `sorted([a, b])` as a pair: the list is reversed exactly when `b < a`
      (Python's sort is stable, so equal strings keep their order). */
  function Sorted2(a: string, b: string): (r: (string, string))
    ensures (r == (a, b) || r == (b, a)) && !Less(r.1, r.0)
  {
    LessIrreflexiveAsymmetric(a, b);
    if Less(b, a) then (b, a) else (a, b)
  }

  /** The sorted pair does not depend on the order of the arguments. */
  lemma Sorted2Symmetric(a: string, b: string)
    ensures Sorted2(a, b) == Sorted2(b, a)
  {
    LessTrichotomy(a, b);
    LessIrreflexiveAsymmetric(a, b);
  }

  /** `sep.join(parts)`. */
  function Join(sep: string, parts: seq<string>): string
    decreases |parts|
  {
    if |parts| == 0 then ""
    else if |parts| == 1 then parts[0]
    else parts[0] + sep + Join(sep, parts[1..])
  }

  /** `''.join(parts)`: plain concatenation. */
  function Concat(parts: seq<string>): string
    decreases |parts|
  {
    if |parts| == 0 then "" else parts[0] + Concat(parts[1..])
  }

  /** Each part sits in the concatenation right after the parts before it,
      whole and in order. */
  lemma {:induction false} ConcatPlacesPart(parts: seq<string>, i: nat)
    requires i < |parts|
    ensures var k := |Concat(parts[..i])|;
      k + |parts[i]| <= |Concat(parts)| && Concat(parts)[k..k + |parts[i]|] == parts[i]
    decreases i
  {
    assert Concat(parts) == parts[0] + Concat(parts[1..]);
    if i == 0 {
      assert parts[..0] == [];
    } else {
      ConcatPlacesPart(parts[1..], i - 1);
      assert parts[1..][..i - 1] == parts[..i][1..];
      assert parts[1..][i - 1] == parts[i];
      assert Concat(parts[..i]) == parts[0] + Concat(parts[..i][1..]);
    }
  }

  /** The longest prefix of `s` that does not contain `c`. */
  function UpTo(s: string, c: char): (r: string)
    ensures r <= s && c !in r
    ensures |r| < |s| ==> s[|r|] == c
    decreases |s|
  {
    if |s| == 0 then ""
    else if s[0] == c then ""
    else [s[0]] + UpTo(s[1..], c)
  }

  /** Reading up to a delimiter gives back whatever was written before it. */
  lemma {:induction false} UpToDelimited(x: string, c: char, rest: string)
    requires c !in x
    ensures UpTo(x + [c] + rest, c) == x
    decreases |x|
  {
    if |x| > 0 {
      assert (x + [c] + rest)[1..] == x[1..] + [c] + rest;
      UpToDelimited(x[1..], c, rest);
      assert x == [x[0]] + x[1..];
    }
  }

  /** The values a map takes on `keys`. */
  function Image<K, V>(m: map<K, V>, keys: set<K>): set<V>
    requires keys <= m.Keys
  {
    set k | k in keys :: m[k]
  }

  /** Taking one more key adds its value. */
  lemma ImageAdd<K, V>(m: map<K, V>, done: set<K>, k: K)
    requires done <= m.Keys && k in m
    ensures Image(m, done + {k}) == Image(m, done) + {m[k]}
  {
  }

  /** A map that is one-to-one on `keys` takes as many values there as there
      are keys. */
  lemma {:induction false} ImageCount<K, V>(m: map<K, V>, keys: set<K>)
    requires keys <= m.Keys
    requires forall a, b :: a in keys && b in keys && a != b ==> m[a] != m[b]
    ensures |Image(m, keys)| == |keys|
    decreases |keys|
  {
    if keys != {} {
      var k :| k in keys;
      var rest := keys - {k};
      ImageCount(m, rest);
      assert keys == rest + {k};
      ImageAdd(m, rest, k);
      assert m[k] !in Image(m, rest);
    }
  }

  /** A part of a concatenation stays whole when more text surrounds it. */
  lemma ConcatSegment(before: string, parts: seq<string>, after: string, i: nat)
    requires i < |parts|
    ensures var k := |before| + |Concat(parts[..i])|;
      && k + |parts[i]| <= |before| + |Concat(parts)|
      && (before + Concat(parts) + after)[k..k + |parts[i]|] == parts[i]
  {
    ConcatPlacesPart(parts, i);
    var k := |Concat(parts[..i])|;
    var c := Concat(parts);
    assert (before + c + after)[|before| + k..|before| + k + |parts[i]|] == c[k..k + |parts[i]|];
  }
}
