/** The pieces of Python's string behaviour that the assistant relies on:
    str.strip(), str.lower(), str.join(), str.endswith(), the substring
    test `sub in text`, the slice s[:n] and the decimal rendering of an int
    in an f-string. Strings are sequences of Unicode code points. */
module TextOps {

  /** Python's str.isspace(): the code points str.strip() removes by default. */
  predicate IsSpace(c: char) {
    c == ' ' || ('\t' <= c <= '\r') || ('\U{1C}' <= c <= '\U{1F}') ||
    c == '\U{85}' || c == '\U{A0}' || c == '\U{1680}' || ('\U{2000}' <= c <= '\U{200A}') ||
    c == '\U{2028}' || c == '\U{2029}' || c == '\U{202F}' || c == '\U{205F}' || c == '\U{3000}'
  }

  predicate AllSpace(s: string) {
    forall i :: 0 <= i < |s| ==> IsSpace(s[i])
  }

  /** The first position at or after i that does not hold whitespace, or
      |s| when there is none: where str.strip() starts its result. */
  function SkipSpace(s: string, i: nat): (r: nat)
    requires i <= |s|
    ensures i <= r <= |s|
    ensures forall j :: i <= j < r ==> IsSpace(s[j])
    ensures r < |s| ==> !IsSpace(s[r])
    decreases |s| - i
  {
    if i == |s| || !IsSpace(s[i]) then i else SkipSpace(s, i + 1)
  }

  /** Scanning back from i, never below lo: the position just after the
      last character that is not whitespace, or lo when there is none. */
  function BackSkipSpace(s: string, lo: nat, i: nat): (r: nat)
    requires lo <= i <= |s|
    ensures lo <= r <= i
    ensures forall j :: r <= j < i ==> IsSpace(s[j])
    ensures lo < r ==> !IsSpace(s[r - 1])
    decreases i - lo
  {
    if i == lo || !IsSpace(s[i - 1]) then i else BackSkipSpace(s, lo, i - 1)
  }

  /** str.strip() with no argument: skip whitespace from the left, then from
      the right down to where the left scan stopped, and keep what lies in
      between. */
  function Strip(s: string): (r: string)
    ensures |r| <= |s|
  {
    var start := SkipSpace(s, 0);
    s[start..BackSkipSpace(s, start, |s|)]
  }

  /** The stripped text is a slice of s, everything around it is whitespace,
      and it neither starts nor ends with whitespace. */
  lemma StripShape(s: string)
    ensures var start := SkipSpace(s, 0); var end := BackSkipSpace(s, start, |s|);
      Strip(s) == s[start..end] &&
      (forall j :: 0 <= j < start ==> IsSpace(s[j])) &&
      (forall j :: end <= j < |s| ==> IsSpace(s[j])) &&
      (start < end ==> !IsSpace(s[start]) && !IsSpace(s[end - 1]))
  {
  }

  /** A string strips to "" exactly when it consists of whitespace only. */
  lemma StripEmptyIffAllSpace(s: string)
    ensures Strip(s) == [] <==> AllSpace(s)
  {
    var start := SkipSpace(s, 0);
    var end := BackSkipSpace(s, start, |s|);
    if start < |s| {
      assert !IsSpace(s[start]);
      assert start < end;
    }
  }

  /** str.lower() restricted to ASCII letters. */
  function LowerChar(c: char): (d: char)
    ensures 'A' <= c <= 'Z' ==> 'a' <= d <= 'z'
    ensures !('A' <= c <= 'Z') ==> d == c
  {
    if 'A' <= c <= 'Z' then (c as int - 'A' as int + 'a' as int) as char else c
  }

  function Lower(s: string): (r: string)
    ensures |r| == |s|
  {
    if s == [] then [] else [LowerChar(s[0])] + Lower(s[1..])
  }

  /** Lower-casing maps every character on its own. */
  lemma {:induction false} LowerPointwise(s: string)
    ensures forall i :: 0 <= i < |s| ==> Lower(s)[i] == LowerChar(s[i])
    decreases |s|
  {
    if s != [] {
      LowerPointwise(s[1..]);
      assert forall i :: 1 <= i < |s| ==> Lower(s)[i] == Lower(s[1..])[i - 1] && s[1..][i - 1] == s[i];
    }
  }

  lemma LowerAppend(a: string, b: string)
    ensures Lower(a + b) == Lower(a) + Lower(b)
  {
    LowerPointwise(a);
    LowerPointwise(b);
    LowerPointwise(a + b);
    assert forall i :: 0 <= i < |a + b| ==> Lower(a + b)[i] == (Lower(a) + Lower(b))[i];
  }

  /** str.join: the parts with one separator between neighbours. */
  function Join(sep: string, parts: seq<string>): string
    decreases |parts|
  {
    if |parts| == 0 then ""
    else if |parts| == 1 then parts[0]
    else parts[0] + sep + Join(sep, parts[1..])
  }

  /** Where part i starts inside Join(sep, parts): the parts before it,
      each followed by one separator. */
  function Offset(sep: string, parts: seq<string>, i: nat): nat
    requires i <= |parts|
    decreases i
  {
    if i == 0 then 0 else |parts[0]| + |sep| + Offset(sep, parts[1..], i - 1)
  }

  /** Every part occurs in the joined string at its offset, so the parts
      appear in order, and the joined string is the parts with one separator
      between neighbours and nothing else. */
  lemma {:induction false} JoinPartAt(sep: string, parts: seq<string>, i: nat)
    requires i < |parts|
    ensures |Join(sep, parts)| + |sep| == Offset(sep, parts, |parts|)
    ensures Offset(sep, parts, i) + |parts[i]| <= |Join(sep, parts)|
    ensures Join(sep, parts)[Offset(sep, parts, i)..Offset(sep, parts, i) + |parts[i]|] == parts[i]
    decreases |parts|
  {
    if |parts| > 1 {
      var rest := parts[1..];
      var j := Join(sep, parts);
      var h := |parts[0]| + |sep|;
      assert j == parts[0] + sep + Join(sep, rest);
      JoinPartAt(sep, rest, if i == 0 then 0 else i - 1);
      assert j[h..] == Join(sep, rest);
      if i > 0 {
        assert parts[i] == rest[i - 1];
      }
    }
  }

  /** Splitting the parts anywhere splits the joined string at one separator. */
  lemma {:induction false} JoinSplit(sep: string, parts: seq<string>, i: nat)
    requires 0 < i < |parts|
    ensures Join(sep, parts) == Join(sep, parts[..i]) + sep + Join(sep, parts[i..])
    decreases i
  {
    if i > 1 {
      var rest := parts[1..];
      JoinSplit(sep, rest, i - 1);
      assert parts[..i][1..] == rest[..i - 1];
      assert rest[i - 1..] == parts[i..];
    }
  }

  /** Joining a prefix of the parts gives a prefix of the joined string. */
  lemma JoinPrefix(sep: string, parts: seq<string>, more: seq<string>)
    ensures Join(sep, parts) <= Join(sep, parts + more)
  {
    var all := parts + more;
    if parts != [] && more != [] {
      JoinSplit(sep, all, |parts|);
      assert all[..|parts|] == parts;
    } else if more == [] {
      assert all == parts;
    }
  }

  /** str.endswith(suffix). */
  predicate EndsWith(s: string, suffix: string) {
    |suffix| <= |s| && s[|s| - |suffix|..] == suffix
  }

  /** Python's `sub in text` on strings, computed by scanning text. */
  predicate Contains(text: string, sub: string)
    decreases |text|
  {
    sub <= text || (text != [] && Contains(text[1..], sub))
  }

  /** An occurrence at position i is found by the scan. */
  lemma {:induction false} ContainsAt(text: string, sub: string, i: nat)
    requires i <= |text| && sub <= text[i..]
    ensures Contains(text, sub)
    decreases i
  {
    if i == 0 {
      assert text[0..] == text;
    } else {
      assert text[1..][i - 1..] == text[i..];
      ContainsAt(text[1..], sub, i - 1);
    }
  }

  /** What the scan finds occurs at some position. */
  lemma {:induction false} ContainsWitness(text: string, sub: string)
    requires Contains(text, sub)
    ensures exists i :: 0 <= i <= |text| && sub <= text[i..]
    decreases |text|
  {
    if sub <= text {
      assert text[0..] == text;
    } else {
      ContainsWitness(text[1..], sub);
      var i :| 0 <= i <= |text| - 1 && sub <= text[1..][i..];
      assert text[1..][i..] == text[i + 1..];
    }
  }

  /** The scan finds sub exactly when sub occurs at some position of text. */
  lemma ContainsIff(text: string, sub: string)
    ensures Contains(text, sub) <==> exists i :: 0 <= i <= |text| && sub <= text[i..]
  {
    if Contains(text, sub) {
      ContainsWitness(text, sub);
    }
    if exists i :: 0 <= i <= |text| && sub <= text[i..] {
      var i :| 0 <= i <= |text| && sub <= text[i..];
      ContainsAt(text, sub, i);
    }
  }

  /** A substring of text is a substring of every extension of text. */
  lemma ContainsExtended(text: string, more: string, sub: string)
    requires Contains(text, sub)
    ensures Contains(text + more, sub)
  {
    ContainsWitness(text, sub);
    var i :| 0 <= i <= |text| && sub <= text[i..];
    assert text[i..] <= (text + more)[i..];
    ContainsAt(text + more, sub, i);
  }

  /** The first n characters of s, or all of s when it is shorter. */
  function Take(s: string, n: nat): (r: string)
    ensures |r| == if |s| < n then |s| else n
    ensures r <= s
  {
    if |s| <= n then s else s[..n]
  }

  function DigitChar(d: nat): (c: char)
    requires d < 10
    ensures '0' <= c <= '9' && c as int - '0' as int == d
  {
    ('0' as int + d) as char
  }

  /** The decimal text of a non-negative int, as string formatting
      renders it. */
  function Decimal(n: nat): (r: string)
    ensures |r| >= 1
    ensures n < 10 <==> |r| == 1
    ensures r[|r| - 1] == DigitChar(n % 10)
    decreases n
  {
    if n < 10 then [DigitChar(n)] else Decimal(n / 10) + [DigitChar(n % 10)]
  }

  /** Different numbers have different decimal texts. */
  lemma {:induction false} DecimalInjective(m: nat, n: nat)
    requires Decimal(m) == Decimal(n)
    ensures m == n
    decreases m
  {
    var dm, dn := Decimal(m), Decimal(n);
    assert m % 10 == n % 10 by {
      assert dm[|dm| - 1] == dn[|dn| - 1];
    }
    if m >= 10 && n >= 10 {
      assert Decimal(m / 10) == dm[..|dm| - 1] == dn[..|dn| - 1] == Decimal(n / 10);
      DecimalInjective(m / 10, n / 10);
    }
  }
}
