/**
 * The string operations the components apply: `toLowerCase`/`toUpperCase` (ASCII letters only),
 * `includes`, `trim`, `split`/`join`, `replace` of a one-character pattern, and the decimal
 * rendering of integers in JSX text.
 */
module Text {
  import opened Domain

  function LowerChar(c: char): char
  {
    if 'A' <= c <= 'Z' then (c as int + 32) as char else c
  }

  function UpperChar(c: char): char
  {
    if 'a' <= c <= 'z' then (c as int - 32) as char else c
  }

  function Lower(s: string): (r: string)
    ensures |r| == |s| && forall i :: 0 <= i < |s| ==> r[i] == LowerChar(s[i])
  {
    seq(|s|, i requires 0 <= i < |s| => LowerChar(s[i]))
  }

  function Upper(s: string): (r: string)
    ensures |r| == |s| && forall i :: 0 <= i < |s| ==> r[i] == UpperChar(s[i])
  {
    seq(|s|, i requires 0 <= i < |s| => UpperChar(s[i]))
  }

  /** Lower-casing forgets the case a string was written in. */
  lemma LowerOfUpper(s: string)
    ensures Lower(Upper(s)) == Lower(s)
  {
    assert forall i :: 0 <= i < |s| ==> LowerChar(UpperChar(s[i])) == LowerChar(s[i]);
  }

  predicate StartsWith(s: string, prefix: string)
  {
    |prefix| <= |s| && s[..|prefix|] == prefix
  }

  /** `hay.includes(needle)`: `needle` occurs in `hay` at some position. */
  predicate Contains(hay: string, needle: string): (b: bool)
    ensures b ==> |needle| <= |hay|
    decreases |hay|
  {
    StartsWith(hay, needle) || (hay != [] && Contains(hay[1..], needle))
  }

  lemma ContainsEmpty(hay: string)
    ensures Contains(hay, "")
  {
  }

  /** An occurrence at position `i` is found. */
  lemma {:induction false} ContainsAt(hay: string, needle: string, i: nat)
    requires i + |needle| <= |hay| && hay[i..i + |needle|] == needle
    ensures Contains(hay, needle)
    decreases i
  {
    if i > 0 {
      assert hay[1..][i - 1..i - 1 + |needle|] == hay[i..i + |needle|];
      ContainsAt(hay[1..], needle, i - 1);
    }
  }

  /** Whatever is found is an occurrence at some position. */
  lemma {:induction false} ContainsWitness(hay: string, needle: string) returns (i: nat)
    requires Contains(hay, needle)
    ensures i + |needle| <= |hay| && hay[i..i + |needle|] == needle
    decreases |hay|
  {
    if StartsWith(hay, needle) {
      i := 0;
    } else {
      var j := ContainsWitness(hay[1..], needle);
      assert hay[1..][j..j + |needle|] == hay[j + 1..j + 1 + |needle|];
      i := j + 1;
    }
  }

  /** `hay.toLowerCase().includes(term.toLowerCase())`. */
  predicate MatchesIgnoringCase(hay: string, term: string)
  {
    Contains(Lower(hay), Lower(term))
  }

  lemma MatchesEmpty(hay: string)
    ensures MatchesIgnoringCase(hay, "")
  {
  }

  /** Whitespace and line terminators as `String.prototype.trim` removes them. */
  predicate IsSpace(c: char)
  {
    c == '\t' || c == '\n' || c == '\U{000B}' || c == '\U{000C}' || c == '\r' || c == ' '
    || c == '\U{00A0}' || c == '\U{1680}' || ('\U{2000}' <= c <= '\U{200A}')
    || c == '\U{2028}' || c == '\U{2029}' || c == '\U{202F}' || c == '\U{205F}'
    || c == '\U{3000}' || c == '\U{FEFF}'
  }

  predicate AllSpace(s: string)
  {
    forall i :: 0 <= i < |s| ==> IsSpace(s[i])
  }

  function TrimStart(s: string): (r: string)
    ensures |r| <= |s| && r == s[|s| - |r|..]
    ensures AllSpace(s[..|s| - |r|])
    ensures r == [] || !IsSpace(r[0])
  {
    if s != [] && IsSpace(s[0]) then
      var r := TrimStart(s[1..]);
      assert s[..|s| - |r|] == [s[0]] + s[1..][..|s| - 1 - |r|];
      assert s[1..][|s| - 1 - |r|..] == s[|s| - |r|..];
      r
    else s
  }

  function TrimEnd(s: string): (r: string)
    ensures |r| <= |s| && r == s[..|r|]
    ensures AllSpace(s[|r|..])
    ensures r == [] || !IsSpace(r[|r| - 1])
  {
    if s != [] && IsSpace(s[|s| - 1]) then
      var r := TrimEnd(s[..|s| - 1]);
      assert s[|r|..] == s[..|s| - 1][|r|..] + [s[|s| - 1]];
      assert s[..|s| - 1][..|r|] == s[..|r|];
      r
    else s
  }

  /** `s.trim()`: `s` without its leading and trailing whitespace. */
  function Trim(s: string): (r: string)
    ensures r == [] || (!IsSpace(r[0]) && !IsSpace(r[|r| - 1]))
    ensures r == [] <==> AllSpace(s)
    ensures CutsOnlySpace(s, r)
  {
    TrimBothEnds(s);
    TrimIsSlice(s, TrimStart(s), TrimEnd(TrimStart(s)));
    TrimEnd(TrimStart(s))
  }

  /** `r` is `s` with nothing but white space cut from its front and its back. */
  predicate CutsOnlySpace(s: string, r: string)
  {
    exists i, j :: 0 <= i <= j <= |s| && r == s[i..j] && AllSpace(s[..i]) && AllSpace(s[j..])
  }

  /** Cutting white space from the front and then from the back keeps one slice of the input. */
  lemma TrimIsSlice(s: string, t: string, r: string)
    requires |t| <= |s| && t == s[|s| - |t|..] && AllSpace(s[..|s| - |t|])
    requires |r| <= |t| && r == t[..|r|] && AllSpace(t[|r|..])
    ensures CutsOnlySpace(s, r)
  {
    var i := |s| - |t|;
    assert t[|r|..] == s[i + |r|..];
    assert r == s[i..i + |r|];
  }

  lemma {:induction false} TrimBothEnds(s: string)
    ensures var r := TrimEnd(TrimStart(s));
      (r == [] || (!IsSpace(r[0]) && !IsSpace(r[|r| - 1]))) && (r == [] <==> AllSpace(s))
  {
    var t := TrimStart(s);
    var r := TrimEnd(t);
    var n := |s| - |t|;
    if r == [] {
      assert t[|r|..] == t;
      assert t == [];
      forall i | 0 <= i < |s|
        ensures IsSpace(s[i])
      {
        assert s[..n][i] == s[i];
      }
    } else {
      assert r[0] == t[0] && s[n] == t[0];
    }
  }

  lemma TrimIdempotent(s: string)
    ensures Trim(Trim(s)) == Trim(s)
  {
  }

  /** `s.split(sep)` for a one-character separator. */
  function Split(s: string, sep: char): (parts: seq<string>)
    ensures |parts| >= 1
    ensures forall k :: 0 <= k < |parts| ==> sep !in parts[k]
    ensures sep !in s ==> parts == [s]
    ensures sep in s ==> |parts| > 1
    decreases |s|
  {
    if s == [] then [""]
    else
      var rest := Split(s[1..], sep);
      assert s == [s[0]] + s[1..];
      if s[0] == sep then [""] + rest
      else [[s[0]] + rest[0]] + rest[1..]
  }

  /** Joins the parts with `sep` between them: the inverse of `Split`. */
  function Join(parts: seq<string>, sep: char): (r: string)
    ensures parts == [] ==> r == ""
    ensures parts != [] ==> parts[0] <= r && |r| >= |parts[0]| + |parts| - 1
    ensures |parts| > 1 ==> r[|parts[0]|] == sep
  {
    if parts == [] then ""
    else if |parts| == 1 then parts[0]
    else parts[0] + [sep] + Join(parts[1..], sep)
  }

  /** Splitting loses nothing: joining the parts back gives the original string. */
  lemma {:induction false} JoinSplit(s: string, sep: char)
    ensures Join(Split(s, sep), sep) == s
    decreases |s|
  {
    if s != [] {
      JoinSplit(s[1..], sep);
      if s[0] == sep {
        JoinSplitAtSeparator(s, sep);
      } else {
        JoinSplitAtOther(s, sep);
      }
    }
  }

  /** The step of `JoinSplit` when `s` starts with the separator. */
  lemma JoinSplitAtSeparator(s: string, sep: char)
    requires s != [] && s[0] == sep
    requires Join(Split(s[1..], sep), sep) == s[1..]
    ensures Join(Split(s, sep), sep) == s
  {
    var rest := Split(s[1..], sep);
    assert Split(s, sep) == [""] + rest;
    JoinCons("", rest, sep);
    assert s == [s[0]] + s[1..];
  }

  /** The step of `JoinSplit` when `s` starts with another character. */
  lemma JoinSplitAtOther(s: string, sep: char)
    requires s != [] && s[0] != sep
    requires Join(Split(s[1..], sep), sep) == s[1..]
    ensures Join(Split(s, sep), sep) == s
  {
    var rest := Split(s[1..], sep);
    assert Split(s, sep) == [[s[0]] + rest[0]] + rest[1..];
    JoinHeadExtend(s[0], rest, sep);
    assert s == [s[0]] + s[1..];
  }

  /** Prefixing the first part with `c` prefixes the joined string with `c`. */
  lemma JoinHeadExtend(c: char, parts: seq<string>, sep: char)
    requires parts != []
    ensures Join([[c] + parts[0]] + parts[1..], sep) == [c] + Join(parts, sep)
  {
    if |parts| > 1 {
      JoinCons([c] + parts[0], parts[1..], sep);
      JoinCons(parts[0], parts[1..], sep);
      assert parts == [parts[0]] + parts[1..];
    } else {
      assert [[c] + parts[0]] + parts[1..] == [[c] + parts[0]];
    }
  }

  /** Joining a part in front of at least one other adds the part and a separator. */
  lemma JoinCons(p: string, parts: seq<string>, sep: char)
    requires parts != []
    ensures Join([p] + parts, sep) == p + [sep] + Join(parts, sep)
  {
    assert ([p] + parts)[1..] == parts;
  }

  /** The last part of a split: everything after the last separator, or all of `s`. */
  function LastPart(s: string, sep: char): (r: string)
    ensures sep !in r
    ensures sep !in s ==> r == s
  {
    var parts := Split(s, sep);
    parts[|parts| - 1]
  }

  /** When the separator occurs, `s` is some prefix, the separator, and the last part. */
  lemma {:induction false} LastPartSuffix(s: string, sep: char)
    requires sep in s
    ensures |LastPart(s, sep)| < |s|
    ensures s == s[..|s| - |LastPart(s, sep)| - 1] + [sep] + LastPart(s, sep)
  {
    var parts := Split(s, sep);
    JoinSplit(s, sep);
    JoinLast(parts, sep);
  }

  lemma {:induction false} JoinLast(parts: seq<string>, sep: char)
    requires |parts| > 1
    ensures Join(parts, sep) == Join(parts[..|parts| - 1], sep) + [sep] + parts[|parts| - 1]
    decreases |parts|
  {
    if |parts| > 2 {
      JoinLast(parts[1..], sep);
      assert parts[1..][..|parts| - 2] == parts[..|parts| - 1][1..];
    }
  }

  /** The position of the first `c` in `s`, or `|s|` when there is none. */
  function IndexOf(s: string, c: char): (k: nat)
    ensures k <= |s| && c !in s[..k]
    ensures k < |s| ==> s[k] == c
    ensures k == |s| <==> c !in s
  {
    if s == [] then 0
    else if s[0] == c then 0
    else
      var k := 1 + IndexOf(s[1..], c);
      assert s[..k] == [s[0]] + s[1..][..k - 1];
      assert s == [s[0]] + s[1..];
      k
  }

  /** `s.replace(from, to)` for one-character strings: only the first occurrence is replaced. */
  function ReplaceFirst(s: string, from: char, to: char): (r: string)
    ensures |r| == |s|
    ensures IndexOf(s, from) == |s| ==> r == s
    ensures IndexOf(s, from) < |s| ==> r == s[..IndexOf(s, from)] + [to] + s[IndexOf(s, from) + 1..]
  {
    if s == [] then []
    else if s[0] == from then [to] + s[1..]
    else
      var rest := ReplaceFirst(s[1..], from, to);
      var k := IndexOf(s[1..], from);
      assert IndexOf(s, from) == k + 1;
      if k < |s| - 1 then
        assert s[..k + 1] == [s[0]] + s[1..][..k];
        assert s[k + 2..] == s[1..][k + 1..];
        [s[0]] + rest
      else
        [s[0]] + rest
  }

  function DigitChar(d: nat): char
    requires d < 10
  {
    ('0' as int + d) as char
  }

  predicate IsDigit(c: char)
  {
    '0' <= c <= '9'
  }

  /** The decimal rendering of a natural number, without leading zeros. */
  function NatToString(n: nat): (r: string)
    ensures |r| >= 1 && forall i :: 0 <= i < |r| ==> IsDigit(r[i])
    ensures r[0] == '0' ==> n == 0
  {
    if n < 10 then [DigitChar(n)] else NatToString(n / 10) + [DigitChar(n % 10)]
  }

  /** The number a string of decimal digits denotes. */
  function DigitsValue(s: string): nat
    requires forall i :: 0 <= i < |s| ==> IsDigit(s[i])
  {
    if s == [] then 0
    else
      assert IsDigit(s[|s| - 1]);
      DigitsValue(s[..|s| - 1]) * 10 + (s[|s| - 1] as int - '0' as int)
  }

  lemma {:induction false} DigitsValueOfNatToString(n: nat)
    ensures DigitsValue(NatToString(n)) == n
  {
    if n >= 10 {
      DigitsValueOfNatToString(n / 10);
      var r := NatToString(n);
      assert r[..|r| - 1] == NatToString(n / 10);
    }
  }

  /** How JSX renders an integer: an optional minus sign and the digits. */
  function IntToString(n: int): (r: string)
    ensures |r| >= 1 && (r[0] == '-' <==> n < 0) && (r[0] == '-' || IsDigit(r[0]))
  {
    if n < 0 then "-" + NatToString(-n) else NatToString(n)
  }

  /** Reads back a signed decimal: an optional sign followed by at least one digit. */
  function ParseInt(s: string): Option<int>
  {
    var sign := if s != [] && (s[0] == '+' || s[0] == '-') then 1 else 0;
    var digits := s[sign..];
    if digits == [] || exists i :: 0 <= i < |digits| && !IsDigit(digits[i]) then None
    else
      var v: int := DigitsValue(digits);
      if sign == 1 && s[0] == '-' then Some(-v) else Some(v)
  }

  lemma IntToStringRoundTrip(n: int)
    ensures ParseInt(IntToString(n)) == Some(n)
  {
    DigitsValueOfNatToString(if n < 0 then -n else n);
    if n < 0 {
      assert IntToString(n)[1..] == NatToString(-n);
    }
  }
}
