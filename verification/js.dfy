/** The slice of JavaScript semantics the application leans on: truthiness
    of the values a request body or form field can hold, `String.prototype.trim`,
    `String.prototype.split` on one character, `Number(string)`,
    `JSON.stringify` of a number, and `localeCompare`, which is modelled as
    code-point order. */
module Js {
  import opened Wrappers

  /** A JavaScript number. Only integral values are modelled. */
  datatype Num = Finite(value: int) | NaN

  /** `!s` for a string: only the empty string is falsy. */
  predicate FalsyText(s: string) {
    s == ""
  }

  /** `!n` for a JSON number field; `None` is an absent field or `null`,
      and 0 is falsy as well. */
  predicate FalsyNumber(n: Option<int>) {
    n.None? || n.value == 0
  }

  /** `JSON.stringify` writes NaN as `null`. */
  function ToJson(n: Num): (r: Option<int>)
    ensures r.Some? <==> n.Finite?
    ensures n.Finite? ==> r.value == n.value
  {
    match n
    case Finite(v) => Some(v)
    case NaN => None
  }

  // ---------------------------------------------------------------------
  // trim

  /** The WhiteSpace and LineTerminator characters that `trim` removes. */
  predicate IsWhitespace(c: char) {
    || c == '\t' || c == '\n' || c == '\U{0B}' || c == '\U{0C}' || c == '\r' || c == ' '
    || c == '\U{A0}' || c == '\U{1680}' || ('\U{2000}' <= c <= '\U{200A}')
    || c == '\U{2028}' || c == '\U{2029}' || c == '\U{202F}' || c == '\U{205F}'
    || c == '\U{3000}' || c == '\U{FEFF}'
  }

  /** Neither the first nor the last character is whitespace. */
  predicate Trimmed(s: string) {
    |s| == 0 || (!IsWhitespace(s[0]) && !IsWhitespace(s[|s| - 1]))
  }

  predicate AllWhitespace(s: string) {
    forall i :: 0 <= i < |s| ==> IsWhitespace(s[i])
  }

  /** The length of the whitespace run at the start of `s`. */
  function LeadingWhitespace(s: string): (k: nat)
    ensures k <= |s|
    ensures AllWhitespace(s[..k])
    ensures k < |s| ==> !IsWhitespace(s[k])
  {
    if |s| == 0 || !IsWhitespace(s[0]) then 0
    else
      var k := LeadingWhitespace(s[1..]);
      assert s[..k + 1] == [s[0]] + s[1..][..k];
      k + 1
  }

  /** The length of the whitespace run at the end of `s`. */
  function TrailingWhitespace(s: string): (k: nat)
    ensures k <= |s|
    ensures AllWhitespace(s[|s| - k..])
    ensures k < |s| ==> !IsWhitespace(s[|s| - 1 - k])
  {
    if |s| == 0 || !IsWhitespace(s[|s| - 1]) then 0
    else
      var t := s[..|s| - 1];
      var k := TrailingWhitespace(t);
      assert s[|s| - (k + 1)..] == t[|t| - k..] + [s[|s| - 1]];
      k + 1
  }

  /** `s.trim()`: `s` with its leading and trailing whitespace removed. The
      result is the infix of `s` that starts right after the leading run, and
      everything around it is whitespace. */
  function Trim(s: string): (r: string)
    ensures Trimmed(r)
    ensures |r| <= |s|
    ensures LeadingWhitespace(s) + |r| <= |s|
    ensures r == s[LeadingWhitespace(s)..LeadingWhitespace(s) + |r|]
    ensures AllWhitespace(s[..LeadingWhitespace(s)])
    ensures AllWhitespace(s[LeadingWhitespace(s) + |r|..])
    ensures r == "" <==> AllWhitespace(s)
  {
    var a := LeadingWhitespace(s);
    var t := s[a..];
    var b := TrailingWhitespace(t);
    var r := t[..|t| - b];
    assert s[a + |r|..] == t[|t| - b..];
    assert r == "" ==> AllWhitespace(s) by {
      if r == "" {
        assert s == s[..a] + t[|t| - b..];
      }
    }
    assert |r| > 0 ==> !IsWhitespace(r[0]) by {
      if |r| > 0 && a < |s| {
        assert r[0] == s[a];
      }
    }
    r
  }

  /** A string that is already trimmed is left as it is by `trim`. */
  lemma TrimOfTrimmed(s: string)
    requires Trimmed(s)
    ensures Trim(s) == s
  {
    if |s| > 0 {
      assert LeadingWhitespace(s) == 0;
    }
  }

  lemma TrimIdempotent(s: string)
    ensures Trim(Trim(s)) == Trim(s)
  {
    TrimOfTrimmed(Trim(s));
  }

  // ---------------------------------------------------------------------
  // split and join on one separator character

  /** The number of occurrences of `c` in `s`. */
  function Occurrences(s: string, c: char): nat
  {
    if |s| == 0 then 0 else (if s[0] == c then 1 else 0) + Occurrences(s[1..], c)
  }

  /** `s.split(c)`: the pieces between the occurrences of `c`. There is one
      more piece than there are separators, and no piece contains one. */
  function Split(s: string, c: char): (r: seq<string>)
    ensures |r| == Occurrences(s, c) + 1
    ensures forall i :: 0 <= i < |r| ==> c !in r[i]
  {
    if |s| == 0 then [""]
    else
      var rest := Split(s[1..], c);
      if s[0] == c then [""] + rest
      else [[s[0]] + rest[0]] + rest[1..]
  }

  /** `parts.join(c)`. */
  function Join(parts: seq<string>, c: char): string
    requires |parts| > 0
  {
    if |parts| == 1 then parts[0] else parts[0] + [c] + Join(parts[1..], c)
  }

  /** Splitting and joining on the same character gives back the input. */
  lemma {:induction false} JoinSplit(s: string, c: char)
    ensures Join(Split(s, c), c) == s
  {
    if |s| > 0 {
      JoinSplit(s[1..], c);
      var rest := Split(s[1..], c);
      if s[0] == c {
        assert Split(s, c)[1..] == rest;
        assert s == [c] + s[1..];
      } else if |rest| == 1 {
        assert s == [s[0]] + s[1..];
      } else {
        assert Split(s, c)[1..] == rest[1..];
        assert s == [s[0]] + s[1..];
      }
    }
  }

  /** Joining pieces free of the separator and splitting again gives back
      the pieces. */
  lemma {:induction false} SplitJoin(parts: seq<string>, c: char)
    requires |parts| > 0
    requires forall i :: 0 <= i < |parts| ==> c !in parts[i]
    ensures Split(Join(parts, c), c) == parts
  {
    if |parts| == 1 {
      SplitOfPiece(parts[0], c);
    } else {
      SplitJoin(parts[1..], c);
      SplitPrefix(parts[0], Join(parts[1..], c), c);
      assert parts == [parts[0]] + parts[1..];
    }
  }

  lemma {:induction false} SplitOfPiece(s: string, c: char)
    requires c !in s
    ensures Split(s, c) == [s]
  {
    if |s| > 0 {
      SplitOfPiece(s[1..], c);
      assert s == [s[0]] + s[1..];
    }
  }

  /** Prefixing a separator-free piece and one separator prepends that piece. */
  lemma {:induction false} SplitPrefix(p: string, t: string, c: char)
    requires c !in p
    ensures Split(p + [c] + t, c) == [p] + Split(t, c)
  {
    if |p| == 0 {
      assert p + [c] + t == [c] + t;
      assert ([c] + t)[1..] == t;
    } else {
      SplitPrefix(p[1..], t, c);
      assert (p + [c] + t)[1..] == p[1..] + [c] + t;
      assert p == [p[0]] + p[1..];
    }
  }

  // ---------------------------------------------------------------------
  // Number(string) and String(number), for integers

  predicate IsDigit(c: char) {
    '0' <= c <= '9'
  }

  predicate AllDigits(s: string) {
    forall i :: 0 <= i < |s| ==> IsDigit(s[i])
  }

  /** The value of a decimal digit string, most significant digit first. */
  function DigitsValue(s: string): nat
    requires AllDigits(s)
  {
    if |s| == 0 then 0
    else DigitsValue(s[..|s| - 1]) * 10 + ((s[|s| - 1] as int) - ('0' as int))
  }

  /** The shortest decimal digit string of `n`. */
  function NatToDigits(n: nat): (r: string)
    ensures |r| > 0 && AllDigits(r)
    ensures |r| > 1 ==> r[0] != '0'
  {
    var d := ((n % 10) + ('0' as int)) as char;
    if n < 10 then [d] else NatToDigits(n / 10) + [d]
  }

  /** `String(n)` for an integer `n`. */
  function NumberToString(n: int): string
  {
    if n < 0 then "-" + NatToDigits(-n) else NatToDigits(n)
  }

  /** `Number(s)`: the trimmed text read as an optionally signed decimal
      integer; empty or all-whitespace text is 0, anything else is NaN. */
  function StringToNumber(s: string): (r: Num)
    ensures AllWhitespace(s) ==> r == Finite(0)
  {
    var t := Trim(s);
    if t == "" then Finite(0)
    else if |t| > 1 && (t[0] == '-' || t[0] == '+') && AllDigits(t[1..]) then
      Finite(if t[0] == '-' then -(DigitsValue(t[1..]) as int) else DigitsValue(t[1..]))
    else if AllDigits(t) then Finite(DigitsValue(t))
    else NaN
  }

  lemma {:induction false} DigitsRoundTrip(n: nat)
    ensures DigitsValue(NatToDigits(n)) == n
  {
    var d := ((n % 10) + ('0' as int)) as char;
    if n >= 10 {
      DigitsRoundTrip(n / 10);
      var r := NatToDigits(n);
      assert r[..|r| - 1] == NatToDigits(n / 10);
      assert r[|r| - 1] == d;
    }
  }

  /** `Number(String(n)) === n` for every integer. */
  lemma NumberRoundTrip(n: int)
    ensures StringToNumber(NumberToString(n)) == Finite(n)
  {
    var s := NumberToString(n);
    var m: nat := if n < 0 then -n else n;
    DigitsRoundTrip(m);
    var ds := NatToDigits(m);
    assert !IsWhitespace(ds[0]) && !IsWhitespace(ds[|ds| - 1]);
    TrimOfTrimmed(s);
    if n < 0 {
      assert s[1..] == ds;
    }
  }

  // ---------------------------------------------------------------------
  // string order

  /** `a.localeCompare(b) <= 0`, modelled as code-point lexicographic order. */
  predicate LexLe(a: string, b: string) {
    |a| == 0 || (|b| > 0 && (a[0] < b[0] || (a[0] == b[0] && LexLe(a[1..], b[1..]))))
  }

  lemma {:induction false} LexLeReflexive(a: string)
    ensures LexLe(a, a)
  {
    if |a| > 0 {
      LexLeReflexive(a[1..]);
    }
  }

  lemma {:induction false} LexLeTotal(a: string, b: string)
    ensures LexLe(a, b) || LexLe(b, a)
  {
    if |a| > 0 && |b| > 0 && a[0] == b[0] {
      LexLeTotal(a[1..], b[1..]);
    }
  }

  lemma {:induction false} LexLeTransitive(a: string, b: string, c: string)
    requires LexLe(a, b) && LexLe(b, c)
    ensures LexLe(a, c)
  {
    if |a| > 0 && a[0] == b[0] && b[0] == c[0] {
      LexLeTransitive(a[1..], b[1..], c[1..]);
    }
  }

  lemma {:induction false} LexLeAntisymmetric(a: string, b: string)
    requires LexLe(a, b) && LexLe(b, a)
    ensures a == b
  {
    if |a| > 0 {
      LexLeAntisymmetric(a[1..], b[1..]);
      assert a == [a[0]] + a[1..] && b == [b[0]] + b[1..];
    }
  }

  /** The least string of a non-empty list, as the first element after
      `sort((a, b) => a.localeCompare(b))`. */
  function MinString(ss: seq<string>): (m: string)
    requires |ss| > 0
    ensures m in ss
    ensures forall i :: 0 <= i < |ss| ==> LexLe(m, ss[i])
  {
    if |ss| == 1 then LexLeReflexive(ss[0]); ss[0]
    else
      var rest := MinString(ss[1..]);
      LexLeTotal(ss[0], rest);
      if LexLe(ss[0], rest) then
        assert forall i :: 1 <= i < |ss| ==> LexLe(rest, ss[i]) by {
          forall i | 1 <= i < |ss| ensures LexLe(rest, ss[i]) { assert ss[i] == ss[1..][i - 1]; }
        }
        LexLeTransitiveAll(ss[0], rest, ss);
        LexLeReflexive(ss[0]);
        ss[0]
      else
        assert forall i :: 1 <= i < |ss| ==> LexLe(rest, ss[i]) by {
          forall i | 1 <= i < |ss| ensures LexLe(rest, ss[i]) { assert ss[i] == ss[1..][i - 1]; }
        }
        rest
  }

  lemma LexLeTransitiveAll(a: string, b: string, ss: seq<string>)
    requires LexLe(a, b)
    requires forall i :: 1 <= i < |ss| ==> LexLe(b, ss[i])
    ensures forall i :: 1 <= i < |ss| ==> LexLe(a, ss[i])
  {
    forall i | 1 <= i < |ss| ensures LexLe(a, ss[i]) {
      LexLeTransitive(a, b, ss[i]);
    }
  }
}
