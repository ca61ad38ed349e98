/**
 * The JavaScript string operations the dashboard relies on, on `seq<char>`:
 * `String.prototype.trim`, `String.prototype.split` with a one-character
 * separator, `Array.prototype.join`, and number-to-string conversion of an
 * integer inside a template literal.
 */
module Text {

  /** The characters `trim` removes: ECMAScript WhiteSpace and LineTerminator. */
  predicate IsSpace(c: char) {
    || c == '\t' || c == '\n' || c == '\U{000B}' || c == '\U{000C}' || c == '\r'
    || c == ' ' || c == '\U{00A0}' || c == '\U{1680}'
    || ('\U{2000}' <= c <= '\U{200A}')
    || c == '\U{2028}' || c == '\U{2029}' || c == '\U{202F}' || c == '\U{205F}'
    || c == '\U{3000}' || c == '\U{FEFF}'
  }

  predicate AllSpace(s: string) {
    forall i :: 0 <= i < |s| ==> IsSpace(s[i])
  }

  /** A string with no whitespace at either end (what `trim` returns). */
  predicate Trimmed(s: string) {
    s == [] || (!IsSpace(s[0]) && !IsSpace(s[|s| - 1]))
  }

  /** The index of the first non-whitespace character, or |s| if there is none. */
  function TrimStart(s: string): (k: nat)
    ensures k <= |s|
    ensures forall j :: 0 <= j < k ==> IsSpace(s[j])
    ensures k < |s| ==> !IsSpace(s[k])
  {
    if |s| == 0 || !IsSpace(s[0]) then 0 else 1 + TrimStart(s[1..])
  }

  /** One past the last non-whitespace character, or TrimStart(s) if there is none. */
  function TrimEnd(s: string): (k: nat)
    ensures TrimStart(s) <= k <= |s|
    ensures forall j :: k <= j < |s| ==> IsSpace(s[j])
    ensures TrimStart(s) < k ==> !IsSpace(s[k - 1])
    decreases |s|
  {
    if |s| == TrimStart(s) || !IsSpace(s[|s| - 1]) then |s|
    else
      assert TrimStart(s[..|s| - 1]) == TrimStart(s) by { TrimStartPrefix(s); }
      TrimEnd(s[..|s| - 1])
  }

  lemma {:induction false} TrimStartPrefix(s: string)
    requires TrimStart(s) < |s| && IsSpace(s[|s| - 1])
    ensures TrimStart(s[..|s| - 1]) == TrimStart(s)
    decreases |s|
  {
    if |s| > 0 && IsSpace(s[0]) {
      assert s[1..][..|s[1..]| - 1] == s[..|s| - 1][1..];
      TrimStartPrefix(s[1..]);
    }
  }

  /** JavaScript `s.trim()`. */
  function Trim(s: string): (r: string)
    ensures Trimmed(r)
    ensures |r| <= |s|
    ensures r == s[TrimStart(s)..TrimEnd(s)]
    ensures r == [] <==> AllSpace(s)
  {
    var r := s[TrimStart(s)..TrimEnd(s)];
    assert r == [] ==> forall j :: 0 <= j < |s| ==> IsSpace(s[j]);
    r
  }

  /**
   * `trim` is characterised by its result alone: whitespace, then a string
   * with non-whitespace ends, then whitespace, trims to that middle string.
   */
  lemma TrimUnique(a: string, m: string, b: string)
    requires AllSpace(a) && AllSpace(b) && Trimmed(m)
    ensures Trim(a + m + b) == m
  {
    var s := a + m + b;
    assert forall j :: 0 <= j < |a| ==> s[j] == a[j];
    assert forall j :: |a| + |m| <= j < |s| ==> s[j] == b[j - |a| - |m|];
    if m != [] {
      assert s[|a|] == m[0];
      assert s[|a| + |m| - 1] == m[|m| - 1];
      assert TrimStart(s) == |a|;
      assert TrimEnd(s) == |a| + |m|;
      assert s[|a|..|a| + |m|] == m;
    }
  }

  lemma TrimIdempotent(s: string)
    ensures Trim(Trim(s)) == Trim(s)
  {
    TrimUnique([], Trim(s), []);
  }

  /** Whitespace around a string does not change what it trims to. */
  lemma TrimPadded(a: string, x: string, b: string)
    requires AllSpace(a) && AllSpace(b)
    ensures Trim(a + x + b) == Trim(x)
  {
    var lo, hi := TrimStart(x), TrimEnd(x);
    var m := Trim(x);
    assert x == x[..lo] + m + x[hi..];
    AllSpaceConcat(a, x[..lo]);
    AllSpaceConcat(x[hi..], b);
    Regrouped(a, x[..lo], m, x[hi..], b);
    TrimUnique(a + x[..lo], m, x[hi..] + b);
  }

  lemma AllSpaceConcat(u: string, v: string)
    requires AllSpace(u) && AllSpace(v)
    ensures AllSpace(u + v)
  {
    forall j | 0 <= j < |u + v| ensures IsSpace((u + v)[j]) {
      if j < |u| {
        assert (u + v)[j] == u[j];
      } else {
        assert (u + v)[j] == v[j - |u|];
      }
    }
  }

  /** The three parts of a concatenation are found at their offsets. */
  lemma Concat3<T>(x: seq<T>, y: seq<T>, z: seq<T>)
    ensures var s := x + y + z;
      && |s| == |x| + |y| + |z|
      && s[..|x|] == x && s[|x|..|x| + |y|] == y && s[|x| + |y|..] == z
  {
    var s := x + y + z;
    assert s[..|x|] == x;
    assert s[|x|..|x| + |y|] == y;
    assert s[|x| + |y|..] == z;
  }

  /** An element missing from three sequences is missing from their concatenation. */
  lemma NoneInParts<T>(x: seq<T>, y: seq<T>, z: seq<T>, c: T)
    ensures c !in x && c !in y && c !in z ==> c !in x + y + z
  {
  }

  /** Padding around the three parts of a string moves onto its outer parts. */
  lemma Regrouped<T>(a: seq<T>, p: seq<T>, m: seq<T>, q: seq<T>, b: seq<T>)
    ensures a + (p + m + q) + b == (a + p) + m + (q + b)
  {
  }

  lemma TrimPreservesAbsence(s: string, c: char)
    requires c !in s
    ensures c !in Trim(s)
  {
  }

  /**
   * JavaScript `s.split(c)` for a one-character separator: the pieces between
   * separators, in order; the empty string gives one empty piece.
   */
  function Split(s: string, c: char): (r: seq<string>)
    ensures |r| >= 1
    ensures forall k :: 0 <= k < |r| ==> c !in r[k]
    ensures forall k, ch :: 0 <= k < |r| && ch in r[k] ==> ch in s
    decreases |s|
  {
    if |s| == 0 then [""]
    else
      var rest := Split(s[1..], c);
      assert forall ch :: ch in s[1..] ==> ch in s;
      if s[0] == c then [""] + rest
      else [[s[0]] + rest[0]] + rest[1..]
  }

  /** JavaScript `parts.join(sep)`. */
  function Join(parts: seq<string>, sep: string): (r: string)
    ensures |parts| == 1 ==> r == parts[0]
    ensures |parts| == 0 ==> r == ""
  {
    if |parts| == 0 then ""
    else if |parts| == 1 then parts[0]
    else parts[0] + sep + Join(parts[1..], sep)
  }

  lemma JoinCons(x: string, rest: seq<string>, sep: string)
    requires |rest| >= 1
    ensures Join([x] + rest, sep) == x + sep + Join(rest, sep)
  {
    assert ([x] + rest)[1..] == rest;
  }

  /** A join holds no character that neither the pieces nor the separator hold. */
  lemma JoinNoChar(parts: seq<string>, sep: string, c: char)
    requires forall k :: 0 <= k < |parts| ==> c !in parts[k]
    requires c !in sep
    ensures c !in Join(parts, sep)
  {
    if |parts| > 1 {
      JoinNoChar(parts[1..], sep, c);
    }
  }

  /** Joining the pieces of a split with the separator gives the string back. */
  lemma {:induction false} JoinSplit(s: string, c: char)
    ensures Join(Split(s, c), [c]) == s
    decreases |s|
  {
    if |s| > 0 {
      var rest := Split(s[1..], c);
      JoinSplit(s[1..], c);
      if s[0] == c {
        assert Split(s, c)[1..] == rest;
        assert s == [c] + s[1..];
      } else {
        var r := Split(s, c);
        if |rest| == 1 {
          assert s == [s[0]] + s[1..];
        } else {
          assert r[1..] == rest[1..];
          assert Join(rest, [c]) == rest[0] + [c] + Join(rest[1..], [c]);
          assert s == [s[0]] + s[1..];
        }
      }
    }
  }

  lemma SplitNoSeparator(s: string, c: char)
    requires c !in s
    ensures Split(s, c) == [s]
    decreases |s|
  {
    if |s| > 0 {
      assert c !in s[1..];
      SplitNoSeparator(s[1..], c);
      assert [s[0]] + s[1..] == s;
    }
  }

  /** A separator between two strings splits them apart. */
  lemma {:induction false} SplitAround(a: string, b: string, c: char)
    ensures Split(a + [c] + b, c) == Split(a, c) + Split(b, c)
    decreases |a|
  {
    var s := a + [c] + b;
    var B := Split(b, c);
    if |a| == 0 {
      assert s[0] == c && s[1..] == b;
      assert Split(s, c) == [""] + B;
      assert Split(a, c) == [""];
    } else {
      assert s[0] == a[0] && s[1..] == a[1..] + [c] + b;
      SplitAround(a[1..], b, c);
      var A := Split(a[1..], c);
      var R := A + B;
      if a[0] == c {
        assert Split(s, c) == [""] + R;
        assert Split(a, c) == [""] + A;
      } else {
        assert Split(s, c) == [[a[0]] + R[0]] + R[1..];
        assert Split(a, c) == [[a[0]] + A[0]] + A[1..];
        assert R[0] == A[0] && R[1..] == A[1..] + B;
      }
    }
  }

  /** A leading separator puts an empty piece in front. */
  lemma SplitLeadingSeparator(x: string, c: char)
    ensures Split([c] + x, c) == [""] + Split(x, c)
  {
    SplitAround("", x, c);
    assert "" + [c] + x == [c] + x;
  }

  /** A separator-free head up to the first separator is the first piece. */
  lemma SplitFirstPiece(h: string, x: string, c: char)
    requires c !in h
    ensures Split(h + [c] + x, c) == [h] + Split(x, c)
  {
    SplitNoSeparator(h, c);
    SplitAround(h, x, c);
  }

  /** A separator-free prefix joins the first piece; the other pieces stay. */
  lemma {:induction false} SplitPrefix(a: string, s: string, c: char)
    requires c !in a
    ensures |Split(a + s, c)| == |Split(s, c)|
    ensures Split(a + s, c)[0] == a + Split(s, c)[0]
    ensures Split(a + s, c)[1..] == Split(s, c)[1..]
    decreases |a|
  {
    if |a| > 0 {
      var t := a + s;
      assert t[0] == a[0] != c;
      assert t[1..] == a[1..] + s;
      SplitPrefix(a[1..], s, c);
      var rest := Split(t[1..], c);
      assert Split(t, c) == [[a[0]] + rest[0]] + rest[1..];
      assert [a[0]] + (a[1..] + Split(s, c)[0]) == a + Split(s, c)[0];
    } else {
      assert a + s == s;
    }
  }

  /** A separator-free suffix joins the last piece; the other pieces stay. */
  lemma {:induction false} SplitSuffix(s: string, b: string, c: char)
    requires c !in b
    ensures |Split(s + b, c)| == |Split(s, c)|
    ensures var n := |Split(s, c)|;
      && Split(s + b, c)[..n - 1] == Split(s, c)[..n - 1]
      && Split(s + b, c)[n - 1] == Split(s, c)[n - 1] + b
    decreases |s|
  {
    if |s| == 0 {
      SplitNoSeparator(b, c);
      assert s + b == b && Split(s, c) == [""];
      assert "" + b == b;
    } else {
      var t := s + b;
      assert t[0] == s[0] && t[1..] == s[1..] + b;
      SplitSuffix(s[1..], b, c);
      var rest, restB := Split(s[1..], c), Split(s[1..] + b, c);
      var m := |rest|;
      var S, T := Split(s, c), Split(t, c);
      if s[0] == c {
        assert S == [""] + rest && T == [""] + restB;
        ConsPrefix("", rest, restB);
      } else if m == 1 {
        assert S == [[s[0]] + rest[0]] && T == [[s[0]] + restB[0]];
        assert restB[0] == rest[0] + b;
        assert [s[0]] + (rest[0] + b) == [s[0]] + rest[0] + b;
        assert T[0] == S[0] + b;
      } else {
        assert S == [[s[0]] + rest[0]] + rest[1..] && T == [[s[0]] + restB[0]] + restB[1..];
        HeadPrefix([s[0]], rest, restB);
      }
    }
  }

  /** Putting one element in front of two sequences keeps their common prefix. */
  lemma ConsPrefix<T>(e: T, r: seq<T>, rb: seq<T>)
    requires |r| == |rb| >= 1 && rb[..|r| - 1] == r[..|r| - 1]
    ensures ([e] + rb)[..|r|] == ([e] + r)[..|r|] && ([e] + rb)[|r|] == rb[|r| - 1]
  {
    assert ([e] + rb)[..|r|] == [e] + rb[..|r| - 1];
    assert ([e] + r)[..|r|] == [e] + r[..|r| - 1];
  }

  /** Prefixing the first piece of two piece lists keeps their common prefix. */
  lemma HeadPrefix<T>(x: seq<T>, r: seq<seq<T>>, rb: seq<seq<T>>)
    requires |r| == |rb| >= 2 && rb[..|r| - 1] == r[..|r| - 1]
    ensures var n := |r|;
      && ([x + rb[0]] + rb[1..])[..n - 1] == ([x + r[0]] + r[1..])[..n - 1]
      && ([x + rb[0]] + rb[1..])[n - 1] == rb[n - 1]
  {
    var n := |r|;
    assert rb[0] == rb[..n - 1][0] == r[..n - 1][0] == r[0];
    assert rb[1..n - 1] == rb[..n - 1][1..] == r[..n - 1][1..] == r[1..n - 1];
    assert ([x + rb[0]] + rb[1..])[..n - 1] == [x + rb[0]] + rb[1..n - 1];
    assert ([x + r[0]] + r[1..])[..n - 1] == [x + r[0]] + r[1..n - 1];
  }

  /** Splitting a join of separator-free pieces gives the pieces back. */
  lemma {:induction false} SplitJoin(parts: seq<string>, c: char)
    requires |parts| >= 1
    requires forall k :: 0 <= k < |parts| ==> c !in parts[k]
    ensures Split(Join(parts, [c]), c) == parts
  {
    if |parts| == 1 {
      SplitNoSeparator(parts[0], c);
    } else {
      SplitJoin(parts[1..], c);
      SplitAround(parts[0], Join(parts[1..], [c]), c);
      SplitNoSeparator(parts[0], c);
      assert [parts[0]] + parts[1..] == parts;
    }
  }

  /** A heading line after a line break, then the lines joined: each comes back. */
  lemma HeadedSplit(heading: string, lines: seq<string>)
    requires |lines| > 0
    requires '\n' !in heading
    requires forall k :: 0 <= k < |lines| ==> '\n' !in lines[k]
    ensures Split("\n" + heading + "\n" + Join(lines, "\n"), '\n') == ["", heading] + lines
  {
    var joined := Join(lines, "\n");
    SplitJoin(lines, '\n');
    SplitFirstPiece(heading, joined, '\n');
    SplitLeadingSeparator(heading + ['\n'] + joined, '\n');
    LeadingBreak(heading, joined);
  }

  /** The heading text starts with its line break; the rest is the heading line and what follows it. */
  lemma LeadingBreak(heading: string, rest: string)
    ensures "\n" + heading + "\n" + rest == ['\n'] + (heading + ['\n'] + rest)
  {
  }

  /** Splitting a join of arbitrary pieces splits each piece, in order. */
  lemma {:induction false} SplitJoinPieces(parts: seq<string>, c: char)
    requires |parts| >= 1
    ensures Split(Join(parts, [c]), c) == SplitEach(parts, c)
  {
    if |parts| > 1 {
      SplitJoinPieces(parts[1..], c);
      SplitAround(parts[0], Join(parts[1..], [c]), c);
    }
  }

  /** The pieces of every string in `parts`, concatenated in order. */
  function SplitEach(parts: seq<string>, c: char): seq<string> {
    if |parts| == 0 then [] else Split(parts[0], c) + SplitEach(parts[1..], c)
  }

  function CountChar(s: string, c: char): nat {
    if |s| == 0 then 0 else (if s[0] == c then 1 else 0) + CountChar(s[1..], c)
  }

  /** `s.split(c)` has one more piece than `s` has occurrences of `c`. */
  lemma {:induction false} SplitLength(s: string, c: char)
    ensures |Split(s, c)| == CountChar(s, c) + 1
    decreases |s|
  {
    if |s| > 0 {
      SplitLength(s[1..], c);
    }
  }

  function DigitChar(d: nat): (ch: char)
    requires d < 10
    ensures '0' <= ch <= '9'
    ensures DigitValue(ch) == d
  {
    ('0' as int + d) as char
  }

  /** The numeric value of a decimal digit. */
  function DigitValue(ch: char): int {
    ch as int - '0' as int
  }

  /** The value of a string of decimal digits, read most significant first. */
  function Value(ds: string): int {
    if |ds| == 0 then 0 else 10 * Value(ds[..|ds| - 1]) + DigitValue(ds[|ds| - 1])
  }

  /** `${n}` for n >= 0: the shortest decimal numeral, with no leading zero. */
  function NatToString(n: nat): (r: string)
    ensures |r| >= 1
    ensures forall k :: 0 <= k < |r| ==> '0' <= r[k] <= '9'
    ensures n < 10 <==> |r| == 1
    ensures r[0] == '0' <==> n == 0
  {
    if n < 10 then [DigitChar(n)] else NatToString(n / 10) + [DigitChar(n % 10)]
  }

  /** The numeral reads back as the number it was made from. */
  lemma {:induction false} NatToStringValue(n: nat)
    ensures Value(NatToString(n)) == n
    decreases n
  {
    var r := NatToString(n);
    if n < 10 {
      assert r[..0] == [];
    } else {
      NatToStringValue(n / 10);
      assert r[..|r| - 1] == NatToString(n / 10);
    }
  }

  /** The decimal text a JavaScript template literal gives an integer. */
  function IntToString(n: int): (r: string)
    ensures |r| >= 1
    ensures forall k :: 0 <= k < |r| ==> r[k] == '-' || '0' <= r[k] <= '9'
    ensures n < 0 <==> r[0] == '-'
  {
    if n < 0 then "-" + NatToString(-n) else NatToString(n)
  }

  /** An optional minus sign, then a decimal numeral. */
  function SignedValue(s: string): int {
    if |s| > 0 && s[0] == '-' then -Value(s[1..]) else Value(s)
  }

  /** The printed integer reads back as itself, negative numbers included. */
  lemma IntToStringValue(n: int)
    ensures SignedValue(IntToString(n)) == n
  {
    if n < 0 {
      NatToStringValue(-n);
      assert IntToString(n)[1..] == NatToString(-n);
    } else {
      NatToStringValue(n);
    }
  }
}
