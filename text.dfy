/** String helpers of the Python standard library that the scripts rely on:
    `str(n)` for a non-negative int, `str.split(sep)` and `sep.join(parts)`,
    the `in` substring test, `str.endswith` and `posixpath.join`. */
module Text {

  /** `os.sep` on a POSIX system. */
  const Sep: char := '/'

  function DigitChar(d: nat): (c: char)
    requires d < 10
    ensures '0' <= c <= '9'
  {
    ('0' as int + d) as char
  }

  /** `str(n)`: the decimal digits of `n`, most significant first, no sign,
      no leading zero. */
  function NatToString(n: nat): (s: string)
    ensures |s| >= 1
    ensures |s| == 1 <==> n < 10
    ensures forall i :: 0 <= i < |s| ==> '0' <= s[i] <= '9'
    decreases n
  {
    if n < 10 then [DigitChar(n)] else NatToString(n / 10) + [DigitChar(n % 10)]
  }

  /** Two different numbers never print alike, so numbered file names and
      numbered output folders never collide. */
  lemma {:induction false} NatToStringInjective(a: nat, b: nat)
    requires NatToString(a) == NatToString(b)
    ensures a == b
  {
    var s := NatToString(a);
    if a >= 10 && b >= 10 {
      var sa, sb := NatToString(a / 10), NatToString(b / 10);
      assert s == sa + [DigitChar(a % 10)];
      assert s == sb + [DigitChar(b % 10)];
      assert sa == s[..|s| - 1] == sb;
      assert DigitChar(a % 10) == s[|s| - 1] == DigitChar(b % 10);
      NatToStringInjective(a / 10, b / 10);
    } else if a < 10 && b < 10 {
      assert DigitChar(a) == s[0] == DigitChar(b);
    }
  }

  /** A common prefix followed by two different numbers gives two different
      strings. */
  lemma NumberedNamesDistinct(prefix: string, suffix: string, a: nat, b: nat)
    requires a != b
    ensures prefix + NatToString(a) + suffix != prefix + NatToString(b) + suffix
  {
    var sa, sb := NatToString(a), NatToString(b);
    if prefix + sa + suffix == prefix + sb + suffix {
      var x, y := prefix + sa + suffix, prefix + sb + suffix;
      assert |sa| == |sb|;
      assert sa == x[|prefix|..|prefix| + |sa|];
      assert sb == y[|prefix|..|prefix| + |sb|];
      NatToStringInjective(a, b);
    }
  }

  // ---------------------------------------------------------------------
  // str.split(sep) and sep.join(parts)
  // ---------------------------------------------------------------------

  /** `s.split(sep)` for a one-character separator: at least one part, none
      containing the separator. */
  function SplitOn(s: string, sep: char): (parts: seq<string>)
    ensures |parts| >= 1
    ensures forall i :: 0 <= i < |parts| ==> sep !in parts[i]
    decreases |s|
  {
    if s == [] then [""]
    else
      var rest := SplitOn(s[1..], sep);
      if s[0] == sep then [""] + rest
      else [[s[0]] + rest[0]] + rest[1..]
  }

  /** `sep.join(parts)`. */
  function JoinOn(parts: seq<string>, sep: char): string
    requires |parts| >= 1
    decreases |parts|
  {
    if |parts| == 1 then parts[0] else parts[0] + [sep] + JoinOn(parts[1..], sep)
  }

  lemma {:induction false} JoinConsFirst(c: char, parts: seq<string>, sep: char)
    requires |parts| >= 1
    ensures JoinOn([[c] + parts[0]] + parts[1..], sep) == [c] + JoinOn(parts, sep)
  {
    var q := [[c] + parts[0]] + parts[1..];
    assert q[1..] == parts[1..];
  }

  /** Joining what was split gives the text back. */
  lemma {:induction false} JoinSplit(s: string, sep: char)
    ensures JoinOn(SplitOn(s, sep), sep) == s
    decreases |s|
  {
    if s != [] {
      var rest := SplitOn(s[1..], sep);
      JoinSplit(s[1..], sep);
      if s[0] == sep {
        assert ([""] + rest)[1..] == rest;
      } else {
        JoinConsFirst(s[0], rest, sep);
      }
    }
  }

  /** Splitting what was joined gives the parts back, when no part holds the
      separator. */
  lemma {:induction false} SplitJoin(parts: seq<string>, sep: char)
    requires |parts| >= 1
    requires forall i :: 0 <= i < |parts| ==> sep !in parts[i]
    ensures SplitOn(JoinOn(parts, sep), sep) == parts
    decreases |parts|
  {
    if |parts| == 1 {
      SplitNoSep(parts[0], sep);
    } else {
      SplitJoin(parts[1..], sep);
      SplitPrefix(parts[0], JoinOn(parts[1..], sep), sep);
      assert [parts[0]] + parts[1..] == parts;
    }
  }

  /** A text without the separator splits into itself. */
  lemma {:induction false} SplitNoSep(s: string, sep: char)
    requires sep !in s
    ensures SplitOn(s, sep) == [s]
    decreases |s|
  {
    if s != [] {
      assert sep !in s[1..] by {
        forall i | 0 <= i < |s[1..]| ensures s[1..][i] != sep {
          assert s[1..][i] == s[i + 1];
        }
      }
      SplitNoSep(s[1..], sep);
      assert [s[0]] + s[1..] == s;
    }
  }

  /** A separator-free head followed by the separator splits off as the first part. */
  lemma {:induction false} SplitPrefix(a: string, b: string, sep: char)
    requires sep !in a
    ensures SplitOn(a + [sep] + b, sep) == [a] + SplitOn(b, sep)
    decreases |a|
  {
    if a == [] {
      assert a + [sep] + b == [sep] + b;
      assert ([sep] + b)[1..] == b;
    } else {
      var t := a + [sep] + b;
      assert t[0] == a[0];
      assert t[1..] == a[1..] + [sep] + b;
      assert sep !in a[1..] by {
        forall i | 0 <= i < |a[1..]| ensures a[1..][i] != sep {
          assert a[1..][i] == a[i + 1];
        }
      }
      SplitPrefix(a[1..], b, sep);
      assert [a[0]] + a[1..] == a;
    }
  }

  // ---------------------------------------------------------------------
  // Substring tests
  // ---------------------------------------------------------------------

  /** Python's `t in s`. */
  predicate Contains(s: string, t: string) {
    exists i :: 0 <= i <= |s| && t <= s[i..]
  }

  /** Python's `s.endswith(t)`. */
  predicate EndsWith(s: string, t: string) {
    |t| <= |s| && s[|s| - |t|..] == t
  }

  /** A substring of a part is a substring of any text the part sits in. */
  lemma ContainsInContext(a: string, b: string, c: string, t: string)
    requires Contains(b, t)
    ensures Contains(a + b + c, t)
  {
    var i :| 0 <= i <= |b| && t <= b[i..];
    var s := a + b + c;
    assert s[|a| + i..] == b[i..] + c;
    assert t <= s[|a| + i..];
  }

  /** `posixpath.join(a, b)`: `b` alone when it is absolute, otherwise `a` and
      `b` with one separator between them unless `a` is empty or already ends
      with one. */
  function PathJoin(a: string, b: string): (r: string)
    ensures |b| > 0 && b[0] == Sep ==> r == b
    ensures !(|b| > 0 && b[0] == Sep) ==> a <= r && EndsWith(r, b)
  {
    if |b| > 0 && b[0] == Sep then b
    else if a == [] || a[|a| - 1] == Sep then a + b
    else a + [Sep] + b
  }

  /** Joining a relative name onto a directory keeps every substring of either. */
  lemma PathJoinContains(a: string, b: string, t: string)
    requires !(|b| > 0 && b[0] == Sep)
    requires Contains(a, t) || Contains(b, t)
    ensures Contains(PathJoin(a, b), t)
  {
    var r := PathJoin(a, b);
    if a == [] || a[|a| - 1] == Sep {
      if Contains(a, t) { ContainsInContext([], a, b, t); assert [] + a + b == r; }
      else { ContainsInContext(a, b, [], t); assert a + b + [] == r; }
    } else {
      if Contains(a, t) { ContainsInContext([], a, [Sep] + b, t); assert [] + a + ([Sep] + b) == r; }
      else { ContainsInContext(a + [Sep], b, [], t); assert a + [Sep] + b + [] == r; }
    }
  }

  /** `posixpath.join` with a fixed directory never maps two relative names to one path. */
  lemma PathJoinInjective(a: string, b1: string, b2: string)
    requires !(|b1| > 0 && b1[0] == Sep) && !(|b2| > 0 && b2[0] == Sep)
    requires PathJoin(a, b1) == PathJoin(a, b2)
    ensures b1 == b2
  {
    var r := PathJoin(a, b1);
    if a == [] || a[|a| - 1] == Sep {
      assert b1 == r[|a|..] == b2;
    } else {
      assert b1 == r[|a| + 1..] == b2;
    }
  }
}
