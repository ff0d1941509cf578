/**
 * The functions of Go's `strings` package that the core relies on, on
 * strings of characters: `Split` with a one-character separator,
 * `TrimSpace` over the ASCII white-space set, and `ToLower` over ASCII
 * letters. Each comes with the reference property that pins it down.
 */
module GoStrings {

  /** The white space `strings.TrimSpace` removes from ASCII text: '\t', '\n', '\v', '\f', '\r', ' '. */
  predicate IsSpace(c: char) {
    c == ' ' || c == '\t' || c == '\n' || c == '\U{000B}' || c == '\U{000C}' || c == '\r'
  }

  predicate AllSpace(s: string) {
    forall i :: 0 <= i < |s| ==> IsSpace(s[i])
  }

  /** Neither starts nor ends with white space. */
  predicate IsTrimmed(s: string) {
    s == [] || (!IsSpace(s[0]) && !IsSpace(s[|s| - 1]))
  }

  /** The number of occurrences of `c` in `s`. */
  function Count(s: string, c: char): nat {
    if s == [] then 0 else (if s[0] == c then 1 else 0) + Count(s[1..], c)
  }

  // ---------------------------------------------------------------------------
  // strings.Split
  // ---------------------------------------------------------------------------

  /**
   * `strings.Split(s, string(sep))`: the pieces between the occurrences of
   * `sep`, so one more piece than there are separators; "" splits into [""].
   */
  function Split(s: string, sep: char): (parts: seq<string>)
    ensures |parts| == Count(s, sep) + 1
    ensures forall i :: 0 <= i < |parts| ==> sep !in parts[i]
  {
    if s == [] then [[]]
    else
      var rest := Split(s[1..], sep);
      if s[0] == sep then [[]] + rest
      else [[s[0]] + rest[0]] + rest[1..]
  }

  /** `strings.Join(parts, string(sep))`, the inverse of Split. */
  function Join(parts: seq<string>, sep: char): string {
    if |parts| == 0 then []
    else if |parts| == 1 then parts[0]
    else parts[0] + [sep] + Join(parts[1..], sep)
  }

  /** Joining the pieces again gives back the string that was split. */
  lemma {:induction false} JoinSplit(s: string, sep: char)
    ensures Join(Split(s, sep), sep) == s
  {
    if s != [] {
      JoinSplit(s[1..], sep);
      var rest := Split(s[1..], sep);
      var parts := Split(s, sep);
      if s[0] == sep {
        assert parts == [[]] + rest && parts[1..] == rest;
        assert s == [sep] + s[1..];
      } else if |rest| == 1 {
        assert parts == [[s[0]] + rest[0]];
        assert s == [s[0]] + s[1..];
      } else {
        assert parts[0] == [s[0]] + rest[0] && parts[1..] == rest[1..];
        calc {
          Join(parts, sep);
          parts[0] + [sep] + Join(rest[1..], sep);
          [s[0]] + (rest[0] + [sep] + Join(rest[1..], sep));
          [s[0]] + s[1..];
        }
      }
    }
  }

  /** A string without the separator is one piece. */
  lemma {:induction false} SplitWithoutSeparator(w: string, sep: char)
    requires sep !in w
    ensures Split(w, sep) == [w]
  {
    if w != [] {
      SplitWithoutSeparator(w[1..], sep);
      assert w == [w[0]] + w[1..];
    }
  }

  /** A separator-free word followed by the separator is split off as the first piece. */
  lemma {:induction false} SplitAfterWord(w: string, rest: string, sep: char)
    requires sep !in w
    ensures Split(w + [sep] + rest, sep) == [w] + Split(rest, sep)
  {
    var s := w + [sep] + rest;
    if w == [] {
      assert s == [sep] + rest && s[1..] == rest;
    } else {
      assert s[1..] == w[1..] + [sep] + rest;
      SplitAfterWord(w[1..], rest, sep);
      assert [w[0]] + w[1..] == w;
    }
  }

  /** Splitting a join of separator-free pieces gives the pieces back. */
  lemma {:induction false} SplitJoin(parts: seq<string>, sep: char)
    requires |parts| >= 1
    requires forall i :: 0 <= i < |parts| ==> sep !in parts[i]
    ensures Split(Join(parts, sep), sep) == parts
  {
    if |parts| == 1 {
      SplitWithoutSeparator(parts[0], sep);
    } else {
      SplitJoin(parts[1..], sep);
      SplitAfterWord(parts[0], Join(parts[1..], sep), sep);
      assert [parts[0]] + parts[1..] == parts;
    }
  }

  // ---------------------------------------------------------------------------
  // strings.TrimSpace
  // ---------------------------------------------------------------------------

  /** Drop the leading white space. */
  function TrimLeftSpace(s: string): (r: string)
    ensures |r| <= |s|
  {
    if s != [] && IsSpace(s[0]) then TrimLeftSpace(s[1..]) else s
  }

  /** Drop the trailing white space. */
  function TrimRightSpace(s: string): (r: string)
    ensures |r| <= |s|
  {
    if s != [] && IsSpace(s[|s| - 1]) then TrimRightSpace(s[..|s| - 1]) else s
  }

  /** TrimLeftSpace removes a prefix of white space and stops at the first other character. */
  lemma {:induction false} TrimLeftSpaceFacts(s: string)
    ensures var r := TrimLeftSpace(s);
      r == s[|s| - |r|..] && (r == [] || !IsSpace(r[0])) && AllSpace(s[..|s| - |r|])
  {
    if s != [] && IsSpace(s[0]) {
      TrimLeftSpaceFacts(s[1..]);
      var r := TrimLeftSpace(s);
      assert s[..|s| - |r|] == [s[0]] + s[1..][..|s| - 1 - |r|];
    }
  }

  /** TrimRightSpace removes a suffix of white space and stops at the last other character. */
  lemma {:induction false} TrimRightSpaceFacts(s: string)
    ensures var r := TrimRightSpace(s);
      r == s[..|r|] && (r == [] || !IsSpace(r[|r| - 1])) && AllSpace(s[|r|..])
  {
    if s != [] && IsSpace(s[|s| - 1]) {
      var t := s[..|s| - 1];
      TrimRightSpaceFacts(t);
      var r := TrimRightSpace(s);
      assert s[|r|..] == t[|r|..] + [s[|s| - 1]];
    }
  }

  /**
   * `strings.TrimSpace(s)`: the part of `s` between its leading and its
   * trailing white space.
   */
  function TrimSpace(s: string): (r: string)
    ensures IsTrimmed(r)
  {
    TrimLeftSpaceFacts(s);
    TrimRightSpaceFacts(TrimLeftSpace(s));
    TrimRightSpace(TrimLeftSpace(s))
  }

  /** What TrimSpace removes: the result sits inside `s` with only white space before and after it. */
  lemma TrimSpaceIsCore(s: string)
    ensures var r, i := TrimSpace(s), |s| - |TrimLeftSpace(s)|;
      i + |r| <= |s| && r == s[i..i + |r|] && AllSpace(s[..i]) && AllSpace(s[i + |r|..])
  {
    var x := TrimLeftSpace(s);
    var r := TrimRightSpace(x);
    TrimLeftSpaceFacts(s);
    TrimRightSpaceFacts(x);
    assert s[|s| - |x| + |r|..] == x[|r|..];
  }

  lemma {:induction false} TrimLeftOfSpaces(a: string, x: string)
    requires AllSpace(a)
    requires x == [] || !IsSpace(x[0])
    ensures TrimLeftSpace(a + x) == x
  {
    if a != [] {
      assert (a + x)[1..] == a[1..] + x;
      TrimLeftOfSpaces(a[1..], x);
    }
  }

  lemma {:induction false} TrimRightOfSpaces(x: string, b: string)
    requires AllSpace(b)
    requires x == [] || !IsSpace(x[|x| - 1])
    ensures TrimRightSpace(x + b) == x
  {
    if b != [] {
      assert (x + b)[..|x + b| - 1] == x + b[..|b| - 1];
      TrimRightOfSpaces(x, b[..|b| - 1]);
    }
  }

  /**
   * The reference property of TrimSpace: a trimmed core surrounded by white
   * space trims to exactly that core; with TrimSpaceIsCore, the two directions.
   */
  lemma TrimSpaceOf(a: string, m: string, b: string)
    requires AllSpace(a) && AllSpace(b) && IsTrimmed(m)
    ensures TrimSpace(a + m + b) == m
  {
    if m == [] {
      assert a + m + b == (a + b) + [];
      TrimLeftOfSpaces(a + b, []);
    } else {
      assert a + m + b == a + (m + b);
      TrimLeftOfSpaces(a, m + b);
      TrimRightOfSpaces(m, b);
    }
  }

  /** A string trims to "" exactly when it is all white space. */
  lemma BlankIffAllSpace(s: string)
    ensures TrimSpace(s) == [] <==> AllSpace(s)
  {
    if AllSpace(s) {
      TrimSpaceOf(s, [], []);
      assert s + [] + [] == s;
    } else {
      if TrimSpace(s) == [] {
        TrimSpaceIsCore(s);
        var i := |s| - |TrimLeftSpace(s)|;
        assert AllSpace(s[..i]) && AllSpace(s[i..]);
        forall k | 0 <= k < |s| ensures IsSpace(s[k]) {
          if k < i { assert s[..i][k] == s[k]; } else { assert s[i..][k - i] == s[k]; }
        }
        assert false;
      }
    }
  }

  /** Trimming twice is trimming once. */
  lemma TrimSpaceIdempotent(s: string)
    ensures TrimSpace(TrimSpace(s)) == TrimSpace(s)
  {
    var m := TrimSpace(s);
    TrimSpaceOf([], m, []);
    assert [] + m + [] == m;
  }

  // ---------------------------------------------------------------------------
  // strings.ToLower
  // ---------------------------------------------------------------------------

  function LowerChar(c: char): char {
    if 'A' <= c <= 'Z' then (c as int + 32) as char else c
  }

  /** `strings.ToLower(s)` on ASCII letters: each letter mapped to lower case, in place. */
  function ToLower(s: string): (r: string)
    ensures |r| == |s|
    ensures forall i :: 0 <= i < |s| ==> r[i] == LowerChar(s[i])
  {
    if s == [] then [] else [LowerChar(s[0])] + ToLower(s[1..])
  }

  /**
   * The scheme test `strings.ToLower(p) == "bearer"` accepts exactly the
   * six-letter words spelling "bearer" with any mix of upper and lower case.
   */
  lemma BearerSpellings(p: string)
    ensures ToLower(p) == "bearer" <==>
      |p| == 6 && forall i :: 0 <= i < 6 ==> p[i] == "bearer"[i] || p[i] == "BEARER"[i]
  {
    var lower, upper := "bearer", "BEARER";
    assert forall i :: 0 <= i < 6 ==> 'a' <= lower[i] <= 'z' && upper[i] as int == lower[i] as int - 32;
    if |p| == 6 && forall i :: 0 <= i < 6 ==> p[i] == lower[i] || p[i] == upper[i] {
      forall i | 0 <= i < 6 ensures ToLower(p)[i] == lower[i] {
        LowerCharIs(p[i], lower[i]);
      }
    }
    if ToLower(p) == lower {
      forall i | 0 <= i < 6 ensures p[i] == lower[i] || p[i] == upper[i] {
        LowerCharIs(p[i], lower[i]);
      }
    }
  }

  /** The characters that lower-case to a given lower-case letter: itself and its capital. */
  lemma LowerCharIs(c: char, l: char)
    requires 'a' <= l <= 'z'
    ensures LowerChar(c) == l <==> c == l || c as int == l as int - 32
  {
  }
}
