/** The JavaScript string operations the two routes rely on: `toLowerCase`,
    `toUpperCase`, `trim`, `includes`, `join('\n')` and `split('\n')`.
    Case mapping is the ASCII one; every other character maps to itself. */
module Strings {

  /** The white-space and line-terminator characters, as `String.prototype.trim`
      and the regular-expression class `\s` both see them. */
  const SpaceChars: set<char> := {' ', '\t', '\n', '\r', '\U{B}', '\U{C}', '\U{A0}', '\U{1680}', '\U{2000}', '\U{2001}', '\U{2002}', '\U{2003}', '\U{2004}', '\U{2005}', '\U{2006}', '\U{2007}', '\U{2008}', '\U{2009}', '\U{200A}', '\U{2028}', '\U{2029}', '\U{202F}', '\U{205F}', '\U{3000}', '\U{FEFF}'}
  predicate IsSpace(c: char) { c in SpaceChars }

  predicate AllSpace(s: string) {
    forall i :: 0 <= i < |s| ==> IsSpace(s[i])
  }

  /** A string `trim` leaves as it is: empty, or neither end is white space. */
  predicate Trimmed(s: string) {
    s == [] || (!IsSpace(s[0]) && !IsSpace(s[|s| - 1]))
  }

  function LowerChar(c: char): char {
    if 'A' <= c <= 'Z' then (c as int + 32) as char else c
  }

  function UpperChar(c: char): char {
    if 'a' <= c <= 'z' then (c as int - 32) as char else c
  }

  function Lower(s: string): (r: string)
    ensures |r| == |s|
    ensures forall i :: 0 <= i < |s| ==> r[i] == LowerChar(s[i])
    ensures forall i :: 0 <= i < |r| ==> !('A' <= r[i] <= 'Z')
    ensures forall i :: 0 <= i < |s| && !('A' <= s[i] <= 'Z') ==> r[i] == s[i]
  {
    seq(|s|, i requires 0 <= i < |s| => LowerChar(s[i]))
  }

  function Upper(s: string): (r: string)
    ensures |r| == |s|
    ensures forall i :: 0 <= i < |s| ==> r[i] == UpperChar(s[i])
    ensures forall i :: 0 <= i < |r| ==> !('a' <= r[i] <= 'z')
    ensures forall i :: 0 <= i < |s| && !('a' <= s[i] <= 'z') ==> r[i] == s[i]
  {
    seq(|s|, i requires 0 <= i < |s| => UpperChar(s[i]))
  }

  function TrimStart(s: string): string {
    if |s| > 0 && IsSpace(s[0]) then TrimStart(s[1..]) else s
  }

  function TrimEnd(s: string): string {
    if |s| > 0 && IsSpace(s[|s| - 1]) then TrimEnd(s[..|s| - 1]) else s
  }

  /** `s.trim()`: no longer than `s`, and neither end is white space. */
  function Trim(s: string): (r: string)
    ensures |r| <= |s|
    ensures Trimmed(r)
  {
    TrimStartSplit(s);
    TrimEndSplit(TrimStart(s));
    TrimEndKeepsStart(TrimStart(s));
    TrimEnd(TrimStart(s))
  }

  predicate IsPrefix(p: string, s: string) {
    |p| <= |s| && s[..|p|] == p
  }

  /** `s.includes(sub)`: some window of `s` equals `sub` (the empty string is
      included in every string). */
  predicate Contains(s: string, sub: string)
    ensures Contains(s, sub) ==> |sub| <= |s|
  {
    IsPrefix(sub, s) || (|s| > 0 && Contains(s[1..], sub))
  }

  /** `lines.join('\n')`. */
  function JoinLines(lines: seq<string>): (r: string)
    ensures |lines| == 0 ==> r == ""
    ensures |lines| > 0 ==> IsPrefix(lines[0], r)
  {
    if |lines| == 0 then ""
    else if |lines| == 1 then lines[0]
    else lines[0] + "\n" + JoinLines(lines[1..])
  }

  function FirstIndex(s: string, c: char): (k: nat)
    requires c in s
    ensures k < |s| && s[k] == c && c !in s[..k]
  {
    if s[0] == c then 0 else 1 + FirstIndex(s[1..], c)
  }

  /** `s.split('\n')`: the pieces between newlines; always at least one. */
  function SplitLines(s: string): (r: seq<string>)
    ensures |r| > 0
    decreases |s|
  {
    if '\n' !in s then [s]
    else
      var k := FirstIndex(s, '\n');
      [s[..k]] + SplitLines(s[k + 1..])
  }

  // ---------------------------------------------------------------- trim

  lemma Assoc(a: string, b: string, c: string)
    ensures a + (b + c) == (a + b) + c
  {
  }

  lemma {:induction false} TrimStartOf(p: string, r: string)
    requires AllSpace(p)
    requires r == [] || !IsSpace(r[0])
    ensures TrimStart(p + r) == r
    decreases |p|
  {
    if p == [] {
      assert p + r == r;
    } else {
      assert (p + r)[1..] == p[1..] + r;
      TrimStartOf(p[1..], r);
    }
  }

  lemma {:induction false} TrimEndOf(r: string, q: string)
    requires AllSpace(q)
    requires r == [] || !IsSpace(r[|r| - 1])
    ensures TrimEnd(r + q) == r
    decreases |q|
  {
    if q == [] {
      assert r + q == r;
    } else {
      var q' := q[..|q| - 1];
      assert (r + q)[..|r + q| - 1] == r + q';
      TrimEndOf(r, q');
    }
  }

  /** `trim` removes exactly the white space around a trimmed core: whatever
      lies between two runs of white space, if its own ends are not white
      space, is what `trim` returns. */
  lemma TrimOf(p: string, m: string, q: string)
    requires AllSpace(p) && AllSpace(q) && Trimmed(m)
    ensures Trim(p + m + q) == m
  {
    if m == [] {
      assert p + m + q == (p + q) + [];
      TrimStartOf(p + q, []);
    } else {
      assert p + m + q == p + (m + q);
      TrimStartOf(p, m + q);
      TrimEndOf(m, q);
    }
  }

  lemma TrimmedFixed(s: string)
    requires Trimmed(s)
    ensures Trim(s) == s
  {
    TrimOf([], s, []);
    assert [] + s + [] == s;
  }

  lemma {:induction false} TrimStartFront(s: string)
    ensures TrimStart(s) == [] || !IsSpace(TrimStart(s)[0])
    decreases |s|
  {
    if |s| > 0 && IsSpace(s[0]) {
      TrimStartFront(s[1..]);
    }
  }

  lemma {:induction false} TrimStartSplit(s: string)
    ensures exists p :: AllSpace(p) && s == p + TrimStart(s)
    ensures TrimStart(s) == [] || !IsSpace(TrimStart(s)[0])
    decreases |s|
  {
    if |s| > 0 && IsSpace(s[0]) {
      TrimStartSplit(s[1..]);
      var p :| AllSpace(p) && s[1..] == p + TrimStart(s[1..]);
      assert AllSpace([s[0]] + p);
      assert s == ([s[0]] + p) + TrimStart(s);
    } else {
      assert s == [] + TrimStart(s);
    }
  }

  lemma {:induction false} TrimEndSplit(s: string)
    ensures exists q :: AllSpace(q) && s == TrimEnd(s) + q
    ensures TrimEnd(s) == [] || !IsSpace(TrimEnd(s)[|TrimEnd(s)| - 1])
    decreases |s|
  {
    if |s| > 0 && IsSpace(s[|s| - 1]) {
      var s' := s[..|s| - 1];
      TrimEndSplit(s');
      var q :| AllSpace(q) && s' == TrimEnd(s') + q;
      assert AllSpace(q + [s[|s| - 1]]);
      assert s == TrimEnd(s) + (q + [s[|s| - 1]]);
    } else {
      assert s == TrimEnd(s) + [];
    }
  }

  lemma TrimEndKeepsStart(s: string)
    requires s == [] || !IsSpace(s[0])
    ensures TrimEnd(s) == [] || !IsSpace(TrimEnd(s)[0])
  {
    TrimEndSplit(s);
    var q :| AllSpace(q) && s == TrimEnd(s) + q;
    if TrimEnd(s) != [] {
      assert TrimEnd(s)[0] == s[0];
    }
  }

  lemma {:induction false} TrimEndNonEmpty(s: string)
    requires s != [] && !IsSpace(s[0])
    ensures TrimEnd(s) != []
    decreases |s|
  {
    if IsSpace(s[|s| - 1]) {
      TrimEndNonEmpty(s[..|s| - 1]);
    }
  }

  /** `s.trim()` is `s` with a white-space run removed from each end, and its
      own ends are not white space. */
  lemma TrimSplit(s: string)
    ensures Trimmed(Trim(s))
    ensures exists p, q :: AllSpace(p) && AllSpace(q) && s == p + Trim(s) + q
  {
    TrimStartSplit(s);
    var p :| AllSpace(p) && s == p + TrimStart(s);
    TrimEndSplit(TrimStart(s));
    var q :| AllSpace(q) && TrimStart(s) == Trim(s) + q;
    TrimEndKeepsStart(TrimStart(s));
    assert s == p + Trim(s) + q;
  }

  /** `trim` is idempotent. */
  lemma TrimIdempotent(s: string)
    ensures Trim(Trim(s)) == Trim(s)
  {
    TrimSplit(s);
    TrimOf([], Trim(s), []);
    assert [] + Trim(s) + [] == Trim(s);
  }

  /** `trim` gives the empty string exactly for all-white-space input. */
  lemma TrimEmpty(s: string)
    ensures Trim(s) == [] <==> AllSpace(s)
  {
    TrimSplit(s);
    var p, q :| AllSpace(p) && AllSpace(q) && s == p + Trim(s) + q;
    if AllSpace(s) {
      TrimOf(s, [], []);
      assert s + [] + [] == s;
    }
    if Trim(s) == [] {
      assert forall i :: 0 <= i < |s| ==> s[i] == (p + q)[i];
    }
  }

  lemma ColonAlone()
    ensures Trim(": ") == ":"
  {
    TrimOf([], ":", " ");
    assert [] + ":" + " " == ": ";
  }

  lemma TrimTrailing(m: string, q: string)
    requires Trimmed(m) && AllSpace(q)
    ensures Trim(m + q) == m
  {
    assert m + q == [] + m + q;
    TrimOf([], m, q);
  }

  lemma ColonTrimmed(t: string)
    requires t != [] && !IsSpace(t[|t| - 1])
    ensures Trimmed(": " + t)
  {
    assert (": " + t)[|t| + 1] == t[|t| - 1];
  }

  lemma ColonBeforeText(y: string)
    requires y != [] && !IsSpace(y[0])
    ensures Trim(": " + y) == ": " + TrimEnd(y)
  {
    var t := TrimEnd(y);
    TrimEndSplit(y);
    var q :| AllSpace(q) && y == t + q;
    TrimEndNonEmpty(y);
    ColonTrimmed(t);
    TrimTrailing(": " + t, q);
    Assoc(": ", t, q);
  }

  lemma ColonSummary(rest: string)
    ensures Trim(": " + TrimStart(rest)) == if AllSpace(rest) then ":" else ": " + Trim(rest)
  {
    var y := TrimStart(rest);
    TrimStartFront(rest);
    TrimEmpty(rest);
    if y == [] {
      assert Trim(rest) == [];
      assert ": " + y == ": ";
      ColonAlone();
    } else {
      ColonBeforeText(y);
      TrimEndNonEmpty(y);
      assert Trim(rest) != [];
    }
  }

  /** Upper-casing leaves a string without lower-case letters unchanged. */
  lemma UpperFixed(s: string)
    requires forall i :: 0 <= i < |s| ==> !('a' <= s[i] <= 'z')
    ensures Upper(s) == s
  {
  }

  // ------------------------------------------------------------ includes

  /** `sub` sits in `s` at position `k`. */
  predicate WindowAt(s: string, sub: string, k: nat) {
    k + |sub| <= |s| && s[k..k + |sub|] == sub
  }

  /** `includes` holds exactly when some window of `s` equals `sub`. */
  lemma {:induction false} ContainsAt(s: string, sub: string)
    ensures Contains(s, sub) <==> exists k: nat :: WindowAt(s, sub, k)
    decreases |s|
  {
    if IsPrefix(sub, s) {
      assert WindowAt(s, sub, 0);
    } else if |s| > 0 {
      ContainsAt(s[1..], sub);
      if Contains(s[1..], sub) {
        var k: nat :| WindowAt(s[1..], sub, k);
        assert s[1..][k..k + |sub|] == s[k + 1..k + 1 + |sub|];
        assert WindowAt(s, sub, k + 1);
      }
      forall k: nat | WindowAt(s, sub, k) ensures Contains(s[1..], sub) {
        if k > 0 {
          assert s[1..][k - 1..k - 1 + |sub|] == s[k..k + |sub|];
          assert WindowAt(s[1..], sub, k - 1);
        }
      }
    }
  }

  lemma ContainsWindow(s: string, sub: string, k: nat)
    requires WindowAt(s, sub, k)
    ensures Contains(s, sub)
  {
    ContainsAt(s, sub);
  }

  lemma ContainsItself(s: string)
    ensures Contains(s, s)
  {
    assert s[..|s|] == s;
  }

  /** A string that holds a character the other lacks is not included in it. */
  lemma MissingCharNotContained(s: string, sub: string, c: char)
    requires c in sub && c !in s
    ensures !Contains(s, sub)
  {
    ContainsAt(s, sub);
    var j :| 0 <= j < |sub| && sub[j] == c;
    forall k: nat | k + |sub| <= |s| ensures !WindowAt(s, sub, k) {
      assert s[k..k + |sub|][j] == s[k + j] != c;
    }
  }

  // ---------------------------------------------------------- join/split

  /** Splitting the joined lines gives the lines back, as long as no line
      holds a newline of its own. */
  lemma {:induction false} SplitJoin(lines: seq<string>)
    requires |lines| > 0
    requires forall i :: 0 <= i < |lines| ==> '\n' !in lines[i]
    ensures SplitLines(JoinLines(lines)) == lines
    decreases |lines|
  {
    if |lines| > 1 {
      var l, rest := lines[0], JoinLines(lines[1..]);
      var s := l + "\n" + rest;
      assert s[|l|] == '\n';
      var k := FirstIndex(s, '\n');
      assert s[..k] == l;
      assert s[k + 1..] == rest;
      SplitJoin(lines[1..]);
    }
  }

  /** The joined text ends with the last line: `join` adds no trailing newline. */
  lemma {:induction false} JoinEndsWithLast(lines: seq<string>)
    requires |lines| > 0
    ensures var s := JoinLines(lines); var l := lines[|lines| - 1];
      |l| <= |s| && s[|s| - |l|..] == l
    decreases |lines|
  {
    if |lines| > 1 {
      JoinEndsWithLast(lines[1..]);
    }
  }

  /** The number a string of decimal digits denotes, most significant first. */
  function DigitsValue(s: string): int
    decreases |s|
  {
    if s == [] then 0 else DigitsValue(s[..|s| - 1]) * 10 + (s[|s| - 1] as int - 48)
  }

  /** Decimal digits of a natural number, as string interpolation prints it:
      digits only, no leading zero, and they denote `n`. */
  function NatToString(n: nat): (r: string)
    ensures |r| > 0
    ensures forall i :: 0 <= i < |r| ==> '0' <= r[i] <= '9'
    ensures |r| > 1 ==> r[0] != '0'
    ensures DigitsValue(r) == n
  {
    var d := [(48 + n % 10) as char];
    if n < 10 then d
    else
      var r := NatToString(n / 10) + d;
      assert r[..|r| - 1] == NatToString(n / 10);
      r
  }
}
