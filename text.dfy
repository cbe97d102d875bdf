/** The ECMAScript string operations the parsers rely on: trim, slice, anchored
    character-class runs and the global replacement of marker runs. */
module Text {

  /** The code points ECMAScript's String.prototype.trim removes (WhiteSpace and LineTerminator). */
  predicate IsWhite(c: char) {
    c == '\t' || c == '\n' || c == '\U{B}' || c == '\U{C}' || c == '\r' || c == ' ' ||
    c == '\U{A0}' || c == '\U{1680}' || ('\U{2000}' <= c <= '\U{200A}') ||
    c == '\U{2028}' || c == '\U{2029}' || c == '\U{202F}' || c == '\U{205F}' ||
    c == '\U{3000}' || c == '\U{FEFF}'
  }

  predicate AllWhite(s: string) {
    forall i :: 0 <= i < |s| ==> IsWhite(s[i])
  }

  /** Concatenation regroups. */
  lemma AppendAssoc<T>(a: seq<T>, b: seq<T>, c: seq<T>)
    ensures (a + b) + c == a + (b + c)
  {
  }

  /** A string is its prefix up to k followed by the rest. */
  lemma SplitAt<T>(s: seq<T>, k: nat)
    requires k <= |s|
    ensures s == s[..k] + s[k..]
  {
  }

  lemma DropAppend<T>(a: seq<T>, b: seq<T>, k: nat)
    requires k <= |a|
    ensures (a + b)[k..] == a[k..] + b
  {
  }

  lemma TakeAppend<T>(a: seq<T>, b: seq<T>, k: nat)
    requires k <= |a|
    ensures (a + b)[..k] == a[..k]
  {
  }

  lemma AllWhiteAppend(a: string, b: string)
    requires AllWhite(a) && AllWhite(b)
    ensures AllWhite(a + b)
  {
    assert forall i :: |a| <= i < |a + b| ==> (a + b)[i] == b[i - |a|];
  }

  /** Neither end of s is whitespace. */
  predicate IsTrimmed(s: string) {
    s == [] || (!IsWhite(s[0]) && !IsWhite(s[|s| - 1]))
  }

  /** s without its leading whitespace. */
  function TrimStart(s: string): (r: string)
    ensures |r| <= |s| && r == s[|s| - |r|..]
    ensures AllWhite(s[..|s| - |r|])
    ensures r == [] || !IsWhite(r[0])
  {
    if s != [] && IsWhite(s[0]) then TrimStart(s[1..]) else s
  }

  /** s without its trailing whitespace. */
  function TrimEnd(s: string): (r: string)
    ensures |r| <= |s| && r == s[..|r|]
    ensures AllWhite(s[|r|..])
    ensures r == [] || !IsWhite(r[|r| - 1])
  {
    if s != [] && IsWhite(s[|s| - 1]) then TrimEnd(s[..|s| - 1]) else s
  }

  /** String.prototype.trim: the part of s between its leading and its trailing whitespace. */
  function Trim(s: string): (r: string)
    ensures IsTrimmed(r)
    ensures |r| <= |s|
  {
    TrimEnd(TrimStart(s))
  }

  /** Trim is determined by its shape: whatever is left between two whitespace
      margins, if it has no whitespace at its ends, is the trimmed string. */
  lemma {:induction false} TrimOfPadded(p: string, r: string, q: string)
    requires AllWhite(p) && AllWhite(q) && IsTrimmed(r)
    ensures Trim(p + r + q) == r
  {
    AppendAssoc(p, r, q);
    if r == [] {
      assert p + r == p;
      AllWhiteAppend(p, q);
      TrimEndOfWhite(p + q);
    } else {
      TrimStartOfPadded(p, r + q);
      TrimEndOfPadded(r, q);
    }
  }

  /** Every string is its trimmed part between two whitespace margins. */
  lemma TrimSplit(b: string) returns (p: string, q: string)
    ensures AllWhite(p) && AllWhite(q) && b == p + (Trim(b) + q)
  {
    var ts := TrimStart(b);
    var k := |b| - |ts|;
    p := b[..k];
    var r := TrimEnd(ts);
    q := ts[|r|..];
    SplitAt(b, k);
    SplitAt(ts, |r|);
  }

  lemma {:induction false} TrimStartOfPadded(p: string, t: string)
    requires AllWhite(p) && (t == [] || !IsWhite(t[0]))
    ensures TrimStart(p + t) == t
  {
    if p != [] {
      assert (p + t)[1..] == p[1..] + t;
      TrimStartOfPadded(p[1..], t);
    } else {
      assert p + t == t;
    }
  }

  lemma {:induction false} TrimEndOfPadded(t: string, q: string)
    requires AllWhite(q) && t != [] && !IsWhite(t[|t| - 1])
    ensures TrimEnd(t + q) == t
  {
    if q != [] {
      assert (t + q)[..|t + q| - 1] == t + q[..|q| - 1];
      TrimEndOfPadded(t, q[..|q| - 1]);
    } else {
      assert t + q == t;
    }
  }

  /** Trailing whitespace is removed from the last piece only, when the first
      piece ends with a non-whitespace character. */
  lemma {:induction false} TrimEndAppend(x: string, y: string)
    requires x != [] && !IsWhite(x[|x| - 1])
    ensures TrimEnd(x + y) == x + TrimEnd(y)
  {
    var ty := TrimEnd(y);
    var w := y[|ty|..];
    assert y == ty + w;
    if ty != [] {
      assert x + y == (x + ty) + w;
      TrimEndOfPadded(x + ty, w);
    } else {
      assert x + y == x + w;
      TrimEndOfPadded(x, w);
    }
  }

  /** Removing the trailing whitespace first does not change the trimmed string. */
  lemma {:induction false} TrimOfTrimEnd(b: string)
    ensures Trim(TrimEnd(b)) == Trim(b)
  {
    var r := Trim(b);
    var p, q := TrimSplit(b);
    if r == [] {
      assert r + q == q;
      AllWhiteAppend(p, q);
      TrimEndOfWhite(b);
    } else {
      AppendAssoc(p, r, q);
      TrimEndOfPadded(p + r, q);
      assert p + r + [] == p + r;
      TrimOfPadded(p, r, []);
    }
  }

  lemma TrimEndOfWhite(b: string)
    requires AllWhite(b)
    ensures TrimEnd(b) == [] && Trim(b) == []
  {
  }

  /** Trimming twice is trimming once. */
  lemma TrimIdempotent(s: string)
    ensures Trim(Trim(s)) == Trim(s)
  {
    var r := Trim(s);
    assert [] + r + [] == r;
    TrimOfPadded([], r, []);
  }

  /** String.prototype.slice(start, end) for non-negative arguments: both are
      clamped to the length, and an empty range gives the empty string. */
  function Slice(s: string, start: nat, end: nat): (r: string)
    ensures |r| <= |s|
    ensures start <= end <= |s| ==> r == s[start..end]
  {
    var a := if start < |s| then start else |s|;
    var b := if end < |s| then end else |s|;
    if a < b then s[a..b] else []
  }

  /** String.prototype.slice(start) for a non-negative start. */
  function SliceFrom(s: string, start: nat): (r: string)
    ensures start <= |s| ==> r == s[start..]
    ensures start >= |s| ==> r == []
  {
    if start < |s| then s[start..] else []
  }

  /** A slice whose end is past the string runs to its end. */
  lemma SliceToEnd(s: string, start: nat, end: nat)
    requires end >= |s|
    ensures Slice(s, start, end) == SliceFrom(s, start)
  {
  }

  /** Length of the longest prefix of s whose characters all satisfy p: what a
      greedy, anchored `[class]*` consumes. */
  function Span(s: string, p: char -> bool): (n: nat)
    ensures n <= |s|
    ensures forall i :: 0 <= i < n ==> p(s[i])
    ensures n < |s| ==> !p(s[n])
  {
    if s != [] && p(s[0]) then 1 + Span(s[1..], p) else 0
  }

  /** The characterisation of Span: the first position whose character fails p. */
  lemma SpanIs(s: string, p: char -> bool, n: nat)
    requires n <= |s|
    requires forall k :: 0 <= k < n ==> p(s[k])
    requires n < |s| ==> !p(s[n])
    ensures Span(s, p) == n
  {
  }

  /** Span reaches at least as far as any prefix whose characters all satisfy p. */
  lemma SpanAtLeast(s: string, p: char -> bool, n: nat)
    requires n <= |s|
    requires forall k :: 0 <= k < n ==> p(s[k])
    ensures n <= Span(s, p)
  {
  }

  /** Length of the run of c that s starts with. */
  function RunOf(s: string, c: char): (n: nat)
    ensures n <= |s|
    ensures forall i :: 0 <= i < n ==> s[i] == c
    ensures n < |s| ==> s[n] != c
  {
    if s != [] && s[0] == c then 1 + RunOf(s[1..], c) else 0
  }

  lemma RunOfIs(s: string, c: char, n: nat)
    requires n <= |s|
    requires forall k :: 0 <= k < n ==> s[k] == c
    requires n < |s| ==> s[n] != c
    ensures RunOf(s, c) == n
  {
  }

  /** s.replace(/c{3,}/g, "") applied for every marker c at once: every maximal
      run of three or more equal marker characters is removed, shorter runs and
      all other characters are kept. */
  function StripRuns(s: string, marks: set<char>): (r: string)
    ensures |r| <= |s|
    decreases |s|
  {
    if s == [] then []
    else if s[0] !in marks then [s[0]] + StripRuns(s[1..], marks)
    else
      var n := RunOf(s, s[0]);
      if n >= 3 then StripRuns(s[n..], marks)
      else s[..n] + StripRuns(s[n..], marks)
  }

  /** A string without markers is left as it is. */
  lemma {:induction false} StripRunsNoMarks(s: string, marks: set<char>)
    requires forall i :: 0 <= i < |s| ==> s[i] !in marks
    ensures StripRuns(s, marks) == s
  {
    if s != [] {
      StripRunsNoMarks(s[1..], marks);
    }
  }

  /** A single run of three or more markers disappears entirely. */
  lemma StripRunsOneRun(s: string, c: char, marks: set<char>)
    requires c in marks && |s| >= 3
    requires forall i :: 0 <= i < |s| ==> s[i] == c
    ensures StripRuns(s, marks) == []
  {
    RunOfIs(s, c, |s|);
  }

  /** Replacement works run by run: two pieces whose meeting point is not inside
      one run are stripped separately. */
  lemma {:induction false} StripRunsAppend(a: string, b: string, marks: set<char>)
    requires a == [] || b == [] || a[|a| - 1] != b[0]
    ensures StripRuns(a + b, marks) == StripRuns(a, marks) + StripRuns(b, marks)
    decreases |a|
  {
    if a == [] {
      assert a + b == b;
    } else if b == [] {
      assert a + b == a;
    } else {
      var s := a + b;
      assert s[0] == a[0];
      if a[0] !in marks {
        DropAppend(a, b, 1);
        StripRunsAppend(a[1..], b, marks);
        AppendAssoc([a[0]], StripRuns(a[1..], marks), StripRuns(b, marks));
      } else {
        var n := RunOf(a, a[0]);
        assert RunOf(s, s[0]) == n by {
          assert forall k :: 0 <= k < n ==> s[k] == a[k];
          if n < |a| {
            assert s[n] == a[n];
          } else {
            assert s[|a|] == b[0];
          }
          RunOfIs(s, s[0], n);
        }
        DropAppend(a, b, n);
        TakeAppend(a, b, n);
        assert a[n..] == [] || a[n..][|a[n..]| - 1] == a[|a| - 1];
        StripRunsAppend(a[n..], b, marks);
        AppendAssoc(a[..n], StripRuns(a[n..], marks), StripRuns(b, marks));
      }
    }
  }
}
