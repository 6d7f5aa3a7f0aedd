/** Python's string handling as the pipeline uses it: `str.strip()` with no
    argument, and the splitting of a text file into the lines that
    `for line in file` yields (each line keeps its '\n' terminator). */
module Text {

  /** Python's `str.isspace` for one character: the code points that
      `str.strip()` removes when it is given no argument. */
  predicate IsSpace(c: char) {
    var n := c as int;
    (0x09 <= n <= 0x0D) || (0x1C <= n <= 0x20) || n == 0x85 || n == 0xA0 ||
    n == 0x1680 || (0x2000 <= n <= 0x200A) || n == 0x2028 || n == 0x2029 ||
    n == 0x202F || n == 0x205F || n == 0x3000
  }

  predicate AllSpace(s: string) {
    forall i :: 0 <= i < |s| ==> IsSpace(s[i])
  }

  /** Neither end of `s` is whitespace. */
  predicate Stripped(s: string) {
    s == [] || (!IsSpace(s[0]) && !IsSpace(s[|s| - 1]))
  }

  /** `s` with its leading whitespace removed. */
  function TrimStart(s: string): string {
    if s != [] && IsSpace(s[0]) then TrimStart(s[1..]) else s
  }

  /** `s` with its trailing whitespace removed. */
  function TrimEnd(s: string): string {
    if s != [] && IsSpace(s[|s| - 1]) then TrimEnd(s[..|s| - 1]) else s
  }

  /** Python's `s.strip()`. */
  function Strip(s: string): string {
    TrimEnd(TrimStart(s))
  }

  /** `TrimStart` drops a whitespace-only prefix and stops at a
      non-whitespace character. */
  lemma {:induction false} TrimStartFacts(s: string)
    ensures |TrimStart(s)| <= |s| && TrimStart(s) == s[|s| - |TrimStart(s)|..]
    ensures AllSpace(s[..|s| - |TrimStart(s)|])
    ensures TrimStart(s) == [] || !IsSpace(TrimStart(s)[0])
  {
    if s != [] && IsSpace(s[0]) {
      TrimStartFacts(s[1..]);
      var r := TrimStart(s[1..]);
      var k := |s| - |r|;
      assert s[1..][|s| - 1 - |r|..] == s[k..];
      forall i | 0 <= i < k ensures IsSpace(s[..k][i]) {
        if i > 0 { assert s[..k][i] == s[1..][..|s| - 1 - |r|][i - 1]; }
      }
    }
  }

  /** `TrimEnd` drops a whitespace-only suffix and stops at a
      non-whitespace character. */
  lemma {:induction false} TrimEndFacts(s: string)
    ensures |TrimEnd(s)| <= |s| && TrimEnd(s) == s[..|TrimEnd(s)|]
    ensures AllSpace(s[|TrimEnd(s)|..])
    ensures TrimEnd(s) == [] || !IsSpace(TrimEnd(s)[|TrimEnd(s)| - 1])
  {
    if s != [] && IsSpace(s[|s| - 1]) {
      var p := s[..|s| - 1];
      TrimEndFacts(p);
      var r := TrimEnd(p);
      assert p[..|r|] == s[..|r|];
      forall i | 0 <= i < |s| - |r| ensures IsSpace(s[|r|..][i]) {
        if i < |s| - 1 - |r| { assert s[|r|..][i] == p[|r|..][i]; }
      }
    }
  }

  /** The stripped text is a slice of the input with only whitespace around
      it, and neither of its ends is whitespace. */
  lemma StripSlice(s: string) returns (i: nat, j: nat)
    ensures i <= j <= |s| && Strip(s) == s[i..j]
    ensures AllSpace(s[..i]) && AllSpace(s[j..])
    ensures Stripped(Strip(s))
  {
    var t := TrimStart(s);
    TrimStartFacts(s);
    var r := TrimEnd(t);
    TrimEndFacts(t);
    i := |s| - |t|;
    j := i + |r|;
    assert s[i..j] == t[..|r|];
    assert s[j..] == t[|r|..];
    assert r != [] ==> r[0] == t[0];
  }

  lemma {:induction false} TrimStartSkips(a: string, t: string)
    requires AllSpace(a)
    ensures TrimStart(a + t) == TrimStart(t)
  {
    if a != [] {
      assert (a + t)[1..] == a[1..] + t;
      TrimStartSkips(a[1..], t);
    } else {
      assert a + t == t;
    }
  }

  lemma {:induction false} TrimEndSkips(t: string, b: string)
    requires AllSpace(b)
    ensures TrimEnd(t + b) == TrimEnd(t)
  {
    if b != [] {
      var b' := b[..|b| - 1];
      assert (t + b)[..|t + b| - 1] == t + b';
      TrimEndSkips(t, b');
    } else {
      assert t + b == t;
    }
  }

  /** Whatever whitespace surrounds a stripped text, `strip` recovers exactly
      that text. */
  lemma StripExact(a: string, m: string, b: string)
    requires AllSpace(a) && AllSpace(b) && Stripped(m)
    ensures Strip(a + m + b) == m
  {
    var mb := m + b;
    assert a + m + b == a + mb;
    TrimStartSkips(a, mb);
    if m == [] {
      assert mb == b;
      TrimStartSkips(b, []);
      assert b + [] == b;
    } else {
      assert mb[0] == m[0];
      assert TrimStart(mb) == mb;
      TrimEndSkips(m, b);
      assert TrimEnd(m) == m;
    }
  }

  /** Stripping twice is stripping once. */
  lemma StripIdempotent(s: string)
    ensures Strip(Strip(s)) == Strip(s)
  {
    var i, j := StripSlice(s);
    StripExact([], Strip(s), []);
    assert [] + Strip(s) + [] == Strip(s);
  }

  /** A string strips to the empty string exactly when it is all whitespace. */
  lemma StripEmptyIff(s: string)
    ensures Strip(s) == [] <==> AllSpace(s)
  {
    var i, j := StripSlice(s);
    if AllSpace(s) {
      StripExact(s, [], []);
      assert s + [] + [] == s;
    }
    if Strip(s) == [] {
      forall k | 0 <= k < |s| ensures IsSpace(s[k]) {
        if k < i { assert s[..i][k] == s[k]; } else { assert s[j..][k - j] == s[k]; }
      }
    }
  }

  /** A trailing whitespace character (such as a line's '\n') does not change
      what `strip` returns. */
  lemma StripDropsTrailingSpace(s: string, c: char)
    requires IsSpace(c)
    ensures Strip(s + [c]) == Strip(s)
  {
    var i, j := StripSlice(s);
    var a, m, b := s[..i], s[i..j], s[j..] + [c];
    assert s + [c] == a + m + b;
    assert AllSpace(b) by {
      forall k | 0 <= k < |b| ensures IsSpace(b[k]) {
        if k < |b| - 1 { assert b[k] == s[j..][k]; }
      }
    }
    StripExact(a, m, b);
  }

  /** A line whose only '\n' (if any) is its last character strips to text
      without any '\n'. */
  lemma StripRemovesTerminator(s: string)
    requires forall k :: 0 <= k < |s| - 1 ==> s[k] != '\n'
    ensures '\n' !in Strip(s)
  {
    var i, j := StripSlice(s);
    var r := Strip(s);
    forall k | 0 <= k < |r| ensures r[k] != '\n' {
      assert r[k] == s[i + k];
      if i + k == |s| - 1 {
        assert k == |r| - 1;
      }
    }
  }

  // ----- Lines -----

  /** Length of the first line of `s`, its '\n' included when it has one. */
  function LineLength(s: string): (n: nat)
    requires s != []
    ensures 1 <= n <= |s|
  {
    if s[0] == '\n' || |s| == 1 then 1 else 1 + LineLength(s[1..])
  }

  /** The first line runs up to and including the first '\n', or to the end
      of the text when it has none. */
  lemma {:induction false} LineLengthFacts(s: string)
    requires s != []
    ensures forall k :: 0 <= k < LineLength(s) - 1 ==> s[k] != '\n'
    ensures LineLength(s) < |s| ==> s[LineLength(s) - 1] == '\n'
  {
    if !(s[0] == '\n' || |s| == 1) {
      LineLengthFacts(s[1..]);
      forall k | 0 <= k < LineLength(s) - 1 ensures s[k] != '\n' {
        if k > 0 { assert s[k] == s[1..][k - 1]; }
      }
    }
  }

  /** The first line ends at the first '\n' and nowhere else. */
  lemma {:induction false} LineLengthUnique(s: string, m: nat)
    requires 1 <= m <= |s| && s[m - 1] == '\n'
    requires forall k :: 0 <= k < m - 1 ==> s[k] != '\n'
    ensures LineLength(s) == m
  {
    if m > 1 {
      assert s[0] != '\n';
      var t := s[1..];
      assert t[m - 2] == s[m - 1];
      forall k | 0 <= k < m - 2 ensures t[k] != '\n' {
        assert t[k] == s[k + 1];
      }
      LineLengthUnique(t, m - 1);
    }
  }

  /** One line as Python's file iteration yields it: non-empty, with '\n'
      nowhere but possibly at the end. */
  predicate IsLine(l: string) {
    l != [] && forall k :: 0 <= k < |l| - 1 ==> l[k] != '\n'
  }

  predicate EndsWithNewline(l: string) {
    l != [] && l[|l| - 1] == '\n'
  }

  /** The lines of a text joined back together. */
  function Concat(ls: seq<string>): string {
    if ls == [] then [] else ls[0] + Concat(ls[1..])
  }

  /** The lines `for line in file` yields for a file holding `s`. */
  function Lines(s: string): seq<string>
    decreases |s|
  {
    if s == [] then [] else [s[..LineLength(s)]] + Lines(s[LineLength(s)..])
  }

  /** Joining the lines gives the text back. */
  lemma {:induction false} LinesConcat(s: string)
    ensures Concat(Lines(s)) == s
    decreases |s|
  {
    if s != [] {
      var n := LineLength(s);
      LinesConcat(s[n..]);
      assert s == s[..n] + s[n..];
      assert Lines(s)[1..] == Lines(s[n..]);
    }
  }

  /** Every piece is a line, and every piece but the last ends with '\n'. */
  lemma {:induction false} LinesShape(s: string)
    ensures forall k :: 0 <= k < |Lines(s)| ==> IsLine(Lines(s)[k])
    ensures forall k :: 0 <= k < |Lines(s)| - 1 ==> EndsWithNewline(Lines(s)[k])
    decreases |s|
  {
    if s != [] {
      var n := LineLength(s);
      LineLengthFacts(s);
      var head, rest := s[..n], Lines(s[n..]);
      LinesShape(s[n..]);
      var ls := Lines(s);
      assert ls == [head] + rest;
      assert IsLine(head);
      if s[n..] != [] {
        assert |rest| > 0;
        assert EndsWithNewline(head);
      } else {
        assert rest == [];
      }
      forall k | 1 <= k < |ls| ensures IsLine(ls[k]) && (k < |ls| - 1 ==> EndsWithNewline(ls[k])) {
        assert ls[k] == rest[k - 1];
      }
    }
  }

  /** A text that ends with a complete line keeps its first line when more
      text is appended. */
  lemma FirstLineOfAppend(s: string, t: string)
    requires EndsWithNewline(s)
    ensures LineLength(s + t) == LineLength(s)
    ensures (s + t)[..LineLength(s)] == s[..LineLength(s)]
    ensures (s + t)[LineLength(s)..] == s[LineLength(s)..] + t
  {
    var n := LineLength(s);
    LineLengthFacts(s);
    assert s[n - 1] == '\n';
    assert forall k :: 0 <= k < n - 1 ==> (s + t)[k] == s[k];
    LineLengthUnique(s + t, n);
  }

  /** Splitting a text that ends with a complete line lets what follows it
      be split on its own. */
  lemma {:induction false} LinesAppend(s: string, t: string)
    requires s == [] || EndsWithNewline(s)
    ensures Lines(s + t) == Lines(s) + Lines(t)
    decreases |s|
  {
    if s == [] {
      assert s + t == t;
    } else {
      var n := LineLength(s);
      FirstLineOfAppend(s, t);
      RestTerminated(s, n);
      LinesAppend(s[n..], t);
      LinesCons(s[..n], Lines(s[n..]), Lines(t));
    }
  }

  /** What follows a text's first line still ends with a complete line. */
  lemma RestTerminated(s: string, n: nat)
    requires EndsWithNewline(s) && n <= |s|
    ensures s[n..] == [] || EndsWithNewline(s[n..])
  {
    if n < |s| {
      assert s[n..][|s| - n - 1] == s[|s| - 1];
    }
  }

  lemma LinesCons(head: string, a: seq<string>, b: seq<string>)
    ensures [head] + (a + b) == ([head] + a) + b
  {
  }

  /** Text written as one line reads back as that one line. */
  lemma LinesOfOneLine(p: string)
    requires '\n' !in p
    ensures Lines(p + "\n") == [p + "\n"]
  {
    LineLengthUnique(p + "\n", |p| + 1);
    assert (p + "\n")[|p| + 1..] == [];
    assert (p + "\n")[..|p| + 1] == p + "\n";
  }
}
