/** String helpers shared by every module: the two whitespace classes the system
    uses (Python's and JavaScript's), trimming, searching, splitting and joining.
    Strings are sequences of Unicode scalar values, as Python's str and (for the
    characters that matter here) JavaScript's String are. */
module Text {
  import opened Wrappers

  /** Python's str.isspace(); str.strip(), str.split() and the regex class \s use this set. */
  predicate IsPySpace(c: char) {
    ('\t' <= c <= '\r') || ('\U{1c}' <= c <= ' ') || c == '\U{85}' || c == '\U{a0}'
    || c == '\U{1680}' || ('\U{2000}' <= c <= '\U{200a}') || c == '\U{2028}' || c == '\U{2029}'
    || c == '\U{202f}' || c == '\U{205f}' || c == '\U{3000}'
  }

  /** JavaScript's WhiteSpace and LineTerminator, the set String.prototype.trim removes. */
  predicate IsJsSpace(c: char) {
    ('\t' <= c <= '\r') || c == ' ' || c == '\U{a0}' || c == '\U{feff}' || c == '\U{1680}'
    || ('\U{2000}' <= c <= '\U{200a}') || c == '\U{2028}' || c == '\U{2029}'
    || c == '\U{202f}' || c == '\U{205f}' || c == '\U{3000}'
  }

  predicate All(s: string, p: char -> bool) {
    forall i :: 0 <= i < |s| ==> p(s[i])
  }

  /** Removes the longest prefix of characters satisfying ws. */
  function TrimStart(s: string, ws: char -> bool): (r: string)
    ensures |r| <= |s| && r == s[|s| - |r|..]
    ensures forall i :: 0 <= i < |s| - |r| ==> ws(s[i])
    ensures r == [] || !ws(r[0])
    decreases |s|
  {
    if |s| > 0 && ws(s[0]) then TrimStart(s[1..], ws) else s
  }

  /** Removes the longest suffix of characters satisfying ws. */
  function TrimEnd(s: string, ws: char -> bool): (r: string)
    ensures |r| <= |s| && r == s[..|r|]
    ensures forall i :: |r| <= i < |s| ==> ws(s[i])
    ensures r == [] || !ws(r[|r| - 1])
    decreases |s|
  {
    if |s| > 0 && ws(s[|s| - 1]) then TrimEnd(s[..|s| - 1], ws) else s
  }

  function Strip(s: string, ws: char -> bool): string {
    TrimEnd(TrimStart(s, ws), ws)
  }

  /** Python's str.strip() with no argument. */
  function PyStrip(s: string): string { Strip(s, IsPySpace) }

  /** JavaScript's String.prototype.trim(). */
  function JsTrim(s: string): string { Strip(s, IsJsSpace) }

  /** JavaScript's String.prototype.trimStart(). */
  function JsTrimStart(s: string): string { TrimStart(s, IsJsSpace) }

  /** A stripped string is what is left between the leading and trailing runs of
      whitespace: it is empty exactly when the input is all whitespace, and
      otherwise starts and ends with a non-whitespace character of the input. */
  lemma StripShape(s: string, ws: char -> bool)
    ensures var r := Strip(s, ws);
      && (r == [] <==> All(s, ws))
      && (r != [] ==> !ws(r[0]) && !ws(r[|r| - 1]))
  {
    var t := TrimStart(s, ws);
    var r := TrimEnd(t, ws);
    var d := |s| - |t|;
    if r == [] {
      forall i | 0 <= i < |s| ensures ws(s[i]) {
        if i >= d {
          assert s[i] == t[i - d];
        }
      }
    } else {
      assert t[0] == s[d];
      assert !All(s, ws) by {
        assert !ws(s[d]);
      }
    }
  }

  /** StripShape for str.strip(): what is left has no Python whitespace at
      either end and is no longer than the input. */
  lemma PyStripShape(s: string)
    ensures var r := PyStrip(s);
      && |r| <= |s|
      && (r == [] <==> All(s, IsPySpace))
      && (r != [] ==> !IsPySpace(r[0]) && !IsPySpace(r[|r| - 1]))
  {
    StripShape(s, IsPySpace);
  }

  /** s with every character satisfying p removed, the others kept in order. */
  function Without(s: string, p: char -> bool): (r: string)
    ensures |r| <= |s| && forall i :: 0 <= i < |r| ==> !p(r[i])
    decreases |s|
  {
    if |s| == 0 then "" else (if p(s[0]) then "" else [s[0]]) + Without(s[1..], p)
  }

  lemma {:induction false} WithoutAppend(a: string, b: string, p: char -> bool)
    ensures Without(a + b, p) == Without(a, p) + Without(b, p)
    decreases |a|
  {
    if |a| == 0 {
      assert a + b == b;
    } else {
      assert (a + b)[1..] == a[1..] + b;
      WithoutAppend(a[1..], b, p);
    }
  }

  lemma {:induction false} WithoutAll(s: string, p: char -> bool)
    requires All(s, p)
    ensures Without(s, p) == ""
    decreases |s|
  {
    if |s| > 0 {
      WithoutAll(s[1..], p);
    }
  }

  /** A leading run of removed characters leaves nothing behind. */
  lemma WithoutRun(run: string, rest: string, p: char -> bool)
    requires All(run, p)
    ensures Without(run + rest, p) == Without(rest, p)
  {
    WithoutAll(run, p);
    WithoutAppend(run, rest, p);
  }

  /** Removing a finer class first changes nothing about removing a coarser one. */
  lemma {:induction false} WithoutFiner(s: string, p: char -> bool, q: char -> bool)
    requires forall c :: p(c) ==> q(c)
    ensures Without(Without(s, p), q) == Without(s, q)
    decreases |s|
  {
    if |s| > 0 {
      var head := if p(s[0]) then "" else [s[0]];
      WithoutAppend(head, Without(s[1..], p), q);
      WithoutFiner(s[1..], p, q);
    }
  }

  /** Stripping removes only characters of the stripped class. */
  lemma StripKeepsText(s: string, ws: char -> bool)
    ensures Without(Strip(s, ws), ws) == Without(s, ws)
  {
    TrimStartKeepsText(s, ws);
    TrimEndKeepsText(TrimStart(s, ws), ws);
  }

  lemma TrimStartKeepsText(s: string, ws: char -> bool)
    ensures Without(TrimStart(s, ws), ws) == Without(s, ws)
  {
    var t := TrimStart(s, ws);
    var d := |s| - |t|;
    var pre := s[..d];
    assert All(pre, ws) by {
      forall i | 0 <= i < |pre| ensures ws(pre[i]) {
        assert pre[i] == s[i];
      }
    }
    assert s == pre + t;
    WithoutAll(pre, ws);
    WithoutAppend(pre, t, ws);
  }

  lemma TrimEndKeepsText(s: string, ws: char -> bool)
    ensures Without(TrimEnd(s, ws), ws) == Without(s, ws)
  {
    var r := TrimEnd(s, ws);
    var post := s[|r|..];
    assert All(post, ws) by {
      forall i | 0 <= i < |post| ensures ws(post[i]) {
        assert post[i] == s[|r| + i];
      }
    }
    assert s == r + post;
    WithoutAll(post, ws);
    WithoutAppend(r, post, ws);
  }

  /** Stripping twice strips nothing more. */
  lemma StripIdempotent(s: string, ws: char -> bool)
    ensures Strip(Strip(s, ws), ws) == Strip(s, ws)
  {
    var r := Strip(s, ws);
    StripShape(s, ws);
    if r != [] {
      assert TrimStart(r, ws) == r;
      assert TrimEnd(r, ws) == r;
    }
  }

  predicate StartsWith(s: string, prefix: string) {
    |prefix| <= |s| && s[..|prefix|] == prefix
  }

  predicate OccursAt(s: string, pat: string, i: int) {
    0 <= i && i + |pat| <= |s| && s[i..i + |pat|] == pat
  }

  predicate Contains(s: string, pat: string) {
    exists i :: 0 <= i <= |s| && OccursAt(s, pat, i)
  }

  lemma OccursShift(s: string, pat: string, j: int)
    requires |s| > 0 && j >= 0
    ensures OccursAt(s, pat, j + 1) <==> OccursAt(s[1..], pat, j)
  {
    if j + 1 + |pat| <= |s| {
      assert s[j + 1..j + 1 + |pat|] == s[1..][j..j + |pat|];
    }
  }

  /** The first position at which pat occurs in s, as Python's str.find and
      JavaScript's indexOf report it. */
  function IndexOf(s: string, pat: string): (r: Option<nat>)
    requires |pat| > 0
    ensures r.Some? ==> OccursAt(s, pat, r.value) && forall j :: 0 <= j < r.value ==> !OccursAt(s, pat, j)
    ensures r.None? ==> forall j :: !OccursAt(s, pat, j)
    decreases |s|
  {
    if |s| < |pat| then None
    else if s[..|pat|] == pat then Some(0)
    else
      var rest := IndexOf(s[1..], pat);
      assert forall j :: OccursAt(s, pat, j + 1) <==> OccursAt(s[1..], pat, j) by {
        forall j ensures OccursAt(s, pat, j + 1) <==> OccursAt(s[1..], pat, j) {
          if j >= 0 { OccursShift(s, pat, j); }
        }
      }
      assert forall j :: OccursAt(s, pat, j) ==> j == 0 || OccursAt(s[1..], pat, j - 1);
      match rest
      case None => None
      case Some(i) => Some(i + 1)
  }

  /** s.split(c, 1) when c occurs in s: the text before the first c and the
      text after it. */
  function SplitOnce(s: string, c: char): (r: Option<(string, string)>)
    ensures r.None? <==> c !in s
    ensures r.Some? ==> s == r.value.0 + [c] + r.value.1 && c !in r.value.0
    decreases |s|
  {
    if |s| == 0 then None
    else if s[0] == c then Some(("", s[1..]))
    else match SplitOnce(s[1..], c)
      case None => None
      case Some(parts) => Some(([s[0]] + parts.0, parts.1))
  }

  /** Splitting at the first c of a text whose first part holds no c gives the
      two parts back. */
  lemma {:induction false} SplitOnceAt(a: string, b: string, c: char)
    requires c !in a
    ensures SplitOnce(a + [c] + b, c) == Some((a, b))
    decreases |a|
  {
    var s := a + [c] + b;
    if |a| > 0 {
      assert s[1..] == a[1..] + [c] + b;
      SplitOnceAt(a[1..], b, c);
      assert [a[0]] + a[1..] == a;
    }
  }

  /** Splitting at every non-overlapping occurrence of sep, scanning from the
      left: Python's str.split(sep) and JavaScript's split(sep) for a
      non-empty separator. */
  function Split(s: string, sep: string): (parts: seq<string>)
    requires |sep| > 0
    ensures |parts| >= 1
    decreases |s|
  {
    match IndexOf(s, sep)
    case None => [s]
    case Some(i) => [s[..i]] + Split(s[i + |sep|..], sep)
  }

  /** Python's sep.join(xs) and JavaScript's xs.join(sep). */
  function Join(xs: seq<string>, sep: string): string
    decreases |xs|
  {
    if |xs| == 0 then "" else if |xs| == 1 then xs[0] else xs[0] + sep + Join(xs[1..], sep)
  }

  /** Joining the parts of a split with the same separator gives the input back. */
  lemma {:induction false} JoinSplit(s: string, sep: string)
    requires |sep| > 0
    ensures Join(Split(s, sep), sep) == s
    decreases |s|
  {
    match IndexOf(s, sep)
    case None =>
    case Some(i) =>
      var tail := s[i + |sep|..];
      var rest := Split(tail, sep);
      JoinSplit(tail, sep);
      assert Split(s, sep) == [s[..i]] + rest;
      assert ([s[..i]] + rest)[1..] == rest;
      assert s == s[..i] + sep + tail;
  }

  /** When no part holds the separator's first character, splitting the joined
      text gives the parts back. */
  lemma {:induction false} SplitJoin(xs: seq<string>, sep: string)
    requires |sep| > 0 && |xs| >= 1
    requires forall k :: 0 <= k < |xs| ==> sep[0] !in xs[k]
    ensures Split(Join(xs, sep), sep) == xs
    decreases |xs|
  {
    var x := xs[0];
    if |xs| == 1 {
      match IndexOf(x, sep)
      case None =>
      case Some(i) =>
        assert false;
    } else {
      var rest := Join(xs[1..], sep);
      var s := x + sep + rest;
      assert OccursAt(s, sep, |x|) by { assert s[|x|..|x| + |sep|] == sep; }
      match IndexOf(s, sep)
      case None =>
      case Some(i) =>
        if i < |x| {
          assert false;
        }
        assert i == |x|;
        assert s[i + |sep|..] == rest;
        SplitJoin(xs[1..], sep);
        assert s[..i] == x;
    }
  }

  /** A separator whose second character differs from its first occurs
      nowhere in a text without that second character, nor across its end. */
  lemma NoOccurrenceBefore(x: string, sep: string, rest: string)
    requires |sep| >= 2 && sep[0] != sep[1] && sep[1] !in x
    ensures forall i :: 0 <= i <= |x| - 1 ==> !OccursAt(x + sep + rest, sep, i)
    ensures forall i :: !OccursAt(x, sep, i)
  {
    var s := x + sep + rest;
    forall i | 0 <= i <= |x| - 1
      ensures !OccursAt(s, sep, i)
    {
      if i + |sep| <= |s| {
        if i + 1 < |x| {
          assert s[i + 1] == x[i + 1] != sep[1];
        } else {
          assert s[i + 1] == sep[0] != sep[1];
        }
        assert s[i..i + |sep|][1] == s[i + 1];
      }
    }
    forall i | 0 <= i && i + |sep| <= |x|
      ensures !OccursAt(x, sep, i)
    {
      assert x[i..i + |sep|][1] == x[i + 1] != sep[1];
    }
  }

  /** When no part holds the separator's second character (and that differs
      from its first, as in " - "), splitting the joined text gives the parts
      back. */
  lemma {:induction false} SplitJoinOn(xs: seq<string>, sep: string)
    requires |sep| >= 2 && sep[0] != sep[1] && |xs| >= 1
    requires forall k :: 0 <= k < |xs| ==> sep[1] !in xs[k]
    ensures Split(Join(xs, sep), sep) == xs
    decreases |xs|
  {
    var x := xs[0];
    if |xs| == 1 {
      NoOccurrenceBefore(x, sep, "");
      assert IndexOf(x, sep).None?;
    } else {
      var rest := Join(xs[1..], sep);
      var s := x + sep + rest;
      assert OccursAt(s, sep, |x|) by { assert s[|x|..|x| + |sep|] == sep; }
      NoOccurrenceBefore(x, sep, rest);
      var i := IndexOf(s, sep).value;
      assert i == |x|;
      assert s[i + |sep|..] == rest;
      SplitJoinOn(xs[1..], sep);
      assert s[..i] == x;
    }
  }

  /** Concatenation of a sequence of strings, defined on the last element so
      that a loop appending one piece per step keeps it as an invariant. */
  function Concat(xs: seq<string>): string
    decreases |xs|
  {
    if |xs| == 0 then "" else Concat(xs[..|xs| - 1]) + xs[|xs| - 1]
  }

  lemma {:induction false} ConcatAppend(a: seq<string>, b: seq<string>)
    ensures Concat(a + b) == Concat(a) + Concat(b)
    decreases |b|
  {
    if |b| == 0 {
      assert a + b == a;
    } else {
      var init := b[..|b| - 1];
      var x := b[|b| - 1];
      assert (a + b)[..|a + b| - 1] == a + init;
      assert (a + b)[|a + b| - 1] == x;
      ConcatAppend(a, init);
      assert Concat(b) == Concat(init) + x;
      assert Concat(a + init) + x == Concat(a) + (Concat(init) + x);
    }
  }

  function LowerChar(c: char): char {
    if 'A' <= c <= 'Z' then (c as int + 32) as char else c
  }

  /** Lower-casing, for the ASCII letters. */
  function Lower(s: string): (r: string)
    ensures |r| == |s| && forall i :: 0 <= i < |s| ==> r[i] == LowerChar(s[i])
  {
    seq(|s|, i requires 0 <= i < |s| => LowerChar(s[i]))
  }
}
