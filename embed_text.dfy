/** Whitespace normalisation of extracted document text and HTML tag stripping
    for URL ingestion (backend/app/api/embed_ingest.py, _normalize and
    _strip_tags). Each regular-expression substitution is modelled as a
    left-to-right scan that replaces the leftmost match and resumes after it,
    as Python's re.sub does for patterns that never match the empty string. */
module EmbedText {
  import opened Wrappers
  import opened Text

  // ---------------------------------------------------------------------------
  // _normalize

  /** re.sub(r"\r\n|\r|\n", "\n", s): every line break becomes a single "\n". */
  function UnifyNewlines(s: string): (r: string)
    ensures '\r' !in r
    ensures '\r' !in s ==> r == s
    decreases |s|
  {
    if |s| == 0 then ""
    else if |s| >= 2 && s[0] == '\r' && s[1] == '\n' then "\n" + UnifyNewlines(s[2..])
    else if s[0] == '\r' then "\n" + UnifyNewlines(s[1..])
    else [s[0]] + UnifyNewlines(s[1..])
  }

  /** Length of the run of c at the start of s. */
  function RunOf(s: string, c: char): (n: nat)
    ensures n <= |s| && (forall i :: 0 <= i < n ==> s[i] == c) && (n == |s| || s[n] != c)
    decreases |s|
  {
    if |s| == 0 || s[0] != c then 0 else 1 + RunOf(s[1..], c)
  }

  /** re.sub(r"\n{3,}", "\n\n", s): runs of three or more newlines shrink to two;
      shorter runs stay as they are. */
  function CapBlankLines(s: string): (r: string)
    ensures '\n' !in s ==> r == s
    ensures forall c :: c != '\n' ==> (c in r <==> c in s)
    decreases |s|
  {
    if |s| == 0 then ""
    else if s[0] == '\n' then
      var n := RunOf(s, '\n');
      (if n >= 3 then "\n\n" else s[..n]) + CapBlankLines(s[n..])
    else [s[0]] + CapBlankLines(s[1..])
  }

  /** Length of the run of whitespace (Python's \s) at the start of s. */
  function SpaceRun(s: string): (n: nat)
    ensures n <= |s| && (forall i :: 0 <= i < n ==> IsPySpace(s[i])) && (n == |s| || !IsPySpace(s[n]))
    decreases |s|
  {
    if |s| == 0 || !IsPySpace(s[0]) then 0 else 1 + SpaceRun(s[1..])
  }

  /** No whitespace other than ' ', and no two whitespace characters in a row. */
  predicate SingleSpaced(r: string) {
    forall i :: 0 <= i < |r| && IsPySpace(r[i]) ==> r[i] == ' ' && (i + 1 == |r| || !IsPySpace(r[i + 1]))
  }

  /** re.sub(r"\s+", " ", s): every maximal run of whitespace becomes one space. */
  function CollapseSpace(s: string): (r: string)
    ensures SingleSpaced(r)
    ensures |r| == 0 <==> |s| == 0
    ensures |r| > 0 ==> (IsPySpace(r[0]) <==> IsPySpace(s[0]))
    ensures |r| > 0 ==> (IsPySpace(r[|r| - 1]) <==> IsPySpace(s[|s| - 1]))
    decreases |s|
  {
    if |s| == 0 then ""
    else if IsPySpace(s[0]) then
      var n := SpaceRun(s);
      var rest := CollapseSpace(s[n..]);
      assert rest == [] || !IsPySpace(rest[0]);
      " " + rest
    else
      var rest := CollapseSpace(s[1..]);
      [s[0]] + rest
  }

  /** _normalize: unify line breaks, cap blank lines, collapse whitespace runs
      to one space, strip both ends. */
  function Normalize(s: string): string {
    PyStrip(CollapseSpace(CapBlankLines(UnifyNewlines(s))))
  }

  predicate IsCrOrLf(c: char) { c == '\r' || c == '\n' }

  predicate IsNewline(c: char) { c == '\n' }

  /** UnifyNewlines touches line breaks only: with them removed, input and
      output are the same text. */
  lemma {:induction false} UnifyNewlinesKeepsText(s: string)
    ensures Without(UnifyNewlines(s), IsCrOrLf) == Without(s, IsCrOrLf)
    decreases |s|
  {
    if |s| == 0 {
    } else if |s| >= 2 && s[0] == '\r' && s[1] == '\n' {
      var rest := UnifyNewlines(s[2..]);
      UnifyNewlinesKeepsText(s[2..]);
      assert ("\n" + rest)[1..] == rest;
      assert s[1..][1..] == s[2..];
    } else if s[0] == '\r' {
      var rest := UnifyNewlines(s[1..]);
      UnifyNewlinesKeepsText(s[1..]);
      assert ("\n" + rest)[1..] == rest;
    } else {
      var rest := UnifyNewlines(s[1..]);
      UnifyNewlinesKeepsText(s[1..]);
      assert ([s[0]] + rest)[1..] == rest;
    }
  }

  /** CapBlankLines touches newlines only. */
  lemma {:induction false} CapBlankLinesKeepsText(s: string)
    ensures Without(CapBlankLines(s), IsNewline) == Without(s, IsNewline)
    decreases |s|
  {
    if |s| == 0 {
    } else if s[0] == '\n' {
      var n := CapRunStep(s);
      CapBlankLinesKeepsText(s[n..]);
    } else {
      var rest := CapBlankLines(s[1..]);
      CapBlankLinesKeepsText(s[1..]);
      assert ([s[0]] + rest)[1..] == rest;
    }
  }

  /** One leading run of newlines: neither the input nor the output keeps
      anything of it once newlines are removed. */
  lemma CapRunStep(s: string) returns (n: nat)
    requires |s| > 0 && s[0] == '\n'
    ensures n == RunOf(s, '\n') && 0 < n <= |s|
    ensures Without(CapBlankLines(s), IsNewline) == Without(CapBlankLines(s[n..]), IsNewline)
    ensures Without(s, IsNewline) == Without(s[n..], IsNewline)
  {
    n := RunOf(s, '\n');
    var run, tail := s[..n], s[n..];
    var part := if n >= 3 then "\n\n" else run;
    assert CapBlankLines(s) == part + CapBlankLines(tail);
    assert All(run, IsNewline) by {
      forall i | 0 <= i < |run| ensures IsNewline(run[i]) {
        assert run[i] == s[i];
      }
    }
    WithoutRun(part, CapBlankLines(tail), IsNewline);
    assert s == run + tail;
    WithoutRun(run, tail, IsNewline);
  }

  /** CollapseSpace touches whitespace only. */
  lemma {:induction false} CollapseSpaceKeepsText(s: string)
    ensures Without(CollapseSpace(s), IsPySpace) == Without(s, IsPySpace)
    decreases |s|
  {
    if |s| == 0 {
    } else if IsPySpace(s[0]) {
      var n := SpaceRun(s);
      var rest := CollapseSpace(s[n..]);
      assert All(s[..n], IsPySpace);
      WithoutAll(s[..n], IsPySpace);
      assert (" " + rest)[1..] == rest;
      assert s == s[..n] + s[n..];
      WithoutAppend(s[..n], s[n..], IsPySpace);
      CollapseSpaceKeepsText(s[n..]);
    } else {
      var rest := CollapseSpace(s[1..]);
      CollapseSpaceKeepsText(s[1..]);
      assert ([s[0]] + rest)[1..] == rest;
    }
  }

  /** _normalize only changes whitespace: the non-whitespace characters of its
      result are exactly those of its input, in the same order. */
  lemma NormalizeKeepsText(s: string)
    ensures Without(Normalize(s), IsPySpace) == Without(s, IsPySpace)
  {
    var a := UnifyNewlines(s);
    var b := CapBlankLines(a);
    var c := CollapseSpace(b);
    UnifyNewlinesKeepsText(s);
    WithoutFiner(s, IsCrOrLf, IsPySpace);
    WithoutFiner(a, IsCrOrLf, IsPySpace);
    CapBlankLinesKeepsText(a);
    WithoutFiner(a, IsNewline, IsPySpace);
    WithoutFiner(b, IsNewline, IsPySpace);
    CollapseSpaceKeepsText(b);
    StripKeepsText(c, IsPySpace);
  }

  /** The shape _normalize produces: the only whitespace is single interior
      spaces, so in particular there are no line breaks. */
  predicate Normalized(t: string) {
    forall i :: 0 <= i < |t| && IsPySpace(t[i]) ==> t[i] == ' ' && 0 < i < |t| - 1 && !IsPySpace(t[i + 1])
  }

  lemma SliceSingleSpaced(r: string, a: nat, b: nat)
    requires a <= b <= |r| && SingleSpaced(r)
    ensures SingleSpaced(r[a..b])
  {
    var t := r[a..b];
    forall i | 0 <= i < |t| && IsPySpace(t[i])
      ensures t[i] == ' ' && (i + 1 == |t| || !IsPySpace(t[i + 1]))
    {
      assert t[i] == r[a + i];
      if i + 1 < |t| {
        assert t[i + 1] == r[a + i + 1];
      }
    }
  }

  /** Stripping a single-spaced string leaves it normalized. */
  lemma {:induction false} StripSingleSpaced(r: string)
    requires SingleSpaced(r)
    ensures Normalized(PyStrip(r))
  {
    var a := TrimStart(r, IsPySpace);
    SliceSingleSpaced(r, |r| - |a|, |r|);
    var t := TrimEnd(a, IsPySpace);
    SliceSingleSpaced(a, 0, |t|);
    SingleSpacedTrimmed(t);
  }

  /** A single-spaced string with no whitespace at either end is normalized. */
  lemma SingleSpacedTrimmed(t: string)
    requires SingleSpaced(t)
    requires t == [] || (!IsPySpace(t[0]) && !IsPySpace(t[|t| - 1]))
    ensures Normalized(t)
  {
    forall i | 0 <= i < |t| && IsPySpace(t[i])
      ensures t[i] == ' ' && 0 < i < |t| - 1 && !IsPySpace(t[i + 1])
    {
    }
  }

  /** Every output of _normalize is normalized. */
  lemma NormalizeShape(s: string)
    ensures Normalized(Normalize(s))
  {
    StripSingleSpaced(CollapseSpace(CapBlankLines(UnifyNewlines(s))));
  }

  /** A normalized string passes through each step unchanged. */
  lemma {:induction false} CollapseNormalized(t: string)
    requires SingleSpaced(t)
    ensures CollapseSpace(t) == t
    decreases |t|
  {
    if |t| > 0 {
      SliceSingleSpaced(t, 1, |t|);
      CollapseNormalized(t[1..]);
      if IsPySpace(t[0]) {
        assert t[0] == ' ' && (|t| == 1 || !IsPySpace(t[1]));
        CollapseLoneSpace(t);
      } else {
        assert CollapseSpace(t) == [t[0]] + CollapseSpace(t[1..]);
      }
      assert t == [t[0]] + t[1..];
    }
  }

  /** A lone leading whitespace character becomes one space. */
  lemma CollapseLoneSpace(t: string)
    requires |t| > 0 && IsPySpace(t[0]) && (|t| == 1 || !IsPySpace(t[1]))
    ensures CollapseSpace(t) == " " + CollapseSpace(t[1..])
  {
    assert SpaceRun(t) == 1 by {
      assert SpaceRun(t) == 1 + SpaceRun(t[1..]);
    }
  }

  lemma NormalizeFixes(t: string)
    requires Normalized(t)
    ensures Normalize(t) == t
  {
    assert '\r' !in t by {
      forall i | 0 <= i < |t| ensures t[i] != '\r' {
        if IsPySpace(t[i]) { }
      }
    }
    assert '\n' !in t by {
      forall i | 0 <= i < |t| ensures t[i] != '\n' {
        if IsPySpace(t[i]) { }
      }
    }
    assert SingleSpaced(t);
    CollapseNormalized(t);
    if |t| > 0 {
      assert !IsPySpace(t[0]) && !IsPySpace(t[|t| - 1]);
      assert TrimStart(t, IsPySpace) == t;
    }
  }

  /** _normalize is idempotent. */
  lemma NormalizeIdempotent(s: string)
    ensures Normalize(Normalize(s)) == Normalize(s)
  {
    NormalizeShape(s);
    NormalizeFixes(Normalize(s));
  }

  // ---------------------------------------------------------------------------
  // _strip_tags

  /** A leftmost-match scanner: given the text from the scan position on, the
      length of the match starting right there, if any. Matches are never empty. */
  type Matcher = string -> Option<nat>

  ghost predicate Sound(m: Matcher) {
    forall s :: m(s).Some? ==> 0 < m(s).value <= |s|
  }

  /** re.sub(pattern, repl, s) for a pattern whose matches are never empty. */
  function ReSub(s: string, m: Matcher, repl: string): string
    requires Sound(m)
    decreases |s|
  {
    if |s| == 0 then ""
    else match m(s)
      case Some(n) => repl + ReSub(s[n..], m, repl)
      case None => [s[0]] + ReSub(s[1..], m, repl)
  }

  /** Python's \w for the ASCII range: letters, digits and underscore. */
  predicate IsWordChar(c: char) {
    'a' <= c <= 'z' || 'A' <= c <= 'Z' || '0' <= c <= '9' || c == '_'
  }

  /** s continues with word (case-insensitively) and then a word boundary. */
  predicate NameAt(s: string, word: string) {
    && |word| <= |s| && Lower(s[..|word|]) == word
    && (|word| == |s| || !IsWordChar(s[|word|]))
  }

  /** A closing tag at the start of s: '<', optional whitespace, '/', optional
      whitespace, the name (case-insensitively), optional whitespace, '>'.
      The result is the length it spans. */
  function CloseTagAt(s: string, name: string): (r: Option<nat>)
    ensures r.Some? ==> 0 < r.value <= |s|
  {
    if |s| == 0 || s[0] != '<' then None
    else
      var a := 1 + SpaceRun(s[1..]);
      if a >= |s| || s[a] != '/' then None
      else
        var b := a + 1 + SpaceRun(s[a + 1..]);
        if b + |name| > |s| || Lower(s[b..b + |name|]) != Lower(name) then None
        else
          var c := b + |name| + SpaceRun(s[b + |name|..]);
          if c >= |s| || s[c] != '>' then None else Some(c + 1)
  }

  /** The lazy `[\s\S]*?` followed by the closing tag: the end of the first
      closing tag at or after position i, measured from the start of s. */
  function FirstCloseFrom(s: string, name: string, i: nat): (r: Option<nat>)
    requires i <= |s|
    ensures r.Some? ==> i < r.value <= |s|
    decreases |s| - i
  {
    match CloseTagAt(s[i..], name)
    case Some(n) => Some(i + n)
    case None => if i == |s| then None else FirstCloseFrom(s, name, i + 1)
  }

  /** A whole block at the start of s, for one alternative of the name group:
      leading whitespace, '<', optional whitespace, the name followed by a word
      boundary, the shortest stretch of anything up to a closing tag for the
      same name as written, and trailing whitespace. */
  function BlockWith(s: string, name: string): (r: Option<nat>)
    ensures r.Some? ==> 0 < r.value <= |s|
  {
    var w := SpaceRun(s);
    if w >= |s| || s[w] != '<' then None
    else
      var p := w + 1 + SpaceRun(s[w + 1..]);
      if !NameAt(s[p..], name) then None
      else
        match FirstCloseFrom(s, s[p..p + |name|], p + |name|)
        case None => None
        case Some(e) => Some(e + SpaceRun(s[e..]))
  }

  /** The alternation `(n1|n2|...)`: the first name for which the whole block matches. */
  function BlockMatch(s: string, names: seq<string>): (r: Option<nat>)
    ensures r.Some? ==> 0 < r.value <= |s|
  {
    if |names| == 0 then None
    else match BlockWith(s, names[0])
      case Some(n) => Some(n)
      case None => BlockMatch(s, names[1..])
  }

  /** `<[^>]+>`: from '<' to the first '>' after at least one other character. */
  function TagMatch(s: string): (r: Option<nat>)
    ensures r.Some? ==> 0 < r.value <= |s|
  {
    if |s| < 3 || s[0] != '<' || s[1] == '>' then None
    else match IndexOf(s[1..], ">")
      case None => None
      case Some(j) => Some(j + 2)
  }

  function ScriptStyle(s: string): Option<nat> { BlockMatch(s, ["script", "style"]) }
  function NoScript(s: string): Option<nat> { BlockMatch(s, ["noscript"]) }

  /** _strip_tags: drop script/style blocks, then noscript blocks (each with the
      whitespace around it) in favour of one space, replace every remaining tag
      by a space, and normalize. */
  function StripTags(html: string): (r: string)
    ensures Normalized(r)
  {
    var a := ReSub(html, ScriptStyle, " ");
    var b := ReSub(a, NoScript, " ");
    var c := ReSub(b, TagMatch, " ");
    NormalizeShape(c);
    Normalize(c)
  }
}
