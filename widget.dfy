/** The pure helpers of the embeddable chat widget (frontend/public/embed.js):
    HTML escaping, the HTTP-status message table and the send-button guard.
    The event-stream reader is in WidgetStream. */
module Widget {
  import opened Wrappers
  import opened Text

  // ---------------------------------------------------------------------------
  // escapeHtml

  /** String.prototype.replace with a global single-character pattern. */
  function ReplaceAll(s: string, c: char, rep: string): (r: string)
    ensures c !in rep ==> c !in r
    decreases |s|
  {
    if |s| == 0 then "" else (if s[0] == c then rep else [s[0]]) + ReplaceAll(s[1..], c, rep)
  }

  lemma {:induction false} ReplaceAllAppend(a: string, b: string, c: char, rep: string)
    ensures ReplaceAll(a + b, c, rep) == ReplaceAll(a, c, rep) + ReplaceAll(b, c, rep)
    decreases |a|
  {
    if |a| > 0 {
      assert (a + b)[1..] == a[1..] + b;
      ReplaceAllAppend(a[1..], b, c, rep);
    } else {
      assert a + b == b;
    }
  }

  /** escapeHtml: (s || '') with &, <, >, " and ' replaced, in that order, by
      their entities. */
  function EscapeHtml(s: Option<string>): string {
    var t := if s.Some? then s.value else "";
    ReplaceAll(ReplaceAll(ReplaceAll(ReplaceAll(ReplaceAll(t, '&', "&amp;"), '<', "&lt;"), '>', "&gt;"), '"', "&quot;"), '\'', "&#39;")
  }

  /** The entity of one character. */
  function EscapeChar(c: char): string {
    if c == '&' then "&amp;"
    else if c == '<' then "&lt;"
    else if c == '>' then "&gt;"
    else if c == '"' then "&quot;"
    else if c == '\'' then "&#39;"
    else [c]
  }

  /** Character-by-character escaping: the reference for the replace chain. */
  function EscapeChars(s: string): string
    decreases |s|
  {
    if |s| == 0 then "" else EscapeChar(s[0]) + EscapeChars(s[1..])
  }

  lemma ChainAppend(a: string, b: string)
    ensures EscapeHtml(Some(a + b)) == EscapeHtml(Some(a)) + EscapeHtml(Some(b))
  {
    var x1, y1 := ReplaceAll(a, '&', "&amp;"), ReplaceAll(b, '&', "&amp;");
    ReplaceAllAppend(a, b, '&', "&amp;");
    var x2, y2 := ReplaceAll(x1, '<', "&lt;"), ReplaceAll(y1, '<', "&lt;");
    ReplaceAllAppend(x1, y1, '<', "&lt;");
    var x3, y3 := ReplaceAll(x2, '>', "&gt;"), ReplaceAll(y2, '>', "&gt;");
    ReplaceAllAppend(x2, y2, '>', "&gt;");
    var x4, y4 := ReplaceAll(x3, '"', "&quot;"), ReplaceAll(y3, '"', "&quot;");
    ReplaceAllAppend(x3, y3, '"', "&quot;");
    ReplaceAllAppend(x4, y4, '\'', "&#39;");
  }

  lemma ReplaceAllAbsent(s: string, c: char, rep: string)
    requires c !in s
    ensures ReplaceAll(s, c, rep) == s
    decreases |s|
  {
  }

  lemma ReplaceAllSingle(d: char, c: char, rep: string)
    ensures ReplaceAll([d], c, rep) == if d == c then rep else [d]
  {
    assert [d][1..] == [];
  }

  /** The last four replacements leave an entity or a plain character that
      none of them targets as it is. */
  lemma LastFour(t: string)
    requires '<' !in t && '>' !in t && '"' !in t && '\'' !in t
    ensures ReplaceAll(ReplaceAll(ReplaceAll(ReplaceAll(t, '<', "&lt;"), '>', "&gt;"), '"', "&quot;"), '\'', "&#39;") == t
  {
    ReplaceAllAbsent(t, '<', "&lt;");
    ReplaceAllAbsent(t, '>', "&gt;");
    ReplaceAllAbsent(t, '"', "&quot;");
    ReplaceAllAbsent(t, '\'', "&#39;");
  }

  lemma LastThree(t: string)
    requires '>' !in t && '"' !in t && '\'' !in t
    ensures ReplaceAll(ReplaceAll(ReplaceAll(t, '>', "&gt;"), '"', "&quot;"), '\'', "&#39;") == t
  {
    ReplaceAllAbsent(t, '>', "&gt;");
    ReplaceAllAbsent(t, '"', "&quot;");
    ReplaceAllAbsent(t, '\'', "&#39;");
  }

  lemma LastTwo(t: string)
    requires '"' !in t && '\'' !in t
    ensures ReplaceAll(ReplaceAll(t, '"', "&quot;"), '\'', "&#39;") == t
  {
    ReplaceAllAbsent(t, '"', "&quot;");
    ReplaceAllAbsent(t, '\'', "&#39;");
  }

  lemma ChainChar(c: char)
    ensures EscapeHtml(Some([c])) == EscapeChar(c)
  {
    var x1 := ReplaceAll([c], '&', "&amp;");
    ReplaceAllSingle(c, '&', "&amp;");
    if c == '&' {
      LastFour("&amp;");
      return;
    }
    assert x1 == [c];
    var x2 := ReplaceAll(x1, '<', "&lt;");
    ReplaceAllSingle(c, '<', "&lt;");
    if c == '<' {
      LastThree("&lt;");
      return;
    }
    var x3 := ReplaceAll(x2, '>', "&gt;");
    ReplaceAllSingle(c, '>', "&gt;");
    if c == '>' {
      LastTwo("&gt;");
      return;
    }
    var x4 := ReplaceAll(x3, '"', "&quot;");
    ReplaceAllSingle(c, '"', "&quot;");
    if c == '"' {
      ReplaceAllAbsent("&quot;", '\'', "&#39;");
      return;
    }
    ReplaceAllSingle(c, '\'', "&#39;");
  }

  /** Because '&' is replaced first and no later replacement introduces a
      character an earlier one replaces, the chain escapes character by
      character. */
  lemma {:induction false} EscapeHtmlIsCharMap(s: string)
    ensures EscapeHtml(Some(s)) == EscapeChars(s)
    decreases |s|
  {
    if |s| > 0 {
      assert s == [s[0]] + s[1..];
      ChainAppend([s[0]], s[1..]);
      ChainChar(s[0]);
      EscapeHtmlIsCharMap(s[1..]);
    } else {
      assert ReplaceAll("", '&', "&amp;") == "";
    }
  }

  /** The five entities. */
  predicate EntityAt(t: string, i: int) {
    OccursAt(t, "&amp;", i) || OccursAt(t, "&lt;", i) || OccursAt(t, "&gt;", i)
    || OccursAt(t, "&quot;", i) || OccursAt(t, "&#39;", i)
  }

  lemma EntityShift(a: string, b: string, j: int)
    requires 0 <= j < |b|
    ensures EntityAt(a + b, |a| + j) <==> EntityAt(b, j)
  {
    var t := a + b;
    forall e: string | |e| > 0
      ensures OccursAt(t, e, |a| + j) <==> OccursAt(b, e, j)
    {
      if j + |e| <= |b| {
        assert t[|a| + j..|a| + j + |e|] == b[j..j + |e|];
      }
    }
  }

  /** The escape of one character holds no <, >, " or ', and a & only at its
      start, where an entity begins. */
  lemma EscapeCharClean(c: char)
    ensures MarkupSafe(EscapeChar(c))
    ensures forall i :: 0 <= i < |EscapeChar(c)| && EscapeChar(c)[i] == '&' ==> i == 0
  {
    var h := EscapeChar(c);
    if c == '&' {
      assert h == ['&', 'a', 'm', 'p', ';'];
      assert OccursAt(h, "&amp;", 0);
    } else if c == '<' {
      assert h == ['&', 'l', 't', ';'];
      assert OccursAt(h, "&lt;", 0);
    } else if c == '>' {
      assert h == ['&', 'g', 't', ';'];
      assert OccursAt(h, "&gt;", 0);
    } else if c == '"' {
      assert h == ['&', 'q', 'u', 'o', 't', ';'];
      assert OccursAt(h, "&quot;", 0);
    } else if c == '\'' {
      assert h == ['&', '#', '3', '9', ';'];
      assert OccursAt(h, "&#39;", 0);
    }
  }

  lemma EntityPrefix(h: string, rest: string)
    requires EntityAt(h, 0)
    ensures EntityAt(h + rest, 0)
  {
    var t := h + rest;
    forall e: string | |e| <= |h| && OccursAt(h, e, 0) ensures OccursAt(t, e, 0) {
      assert t[..|e|] == h[..|e|];
    }
  }

  /** No <, >, " or ', and every & starts an entity. */
  predicate MarkupSafe(t: string) {
    && (forall i :: 0 <= i < |t| ==> t[i] != '<' && t[i] != '>' && t[i] != '"' && t[i] != '\'')
    && (forall i :: 0 <= i < |t| && t[i] == '&' ==> EntityAt(t, i))
  }

  /** Safe text after a safe piece whose only & starts it is safe. */
  lemma SafeAfterPiece(h: string, rest: string)
    requires MarkupSafe(h) && MarkupSafe(rest)
    requires forall i :: 0 <= i < |h| && h[i] == '&' ==> i == 0
    ensures MarkupSafe(h + rest)
  {
    var t := h + rest;
    forall i | 0 <= i < |t|
      ensures t[i] != '<' && t[i] != '>' && t[i] != '"' && t[i] != '\''
      ensures t[i] == '&' ==> EntityAt(t, i)
    {
      if i < |h| {
        assert t[i] == h[i];
        if t[i] == '&' {
          assert i == 0 && EntityAt(h, 0);
          EntityPrefix(h, rest);
        }
      } else {
        var j := i - |h|;
        assert t[i] == rest[j];
        EntityShift(h, rest, j);
      }
    }
  }

  /** Escaped text is safe. */
  lemma {:induction false} EscapeCharsSafe(s: string)
    ensures MarkupSafe(EscapeChars(s))
    decreases |s|
  {
    if |s| > 0 {
      EscapeCharsSafe(s[1..]);
      EscapeCharClean(s[0]);
      assert EscapeChars(s) == EscapeChar(s[0]) + EscapeChars(s[1..]);
      SafeAfterPiece(EscapeChar(s[0]), EscapeChars(s[1..]));
    }
  }

  /** Decodes the five entities, leaving every other character as it is. */
  function Unescape(t: string): string
    decreases |t|
  {
    if |t| == 0 then ""
    else if StartsWith(t, "&amp;") then "&" + Unescape(t[5..])
    else if StartsWith(t, "&lt;") then "<" + Unescape(t[4..])
    else if StartsWith(t, "&gt;") then ">" + Unescape(t[4..])
    else if StartsWith(t, "&quot;") then "\"" + Unescape(t[6..])
    else if StartsWith(t, "&#39;") then "'" + Unescape(t[5..])
    else [t[0]] + Unescape(t[1..])
  }

  /** Decoding an escaped character and what follows it. */
  lemma UnescapeStep(c: char, rest: string)
    ensures Unescape(EscapeChar(c) + rest) == [c] + Unescape(rest)
  {
    var h := EscapeChar(c);
    var t := h + rest;
    assert t[..|h|] == h && t[|h|..] == rest;
    if c == '&' {
      assert StartsWith(t, "&amp;");
    } else if c == '<' {
      assert t[1] == 'l';
      assert StartsWith(t, "&lt;") && !StartsWith(t, "&amp;");
    } else if c == '>' {
      assert t[1] == 'g';
      assert StartsWith(t, "&gt;") && !StartsWith(t, "&amp;") && !StartsWith(t, "&lt;");
    } else if c == '"' {
      assert t[1] == 'q';
      assert StartsWith(t, "&quot;") && !StartsWith(t, "&amp;") && !StartsWith(t, "&lt;") && !StartsWith(t, "&gt;");
    } else if c == '\'' {
      assert t[1] == '#';
      assert StartsWith(t, "&#39;") && !StartsWith(t, "&amp;") && !StartsWith(t, "&lt;") && !StartsWith(t, "&gt;")
        && !StartsWith(t, "&quot;");
    } else {
      assert t[0] == c && c != '&';
      assert !StartsWith(t, "&amp;") && !StartsWith(t, "&lt;") && !StartsWith(t, "&gt;")
        && !StartsWith(t, "&quot;") && !StartsWith(t, "&#39;");
    }
  }

  lemma {:induction false} UnescapeEscapeChars(s: string)
    ensures Unescape(EscapeChars(s)) == s
    decreases |s|
  {
    if |s| > 0 {
      assert EscapeChars(s) == EscapeChar(s[0]) + EscapeChars(s[1..]);
      UnescapeStep(s[0], EscapeChars(s[1..]));
      UnescapeEscapeChars(s[1..]);
      assert s == [s[0]] + s[1..];
    }
  }

  /** escapeHtml is safe to splice into markup and loses nothing: its output
      holds no <, >, " or ', every & starts one of the five entities, and
      decoding the entities gives back the input (or "" for null). */
  lemma EscapeHtmlSafe(s: Option<string>)
    ensures MarkupSafe(EscapeHtml(s))
    ensures Unescape(EscapeHtml(s)) == (if s.Some? then s.value else "")
  {
    var u := if s.Some? then s.value else "";
    EscapeHtmlIsCharMap(u);
    EscapeCharsSafe(u);
    UnescapeEscapeChars(u);
  }

  // ---------------------------------------------------------------------------
  // getErrorMessage

  datatype Severity = Error | Warning

  datatype ErrorInfo = ErrorInfo(kind: Severity, title: string, details: string, showRetry: bool)

  /** The error body as JSON.parse sees it: None when it is not a JSON object;
      otherwise its detail and message fields (absent fields are None). */
  datatype ErrorBody = ErrorBody(detail: Option<string>, message: Option<string>)

  const GenericDetails: string := "エラーが発生しました。もう一度お試しください。"

  function IsServerError(status: int): bool {
    status == 500 || status == 502 || status == 503 || status == 504
  }

  /** getErrorMessage: the message shown for a failed request. */
  function GetErrorMessage(status: int, body: Option<ErrorBody>): (info: ErrorInfo)
    ensures info.showRetry <==> status != 401 && status != 402 && status != 403
    ensures info.kind == Warning <==> status == 429 || status == 402
    ensures status !in {401, 402, 403, 429} && !IsServerError(status) ==>
      info.title == "エラー" && info.details != ""
  {
    if status == 401 then
      ErrorInfo(Error, "認証エラー", "埋め込みキーが無効です。サイト管理者にお問い合わせください。", false)
    else if status == 429 then
      ErrorInfo(Warning, "アクセス制限", "リクエストが集中しています。しばらく時間をおいてから再度お試しください。", true)
    else if status == 402 then
      ErrorInfo(Warning, "利用上限到達", "本日の利用上限に達しました。明日再度ご利用ください。", false)
    else if status == 403 then
      ErrorInfo(Error, "アクセス拒否", "このサイトからのアクセスは許可されていません。", false)
    else if IsServerError(status) then
      ErrorInfo(Error, "サーバーエラー", "サーバーで問題が発生しています。しばらく時間をおいてから再度お試しください。", true)
    else
      ErrorInfo(Error, "エラー", ErrorDetails(body), true)
  }

  /** The details of an unlisted status: the body's detail, else its message,
      else the generic text; an empty string counts as absent. */
  function ErrorDetails(body: Option<ErrorBody>): (d: string)
    ensures d != ""
    ensures body.Some? && body.value.detail.Some? && body.value.detail.value != "" ==> d == body.value.detail.value
    ensures body.None? ==> d == GenericDetails
    ensures body.Some? && (body.value.detail.None? || body.value.detail.value == "") ==>
      if body.value.message.Some? && body.value.message.value != "" then d == body.value.message.value
      else d == GenericDetails
  {
    if body.None? then GenericDetails
    else if body.value.detail.Some? && body.value.detail.value != "" then body.value.detail.value
    else if body.value.message.Some? && body.value.message.value != "" then body.value.message.value
    else GenericDetails
  }

  // ---------------------------------------------------------------------------
  // The send button

  /** The text area and the questions handed to ask(), in order. */
  class Composer {
    var text: string
    var asked: seq<string>

    constructor(initial: string)
      ensures text == initial && asked == []
    {
      text := initial;
      asked := [];
    }

    /** The click handler: trim the text; when nothing is left, do nothing
        (the text area keeps its content); otherwise clear it and ask. */
    method Send()
      modifies this
      ensures var q := JsTrim(old(text));
        if q == "" then text == old(text) && asked == old(asked)
        else text == "" && asked == old(asked) + [q]
    {
      var q := JsTrim(text);
      if q == "" {
        return;
      }
      text := "";
      asked := asked + [q];
    }
  }

  /** Send does nothing exactly when the text is all whitespace; a question
      handed over never starts or ends with whitespace. */
  lemma AskedIsTrimmed(t: string)
    ensures var q := JsTrim(t);
      && (q == "" <==> All(t, IsJsSpace))
      && (q != "" ==> !IsJsSpace(q[0]) && !IsJsSpace(q[|q| - 1]))
  {
    StripShape(t, IsJsSpace);
  }
}
