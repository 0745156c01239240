/** The client report e-mail of frontend/src/lib/buildClientReportEmail.ts:
    the HTML body built from a report summary. Number formatting for the
    locale (toLocaleString) is a parameter; Math.round is rounding half up on
    exact reals. */
module ReportEmail {
  import opened Wrappers
  import opened Text
  import opened Numbers
  import Reports

  datatype TopDoc = TopDoc(id: string, name: Option<string>, count: int)

  datatype Period = Period(from: string, to: string)

  /** The report summary as the admin API returns it; absent or null values
      are None. */
  datatype Summary = Summary(period: Period, tenant: string, questions: int, uniqueUsers: int,
                             resolvedRate: Option<real>, zeroHitRate: Option<real>,
                             tokens: real, costJpy: real, topDocs: Option<seq<TopDoc>>)

  /** Math.round: the nearest integer, halves rounded up. */
  function Round(x: real): (n: int)
    ensures n as real - 0.5 <= x < n as real + 0.5
  {
    (x + 0.5).Floor
  }

  /** pct: "-" for a missing rate, otherwise the rounded percentage and "%". */
  function Pct(v: Option<real>): (r: string)
    ensures v.None? ==> r == "-"
    ensures v.Some? ==> r == IntToString(Round(v.value * 100.0)) + "%"
  {
    if v.None? then "-" else IntToString(Round(v.value * 100.0)) + "%"
  }

  /** A rate in [0, 1] shows as a whole percentage between 0 and 100. */
  lemma PctOfUnitRate(v: real)
    requires 0.0 <= v <= 1.0
    ensures 0 <= Round(v * 100.0) <= 100
    ensures Pct(Some(v)) == NatToString(Round(v * 100.0)) + "%"
  {
  }

  /** The report's rates, rendered: "-" when the rate's counters are both
      zero, otherwise a percentage between 0 and 100. */
  lemma PctOfReportRate(part: int, other: int)
    requires part >= 0 && other >= 0
    ensures var r := Reports.Rate(part, other);
      && (Pct(r) == "-" <==> part == 0 && other == 0)
      && (r.Some? ==> 0 <= Round(r.value * 100.0) <= 100)
  {
    Reports.RateInUnitInterval(part, other);
    var r := Reports.Rate(part, other);
    if r.Some? {
      PctOfUnitRate(r.value);
      NatToStringDigits(Round(r.value * 100.0));
      assert (NatToString(Round(r.value * 100.0)) + "%")[0] != '-';
    }
  }

  lemma NatToStringDigits(n: nat)
    ensures |NatToString(n)| > 0 && IsDigit(NatToString(n)[0])
  {
    NatToStringValue(n);
  }

  // ---------------------------------------------------------------------------
  // The top documents

  /** d.name ?? d.id: the name unless it is missing. */
  function DocName(d: TopDoc): (r: string)
    ensures d.name.Some? ==> r == d.name.value
    ensures d.name.None? ==> r == d.id
  {
    d.name.GetOr(d.id)
  }

  function DocItem(d: TopDoc): string {
    "<li>" + DocName(d) + "（" + IntToString(d.count) + "件）</li>"
  }

  const NoDocsItem: string := "<li>該当なし</li>"

  function Take(docs: seq<TopDoc>, n: nat): (r: seq<TopDoc>)
    ensures |r| == if |docs| < n then |docs| else n
    ensures r == docs[..|r|]
  {
    if |docs| < n then docs else docs[..n]
  }

  function DocItems(docs: seq<TopDoc>): (r: seq<string>)
    ensures |r| == |docs| && forall i :: 0 <= i < |docs| ==> r[i] == DocItem(docs[i])
  {
    seq(|docs|, i requires 0 <= i < |docs| => DocItem(docs[i]))
  }

  /** The list items: the first five documents, or the single "該当なし" item
      when that list renders empty. */
  function DocsHtml(topDocs: Option<seq<TopDoc>>): string {
    var items := Concat(DocItems(Take(topDocs.GetOr([]), 5)));
    if items == "" then NoDocsItem else items
  }

  lemma {:induction false} ConcatItemsEmpty(docs: seq<TopDoc>)
    ensures Concat(DocItems(docs)) == "" <==> |docs| == 0
    decreases |docs|
  {
    if |docs| > 0 {
      var items := DocItems(docs);
      assert items[..|items| - 1] == DocItems(docs[..|docs| - 1]);
      assert DocItem(docs[|docs| - 1])[0] == '<';
    }
  }

  /** The list shows the first min(5, n) documents in the given order, and
      the "該当なし" item exactly when there are none. */
  lemma DocsHtmlSpec(topDocs: Option<seq<TopDoc>>)
    ensures var docs := topDocs.GetOr([]);
      && (DocsHtml(topDocs) == NoDocsItem <==> |docs| == 0)
      && (|docs| > 0 ==> DocsHtml(topDocs) == Concat(DocItems(Take(docs, 5))))
  {
    var docs := topDocs.GetOr([]);
    ConcatItemsEmpty(Take(docs, 5));
    if |docs| > 0 {
      var items := DocItems(Take(docs, 5));
      var n := |items|;
      assert items[..n - 1] == DocItems(Take(docs, 5)[..n - 1]);
      ConcatItemsEmpty(Take(docs, 5)[..n - 1]);
      var last := DocItem(Take(docs, 5)[n - 1]);
      assert Concat(items) == Concat(items[..n - 1]) + last;
      var d := Take(docs, 5)[n - 1];
      assert last[|"<li>" + DocName(d)|] == '（';
      assert '（' in Concat(items);
      assert '（' !in NoDocsItem;
    }
  }

  // ---------------------------------------------------------------------------
  // The body

  /** The period and tenant line under the title. */
  function Header(s: Summary): string {
    "期間: " + s.period.from + " ～ " + s.period.to + " ／ テナント: " + s.tenant
  }

  /** One row of the figures table. */
  function Row(caption: string, value: string): string {
    "\n      <tr><td>" + caption + "</td><td align=\"right\"><strong>" + value + "</strong></td></tr>"
  }

  const Top: string :=
    "\n  <div style=\"font-family:Inter,Arial,sans-serif; color:#1f2937; line-height:1.6;\">"
    + "\n    <h2 style=\"margin:0 0 12px;\">チャットボット レポート</h2>"
    + "\n    <div style=\"color:#6b7280;\">"
  const TableStart: string :=
    "</div>\n    <hr style=\"border:none;border-top:1px solid #e5e7eb;margin:16px 0;\" />"
    + "\n    <table cellpadding=\"0\" cellspacing=\"0\" style=\"width:100%;max-width:640px\">"
  const Notes: string :=
    "\n    </table>\n    <div style=\"font-size:12px;color:#6b7280;margin-top:10px;\">"
    + "\n      <div style=\"font-weight:600;margin:8px 0 4px;\">項目の説明</div>"
    + "\n      <ul style=\"margin:0;padding-left:18px;\">"
    + "\n        <li>総質問数: 対象期間の質問件数合計</li>"
    + "\n        <li>ユニーク利用者（推定）: 匿名IDに基づく近似ユニーク（延べユニーク）</li>"
    + "\n        <li>解決率: 「解決しましたか？」Yes ÷ (Yes + No)</li>"
    + "\n        <li>ゼロヒット率: 参照文書が0件だった割合</li>"
    + "\n        <li>推定コスト: モデル単価とトークン使用量に基づく概算（円）</li>"
    + "\n        <li>総トークン: 入力+出力トークンの合計（概算）</li>"
    + "\n      </ul>\n    </div>"
    + "\n    <h3 style=\"margin:16px 0 8px;\">上位参照ドキュメント</h3>"
    + "\n    <ul style=\"margin:0;padding-left:20px;\">"
  const Bottom: string :=
    "</ul>\n    <p style=\"font-size:12px;color:#6b7280;margin-top:16px;\">"
    + "\n      ※ 利用者数は匿名推定です。原文は保存していません（必要時のみマスキング済みスニペットを別途ご提供可能）。"
    + "\n    </p>\n  </div>"

  function Table(s: Summary, locale: int -> string): string {
    Row("総質問数", locale(s.questions))
    + Row("ユニーク利用者数（推定）", locale(s.uniqueUsers))
    + Row("解決率", Pct(s.resolvedRate))
    + Row("ゼロヒット率", Pct(s.zeroHitRate))
    + Row("推定コスト", "¥" + locale(Round(s.costJpy)))
    + Row("総トークン", locale(Round(s.tokens)))
  }

  /** buildClientReportEmail. */
  function BuildEmail(s: Summary, locale: int -> string): string {
    Top + Header(s) + TableStart + Table(s, locale) + Notes + DocsHtml(s.topDocs) + Bottom
  }

  lemma OccursIn(a: string, b: string, c: string)
    ensures OccursAt(a + b + c, b, |a|)
  {
    assert (a + b + c)[|a|..|a| + |b|] == b;
  }

  lemma OccursEnd(a: string, b: string)
    ensures OccursAt(a + b, b, |a|)
  {
    assert (a + b)[|a|..|a| + |b|] == b;
  }

  /** The header line names the period's start and end and the tenant. */
  lemma HeaderMentions(s: Summary)
    ensures Contains(Header(s), s.period.from)
    ensures Contains(Header(s), s.period.to)
    ensures Contains(Header(s), s.tenant)
  {
    var a := "期間: ";
    var b := " ～ ";
    var c := " ／ テナント: ";
    var from, to, tenant := s.period.from, s.period.to, s.tenant;
    assert Header(s) == a + from + b + to + c + tenant;
    OccursEnd(a, from);
    OccursExtend(a + from, b, from, |a|);
    OccursExtend(a + from + b, to, from, |a|);
    OccursExtend(a + from + b + to, c, from, |a|);
    OccursExtend(a + from + b + to + c, tenant, from, |a|);
    OccursEnd(a + from + b, to);
    OccursExtend(a + from + b + to, c, to, |a + from + b|);
    OccursExtend(a + from + b + to + c, tenant, to, |a + from + b|);
    OccursEnd(a + from + b + to + c, tenant);
  }

  lemma OccursExtend(x: string, y: string, p: string, i: int)
    requires OccursAt(x, p, i)
    ensures OccursAt(x + y, p, i)
  {
    assert (x + y)[i..i + |p|] == x[i..i + |p|];
  }

  /** The second of seven pieces occurs right after the first. */
  lemma OccursSecond(a: string, b: string, c: string, d: string, e: string, f: string, g: string)
    ensures OccursAt(a + b + c + d + e + f + g, b, |a|)
  {
    OccursEnd(a, b);
    OccursExtend(a + b, c, b, |a|);
    OccursExtend(a + b + c, d, b, |a|);
    OccursExtend(a + b + c + d, e, b, |a|);
    OccursExtend(a + b + c + d + e, f, b, |a|);
    OccursExtend(a + b + c + d + e + f, g, b, |a|);
  }

  /** The body carries the header line. */
  lemma EmailHasHeader(s: Summary, locale: int -> string)
    ensures Contains(BuildEmail(s, locale), Header(s))
  {
    OccursSecond(Top, Header(s), TableStart, Table(s, locale), Notes, DocsHtml(s.topDocs), Bottom);
  }

  /** The body carries the top-documents list. */
  lemma EmailHasDocs(s: Summary, locale: int -> string)
    ensures Contains(BuildEmail(s, locale), DocsHtml(s.topDocs))
  {
    var pre := Top + Header(s) + TableStart + Table(s, locale) + Notes;
    OccursIn(pre, DocsHtml(s.topDocs), Bottom);
  }
}
