/** The admin report of backend/app/api/reports.py: the summary handler's
    checks, its per-day reads of the key/value store over an inclusive date
    range, the running totals, the two rates and the top-5 document merge.
    The store is a parameter (absent when none is configured); its values are
    read as decoded text, as int(...) and float(...) then parse them. */
module Reports {
  import opened Wrappers
  import opened Text
  import opened Numbers
  import opened OrderedMaps
  import opened Config
  import opened Dates

  // ---------------------------------------------------------------------------
  // The store

  /** Plain values (GET), HyperLogLog cardinalities (PFCOUNT) and hashes
      (HGETALL, each in its iteration order). */
  datatype Store = Store(strings: map<string, string>, counts: map<string, nat>,
                         hashes: map<string, OMap<string, string>>)

  function StrGet(st: Store, key: string): Option<string> {
    if key in st.strings then Some(st.strings[key]) else None
  }

  function PfCount(st: Store, key: string): nat {
    if key in st.counts then st.counts[key] else 0
  }

  function HGetAll(st: Store, key: string): OMap<string, string> {
    if key in st.hashes then st.hashes[key] else []
  }

  /** int(v or 0): a missing or empty value counts as 0, any other text must
      parse (ValueError, hence status 500, otherwise). */
  function IntOrZero(v: Option<string>): (r: Result<int, int>)
    ensures (v.None? || v == Some("")) ==> r == Ok(0)
    ensures r.Err? ==> r.error == 500
    ensures v.Some? && v.value != "" ==> (r.Ok? <==> PyInt(v.value).Some?)
  {
    if v.None? || v.value == "" then Ok(0)
    else match PyInt(v.value)
      case None => Err(500)
      case Some(i) => Ok(i)
  }

  /** float(v or 0), in the same way. */
  function FloatOrZero(v: Option<string>): (r: Result<real, int>)
    ensures (v.None? || v == Some("")) ==> r == Ok(0.0)
    ensures r.Err? ==> r.error == 500
    ensures v.Some? && v.value != "" ==> (r.Ok? <==> PyFloat(v.value).Some?)
  {
    if v.None? || v.value == "" then Ok(0.0)
    else match PyFloat(v.value)
      case None => Err(500)
      case Some(x) => Ok(x)
  }

  /** The key "<kind>:<day>:<tenant>". */
  function DayKey(kind: string, day: string, tenant: string): string {
    kind + ":" + day + ":" + tenant
  }

  // ---------------------------------------------------------------------------
  // One day

  datatype DayStats = DayStats(questions: int, users: int, tokens: real, cost: real,
                               hit: int, zero: int, yes: int, no: int, top: seq<(string, int)>)

  const EmptyDay: DayStats := DayStats(0, 0, 0.0, 0.0, 0, 0, 0, 0, [])

  /** The docs_top hash of a day with each count parsed as int(v or 0). */
  function ParseTop(items: OMap<string, string>): (r: Result<seq<(string, int)>, int>)
    ensures r.Ok? ==> |r.value| == |items| && forall i :: 0 <= i < |items| ==> r.value[i].0 == items[i].0
    ensures r.Err? ==> r.error == 500
    decreases |items|
  {
    if |items| == 0 then Ok([])
    else
      var last := items[|items| - 1];
      match ParseTop(items[..|items| - 1])
      case Err(e) => Err(e)
      case Ok(init) =>
        match IntOrZero(Some(last.1))
        case Err(e) => Err(e)
        case Ok(v) =>
          var r := init + [(last.0, v)];
          assert forall i :: 0 <= i < |items| - 1 ==> r[i].0 == items[..|items| - 1][i].0 == items[i].0;
          Ok(r)
  }

  /** Everything the loop body reads for one day. */
  function ReadDay(st: Store, tenant: string, d: Date): (r: Result<DayStats, int>)
    requires Valid(d)
    ensures r.Err? ==> r.error == 500
  {
    var day := FormatDate(d);
    var h := HGetAll(st, DayKey("docs", day, tenant));
    var fb := HGetAll(st, DayKey("feedback", day, tenant));
    var q := IntOrZero(StrGet(st, DayKey("metrics", day, tenant) + ":count"));
    var tk := FloatOrZero(StrGet(st, DayKey("tokens", day, tenant)));
    var c := FloatOrZero(StrGet(st, DayKey("cost", day, tenant)));
    var hit := IntOrZero(Get(h, "hit"));
    var zero := IntOrZero(Get(h, "zero_hit"));
    var yes := IntOrZero(Get(fb, "yes"));
    var no := IntOrZero(Get(fb, "no"));
    var top := ParseTop(HGetAll(st, DayKey("docs_top", day, tenant)));
    if q.Err? || tk.Err? || c.Err? || hit.Err? || zero.Err? || yes.Err? || no.Err? || top.Err? then Err(500)
    else Ok(DayStats(q.value, PfCount(st, DayKey("hll", day, tenant)), tk.value, c.value,
                     hit.value, zero.value, yes.value, no.value, top.value))
  }

  /** A day for which the store holds nothing reads as all zeros. */
  lemma MissingDayIsZero(st: Store, tenant: string, d: Date)
    requires Valid(d)
    requires forall key :: key !in st.strings && key !in st.counts && key !in st.hashes
    ensures ReadDay(st, tenant, d) == Ok(EmptyDay)
  {
  }

  // ---------------------------------------------------------------------------
  // The top-document counts

  function GetOrZero(m: OMap<string, int>, k: string): int {
    match Get(m, k)
    case None => 0
    case Some(v) => v
  }

  /** docs_top[k] = docs_top.get(k, 0) + v for every (k, v) in turn. */
  function MergeCounts(docs: OMap<string, int>, items: seq<(string, int)>): (r: OMap<string, int>)
    requires DistinctKeys(docs)
    ensures DistinctKeys(r)
    decreases |items|
  {
    if |items| == 0 then docs else Bump(MergeCounts(docs, items[..|items| - 1]), items[|items| - 1])
  }

  /** docs_top[k] = docs_top.get(k, 0) + v for one (k, v) entry. */
  function Bump(m: OMap<string, int>, item: (string, int)): (r: OMap<string, int>)
    requires DistinctKeys(m)
    ensures DistinctKeys(r)
  {
    Put(m, item.0, GetOrZero(m, item.0) + item.1)
  }

  /** The sum of the counts listed for k. */
  function SumFor(items: seq<(string, int)>, k: string): int
    decreases |items|
  {
    if |items| == 0 then 0
    else SumFor(items[..|items| - 1], k) + (if items[|items| - 1].0 == k then items[|items| - 1].1 else 0)
  }

  predicate Listed(items: seq<(string, int)>, k: string) {
    exists i :: 0 <= i < |items| && items[i].0 == k
  }

  lemma PutGet(m: OMap<string, int>, key: string, v: int, k: string)
    requires DistinctKeys(m)
    ensures GetOrZero(Put(m, key, v), k) == if k == key then v else GetOrZero(m, k)
    ensures HasKey(Put(m, key, v), k) <==> HasKey(m, k) || k == key
  {
    var r := Put(m, key, v);
    if k != key {
      assert Get(r, k) == Get(m, k);
    }
  }

  lemma MergeCountsLast(docs: OMap<string, int>, items: seq<(string, int)>, k: string)
    requires DistinctKeys(docs) && |items| > 0
    ensures var m := MergeCounts(docs, items[..|items| - 1]);
            var last := items[|items| - 1];
            && GetOrZero(MergeCounts(docs, items), k)
               == GetOrZero(m, k) + (if last.0 == k then last.1 else 0)
            && (HasKey(MergeCounts(docs, items), k) <==> HasKey(m, k) || last.0 == k)
  {
    var m := MergeCounts(docs, items[..|items| - 1]);
    var last := items[|items| - 1];
    PutGet(m, last.0, GetOrZero(m, last.0) + last.1, k);
  }

  lemma ListedLast(items: seq<(string, int)>, k: string)
    requires |items| > 0
    ensures Listed(items, k) <==> Listed(items[..|items| - 1], k) || items[|items| - 1].0 == k
  {
    var init := items[..|items| - 1];
    assert forall i :: 0 <= i < |init| ==> init[i] == items[i];
  }

  /** After the merge each id holds its old count (0 if absent) plus every
      count listed for it, and an id is present iff it was before or is listed. */
  lemma {:induction false} MergeCountsValue(docs: OMap<string, int>, items: seq<(string, int)>, k: string)
    requires DistinctKeys(docs)
    ensures GetOrZero(MergeCounts(docs, items), k) == GetOrZero(docs, k) + SumFor(items, k)
    ensures HasKey(MergeCounts(docs, items), k) <==> HasKey(docs, k) || Listed(items, k)
    decreases |items|
  {
    if |items| > 0 {
      MergeCountsValue(docs, items[..|items| - 1], k);
      MergeCountsLast(docs, items, k);
      ListedLast(items, k);
    }
  }

  // ---------------------------------------------------------------------------
  // Running totals

  datatype Totals = Totals(questions: int, users: int, tokens: real, cost: real,
                           hit: int, zero: int, yes: int, no: int, docs: OMap<string, int>)

  const NoTotals: Totals := Totals(0, 0, 0.0, 0.0, 0, 0, 0, 0, [])

  /** One pass of the loop body: every counter accumulates except tokens,
      which is assigned. */
  function AddDay(t: Totals, s: DayStats): (r: Totals)
    requires DistinctKeys(t.docs)
    ensures DistinctKeys(r.docs)
  {
    Totals(t.questions + s.questions, t.users + s.users, s.tokens, t.cost + s.cost,
           t.hit + s.hit, t.zero + s.zero, t.yes + s.yes, t.no + s.no, MergeCounts(t.docs, s.top))
  }

  /** The totals over the days' reads, in order; the first failed read fails
      the whole. */
  function TotalsOf(daily: seq<Result<DayStats, int>>): (r: Result<Totals, int>)
    ensures r.Ok? ==> DistinctKeys(r.value.docs)
    ensures r.Err? <==> exists i :: 0 <= i < |daily| && daily[i].Err?
    ensures r.Err? ==> exists i :: 0 <= i < |daily| && daily[i] == Err(r.error)
    decreases |daily|
  {
    if |daily| == 0 then Ok(NoTotals)
    else
      match TotalsOf(daily[..|daily| - 1])
      case Err(e) => Err(e)
      case Ok(t) =>
        match daily[|daily| - 1]
        case Err(e) => Err(e)
        case Ok(s) => Ok(AddDay(t, s))
  }

  predicate AllValid(days: seq<Date>) {
    forall i :: 0 <= i < |days| ==> Valid(days[i])
  }

  /** What the loop reads, day by day. */
  function Reads(st: Store, tenant: string, days: seq<Date>): (r: seq<Result<DayStats, int>>)
    requires AllValid(days)
    ensures |r| == |days|
  {
    seq(|days|, k requires 0 <= k < |days| => ReadDay(st, tenant, days[k]))
  }

  /** The totals over a range split at any point: the counters and the cost of
      the whole are the sums of those of the parts, and tokens come from the
      later part alone when it is not empty. An error anywhere is an error of
      the whole. */
  lemma {:induction false} TotalsSplit(a: seq<Result<DayStats, int>>, b: seq<Result<DayStats, int>>)
    ensures TotalsOf(a + b).Ok? <==> TotalsOf(a).Ok? && TotalsOf(b).Ok?
    ensures TotalsOf(a + b).Ok? ==>
              var w := TotalsOf(a + b).value;
              var x := TotalsOf(a).value;
              var y := TotalsOf(b).value;
              && w.questions == x.questions + y.questions && w.users == x.users + y.users
              && w.cost == x.cost + y.cost && w.hit == x.hit + y.hit && w.zero == x.zero + y.zero
              && w.yes == x.yes + y.yes && w.no == x.no + y.no
              && w.tokens == (if b == [] then x.tokens else y.tokens)
    decreases |b|
  {
    if |b| == 0 {
      assert a + b == a;
    } else {
      var init := b[..|b| - 1];
      assert (a + b)[..|a + b| - 1] == a + init;
      assert (a + b)[|a + b| - 1] == b[|b| - 1];
      TotalsSplit(a, init);
    }
  }

  /** One day's totals are that day's values. */
  lemma TotalsOfOneDay(s: DayStats)
    ensures TotalsOf([Ok(s)]).Ok?
    ensures var w := TotalsOf([Ok(s)]).value;
            && w.questions == s.questions && w.users == s.users && w.cost == s.cost
            && w.hit == s.hit && w.zero == s.zero && w.yes == s.yes && w.no == s.no
            && w.tokens == s.tokens
  {
    var one: seq<Result<DayStats, int>> := [Ok(s)];
    assert one[..0] == [];
  }

  // ---------------------------------------------------------------------------
  // Rates and the top five

  /** part / (part + other), or None when the denominator is not positive. */
  function Rate(part: int, other: int): (r: Option<real>)
    ensures r.None? <==> part + other <= 0
    ensures r.Some? ==> r.value * (part + other) as real == part as real
  {
    if part + other > 0 then Some(part as real / (part + other) as real) else None
  }

  /** With counts that are not negative, a rate is None exactly when both are
      zero, and otherwise lies in [0, 1]. */
  lemma RateInUnitInterval(part: int, other: int)
    requires part >= 0 && other >= 0
    ensures Rate(part, other).None? <==> part == 0 && other == 0
    ensures Rate(part, other).Some? ==> 0.0 <= Rate(part, other).value <= 1.0
  {
    if part + other > 0 {
      var v := Rate(part, other).value;
      var n := (part + other) as real;
      assert v * n == part as real;
      assert 0.0 <= part as real <= n;
    }
  }

  predicate SortedDesc(s: seq<(string, int)>) {
    forall i, j :: 0 <= i < j < |s| ==> s[i].1 >= s[j].1
  }

  /** Puts x after every entry whose count is at least x's. */
  function Insert(s: seq<(string, int)>, x: (string, int)): (r: seq<(string, int)>)
    decreases |s|
  {
    if |s| == 0 then [x]
    else if s[|s| - 1].1 >= x.1 then s + [x]
    else Insert(s[..|s| - 1], x) + [s[|s| - 1]]
  }

  /** sorted(entries, key=count, reverse=True): a stable sort by count,
      descending. */
  function SortDesc(xs: seq<(string, int)>): (r: seq<(string, int)>)
    decreases |xs|
  {
    if |xs| == 0 then [] else Insert(SortDesc(xs[..|xs| - 1]), xs[|xs| - 1])
  }

  /** The entries with count c, in order. */
  function WithCount(s: seq<(string, int)>, c: int): seq<(string, int)>
    decreases |s|
  {
    if |s| == 0 then []
    else WithCount(s[..|s| - 1], c) + (if s[|s| - 1].1 == c then [s[|s| - 1]] else [])
  }

  lemma {:induction false} WithCountAppend(s: seq<(string, int)>, t: seq<(string, int)>, c: int)
    ensures WithCount(s + t, c) == WithCount(s, c) + WithCount(t, c)
    decreases |t|
  {
    if |t| == 0 {
      assert s + t == s;
    } else {
      assert (s + t)[..|s + t| - 1] == s + t[..|t| - 1];
      WithCountAppend(s, t[..|t| - 1], c);
    }
  }

  lemma {:induction false} InsertSorted(s: seq<(string, int)>, x: (string, int))
    requires SortedDesc(s)
    ensures SortedDesc(Insert(s, x))
    ensures multiset(Insert(s, x)) == multiset(s) + multiset{x}
    decreases |s|
  {
    if |s| == 0 {
    } else if s[|s| - 1].1 >= x.1 {
      forall k | 0 <= k < |s| ensures s[k].1 >= x.1 {
        if k < |s| - 1 {
          assert s[k].1 >= s[|s| - 1].1;
        }
      }
      AppendSmallest(s, x);
    } else {
      var init := s[..|s| - 1];
      var last := s[|s| - 1];
      assert s == init + [last];
      assert SortedDesc(init);
      forall k | 0 <= k < |init| ensures init[k].1 >= last.1 {
        assert init[k] == s[k];
      }
      InsertSorted(init, x);
      var r := Insert(init, x);
      assert Insert(s, x) == r + [last];
      AllAtLeast(r, init, x, last.1);
      AppendSmallest(r, last);
    }
  }

  /** An entry no larger than any of a sorted list goes at its end. */
  lemma AppendSmallest(r: seq<(string, int)>, y: (string, int))
    requires SortedDesc(r)
    requires forall k :: 0 <= k < |r| ==> r[k].1 >= y.1
    ensures SortedDesc(r + [y])
  {
    var t := r + [y];
    forall i, j | 0 <= i < j < |t| ensures t[i].1 >= t[j].1 {
      assert t[i] == r[i];
      if j < |r| {
        assert t[j] == r[j];
      }
    }
  }

  /** The entries of a list made of init and x are all at least a bound that
      init's entries and x are. */
  lemma AllAtLeast(r: seq<(string, int)>, init: seq<(string, int)>, x: (string, int), bound: int)
    requires multiset(r) == multiset(init) + multiset{x}
    requires x.1 >= bound
    requires forall k :: 0 <= k < |init| ==> init[k].1 >= bound
    ensures forall k :: 0 <= k < |r| ==> r[k].1 >= bound
  {
    forall k | 0 <= k < |r| ensures r[k].1 >= bound {
      assert r[k] in multiset(r);
      if r[k] != x {
        assert r[k] in multiset(init);
        var idx :| 0 <= idx < |init| && init[idx] == r[k];
      }
    }
  }

  lemma {:induction false} InsertStable(s: seq<(string, int)>, x: (string, int), c: int)
    ensures WithCount(Insert(s, x), c) == WithCount(s, c) + (if x.1 == c then [x] else [])
    decreases |s|
  {
    if |s| == 0 {
      assert [x][..0] == [];
    } else if s[|s| - 1].1 >= x.1 {
      WithCountAppend(s, [x], c);
      assert [x][..0] == [];
    } else {
      var init := s[..|s| - 1];
      var last := s[|s| - 1];
      assert s == init + [last];
      InsertStable(init, x, c);
      WithCountAppend(Insert(init, x), [last], c);
      WithCountAppend(init, [last], c);
      assert [last][..0] == [];
    }
  }

  /** The sort is ordered, a permutation, and stable: the entries of each
      count keep their order. */
  lemma {:induction false} SortDescSpec(xs: seq<(string, int)>)
    ensures SortedDesc(SortDesc(xs))
    ensures multiset(SortDesc(xs)) == multiset(xs)
    ensures |SortDesc(xs)| == |xs|
    ensures forall c :: WithCount(SortDesc(xs), c) == WithCount(xs, c)
    decreases |xs|
  {
    if |xs| > 0 {
      var init := xs[..|xs| - 1];
      var x := xs[|xs| - 1];
      SortDescSpec(init);
      assert xs == init + [x];
      forall c ensures WithCount(SortDesc(xs), c) == WithCount(xs, c) {
        InsertStable(SortDesc(init), x, c);
        WithCountAppend(init, [x], c);
        assert [x][..0] == [];
      }
      InsertSorted(SortDesc(init), x);
    }
  }

  function Min(a: int, b: int): int { if a < b then a else b }

  /** [{"id": k, "count": v} ...] sorted and cut to five. */
  function TopDocs(docs: OMap<string, int>): seq<(string, int)> {
    var sorted := SortDesc(docs);
    sorted[..Min(5, |sorted|)]
  }

  /** At most five entries, all of them id counts, the largest first; no entry
      left out has a larger count than one shown. */
  lemma TopDocsSpec(docs: OMap<string, int>)
    ensures var t := TopDocs(docs);
            && |t| == Min(5, |docs|)
            && SortedDesc(t)
            && multiset(t) <= multiset(docs)
            && t == SortDesc(docs)[..|t|]
    ensures forall i, j :: 0 <= i < |TopDocs(docs)| <= j < |SortDesc(docs)| ==>
              SortDesc(docs)[j].1 <= TopDocs(docs)[i].1
  {
    var sorted := SortDesc(docs);
    SortDescSpec(docs);
    var t := TopDocs(docs);
    assert sorted == t + sorted[|t|..];
    assert multiset(sorted) == multiset(t) + multiset(sorted[|t|..]);
  }

  // ---------------------------------------------------------------------------
  // The handler

  datatype Report = Report(questions: int, uniqueUsers: int, resolvedRate: Option<real>,
                           zeroHitRate: Option<real>, tokens: real, costJpy: real,
                           topDocs: seq<(string, int)>, periodFrom: string, periodTo: string,
                           tenant: string)

  function ReportOf(t: Totals, tenant: string, start: string, end: string): Report {
    Report(t.questions, t.users, Rate(t.yes, t.no), Rate(t.zero, t.hit), t.tokens, t.cost,
           TopDocs(t.docs), start, end, tenant)
  }

  /** The report's checks, in order: the admin secret (the header defaults to
      ""), the tenant, both dates, then the range. */
  function Gate(s: Settings, secretHeader: Option<string>, tenant: string,
                start: string, end: string): (r: Result<(Date, Date), int>)
    ensures r.Ok? ==> Valid(r.value.0) && Valid(r.value.1) && AtMost(r.value.0, r.value.1)
  {
    if s.adminApiSecret != Some(secretHeader.GetOr("")) then Err(401)
    else if !HasKey(ApiKeys(s.embedApiKeys), tenant) then Err(400)
    else match (ParseDate(start), ParseDate(end))
      case (Some(d0), Some(d1)) =>
        BeforeIsOrdinalOrder(d1, d0);
        BeforeIsOrdinalOrder(d0, d1);
        if Before(d1, d0) then Err(400) else Ok((d0, d1))
      case _ => Err(400)
  }

  /** What the handler returns once the checks pass. A range that ends on
      9999-12-31 fails after the last day, when the generator steps past it. */
  function FromStore(store: Option<Store>, tenant: string, d0: Date, d1: Date,
                     start: string, end: string): (r: Result<Report, int>)
    requires Valid(d0) && Valid(d1)
    ensures r.Ok? ==> r.value.periodFrom == start && r.value.periodTo == end && r.value.tenant == tenant
  {
    match store
    case None => Ok(Report(0, 0, None, None, 0.0, 0.0, [], start, end, tenant))
    case Some(st) =>
      DaysAreConsecutive(d0, d1);
      match TotalsOf(Reads(st, tenant, Days(d0, d1)))
      case Err(e) => Err(e)
      case Ok(t) => if d1 == MaxDate then Err(500) else Ok(ReportOf(t, tenant, start, end))
  }

  /** summary(). */
  function Summary(s: Settings, store: Option<Store>, secretHeader: Option<string>,
                   tenant: string, start: string, end: string): Result<Report, int>
  {
    match Gate(s, secretHeader, tenant, start, end)
    case Err(e) => Err(e)
    case Ok((d0, d1)) => FromStore(store, tenant, d0, d1, start, end)
  }

  /** The checks and their order: 401 exactly on a secret mismatch (always
      when no secret is configured), then 400 for an unknown tenant, an
      unparsable date or an end before the start; nothing else is refused
      here. */
  lemma GateOutcomes(s: Settings, secretHeader: Option<string>, tenant: string, start: string, end: string)
    ensures var r := Gate(s, secretHeader, tenant, start, end);
            && (r == Err(401) <==> s.adminApiSecret != Some(secretHeader.GetOr("")))
            && (s.adminApiSecret.None? ==> r == Err(401))
            && (r == Err(400) <==>
                  s.adminApiSecret == Some(secretHeader.GetOr(""))
                  && (!HasKey(ApiKeys(s.embedApiKeys), tenant)
                      || ParseDate(start).None? || ParseDate(end).None?
                      || Before(ParseDate(end).value, ParseDate(start).value)))
            && (r.Err? ==> r.error == 401 || r.error == 400)
            && (r.Ok? ==> r.value == (ParseDate(start).value, ParseDate(end).value))
  {
  }

  /** Without a store a passing request gets the zero report echoing the
      period and tenant; every report echoes them. */
  lemma SummaryWithoutStore(s: Settings, secretHeader: Option<string>, tenant: string, start: string, end: string)
    requires Gate(s, secretHeader, tenant, start, end).Ok?
    ensures Summary(s, None, secretHeader, tenant, start, end)
            == Ok(Report(0, 0, None, None, 0.0, 0.0, [], start, end, tenant))
  {
  }

  /** A report from the store covers end - start + 1 days, and its figures are
      the totals over exactly those days. */
  lemma FromStoreTotals(st: Store, tenant: string, d0: Date, d1: Date, start: string, end: string)
    requires Valid(d0) && Valid(d1) && AtMost(d0, d1)
    requires FromStore(Some(st), tenant, d0, d1, start, end).Ok?
    ensures |Days(d0, d1)| == Ordinal(d1) - Ordinal(d0) + 1
    ensures d1 != MaxDate && TotalsOf(Reads(st, tenant, Days(d0, d1))).Ok?
    ensures FromStore(Some(st), tenant, d0, d1, start, end).value
            == ReportOf(TotalsOf(Reads(st, tenant, Days(d0, d1))).value, tenant, start, end)
  {
    DaysAreConsecutive(d0, d1);
  }

  // ---------------------------------------------------------------------------
  // The loops

  /** The inner loop over one day's docs_top entries. */
  method MergeInto(docs: OMap<string, int>, items: seq<(string, int)>) returns (r: OMap<string, int>)
    requires DistinctKeys(docs)
    ensures r == MergeCounts(docs, items)
  {
    r := docs;
    var i := 0;
    while i < |items|
      invariant 0 <= i <= |items|
      invariant r == MergeCounts(docs, items[..i])
    {
      MergeCountsSnoc(docs, items, i);
      r := Bump(r, items[i]);
      i := i + 1;
    }
    assert items[..|items|] == items;
  }

  lemma MergeCountsSnoc(docs: OMap<string, int>, items: seq<(string, int)>, i: nat)
    requires DistinctKeys(docs) && i < |items|
    ensures MergeCounts(docs, items[..i + 1]) == Bump(MergeCounts(docs, items[..i]), items[i])
  {
    assert items[..i + 1][..i] == items[..i];
  }

  lemma TotalsStep(daily: seq<Result<DayStats, int>>, i: nat, t: Totals, s: DayStats)
    requires i < |daily| && TotalsOf(daily[..i]) == Ok(t) && daily[i] == Ok(s)
    ensures DistinctKeys(t.docs)
    ensures TotalsOf(daily[..i + 1]) == Ok(AddDay(t, s))
  {
    assert daily[..i + 1][..i] == daily[..i];
  }

  lemma TotalsOfErrorSticks(daily: seq<Result<DayStats, int>>, i: nat)
    requires i <= |daily|
    requires TotalsOf(daily[..i]).Err?
    ensures TotalsOf(daily).Err?
  {
    TotalsSplit(daily[..i], daily[i..]);
    assert daily[..i] + daily[i..] == daily;
  }

  /** A failed read fails the whole report with 500. */
  lemma FailedRead(daily: seq<Result<DayStats, int>>, i: nat)
    requires i < |daily| && daily[i].Err?
    requires forall k :: 0 <= k < |daily| && daily[k].Err? ==> daily[k].error == 500
    ensures TotalsOf(daily) == Err(500)
  {
    var r := TotalsOf(daily);
    assert r.Err?;
    var j :| 0 <= j < |daily| && daily[j] == Err(r.error);
  }

  lemma ReadsFailWith500(st: Store, tenant: string, days: seq<Date>)
    requires AllValid(days)
    ensures forall k :: 0 <= k < |days| && Reads(st, tenant, days)[k].Err? ==> Reads(st, tenant, days)[k].error == 500
  {
  }

  /** The reads of the loop body for the i-th day. */
  method ReadDayAt(st: Store, tenant: string, days: seq<Date>, i: nat) returns (day: Result<DayStats, int>)
    requires AllValid(days) && i < |days|
    ensures day == Reads(st, tenant, days)[i]
  {
    day := ReadDay(st, tenant, days[i]);
  }

  /** The per-day loop with its accumulators. */
  /** One day's pass of the loop body: the counters add up, the token total
      is overwritten, and the day's top documents merge into the running map. */
  method AddDayTo(acc: Totals, s: DayStats) returns (r: Totals)
    requires DistinctKeys(acc.docs)
    ensures r == AddDay(acc, s)
  {
    var docs := MergeInto(acc.docs, s.top);
    r := acc.(questions := acc.questions + s.questions, users := acc.users + s.users,
              tokens := s.tokens, cost := acc.cost + s.cost, hit := acc.hit + s.hit,
              zero := acc.zero + s.zero, yes := acc.yes + s.yes, no := acc.no + s.no, docs := docs);
  }

  method Aggregate(st: Store, tenant: string, days: seq<Date>) returns (r: Result<Totals, int>)
    requires AllValid(days)
    ensures r == TotalsOf(Reads(st, tenant, days))
  {
    ghost var daily := Reads(st, tenant, days);
    var acc := NoTotals;
    var i := 0;
    while i < |days|
      invariant 0 <= i <= |days|
      invariant TotalsOf(daily[..i]) == Ok(acc)
    {
      var day := ReadDayAt(st, tenant, days, i);
      if day.Err? {
        ReadsFailWith500(st, tenant, days);
        FailedRead(daily, i);
        return Err(500);
      }
      var s := day.value;
      TotalsStep(daily, i, acc, s);
      acc := AddDayTo(acc, s);
      i := i + 1;
    }
    assert daily[..|days|] == daily;
    r := Ok(acc);
  }

  /** The handler as written: checks, then the generator-driven loop. */
  method Summarize(s: Settings, store: Option<Store>, secretHeader: Option<string>,
                   tenant: string, start: string, end: string) returns (r: Result<Report, int>)
    ensures r == Summary(s, store, secretHeader, tenant, start, end)
  {
    var gate := Gate(s, secretHeader, tenant, start, end);
    if gate.Err? {
      return Err(gate.error);
    }
    var (d0, d1) := gate.value;
    if store.None? {
      return Ok(Report(0, 0, None, None, 0.0, 0.0, [], start, end, tenant));
    }
    var days, overflow := DateRange(d0, d1);
    DaysAreConsecutive(d0, d1);
    var totals := Aggregate(store.value, tenant, days);
    if totals.Err? {
      return Err(totals.error);
    }
    if overflow {
      return Err(500);
    }
    r := Ok(ReportOf(totals.value, tenant, start, end));
  }
}
