/** The /embed/docs/ask handler (docs_ask in backend/app/api/embed_ingest.py)
    with the two in-memory tables it updates: the per-client request counter
    and the per-day cost ledger. The clock, the day string (the UTC+9 date) and
    the generated answer are parameters. */
module EmbedAsk {
  import opened Wrappers
  import opened Text
  import opened OrderedMaps
  import opened Metadata
  import opened Config
  import opened EmbedIngest

  /** Assumed price in JPY per token. */
  const DefPrice: real := 0.002
  /** Tokens reserved for the response in the pre-generation estimate. */
  const RespMaxTokens: nat := 1024
  /** Length of a rate window, in seconds. */
  const Window: real := 60.0
  const AskRoute: string := "/embed/docs/ask"

  function Max(a: int, b: int): int { if a >= b then a else b }

  /** A rate counter is kept per (client ip, embed key, route). */
  type RateKey = (string, string, string)

  /** A counter entry: requests counted so far and the start of their window. */
  type Counter = (int, real)

  /** The entry after one more request at time now: the stored one, or a fresh
      (0, now) when absent or when its window has run for 60 seconds or more,
      plus one. */
  function Counted(e: Option<Counter>, now: real): (c: Counter)
    ensures e.None? || now - e.value.1 >= Window ==> c == (1, now)
    ensures e.Some? && now - e.value.1 < Window ==> c == (e.value.0 + 1, e.value.1)
  {
    var (cnt, first) := if e.Some? then e.value else (0, now);
    var (cnt', first') := if now - first >= Window then (0, now) else (cnt, first);
    (cnt' + 1, first')
  }

  /** The request that brought the counter to c is served. */
  predicate Admits(c: Counter, limit: int) {
    c.0 <= Max(1, limit)
  }

  function EntryOf(rpm: map<RateKey, Counter>, key: RateKey): Option<Counter> {
    if key in rpm then Some(rpm[key]) else None
  }

  /** The entry after a series of requests at the given times. */
  function Replay(e: Option<Counter>, times: seq<real>): Option<Counter>
    decreases |times|
  {
    if |times| == 0 then e else Some(Counted(Replay(e, times[..|times| - 1]), times[|times| - 1]))
  }

  /** Requests that open a window (no entry, or an expired one) and all fall
      within 60 seconds of its first request count 1, 2, ..., in one window. */
  lemma {:induction false} WindowCount(e: Option<Counter>, times: seq<real>)
    requires |times| > 0
    requires e.None? || times[0] - e.value.1 >= Window
    requires forall i :: 0 <= i < |times| ==> times[i] - times[0] < Window
    ensures Replay(e, times) == Some((|times|, times[0]))
    decreases |times|
  {
    var n := |times|;
    if n > 1 {
      var init := times[..n - 1];
      assert init[0] == times[0];
      WindowCount(e, init);
    } else {
      assert times[..0] == [];
    }
  }

  /** Within one window the n-th request is served exactly when
      n <= max(1, limit): max(1, limit) requests pass, and a refused request
      still counts. */
  lemma WindowAdmission(e: Option<Counter>, times: seq<real>, limit: int, n: nat)
    requires 1 <= n <= |times|
    requires e.None? || times[0] - e.value.1 >= Window
    requires forall i :: 0 <= i < |times| ==> times[i] - times[0] < Window
    ensures Replay(e, times[..n]).Some?
    ensures Admits(Replay(e, times[..n]).value, limit) <==> n <= Max(1, limit)
  {
    var pre := times[..n];
    assert pre[0] == times[0];
    assert forall i :: 0 <= i < |pre| ==> pre[i] == times[i];
    WindowCount(e, pre);
  }

  /** The pre-generation token estimate: a quarter of the question's length
      (at least 1) plus the response allowance. */
  function PreTokens(question: string): (t: nat)
    ensures t >= 1 + RespMaxTokens
  {
    Max(1, |question| / 4) + RespMaxTokens
  }

  /** The tokens charged after generation: a quarter of question, newline and
      answer, at least 1. */
  function CommitTokens(question: string, answer: string): (t: nat)
    ensures t >= 1
  {
    Max(1, |question + "\n" + answer| / 4)
  }

  function UsedOn(cost: map<string, real>, day: string): real {
    if day in cost then cost[day] else 0.0
  }

  /** A positive budget refuses a charge that would take the day over it. */
  predicate OverBudget(used: real, charge: real, budget: real) {
    budget > 0.0 && used + charge > budget
  }

  /** An answer of fewer than 4093 characters costs no more than the estimate
      the pre-check admitted, so with the ledger unchanged in between a request
      that passed the pre-check also passes the commit. */
  lemma PreCheckCoversCommit(used: real, question: string, answer: string, budget: real)
    requires !OverBudget(used, PreTokens(question) as real * DefPrice, budget)
    requires |answer| <= 4092
    ensures CommitTokens(question, answer) <= PreTokens(question)
    ensures !OverBudget(used, CommitTokens(question, answer) as real * DefPrice, budget)
  {
    var l := |question + "\n" + answer|;
    assert l == |question| + 1 + |answer|;
    assert l / 4 <= |question| / 4 + 1024;
  }

  /** Every day's total is non-negative and, under a positive budget, within it. */
  predicate Ledgered(cost: map<string, real>, budget: real) {
    forall d :: d in cost ==> 0.0 <= cost[d] && (budget > 0.0 ==> cost[d] <= budget)
  }

  /** A displayed citation: a deduplicated reference, or the single
      "引用なし" placeholder shown when there is none. */
  datatype Shown = Ref(c: Citation) | NoCitation

  const NoCitationText: string := "引用なし"

  function ShownCitations(cs: seq<Citation>): (r: seq<Shown>)
    ensures |r| >= 1
    ensures |cs| == 0 <==> r == [NoCitation]
    ensures |cs| > 0 ==> |r| == |cs| && forall k :: 0 <= k < |cs| ==> r[k] == Ref(cs[k])
  {
    if |cs| == 0 then [NoCitation]
    else
      var r := seq(|cs|, k requires 0 <= k < |cs| => Ref(cs[k]));
      assert r[0] != NoCitation;
      r
  }

  /** A retrieved document as generate_answer returns it. */
  datatype Doc = Doc(content: string, metadata: Meta)

  /** What generate_answer returned for the request. */
  datatype Generated = Generated(answer: string, documents: seq<Doc>, contextUsed: string, llmModel: string)

  /** The request as docs_ask sees it; question is the validated question. */
  datatype AskRequest = AskRequest(question: string, embedKey: Option<string>, origin: Option<string>,
                                   clientIp: Option<string>, accept: Option<string>)

  /** The outcome: an HTTP error status, the JSON answer, or the event stream
      (the lines of the answer, then the citations event with its payload). */
  datatype AskResponse =
    | Refused(status: int)
    | Answer(answer: string, question: string, documents: seq<Doc>, contextUsed: string,
             llmModel: string, citations: seq<Shown>, tokens: nat, costJpy: real)
    | Stream(lines: seq<string>, citations: seq<Shown>, tokens: nat, costJpy: real)

  function Metas(docs: seq<Doc>): (ms: seq<Meta>)
    ensures |ms| == |docs| && forall k :: 0 <= k < |docs| ==> ms[k] == docs[k].metadata
  {
    seq(|docs|, k requires 0 <= k < |docs| => docs[k].metadata)
  }

  function RateKeyOf(req: AskRequest): RateKey {
    (if req.clientIp.Some? then req.clientIp.value else "0.0.0.0",
     if req.embedKey.Some? then req.embedKey.value else "",
     AskRoute)
  }

  predicate WantsStream(req: AskRequest) {
    Contains(Lower(if req.accept.Some? then req.accept.value else ""), "text/event-stream")
  }

  /** The response shaped from a charged answer. */
  function Shape(req: AskRequest, gen: Generated, cs: seq<Citation>, tokens: nat): AskResponse {
    var c := tokens as real * DefPrice;
    if WantsStream(req) then Stream(SplitLines(gen.answer), ShownCitations(cs), tokens, c)
    else Answer(gen.answer, req.question, gen.documents, gen.contextUsed, gen.llmModel, ShownCitations(cs), tokens, c)
  }

  /** The stage at which docs_ask stops before touching any table: 401 for an
      unknown key, 500 when the origin list is misconfigured, 403 for a
      foreign origin. */
  function EarlyRefusal(req: AskRequest, s: Settings, originsEnv: Option<string>): Option<int> {
    var tenant := TenantFromKey(ApiKeys(s.embedApiKeys), req.embedKey);
    if tenant.None? || tenant.value == "" then Some(401)
    else match OriginAllowed(AllowedOrigins(originsEnv, s.embedAllowedOrigins, s.debug), req.origin)
      case Err(_) => Some(500)
      case Ok(false) => Some(403)
      case Ok(true) => None
  }

  /** The part of docs_ask after the rate gate: the estimate gate, citation
      building, the commit and the shaping of the response, as a function of
      the ledger before it; the result is the response and the new ledger. */
  function Serve(cost: map<string, real>, req: AskRequest, budget: real, day: string, gen: Generated)
    : (AskResponse, map<string, real>)
  {
    ServeWith(cost, req, budget, day, gen, Citations(Metas(gen.documents)))
  }

  /** Serve, given what citation building gives for the retrieved documents. */
  function ServeWith(cost: map<string, real>, req: AskRequest, budget: real, day: string, gen: Generated,
                     cits: Result<seq<Citation>, string>)
    : (AskResponse, map<string, real>)
  {
    if OverBudget(UsedOn(cost, day), PreTokens(req.question) as real * DefPrice, budget) then
      (Refused(402), cost)
    else match cits
      case Err(_) => (Refused(500), cost)
      case Ok(cs) =>
        var tokens := CommitTokens(req.question, gen.answer);
        var charge := tokens as real * DefPrice;
        if OverBudget(UsedOn(cost, day), charge, budget) then (Refused(402), cost)
        else (Shape(req, gen, cs, tokens), cost[day := UsedOn(cost, day) + charge])
  }

  /** docs_ask as a function of the two tables before the request: the
      response and the two tables after it. */
  function AskSpec(rpm: map<RateKey, Counter>, cost: map<string, real>, req: AskRequest, s: Settings,
                   originsEnv: Option<string>, now: real, day: string, gen: Generated)
    : (AskResponse, map<RateKey, Counter>, map<string, real>)
  {
    match EarlyRefusal(req, s, originsEnv)
    case Some(status) => (Refused(status), rpm, cost)
    case None =>
      var key := RateKeyOf(req);
      var c := Counted(EntryOf(rpm, key), now);
      if !Admits(c, s.rateLimitRpm) then (Refused(429), rpm[key := c], cost)
      else
        var served := Serve(cost, req, s.dailyBudgetJpy, day, gen);
        (served.0, rpm[key := c], served.1)
  }

  /** After the rate gate: a refusal leaves the ledger as it was; an answer is
      charged to its day alone, by exactly its tokens at the assumed price,
      whichever tenant asked, and carries the deduplicated citations or the
      placeholder. */
  lemma ServeCharges(cost: map<string, real>, req: AskRequest, budget: real, day: string, gen: Generated)
    ensures var served := Serve(cost, req, budget, day, gen);
      var r := served.0;
      && (r.Refused? ==> served.1 == cost)
      && (!r.Refused? ==>
            && r.tokens == CommitTokens(req.question, gen.answer)
            && r.costJpy == r.tokens as real * DefPrice
            && served.1 == cost[day := UsedOn(cost, day) + r.costJpy]
            && Citations(Metas(gen.documents)).Ok?
            && r.citations == ShownCitations(Citations(Metas(gen.documents)).value)
            && (r.Stream? <==> WantsStream(req)))
  {
    match Citations(Metas(gen.documents))
    case Err(_) =>
    case Ok(cs) =>
  }

  /** The outcome of the part after the rate gate in every case: 402 when the
      estimate would take the day over a positive budget, else 500 when the
      citations cannot be built, else 402 when the actual charge would, and
      otherwise the shaped answer with the charge added to the day. Every
      refusal leaves the ledger as it was. */
  lemma ServeOutcome(cost: map<string, real>, req: AskRequest, budget: real, day: string, gen: Generated)
    ensures var served := Serve(cost, req, budget, day, gen);
      var used := UsedOn(cost, day);
      var pre := OverBudget(used, PreTokens(req.question) as real * DefPrice, budget);
      var cs := Citations(Metas(gen.documents));
      var tokens := CommitTokens(req.question, gen.answer);
      var post := OverBudget(used, tokens as real * DefPrice, budget);
      && (served.0 == Refused(402) <==> pre || (cs.Ok? && post))
      && (served.0 == Refused(500) <==> !pre && cs.Err?)
      && (served.0.Refused? ==> served.0.status in {402, 500} && served.1 == cost)
      && (!pre && cs.Ok? && !post ==>
            served == (Shape(req, gen, cs.value, tokens), cost[day := used + tokens as real * DefPrice]))
  {
    ServeWithOutcome(cost, req, budget, day, gen, Citations(Metas(gen.documents)));
  }

  /** ServeOutcome for any result of citation building. */
  lemma ServeWithOutcome(cost: map<string, real>, req: AskRequest, budget: real, day: string, gen: Generated,
                         cs: Result<seq<Citation>, string>)
    ensures var served := ServeWith(cost, req, budget, day, gen, cs);
      var used := UsedOn(cost, day);
      var pre := OverBudget(used, PreTokens(req.question) as real * DefPrice, budget);
      var tokens := CommitTokens(req.question, gen.answer);
      var post := OverBudget(used, tokens as real * DefPrice, budget);
      && (served.0 == Refused(402) <==> pre || (cs.Ok? && post))
      && (served.0 == Refused(500) <==> !pre && cs.Err?)
      && (served.0.Refused? ==> served.0.status in {402, 500} && served.1 == cost)
      && (!pre && cs.Ok? && !post ==>
            served == (Shape(req, gen, cs.value, tokens), cost[day := used + tokens as real * DefPrice]))
  {
    var served := ServeWith(cost, req, budget, day, gen, cs);
    var used := UsedOn(cost, day);
    var tokens := CommitTokens(req.question, gen.answer);
    if !OverBudget(used, PreTokens(req.question) as real * DefPrice, budget) && cs.Ok?
       && !OverBudget(used, tokens as real * DefPrice, budget) {
      var shaped := Shape(req, gen, cs.value, tokens);
      assert !shaped.Refused?;
      assert served == (shaped, cost[day := used + tokens as real * DefPrice]);
    }
  }

  /** The ledger stays within a positive budget. */
  lemma ServeKeepsLedger(cost: map<string, real>, req: AskRequest, budget: real, day: string, gen: Generated)
    requires Ledgered(cost, budget)
    ensures Ledgered(Serve(cost, req, budget, day, gen).1, budget)
  {
    ServeCharges(cost, req, budget, day, gen);
    var served := Serve(cost, req, budget, day, gen);
    if !served.0.Refused? {
      var charge := served.0.costJpy;
      assert charge >= 0.0;
      assert !OverBudget(UsedOn(cost, day), charge, budget);
    }
  }

  /** A refused request is never charged, and a request stopped before the
      rate gate is not counted either; any other request is counted once. */
  lemma RefusalIsFree(rpm: map<RateKey, Counter>, cost: map<string, real>, req: AskRequest, s: Settings,
                      originsEnv: Option<string>, now: real, day: string, gen: Generated)
    ensures var out := AskSpec(rpm, cost, req, s, originsEnv, now, day, gen);
      && (out.0.Refused? ==> out.2 == cost)
      && (EarlyRefusal(req, s, originsEnv).Some? ==> out.0 == Refused(EarlyRefusal(req, s, originsEnv).value) && out.1 == rpm)
      && (EarlyRefusal(req, s, originsEnv).None? ==> out.1 == rpm[RateKeyOf(req) := Counted(EntryOf(rpm, RateKeyOf(req)), now)])
  {
    var out := AskSpec(rpm, cost, req, s, originsEnv, now, day, gen);
    match EarlyRefusal(req, s, originsEnv)
    case Some(status) =>
      assert out == (Refused(status), rpm, cost);
    case None =>
      var key := RateKeyOf(req);
      var c := Counted(EntryOf(rpm, key), now);
      if !Admits(c, s.rateLimitRpm) {
        assert out == (Refused(429), rpm[key := c], cost);
      } else {
        var served := Serve(cost, req, s.dailyBudgetJpy, day, gen);
        ServeCharges(cost, req, s.dailyBudgetJpy, day, gen);
        assert out == (served.0, rpm[key := c], served.1);
      }
  }

  /** The status of docs_ask in every case: the early refusal when there is
      one, else 429 exactly when the rate gate refuses, else the outcome of
      the part after it; a 429 comes from the rate gate alone. */
  lemma AskOutcome(rpm: map<RateKey, Counter>, cost: map<string, real>, req: AskRequest, s: Settings,
                   originsEnv: Option<string>, now: real, day: string, gen: Generated)
    ensures var out := AskSpec(rpm, cost, req, s, originsEnv, now, day, gen);
      var early := EarlyRefusal(req, s, originsEnv);
      var admitted := Admits(Counted(EntryOf(rpm, RateKeyOf(req)), now), s.rateLimitRpm);
      && (early.Some? ==> early.value in {401, 403, 500} && out.0 == Refused(early.value))
      && (out.0 == Refused(429) <==> early.None? && !admitted)
      && (early.None? && admitted ==> (out.0, out.2) == Serve(cost, req, s.dailyBudgetJpy, day, gen))
  {
    if EarlyRefusal(req, s, originsEnv).None? {
      ServeOutcome(cost, req, s.dailyBudgetJpy, day, gen);
    }
  }

  /** No request takes a day's total over a positive budget. */
  lemma AskKeepsLedger(rpm: map<RateKey, Counter>, cost: map<string, real>, req: AskRequest, s: Settings,
                       originsEnv: Option<string>, now: real, day: string, gen: Generated)
    requires Ledgered(cost, s.dailyBudgetJpy)
    ensures Ledgered(AskSpec(rpm, cost, req, s, originsEnv, now, day, gen).2, s.dailyBudgetJpy)
  {
    ServeKeepsLedger(cost, req, s.dailyBudgetJpy, day, gen);
  }

  /** The in-memory tables _rpm and _cost. */
  class AskLimits {
    var rpm: map<RateKey, Counter>
    var cost: map<string, real>

    constructor()
      ensures rpm == map[] && cost == map[]
    {
      rpm := map[];
      cost := map[];
    }

    /** The rate gate: count the request, store the counter, then refuse when
        the count exceeds max(1, limit). */
    method RateGate(key: RateKey, now: real, limit: int) returns (admitted: bool)
      modifies this
      ensures rpm == old(rpm)[key := Counted(EntryOf(old(rpm), key), now)]
      ensures cost == old(cost)
      ensures admitted <==> Admits(Counted(EntryOf(old(rpm), key), now), limit)
    {
      var cnt, first := 0, now;
      if key in rpm {
        cnt, first := rpm[key].0, rpm[key].1;
      }
      if now - first >= Window {
        cnt, first := 0, now;
      }
      cnt := cnt + 1;
      rpm := rpm[key := (cnt, first)];
      admitted := cnt <= Max(1, limit);
    }

    /** The pre-generation estimate gate; it only reads the ledger. */
    function PreCheck(day: string, question: string, budget: real): (ok: bool)
      reads this
      ensures budget <= 0.0 ==> ok
      ensures ok <==> budget <= 0.0 || UsedOn(cost, day) + PreTokens(question) as real * DefPrice <= budget
    {
      !OverBudget(UsedOn(cost, day), PreTokens(question) as real * DefPrice, budget)
    }

    /** The post-generation commit: refuse (402) with the ledger unchanged when
        the charge would exceed a positive budget, else add it to the day. */
    method Commit(day: string, question: string, answer: string, budget: real) returns (r: Result<nat, int>)
      modifies this
      ensures rpm == old(rpm)
      ensures var tokens := CommitTokens(question, answer);
        var charge := tokens as real * DefPrice;
        if OverBudget(UsedOn(old(cost), day), charge, budget) then r == Err(402) && cost == old(cost)
        else r == Ok(tokens) && cost == old(cost)[day := UsedOn(old(cost), day) + charge]
      ensures old(Ledgered(cost, budget)) ==> Ledgered(cost, budget)
    {
      var tokens := Max(1, |question + "\n" + answer| / 4);
      var used := if day in cost then cost[day] else 0.0;
      var charge := tokens as real * DefPrice;
      if budget > 0.0 && used + charge > budget {
        return Err(402);
      }
      cost := cost[day := used + charge];
      r := Ok(tokens);
    }

    /** Everything after the rate gate: the estimate gate, citation building,
        the commit and the shaping of the response. */
    method ServeRequest(req: AskRequest, budget: real, day: string, gen: Generated) returns (r: AskResponse)
      modifies this
      ensures (r, cost) == Serve(old(cost), req, budget, day, gen)
      ensures rpm == old(rpm)
    {
      if !PreCheck(day, req.question, budget) {
        return Refused(402);
      }
      var cs := BuildCitations(Metas(gen.documents));
      ghost var before := cost;
      ghost var spec := ServeWith(before, req, budget, day, gen, cs);
      assert Serve(before, req, budget, day, gen) == spec;
      if cs.Err? {
        return Refused(500);
      }
      ghost var tokens := CommitTokens(req.question, gen.answer);
      var charged := Commit(day, req.question, gen.answer, budget);
      if charged.Err? {
        assert OverBudget(UsedOn(before, day), tokens as real * DefPrice, budget);
        assert spec == (Refused(402), before);
        return Refused(charged.error);
      }
      assert charged.value == tokens;
      r := Shape(req, gen, cs.value, charged.value);
      assert spec == (r, before[day := UsedOn(before, day) + tokens as real * DefPrice]);
    }

    /** docs_ask: the early refusals, the rate gate, then the rest; generation
        happens in between, its result is the parameter gen. */
    method Ask(req: AskRequest, s: Settings, originsEnv: Option<string>, now: real, day: string, gen: Generated)
      returns (r: AskResponse)
      modifies this
      ensures (r, rpm, cost) == AskSpec(old(rpm), old(cost), req, s, originsEnv, now, day, gen)
    {
      var early := EarlyRefusal(req, s, originsEnv);
      if early.Some? {
        return Refused(early.value);
      }
      var admitted := RateGate(RateKeyOf(req), now, s.rateLimitRpm);
      if !admitted {
        return Refused(429);
      }
      r := ServeRequest(req, s.dailyBudgetJpy, day, gen);
    }
  }
}
