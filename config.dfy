/** Application settings and the parsers derived from them
    (backend/app/core/config.py). Environment variables arrive already read:
    an unset optional setting is None. */
module Config {
  import opened Wrappers
  import opened Text
  import opened Numbers
  import opened OrderedMaps

  /** The settings fields that the modelled code reads. */
  datatype Settings = Settings(
    debug: bool,
    openaiApiKey: Option<string>,
    defaultTopK: int,
    maxChunkSize: int,
    chunkOverlap: int,
    embedAllowedOrigins: Option<string>,
    embedApiKeys: Option<string>,
    rateLimitRpm: int,
    dailyBudgetJpy: real,
    adminApiSecret: Option<string>,
    redisPassword: Option<string>,
    redisUrl: Option<string>,
    modelPricing: Option<string>,
    allowedHosts: string,
    allowedExtensions: string)

  /** The declared defaults, before any environment variable applies. */
  function Defaults(): Settings {
    Settings(
      debug := false,
      openaiApiKey := None,
      defaultTopK := 10,
      maxChunkSize := 500,
      chunkOverlap := 70,
      embedAllowedOrigins := None,
      embedApiKeys := None,
      rateLimitRpm := 60,
      dailyBudgetJpy := 100.0,
      adminApiSecret := None,
      redisPassword := None,
      redisUrl := None,
      modelPricing := None,
      allowedHosts := "localhost,127.0.0.1",
      allowedExtensions := "pdf")
  }

  /** Python truthiness of an optional string: set and non-empty. */
  predicate IsSet(x: Option<string>) {
    x.Some? && x.value != ""
  }

  /** (x or ""). */
  function OrEmpty(x: Option<string>): string {
    if x.Some? then x.value else ""
  }

  // ---------------------------------------------------------------------------
  // Comma-separated lists

  predicate CleanItem(x: string) {
    x != "" && PyStrip(x) == x
  }

  /** [p.strip() for p in parts if p.strip()]. */
  function StrippedItems(parts: seq<string>): (r: seq<string>)
    ensures |r| <= |parts|
    ensures forall k :: 0 <= k < |r| ==> CleanItem(r[k])
    decreases |parts|
  {
    if |parts| == 0 then []
    else
      var t := PyStrip(parts[0]);
      StripIdempotent(parts[0], IsPySpace);
      (if t != "" then [t] else []) + StrippedItems(parts[1..])
  }

  /** The trimmed, non-empty items of a comma-separated setting. */
  function CommaItems(raw: string): (r: seq<string>)
    ensures forall k :: 0 <= k < |r| ==> CleanItem(r[k])
  {
    StrippedItems(Split(raw, ","))
  }

  lemma {:induction false} StrippedItemsClean(xs: seq<string>)
    requires forall k :: 0 <= k < |xs| ==> CleanItem(xs[k])
    ensures StrippedItems(xs) == xs
    decreases |xs|
  {
    if |xs| > 0 {
      StrippedItemsClean(xs[1..]);
      assert xs == [xs[0]] + xs[1..];
    }
  }

  /** Listing clean items without commas and reading the list back gives them
      back, in order. */
  lemma CommaItemsOfJoin(xs: seq<string>)
    requires forall k :: 0 <= k < |xs| ==> CleanItem(xs[k]) && ',' !in xs[k]
    ensures CommaItems(Join(xs, ",")) == xs
  {
    if |xs| == 0 {
      assert Split("", ",") == [""];
    } else {
      SplitJoin(xs, ",");
      StrippedItemsClean(xs);
    }
  }

  /** allowed_hosts_list. */
  function AllowedHostsList(s: Settings): (r: seq<string>)
    ensures forall k :: 0 <= k < |r| ==> CleanItem(r[k])
  {
    CommaItems(s.allowedHosts)
  }

  /** allowed_extensions_list. */
  function AllowedExtensionsList(s: Settings): (r: seq<string>)
    ensures forall k :: 0 <= k < |r| ==> CleanItem(r[k])
  {
    CommaItems(s.allowedExtensions)
  }

  // ---------------------------------------------------------------------------
  // Dictionaries built from "name:value" items

  /** Inserts the entry read from each item, in order, into an empty dict; an
      item that yields no entry is skipped and a later entry for the same name
      overwrites the earlier value in place. */
  function DictFrom<V>(items: seq<string>, entry: string -> Option<(string, V)>): (r: OMap<string, V>)
    ensures DistinctKeys(r)
    decreases |items|
  {
    if |items| == 0 then []
    else Added(DictFrom(items[..|items| - 1], entry), entry(items[|items| - 1]))
  }

  /** d[name] = value for an entry, nothing for no entry. */
  function Added<V>(m: OMap<string, V>, e: Option<(string, V)>): (r: OMap<string, V>)
    requires DistinctKeys(m)
    ensures DistinctKeys(r)
  {
    match e
    case None => m
    case Some(e) => Put(m, e.0, e.1)
  }

  /** One more item: its entry, if any, is put into the dict so far. */
  lemma DictFromSnoc<V>(items: seq<string>, entry: string -> Option<(string, V)>, i: nat)
    requires i < |items|
    ensures DictFrom(items[..i + 1], entry) == Added(DictFrom(items[..i], entry), entry(items[i]))
  {
    assert items[..i + 1][..i] == items[..i];
  }

  /** Item i yields an entry named name. */
  predicate Names<V>(items: seq<string>, entry: string -> Option<(string, V)>, i: int, name: string) {
    0 <= i < |items| && entry(items[i]).Some? && entry(items[i]).value.0 == name
  }

  predicate Named<V>(items: seq<string>, entry: string -> Option<(string, V)>, name: string) {
    exists i :: 0 <= i < |items| && Names(items, entry, i, name)
  }

  /** A name is in the dict exactly when some item yields an entry for it. */
  lemma {:induction false} DictFromHasName<V>(items: seq<string>, entry: string -> Option<(string, V)>, name: string)
    ensures HasKey(DictFrom(items, entry), name) <==> Named(items, entry, name)
    decreases |items|
  {
    if |items| > 0 {
      var init := items[..|items| - 1];
      var last := |items| - 1;
      DictFromHasName(init, entry, name);
      NamedInit(items, entry, name);
      var m := DictFrom(init, entry);
      match entry(items[last]) {
        case None =>
          assert DictFrom(items, entry) == m;
        case Some(e) =>
          assert DictFrom(items, entry) == Put(m, e.0, e.1);
          if e.0 != name {
            assert Get(Put(m, e.0, e.1), name) == Get(m, name);
          }
      }
    }
  }

  lemma NamedInit<V>(items: seq<string>, entry: string -> Option<(string, V)>, name: string)
    requires |items| > 0
    ensures Named(items, entry, name) <==> Named(items[..|items| - 1], entry, name) || Names(items, entry, |items| - 1, name)
  {
    var init := items[..|items| - 1];
    if Named(items, entry, name) {
      var i :| 0 <= i < |items| && Names(items, entry, i, name);
      if i < |init| {
        assert init[i] == items[i];
        assert Names(init, entry, i, name);
      }
    }
    if Named(init, entry, name) {
      var i :| 0 <= i < |init| && Names(init, entry, i, name);
      assert init[i] == items[i];
      assert Names(items, entry, i, name);
    }
  }

  lemma NamesOfInit<V>(items: seq<string>, entry: string -> Option<(string, V)>, name: string)
    requires |items| > 0
    ensures forall j :: 0 <= j < |items| - 1 ==> (Names(items[..|items| - 1], entry, j, name) <==> Names(items, entry, j, name))
  {
    var init := items[..|items| - 1];
    forall j | 0 <= j < |items| - 1
      ensures Names(init, entry, j, name) <==> Names(items, entry, j, name)
    {
      assert init[j] == items[j];
    }
  }

  /** The value stored under a name comes from the last item naming it. */
  lemma {:induction false} DictFromLastWins<V>(items: seq<string>, entry: string -> Option<(string, V)>, name: string, i: int)
    requires Names(items, entry, i, name)
    requires forall j :: i < j < |items| ==> !Names(items, entry, j, name)
    ensures Get(DictFrom(items, entry), name) == Some(entry(items[i]).value.1)
    decreases |items|
  {
    var init := items[..|items| - 1];
    var last := |items| - 1;
    if i < last {
      forall j | i < j < |init| ensures !Names(init, entry, j, name) {
        assert init[j] == items[j];
        assert !Names(items, entry, j, name);
      }
      assert init[i] == items[i];
      DictFromLastWins(init, entry, name, i);
      assert !Names(items, entry, last, name);
    } else {
      assert items[last] == items[i];
    }
  }

  // ---------------------------------------------------------------------------
  // embed_api_keys_map

  /** One "tenant:key" item: split at the first ':', both sides trimmed, kept
      only when both are non-empty. */
  function KeyEntry(item: string): (r: Option<(string, string)>)
    ensures r.Some? ==> CleanItem(r.value.0) && CleanItem(r.value.1) && ':' !in r.value.0
    ensures ':' !in item ==> r.None?
    ensures r.Some? <==> ':' in item && PyStrip(SplitOnce(item, ':').value.0) != ""
                         && PyStrip(SplitOnce(item, ':').value.1) != ""
    ensures r.Some? ==> r.value == (PyStrip(SplitOnce(item, ':').value.0), PyStrip(SplitOnce(item, ':').value.1))
  {
    match SplitOnce(item, ':')
    case None => None
    case Some(parts) =>
      var client := PyStrip(parts.0);
      var key := PyStrip(parts.1);
      StripIdempotent(parts.0, IsPySpace);
      StripIdempotent(parts.1, IsPySpace);
      StripInside(parts.0, ':');
      if client != "" && key != "" then Some((client, key)) else None
  }

  /** "tenant:key" with no ':' in the tenant part gives the stripped pair when
      both sides are non-empty after stripping, and nothing otherwise. */
  lemma KeyEntryOf(a: string, b: string)
    requires ':' !in a
    ensures KeyEntry(a + ":" + b)
            == if PyStrip(a) != "" && PyStrip(b) != "" then Some((PyStrip(a), PyStrip(b))) else None
  {
    SplitOnceAt(a, b, ':');
    assert a + ":" + b == a + [':'] + b;
  }

  /** Stripping never introduces a character. */
  lemma StripInside(s: string, c: char)
    requires c !in s
    ensures c !in PyStrip(s)
  {
    var a := TrimStart(s, IsPySpace);
    assert a == s[|s| - |a|..];
    var t := TrimEnd(a, IsPySpace);
    assert t == a[..|t|];
  }

  /** The key map a raw EMBED_API_KEYS value denotes. */
  function ApiKeys(raw: Option<string>): (r: OMap<string, string>)
    ensures DistinctKeys(r)
  {
    var t := PyStrip(OrEmpty(raw));
    if t == "" then [] else DictFrom(Split(t, ","), KeyEntry)
  }

  /** embed_api_keys_map: fills the dict item by item. */
  method EmbedApiKeysMap(raw: Option<string>) returns (mapping: OMap<string, string>)
    ensures mapping == ApiKeys(raw)
  {
    mapping := [];
    var t := PyStrip(OrEmpty(raw));
    if t == "" {
      return;
    }
    var items := Split(t, ",");
    var i := 0;
    while i < |items|
      invariant 0 <= i <= |items|
      invariant mapping == DictFrom(items[..i], KeyEntry)
    {
      DictFromSnoc(items, KeyEntry, i);
      match KeyEntry(items[i]) {
        case None =>
        case Some(e) =>
          mapping := Put(mapping, e.0, e.1);
      }
      i := i + 1;
    }
    assert items[..|items|] == items;
  }

  /** Every configured tenant and key is non-empty and trimmed, and a tenant
      name never holds ':' (a key may). */
  lemma ApiKeysClean(raw: Option<string>, tenant: string)
    requires HasKey(ApiKeys(raw), tenant)
    ensures CleanItem(tenant) && ':' !in tenant
    ensures CleanItem(Get(ApiKeys(raw), tenant).value)
  {
    var t := PyStrip(OrEmpty(raw));
    var items := Split(t, ",");
    DictFromHasName(items, KeyEntry, tenant);
    var i :| Names(items, KeyEntry, i, tenant);
    var j := LastNaming(items, KeyEntry, tenant, i);
    DictFromLastWins(items, KeyEntry, tenant, j);
  }

  /** A configured "tenant:key" item with both sides non-empty puts the
      stripped key under the stripped tenant, unless a later item names the
      same tenant. */
  lemma ApiKeysConfigured(raw: Option<string>, i: nat, a: string, b: string)
    requires PyStrip(OrEmpty(raw)) != ""
    requires i < |Split(PyStrip(OrEmpty(raw)), ",")|
    requires Split(PyStrip(OrEmpty(raw)), ",")[i] == a + ":" + b && ':' !in a
    requires PyStrip(a) != "" && PyStrip(b) != ""
    requires forall j :: i < j < |Split(PyStrip(OrEmpty(raw)), ",")| ==>
               !Names(Split(PyStrip(OrEmpty(raw)), ","), KeyEntry, j, PyStrip(a))
    ensures Get(ApiKeys(raw), PyStrip(a)) == Some(PyStrip(b))
  {
    var items := Split(PyStrip(OrEmpty(raw)), ",");
    KeyEntryOf(a, b);
    assert Names(items, KeyEntry, i, PyStrip(a));
    DictFromLastWins(items, KeyEntry, PyStrip(a), i);
  }

  /** The last item naming a name, at or after a given one. */
  lemma LastNaming<V>(items: seq<string>, entry: string -> Option<(string, V)>, name: string, i: int) returns (j: int)
    requires Names(items, entry, i, name)
    ensures i <= j && Names(items, entry, j, name)
    ensures forall k :: j < k < |items| ==> !Names(items, entry, k, name)
    decreases |items| - i
  {
    if exists k :: i < k < |items| && Names(items, entry, k, name) {
      var k :| i < k < |items| && Names(items, entry, k, name);
      j := LastNaming(items, entry, name, k);
    } else {
      j := i;
    }
  }

  // ---------------------------------------------------------------------------
  // embed_allowed_origins_list

  /** embed_allowed_origins_list: a non-empty EMBED_ALLOWED_ORIGINS environment
      value wins over the setting; the items are trimmed and empties dropped.
      Debug mode falls back to ["*"]; otherwise an empty list or a "*" item is a
      configuration error (ValueError). */
  function AllowedOrigins(env: Option<string>, field: Option<string>, debug: bool): (r: Result<seq<string>, string>)
    ensures debug ==> r.Ok?
    ensures r.Ok? ==> |r.value| > 0 && forall k :: 0 <= k < |r.value| ==> CleanItem(r.value[k])
    ensures !debug && r.Ok? ==> "*" !in r.value
    ensures !debug ==> (r.Ok? <==> CommaItems(if IsSet(env) then env.value else OrEmpty(field)) != [] && "*" !in CommaItems(if IsSet(env) then env.value else OrEmpty(field)))
  {
    var raw := if IsSet(env) then env.value else OrEmpty(field);
    var items := CommaItems(raw);
    StarClean();
    if debug then Ok(if items != [] then items else ["*"])
    else if items == [] then Err("EMBED_ALLOWED_ORIGINS must be set in production")
    else if "*" in items then Err("Wildcard '*' is not allowed in production")
    else Ok(items)
  }

  lemma StarClean()
    ensures CleanItem("*") && ["*"][0] == "*"
  {
    assert !IsPySpace('*');
    assert TrimStart("*", IsPySpace) == "*";
    assert TrimEnd("*", IsPySpace) == "*";
  }

  /** In production, a comma-listed set of clean origins is read back exactly. */
  lemma ProductionOrigins(xs: seq<string>, field: Option<string>)
    requires |xs| > 0 && "*" !in xs
    requires forall k :: 0 <= k < |xs| ==> CleanItem(xs[k]) && ',' !in xs[k]
    ensures AllowedOrigins(Some(Join(xs, ",")), field, false) == Ok(xs)
  {
    var raw := Join(xs, ",");
    CommaItemsOfJoin(xs);
    JoinNonEmpty(xs);
    ProductionItems(raw, xs, field);
  }

  lemma JoinNonEmpty(xs: seq<string>)
    requires |xs| > 0 && xs[0] != ""
    ensures Join(xs, ",") != ""
  {
    if |xs| > 1 {
      assert Join(xs, ",") == xs[0] + "," + Join(xs[1..], ",");
    }
  }

  lemma ProductionItems(raw: string, xs: seq<string>, field: Option<string>)
    requires raw != "" && CommaItems(raw) == xs && |xs| > 0 && "*" !in xs
    ensures AllowedOrigins(Some(raw), field, false) == Ok(xs)
  {
  }

  // ---------------------------------------------------------------------------
  // model_pricing_inout_map

  /** The value of the last item, trimmed, that starts with tag and whose rest
      parses as a float (the loop keeps the previous value when float() fails). */
  function LastTagged(parts: seq<string>, tag: string): Option<real>
    decreases |parts|
  {
    if |parts| == 0 then None
    else
      var v := TagValue(parts[|parts| - 1], tag);
      if v.Some? then v else LastTagged(parts[..|parts| - 1], tag)
  }

  /** float(part.split("=", 1)[1].strip()) for a trimmed part starting with tag. */
  function TagValue(part: string, tag: string): Option<real> {
    var p := PyStrip(part);
    if StartsWith(p, tag) then PyFloat(PyStrip(p[|tag|..])) else None
  }

  predicate Tagged(t: string) {
    Contains(t, "in=") || Contains(t, "out=")
  }

  /** The text after the first '=', trimmed, or the whole text when it has none. */
  function AfterEquals(t: string): string {
    match SplitOnce(t, '=')
    case None => t
    case Some(parts) => PyStrip(parts.1)
  }

  /** _parse_inout: "in=X:out=Y" prices per million tokens, one side copied from
      the other when missing, converted to per-token prices; otherwise a single
      per-token price (optionally after '=') for both sides. */
  function Inout(s: string): Option<(real, real)> {
    var t := PyStrip(s);
    if t == "" then None
    else if Tagged(t) then Sides(LastTagged(Split(t, ":"), "in="), LastTagged(Split(t, ":"), "out="))
    else PlainPrice(t)
  }

  /** Per-million prices to per-token prices, a missing side copied. */
  function Sides(a: Option<real>, b: Option<real>): Option<(real, real)> {
    if a.None? && b.None? then None
    else
      var inV := if a.Some? then a.value else b.value;
      var outV := if b.Some? then b.value else a.value;
      Some((inV / 1000000.0, outV / 1000000.0))
  }

  /** A single price, taken after the first '=' when there is one. */
  function PlainPrice(t: string): Option<(real, real)> {
    match PyFloat(AfterEquals(t))
    case None => None
    case Some(v) => Some((v, v))
  }

  /** A tagged spec prices each side from its own tag, per million tokens, and
      copies a missing side from the other; an untagged spec gives one per-token
      price for both sides. */
  lemma InoutSides(s: string)
    ensures var t := PyStrip(s);
      var r := Inout(s);
      var a := LastTagged(Split(t, ":"), "in=");
      var b := LastTagged(Split(t, ":"), "out=");
      && (t != "" && Tagged(t) ==> (r.None? <==> a.None? && b.None?))
      && (Tagged(t) && r.Some? ==>
            && r.value.0 == (if a.Some? then a.value else b.value) / 1000000.0
            && r.value.1 == (if b.Some? then b.value else a.value) / 1000000.0)
      && (!Tagged(t) && r.Some? ==> r.value.0 == r.value.1 && PyFloat(AfterEquals(t)) == Some(r.value.0))
      && (t != "" && !Tagged(t) ==> (r.Some? <==> PyFloat(AfterEquals(t)).Some?))
  {
    var t := PyStrip(s);
    if t != "" && Tagged(t) {
      assert Inout(s) == Sides(LastTagged(Split(t, ":"), "in="), LastTagged(Split(t, ":"), "out="));
    } else if t != "" {
      assert Inout(s) == PlainPrice(t);
    }
  }

  /** _parse_inout strips its argument first, so a stripped spec prices the same. */
  lemma InoutStripped(s: string)
    ensures Inout(PyStrip(s)) == Inout(s)
  {
    StripIdempotent(s, IsPySpace);
  }

  /** _parse_inout as written: walks the ':'-separated parts, updating the in
      and out prices as it goes. */
  method ParseInout(s: string) returns (r: Option<(real, real)>)
    ensures r == Inout(s)
  {
    var t := PyStrip(s);
    if t == "" {
      return None;
    }
    if Tagged(t) {
      var inVal, outVal := ScanTags(Split(t, ":"));
      r := CopyMissingSide(inVal, outVal);
      return;
    }
    assert Inout(s) == PlainPrice(t);
    var plain := t;
    if '=' in t {
      plain := PyStrip(SplitOnce(t, '=').value.1);
    }
    assert plain == AfterEquals(t);
    var v := PyFloat(plain);
    if v.Some? {
      r := Some((v.value, v.value));
    } else {
      r := None;
    }
  }

  /** The tail of _parse_inout's tagged branch: no price at all is no entry,
      a missing side takes the other's value, and both are scaled per token. */
  method CopyMissingSide(inVal: Option<real>, outVal: Option<real>) returns (r: Option<(real, real)>)
    ensures r == Sides(inVal, outVal)
  {
    if inVal.None? && outVal.None? {
      return None;
    }
    var a, b := inVal, outVal;
    if a.None? {
      a := b;
    }
    if b.None? {
      b := a;
    }
    return Some((a.value / 1000000.0, b.value / 1000000.0));
  }

  lemma TagsExclusive(part: string)
    requires StartsWith(PyStrip(part), "in=")
    ensures TagValue(part, "out=") == None
  {
    var p := PyStrip(part);
    assert p[..3][0] == 'i';
    assert !StartsWith(p, "out=") by {
      if |p| >= 4 {
        assert p[..4][0] == p[..3][0];
      }
    }
  }

  /** The for loop of _parse_inout over the ':'-separated parts. */
  method ScanTags(parts: seq<string>) returns (inVal: Option<real>, outVal: Option<real>)
    ensures inVal == LastTagged(parts, "in=") && outVal == LastTagged(parts, "out=")
  {
    inVal, outVal := None, None;
    var i := 0;
    while i < |parts|
      invariant 0 <= i <= |parts|
      invariant inVal == LastTagged(parts[..i], "in=")
      invariant outVal == LastTagged(parts[..i], "out=")
    {
      assert parts[..i + 1][..i] == parts[..i];
      assert LastTagged(parts[..i + 1], "in=")
             == if TagValue(parts[i], "in=").Some? then TagValue(parts[i], "in=") else inVal;
      assert LastTagged(parts[..i + 1], "out=")
             == if TagValue(parts[i], "out=").Some? then TagValue(parts[i], "out=") else outVal;
      var part := PyStrip(parts[i]);
      if StartsWith(part, "in=") {
        TagsExclusive(parts[i]);
        var v := TagValue(parts[i], "in=");
        if v.Some? {
          inVal := v;
        }
      } else if StartsWith(part, "out=") {
        var v := TagValue(parts[i], "out=");
        if v.Some? {
          outVal := v;
        }
      }
      i := i + 1;
    }
    assert parts[..|parts|] == parts;
  }

  /** One "name:spec" item of MODEL_PRICING. */
  function PricingEntry(item: string): (r: Option<(string, (real, real))>)
    ensures r.Some? ==> CleanItem(r.value.0) && ':' !in r.value.0
    ensures var p := PyStrip(item);
      r.Some? <==> ':' in p && PyStrip(SplitOnce(p, ':').value.0) != "" && Inout(SplitOnce(p, ':').value.1).Some?
    ensures var p := PyStrip(item);
      r.Some? ==> r.value == (PyStrip(SplitOnce(p, ':').value.0), Inout(SplitOnce(p, ':').value.1).value)
  {
    match SplitOnce(PyStrip(item), ':')
    case None => None
    case Some(parts) =>
      var name := PyStrip(parts.0);
      StripIdempotent(parts.0, IsPySpace);
      StripInside(parts.0, ':');
      InoutStripped(parts.1);
      var vals := Inout(PyStrip(parts.1));
      if name != "" && vals.Some? then Some((name, vals.value)) else None
  }

  /** A "name:spec" item (after stripping) with no ':' in the name prices the
      stripped name at Inout(spec) when the name is non-empty and the spec
      parses, and gives nothing otherwise. */
  lemma PricingEntryOf(item: string, a: string, b: string)
    requires PyStrip(item) == a + ":" + b && ':' !in a
    ensures PricingEntry(item)
            == if PyStrip(a) != "" && Inout(b).Some? then Some((PyStrip(a), Inout(b).value)) else None
  {
    SplitOnceAt(a, b, ':');
    assert a + ":" + b == a + [':'] + b;
  }

  function Pricing(raw: Option<string>): (r: OMap<string, (real, real)>)
    ensures DistinctKeys(r)
  {
    var t := PyStrip(OrEmpty(raw));
    if t == "" then [] else DictFrom(Split(t, ","), PricingEntry)
  }

  /** A configured "name:spec" item whose name is non-empty and whose spec
      parses puts that price under the stripped name, unless a later item
      names the same model. */
  lemma PricingConfigured(raw: Option<string>, i: nat, a: string, b: string)
    requires PyStrip(OrEmpty(raw)) != ""
    requires i < |Split(PyStrip(OrEmpty(raw)), ",")|
    requires PyStrip(Split(PyStrip(OrEmpty(raw)), ",")[i]) == a + ":" + b && ':' !in a
    requires PyStrip(a) != "" && Inout(b).Some?
    requires forall j :: i < j < |Split(PyStrip(OrEmpty(raw)), ",")| ==>
               !Names(Split(PyStrip(OrEmpty(raw)), ","), PricingEntry, j, PyStrip(a))
    ensures Get(Pricing(raw), PyStrip(a)) == Some(Inout(b).value)
  {
    var items := Split(PyStrip(OrEmpty(raw)), ",");
    PricingEntryOf(items[i], a, b);
    assert Names(items, PricingEntry, i, PyStrip(a));
    DictFromLastWins(items, PricingEntry, PyStrip(a), i);
  }

  /** The body of the loop in model_pricing_inout_map for one item. */
  method PricingItem(item: string) returns (entry: Option<(string, (real, real))>)
    ensures entry == PricingEntry(item)
  {
    var p := PyStrip(item);
    if p == "" || ':' !in p {
      return None;
    }
    var parts := SplitOnce(p, ':').value;
    var name := PyStrip(parts.0);
    var spec := PyStrip(parts.1);
    var vals := ParseInout(spec);
    if name != "" && vals.Some? {
      return Some((name, vals.value));
    }
    return None;
  }

  /** model_pricing_inout_map: fills the dict item by item. */
  method ModelPricingInoutMap(raw: Option<string>) returns (mapping: OMap<string, (real, real)>)
    ensures mapping == Pricing(raw)
  {
    mapping := [];
    var t := PyStrip(OrEmpty(raw));
    if t == "" {
      return;
    }
    mapping := PricingOfItems(Split(t, ","));
  }

  /** The loop of model_pricing_inout_map over the comma-separated items. */
  method PricingOfItems(items: seq<string>) returns (mapping: OMap<string, (real, real)>)
    ensures mapping == DictFrom(items, PricingEntry)
  {
    mapping := [];
    var i := 0;
    while i < |items|
      invariant 0 <= i <= |items|
      invariant mapping == DictFrom(items[..i], PricingEntry)
    {
      var entry := PricingItem(items[i]);
      DictFromSnoc(items, PricingEntry, i);
      match entry {
        case None =>
        case Some(e) =>
          mapping := Put(mapping, e.0, e.1);
      }
      i := i + 1;
    }
    assert items[..|items|] == items;
  }

  // ---------------------------------------------------------------------------
  // redis_connection_url and model_post_init

  const DefaultRedis: string := "redis://redis:6379/0"
  const PasswordPrefix: string := "redis://:"
  const PasswordSuffix: string := "@redis:6379/0"

  /** redis_connection_url. */
  function RedisConnectionUrl(s: Settings): (r: string)
    ensures IsSet(s.redisUrl) ==> r == s.redisUrl.value
    ensures !IsSet(s.redisUrl) && !IsSet(s.redisPassword) ==> r == DefaultRedis
  {
    if IsSet(s.redisUrl) then s.redisUrl.value
    else if IsSet(s.redisPassword) then PasswordPrefix + s.redisPassword.value + PasswordSuffix
    else DefaultRedis
  }

  /** The password a built connection URL carries. */
  function PasswordOf(url: string): Option<string> {
    if |url| >= |PasswordPrefix| + |PasswordSuffix| && url[..|PasswordPrefix|] == PasswordPrefix
       && url[|url| - |PasswordSuffix|..] == PasswordSuffix
    then Some(url[|PasswordPrefix|..|url| - |PasswordSuffix|])
    else None
  }

  /** Without REDIS_URL the URL carries exactly the configured password, and
      none when no password is configured. */
  lemma RedisPasswordRoundTrip(s: Settings)
    requires !IsSet(s.redisUrl)
    ensures PasswordOf(RedisConnectionUrl(s)) == (if IsSet(s.redisPassword) then s.redisPassword else None)
  {
    var r := RedisConnectionUrl(s);
    if IsSet(s.redisPassword) {
      var p := s.redisPassword.value;
      assert r[..|PasswordPrefix|] == PasswordPrefix;
      assert r[|r| - |PasswordSuffix|..] == PasswordSuffix;
      assert r[|PasswordPrefix|..|r| - |PasswordSuffix|] == p;
    } else {
      assert r == DefaultRedis;
      assert r[|r| - |PasswordSuffix|..] != PasswordSuffix by {
        assert r[|r| - |PasswordSuffix|] != PasswordSuffix[0];
      }
    }
  }

  /** model_post_init: outside debug mode the OpenAI key, an admin secret of at
      least 32 characters and the origins setting are required, checked in
      that order. */
  function ModelPostInit(s: Settings): (r: Result<(), string>)
    ensures r.Ok? <==> s.debug || (IsSet(s.openaiApiKey) && IsSet(s.adminApiSecret)
                                   && |s.adminApiSecret.value| >= 32 && IsSet(s.embedAllowedOrigins))
  {
    if s.debug then Ok(())
    else if !IsSet(s.openaiApiKey) then Err("OPENAI_API_KEY is required in production")
    else if !IsSet(s.adminApiSecret) then Err("ADMIN_API_SECRET is required in production")
    else if |s.adminApiSecret.value| < 32 then Err("ADMIN_API_SECRET must be at least 32 characters")
    else if !IsSet(s.embedAllowedOrigins) then Err("EMBED_ALLOWED_ORIGINS must be set in production")
    else Ok(())
  }
}
