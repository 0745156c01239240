/** The pure helpers of the embed endpoints (backend/app/api/embed_ingest.py):
    credential to tenant, the origin allow-check, the upload size and extension
    gate, citation de-duplication, and the server-sent-events framing of an
    answer. The stateful admission checks of /ask are in EmbedAsk. */
module EmbedIngest {
  import opened Wrappers
  import opened Text
  import opened Numbers
  import opened OrderedMaps
  import opened Metadata
  import opened Config

  // ---------------------------------------------------------------------------
  // _tenant_from_key

  /** The first tenant, in map order, whose key equals key. */
  function FirstTenant(keys: OMap<string, string>, key: string): (r: Option<string>)
    ensures r.None? <==> forall i :: 0 <= i < |keys| ==> keys[i].1 != key
    ensures r.Some? ==> exists i :: 0 <= i < |keys| && keys[i] == (r.value, key)
                                    && forall j :: 0 <= j < i ==> keys[j].1 != key
    decreases |keys|
  {
    if |keys| == 0 then None
    else if keys[0].1 == key then Some(keys[0].0)
    else
      var r := FirstTenant(keys[1..], key);
      assert forall i :: 1 <= i < |keys| ==> keys[i] == keys[1..][i - 1];
      if r.Some? then
        assert exists i :: 0 <= i < |keys| - 1 && keys[1..][i] == (r.value, key)
                           && forall j :: 0 <= j < i ==> keys[1..][j].1 != key;
        var i :| 0 <= i < |keys| - 1 && keys[1..][i] == (r.value, key)
                 && forall j :: 0 <= j < i ==> keys[1..][j].1 != key;
        assert keys[i + 1] == (r.value, key);
        assert forall j :: 0 <= j < i + 1 ==> keys[j].1 != key by {
          forall j | 0 <= j < i + 1 ensures keys[j].1 != key {
            if j > 0 {
              assert keys[j] == keys[1..][j - 1];
            }
          }
        }
        r
      else r
  }

  /** _tenant_from_key: no tenant for an absent or empty key. */
  function TenantFromKey(keys: OMap<string, string>, key: Option<string>): (r: Option<string>)
    ensures (key.None? || key.value == "") ==> r.None?
  {
    if key.None? || key.value == "" then None else FirstTenant(keys, key.value)
  }

  /** Any key configured for some tenant identifies a tenant holding that key. */
  lemma ConfiguredKeyIdentifiesTenant(raw: Option<string>, tenant: string)
    requires HasKey(ApiKeys(raw), tenant)
    ensures var t := TenantFromKey(ApiKeys(raw), Get(ApiKeys(raw), tenant));
      t.Some? && Get(ApiKeys(raw), t.value) == Get(ApiKeys(raw), tenant)
  {
    ApiKeysClean(raw, tenant);
    KeyIdentifiesTenant(ApiKeys(raw), tenant);
  }

  /** In a mapping with distinct tenants, a tenant's non-empty key leads back
      to a tenant holding the same key. */
  lemma KeyIdentifiesTenant(keys: OMap<string, string>, tenant: string)
    requires DistinctKeys(keys) && HasKey(keys, tenant) && Get(keys, tenant).value != ""
    ensures var t := TenantFromKey(keys, Get(keys, tenant));
      t.Some? && Get(keys, t.value) == Get(keys, tenant)
  {
    var k := Get(keys, tenant).value;
    var i :| 0 <= i < |keys| && keys[i].0 == tenant;
    assert keys[i].1 == k;
    var t := FirstTenant(keys, k);
    var j :| 0 <= j < |keys| && keys[j] == (t.value, k) && forall l :: 0 <= l < j ==> keys[l].1 != k;
    assert keys[j].0 == t.value;
  }

  // ---------------------------------------------------------------------------
  // _origin_allowed

  /** _origin_allowed: the configured list is evaluated first, so a
      configuration error surfaces even for a request without an Origin. */
  function OriginAllowed(allowed: Result<seq<string>, string>, origin: Option<string>): (r: Result<bool, string>)
    ensures r.Err? <==> allowed.Err?
  {
    match allowed
    case Err(e) => Err(e)
    case Ok(list) =>
      if origin.None? || origin.value == "" then Ok(true)
      else if "*" in list then Ok(true)
      else Ok(origin.value in list)
  }

  /** In production the check admits exactly a request without Origin or one
      whose Origin is listed verbatim. */
  lemma ProductionOriginCheck(env: Option<string>, field: Option<string>, origin: Option<string>)
    requires AllowedOrigins(env, field, false).Ok?
    ensures var list := AllowedOrigins(env, field, false).value;
      OriginAllowed(AllowedOrigins(env, field, false), origin)
        == Ok(origin.None? || origin.value == "" || origin.value in list)
  {
  }

  // ---------------------------------------------------------------------------
  // The upload gate of ingest_any_file

  /** The text after the last occurrence of c (all of s when c is absent). */
  function AfterLast(s: string, c: char): (r: string)
    ensures c !in r && |r| <= |s| && r == s[|s| - |r|..]
    ensures c in s ==> |r| < |s| && s[|s| - |r| - 1] == c
    decreases |s|
  {
    if |s| == 0 then ""
    else if s[|s| - 1] == c then ""
    else
      var r := AfterLast(s[..|s| - 1], c);
      assert c in s ==> c in s[..|s| - 1] by {
        if c in s {
          var k :| 0 <= k < |s| && s[k] == c;
          assert s[..|s| - 1][k] == c;
        }
      }
      r + [s[|s| - 1]]
  }

  /** The lower-cased file name's text after its last '.', or "" without one. */
  function Extension(filename: Option<string>): (ext: string)
    ensures '.' !in ext
  {
    var fname := Lower(if filename.Some? then filename.value else "");
    if '.' in fname then AfterLast(fname, '.') else ""
  }

  lemma LowerAppend(a: string, b: string)
    ensures Lower(a + b) == Lower(a) + Lower(b)
  {
  }

  /** The text after the last c of a + [c] + b, with b free of c, is b. */
  lemma {:induction false} AfterLastSplit(a: string, c: char, b: string)
    requires c !in b
    ensures AfterLast(a + [c] + b, c) == b
    decreases |b|
  {
    var s := a + [c] + b;
    if |b| > 0 {
      var init := b[..|b| - 1];
      var x := b[|b| - 1];
      assert x != c;
      assert s[|s| - 1] == x;
      assert s[..|s| - 1] == a + [c] + init;
      assert c !in init by {
        forall k | 0 <= k < |init| ensures init[k] != c {
          assert init[k] == b[k];
        }
      }
      AfterLastSplit(a, c, init);
      assert AfterLast(s, c) == init + [x];
      assert b == init + [x];
    } else {
      assert s[|s| - 1] == c;
    }
  }

  /** A file named base.ext has extension ext, lower-cased. */
  lemma ExtensionOf(base: string, ext: string)
    requires '.' !in ext
    ensures Extension(Some(base + "." + ext)) == Lower(ext)
  {
    LowerAppend(base + ".", ext);
    LowerAppend(base, ".");
    var lower := Lower(base + "." + ext);
    assert lower == Lower(base) + ['.'] + Lower(ext);
    assert '.' in lower;
    AfterLastSplit(Lower(base), '.', Lower(ext));
  }

  const MiB: nat := 1024 * 1024

  /** The size cap: 10 MiB for pdf, docx, pptx and xlsx, 2 MiB for every other
      extension, unsupported ones included. */
  function MaxBytes(ext: string): (n: nat)
    ensures n == 2 * MiB || n == 10 * MiB
  {
    if ext in {"pdf", "docx", "pptx", "xlsx"} then 10 * MiB else 2 * MiB
  }

  /** The source type recorded for a supported extension. */
  function SourceType(ext: string): Option<string> {
    if ext == "md" || ext == "markdown" then Some("markdown")
    else if ext == "txt" then Some("text")
    else if ext in {"docx", "pptx", "xlsx", "pdf"} then Some(ext)
    else None
  }

  /** What an accepted upload goes on with: how to extract the text, and the
      chunking parameters. */
  datatype UploadPlan = UploadPlan(tenant: string, ext: string, sourceType: string, chunkSize: int, chunkOverlap: int)

  /** Python's `x or default` for an optional integer form field. */
  function IntOr(x: Option<int>, default: int): int {
    if x.Some? && x.value != 0 then x.value else default
  }

  /** The checks of ingest_any_file before text extraction: 401 for an unknown
      key, then 413 for content over the cap of its extension, then 400 for an
      unsupported extension. */
  function UploadGate(tenant: Option<string>, filename: Option<string>, size: nat,
                      chunkSize: Option<int>, chunkOverlap: Option<int>, s: Settings): Result<UploadPlan, int>
  {
    if tenant.None? || tenant.value == "" then Err(401)
    else
      var ext := Extension(filename);
      if size > MaxBytes(ext) then Err(413)
      else
        var cs := IntOr(chunkSize, s.maxChunkSize);
        var co := IntOr(chunkOverlap, s.chunkOverlap);
        match SourceType(ext)
        case None => Err(400)
        case Some(st) => Ok(UploadPlan(tenant.value, ext, st, cs, co))
  }

  /** The outcomes of the gate for a known tenant, by size and extension: the
      size check comes first, so an oversized file of an unsupported type is
      413, not 400; an accepted upload has a supported type and at most 10 MiB. */
  lemma UploadGateOutcomes(tenant: string, filename: Option<string>, size: nat,
                           chunkSize: Option<int>, chunkOverlap: Option<int>, s: Settings)
    requires tenant != ""
    ensures var r := UploadGate(Some(tenant), filename, size, chunkSize, chunkOverlap, s);
      var ext := Extension(filename);
      && (r == Err(413) <==> size > MaxBytes(ext))
      && (r == Err(400) <==> size <= MaxBytes(ext) && SourceType(ext).None?)
      && (SourceType(ext).None? && size > 2 * MiB ==> r == Err(413))
      && (r.Ok? ==> size <= 10 * MiB && SourceType(ext) == Some(r.value.sourceType))
      && (r.Ok? && s.maxChunkSize != 0 ==> r.value.chunkSize != 0)
  {
  }

  /** No credential, no upload. */
  lemma UploadNeedsTenant(filename: Option<string>, size: nat, chunkSize: Option<int>, chunkOverlap: Option<int>, s: Settings)
    ensures UploadGate(None, filename, size, chunkSize, chunkOverlap, s) == Err(401)
  {
  }

  // ---------------------------------------------------------------------------
  // Citation de-duplication in docs_ask

  /** A citation entry: its label and the reference fields kept from the
      document's metadata. */
  datatype Citation = Citation(labelText: string, source: Scalar, page: Option<int>, fileId: Option<Scalar>)

  /** m.get("source") or m.get("filename") or m.get("url") or "unknown". */
  function SourceOf(m: Meta): (r: Scalar)
    ensures Truthy(r)
  {
    var s := Lookup(m, "source");
    var f := Lookup(m, "filename");
    var u := Lookup(m, "url");
    if TruthyOpt(s) then s.value
    else if TruthyOpt(f) then f.value
    else if TruthyOpt(u) then u.value
    else Str("unknown")
  }

  /** int(m.get("page") or m.get("page_number")), None when absent or when
      int() fails. */
  function PageOf(m: Meta): Option<int> {
    match Or(Lookup(m, "page"), Lookup(m, "page_number"))
    case None => None
    case Some(p) => PyIntOf(p)
  }

  /** The identity a citation is de-duplicated by: str(source), the page
      number and the file id, compared as Python compares them. */
  type CiteKey = (string, Option<int>, Option<Scalar>)

  function FileIdKey(x: Option<Scalar>): Option<Scalar> {
    if x.Some? then Some(HashKey(x.value)) else None
  }

  function KeyOf(m: Meta): CiteKey {
    (PyStr(SourceOf(m)), PageOf(m), FileIdKey(Lookup(m, "file_id")))
  }

  function CitationKey(c: Citation): CiteKey
    requires c.source != Null
  {
    (PyStr(c.source), c.page, FileIdKey(c.fileId))
  }

  /** The label: the truthy ones among title, source and "p.N", joined by
      " - ". A truthy title or source that is not a string makes the join raise
      TypeError, which reaches the client as an internal error. (The fallback to
      str(source) for an empty part list cannot happen: the source is always
      truthy.) */
  function LabelOf(m: Meta): (r: Result<string, string>)
    ensures r.Err? <==> (TruthyOpt(Lookup(m, "title")) && !Lookup(m, "title").value.Str?) || !SourceOf(m).Str?
    ensures r.Ok? ==> SourceOf(m).Str? && StartsWithLabel(m, r.value)
    ensures r.Ok? ==> r.value == Join(LabelParts(m), " - ")
  {
    var title := Lookup(m, "title");
    var source := SourceOf(m);
    if TruthyOpt(title) && !title.value.Str? then Err("TypeError")
    else if !source.Str? then Err("TypeError")
    else Ok(Join(LabelParts(m), " - "))
  }

  /** The parts the label joins: the title when truthy, the source, and
      "p.N" when there is a page, in that order and all non-empty. */
  function LabelParts(m: Meta): (parts: seq<string>)
    requires SourceOf(m).Str?
    requires TruthyOpt(Lookup(m, "title")) ==> Lookup(m, "title").value.Str?
    ensures var titled := TruthyOpt(Lookup(m, "title"));
      && |parts| == (if titled then 1 else 0) + 1 + (if PageOf(m).Some? then 1 else 0)
      && (titled ==> parts[0] == Lookup(m, "title").value.s)
      && parts[if titled then 1 else 0] == SourceOf(m).s
      && (PageOf(m).Some? ==> parts[|parts| - 1] == "p." + IntToString(PageOf(m).value))
      && (PageOf(m).None? ==> parts[|parts| - 1] == SourceOf(m).s)
      && forall k :: 0 <= k < |parts| ==> parts[k] != ""
  {
    var title := Lookup(m, "title");
    (if TruthyOpt(title) then [title.value.s] else [])
    + [SourceOf(m).s]
    + (if PageOf(m).Some? then ["p." + IntToString(PageOf(m).value)] else [])
  }

  /** When neither title nor source holds a '-' and the page is not negative,
      splitting the label on " - " gives its parts back: the title, the
      source, then "p.N" exactly when there is a page. */
  lemma LabelSplits(m: Meta)
    requires LabelOf(m).Ok?
    requires TruthyOpt(Lookup(m, "title")) ==> '-' !in Lookup(m, "title").value.s
    requires '-' !in SourceOf(m).s
    requires PageOf(m).Some? ==> PageOf(m).value >= 0
    ensures Split(LabelOf(m).value, " - ") == LabelParts(m)
  {
    var parts := LabelParts(m);
    var sep := " - ";
    if PageOf(m).Some? {
      var digits := NatToString(PageOf(m).value);
      assert parts[|parts| - 1] == "p." + digits;
      assert '-' !in "p." + digits by {
        assert forall k :: 0 <= k < |digits| ==> IsDigit(digits[k]);
      }
    }
    assert forall k :: 0 <= k < |parts| ==> sep[1] !in parts[k];
    SplitJoinOn(parts, sep);
  }

  /** The label begins with the title when there is one, else with the source. */
  predicate StartsWithLabel(m: Meta, text: string)
    requires SourceOf(m).Str?
  {
    var title := Lookup(m, "title");
    StartsWith(text, if TruthyOpt(title) && title.value.Str? then title.value.s else SourceOf(m).s)
  }

  function CitationFor(m: Meta): (r: Result<Citation, string>)
    ensures r.Ok? ==> r.value.source != Null && CitationKey(r.value) == KeyOf(m)
  {
    match LabelOf(m)
    case Err(e) => Err(e)
    case Ok(text) => Ok(Citation(text, SourceOf(m), PageOf(m), Lookup(m, "file_id")))
  }

  /** The keys of all documents in docs. */
  function KeysOf(docs: seq<Meta>): set<CiteKey> {
    set i | 0 <= i < |docs| :: KeyOf(docs[i])
  }

  /** The citation list for the documents in retrieval order: a document whose
      key was already seen adds nothing, any other adds its citation; an error
      building a label ends the request. */
  function Citations(docs: seq<Meta>): Result<seq<Citation>, string>
    decreases |docs|
  {
    if |docs| == 0 then Ok([])
    else
      var init := docs[..|docs| - 1];
      var last := docs[|docs| - 1];
      match Citations(init)
      case Err(e) => Err(e)
      case Ok(cs) =>
        if KeyOf(last) in KeysOf(init) then Ok(cs)
        else match CitationFor(last)
          case Err(e) => Err(e)
          case Ok(c) => Ok(cs + [c])
  }

  /** The citation loop of docs_ask, with its `seen` set. */
  method BuildCitations(docs: seq<Meta>) returns (r: Result<seq<Citation>, string>)
    ensures r == Citations(docs)
  {
    var seen: set<CiteKey> := {};
    var citations: seq<Citation> := [];
    var i := 0;
    while i < |docs|
      invariant 0 <= i <= |docs|
      invariant seen == KeysOf(docs[..i])
      invariant Citations(docs[..i]) == Ok(citations)
    {
      var m := docs[i];
      var key := KeyOf(m);
      CitationsSnoc(docs, i);
      if key in seen {
        i := i + 1;
        continue;
      }
      seen := seen + {key};
      var c := CitationFor(m);
      if c.Err? {
        CitationsErrorSticks(docs, i + 1);
        assert docs[..|docs|] == docs;
        return Err(c.error);
      }
      citations := citations + [c.value];
      i := i + 1;
    }
    assert docs[..|docs|] == docs;
    r := Ok(citations);
  }

  /** One more document: its key joins the keys seen, and it adds its
      citation when its key is new. */
  lemma CitationsSnoc(docs: seq<Meta>, i: nat)
    requires i < |docs|
    ensures KeysOf(docs[..i + 1]) == KeysOf(docs[..i]) + {KeyOf(docs[i])}
    ensures Citations(docs[..i + 1]) ==
      match Citations(docs[..i])
      case Err(e) => Err(e)
      case Ok(cs) =>
        if KeyOf(docs[i]) in KeysOf(docs[..i]) then Ok(cs)
        else match CitationFor(docs[i])
          case Err(e) => Err(e)
          case Ok(c) => Ok(cs + [c])
  {
    var pre := docs[..i + 1];
    assert pre[..i] == docs[..i] && pre[i] == docs[i];
    forall k | k in KeysOf(pre) ensures k in KeysOf(docs[..i]) + {KeyOf(docs[i])} {
      var j :| 0 <= j < i + 1 && KeyOf(pre[j]) == k;
      if j < i {
        assert pre[j] == docs[..i][j];
      }
    }
    forall k | k in KeysOf(docs[..i]) + {KeyOf(docs[i])} ensures k in KeysOf(pre) {
      if k in KeysOf(docs[..i]) {
        var j :| 0 <= j < i && KeyOf(docs[..i][j]) == k;
        assert pre[j] == docs[..i][j];
      } else {
        assert KeyOf(pre[i]) == k;
      }
    }
  }

  /** Once the prefix fails, the whole list fails with the same error. */
  lemma {:induction false} CitationsErrorSticks(docs: seq<Meta>, n: nat)
    requires n <= |docs| && Citations(docs[..n]).Err?
    ensures Citations(docs) == Citations(docs[..n])
    decreases |docs| - n
  {
    if n < |docs| {
      assert docs[..n + 1][..n] == docs[..n];
      CitationsErrorSticks(docs, n + 1);
    } else {
      assert docs[..n] == docs;
    }
  }

  /** Document i is the first with its key. */
  predicate IsFirst(docs: seq<Meta>, i: int) {
    0 <= i < |docs| && forall j :: 0 <= j < i ==> KeyOf(docs[j]) != KeyOf(docs[i])
  }

  /** The positions of the first document of each key, ascending: the
      reference the citation list is compared against. */
  function FirstIndices(docs: seq<Meta>): (r: seq<nat>)
    ensures forall k :: 0 <= k < |r| ==> IsFirst(docs, r[k])
    ensures forall k, l :: 0 <= k < l < |r| ==> r[k] < r[l]
    ensures forall i :: IsFirst(docs, i) ==> i in r
    decreases |docs|
  {
    if |docs| == 0 then []
    else
      var prev := FirstIndices(docs[..|docs| - 1]);
      FirstIndicesExtend(docs, prev);
      prev + (if IsFirst(docs, |docs| - 1) then [|docs| - 1] else [])
  }

  /** The first positions of a prefix, then the last position if it is a
      first one, are the first positions of the whole. */
  lemma FirstIndicesExtend(docs: seq<Meta>, prev: seq<nat>)
    requires |docs| > 0
    requires forall k :: 0 <= k < |prev| ==> IsFirst(docs[..|docs| - 1], prev[k])
    requires forall k, l :: 0 <= k < l < |prev| ==> prev[k] < prev[l]
    requires forall i :: IsFirst(docs[..|docs| - 1], i) ==> i in prev
    ensures var r := prev + (if IsFirst(docs, |docs| - 1) then [|docs| - 1] else []);
      && (forall k :: 0 <= k < |r| ==> IsFirst(docs, r[k]))
      && (forall k, l :: 0 <= k < l < |r| ==> r[k] < r[l])
      && (forall i :: IsFirst(docs, i) ==> i in r)
  {
    var n := |docs| - 1;
    var init := docs[..n];
    FirstOfPrefix(docs);
    var r := prev + (if IsFirst(docs, n) then [n] else []);
    forall k | 0 <= k < |r| ensures IsFirst(docs, r[k]) {
      if k < |prev| {
        assert r[k] == prev[k] && IsFirst(init, prev[k]);
      }
    }
    forall k, l | 0 <= k < l < |r| ensures r[k] < r[l] {
      if l < |prev| {
        assert r[k] == prev[k] && r[l] == prev[l];
      } else {
        assert r[k] == prev[k] && IsFirst(init, prev[k]);
      }
    }
    forall i | IsFirst(docs, i) ensures i in r {
      if i < n {
        assert IsFirst(init, i);
      }
    }
  }

  /** Before the last document, being first of its key does not depend on it. */
  lemma FirstOfPrefix(docs: seq<Meta>)
    requires |docs| > 0
    ensures forall i :: 0 <= i < |docs| - 1 ==> (IsFirst(docs[..|docs| - 1], i) <==> IsFirst(docs, i))
  {
    var init := docs[..|docs| - 1];
    forall i | 0 <= i < |init| ensures IsFirst(init, i) <==> IsFirst(docs, i) {
      assert forall j :: 0 <= j <= i ==> init[j] == docs[j];
    }
  }

  /** The last document adds a citation exactly when it is the first of its key. */
  lemma LastIsNew(docs: seq<Meta>)
    requires |docs| > 0
    ensures KeyOf(docs[|docs| - 1]) !in KeysOf(docs[..|docs| - 1]) <==> IsFirst(docs, |docs| - 1)
  {
    var init := docs[..|docs| - 1];
    var last := docs[|docs| - 1];
    if KeyOf(last) in KeysOf(init) {
      var j :| 0 <= j < |init| && KeyOf(init[j]) == KeyOf(last);
      assert docs[j] == init[j];
    } else {
      forall j | 0 <= j < |docs| - 1 ensures KeyOf(docs[j]) != KeyOf(last) {
        assert docs[j] == init[j];
      }
    }
  }

  /** Every first-of-its-key document has a citation that can be built. */
  predicate FirstsOk(docs: seq<Meta>) {
    var fi := FirstIndices(docs);
    forall k :: 0 <= k < |fi| ==> CitationFor(docs[fi[k]]).Ok?
  }

  lemma FirstIndicesStep(docs: seq<Meta>)
    requires |docs| > 0
    ensures var init := docs[..|docs| - 1];
      var n := |docs| - 1;
      && FirstIndices(docs) == FirstIndices(init) + (if IsFirst(docs, n) then [n] else [])
      && (forall k :: 0 <= k < |FirstIndices(init)| ==> docs[FirstIndices(init)[k]] == init[FirstIndices(init)[k]])
      && (FirstsOk(docs) <==> FirstsOk(init) && (IsFirst(docs, n) ==> CitationFor(docs[n]).Ok?))
  {
    var init := docs[..|docs| - 1];
    var n := |docs| - 1;
    var fi0 := FirstIndices(init);
    var fi := FirstIndices(docs);
    assert fi == fi0 + (if IsFirst(docs, n) then [n] else []);
    forall k | 0 <= k < |fi0| ensures docs[fi0[k]] == init[fi0[k]] {
      assert IsFirst(init, fi0[k]);
    }
    OkAppend(docs, init, fi0, IsFirst(docs, n));
  }

  /** Every citation of a list of positions with one more can be built exactly
      when those of the list can and the one more's can. */
  lemma OkAppend(docs: seq<Meta>, init: seq<Meta>, fi0: seq<nat>, more: bool)
    requires |docs| > 0 && init == docs[..|docs| - 1]
    requires forall k :: 0 <= k < |fi0| ==> fi0[k] < |init| && docs[fi0[k]] == init[fi0[k]]
    ensures var fi := fi0 + (if more then [|docs| - 1] else []);
      (forall k :: 0 <= k < |fi| ==> CitationFor(docs[fi[k]]).Ok?)
      <==> (forall k :: 0 <= k < |fi0| ==> CitationFor(init[fi0[k]]).Ok?)
           && (more ==> CitationFor(docs[|docs| - 1]).Ok?)
  {
    var fi := fi0 + (if more then [|docs| - 1] else []);
    assert forall k :: 0 <= k < |fi0| ==> fi[k] == fi0[k];
    if more {
      assert fi[|fi0|] == |docs| - 1;
    }
  }

  /** The citations are, in order, the citations of the first document of each
      key, one per key; the request fails exactly when one of those labels
      cannot be built. */
  lemma {:induction false} CitationsAreFirstOccurrences(docs: seq<Meta>)
    ensures Citations(docs).Ok? <==> FirstsOk(docs)
    ensures Citations(docs).Ok? ==>
      var cs := Citations(docs).value;
      var fi := FirstIndices(docs);
      |cs| == |fi| && forall k :: 0 <= k < |cs| ==> cs[k] == CitationFor(docs[fi[k]]).value
    decreases |docs|
  {
    if |docs| > 0 {
      var init := docs[..|docs| - 1];
      var n := |docs| - 1;
      CitationsAreFirstOccurrences(init);
      LastIsNew(docs);
      FirstIndicesStep(docs);
      var fi0 := FirstIndices(init);
      match Citations(init)
      case Err(_) =>
      case Ok(cs0) =>
        var more := IsFirst(docs, n);
        forall k | 0 <= k < |cs0|
          ensures fi0[k] < |docs| && CitationFor(docs[fi0[k]]).Ok? && cs0[k] == CitationFor(docs[fi0[k]]).value
        {
          assert docs[fi0[k]] == init[fi0[k]];
        }
        if !more {
          assert Citations(docs) == Ok(cs0);
          assert cs0 + [] == cs0;
          CitationsAppend(docs, cs0, fi0, more, cs0);
        } else if CitationFor(docs[n]).Ok? {
          var cs := cs0 + [CitationFor(docs[n]).value];
          assert Citations(docs) == Ok(cs);
          CitationsAppend(docs, cs0, fi0, more, cs);
        }
    }
  }

  /** The citations of the first positions, and the last document's when it
      is a first one. */
  lemma CitationsAppend(docs: seq<Meta>, cs0: seq<Citation>, fi0: seq<nat>, more: bool, cs: seq<Citation>)
    requires |docs| > 0 && |cs0| == |fi0|
    requires forall k :: 0 <= k < |cs0| ==> fi0[k] < |docs| && CitationFor(docs[fi0[k]]).Ok?
                                            && cs0[k] == CitationFor(docs[fi0[k]]).value
    requires more ==> CitationFor(docs[|docs| - 1]).Ok?
    requires cs == cs0 + (if more then [CitationFor(docs[|docs| - 1]).value] else [])
    ensures var fi := fi0 + (if more then [|docs| - 1] else []);
      |cs| == |fi| && forall k :: 0 <= k < |cs| ==> cs[k] == CitationFor(docs[fi[k]]).value
  {
    var fi := fi0 + (if more then [|docs| - 1] else []);
    forall k | 0 <= k < |cs| ensures cs[k] == CitationFor(docs[fi[k]]).value {
      if k < |cs0| {
        assert cs[k] == cs0[k] && fi[k] == fi0[k];
      }
    }
  }

  /** No two citations share a key, and every document's key has a citation. */
  lemma CitationsDistinctAndComplete(docs: seq<Meta>)
    requires Citations(docs).Ok?
    ensures var cs := Citations(docs).value;
      && (forall k :: 0 <= k < |cs| ==> cs[k].source != Null)
      && (forall k, l :: 0 <= k < l < |cs| ==> CitationKey(cs[k]) != CitationKey(cs[l]))
      && (forall i :: 0 <= i < |docs| ==> exists k :: 0 <= k < |cs| && CitationKey(cs[k]) == KeyOf(docs[i]))
  {
    CitationsAreFirstOccurrences(docs);
    var cs := Citations(docs).value;
    var fi := FirstIndices(docs);
    assert FirstsOk(docs);
    CitationsOfFirsts(docs, fi, cs);
  }

  /** The citations of the first documents of each key, in order. */
  lemma CitationsOfFirsts(docs: seq<Meta>, fi: seq<nat>, cs: seq<Citation>)
    requires fi == FirstIndices(docs) && |cs| == |fi|
    requires forall k :: 0 <= k < |fi| ==> CitationFor(docs[fi[k]]).Ok? && cs[k] == CitationFor(docs[fi[k]]).value
    ensures forall k :: 0 <= k < |cs| ==> cs[k].source != Null
    ensures forall k, l :: 0 <= k < l < |cs| ==> CitationKey(cs[k]) != CitationKey(cs[l])
    ensures forall i :: 0 <= i < |docs| ==> exists k :: 0 <= k < |cs| && CitationKey(cs[k]) == KeyOf(docs[i])
  {
    assert forall k :: 0 <= k < |cs| ==> cs[k].source != Null && CitationKey(cs[k]) == KeyOf(docs[fi[k]]);
    FirstKeysDistinct(docs, fi, cs);
    FirstKeysComplete(docs, fi, cs);
  }

  lemma FirstKeysDistinct(docs: seq<Meta>, fi: seq<nat>, cs: seq<Citation>)
    requires fi == FirstIndices(docs) && |cs| == |fi|
    requires forall k :: 0 <= k < |cs| ==> cs[k].source != Null && CitationKey(cs[k]) == KeyOf(docs[fi[k]])
    ensures forall k, l :: 0 <= k < l < |cs| ==> CitationKey(cs[k]) != CitationKey(cs[l])
  {
    forall k, l | 0 <= k < l < |cs| ensures CitationKey(cs[k]) != CitationKey(cs[l]) {
      assert fi[k] < fi[l] && IsFirst(docs, fi[l]);
    }
  }

  lemma FirstKeysComplete(docs: seq<Meta>, fi: seq<nat>, cs: seq<Citation>)
    requires fi == FirstIndices(docs) && |cs| == |fi|
    requires forall k :: 0 <= k < |cs| ==> cs[k].source != Null && CitationKey(cs[k]) == KeyOf(docs[fi[k]])
    ensures forall i :: 0 <= i < |docs| ==> exists k :: 0 <= k < |cs| && CitationKey(cs[k]) == KeyOf(docs[i])
  {
    forall i | 0 <= i < |docs|
      ensures exists k :: 0 <= k < |cs| && CitationKey(cs[k]) == KeyOf(docs[i])
    {
      var j := FirstWithKey(docs, i);
      var k :| 0 <= k < |fi| && fi[k] == j;
      assert CitationKey(cs[k]) == KeyOf(docs[j]);
    }
  }

  /** The first document carrying the same key as document i. */
  lemma FirstWithKey(docs: seq<Meta>, i: int) returns (j: int)
    requires 0 <= i < |docs|
    ensures 0 <= j <= i && IsFirst(docs, j) && KeyOf(docs[j]) == KeyOf(docs[i])
    decreases i
  {
    if exists l :: 0 <= l < i && KeyOf(docs[l]) == KeyOf(docs[i]) {
      var l :| 0 <= l < i && KeyOf(docs[l]) == KeyOf(docs[i]);
      j := FirstWithKey(docs, l);
    } else {
      j := i;
    }
  }

  // ---------------------------------------------------------------------------
  // Server-sent events

  /** The line boundaries of Python's str.splitlines. */
  predicate IsLineBreak(c: char) {
    c == '\n' || c == '\r' || c == '\U{0B}' || c == '\U{0C}' || c == '\U{1C}' || c == '\U{1D}' || c == '\U{1E}'
    || c == '\U{85}' || c == '\U{2028}' || c == '\U{2029}'
  }

  function FirstBreak(s: string): (r: Option<nat>)
    ensures r.Some? ==> r.value < |s| && IsLineBreak(s[r.value]) && forall j :: 0 <= j < r.value ==> !IsLineBreak(s[j])
    ensures r.None? ==> forall j :: 0 <= j < |s| ==> !IsLineBreak(s[j])
    decreases |s|
  {
    if |s| == 0 then None
    else if IsLineBreak(s[0]) then Some(0)
    else match FirstBreak(s[1..])
      case None => None
      case Some(i) => Some(i + 1)
  }

  predicate NoBreak(line: string) {
    forall j :: 0 <= j < |line| ==> !IsLineBreak(line[j])
  }

  /** str.splitlines(): the lines without their ends ("\r\n" is one end); a
      final line end does not start an empty line. */
  function SplitLines(s: string): (lines: seq<string>)
    ensures forall k :: 0 <= k < |lines| ==> NoBreak(lines[k])
    decreases |s|
  {
    if |s| == 0 then []
    else match FirstBreak(s)
      case None => [s]
      case Some(i) =>
        var w := if s[i] == '\r' && i + 1 < |s| && s[i + 1] == '\n' then 2 else 1;
        [s[..i]] + SplitLines(s[i + w..])
  }

  /** Lines, each ended by "\n". */
  function Unlines(lines: seq<string>): string
    decreases |lines|
  {
    if |lines| == 0 then "" else lines[0] + "\n" + Unlines(lines[1..])
  }

  /** Splitting text written line by line gives the lines back. */
  lemma {:induction false} SplitLinesUnlines(lines: seq<string>)
    requires forall k :: 0 <= k < |lines| ==> NoBreak(lines[k])
    ensures SplitLines(Unlines(lines)) == lines
    decreases |lines|
  {
    if |lines| > 0 {
      LineThenRest(lines[0], Unlines(lines[1..]));
      SplitLinesUnlines(lines[1..]);
    }
  }

  /** A line followed by "\n" splits off as the first line. */
  lemma LineThenRest(l: string, rest: string)
    requires NoBreak(l)
    ensures SplitLines(l + "\n" + rest) == [l] + SplitLines(rest)
  {
    var s := l + "\n" + rest;
    LineThenBreak(l, rest);
    assert s[..|l|] == l;
    assert s[|l| + 1..] == rest;
  }

  /** The first line break of a line followed by "\n" is that "\n". */
  lemma LineThenBreak(l: string, rest: string)
    requires NoBreak(l)
    ensures FirstBreak(l + "\n" + rest) == Some(|l|)
  {
    var s := l + "\n" + rest;
    assert s[|l|] == '\n';
    assert forall j :: 0 <= j < |l| ==> s[j] == l[j];
    assert IsLineBreak(s[|l|]) && forall j :: 0 <= j < |l| ==> !IsLineBreak(s[j]);
  }

  /** One answer line as an SSE record. */
  function DataRecord(line: string): string {
    "data: " + line + "\n\n"
  }

  const CitationsEvent: string := "event: citations\n"

  /** The records the generator yields, in order: one per answer line, then the
      citations event and its data line carrying the JSON payload (rendered
      by json.dumps, passed in as text). */
  function SseChunks(answer: string, payloadJson: string): (chunks: seq<string>)
    ensures |chunks| == |SplitLines(answer)| + 2
    ensures forall k :: 0 <= k < |SplitLines(answer)| ==> chunks[k] == DataRecord(SplitLines(answer)[k])
    ensures chunks[|chunks| - 2] == CitationsEvent && chunks[|chunks| - 1] == DataRecord(payloadJson)
  {
    var lines := SplitLines(answer);
    seq(|lines|, k requires 0 <= k < |lines| => DataRecord(lines[k])) + [CitationsEvent, DataRecord(payloadJson)]
  }

  /** gen(): yields the records of SseChunks one at a time. */
  method Gen(answer: string, payloadJson: string) returns (yielded: seq<string>)
    ensures yielded == SseChunks(answer, payloadJson)
  {
    yielded := [];
    var lines := SplitLines(answer);
    var i := 0;
    while i < |lines|
      invariant 0 <= i <= |lines|
      invariant yielded == seq(i, k requires 0 <= k < i => DataRecord(lines[k]))
    {
      yielded := yielded + [DataRecord(lines[i])];
      i := i + 1;
    }
    yielded := yielded + [CitationsEvent];
    yielded := yielded + [DataRecord(payloadJson)];
  }

  /** The response body: the concatenation of the records. */
  function SseBody(answer: string, payloadJson: string): string {
    Concat(SseChunks(answer, payloadJson))
  }
}
