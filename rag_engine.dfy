/** The document bookkeeping of the RAG engine in
    backend/app/core/services/rag_engine.py. The vector store is a sequence of
    records (chunk text and metadata) in collection order; the embedding model,
    the retriever and the language model are opaque, so what they produce is
    passed in: the store found on disk, the retriever as a function of the query
    and k, the model's answer as a function of the context and the question. */
module RagEngine {
  import opened Wrappers
  import opened Text
  import opened OrderedMaps
  import opened Metadata

  /** A stored chunk, and a retrieved document: page_content and metadata. */
  datatype Doc = Doc(content: string, meta: Meta)

  const NotInitialized: string := "RAGエンジンが初期化されていません"
  const StoreNotInitialized: string := "ベクトルストアが初期化されていません"
  const NoDocumentsAnswer: string := "関連する文書が見つかりませんでした。"
  const DeleteFailed: string := "ドキュメントの削除に失敗しました: "
  const ResetDone: string := "ベクトルストアをリセットしました"
  const ResetFailed: string := "リセットに失敗しました: "

  function Contents(docs: seq<Doc>): (r: seq<string>)
    ensures |r| == |docs| && forall i :: 0 <= i < |docs| ==> r[i] == docs[i].content
  {
    seq(|docs|, i requires 0 <= i < |docs| => docs[i].content)
  }

  function Metas(docs: seq<Doc>): (r: seq<Meta>)
    ensures |r| == |docs| && forall i :: 0 <= i < |docs| ==> r[i] == docs[i].meta
  {
    seq(|docs|, i requires 0 <= i < |docs| => docs[i].meta)
  }

  // ---------------------------------------------------------------------------
  // Chunk metadata

  /** The metadata of chunk i of an upload. */
  function ChunkMeta(filename: string, fileId: string, uploadTime: string, i: nat): Meta {
    map["filename" := Str(filename), "file_id" := Str(fileId),
        "upload_time" := Str(uploadTime), "chunk_index" := Int(i)]
  }

  /** One metadata per chunk: all share the upload's filename, file id and
      upload time, and chunk_index is the chunk's position. */
  function ChunkMetas(n: nat, filename: string, fileId: string, uploadTime: string): (r: seq<Meta>)
    ensures |r| == n
    ensures forall i :: 0 <= i < n ==>
      && Lookup(r[i], "chunk_index") == Some(Int(i))
      && Lookup(r[i], "filename") == Some(Str(filename))
      && Lookup(r[i], "file_id") == Some(Str(fileId))
      && Lookup(r[i], "upload_time") == Some(Str(uploadTime))
      && "file_size" !in r[i]
  {
    seq(n, i requires 0 <= i < n => ChunkMeta(filename, fileId, uploadTime, i))
  }

  /** The records Chroma stores for the chunks and their metadata. */
  function Records(chunks: seq<string>, metas: seq<Meta>): (r: seq<Doc>)
    requires |metas| == |chunks|
    ensures Contents(r) == chunks && Metas(r) == metas
  {
    seq(|chunks|, i requires 0 <= i < |chunks| => Doc(chunks[i], metas[i]))
  }

  datatype CreateInfo = CreateInfo(chunksCount: nat, documentCount: nat, filename: string)

  // ---------------------------------------------------------------------------
  // Search and answer

  /** `top_k or default_top_k`: an absent or zero top_k falls back to the
      default. */
  function SearchK(topK: Option<int>, defaultTopK: int): (k: int)
    ensures topK.Some? && topK.value != 0 ==> k == topK.value
    ensures topK.None? || topK.value == 0 ==> k == defaultTopK
  {
    if topK.Some? && topK.value != 0 then topK.value else defaultTopK
  }

  /** The context handed to the model: the contents joined by blank lines. */
  function FormatDocuments(docs: seq<Doc>): string {
    Join(Contents(docs), "\n\n")
  }

  /** Splitting the context at blank lines gives the documents back, one
      content each and in order, when no content holds a line break. */
  lemma FormatDocumentsRoundTrip(docs: seq<Doc>)
    requires |docs| > 0
    requires forall i :: 0 <= i < |docs| ==> '\n' !in docs[i].content
    ensures Split(FormatDocuments(docs), "\n\n") == Contents(docs)
  {
    SplitJoin(Contents(docs), "\n\n");
  }

  datatype Answer = Answer(answer: string, documents: seq<Doc>, contextUsed: string)

  // ---------------------------------------------------------------------------
  // The document list

  /** md.get(name, default): the stored value, or the default when absent. */
  function Field(m: Meta, name: string, default: Scalar): (r: Scalar)
    ensures name in m ==> r == m[name]
    ensures name !in m ==> r == default
  {
    if name in m then m[name] else default
  }

  /** A metadata entry the grouping looks at: a non-empty dict. */
  predicate Counted(m: Meta) {
    m != map[]
  }

  /** The value of the group key, as Python's dict compares it. */
  function FileKey(m: Meta): Scalar {
    HashKey(Field(m, "filename", Str("unknown")))
  }

  datatype FileInfo = FileInfo(filename: Scalar, fileId: Scalar, uploadTime: Scalar,
                               chunkCount: nat, fileSize: Scalar)

  /** The entry a group starts with, taken from its first metadata. */
  function NewInfo(m: Meta): FileInfo {
    FileInfo(Field(m, "filename", Str("unknown")), Field(m, "file_id", Str("unknown")),
             Field(m, "upload_time", Str("unknown")), 0, Field(m, "file_size", Int(0)))
  }

  /** The entry of group k once metadata m has been counted. */
  function Bumped(g: OMap<Scalar, FileInfo>, m: Meta, k: Scalar): FileInfo {
    var info := Get(g, k).GetOr(NewInfo(m));
    info.(chunkCount := info.chunkCount + 1)
  }

  /** One pass of the loop body: an empty metadata is skipped, any other adds
      one chunk to its group, which it opens if needed. */
  function AddMeta(g: OMap<Scalar, FileInfo>, m: Meta): (r: OMap<Scalar, FileInfo>)
    requires DistinctKeys(g)
    ensures DistinctKeys(r)
    ensures forall k :: Get(r, k) == if Counted(m) && FileKey(m) == k then Some(Bumped(g, m, k)) else Get(g, k)
  {
    if !Counted(m) then g
    else Put(g, FileKey(m), Bumped(g, m, FileKey(m)))
  }

  /** file_info_dict after the loop over the metadatas. */
  function Group(ms: seq<Meta>): (g: OMap<Scalar, FileInfo>)
    ensures DistinctKeys(g)
    decreases |ms|
  {
    if |ms| == 0 then [] else AddMeta(Group(ms[..|ms| - 1]), ms[|ms| - 1])
  }

  /** The number of non-empty metadatas in group k. */
  function CountKey(ms: seq<Meta>, k: Scalar): nat
    decreases |ms|
  {
    if |ms| == 0 then 0
    else CountKey(ms[..|ms| - 1], k)
         + (if Counted(ms[|ms| - 1]) && FileKey(ms[|ms| - 1]) == k then 1 else 0)
  }

  /** The number of non-empty metadatas. */
  function CountedCount(ms: seq<Meta>): nat
    decreases |ms|
  {
    if |ms| == 0 then 0
    else CountedCount(ms[..|ms| - 1]) + (if Counted(ms[|ms| - 1]) then 1 else 0)
  }

  function Values(g: OMap<Scalar, FileInfo>): (r: seq<FileInfo>)
    ensures |r| == |g| && forall i :: 0 <= i < |g| ==> r[i] == g[i].1
  {
    seq(|g|, i requires 0 <= i < |g| => g[i].1)
  }

  function SumCounts(files: seq<FileInfo>): nat
    decreases |files|
  {
    if |files| == 0 then 0 else files[0].chunkCount + SumCounts(files[1..])
  }

  datatype DocList = DocList(files: seq<FileInfo>, totalFiles: nat, totalChunks: nat)

  /** get_document_list: nothing without a store or without metadata;
      otherwise one file per group, and every metadata counted in the total. */
  function DocumentList(store: Option<seq<Doc>>): DocList {
    if store.None? || |store.value| == 0 then DocList([], 0, 0)
    else
      var g := Group(Metas(store.value));
      DocList(Values(g), |g|, |store.value|)
  }

  predicate InGroup(ms: seq<Meta>, k: Scalar, i: int) {
    0 <= i < |ms| && Counted(ms[i]) && FileKey(ms[i]) == k
  }

  /** i is the first metadata of group k. */
  predicate FirstOf(ms: seq<Meta>, k: Scalar, i: int) {
    InGroup(ms, k, i) && forall j :: 0 <= j < i ==> !InGroup(ms, k, j)
  }

  /** A key is a group exactly when some non-empty metadata has it. */
  lemma {:induction false} GroupHasKey(ms: seq<Meta>, k: Scalar)
    ensures HasKey(Group(ms), k) <==> exists i :: InGroup(ms, k, i)
    decreases |ms|
  {
    if |ms| > 0 {
      var pre := ms[..|ms| - 1];
      GroupHasKey(pre, k);
      var g := Group(pre);
      assert Group(ms) == AddMeta(g, ms[|ms| - 1]);
      assert Get(Group(ms), k).Some? <==> InGroup(ms, k, |ms| - 1) || Get(g, k).Some?;
      assert forall i :: InGroup(pre, k, i) ==> InGroup(ms, k, i);
      assert forall i :: 0 <= i < |ms| - 1 && InGroup(ms, k, i) ==> InGroup(pre, k, i);
    }
  }

  lemma {:induction false} CountKeyNone(ms: seq<Meta>, k: Scalar)
    requires forall i :: 0 <= i < |ms| ==> !InGroup(ms, k, i)
    ensures CountKey(ms, k) == 0
    decreases |ms|
  {
    if |ms| > 0 {
      var pre := ms[..|ms| - 1];
      assert forall i :: 0 <= i < |pre| ==> !InGroup(pre, k, i) by {
        forall i | 0 <= i < |pre| ensures !InGroup(pre, k, i) {
          assert !InGroup(ms, k, i);
        }
      }
      CountKeyNone(pre, k);
      assert !InGroup(ms, k, |ms| - 1);
    }
  }

  /** A group holds the filename, file id, upload time and file size of its
      first metadata, and counts every non-empty metadata with its key. */
  lemma {:induction false} GroupFirst(ms: seq<Meta>, k: Scalar, i: int)
    requires FirstOf(ms, k, i)
    ensures Get(Group(ms), k) == Some(NewInfo(ms[i]).(chunkCount := CountKey(ms, k)))
    decreases |ms|
  {
    var n := |ms|;
    var pre := ms[..n - 1];
    if i == n - 1 {
      GroupOpened(ms, k);
    } else {
      assert FirstOf(pre, k, i) by {
        forall j | 0 <= j < i ensures !InGroup(pre, k, j) {
          assert !InGroup(ms, k, j);
        }
      }
      GroupFirst(pre, k, i);
      GroupCounts(ms, k, NewInfo(ms[i]).(chunkCount := CountKey(pre, k)));
      assert pre[i] == ms[i];
    }
  }

  /** An open group keeps its fields and counts the last metadata if it is
      one of its own. */
  lemma GroupCounts(ms: seq<Meta>, k: Scalar, info: FileInfo)
    requires |ms| > 0 && Get(Group(ms[..|ms| - 1]), k) == Some(info)
    requires info.chunkCount == CountKey(ms[..|ms| - 1], k)
    ensures Get(Group(ms), k) == Some(info.(chunkCount := CountKey(ms, k)))
  {
    var pre := ms[..|ms| - 1];
    GroupLast(ms, k);
    if InGroup(ms, k, |ms| - 1) {
      assert Bumped(Group(pre), ms[|ms| - 1], k) == info.(chunkCount := info.chunkCount + 1);
      assert CountKey(ms, k) == info.chunkCount + 1;
    } else {
      assert CountKey(ms, k) == info.chunkCount;
    }
  }

  /** The group a metadata opens: its fields, with a count of one. */
  lemma GroupOpened(ms: seq<Meta>, k: Scalar)
    requires FirstOf(ms, k, |ms| - 1)
    ensures Get(Group(ms), k) == Some(NewInfo(ms[|ms| - 1]).(chunkCount := CountKey(ms, k)))
  {
    var pre := ms[..|ms| - 1];
    forall j | 0 <= j < |pre| ensures !InGroup(pre, k, j) {
      assert !InGroup(ms, k, j);
    }
    GroupHasKey(pre, k);
    assert !HasKey(Group(pre), k);
    CountKeyNone(pre, k);
    GroupLast(ms, k);
    var m := ms[|ms| - 1];
    assert Bumped(Group(pre), m, k) == NewInfo(m).(chunkCount := 1);
    assert CountKey(ms, k) == 1;
  }

  /** The last metadata bumps its own group and leaves the others alone. */
  lemma GroupLast(ms: seq<Meta>, k: Scalar)
    requires |ms| > 0
    ensures var pre := ms[..|ms| - 1];
      && Get(Group(ms), k) == (if InGroup(ms, k, |ms| - 1) then Some(Bumped(Group(pre), ms[|ms| - 1], k))
                               else Get(Group(pre), k))
      && CountKey(ms, k) == CountKey(pre, k) + (if InGroup(ms, k, |ms| - 1) then 1 else 0)
  {
  }

  lemma {:induction false} SumCountsAppend(files: seq<FileInfo>, x: FileInfo)
    ensures SumCounts(files + [x]) == SumCounts(files) + x.chunkCount
    decreases |files|
  {
    if |files| == 0 {
      assert ([] + [x])[1..] == [];
    } else {
      assert (files + [x])[1..] == files[1..] + [x];
      SumCountsAppend(files[1..], x);
    }
  }

  lemma {:induction false} SumCountsUpdate(files: seq<FileInfo>, i: nat, x: FileInfo)
    requires i < |files|
    ensures SumCounts(files[i := x]) == SumCounts(files) - files[i].chunkCount + x.chunkCount
    decreases |files|
  {
    if i > 0 {
      assert files[i := x][1..] == files[1..][i - 1 := x];
      SumCountsUpdate(files[1..], i - 1, x);
    } else {
      assert files[i := x][1..] == files[1..];
    }
  }

  /** Storing a file entry replaces the old count of its key by the new one. */
  lemma PutSum(g: OMap<Scalar, FileInfo>, k: Scalar, v: FileInfo)
    requires DistinctKeys(g)
    ensures SumCounts(Values(Put(g, k, v)))
            == SumCounts(Values(g)) - (if HasKey(g, k) then Get(g, k).value.chunkCount else 0) + v.chunkCount
  {
    match Find(g, k)
    case None =>
      assert Values(g + [(k, v)]) == Values(g) + [v];
      SumCountsAppend(Values(g), v);
    case Some(i) =>
      assert Values(g[i := (k, v)]) == Values(g)[i := v];
      SumCountsUpdate(Values(g), i, v);
  }

  /** The chunk counts of the groups add up to the number of non-empty
      metadatas: each falls in exactly one group. */
  lemma {:induction false} GroupSum(ms: seq<Meta>)
    ensures SumCounts(Values(Group(ms))) == CountedCount(ms)
    decreases |ms|
  {
    if |ms| > 0 {
      var pre := ms[..|ms| - 1];
      var m := ms[|ms| - 1];
      GroupSum(pre);
      if Counted(m) {
        var g := Group(pre);
        var k := FileKey(m);
        PutSum(g, k, Bumped(g, m, k));
      }
    }
  }

  /** What get_document_list reports about a non-empty store. */
  lemma DocumentListSpec(docs: seq<Doc>)
    requires |docs| > 0
    ensures var l := DocumentList(Some(docs));
      && l.totalChunks == |docs|
      && l.totalFiles == |l.files|
      && SumCounts(l.files) == CountedCount(Metas(docs))
  {
    GroupSum(Metas(docs));
  }

  // ---------------------------------------------------------------------------
  // Deletion

  /** The records the filter {"filename": filename} matches. */
  predicate Named(d: Doc, filename: string) {
    "filename" in d.meta && d.meta["filename"] == Str(filename)
  }

  /** The records left after deleting the matched ones, in order. */
  function Kept(docs: seq<Doc>, filename: string): (r: seq<Doc>)
    ensures forall d :: d in r <==> d in docs && !Named(d, filename)
    decreases |docs|
  {
    if |docs| == 0 then []
    else
      var rest := Kept(docs[..|docs| - 1], filename);
      var d := docs[|docs| - 1];
      assert forall e :: e in docs <==> e in docs[..|docs| - 1] || e == d;
      if Named(d, filename) then rest else rest + [d]
  }

  function CountNamed(docs: seq<Doc>, filename: string): nat
    decreases |docs|
  {
    if |docs| == 0 then 0
    else CountNamed(docs[..|docs| - 1], filename) + (if Named(docs[|docs| - 1], filename) then 1 else 0)
  }

  /** Every record is either deleted or kept. */
  lemma {:induction false} DeleteAccounting(docs: seq<Doc>, filename: string)
    ensures CountNamed(docs, filename) + |Kept(docs, filename)| == |docs|
    ensures CountNamed(docs, filename) == 0 <==> forall i :: 0 <= i < |docs| ==> !Named(docs[i], filename)
    decreases |docs|
  {
    if |docs| > 0 {
      var pre := docs[..|docs| - 1];
      DeleteAccounting(pre, filename);
      assert forall i :: 0 <= i < |pre| ==> pre[i] == docs[i];
    }
  }

  /** The distinct filenames among the non-empty metadatas. */
  function FileNames(docs: seq<Doc>): set<Scalar> {
    set i | 0 <= i < |docs| && Counted(docs[i].meta) :: FileKey(docs[i].meta)
  }

  lemma {:induction false} DistinctCard(s: seq<Scalar>)
    requires forall i, j :: 0 <= i < j < |s| ==> s[i] != s[j]
    ensures |set x | x in s| == |s|
    decreases |s|
  {
    if |s| > 0 {
      var pre := s[..|s| - 1];
      DistinctCard(pre);
      assert (set x | x in s) == (set x | x in pre) + {s[|s| - 1]};
      assert s[|s| - 1] !in (set x | x in pre);
    }
  }

  /** remaining_files is the number of files a document list would show. */
  lemma FileNamesAreGroups(docs: seq<Doc>)
    ensures |FileNames(docs)| == |Group(Metas(docs))|
  {
    var ms := Metas(docs);
    var g := Group(ms);
    var ks := Keys(g);
    forall k ensures k in FileNames(docs) <==> k in ks {
      GroupHasKey(ms, k);
      if k in FileNames(docs) {
        var i :| 0 <= i < |docs| && Counted(docs[i].meta) && FileKey(docs[i].meta) == k;
        assert InGroup(ms, k, i);
      }
      if HasKey(g, k) {
        var i :| InGroup(ms, k, i);
        assert docs[i].meta == ms[i];
      }
    }
    assert FileNames(docs) == set x | x in ks;
    DistinctCard(ks);
  }

  datatype DeleteInfo = DeleteInfo(deletedFilename: string, deletedChunks: nat,
                                   remainingFiles: nat, remainingChunks: nat)

  // ---------------------------------------------------------------------------
  // The engine

  datatype Status = Status(status: string, message: string)

  class Engine {
    /** Whether the embedding model and the chat model are set up. */
    var embeddingsReady: bool
    var llmReady: bool
    /** The loaded vector store, None when there is none. */
    var store: Option<seq<Doc>>

    constructor ()
      ensures !embeddingsReady && !llmReady && store == None
    {
      embeddingsReady := false;
      llmReady := false;
      store := None;
    }

    /** _load_existing_vectorstore: disk is the collection in the persist
        directory, None when that directory does not exist. */
    method LoadExisting(disk: Option<seq<Doc>>) returns (loaded: bool)
      modifies this
      ensures loaded <==> disk.Some? && embeddingsReady
      ensures store == (if loaded then disk else old(store))
      ensures embeddingsReady == old(embeddingsReady) && llmReady == old(llmReady)
    {
      if disk.Some? && embeddingsReady {
        store := disk;
        return true;
      }
      return false;
    }

    /** initialize: both models, then the stored collection if any. */
    method Initialize(disk: Option<seq<Doc>>)
      modifies this
      ensures embeddingsReady && llmReady
      ensures store == (if disk.Some? then disk else old(store))
    {
      embeddingsReady := true;
      llmReady := true;
      var _ := LoadExisting(disk);
    }

    /** create_vectorstore_from_chunks: the chunks are added to the loaded
        collection (loading it first if needed), or form a new one. */
    method CreateFromChunks(chunks: seq<string>, filename: string, fileId: string, uploadTime: string,
                            disk: Option<seq<Doc>>) returns (r: Result<CreateInfo, string>)
      modifies this
      ensures !old(embeddingsReady) ==> r == Err(NotInitialized) && store == old(store)
      ensures old(embeddingsReady) ==>
        var base := if old(store).Some? then old(store).value else disk.GetOr([]);
        && store == Some(base + Records(chunks, ChunkMetas(|chunks|, filename, fileId, uploadTime)))
        && r == Ok(CreateInfo(|chunks|, |store.value|, filename))
      ensures embeddingsReady == old(embeddingsReady) && llmReady == old(llmReady)
    {
      if !embeddingsReady {
        return Err(NotInitialized);
      }
      if store.None? {
        var _ := LoadExisting(disk);
      }
      var metas := ChunkMetas(|chunks|, filename, fileId, uploadTime);
      var added := Records(chunks, metas);
      if store.None? {
        assert disk.GetOr([]) + added == added;
        store := Some(added);
      } else {
        store := Some(store.value + added);
      }
      r := Ok(CreateInfo(|chunks|, |store.value|, filename));
    }

    /** search_documents: the retriever's documents for the query and k, or
        an error when no store is loaded. */
    function Search(query: string, topK: Option<int>, defaultTopK: int,
                    retriever: (string, int) -> seq<Doc>): (r: Result<seq<Doc>, string>)
      reads this
      ensures r.Err? <==> store.None?
      ensures r.Err? ==> r.error == StoreNotInitialized
      ensures r.Ok? ==> r.value == retriever(query, SearchK(topK, defaultTopK))
    {
      if store.None? then Err(StoreNotInitialized)
      else Ok(retriever(query, SearchK(topK, defaultTopK)))
    }

    /** generate_answer: with nothing retrieved, the fixed answer and no
        context; otherwise the model's answer over the joined documents. */
    function GenerateAnswer(question: string, topK: Option<int>, defaultTopK: int,
                            retriever: (string, int) -> seq<Doc>,
                            llm: (string, string) -> string): (r: Result<Answer, string>)
      reads this
      ensures r.Err? <==> store.None? || !llmReady
      ensures r.Err? ==> r.error == NotInitialized
      ensures r.Ok? ==>
        var docs := retriever(question, SearchK(topK, defaultTopK));
        && r.value.documents == docs
        && (|docs| == 0 ==> r.value == Answer(NoDocumentsAnswer, [], ""))
        && (|docs| > 0 ==> r.value.contextUsed == FormatDocuments(docs)
                           && r.value.answer == llm(r.value.contextUsed, question))
    {
      if store.None? || !llmReady then Err(NotInitialized)
      else
        var found := Search(question, topK, defaultTopK, retriever);
        var docs := found.value;
        if |docs| == 0 then Ok(Answer(NoDocumentsAnswer, [], ""))
        else
          var context := FormatDocuments(docs);
          Ok(Answer(llm(context, question), docs, context))
    }

    /** get_document_list, counting the chunks of each file in one pass. */
    method ListDocuments() returns (r: DocList)
      ensures r == DocumentList(store)
    {
      if store.None? || |store.value| == 0 {
        return DocList([], 0, 0);
      }
      var ms := Metas(store.value);
      var groups: OMap<Scalar, FileInfo> := [];
      var i := 0;
      while i < |ms|
        invariant 0 <= i <= |ms|
        invariant groups == Group(ms[..i])
      {
        var md := ms[i];
        assert ms[..i + 1][..i] == ms[..i];
        if Counted(md) {
          var fname := FileKey(md);
          var info := NewInfo(md);
          if HasKey(groups, fname) {
            info := Get(groups, fname).value;
          }
          info := info.(chunkCount := info.chunkCount + 1);
          assert info == Bumped(groups, md, fname);
          groups := Put(groups, fname, info);
        }
        i := i + 1;
      }
      assert ms[..|ms|] == ms;
      r := DocList(Values(groups), |groups|, |ms|);
    }

    /** delete_document_by_filename: the records whose filename matches are
        removed; with no store, or no match, nothing changes. */
    method DeleteByFilename(filename: string) returns (r: Result<DeleteInfo, string>)
      modifies this
      ensures old(store).None? ==> r == Err(DeleteFailed + StoreNotInitialized) && store == old(store)
      ensures old(store).Some? && CountNamed(old(store).value, filename) == 0 ==>
        r == Err(DeleteFailed + "ファイル '" + filename + "'は見つかりませんでした") && store == old(store)
      ensures old(store).Some? && CountNamed(old(store).value, filename) > 0 ==>
        var kept := Kept(old(store).value, filename);
        && store == Some(kept)
        && r == Ok(DeleteInfo(filename, CountNamed(old(store).value, filename), |FileNames(kept)|, |kept|))
      ensures embeddingsReady == old(embeddingsReady) && llmReady == old(llmReady)
    {
      if store.None? {
        return Err(DeleteFailed + StoreNotInitialized);
      }
      var docs := store.value;
      var deleted := CountNamed(docs, filename);
      if deleted == 0 {
        return Err(DeleteFailed + "ファイル '" + filename + "'は見つかりませんでした");
      }
      var kept := Kept(docs, filename);
      store := Some(kept);
      r := Ok(DeleteInfo(filename, deleted, |FileNames(kept)|, |kept|));
    }

    /** reset_vectorstore: failure is the reset's error, reported and not
        raised, with the store left loaded. */
    method Reset(resetError: Option<string>) returns (r: Status)
      modifies this
      ensures old(store).Some? && resetError.Some? ==>
        r == Status("error", ResetFailed + resetError.value) && store == old(store)
      ensures old(store).None? || resetError.None? ==>
        r == Status("success", ResetDone) && store == None
      ensures embeddingsReady == old(embeddingsReady) && llmReady == old(llmReady)
    {
      if store.Some? {
        if resetError.Some? {
          return Status("error", ResetFailed + resetError.value);
        }
        store := None;
      }
      r := Status("success", ResetDone);
    }
  }

  // ---------------------------------------------------------------------------
  // Properties across operations

  lemma {:induction false} ChunkGroup(n: nat, filename: string, fileId: string, uploadTime: string)
    requires n > 0
    ensures Group(ChunkMetas(n, filename, fileId, uploadTime))
            == [(Str(filename), FileInfo(Str(filename), Str(fileId), Str(uploadTime), n, Int(0)))]
    decreases n
  {
    var ms := ChunkMetas(n, filename, fileId, uploadTime);
    var m := ms[n - 1];
    assert "filename" in m;
    assert Counted(m);
    assert FileKey(m) == Str(filename);
    if n == 1 {
      assert ms[..0] == [];
    } else {
      assert ms[..n - 1] == ChunkMetas(n - 1, filename, fileId, uploadTime);
      ChunkGroup(n - 1, filename, fileId, uploadTime);
    }
  }

  /** Uploading a non-empty file into an empty store lists exactly that file,
      with all its chunks, its file id and upload time, and size 0 (the upload
      does not record one). */
  lemma UploadThenList(chunks: seq<string>, filename: string, fileId: string, uploadTime: string)
    requires |chunks| > 0
    ensures DocumentList(Some(Records(chunks, ChunkMetas(|chunks|, filename, fileId, uploadTime))))
            == DocList([FileInfo(Str(filename), Str(fileId), Str(uploadTime), |chunks|, Int(0))], 1, |chunks|)
  {
    var ms := ChunkMetas(|chunks|, filename, fileId, uploadTime);
    var docs := Records(chunks, ms);
    var info := FileInfo(Str(filename), Str(fileId), Str(uploadTime), |chunks|, Int(0));
    assert Metas(docs) == ms && |docs| == |chunks|;
    ChunkGroup(|chunks|, filename, fileId, uploadTime);
    assert Values([(Str(filename), info)]) == [info];
  }

  /** After a deletion no record of that filename is left, and the counts it
      reports add up to the store it started from. */
  lemma DeleteLeavesNone(docs: seq<Doc>, filename: string)
    ensures forall d :: d in Kept(docs, filename) ==> !Named(d, filename)
    ensures CountNamed(docs, filename) + |Kept(docs, filename)| == |docs|
    ensures |FileNames(Kept(docs, filename))| == DocumentList(Some(Kept(docs, filename))).totalFiles
  {
    DeleteAccounting(docs, filename);
    FileNamesAreGroups(Kept(docs, filename));
  }
}
