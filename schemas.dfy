/** The request and response models of backend/app/models/schemas.py, which
    backend/app/domains/pdf/schemas.py repeats field for field. Validation
    checks the declared constraints on the submitted values first and then
    runs the question validator; every failing field is reported, in
    declaration order. Values arrive already decoded; None stands for a field
    that is absent (or, for the optional fields, null). */
module Schemas {
  import opened Wrappers
  import opened Text
  import opened Metadata

  datatype Issue =
    | Missing(field: string)
    | TooShort(field: string)
    | TooLong(field: string)
    | Blank(field: string)
    | BelowMinimum(field: string)
    | AboveMaximum(field: string)

  const MinQuestion: nat := 1
  const MaxQuestion: nat := 1000
  const MinTopK: int := 1
  const MaxTopK: int := 10

  // ---------------------------------------------------------------------------
  // QuestionRequest

  datatype QuestionRequest = QuestionRequest(question: string, topK: Option<int>)

  /** The question field: required, 1 to 1000 characters as submitted, then
      rejected when blank after strip() and otherwise stored stripped. */
  function ValidateQuestion(raw: Option<string>): (r: Result<string, Issue>)
    ensures r.Ok? <==> raw.Some? && MinQuestion <= |raw.value| <= MaxQuestion && PyStrip(raw.value) != ""
    ensures r.Ok? ==> r.value == PyStrip(raw.value)
    ensures raw.None? ==> r == Err(Missing("question"))
    ensures raw.Some? && PyStrip(raw.value) == "" && |raw.value| <= MaxQuestion ==> r.Err?
  {
    if raw.None? then Err(Missing("question"))
    else if |raw.value| < MinQuestion then Err(TooShort("question"))
    else if |raw.value| > MaxQuestion then Err(TooLong("question"))
    else if PyStrip(raw.value) == "" then Err(Blank("question"))
    else Ok(PyStrip(raw.value))
  }

  /** The top_k field: optional, and when given an integer in 1..10. */
  function ValidateTopK(raw: Option<int>): (r: Result<Option<int>, Issue>)
    ensures r.Ok? <==> raw.None? || MinTopK <= raw.value <= MaxTopK
    ensures r.Ok? ==> r.value == raw
  {
    if raw.None? then Ok(None)
    else if raw.value < MinTopK then Err(BelowMinimum("top_k"))
    else if raw.value > MaxTopK then Err(AboveMaximum("top_k"))
    else Ok(raw)
  }

  /** The issues of a list of field results, in order. */
  function IssuesOf(q: Result<string, Issue>, k: Result<Option<int>, Issue>): (r: seq<Issue>)
    ensures |r| == 0 <==> q.Ok? && k.Ok?
  {
    (if q.Err? then [q.error] else []) + (if k.Err? then [k.error] else [])
  }

  function ParseQuestionRequest(question: Option<string>, topK: Option<int>): (r: Result<QuestionRequest, seq<Issue>>)
    ensures r.Ok? <==> ValidateQuestion(question).Ok? && ValidateTopK(topK).Ok?
    ensures r.Ok? ==> r.value == QuestionRequest(PyStrip(question.value), topK)
    ensures r.Err? ==> |r.error| > 0
  {
    var q := ValidateQuestion(question);
    var k := ValidateTopK(topK);
    if q.Ok? && k.Ok? then Ok(QuestionRequest(q.value, k.value)) else Err(IssuesOf(q, k))
  }

  /** What an accepted request holds: a question of 1 to 1000 characters with
      no whitespace at either end, and a top_k absent or within 1..10. */
  lemma AcceptedRequest(question: Option<string>, topK: Option<int>)
    requires ParseQuestionRequest(question, topK).Ok?
    ensures var req := ParseQuestionRequest(question, topK).value;
      && MinQuestion <= |req.question| <= MaxQuestion
      && !IsPySpace(req.question[0]) && !IsPySpace(req.question[|req.question| - 1])
      && (req.topK.None? || MinTopK <= req.topK.value <= MaxTopK)
  {
    var r := PyStrip(question.value);
    assert ValidateQuestion(question).Ok? && ValidateTopK(topK).Ok?;
    assert ParseQuestionRequest(question, topK).value == QuestionRequest(r, topK);
    PyStripShape(question.value);
  }

  /** A question that is only whitespace is refused, whatever its length. */
  lemma BlankRejected(question: string, topK: Option<int>)
    requires All(question, IsPySpace)
    ensures ParseQuestionRequest(Some(question), topK).Err?
  {
    StripShape(question, IsPySpace);
  }

  /** Validating an accepted request's question again accepts it unchanged. */
  lemma RevalidateAccepted(question: Option<string>, topK: Option<int>)
    requires ParseQuestionRequest(question, topK).Ok?
    ensures var req := ParseQuestionRequest(question, topK).value;
      ParseQuestionRequest(Some(req.question), req.topK) == Ok(req)
  {
    StripIdempotent(question.value, IsPySpace);
  }

  // ---------------------------------------------------------------------------
  // Response models

  /** The name of a required field, listed when the field is absent. */
  function Absent(name: string, present: bool): (r: seq<string>)
    ensures present <==> r == []
    ensures forall n :: n in r <==> n == name && !present
  {
    if present then [] else [name]
  }

  datatype DocumentInfo = DocumentInfo(content: string, metadata: Meta)

  /** content is required; metadata defaults to an empty map. */
  function MakeDocumentInfo(content: Option<string>, metadata: Option<Meta>): (r: Result<DocumentInfo, seq<string>>)
    ensures r.Ok? <==> content.Some?
    ensures r.Ok? ==> r.value.content == content.value && r.value.metadata == metadata.GetOr(map[])
    ensures r.Err? ==> r.error == ["content"]
  {
    if content.None? then Err(["content"]) else Ok(DocumentInfo(content.value, metadata.GetOr(map[])))
  }

  datatype SearchResponse = SearchResponse(documents: seq<DocumentInfo>, query: string, totalFound: int)

  function MakeSearchResponse(documents: Option<seq<DocumentInfo>>, query: Option<string>, totalFound: Option<int>)
    : (r: Result<SearchResponse, seq<string>>)
    ensures r.Ok? <==> documents.Some? && query.Some? && totalFound.Some?
    ensures r.Ok? ==> r.value == SearchResponse(documents.value, query.value, totalFound.value)
    ensures r.Err? ==> forall n :: n in r.error <==>
      (n == "documents" && documents.None?) || (n == "query" && query.None?) || (n == "total_found" && totalFound.None?)
  {
    var missing := Absent("documents", documents.Some?)
                   + Absent("query", query.Some?)
                   + Absent("total_found", totalFound.Some?);
    if |missing| == 0 then Ok(SearchResponse(documents.value, query.value, totalFound.value)) else Err(missing)
  }

  datatype AnswerResponse = AnswerResponse(answer: string, question: string, documents: seq<DocumentInfo>,
                                           contextUsed: string)

  function MakeAnswerResponse(answer: Option<string>, question: Option<string>,
                              documents: Option<seq<DocumentInfo>>, contextUsed: Option<string>)
    : (r: Result<AnswerResponse, seq<string>>)
    ensures r.Ok? <==> answer.Some? && question.Some? && documents.Some? && contextUsed.Some?
    ensures r.Ok? ==> r.value == AnswerResponse(answer.value, question.value, documents.value, contextUsed.value)
    ensures r.Err? ==> forall n :: n in r.error <==>
      (n == "answer" && answer.None?) || (n == "question" && question.None?)
      || (n == "documents" && documents.None?) || (n == "context_used" && contextUsed.None?)
  {
    var missing := Absent("answer", answer.Some?)
                   + Absent("question", question.Some?)
                   + Absent("documents", documents.Some?)
                   + Absent("context_used", contextUsed.Some?);
    if |missing| == 0 then Ok(AnswerResponse(answer.value, question.value, documents.value, contextUsed.value))
    else Err(missing)
  }

  datatype UploadResponse = UploadResponse(status: string, message: string, fileInfo: Option<Meta>,
                                           vectorstoreInfo: Option<Meta>)

  /** status and message are required; file_info and vectorstore_info
      default to None. */
  function MakeUploadResponse(status: Option<string>, message: Option<string>,
                              fileInfo: Option<Meta>, vectorstoreInfo: Option<Meta>)
    : (r: Result<UploadResponse, seq<string>>)
    ensures r.Ok? <==> status.Some? && message.Some?
    ensures r.Ok? ==> r.value == UploadResponse(status.value, message.value, fileInfo, vectorstoreInfo)
    ensures r.Err? ==> forall n :: n in r.error <==>
      (n == "status" && status.None?) || (n == "message" && message.None?)
  {
    var missing := Absent("status", status.Some?) + Absent("message", message.Some?);
    if |missing| == 0 then Ok(UploadResponse(status.value, message.value, fileInfo, vectorstoreInfo))
    else Err(missing)
  }

  datatype SystemInfoResponse = SystemInfoResponse(status: string, embeddingModel: string, llmModel: string,
                                                   vectorstoreReady: bool, documentCount: Option<int>,
                                                   collectionId: Option<string>)

  /** status, embedding_model, llm_model and vectorstore_ready are required;
      document_count and collection_id default to None. */
  function MakeSystemInfo(status: Option<string>, embeddingModel: Option<string>, llmModel: Option<string>,
                          vectorstoreReady: Option<bool>, documentCount: Option<int>,
                          collectionId: Option<string>)
    : (r: Result<SystemInfoResponse, seq<string>>)
    ensures r.Ok? <==> status.Some? && embeddingModel.Some? && llmModel.Some? && vectorstoreReady.Some?
    ensures r.Ok? ==> r.value == SystemInfoResponse(status.value, embeddingModel.value, llmModel.value,
                                                    vectorstoreReady.value, documentCount, collectionId)
    ensures r.Err? ==> forall n :: n in r.error <==>
      (n == "status" && status.None?) || (n == "embedding_model" && embeddingModel.None?)
      || (n == "llm_model" && llmModel.None?) || (n == "vectorstore_ready" && vectorstoreReady.None?)
  {
    var missing := Absent("status", status.Some?)
                   + Absent("embedding_model", embeddingModel.Some?)
                   + Absent("llm_model", llmModel.Some?)
                   + Absent("vectorstore_ready", vectorstoreReady.Some?);
    if |missing| == 0 then
      Ok(SystemInfoResponse(status.value, embeddingModel.value, llmModel.value, vectorstoreReady.value,
                            documentCount, collectionId))
    else Err(missing)
  }
}
