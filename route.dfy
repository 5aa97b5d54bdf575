/** The question-answering endpoint (`POST`), as a pure function.

    The handler validates the question, retrieves documents, renders them
    into a context, wraps context and question into a prompt and asks a
    text-generation service for the answer. Retrieval and generation are
    calls the handler cannot see into, so they are parameters that may fail;
    any failure, like an unreadable request body, becomes a 500 response. */
module Route {
  import opened Common
  import opened Embeddings

  /** The request body as `request.json()` sees it: unreadable, or an object
      whose `question` field is absent or a string. */
  datatype RequestBody = Malformed | Parsed(question: Option<string>)

  datatype ResponseBody =
    | ErrorBody(error: string)
    | AnswerBody(answer: string, sources: seq<SearchResult>)

  datatype Response = Response(status: int, body: ResponseBody)

  const QuestionRequired: string := "Question is required"
  const ProcessingFailed: string := "Failed to process your question"

  /** How one retrieved document appears in the context. */
  function RenderDocument(doc: SearchResult): (s: string)
    ensures |s| == |"Document: "| + |doc.title| + |"\nContent: "| + |doc.content|
    ensures s[..|"Document: "|] == "Document: "
    ensures s[|"Document: "|..|"Document: "| + |doc.title|] == doc.title
    ensures s[|"Document: "| + |doc.title|..|s| - |doc.content|] == "\nContent: "
    ensures s[|s| - |doc.content|..] == doc.content
  {
    "Document: " + doc.title + "\nContent: " + doc.content
  }

  const Separator: string := "\n\n"

  /** `docs.map(RenderDocument).join("\n\n")`. */
  function Context(docs: seq<SearchResult>): (c: string)
    ensures docs == [] ==> c == ""
    ensures |docs| == 1 ==> c == RenderDocument(docs[0])
  {
    if docs == [] then ""
    else if |docs| == 1 then RenderDocument(docs[0])
    else RenderDocument(docs[0]) + Separator + Context(docs[1..])
  }

  /** The context of two non-empty runs of documents is the two contexts
      joined by the separator: the documents appear in retrieval order. */
  lemma {:induction false} ContextAppend(a: seq<SearchResult>, b: seq<SearchResult>)
    requires a != [] && b != []
    ensures Context(a + b) == Context(a) + Separator + Context(b)
  {
    if |a| == 1 {
      assert (a + b)[1..] == b;
    } else {
      assert (a + b)[1..] == a[1..] + b;
      ContextAppend(a[1..], b);
    }
  }

  /** Document `i` is rendered after the context of the documents before it
      and before the context of the documents after it, with a separator
      exactly where there are neighbours on that side. */
  lemma {:induction false} ContextOrder(docs: seq<SearchResult>, i: nat)
    requires i < |docs|
    ensures Context(docs)
         == (if i == 0 then "" else Context(docs[..i]) + Separator)
          + RenderDocument(docs[i])
          + (if i == |docs| - 1 then "" else Separator + Context(docs[i + 1..]))
  {
    var before, at, after := docs[..i], [docs[i]], docs[i + 1..];
    assert docs == before + (at + after);
    if after != [] {
      ContextAppend(at, after);
    } else {
      assert at + after == at;
    }
    if before != [] {
      ContextAppend(before, at + after);
    } else {
      assert docs == at + after;
    }
  }

  const PromptHead: string :=
    "\n      You are a helpful assistant that answers questions based on the provided documents.\n      \n      Context from documents:\n      "
  const PromptMiddle: string := "\n      \n      "
  const QuestionLabel: string := "Question: "
  const PromptTail: string :=
    "\n      \n      Answer the question based only on the provided context. If the context doesn't contain relevant information to answer the question, say \"I don't have enough information to answer this question.\"\n    "

  /** The prompt sent to the model: the context right after the fixed
      instructions, then `Question: ` and the question verbatim, then the
      instruction to answer from the context only. */
  function Prompt(context: string, question: string): (p: string)
    ensures |p| == |PromptHead| + |context| + |PromptMiddle| + |QuestionLabel| + |question| + |PromptTail|
    ensures p[..|PromptHead|] == PromptHead
    ensures p[|PromptHead|..|PromptHead| + |context|] == context
    ensures p[|PromptHead| + |context|..|PromptHead| + |context| + |PromptMiddle|] == PromptMiddle
    ensures var q := |PromptHead| + |context| + |PromptMiddle|;
      p[q..q + |QuestionLabel| + |question|] == QuestionLabel + question
    ensures p[|p| - |PromptTail|..] == PromptTail
  {
    PromptHead + context + PromptMiddle + QuestionLabel + question + PromptTail
  }

  /** `if (!question)`: an absent or empty question. A question of blanks
      passes. */
  predicate MissingQuestion(body: RequestBody)
    requires body.Parsed?
  {
    body.question.None? || body.question.value == ""
  }

  /** `POST(request)`: 400 for a missing question, before anything is
      retrieved or generated; 200 with the generated answer and the
      retrieved documents unchanged; 500 when the body cannot be read or
      retrieval or generation fails. */
  function Post(body: RequestBody,
                search: string -> Option<seq<SearchResult>>,
                generate: string -> Option<string>): (r: Response)
    ensures r.status in {200, 400, 500}
    ensures r.status == 400 <==> body.Parsed? && MissingQuestion(body)
    ensures r.status == 400 ==> r.body == ErrorBody(QuestionRequired)
    ensures r.status == 500 ==> r.body == ErrorBody(ProcessingFailed)
    ensures r.status == 200 <==>
      && body.Parsed? && !MissingQuestion(body)
      && search(body.question.value).Some?
      && generate(Prompt(Context(search(body.question.value).value), body.question.value)).Some?
    ensures r.status == 200 ==>
      var q := body.question.value;
      var docs := search(q).value;
      r.body == AnswerBody(generate(Prompt(Context(docs), q)).value, docs)
  {
    match body
    case Malformed => Response(500, ErrorBody(ProcessingFailed))
    case Parsed(question) =>
      if question.None? || question.value == "" then Response(400, ErrorBody(QuestionRequired))
      else
        var q := question.value;
        match search(q)
        case None => Response(500, ErrorBody(ProcessingFailed))
        case Some(docs) =>
          match generate(Prompt(Context(docs), q))
          case None => Response(500, ErrorBody(ProcessingFailed))
          case Some(answer) => Response(200, AnswerBody(answer, docs))
  }

  /** A missing question is answered without consulting retrieval or
      generation: the response is the same whatever they would do. */
  lemma RejectionConsultsNoProvider(body: RequestBody,
                                    search1: string -> Option<seq<SearchResult>>, generate1: string -> Option<string>,
                                    search2: string -> Option<seq<SearchResult>>, generate2: string -> Option<string>)
    requires body.Parsed? && MissingQuestion(body)
    ensures Post(body, search1, generate1) == Post(body, search2, generate2) == Response(400, ErrorBody(QuestionRequired))
  {
  }

  /** Unlike the form in the user interface, the handler does not trim: a
      question of blanks is not rejected. */
  lemma BlankQuestionProceeds(question: string, search: string -> Option<seq<SearchResult>>,
                              generate: string -> Option<string>)
    requires question != [] && forall i :: 0 <= i < |question| ==> question[i] == ' '
    ensures Post(Parsed(Some(question)), search, generate).status != 400
  {
  }

  /** With retrieval served by the document store's search, a successful
      answer lists `min(3, |entries|)` sources, best first, each a stored
      entry's title and content paired with the score drawn for it, and no
      entry left out scores higher than any source. */
  lemma StoreBackedAnswer(store: DocumentStore, scores: seq<real>, question: string,
                          generate: string -> Option<string>)
    requires store.Valid() && |scores| == |store.entries|
    requires question != ""
    requires generate(Prompt(Context(store.SearchDocuments(question, scores)), question)).Some?
    ensures var hits := store.SearchDocuments(question, scores);
      var r := Post(Parsed(Some(question)), q => Some(hits), generate);
      && r.status == 200
      && r.body.sources == hits
      && |r.body.sources| == Min(TopK, |store.entries|)
      && NonIncreasing(r.body.sources)
      && (forall k :: 0 <= k < |hits| ==> exists i :: (0 <= i < |store.order|
           && hits[k] == SearchResult(store.entries[store.order[i]].title,
                                      store.entries[store.order[i]].content, scores[i])))
      && Outranks(hits, multiset(Score(store.Values(), scores)) - multiset(hits))
  {
    var hits := store.SearchDocuments(question, scores);
    var r := Post(Parsed(Some(question)), q => Some(hits), generate);
    assert r == Response(200, AnswerBody(generate(Prompt(Context(hits), question)).value, hits));
  }
}
