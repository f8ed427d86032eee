/** The knowledge-base chat endpoint: the unknown-knowledge-base guard, the
    choice of model client by name, retrieval and context assembly, the
    citation builder, and the events the synchronous iterator yields, one
    per token when streaming and one with the whole answer otherwise.

    The web framework, the search backend, the prompt template library and
    the model clients are collaborators: a `Backend` holds them as functions
    of what the endpoint passes to them. */
module KnowledgeBaseChat {
  import opened Wrappers
  import opened Text
  import opened Citations

  datatype Role = User | Assistant

  /** One turn of the conversation history. */
  datatype Turn = Turn(role: Role, content: string)

  /** The request body, with the request's own base URL. */
  datatype Request = Request(
    query: string,
    knowledgeBaseName: string,
    topK: int,
    scoreThreshold: real,
    history: seq<Turn>,
    stream: bool,
    modelName: string,
    localDocUrl: bool,
    baseUrl: string)

  /** The arguments of `search_docs`. */
  datatype SearchQuery = SearchQuery(query: string, knowledgeBaseName: string, topK: int, scoreThreshold: real)

  /** The variables the chain's prompt templates are filled with. */
  datatype PromptInputs = PromptInputs(context: string, question: string)

  /** The model clients the endpoint can bind. */
  datatype Provider = OpenAI | ChatGLM

  datatype Backend = Backend(
    kbExists: string -> bool,
    search: SearchQuery -> seq<Doc>,
    renderPrompt: (seq<Turn>, PromptInputs) -> string,
    runChain: (Provider, string, seq<Turn>, PromptInputs) -> string)

  /** The calls the endpoint makes on its collaborators, in order. */
  datatype Call =
    | LookupKb(name: string)
    | BuildModel(provider: Provider)
    | Search(q: SearchQuery)
    | RunChain(provider: Provider, inputs: PromptInputs)

  /** One JSON object of the event stream. */
  datatype Event = Event(uuid: string, answer: string, docs: seq<string>, reference: Reference, prompt: string)

  datatype ChatError = ModelUnbound

  datatype Response =
    | NotFound(code: int, msg: string)
    | EventStream(events: seq<Event>)
    | StreamFailed(error: ChatError)

  datatype Outcome = Outcome(response: Response, calls: seq<Call>)

  const NotFoundPrefix: string := "未找到知识库 "

  // ---------------------------------------------------------------------------
  // Model selection

  /** "gpt" is tested before "glm"; a name with neither binds no model. */
  function SelectModel(modelName: string): Option<Provider>
  {
    if Contains(modelName, "gpt") then Some(OpenAI)
    else if Contains(modelName, "glm") then Some(ChatGLM)
    else None
  }

  lemma SelectModelCases(modelName: string)
    ensures SelectModel(modelName) == Some(OpenAI) <==> Contains(modelName, "gpt")
    ensures SelectModel(modelName) == Some(ChatGLM) <==> !Contains(modelName, "gpt") && Contains(modelName, "glm")
    ensures SelectModel(modelName) == None <==> !Contains(modelName, "gpt") && !Contains(modelName, "glm")
  {
  }

  /** A name that holds both substrings gets the OpenAI client. */
  lemma GptWinsOverGlm(modelName: string, i: int, j: int)
    requires OccursAt(modelName, "gpt", i) && OccursAt(modelName, "glm", j)
    ensures SelectModel(modelName) == Some(OpenAI)
  {
  }

  // ---------------------------------------------------------------------------
  // Context

  function Contents(docs: seq<Doc>): (contents: seq<string>)
    ensures |contents| == |docs|
    ensures forall i :: 0 <= i < |docs| ==> contents[i] == docs[i].pageContent
  {
    seq(|docs|, i requires 0 <= i < |docs| => docs[i].pageContent)
  }

  /** `"\n".join(doc.page_content for doc in docs)`. */
  function Context(docs: seq<Doc>): string
  {
    Join(Contents(docs), "\n")
  }

  /** The context of no documents is empty, and splitting it gives one
      empty string, not the (empty) contents; otherwise the context is as
      long as the page contents plus one newline between each pair. */
  lemma ContextLength(docs: seq<Doc>)
    ensures |docs| == 0 ==> Context(docs) == "" && Split(Context(docs), '\n') == [""]
    ensures |docs| >= 1 ==> |Context(docs)| == TotalLength(Contents(docs)) + |docs| - 1
  {
    if |docs| >= 1 {
      JoinLength(Contents(docs), "\n");
    }
  }

  /** For any contents, newlines included: page content `i` sits in the
      context after the contents before it and one newline for each of
      them, and every content but the last is followed by a newline. */
  lemma ContextLayout(docs: seq<Doc>, i: nat)
    requires i < |docs|
    ensures var context, off := Context(docs), JoinOffset(Contents(docs), "\n", i);
      && off == TotalLength(Contents(docs)[..i]) + i
      && off + |docs[i].pageContent| <= |context|
      && context[off..off + |docs[i].pageContent|] == docs[i].pageContent
      && (i < |docs| - 1 ==>
            off + |docs[i].pageContent| < |context| && context[off + |docs[i].pageContent|] == '\n')
  {
    JoinAt(Contents(docs), "\n", i);
    var off := JoinOffset(Contents(docs), "\n", i);
    var n := |docs[i].pageContent|;
    if i < |docs| - 1 {
      assert Context(docs)[off + n..off + n + 1] == "\n";
      assert Context(docs)[off + n] == Context(docs)[off + n..off + n + 1][0];
    }
  }

  /** When no page content holds a newline, splitting the context on
      newlines gives the contents back in retrieval order. */
  lemma ContextSplits(docs: seq<Doc>)
    requires |docs| >= 1
    requires forall i :: 0 <= i < |docs| ==> '\n' !in docs[i].pageContent
    ensures Split(Context(docs), '\n') == Contents(docs)
  {
    SplitJoin(Contents(docs), '\n');
  }

  // ---------------------------------------------------------------------------
  // Events

  /** One event per token, all with the same uuid, docs, reference and prompt. */
  function StreamEvents(uuid: string, docs: seq<string>, reference: Reference, prompt: string, tokens: seq<string>): seq<Event>
  {
    seq(|tokens|, i requires 0 <= i < |tokens| => Event(uuid, tokens[i], docs, reference, prompt))
  }

  /** What the iterator yields for the tokens of the model's output. */
  function Emitted(stream: bool, uuid: string, docs: seq<string>, reference: Reference, prompt: string, tokens: seq<string>): seq<Event>
  {
    if stream then StreamEvents(uuid, docs, reference, prompt, tokens)
    else [Event(uuid, Concat(tokens), docs, reference, prompt)]
  }

  function Answers(events: seq<Event>): (answers: seq<string>)
    ensures |answers| == |events|
  {
    seq(|events|, i requires 0 <= i < |events| => events[i].answer)
  }

  /** Every event of a request carries the same uuid, docs, reference and
      prompt. */
  predicate SameEnvelope(events: seq<Event>, uuid: string, docs: seq<string>, reference: Reference, prompt: string)
  {
    forall i :: 0 <= i < |events| ==>
      events[i].uuid == uuid && events[i].docs == docs && events[i].reference == reference && events[i].prompt == prompt
  }

  /** The emission loop: in stream mode one event per token; otherwise the
      tokens are accumulated with `+=` and one event is yielded. */
  method EmitEvents(stream: bool, uuid: string, docs: seq<string>, reference: Reference, prompt: string, tokens: seq<string>)
    returns (events: seq<Event>)
    ensures events == Emitted(stream, uuid, docs, reference, prompt, tokens)
  {
    events := [];
    if stream {
      var i := 0;
      while i < |tokens|
        invariant 0 <= i <= |tokens|
        invariant events == StreamEvents(uuid, docs, reference, prompt, tokens[..i])
      {
        events := events + [Event(uuid, tokens[i], docs, reference, prompt)];
        i := i + 1;
      }
      assert tokens[..i] == tokens;
    } else {
      var answer := "";
      var i := 0;
      while i < |tokens|
        invariant 0 <= i <= |tokens|
        invariant answer == Concat(tokens[..i])
      {
        answer := answer + tokens[i];
        assert tokens[..i + 1][..i] == tokens[..i];
        i := i + 1;
      }
      assert tokens[..i] == tokens;
      events := [Event(uuid, answer, docs, reference, prompt)];
    }
  }

  /** Both modes put the same envelope on every event; streaming yields one
      event per token, in token order, the other mode exactly one. */
  lemma EmittedShape(stream: bool, uuid: string, docs: seq<string>, reference: Reference, prompt: string, tokens: seq<string>)
    ensures var events := Emitted(stream, uuid, docs, reference, prompt, tokens);
      && SameEnvelope(events, uuid, docs, reference, prompt)
      && |events| == (if stream then |tokens| else 1)
      && (stream ==> Answers(events) == tokens)
  {
    var events := Emitted(stream, uuid, docs, reference, prompt, tokens);
    if stream {
      assert Answers(events) == tokens;
    }
  }

  /** The streamed answers, concatenated, are the one non-streamed answer. */
  lemma StreamConcatIsBatchAnswer(uuid: string, docs: seq<string>, reference: Reference, prompt: string, tokens: seq<string>)
    ensures Concat(Answers(Emitted(true, uuid, docs, reference, prompt, tokens)))
         == Emitted(false, uuid, docs, reference, prompt, tokens)[0].answer
  {
    EmittedShape(true, uuid, docs, reference, prompt, tokens);
  }

  // ---------------------------------------------------------------------------
  // The endpoint

  function SearchOf(req: Request): SearchQuery
  {
    SearchQuery(req.query, req.knowledgeBaseName, req.topK, req.scoreThreshold)
  }

  /** The endpoint's outcome. The chain returns its answer as one string,
      and iterating a string yields its characters, so the tokens are the
      answer's characters. */
  function Respond(req: Request, backend: Backend, uuid: string): Outcome
  {
    var name := req.knowledgeBaseName;
    if !backend.kbExists(name) then
      Outcome(NotFound(404, NotFoundPrefix + name), [LookupKb(name)])
    else
      var q := SearchOf(req);
      match SelectModel(req.modelName)
      case None => Outcome(StreamFailed(ModelUnbound), [LookupKb(name), Search(q)])
      case Some(provider) =>
        var docs := backend.search(q);
        var inputs := PromptInputs(Context(docs), req.query);
        var prompt := backend.renderPrompt(req.history, inputs);
        var output := backend.runChain(provider, req.modelName, req.history, inputs);
        var events := Emitted(req.stream, uuid, CitationBlocks(docs, name, req.baseUrl, req.localDocUrl),
          GroupByFilename(docs), prompt, Chars(output));
        Outcome(EventStream(events), [LookupKb(name), BuildModel(provider), Search(q), RunChain(provider, inputs)])
  }

  /** The endpoint and its synchronous iterator, step by step. */
  method KnowledgeBaseChat(req: Request, backend: Backend, uuid: string) returns (outcome: Outcome)
    ensures outcome == Respond(req, backend, uuid)
  {
    var name := req.knowledgeBaseName;
    var calls := [LookupKb(name)];
    if !backend.kbExists(name) {
      return Outcome(NotFound(404, NotFoundPrefix + name), calls);
    }
    var model := SelectModel(req.modelName);
    if model.Some? {
      calls := calls + [BuildModel(model.value)];
    }
    var q := SearchOf(req);
    var docs := backend.search(q);
    calls := calls + [Search(q)];
    if model.None? {
      return Outcome(StreamFailed(ModelUnbound), calls);
    }
    var context := Context(docs);
    var inputs := PromptInputs(context, req.query);
    var prompt := backend.renderPrompt(req.history, inputs);
    var output := backend.runChain(model.value, req.modelName, req.history, inputs);
    calls := calls + [RunChain(model.value, inputs)];
    var sourceDocuments, reference := BuildCitations(docs, name, req.baseUrl, req.localDocUrl);
    var events := EmitEvents(req.stream, uuid, sourceDocuments, reference, prompt, Chars(output));
    outcome := Outcome(EventStream(events), calls);
  }

  // ---------------------------------------------------------------------------
  // Properties of the endpoint

  /** An unknown knowledge base gets a 404 whose message names it, and the
      endpoint makes no call beyond the lookup: no retrieval, no model, no
      stream. Whatever the collaborators and uuid, the outcome is the same. */
  lemma UnknownKnowledgeBase(req: Request, backend: Backend, uuid: string, other: Backend, otherUuid: string)
    requires !backend.kbExists(req.knowledgeBaseName)
    requires !other.kbExists(req.knowledgeBaseName)
    ensures var out := Respond(req, backend, uuid);
      && out.response == NotFound(404, out.response.msg)
      && Contains(out.response.msg, req.knowledgeBaseName)
      && out.calls == [LookupKb(req.knowledgeBaseName)]
      && Respond(req, other, otherUuid) == out
  {
    var msg := NotFoundPrefix + req.knowledgeBaseName;
    assert OccursAt(msg, req.knowledgeBaseName, |NotFoundPrefix|);
  }

  /** A model name with neither "gpt" nor "glm" fails the stream without a
      single event, after the documents have been searched and before any
      model is built or run. */
  lemma UnsupportedModel(req: Request, backend: Backend, uuid: string)
    requires backend.kbExists(req.knowledgeBaseName)
    requires !Contains(req.modelName, "gpt") && !Contains(req.modelName, "glm")
    ensures Respond(req, backend, uuid).response == StreamFailed(ModelUnbound)
    ensures Respond(req, backend, uuid).calls == [LookupKb(req.knowledgeBaseName), Search(SearchOf(req))]
  {
  }

  /** A served request: every event carries the same uuid, the citation
      blocks of the retrieved documents, their grouping by filename and the
      rendered prompt; streaming yields one event per character of the
      answer, otherwise one event holds the whole answer. */
  lemma ServedEvents(req: Request, backend: Backend, uuid: string, provider: Provider)
    requires backend.kbExists(req.knowledgeBaseName)
    requires SelectModel(req.modelName) == Some(provider)
    ensures var docs := backend.search(SearchOf(req));
      var inputs := PromptInputs(Context(docs), req.query);
      var output := backend.runChain(provider, req.modelName, req.history, inputs);
      var out := Respond(req, backend, uuid);
      && out.response.EventStream?
      && SameEnvelope(out.response.events, uuid,
           CitationBlocks(docs, req.knowledgeBaseName, req.baseUrl, req.localDocUrl),
           GroupByFilename(docs), backend.renderPrompt(req.history, inputs))
      && |out.response.events| == (if req.stream then |output| else 1)
      && Concat(Answers(out.response.events)) == output
  {
    var docs := backend.search(SearchOf(req));
    var inputs := PromptInputs(Context(docs), req.query);
    var output := backend.runChain(provider, req.modelName, req.history, inputs);
    var blocks := CitationBlocks(docs, req.knowledgeBaseName, req.baseUrl, req.localDocUrl);
    var prompt := backend.renderPrompt(req.history, inputs);
    var events := Emitted(req.stream, uuid, blocks, GroupByFilename(docs), prompt, Chars(output));
    EmittedShape(req.stream, uuid, blocks, GroupByFilename(docs), prompt, Chars(output));
    ConcatChars(output);
    if !req.stream {
      assert Answers(events) == [output];
      assert Answers(events)[..0] == [];
    }
  }

  /** Streaming or not, the same request yields the same answer text,
      docs, reference and prompt. */
  lemma StreamAndBatchAgree(req: Request, backend: Backend, uuid: string)
    requires backend.kbExists(req.knowledgeBaseName)
    requires SelectModel(req.modelName).Some?
    ensures var streamed := Respond(req.(stream := true), backend, uuid).response;
      var batch := Respond(req.(stream := false), backend, uuid).response;
      && streamed.EventStream? && batch.EventStream? && |batch.events| == 1
      && Concat(Answers(streamed.events)) == batch.events[0].answer
      && forall i :: 0 <= i < |streamed.events| ==>
           && streamed.events[i].uuid == batch.events[0].uuid
           && streamed.events[i].docs == batch.events[0].docs
           && streamed.events[i].reference == batch.events[0].reference
           && streamed.events[i].prompt == batch.events[0].prompt
  {
    var provider := SelectModel(req.modelName).value;
    ServedEvents(req.(stream := true), backend, uuid, provider);
    ServedEvents(req.(stream := false), backend, uuid, provider);
  }
}
