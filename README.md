# Knowledge-base chat endpoint

A Dafny model of the knowledge-base chat endpoint in
`server/chat/knowledge_base_chat.py`. The endpoint answers a question with
passages retrieved from a named knowledge base. It does three things:

- It returns a 404 response when the knowledge base does not exist.
- It binds an OpenAI or ChatGLM client by testing the model name for "gpt" and then for "glm".
- It retrieves documents, joins their contents with newlines into the prompt context, and runs the chain.

The synchronous iterator, which is the one the endpoint returns, then builds a
numbered citation block per document (`source_documents`). It also groups
`[content, similarity]` pairs by file name into `reference_list`, a
`defaultdict(list)` frozen into an insertion-ordered dict. Finally it yields
JSON events: one per token when `stream` is set, and otherwise one event with
the accumulated answer.

Files:

- `wrappers.dfy` (module `Wrappers`): the `Option` datatype, used for the bound model client and for the number read back from a citation label.
- `text.dfy` (module `Text`): `str.join` and `str.split`, `+=` accumulation, the tail of `os.path.split`, the `in` substring test, and `str()` of an integer.
- `urlencode.dfy` (module `UrlEncoding`): `quote_plus` (UTF-8 bytes as upper-case `%XX`, space as `+`) and the two-parameter `urlencode` of the download link.
- `citations.dfy` (module `Citations`): documents, citation blocks and links, and the grouping by file name. The defaultdict is a class, `ReferenceList`, whose `Append` updates it in place. The citation loop is the method `BuildCitations`, proved against the functions `CitationBlocks` and `GroupByFilename`.
- `chat.dfy` (module `KnowledgeBaseChat`): model selection, the context, the event emission loop `EmitEvents`, and the endpoint as the method `KnowledgeBaseChat`. That method is proved against the function `Respond`.

The collaborators are fields of a `Backend` value. Each is a function of what
the endpoint passes to it:

- the knowledge-base lookup;
- `search_docs`;
- the prompt rendering `prep_prompts(...)[0][0].to_string()`;
- the chain run.

The uuid is a parameter. The outcome records the calls made on the
collaborators, in order. This makes "no retrieval and no model" a statement
about the model, not only about the response.

Three behaviours of the code are easy to misread:

- Streaming is per character, not per model token. `chain.run` returns the answer as one string, and the stream loop iterates over that string. So `Respond` passes `Chars(output)` as the tokens. `EmitEvents` itself works on any sequence of token strings.
- A model name that contains neither "gpt" nor "glm" does not fail before any work is done. `search_docs` still runs. Building the chain then fails on the unbound `model`, inside a stream that has already started. `Respond` gives `StreamFailed(ModelUnbound)` after the `Search` call and yields no event.
- The documents keep the order in which the search returns them. Ranking belongs to the search backend.

## Model

| member | source | states |
|---|---|---|
| Text.LastSegment | server/chat/knowledge_base_chat.py:185 | defines the file name as `os.path.split(source)[-1]`: the characters after the last '/' (its properties are in `Text.LastSegmentIsTail`) |
| Text.Join | server/chat/knowledge_base_chat.py:165 | defines `sep.join(parts)`: "" for no parts, the part itself for one part, the parts with the separator between each pair otherwise |
| Text.Concat | server/chat/knowledge_base_chat.py:207-209 | defines the value of `answer` after `answer += token` over the tokens, starting from "" |
| Text.Chars | server/chat/knowledge_base_chat.py:198 | defines what iterating the string returned by `chain.run` gives: one one-character string per character, in order |
| Text.IntToString | server/chat/knowledge_base_chat.py:191 | defines `str()` of the integer similarity: decimal digits, with a leading '-' for a negative number |
| UrlEncoding.UrlEncode | server/chat/knowledge_base_chat.py:189 | defines `urlencode({"knowledge_base_name": kb, "file_name": filename})`: the two `key=quote_plus(value)` pairs joined by '&', in dict order |
| Citations.Link | server/chat/knowledge_base_chat.py:186-190 | defines the citation link: `file://` plus the source path when `local_doc_url` is set, otherwise the base URL, `knowledge_base/download_doc?` and the encoded query |
| Citations.CitationBlock | server/chat/knowledge_base_chat.py:191 | defines the f-string of one citation: the label `出处 [inum+1]`, the file name and link, the page content and the similarity `1100 - score` |
| Citations.CitationBlocks | server/chat/knowledge_base_chat.py:184-194 | defines `source_documents` after the loop: the citation block of each document, numbered by its rank |
| Citations.AddEntry | server/chat/knowledge_base_chat.py:193 | defines `reference_list[filename].append(entry)` on the dict: a present key's list grows by the entry, a missing key is added last with a one-entry list |
| Citations.GroupByFilename | server/chat/knowledge_base_chat.py:183-195 | defines `dict(reference_list)` after the loop: `AddEntry` applied to each document's file name and `[content, similarity]` entry, in rank order, starting from the empty dict |
| KnowledgeBaseChat.SelectModel | server/chat/knowledge_base_chat.py:145-163 | defines the client binding: OpenAI when the name contains "gpt", else ChatGLM when it contains "glm", else no model |
| KnowledgeBaseChat.Context | server/chat/knowledge_base_chat.py:165 | defines the context as the page contents joined with "\n", in retrieval order |
| KnowledgeBaseChat.Emitted | server/chat/knowledge_base_chat.py:197-215 | defines the yielded events: one per token carrying that token when `stream` is set, otherwise one carrying the accumulated answer; every event carries the same uuid, docs, reference and prompt |
| KnowledgeBaseChat.Respond | server/chat/knowledge_base_chat.py:47-217 | defines the endpoint's outcome and calls: a 404 after the lookup for an unknown knowledge base; a failed stream after the search for an unbound model; otherwise the lookup, model, search and chain calls and the events built from the search's documents |
| Citations.BuildCitations | server/chat/knowledge_base_chat.py:182-195 | the loop leaves `source_documents` equal to the citation blocks of the documents in rank order, and the frozen `reference_list` equal to the grouping of the documents by file name |
| Citations.ReferenceList.constructor | server/chat/knowledge_base_chat.py:183 | a new defaultdict is empty: no keys, no groups |
| Citations.ReferenceList.Append | server/chat/knowledge_base_chat.py:193 | appending to a missing key adds the key at the end of the key order with a one-entry list; appending to a present key extends its list only; a well-formed dict stays well-formed |
| Citations.CitationBlocksAt | server/chat/knowledge_base_chat.py:184-194 | `source_documents` has exactly one block per retrieved document, and block i is built from document i |
| Citations.CitationNumbered | server/chat/knowledge_base_chat.py:191 | block i opens with the label `出处 [i+1]`, and reading the number back from the block gives i+1 |
| Citations.LabelNumber | server/chat/knowledge_base_chat.py:191 | the citation number is read back from any text that a label opens |
| Citations.LinkShape | server/chat/knowledge_base_chat.py:186-190 | with `local_doc_url` the link is `file://` followed by the source path; otherwise it starts with the base URL and `knowledge_base/download_doc?`, and its query parses back to exactly `knowledge_base_name` and `file_name` with the escaped knowledge-base name and file name |
| Citations.GroupByFilenameWellFormed | server/chat/knowledge_base_chat.py:193-195 | in the frozen reference every key is listed once, the listed keys are exactly the dict's keys, and no key maps to an empty list |
| Citations.GroupKeysAreFilenames | server/chat/knowledge_base_chat.py:185-193 | a name is a key of the reference if and only if it is the file name of some retrieved document |
| Citations.GroupKeysInFirstSeenOrder | server/chat/knowledge_base_chat.py:193-195 | the reference's keys are the distinct file names in the order each was first retrieved |
| Citations.DistinctProps | server/chat/knowledge_base_chat.py:193-195 | the first-seen order lists each file name once and no other name, has at most as many keys as documents, and has exactly one key per document when the file names are distinct |
| Citations.GroupContents | server/chat/knowledge_base_chat.py:193 | each key's list holds the `[content, similarity]` entries of exactly the documents with that file name, in retrieval order; a name that is not a key has no such documents |
| Citations.EntryCountIsDocCount | server/chat/knowledge_base_chat.py:193 | the list lengths over all keys add up to the number of retrieved documents |
| Text.LastSegmentIsTail | server/chat/knowledge_base_chat.py:185 | the file name is the suffix of the source path after its last '/', contains no '/', and is all of the path when the path has no '/' |
| Text.DigitsValueOfNatToString | server/chat/knowledge_base_chat.py:191 | the decimal text of a number reads back as that number |
| Text.IntToStringReadBack | server/chat/knowledge_base_chat.py:191 | `str()` of the similarity opens with '-' exactly when it is negative, and the digits after the sign read back as its magnitude |
| Text.Contains | server/chat/knowledge_base_chat.py:145 | the `in` test holds if and only if the substring occurs at some index of the name |
| Text.SplitJoin | server/chat/knowledge_base_chat.py:165 | for any one-character separator (the newline of the context, and '&' and '=' of the query string), splitting a join of one or more parts gives the parts back when none of them holds the separator; a join of no parts is "", which splits to `[""]` |
| Text.JoinLength | server/chat/knowledge_base_chat.py:165 | a join is as long as its parts plus one separator between each pair |
| Text.JoinAt | server/chat/knowledge_base_chat.py:165 | in `sep.join(parts)` every part sits at the offset given by the parts before it plus one separator each, and every part but the last is followed by the separator |
| Text.ConcatAppend | server/chat/knowledge_base_chat.py:207-209 | accumulating two runs of tokens one after the other gives the concatenation of the two accumulations |
| Text.ConcatChars | server/chat/knowledge_base_chat.py:180-209 | accumulating the characters of the chain's answer string, one per loop step, rebuilds the answer |
| UrlEncoding.QuotePlus | server/chat/knowledge_base_chat.py:189 | an escaped value consists only of unreserved characters, '+' and '%', so it never contains the '&' or '=' that delimit the query |
| UrlEncoding.QuotePlusUnreserved | server/chat/knowledge_base_chat.py:189 | a value made only of letters, digits and `_.-~` is left unchanged |
| UrlEncoding.ParseUrlEncode | server/chat/knowledge_base_chat.py:189 | the encoded query splits into exactly two parameters, `knowledge_base_name` then `file_name`, whose values are the escaped knowledge-base name and file name |
| KnowledgeBaseChat.SelectModelCases | server/chat/knowledge_base_chat.py:145-163 | the OpenAI client is bound if and only if the name contains "gpt"; ChatGLM if and only if it contains "glm" and not "gpt"; no model if and only if it contains neither |
| KnowledgeBaseChat.GptWinsOverGlm | server/chat/knowledge_base_chat.py:145-155 | a name that contains both "gpt" and "glm" binds the OpenAI client |
| KnowledgeBaseChat.ContextLength | server/chat/knowledge_base_chat.py:165 | the context of no documents (every hit filtered out by `score_threshold`) is "", which splits on newlines to `[""]`; otherwise its length is the page contents' lengths plus one newline between each pair, whatever the contents hold |
| KnowledgeBaseChat.ContextLayout | server/chat/knowledge_base_chat.py:165 | for any contents, newlines included: page content i sits in the context at offset (lengths of contents 0..i-1) + i, and every content but the last is followed by a newline |
| KnowledgeBaseChat.ContextSplits | server/chat/knowledge_base_chat.py:165 | for one or more documents whose page contents hold no newline, splitting the context on newlines gives back the contents in retrieval order; with no documents the context is "" and splits to `[""]` (see `KnowledgeBaseChat.ContextLength`), and with newlines in the contents the split cannot recover them, so the layout row states what holds instead |
| KnowledgeBaseChat.EmitEvents | server/chat/knowledge_base_chat.py:196-215 | the emission loop yields one event per token when streaming, and one event with the `+=` accumulation of all tokens otherwise |
| KnowledgeBaseChat.EmittedShape | server/chat/knowledge_base_chat.py:197-215 | every event carries the same uuid, docs, reference and prompt; streaming yields as many events as tokens, with the answers being the tokens in order; otherwise exactly one event is yielded |
| KnowledgeBaseChat.StreamConcatIsBatchAnswer | server/chat/knowledge_base_chat.py:197-215 | the streamed answers, concatenated, equal the answer of the single non-streamed event |
| KnowledgeBaseChat.KnowledgeBaseChat | server/chat/knowledge_base_chat.py:47-217 | the endpoint, run step by step with the citation and emission loops, gives the outcome and call sequence of `Respond` |
| KnowledgeBaseChat.UnknownKnowledgeBase | server/chat/knowledge_base_chat.py:47-49 | an unknown knowledge base gives code 404 with a message that names it, and only the lookup is called: no search, no model, no chain, no stream; the outcome does not depend on the other collaborators or the uuid |
| KnowledgeBaseChat.UnsupportedModel | server/chat/knowledge_base_chat.py:145-174 | a name with neither "gpt" nor "glm" fails the stream with no event, after the documents are searched and before any model is built or run |
| KnowledgeBaseChat.ServedEvents | server/chat/knowledge_base_chat.py:164-215 | a served request yields events that all carry the uuid, the citation blocks and the grouping of the retrieved documents, and the rendered prompt; there is one event per character of the chain's answer when streaming and one otherwise; the answers concatenate to the chain's answer |
| KnowledgeBaseChat.StreamAndBatchAgree | server/chat/knowledge_base_chat.py:197-215 | for the same request, the concatenated streamed answers equal the one non-streamed answer, and every streamed event has that event's uuid, docs, reference and prompt |

## Left out

- The asynchronous iterator `knowledge_base_chat_iterator` (lines 53-137) is not modelled. Its point is the concurrency between a background task and a callback iterator. The endpoint does not return it, and its citation logic is the same as the synchronous one's.
- `sigmoid` (lines 27-28) is not modelled: it uses numpy floating point and is never called.
- Scores are integers. The citation text prints the float `1100 - score`, and the reference prints `str(int(1100 - score))`. Both are `str()` of the integer `1100 - score` in the model. Float formatting and truncation toward zero are not modelled.
- FastAPI plumbing is left out: `Body` defaults and validation (including the 0..1100 bound on `score_threshold`), `Request`, `StreamingResponse`, the `BaseResponse` envelope, and the `json.dumps` encoding of events. The model keeps each event's fields and the 404 code and message.
- `KBServiceFactory`, `search_docs`, the prompt templates with `ChatPromptTemplate` and `prep_prompts`, and `LLMChain` with `ChatOpenAI` and `ChatChatGLM` are external. They are functions held in `Backend`. Client settings and credential lookups in `llm_model_dict` are not modelled; only which client is bound is. So a name that contains "gpt" or "glm" but is not a key of `llm_model_dict` raises `KeyError` at knowledge_base_chat.py:150 or :160, inside the stream and before `search_docs` runs; `Respond` serves events for such a name instead. `History.from_data` is replaced by the `Turn` datatype.
- Errors raised inside the collaborators, such as provider or retrieval failures, are not modelled: the collaborators are total functions.
- `uuid.uuid1` is a parameter of the endpoint.
- `os.path.split` is modelled with '/' as the only separator, as on POSIX.
- Dafny characters are Unicode scalar values. Lone surrogates, which would make `quote_plus` raise, cannot occur in the model.
