/**
  The retrieval-augmented core of the FAQ service: document ingestion
  (`ingest_docs`) and answer assembly after retrieval (`ask_llm`).

  The embedding model, the vector index client, the language model, the PDF
  loader and the text splitter are foreign calls; they are parameters here,
  each returning `Ok(value)` or `Err(message)` where the Python code raises.
 */
module Rag {
  import opened Results

  // ---------------------------------------------------------------------
  // Retrieval results and external services
  // ---------------------------------------------------------------------

  type Vector = seq<real>

  /** One search hit: the payload's optional `page_content` and optional `metadata["source"]`. */
  datatype Hit = Hit(pageContent: Option<string>, source: Option<string>)

  /** The three services `ask_llm` calls, in the order it calls them. */
  datatype Services = Services(
    embed: string -> Outcome<Vector>,                      // embeddings.embed_query(question)
    search: (string, Vector, nat) -> Outcome<seq<Hit>>,    // client.search(collection, vector, limit)
    generate: (string, string) -> Outcome<string>          // the prompt chain, given (context, question)
  )

  const Collection := "faq_collection"
  const Limit := 3
  const Separator := "\n\n"
  const NotFoundMessage := "Я не нашел информации в документах. Попробуйте загрузить базу знаний."
  const ErrorPrefix := "Ошибка при генерации: "

  /** What `ask_llm` returns; the source list is built from a Python set, so only its elements matter. */
  datatype LlmReply = LlmReply(answer: string, sources: set<string>)

  // ---------------------------------------------------------------------
  // Specification of ask_llm
  // ---------------------------------------------------------------------

  /** `hit.payload.get("page_content", "")`. */
  function PageText(h: Hit): (r: string)
    ensures h.pageContent.Some? ==> r == h.pageContent.value
    ensures h.pageContent.None? ==> r == ""
  {
    h.pageContent.GetOr("")
  }

  /** The context block: a left fold over the hits in rank order, each text followed by a blank line. */
  function Context(hits: seq<Hit>): (r: string)
    ensures |r| >= 2 * |hits|
  {
    if hits == [] then ""
    else Context(hits[..|hits| - 1]) + PageText(hits[|hits| - 1]) + Separator
  }

  /** The set the loop adds each present `metadata["source"]` to. */
  function SourceSet(hits: seq<Hit>): (r: set<string>)
    ensures |r| <= |hits|
  {
    if hits == [] then {}
    else
      var last := hits[|hits| - 1];
      SourceSet(hits[..|hits| - 1]) + (if last.source.Some? then {last.source.value} else {})
  }

  /** The degraded reply for an exception with text `msg`. */
  function Failure(msg: string): LlmReply {
    LlmReply(ErrorPrefix + msg, {})
  }

  /** The reply of `ask_llm(question)` given the behaviour of the three services. */
  function Answer(question: string, svc: Services): (r: LlmReply)
    ensures r.sources != {} ==>
      && svc.embed(question).Ok?
      && var found := svc.search(Collection, svc.embed(question).value, Limit);
      && found.Ok? && found.value != []
      && svc.generate(Context(found.value), question).Ok?
      && r == LlmReply(svc.generate(Context(found.value), question).value, SourceSet(found.value))
  {
    match svc.embed(question)
    case Err(m) => Failure(m)
    case Ok(v) =>
      match svc.search(Collection, v, Limit)
      case Err(m) => Failure(m)
      case Ok(hits) =>
        if hits == [] then LlmReply(NotFoundMessage, {})
        else
          match svc.generate(Context(hits), question)
          case Err(m) => Failure(m)
          case Ok(text) => LlmReply(text, SourceSet(hits))
  }

  /** Every element once, in some order. */
  predicate Distinct(xs: seq<string>) {
    forall i, j :: 0 <= i < j < |xs| ==> xs[i] != xs[j]
  }

  // ---------------------------------------------------------------------
  // ask_llm
  // ---------------------------------------------------------------------

  /** `list(names)`: the elements of a set, each once, in an unspecified order. */
  method ListOf(names: set<string>) returns (list: seq<string>)
    ensures Distinct(list)
    ensures forall x :: x in list <==> x in names
    ensures |list| == |names|
  {
    list := [];
    var rest := names;
    while rest != {}
      invariant rest <= names
      invariant Distinct(list)
      invariant forall x :: x in list <==> x in names - rest
      invariant |list| + |rest| == |names|
      decreases |rest|
    {
      var x :| x in rest;
      assert x !in list;
      list := list + [x];
      rest := rest - {x};
    }
  }

  /**
    `ask_llm(question)`: embed, search `faq_collection` for 3 hits, fold the
    hits into a context and a source set, then generate. Every failure becomes
    a diagnostic answer; the method never fails.
   */
  method AskLlm(question: string, svc: Services) returns (answer: string, sources: seq<string>)
    ensures answer == Answer(question, svc).answer
    ensures Distinct(sources)
    ensures forall s :: s in sources <==> s in Answer(question, svc).sources
  {
    var embedded := svc.embed(question);
    if embedded.Err? {
      return ErrorPrefix + embedded.msg, [];
    }
    var found := svc.search(Collection, embedded.value, Limit);
    if found.Err? {
      return ErrorPrefix + found.msg, [];
    }
    var hits := found.value;
    if |hits| == 0 {
      return NotFoundMessage, [];
    }

    var context := "";
    var names: set<string> := {};
    for i := 0 to |hits|
      invariant context == Context(hits[..i])
      invariant names == SourceSet(hits[..i])
    {
      var hit := hits[i];
      assert hits[..i + 1][..i] == hits[..i];
      context := context + PageText(hit) + Separator;
      if hit.source.Some? {
        names := names + {hit.source.value};
      }
    }
    assert hits[..|hits|] == hits;

    var generated := svc.generate(context, question);
    if generated.Err? {
      return ErrorPrefix + generated.msg, [];
    }
    answer := generated.value;
    sources := ListOf(names);
  }

  // ---------------------------------------------------------------------
  // Properties of ask_llm
  // ---------------------------------------------------------------------

  /** Folding two runs of hits is folding each and concatenating. */
  lemma {:induction false} ContextAppend(a: seq<Hit>, b: seq<Hit>)
    ensures Context(a + b) == Context(a) + Context(b)
  {
    if b == [] {
      assert a + b == a;
    } else {
      var n := |b| - 1;
      assert (a + b)[..|a + b| - 1] == a + b[..n];
      assert (a + b)[|a + b| - 1] == b[n];
      ContextAppend(a, b[..n]);
      calc {
        Context(a + b);
        Context(a + b[..n]) + PageText(b[n]) + Separator;
        Context(a) + Context(b[..n]) + PageText(b[n]) + Separator;
        Context(a) + (Context(b[..n]) + PageText(b[n]) + Separator);
        Context(a) + Context(b);
      }
    }
  }

  /** The sum over the hits of `len(text) + 2`. */
  function ContextSize(hits: seq<Hit>): nat {
    if hits == [] then 0 else |PageText(hits[0])| + |Separator| + ContextSize(hits[1..])
  }

  /** The context's length is the sum of each hit's text length plus the two-character separator. */
  lemma {:induction false} ContextLength(hits: seq<Hit>)
    ensures |Context(hits)| == ContextSize(hits)
  {
    if hits != [] {
      assert hits == [hits[0]] + hits[1..];
      ContextAppend([hits[0]], hits[1..]);
      assert [hits[0]][..0] == [];
      ContextLength(hits[1..]);
    }
  }

  /** Hit `i`'s text, then a blank line, sits right after the texts of the hits ranked before it. */
  lemma ContextOrder(hits: seq<Hit>, i: nat)
    requires i < |hits|
    ensures var at := |Context(hits[..i])|;
      at + |PageText(hits[i])| + |Separator| <= |Context(hits)| &&
      Context(hits)[at .. at + |PageText(hits[i])| + |Separator|] == PageText(hits[i]) + Separator
  {
    assert hits == hits[..i] + [hits[i]] + hits[i + 1..];
    ContextAppend(hits[..i] + [hits[i]], hits[i + 1..]);
    ContextAppend(hits[..i], [hits[i]]);
    assert [hits[i]][..0] == [];
  }

  /** A source is returned exactly when some hit's metadata names it. */
  lemma {:induction false} SourceSetMembers(hits: seq<Hit>, s: string)
    ensures s in SourceSet(hits) <==> exists i :: 0 <= i < |hits| && hits[i].source == Some(s)
  {
    if hits != [] {
      var n := |hits| - 1;
      SourceSetMembers(hits[..n], s);
      if s in SourceSet(hits[..n]) {
        var i :| 0 <= i < n && hits[..n][i].source == Some(s);
        assert hits[i].source == Some(s);
      }
      if exists i :: 0 <= i < |hits| && hits[i].source == Some(s) {
        var i :| 0 <= i < |hits| && hits[i].source == Some(s);
        if i < n {
          assert hits[..n][i].source == Some(s);
        }
      }
    }
  }

  /** Hits without a source contribute nothing to the source set. */
  lemma {:induction false} SourceSetIgnoresUnsourced(a: seq<Hit>, h: Hit, b: seq<Hit>)
    requires h.source.None?
    ensures SourceSet(a + [h] + b) == SourceSet(a + b)
  {
    forall s ensures s in SourceSet(a + [h] + b) <==> s in SourceSet(a + b) {
      SourceSetMembers(a + [h] + b, s);
      SourceSetMembers(a + b, s);
      if s in SourceSet(a + [h] + b) {
        var i :| 0 <= i < |a + [h] + b| && (a + [h] + b)[i].source == Some(s);
        if i < |a| {
          assert (a + b)[i].source == Some(s);
        } else {
          assert i > |a|;
          assert (a + b)[i - 1].source == Some(s);
        }
      }
      if s in SourceSet(a + b) {
        var i :| 0 <= i < |a + b| && (a + b)[i].source == Some(s);
        if i < |a| {
          assert (a + [h] + b)[i].source == Some(s);
        } else {
          assert (a + [h] + b)[i + 1].source == Some(s);
        }
      }
    }
  }

  /** No hits: the fixed message, no sources, and the generator's behaviour is irrelevant. */
  lemma EmptyRetrieval(question: string, svc: Services, v: Vector, otherGenerate: (string, string) -> Outcome<string>)
    requires svc.embed(question) == Ok(v)
    requires svc.search(Collection, v, Limit) == Ok([])
    ensures Answer(question, svc) == LlmReply(NotFoundMessage, {})
    ensures Answer(question, svc.(generate := otherGenerate)) == Answer(question, svc)
  {
  }

  /** Retrieval is requested from `faq_collection` with limit 3 and with no other arguments. */
  lemma RetrievalParameters(question: string, svc: Services, otherSearch: (string, Vector, nat) -> Outcome<seq<Hit>>)
    requires forall v :: otherSearch(Collection, v, Limit) == svc.search(Collection, v, Limit)
    ensures Answer(question, svc.(search := otherSearch)) == Answer(question, svc)
  {
  }

  /** The generator receives the rank-ordered context and the question unchanged. */
  lemma GeneratorInputs(question: string, svc: Services, otherGenerate: (string, string) -> Outcome<string>, v: Vector, hits: seq<Hit>)
    requires svc.embed(question) == Ok(v)
    requires svc.search(Collection, v, Limit) == Ok(hits)
    requires otherGenerate(Context(hits), question) == svc.generate(Context(hits), question)
    ensures Answer(question, svc.(generate := otherGenerate)) == Answer(question, svc)
  {
  }

  /** A failure in embedding, search or generation becomes the prefixed diagnostic and no sources. */
  lemma FailureDegrades(question: string, svc: Services, msg: string)
    requires || svc.embed(question) == Err(msg)
             || (svc.embed(question).Ok? && svc.search(Collection, svc.embed(question).value, Limit) == Err(msg))
             || (svc.embed(question).Ok? && svc.search(Collection, svc.embed(question).value, Limit).Ok?
                 && svc.search(Collection, svc.embed(question).value, Limit).value != []
                 && svc.generate(Context(svc.search(Collection, svc.embed(question).value, Limit).value), question) == Err(msg))
    ensures Answer(question, svc) == LlmReply(ErrorPrefix + msg, {})
  {
  }

  /** When every call succeeds, the reply is the generated text and the hits' sources. */
  lemma SuccessfulAnswer(question: string, svc: Services, v: Vector, hits: seq<Hit>, text: string)
    requires svc.embed(question) == Ok(v)
    requires svc.search(Collection, v, Limit) == Ok(hits) && hits != []
    requires svc.generate(Context(hits), question) == Ok(text)
    ensures Answer(question, svc).answer == text
    ensures forall s :: s in Answer(question, svc).sources <==> exists i :: 0 <= i < |hits| && hits[i].source == Some(s)
  {
    forall s ensures s in SourceSet(hits) <==> exists i :: 0 <= i < |hits| && hits[i].source == Some(s) {
      SourceSetMembers(hits, s);
    }
  }

  // ---------------------------------------------------------------------
  // ingest_docs
  // ---------------------------------------------------------------------

  /** A loaded page or a split chunk: its text and `metadata["source"]`. */
  datatype Document = Document(pageContent: string, source: string)

  /** The dictionary `ingest_docs` returns. */
  datatype Status =
    | Empty(message: string)
    | Success(chunks: nat, message: string)
    | Error(details: string)

  /**
    What the vector store's recreate-and-upload call did: either the collection
    now holds the chunks, or it raised, leaving whatever it had written so far.
   */
  datatype IndexResult = Indexed | IndexFailed(details: string, left: seq<Document>)

  const FolderCreatedMessage := "Folder created, please add PDFs"
  const NoFilesMessage := "No PDF files found"
  const IndexedMessage := "Embeddings created locally!"

  /**
    The run of `ingest_docs` as a value: the call's outcome (`Err` when loading
    or splitting raised, since those sit outside the `try`) and the contents of
    `faq_collection` afterwards.
   */
  function Ingestion(
    folderExists: bool, collection: seq<Document>,
    load: () -> Outcome<seq<Document>>,
    split: seq<Document> -> Outcome<seq<Document>>,
    index: seq<Document> -> IndexResult
  ): (r: (Outcome<Status>, seq<Document>))
    ensures r.0.Ok? && r.0.value.Success? ==>
      && folderExists && load().Ok? && load().value != []
      && split(load().value) == Ok(r.1)
      && r.0.value.chunks == |r.1|
    ensures r.0.Err? ==> r.1 == collection
  {
    if !folderExists then (Ok(Empty(FolderCreatedMessage)), collection)
    else match load()
      case Err(m) => (Err(m), collection)
      case Ok(docs) =>
        if docs == [] then (Ok(Empty(NoFilesMessage)), collection)
        else match split(docs)
          case Err(m) => (Err(m), collection)
          case Ok(splits) =>
            match index(splits)
            case Indexed => (Ok(Success(|splits|, IndexedMessage)), splits)
            case IndexFailed(details, left) => (Ok(Error(details)), left)
  }

  /** The documents folder and the `faq_collection` collection of the vector store. */
  class Workspace {
    var folderExists: bool
    var collection: seq<Document>

    constructor (folderExists: bool, collection: seq<Document>)
      ensures this.folderExists == folderExists && this.collection == collection
    {
      this.folderExists := folderExists;
      this.collection := collection;
    }

    /**
      `ingest_docs()`: create a missing folder, load the PDFs, split them, and
      recreate the collection from the splits.
     */
    method IngestDocs(
      load: () -> Outcome<seq<Document>>,
      split: seq<Document> -> Outcome<seq<Document>>,
      index: seq<Document> -> IndexResult
    ) returns (result: Outcome<Status>)
      modifies this
      ensures folderExists
      ensures (result, collection) == Ingestion(old(folderExists), old(collection), load, split, index)
    {
      if !folderExists {
        folderExists := true;
        return Ok(Empty(FolderCreatedMessage));
      }
      var loaded := load();
      if loaded.Err? {
        return Err(loaded.msg);
      }
      var docs := loaded.value;
      if |docs| == 0 {
        return Ok(Empty(NoFilesMessage));
      }
      var splitResult := split(docs);
      if splitResult.Err? {
        return Err(splitResult.msg);
      }
      var splits := splitResult.value;
      var indexed := index(splits);
      match indexed {
        case Indexed =>
          collection := splits;
          result := Ok(Success(|splits|, IndexedMessage));
        case IndexFailed(details, left) =>
          collection := left;
          result := Ok(Error(details));
      }
    }
  }

  // ---------------------------------------------------------------------
  // Properties of ingest_docs
  // ---------------------------------------------------------------------

  /** A missing folder: status `empty`, the collection untouched, and nothing loaded, split or indexed. */
  lemma MissingFolder(
    collection: seq<Document>,
    load: () -> Outcome<seq<Document>>, split: seq<Document> -> Outcome<seq<Document>>, index: seq<Document> -> IndexResult,
    load2: () -> Outcome<seq<Document>>, split2: seq<Document> -> Outcome<seq<Document>>, index2: seq<Document> -> IndexResult)
    ensures Ingestion(false, collection, load, split, index) == (Ok(Empty(FolderCreatedMessage)), collection)
    ensures Ingestion(false, collection, load, split, index) == Ingestion(false, collection, load2, split2, index2)
  {
  }

  /** No documents loaded: status `empty`, the collection untouched, and nothing split or indexed. */
  lemma NoDocuments(
    collection: seq<Document>, load: () -> Outcome<seq<Document>>,
    split: seq<Document> -> Outcome<seq<Document>>, index: seq<Document> -> IndexResult,
    split2: seq<Document> -> Outcome<seq<Document>>, index2: seq<Document> -> IndexResult)
    requires load() == Ok([])
    ensures Ingestion(true, collection, load, split, index) == (Ok(Empty(NoFilesMessage)), collection)
    ensures Ingestion(true, collection, load, split, index) == Ingestion(true, collection, load, split2, index2)
  {
  }

  /** Indexing succeeded: status `success` with one chunk per split, and the collection is exactly the splits. */
  lemma IndexingSucceeds(
    collection: seq<Document>, load: () -> Outcome<seq<Document>>,
    split: seq<Document> -> Outcome<seq<Document>>, index: seq<Document> -> IndexResult,
    docs: seq<Document>, splits: seq<Document>)
    requires load() == Ok(docs) && docs != []
    requires split(docs) == Ok(splits)
    requires index(splits) == Indexed
    ensures Ingestion(true, collection, load, split, index) == (Ok(Success(|splits|, IndexedMessage)), splits)
  {
  }

  /** Indexing raised: status `error` with the exception's text. */
  lemma IndexingFails(
    collection: seq<Document>, load: () -> Outcome<seq<Document>>,
    split: seq<Document> -> Outcome<seq<Document>>, index: seq<Document> -> IndexResult,
    docs: seq<Document>, splits: seq<Document>, details: string, left: seq<Document>)
    requires load() == Ok(docs) && docs != []
    requires split(docs) == Ok(splits)
    requires index(splits) == IndexFailed(details, left)
    ensures Ingestion(true, collection, load, split, index).0 == Ok(Error(details))
  {
  }

  /** Loading or splitting raised: the exception propagates and the collection is untouched. */
  lemma LoadOrSplitRaises(
    collection: seq<Document>, load: () -> Outcome<seq<Document>>,
    split: seq<Document> -> Outcome<seq<Document>>, index: seq<Document> -> IndexResult, msg: string)
    requires load() == Err(msg) || (load().Ok? && load().value != [] && split(load().value) == Err(msg))
    ensures Ingestion(true, collection, load, split, index) == (Err(msg), collection)
  {
  }

  /** The collection changes only through the indexing call. */
  lemma CollectionChangesOnlyByIndexing(
    folderExists: bool, collection: seq<Document>, load: () -> Outcome<seq<Document>>,
    split: seq<Document> -> Outcome<seq<Document>>, index: seq<Document> -> IndexResult)
    ensures var (r, after) := Ingestion(folderExists, collection, load, split, index);
      after != collection ==>
        && folderExists && load().Ok? && load().value != [] && split(load().value).Ok?
        && (after == split(load().value).value || index(split(load().value).value).IndexFailed?)
  {
  }

  /** Ingesting the same folder again reports the same outcome and leaves the same collection. */
  lemma ReingestionIsDeterministic(
    collection: seq<Document>, load: () -> Outcome<seq<Document>>,
    split: seq<Document> -> Outcome<seq<Document>>, index: seq<Document> -> IndexResult)
    requires Ingestion(true, collection, load, split, index).0.Ok?
    requires Ingestion(true, collection, load, split, index).0.value.Success?
    ensures var after := Ingestion(true, collection, load, split, index).1;
      Ingestion(true, after, load, split, index) == Ingestion(true, collection, load, split, index)
  {
  }
}
