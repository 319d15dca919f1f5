/** Ingestion (src/ingest.py): chunk the loaded reports, then embed every
    chunk on its own and add it to the "financials" collection under the id
    "doc_<i>", stopping at the first chunk whose embedding or insertion
    fails. The embedding model and the store's own failures are inputs. */
module Ingest {
  import opened TextOps
  import opened Wrappers
  import opened Documents
  import FileLoader

  /** The collection every entry goes into, whichever client is used. */
  const CollectionName: string := "financials"

  /** An embedding vector; its numbers come from the model and are not
      inspected. */
  type Vector = seq<real>

  /** One stored record: id, document text, embedding and metadata. */
  datatype Entry = Entry(id: string, document: string, embedding: Vector, metadata: Metadata)

  /** The id of the document at position i: "doc_" and its decimal text. */
  function DocId(i: nat): (r: string)
    ensures |r| > 4 && r[..4] == "doc_"
  {
    "doc_" + Decimal(i)
  }

  /** Different positions get different ids. */
  lemma DocIdsDistinct(i: nat, j: nat)
    requires i != j
    ensures DocId(i) != DocId(j)
  {
    if DocId(i) == DocId(j) {
      assert DocId(i)[4..] == Decimal(i) && DocId(j)[4..] == Decimal(j);
      DecimalInjective(i, j);
    }
  }

  /** The embedding model with a log of the batches it was asked to embed. */
  class Embedder {
    /** embed_documents: one vector per text, or None when it raises. */
    const model: seq<string> -> Option<seq<Vector>>
    /** Every batch passed to embed_documents, in order. */
    var calls: seq<seq<string>>

    constructor (model: seq<string> -> Option<seq<Vector>>)
      ensures this.model == model && calls == []
    {
      this.model := model;
      calls := [];
    }

    method EmbedDocuments(texts: seq<string>) returns (r: Option<seq<Vector>>)
      modifies this
      ensures r == model(texts) && calls == old(calls) + [texts]
    {
      r := model(texts);
      calls := calls + [texts];
    }
  }

  /** The entries an add call with these parallel lists inserts. */
  function Batch(ids: seq<string>, documents: seq<string>, embeddings: seq<Vector>, metadatas: seq<Metadata>): seq<Entry>
    requires |documents| == |ids| && |embeddings| == |ids| && |metadatas| == |ids|
  {
    seq(|ids|, i requires 0 <= i < |ids| => Entry(ids[i], documents[i], embeddings[i], metadatas[i]))
  }

  /** A Chroma client (persistent or in-memory) and its named collections. */
  class Client {
    /** Entries whose insertion raises for reasons the model does not see
        (I/O, the store's own validation). */
    const rejects: Entry -> bool
    var collections: map<string, seq<Entry>>

    constructor (rejects: Entry -> bool, collections: map<string, seq<Entry>>)
      ensures this.rejects == rejects && this.collections == collections
    {
      this.rejects := rejects;
      this.collections := collections;
    }

    /** get_or_create_collection(name). */
    method GetOrCreateCollection(name: string)
      modifies this
      ensures collections == if name in old(collections) then old(collections) else old(collections)[name := []]
    {
      if name !in collections {
        collections := collections[name := []];
      }
    }

    /** collection.add(...): refuses lists of different lengths and rejected
        entries, and otherwise appends the batch. */
    method Add(name: string, documents: seq<string>, embeddings: seq<Vector>, metadatas: seq<Metadata>, ids: seq<string>)
      returns (ok: bool)
      requires name in collections
      modifies this
      ensures ok <==>
        |documents| == |ids| && |embeddings| == |ids| && |metadatas| == |ids| &&
        forall e :: e in Batch(ids, documents, embeddings, metadatas) ==> !rejects(e)
      ensures ok ==> collections == old(collections)[name := old(collections)[name] + Batch(ids, documents, embeddings, metadatas)]
      ensures !ok ==> collections == old(collections)
    {
      if |documents| != |ids| || |embeddings| != |ids| || |metadatas| != |ids| {
        return false;
      }
      var batch := Batch(ids, documents, embeddings, metadatas);
      ok := forall e :: e in batch ==> !rejects(e);
      if ok {
        collections := collections[name := collections[name] + batch];
      }
    }
  }

  /** Whether the try block for document i succeeds: the one-text batch is
      embedded into exactly one vector and the store accepts the entry. */
  predicate StepOk(d: Doc, i: nat, model: seq<string> -> Option<seq<Vector>>, rejects: Entry -> bool) {
    var v := model([d.pageContent]);
    v.Some? && |v.value| == 1 && !rejects(Entry(DocId(i), d.pageContent, v.value[0], d.metadata))
  }

  /** The position of the first failing document at or after `from`, or
      |docs| when none fails. */
  function FirstFailureFrom(docs: seq<Doc>, from: nat, model: seq<string> -> Option<seq<Vector>>, rejects: Entry -> bool): (r: nat)
    requires from <= |docs|
    ensures from <= r <= |docs|
    ensures forall j :: from <= j < r ==> StepOk(docs[j], j, model, rejects)
    ensures r < |docs| ==> !StepOk(docs[r], r, model, rejects)
    decreases |docs| - from
  {
    if from == |docs| then |docs|
    else if !StepOk(docs[from], from, model, rejects) then from
    else FirstFailureFrom(docs, from + 1, model, rejects)
  }

  /** How many documents embed_and_store stores before it breaks. */
  function StoredCount(docs: seq<Doc>, model: seq<string> -> Option<seq<Vector>>, rejects: Entry -> bool): nat {
    FirstFailureFrom(docs, 0, model, rejects)
  }

  /** The entry stored for document i, once its step has succeeded. */
  function EntryFor(docs: seq<Doc>, i: nat, model: seq<string> -> Option<seq<Vector>>, rejects: Entry -> bool): Entry
    requires i < |docs| && StepOk(docs[i], i, model, rejects)
  {
    Entry(DocId(i), docs[i].pageContent, model([docs[i].pageContent]).value[0], docs[i].metadata)
  }

  /** The entries for the first n documents, all of whose steps succeed. */
  function StoredEntries(docs: seq<Doc>, n: nat, model: seq<string> -> Option<seq<Vector>>, rejects: Entry -> bool): seq<Entry>
    requires n <= |docs| && forall j :: 0 <= j < n ==> StepOk(docs[j], j, model, rejects)
  {
    seq(n, i requires 0 <= i < n => EntryFor(docs, i, model, rejects))
  }

  /** The batches sent to the embedder for the first n documents. */
  function Batches(docs: seq<Doc>, n: nat): seq<seq<string>>
    requires n <= |docs|
  {
    seq(n, i requires 0 <= i < n => [docs[i].pageContent])
  }

  /** The documents tried: the stored ones and, if there is one, the one
      that failed. */
  function Attempted(docs: seq<Doc>, model: seq<string> -> Option<seq<Vector>>, rejects: Entry -> bool): (r: nat)
    ensures r <= |docs|
  {
    var n := StoredCount(docs, model, rejects);
    if n < |docs| then n + 1 else n
  }

  /** What a run stores is a prefix of the input: documents 0..n-1 all
      succeed, document n (if any) fails, and the ids are doc_0 .. doc_{n-1},
      each entry carrying its document's text and metadata. */
  lemma StoredIsPrefix(docs: seq<Doc>, model: seq<string> -> Option<seq<Vector>>, rejects: Entry -> bool)
    ensures var n := StoredCount(docs, model, rejects);
      n <= |docs| &&
      (forall j :: 0 <= j < n ==> StepOk(docs[j], j, model, rejects)) &&
      (n < |docs| ==> !StepOk(docs[n], n, model, rejects)) &&
      var s := StoredEntries(docs, n, model, rejects);
      |s| == n &&
      forall j :: 0 <= j < n ==>
        s[j].id == DocId(j) && s[j].document == docs[j].pageContent && s[j].metadata == docs[j].metadata
  {
  }

  /** When no document fails, all of them are stored. */
  lemma NoFailureStoresAll(docs: seq<Doc>, model: seq<string> -> Option<seq<Vector>>, rejects: Entry -> bool)
    requires forall j :: 0 <= j < |docs| ==> StepOk(docs[j], j, model, rejects)
    ensures StoredCount(docs, model, rejects) == |docs|
    ensures Attempted(docs, model, rejects) == |docs|
  {
  }

  /** The ids of one run are pairwise distinct. */
  lemma StoredIdsDistinct(docs: seq<Doc>, n: nat, model: seq<string> -> Option<seq<Vector>>, rejects: Entry -> bool)
    requires n <= |docs| && forall j :: 0 <= j < n ==> StepOk(docs[j], j, model, rejects)
    ensures forall i, j :: 0 <= i < j < n ==>
      StoredEntries(docs, n, model, rejects)[i].id != StoredEntries(docs, n, model, rejects)[j].id
  {
    forall i, j | 0 <= i < j < n
      ensures StoredEntries(docs, n, model, rejects)[i].id != StoredEntries(docs, n, model, rejects)[j].id
    {
      DocIdsDistinct(i, j);
    }
  }

  /** What the chosen client's "financials" collection held before. */
  function Existing(c: map<string, seq<Entry>>): seq<Entry> {
    if CollectionName in c then c[CollectionName] else []
  }

  /** The try block for document i: embed its text as a one-element batch,
      then add it under the id doc_i; false when either step raises. */
  method TryStore(docs: seq<Doc>, i: nat, embedder: Embedder, client: Client) returns (ok: bool)
    requires i < |docs| && CollectionName in client.collections
    modifies embedder, client
    ensures embedder.calls == old(embedder.calls) + [[docs[i].pageContent]]
    ensures ok == StepOk(docs[i], i, embedder.model, client.rejects)
    ensures ok ==> client.collections == old(client.collections)[CollectionName :=
      old(client.collections)[CollectionName] + [EntryFor(docs, i, embedder.model, client.rejects)]]
    ensures !ok ==> client.collections == old(client.collections)
  {
    var text := docs[i].pageContent;
    var metadata := docs[i].metadata;
    var id := "doc_" + Decimal(i);
    var vector := embedder.EmbedDocuments([text]);
    ok := false;
    if vector.Some? {
      ok := client.Add(CollectionName, [text], vector.value, [metadata], [id]);
      if |vector.value| == 1 {
        assert Batch([id], [text], vector.value, [metadata]) == [Entry(DocId(i), text, vector.value[0], metadata)];
      }
    }
  }

  lemma StoredEntriesSnoc(docs: seq<Doc>, i: nat, model: seq<string> -> Option<seq<Vector>>, rejects: Entry -> bool)
    requires i < |docs| && forall j :: 0 <= j <= i ==> StepOk(docs[j], j, model, rejects)
    ensures StoredEntries(docs, i + 1, model, rejects) ==
      StoredEntries(docs, i, model, rejects) + [EntryFor(docs, i, model, rejects)]
  {
  }

  lemma BatchesSnoc(docs: seq<Doc>, i: nat)
    requires i < |docs|
    ensures Batches(docs, i + 1) == Batches(docs, i) + [[docs[i].pageContent]]
  {
  }

  /** The for loop of embed_and_store over one client's collection. */
  method StoreAll(docs: seq<Doc>, embedder: Embedder, client: Client)
    requires CollectionName in client.collections
    modifies embedder, client
    ensures var n := StoredCount(docs, embedder.model, client.rejects);
      client.collections == old(client.collections)[CollectionName :=
        old(client.collections)[CollectionName] + StoredEntries(docs, n, embedder.model, client.rejects)]
    ensures embedder.calls == old(embedder.calls) + Batches(docs, Attempted(docs, embedder.model, client.rejects))
  {
    ghost var model, rejects := embedder.model, client.rejects;
    ghost var start := client.collections;
    ghost var before := start[CollectionName];
    ghost var n := StoredCount(docs, model, rejects);
    assert before + StoredEntries(docs, 0, model, rejects) == before;
    var i := 0;
    while i < |docs|
      invariant i <= n
      invariant client.collections == start[CollectionName := before + StoredEntries(docs, i, model, rejects)]
      invariant embedder.calls == old(embedder.calls) + Batches(docs, i)
    {
      ghost var stored := before + StoredEntries(docs, i, model, rejects);
      var ok := TryStore(docs, i, embedder, client);
      BatchesSnoc(docs, i);
      if !ok {
        break;
      }
      StoredEntriesSnoc(docs, i, model, rejects);
      assert stored + [EntryFor(docs, i, model, rejects)] == before + StoredEntries(docs, i + 1, model, rejects);
      i := i + 1;
    }
  }

  /** embed_and_store(docs, use_persistent): the persistent client when
      use_persistent holds, the in-memory client otherwise. */
  method EmbedAndStore(docs: seq<Doc>, usePersistent: bool, embedder: Embedder, onDisk: Client, inMemory: Client)
    modifies embedder, if usePersistent then onDisk else inMemory
    ensures var client := if usePersistent then onDisk else inMemory;
      var n := StoredCount(docs, embedder.model, client.rejects);
      client.collections == old(client.collections)[CollectionName := Existing(old(client.collections)) +
        StoredEntries(docs, n, embedder.model, client.rejects)] &&
      embedder.calls == old(embedder.calls) + Batches(docs, Attempted(docs, embedder.model, client.rejects))
  {
    var client := if usePersistent then onDisk else inMemory;
    client.GetOrCreateCollection(CollectionName);
    StoreAll(docs, embedder, client);
  }

  /** load_and_chunk_reports(folder_path): the splitter applied to what the
      PDF folder loader returns. The splitter is not part of this model and
      is taken as given. */
  method LoadAndChunkReports(folderPath: string, listing: seq<string>, loader: string -> seq<Doc>,
                             splitDocuments: seq<Doc> -> seq<Doc>)
    returns (chunks: seq<Doc>)
    ensures chunks == splitDocuments(FileLoader.LoadedDocs(folderPath, listing, loader))
  {
    var docs := FileLoader.LoadPdfFromFolder(folderPath, listing, loader);
    chunks := splitDocuments(docs);
  }
}
