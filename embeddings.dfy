/** The mock document/embedding store and its top-3 retrieval.

    The store is a table keyed by document id. Every entry carries a copy of
    its own id and a 1536-dimensional embedding. `GenerateEmbeddings` upserts
    an entry in place; `GetDocumentById` and `SearchDocuments` only read the
    table. The random numbers the application draws (embedding components
    and relevance scores) are inputs supplied by the caller. */
module Embeddings {
  import opened Common

  /** Dimension of every embedding (that of OpenAI's ada-002). */
  const EmbeddingDim: nat := 1536

  /** How many results a search keeps. */
  const TopK: nat := 3

  /** A store entry. The source declares the embedding optional; every entry
      the store ever holds has one, so it is a plain field here. */
  datatype StoredDocument = StoredDocument(id: string, title: string, content: string, embedding: seq<real>)

  /** One search hit: an entry's title and content paired with its score. */
  datatype SearchResult = SearchResult(title: string, content: string, relevance: real)

  /** An embedding built from one random draw per component. */
  function MockEmbedding(sample: nat -> real): (e: seq<real>)
    ensures |e| == EmbeddingDim
    ensures forall i :: 0 <= i < |e| ==> e[i] == sample(i)
  {
    seq(EmbeddingDim, i requires 0 <= i < EmbeddingDim => sample(i))
  }

  /** Every entry is filed under its own id and has a full-size embedding. */
  ghost predicate StoreInvariant(m: map<string, StoredDocument>)
  {
    forall k :: k in m ==> m[k].id == k && |m[k].embedding| == EmbeddingDim
  }

  /** The entry `generateEmbeddings` writes for `documentId`. */
  function EmbeddedDocument(documentId: string, content: string, sample: nat -> real): (d: StoredDocument)
    ensures d.id == documentId && d.content == content
    ensures d.title == "Document " + documentId
    ensures |d.embedding| == EmbeddingDim
  {
    StoredDocument(documentId, "Document " + documentId, content, MockEmbedding(sample))
  }

  /** The table after `generateEmbeddings(documentId, content)`: the entry for
      `documentId` is inserted or replaced, every other entry is kept, and no
      duplicate key can arise, so the table grows by at most one. */
  function Upsert(m: map<string, StoredDocument>, documentId: string, content: string, sample: nat -> real)
    : (r: map<string, StoredDocument>)
    ensures r.Keys == m.Keys + {documentId}
    ensures r[documentId] == EmbeddedDocument(documentId, content, sample)
    ensures forall k :: k in m && k != documentId ==> r[k] == m[k]
    ensures |r| == if documentId in m then |m| else |m| + 1
    ensures StoreInvariant(m) ==> StoreInvariant(r)
  {
    m[documentId := EmbeddedDocument(documentId, content, sample)]
  }

  /** Upserting the same document twice leaves the table as one upsert does. */
  lemma UpsertIdempotent(m: map<string, StoredDocument>, documentId: string, content: string, sample: nat -> real)
    ensures Upsert(Upsert(m, documentId, content, sample), documentId, content, sample)
         == Upsert(m, documentId, content, sample)
  {
    var once := Upsert(m, documentId, content, sample);
    var twice := Upsert(once, documentId, content, sample);
    assert twice.Keys == once.Keys;
    assert forall k :: k in once ==> twice[k] == once[k];
  }

  /** `documentStore[id] || null`: the entry when the key is present, else null. */
  function Lookup(m: map<string, StoredDocument>, id: string): (r: Option<StoredDocument>)
    ensures r.Some? <==> id in m
    ensures r.Some? ==> r.value == m[id]
  {
    if id in m then Some(m[id]) else None
  }

  /** Lookups after an upsert: the upserted id yields the new entry, every
      other id yields what it yielded before. */
  lemma LookupAfterUpsert(m: map<string, StoredDocument>, documentId: string, content: string,
                          sample: nat -> real, id: string)
    ensures Lookup(Upsert(m, documentId, content, sample), id)
         == if id == documentId then Some(EmbeddedDocument(documentId, content, sample)) else Lookup(m, id)
  {
  }

  /** The values of `m` in the enumeration order `order`. */
  function ValuesInOrder(m: map<string, StoredDocument>, order: seq<string>): (vs: seq<StoredDocument>)
    requires forall i :: 0 <= i < |order| ==> order[i] in m
    ensures |vs| == |order|
    ensures forall i :: 0 <= i < |order| ==> vs[i] == m[order[i]]
  {
    if order == [] then [] else [m[order[0]]] + ValuesInOrder(m, order[1..])
  }

  /** `Object.values(store).map(...)`: each entry's title and content paired
      with the score drawn for it. */
  function Score(docs: seq<StoredDocument>, scores: seq<real>): (rs: seq<SearchResult>)
    requires |scores| == |docs|
    ensures |rs| == |docs|
    ensures forall i :: 0 <= i < |docs| ==> rs[i] == SearchResult(docs[i].title, docs[i].content, scores[i])
  {
    seq(|docs|, i requires 0 <= i < |docs| => SearchResult(docs[i].title, docs[i].content, scores[i]))
  }

  /** Results in non-increasing relevance order. */
  ghost predicate NonIncreasing(rs: seq<SearchResult>)
  {
    forall i, j :: 0 <= i < j < |rs| ==> rs[i].relevance >= rs[j].relevance
  }

  /** Inserts `x` into the sorted `t` ahead of every element whose relevance
      does not exceed its own; this keeps equal-scored results in their
      original order, as the stable `Array.prototype.sort` does. */
  function Insert(x: SearchResult, t: seq<SearchResult>): (r: seq<SearchResult>)
    requires NonIncreasing(t)
    ensures NonIncreasing(r)
    ensures multiset(r) == multiset{x} + multiset(t)
    ensures |r| == |t| + 1
    ensures r[0] == x || (t != [] && r[0] == t[0])
  {
    if t == [] || x.relevance >= t[0].relevance then [x] + t
    else
      assert t == [t[0]] + t[1..];
      [t[0]] + Insert(x, t[1..])
  }

  /** `.sort((a, b) => b.relevance - a.relevance)`: a stable sort by
      descending relevance, yielding a permutation of its input. */
  function SortByRelevance(rs: seq<SearchResult>): (r: seq<SearchResult>)
    ensures NonIncreasing(r)
    ensures multiset(r) == multiset(rs)
    ensures |r| == |rs|
  {
    if rs == [] then []
    else
      assert rs == [rs[0]] + rs[1..];
      Insert(rs[0], SortByRelevance(rs[1..]))
  }

  function Min(a: nat, b: nat): nat { if a <= b then a else b }

  /** `searchDocuments`: score every entry, sort by descending relevance and
      keep the first three. */
  function Search(docs: seq<StoredDocument>, scores: seq<real>): (r: seq<SearchResult>)
    requires |scores| == |docs|
    ensures |r| == Min(TopK, |docs|)
    ensures NonIncreasing(r)
    ensures multiset(r) <= multiset(Score(docs, scores))
  {
    var sorted := SortByRelevance(Score(docs, scores));
    assert sorted == sorted[..Min(TopK, |docs|)] + sorted[Min(TopK, |docs|)..];
    sorted[..Min(TopK, |docs|)]
  }

  /** Every hit is the title and content of some entry paired with that
      entry's own score. */
  lemma {:induction false} SearchHitsComeFromStore(docs: seq<StoredDocument>, scores: seq<real>, k: nat)
    requires |scores| == |docs|
    requires k < |Search(docs, scores)|
    ensures exists i :: (0 <= i < |docs|
      && Search(docs, scores)[k] == SearchResult(docs[i].title, docs[i].content, scores[i]))
  {
    var r := Search(docs, scores);
    var all := Score(docs, scores);
    assert r[k] in multiset(r);
    assert r[k] in multiset(all);
    assert r[k] in all;
    var i :| 0 <= i < |all| && all[i] == r[k];
    assert r[k] == SearchResult(docs[i].title, docs[i].content, scores[i]);
  }

  /** Every element of `rest` scores at most every hit. */
  ghost predicate Outranks(hits: seq<SearchResult>, rest: multiset<SearchResult>)
  {
    forall x, k :: x in rest && 0 <= k < |hits| ==> x.relevance <= hits[k].relevance
  }

  /** No scored entry left out of the result outranks the lowest-ranked hit:
      every excluded entry scores at most every included one. */
  lemma {:induction false} SearchKeepsTheBest(docs: seq<StoredDocument>, scores: seq<real>)
    requires |scores| == |docs|
    ensures Outranks(Search(docs, scores), multiset(Score(docs, scores)) - multiset(Search(docs, scores)))
  {
    var sorted := SortByRelevance(Score(docs, scores));
    var m := Min(TopK, |docs|);
    SplitMultiset(sorted, m);
    PrefixOutranksRest(sorted, m);
  }

  /** A sequence's multiset minus that of a prefix is that of the suffix. */
  lemma SplitMultiset(s: seq<SearchResult>, m: nat)
    requires m <= |s|
    ensures multiset(s) - multiset(s[..m]) == multiset(s[m..])
  {
    assert s == s[..m] + s[m..];
  }

  /** In a list sorted by descending relevance, every element after position
      `m` scores at most every element before it. */
  lemma PrefixOutranksRest(sorted: seq<SearchResult>, m: nat)
    requires NonIncreasing(sorted) && m <= |sorted|
    ensures Outranks(sorted[..m], multiset(sorted[m..]))
  {
    forall x, k | x in multiset(sorted[m..]) && 0 <= k < m
      ensures x.relevance <= sorted[..m][k].relevance
    {
      assert x in sorted[m..];
      var j :| 0 <= j < |sorted| - m && sorted[m..][j] == x;
      assert sorted[m + j] == x;
    }
  }

  /** The mutable store of embeddings, keyed by document id. `order` is the
      order in which `Object.values` enumerates the entries, taken here as
      insertion order: a new key goes last, a replaced key keeps its place. */
  class DocumentStore {
    var entries: map<string, StoredDocument>
    var order: seq<string>

    ghost predicate Valid()
      reads this
    {
      && StoreInvariant(entries)
      && |order| == |entries|
      && (forall i :: 0 <= i < |order| ==> order[i] in entries)
      && (forall i, j :: 0 <= i < j < |order| ==> order[i] != order[j])
      && (forall k :: k in entries ==> k in order)
    }

    /** The three seeded documents, each with an embedding drawn from its own
        random source. */
    constructor (sample1: nat -> real, sample2: nat -> real, sample3: nat -> real)
      ensures Valid()
      ensures order == ["1", "2", "3"]
      ensures entries == map[
        "1" := StoredDocument("1", "Project Proposal.pdf", ProposalText, MockEmbedding(sample1)),
        "2" := StoredDocument("2", "Financial Report Q1.docx", ReportText, MockEmbedding(sample2)),
        "3" := StoredDocument("3", "Meeting Notes.txt", NotesText, MockEmbedding(sample3))]
    {
      entries := map[
        "1" := StoredDocument("1", "Project Proposal.pdf", ProposalText, MockEmbedding(sample1)),
        "2" := StoredDocument("2", "Financial Report Q1.docx", ReportText, MockEmbedding(sample2)),
        "3" := StoredDocument("3", "Meeting Notes.txt", NotesText, MockEmbedding(sample3))];
      order := ["1", "2", "3"];
    }

    /** `Object.values(documentStore)`. */
    function Values(): (vs: seq<StoredDocument>)
      reads this
      requires Valid()
      ensures |vs| == |entries|
      ensures forall i :: 0 <= i < |vs| ==> vs[i] == entries[order[i]]
      ensures forall k :: k in entries ==> exists i :: 0 <= i < |vs| && order[i] == k && vs[i] == entries[k]
    {
      ValuesInOrder(entries, order)
    }

    /** `generateEmbeddings(documentId, content)`: writes the entry for
        `documentId` in place, replacing any earlier one. */
    method GenerateEmbeddings(documentId: string, content: string, sample: nat -> real)
      requires Valid()
      modifies this
      ensures Valid()
      ensures entries == Upsert(old(entries), documentId, content, sample)
      ensures order == if documentId in old(entries) then old(order) else old(order) + [documentId]
    {
      if documentId !in entries {
        order := order + [documentId];
      }
      entries := entries[documentId := EmbeddedDocument(documentId, content, sample)];
    }

    /** `getDocumentById(id)`. */
    function GetDocumentById(id: string): (r: Option<StoredDocument>)
      reads this
      ensures r == Lookup(entries, id)
    {
      Lookup(entries, id)
    }

    /** `searchDocuments(query)` with the relevance drawn for each entry, in
        enumeration order, given as `scores`: entry `order[i]` gets
        `scores[i]`. The query itself only feeds a log line, so the result
        does not depend on it. */
    function SearchDocuments(query: string, scores: seq<real>): (r: seq<SearchResult>)
      reads this
      requires Valid() && |scores| == |entries|
      ensures r == Search(Values(), scores)
      ensures |r| == Min(TopK, |entries|)
      ensures NonIncreasing(r)
      ensures forall k :: 0 <= k < |r| ==> exists i :: (0 <= i < |order|
        && r[k] == SearchResult(entries[order[i]].title, entries[order[i]].content, scores[i]))
      ensures Outranks(r, multiset(Score(Values(), scores)) - multiset(r))
    {
      var vs := Values();
      var r := Search(vs, scores);
      forall k | 0 <= k < |r|
        ensures exists i :: (0 <= i < |order|
          && r[k] == SearchResult(entries[order[i]].title, entries[order[i]].content, scores[i]))
      {
        SearchHitsComeFromStore(vs, scores, k);
        var i :| 0 <= i < |vs| && r[k] == SearchResult(vs[i].title, vs[i].content, scores[i]);
        assert vs[i] == entries[order[i]];
      }
      SearchKeepsTheBest(vs, scores);
      r
    }
  }

  const ProposalText: string :=
    "This is a comprehensive project proposal that outlines the goals, timeline, and budget for our new initiative. The project aims to improve customer satisfaction by 25% within the first quarter."
  const ReportText: string :=
    "Q1 financial report shows growth in all sectors. Revenue increased by 15% compared to the same period last year. Operating expenses were reduced by 8% due to new efficiency measures."
  const NotesText: string :=
    "Key points from the strategy meeting: 1) Launch new product by June, 2) Expand marketing team, 3) Investigate new markets in Asia, 4) Review pricing strategy for enterprise clients."
}
