# Chat-with-your-documents demo: a Dafny model of its server core

The application lets a user upload documents and ask questions about them.
Its server side has three pieces, and this project models each of them:

- **Embeddings** (`embeddings.dfy`, from `embeddings.ts`). A mutable store of
  documents keyed by id. Each entry carries its own id, a title, the content
  and a 1536-dimensional embedding. `GenerateEmbeddings` upserts an entry in
  place. `GetDocumentById` looks an id up. `SearchDocuments` scores every
  entry, sorts the scores in descending order and keeps the best three. The
  class `DocumentStore` holds the table as a `map` and the enumeration order
  of `Object.values` as a `seq` of keys. The pure functions `Upsert`,
  `Lookup` and `Search` specify its operations.
- **Actions** (`actions.dfy`, from `actions.ts`). The module-level `users`
  and `documents` tables are the class `Registry`, which shares the store.
  `CreateUser` validates its input, gives the new row id `|users| + 1` and
  defaults the role to `"viewer"`. `UploadDocument` rejects a missing file,
  writes the mock content into the store and appends the row.
  `AskQuestion` combines a search with a canned answer. The invariants are
  that ids are dense and that emails are unique. Dense means row `i` has id
  `i + 1` in decimal, so ids are unique and never reused. This holds as long
  as uploads do not overlap; see "## Left out".
- **Route** (`route.dfy`, from `route.ts`). The `POST` handler
  as a pure function from the request body to a response with status 400,
  200 or 500. It also builds the context and the prompt. Retrieval and the
  language-model call are function parameters that may fail.
- `common.dfy` holds `Option`/`Result` and the decimal rendering of a
  number, which every generated id uses.

The random numbers the application draws are inputs. An embedding is built from a
caller-supplied draw function `sample: nat -> real`. Relevance scores are a
`seq<real>`, one per store entry in enumeration order. Timestamps are opaque
strings.

A consequence of the seeded data is proved as `FirstUploadReplacesSeededEntry`.
The `documents` table starts with two rows, but the store starts with three
entries. So the first upload gets id `"3"` and overwrites the seeded
"Meeting Notes.txt" entry instead of adding a fourth.

## Model

| member | source | states |
|---|---|---|
| `Common.NatToString` | actions.ts:101 | the decimal rendering of an id is non-empty, all digits, and has no leading zero |
| `Common.NatToStringInjective` | actions.ts:101 | distinct numbers give distinct id strings |
| `Embeddings.MockEmbedding` | embeddings.ts:55-57 | a generated embedding has exactly 1536 components, component `i` being the `i`-th draw |
| `Embeddings.EmbeddedDocument` | embeddings.ts:60-65 | the written entry has the given id and content, title `"Document " + id` and a 1536-long embedding |
| `Embeddings.Upsert` | embeddings.ts:60-65 | upsert adds the key if absent, replaces its entry, leaves every other key unchanged, grows the table by at most one, and keeps the id-equals-key and 1536-dimension invariant |
| `Embeddings.UpsertIdempotent` | embeddings.ts:60 | upserting the same document twice gives the same table as once |
| `Embeddings.Lookup` | embeddings.ts:93-95 | the lookup returns the stored entry exactly when the key is present, and null otherwise |
| `Embeddings.LookupAfterUpsert` | embeddings.ts:93-95 | after an upsert, the upserted id yields the new entry and every other id yields its old result |
| `Embeddings.ValuesInOrder` | embeddings.ts:82 | the store's values listed in its enumeration order, one per key |
| `Embeddings.Score` | embeddings.ts:82-87 | result `i` is entry `i`'s title and content with score `i` |
| `Embeddings.Insert` | embeddings.ts:88 | inserting into a descending list keeps it descending and adds exactly that element |
| `Embeddings.SortByRelevance` | embeddings.ts:88 | the sort result is in non-increasing relevance order and is a permutation of its input |
| `Embeddings.Search` | embeddings.ts:82-89 | a search returns `min(3, entries)` results in non-increasing order, a sub-multiset of the scored entries |
| `Embeddings.SearchHitsComeFromStore` | embeddings.ts:82-87 | every hit is some entry's title and content paired with that entry's own score |
| `Embeddings.SearchKeepsTheBest` | embeddings.ts:88-89 | no scored entry left out of the result scores higher than any hit |
| `Embeddings.DocumentStore.constructor` | embeddings.ts:16-44 | the store starts with entries "1", "2" and "3" holding the seeded titles and contents, each filed under its own id |
| `Embeddings.DocumentStore.Values` | embeddings.ts:82 | `Object.values` yields, at position `i`, the entry of the `i`-th key in enumeration order, and every key appears once |
| `Embeddings.DocumentStore.GenerateEmbeddings` | embeddings.ts:47-66 | the table becomes `Upsert` of the old table; a new key is enumerated last and a replaced key keeps its place |
| `Embeddings.DocumentStore.GetDocumentById` | embeddings.ts:93-95 | the in-place store's lookup agrees with `Lookup` on its current table |
| `Embeddings.DocumentStore.SearchDocuments` | embeddings.ts:69-90 | `min(3, entries)` hits in non-increasing relevance order; each hit is a stored entry's title and content paired with that entry's own score; no entry left out scores higher than any hit |
| `Actions.DenseIdsAreUnique` | actions.ts:7-10 | a table whose row `i` has id `i + 1` has no two rows with the same id |
| `Actions.NextIdIsFresh` | actions.ts:101 | the id `length + 1` is held by no existing row |
| `Actions.RoleOrDefault` | actions.ts:104 | an empty role becomes "viewer", any other role is kept, and the result is never empty |
| `Actions.NewUser` | actions.ts:100-105 | the new user has id `length + 1`, the given name and email, and the defaulted role |
| `Actions.CreateUserError` | actions.ts:88-97 | the input is rejected with "Name and email are required" exactly when the name or email is empty, with "User with this email already exists" exactly when both are present and the email is taken, and accepted otherwise |
| `Actions.AcceptedUserKeepsUsersOk` | actions.ts:93-108 | appending an accepted user keeps ids dense, emails unique and name, email and role non-empty |
| `Actions.NewDocument` | actions.ts:47-53 | the uploaded row has id `length + 1`, the file name as title, content "Mock content for " + name, user "1" and the given timestamp |
| `Actions.UploadKeepsDocumentsOk` | actions.ts:47-59 | appending the uploaded row keeps document ids dense, and its id is new |
| `Actions.InitialUsers` | actions.ts:7-10 | the two seeded users satisfy the user-table invariant |
| `Actions.InitialDocuments` | actions.ts:13-28 | the two seeded documents, each with its own creation timestamp, have dense ids |
| `Actions.FirstUploadReplacesSeededEntry` | actions.ts:48-56 | the first upload gets id "3", which the seeded store already holds, so the store does not grow and that entry is replaced |
| `Actions.SimulatedAnswer` | actions.ts:79 | the canned answer contains the question verbatim right after its fixed opening |
| `Actions.Registry.constructor` | actions.ts:7-28 | the tables start as the seeded rows and the invariants hold |
| `Actions.Registry.CreateUser` | actions.ts:87-113 | rejections return the right message and leave `users` unchanged; success appends exactly the new row with id `length + 1` and returns that id; the invariants are kept and `documents` never changes |
| `Actions.Registry.UploadDocument` | actions.ts:30-64 | without a file it fails with "No file provided" and changes neither table nor store; otherwise it upserts the mock content under id `length + 1` (a new id is enumerated last, a reused one keeps its place), appends the row and returns that id |
| `Actions.Registry.AskQuestion` | actions.ts:66-85 | the sources are exactly the store's search result (at most three) and the answer contains the question verbatim |
| `Route.RenderDocument` | route.ts:18 | a rendered document is "Document: ", the title, the label "\nContent: " and the content, in that order and nothing else |
| `Route.Context` | route.ts:18 | no documents give an empty context, and one document gives its rendering alone |
| `Route.ContextAppend` | route.ts:18 | the context of two runs of documents is their contexts joined by a blank line |
| `Route.ContextOrder` | route.ts:18 | every document, first and last included, is rendered after all earlier ones and before all later ones, with a separator only between neighbours |
| `Route.Prompt` | route.ts:21-30 | the prompt is the fixed instructions ("You are a helpful assistant … Context from documents:"), the context, the fixed blank-line spacing, "Question: " with the question verbatim, then the closing instruction, each at its exact position |
| `Route.Post` | route.ts:6-48 | status 400 with "Question is required" exactly for an absent or empty question; 200 exactly when retrieval and generation succeed, with the generated answer and the retrieved documents unchanged; 500 with "Failed to process your question" otherwise |
| `Route.RejectionConsultsNoProvider` | route.ts:10-12 | a missing question gets the same 400 response whatever retrieval and generation would do |
| `Route.BlankQuestionProceeds` | route.ts:10 | a question made only of blanks is not rejected |
| `Route.StoreBackedAnswer` | route.ts:14-43 | when retrieval is a document store's search, a successful answer's sources are exactly its hits: `min(3, entries)` of them, best first, each a stored entry with its own score, none outranked by an entry left out |

## Left out

- Delays (`setTimeout`), logging, `revalidatePath` and the `async` structure are not modelled. Every operation runs to completion in one step.
- Actions.Registry.UploadDocument: overlapping uploads are not modelled. `uploadDocument` reads `documents.length` (actions.ts:48) and then awaits `generateEmbeddings` (actions.ts:56) before the `push` (actions.ts:59). Two uploads that overlap therefore both get id `length + 1`. The table then holds a duplicate id, and the second upsert overwrites the first one's store entry. The dense-id and unique-id invariants hold only when uploads do not overlap. `createUser` has no `await` and is not affected.
- Floating point is not modelled. Embedding components and relevance scores are `real` values supplied by the caller in place of `Math.random()`, so NaN and rounding do not arise.
- The language-model call (`generateText` with `gpt-4o`, at most 500 tokens) is the `generate` parameter of `Route.Post`. Retrieval is the `search` parameter. Both may fail.
- `request.json()` is reduced to the `RequestBody` datatype. A `question` that is neither absent nor a string, such as a number or `false`, is not modelled.
- `FormData`/`File` handling: the file is an optional file name. Timestamps from `new Date().toISOString()` are opaque strings.
- `createUser`: `name`, `email` and `role` are strings; fields that are `undefined` at run time are not modelled. Its `{ success: true, userId }` result is `Ok(userId)` and a thrown `Error` is `Err(message)`. The same holds for `uploadDocument`.
- Embeddings.DocumentStore: the enumeration order of `Object.values` is modelled as insertion order. JavaScript puts integer-like keys first, in ascending numeric order. The two orders agree for the ids that uploads produce, which are ascending integers. Keys that clash with `Object.prototype` members (such as `"toString"` in `getDocumentById`) are not modelled.
- Embeddings.SortByRelevance: the sort is defined as a stable insertion sort, like the stable `Array.prototype.sort`. Its contract states order and permutation, but not stability.
- The user-interface components are not part of this model. These are the file uploader's progress timer, the document list's delete-by-filter and the question history.
