/** The server actions: the in-memory user and document tables, user
    creation, document upload and the simulated question answering.

    Both tables only grow. Ids are the table length plus one, rendered in
    decimal, so as long as operations do not overlap (each runs to completion
    here) row `i` has id `i + 1`; emails are unique among users. Timestamps
    are opaque values supplied by the caller. */
module Actions {
  import opened Common
  import opened Embeddings

  /** An ISO-8601 timestamp, taken as given. */
  type Timestamp = string

  datatype User = User(id: string, name: string, email: string, role: string)

  datatype DocumentRow = DocumentRow(id: string, title: string, content: string, userId: string, createdAt: Timestamp)

  /** What `askQuestion` returns. */
  datatype Answer = Answer(answer: string, sources: seq<SearchResult>)

  const NameAndEmailRequired: string := "Name and email are required"
  const EmailAlreadyUsed: string := "User with this email already exists"
  const NoFileProvided: string := "No file provided"
  const DefaultUserRole: string := "viewer"
  /** Uploads are attributed to this user. */
  const UploaderId: string := "1"

  /** Row `i` has id `i + 1`. */
  ghost predicate DenseIds(ids: seq<string>)
  {
    forall i :: 0 <= i < |ids| ==> ids[i] == NatToString(i + 1)
  }

  /** The id column of a table, `idOf` picking a row's id. */
  function Ids<Row>(rows: seq<Row>, idOf: Row -> string): (ids: seq<string>)
    ensures |ids| == |rows|
    ensures forall i :: 0 <= i < |rows| ==> ids[i] == idOf(rows[i])
  {
    seq(|rows|, i requires 0 <= i < |rows| => idOf(rows[i]))
  }

  function UserId(u: User): string { u.id }

  function DocumentId(d: DocumentRow): string { d.id }

  /** Dense ids are pairwise distinct. */
  lemma DenseIdsAreUnique(ids: seq<string>)
    requires DenseIds(ids)
    ensures forall i, j :: 0 <= i < j < |ids| ==> ids[i] != ids[j]
  {
    forall i, j | 0 <= i < j < |ids|
      ensures ids[i] != ids[j]
    {
      DistinctNumbersRenderDistinctly(i + 1, j + 1);
    }
  }

  /** The id the next row gets (length + 1) is held by no existing row. */
  lemma NextIdIsFresh(ids: seq<string>)
    requires DenseIds(ids)
    ensures forall i :: 0 <= i < |ids| ==> ids[i] != NatToString(|ids| + 1)
  {
    forall i | 0 <= i < |ids|
      ensures ids[i] != NatToString(|ids| + 1)
    {
      DistinctNumbersRenderDistinctly(i + 1, |ids| + 1);
    }
  }

  /** `users.find((user) => user.email === email)` finds a row. */
  predicate EmailTaken(users: seq<User>, email: string)
  {
    exists i :: 0 <= i < |users| && users[i].email == email
  }

  /** No two users share an email. */
  ghost predicate UniqueEmails(users: seq<User>)
  {
    forall i, j :: 0 <= i < j < |users| ==> users[i].email != users[j].email
  }

  /** The invariant of the user table: dense ids, unique emails, and the
      fields `createUser` insists on are present. */
  ghost predicate UsersOk(users: seq<User>)
  {
    && DenseIds(Ids(users, UserId))
    && UniqueEmails(users)
    && (forall i :: 0 <= i < |users| ==> users[i].name != "" && users[i].email != "" && users[i].role != "")
  }

  /** `userData.role || "viewer"`: an empty role falls back to the default;
      the resulting role is never empty. */
  function RoleOrDefault(role: string): (r: string)
    ensures r != ""
    ensures role == "" ==> r == DefaultUserRole
    ensures role != "" ==> r == role
  {
    if role == "" then DefaultUserRole else role
  }

  /** The row `createUser` appends to `users`. */
  function NewUser(users: seq<User>, name: string, email: string, role: string): (u: User)
    ensures u.id == NatToString(|users| + 1)
    ensures u.name == name && u.email == email && u.role == RoleOrDefault(role)
  {
    User(NatToString(|users| + 1), name, email, RoleOrDefault(role))
  }

  /** The message `createUser` throws for this input, if any. */
  function CreateUserError(users: seq<User>, name: string, email: string): (e: Option<string>)
    ensures e == Some(NameAndEmailRequired) <==> name == "" || email == ""
    ensures e == Some(EmailAlreadyUsed) <==> name != "" && email != "" && EmailTaken(users, email)
    ensures e.None? <==> name != "" && email != "" && !EmailTaken(users, email)
  {
    if name == "" || email == "" then Some(NameAndEmailRequired)
    else if EmailTaken(users, email) then Some(EmailAlreadyUsed)
    else None
  }

  /** Appending the row of an accepted `createUser` keeps the user table's
      invariant, so email uniqueness and dense ids hold of every reachable
      table. */
  lemma {:induction false} AcceptedUserKeepsUsersOk(users: seq<User>, name: string, email: string, role: string)
    requires UsersOk(users)
    requires CreateUserError(users, name, email).None?
    ensures UsersOk(users + [NewUser(users, name, email, role)])
  {
    var users' := users + [NewUser(users, name, email, role)];
    assert forall i :: 0 <= i < |users| ==> users'[i] == users[i];
    assert !EmailTaken(users, email);
  }

  /** The invariant of the document table: dense ids. */
  ghost predicate DocumentsOk(documents: seq<DocumentRow>)
  {
    DenseIds(Ids(documents, DocumentId))
  }

  /** The row `uploadDocument` appends for a file called `fileName`. */
  function NewDocument(documents: seq<DocumentRow>, fileName: string, now: Timestamp): (d: DocumentRow)
    ensures d.id == NatToString(|documents| + 1)
    ensures d.title == fileName && d.content == "Mock content for " + fileName
    ensures d.userId == UploaderId && d.createdAt == now
  {
    var id := NatToString(|documents| + 1);
    DocumentRow(id, fileName, "Mock content for " + fileName, UploaderId, now)
  }

  /** Appending an uploaded document keeps the ids dense, and its id is new. */
  lemma {:induction false} UploadKeepsDocumentsOk(documents: seq<DocumentRow>, fileName: string, now: Timestamp)
    requires DocumentsOk(documents)
    ensures DocumentsOk(documents + [NewDocument(documents, fileName, now)])
    ensures forall i :: 0 <= i < |documents| ==> documents[i].id != NewDocument(documents, fileName, now).id
  {
    var documents' := documents + [NewDocument(documents, fileName, now)];
    assert Ids(documents', DocumentId) == Ids(documents, DocumentId) + [NatToString(|documents| + 1)];
    NextIdIsFresh(Ids(documents, DocumentId));
  }

  function InitialUsers(): (users: seq<User>)
    ensures UsersOk(users)
  {
    [User("1", "John Doe", "john@example.com", "admin"),
     User("2", "Jane Smith", "jane@example.com", "editor")]
  }

  /** The two seeded documents, each stamped when its row was built. */
  function InitialDocuments(created1: Timestamp, created2: Timestamp): (documents: seq<DocumentRow>)
    ensures DocumentsOk(documents)
  {
    [DocumentRow("1", "Project Proposal", "This is a project proposal for the new initiative...", "1", created1),
     DocumentRow("2", "Financial Report", "Q1 financial report shows growth in all sectors...", "1", created2)]
  }

  /** The tables start with two rows while the embedding store is seeded with
      three entries, so the first upload gets id "3" and replaces the seeded
      "Meeting Notes.txt" entry instead of adding a fourth one. */
  lemma FirstUploadReplacesSeededEntry(created1: Timestamp, created2: Timestamp, now: Timestamp, fileName: string,
                                       store: map<string, StoredDocument>, sample: nat -> real)
    requires store.Keys == {"1", "2", "3"}
    ensures var id := NewDocument(InitialDocuments(created1, created2), fileName, now).id;
      && id == "3" && id in store
      && |Upsert(store, id, "Mock content for " + fileName, sample)| == |store|
      && Upsert(store, id, "Mock content for " + fileName, sample)["3"].title == "Document 3"
  {
    assert NatToString(3) == "3";
  }

  /** The simulated answer `askQuestion` gives. */
  function SimulatedAnswer(question: string): (a: string)
    ensures |a| == |AnswerPrefix| + |question| + |AnswerSuffix|
    ensures a[..|AnswerPrefix|] == AnswerPrefix
    ensures a[|AnswerPrefix|..|AnswerPrefix| + |question|] == question
  {
    AnswerPrefix + question + AnswerSuffix
  }

  const AnswerPrefix: string := "This is a simulated answer to your question: \""
  const AnswerSuffix: string :=
    "\"\n\nIn a real implementation, this would use Retrieval-Augmented Generation (RAG) to provide an accurate answer based on the documents in your collection."

  /** The module-level state of the actions: the two tables and the embedding
      store they share with the retrieval module. */
  class Registry {
    var users: seq<User>
    var documents: seq<DocumentRow>
    const store: DocumentStore

    ghost predicate Valid()
      reads this, store
    {
      UsersOk(users) && DocumentsOk(documents) && store.Valid()
    }

    constructor (created1: Timestamp, created2: Timestamp, store: DocumentStore)
      requires store.Valid()
      ensures Valid()
      ensures users == InitialUsers() && documents == InitialDocuments(created1, created2)
      ensures this.store == store
    {
      users := InitialUsers();
      documents := InitialDocuments(created1, created2);
      this.store := store;
    }

    /** `createUser({name, email, role})`. A missing name or email, or an
        email already in use, is rejected with the table unchanged; otherwise
        exactly one row with id `|users| + 1` is appended. */
    method CreateUser(name: string, email: string, role: string) returns (r: Result<string>)
      requires Valid()
      modifies this
      ensures Valid()
      ensures documents == old(documents)
      ensures (name == "" || email == "") ==> r == Err(NameAndEmailRequired)
      ensures name != "" && email != "" && EmailTaken(old(users), email) ==> r == Err(EmailAlreadyUsed)
      ensures r.Err? ==> users == old(users)
      ensures r.Ok? <==> CreateUserError(old(users), name, email).None?
      ensures r.Ok? ==> (r.value == NatToString(|old(users)| + 1)
                      && users == old(users) + [User(r.value, name, email, RoleOrDefault(role))])
    {
      var error := CreateUserError(users, name, email);
      if error.Some? {
        return Err(error.value);
      }
      AcceptedUserKeepsUsersOk(users, name, email, role);
      var newUser := NewUser(users, name, email, role);
      users := users + [newUser];
      r := Ok(newUser.id);
    }

    /** `uploadDocument(formData)` with the form's file given by its name.
        Without a file nothing changes; otherwise the store receives the
        mock content under id `|documents| + 1` and the row is appended. */
    method UploadDocument(file: Option<string>, now: Timestamp, sample: nat -> real) returns (r: Result<string>)
      requires Valid()
      modifies this, store
      ensures Valid()
      ensures users == old(users)
      ensures file.None? ==> (r == Err(NoFileProvided)
                           && documents == old(documents)
                           && store.entries == old(store.entries) && store.order == old(store.order))
      ensures file.Some? ==>
                var doc := NewDocument(old(documents), file.value, now);
                && r == Ok(doc.id)
                && documents == old(documents) + [doc]
                && store.entries == Upsert(old(store.entries), doc.id, doc.content, sample)
                && store.order == if doc.id in old(store.entries) then old(store.order)
                                  else old(store.order) + [doc.id]
    {
      if file.None? {
        return Err(NoFileProvided);
      }
      var doc := NewDocument(documents, file.value, now);
      store.GenerateEmbeddings(doc.id, doc.content, sample);
      UploadKeepsDocumentsOk(documents, file.value, now);
      documents := documents + [doc];
      r := Ok(doc.id);
    }

    /** `askQuestion(question)`: the sources are exactly what the search
        returns, and the answer quotes the question verbatim. */
    function AskQuestion(question: string, scores: seq<real>): (a: Answer)
      reads store
      requires store.Valid() && |scores| == |store.entries|
      ensures a.sources == store.SearchDocuments(question, scores)
      ensures |a.sources| == Min(TopK, |store.entries|)
      ensures |a.answer| > |AnswerPrefix| + |question|
      ensures a.answer[|AnswerPrefix|..|AnswerPrefix| + |question|] == question
    {
      Answer(SimulatedAnswer(question), store.SearchDocuments(question, scores))
    }
  }
}
