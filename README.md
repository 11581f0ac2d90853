# mflix data-access layer, modelled in Dafny

This project models the two data-access classes of the mflix movie site:
`CommentDao`, which holds the movie comments, and `UserDao`, which holds the
users and their login sessions. Each class keeps the document collections it
talks to as in-memory state:

- `Comments.CommentDao` holds the comments collection as a map from comment
  id to `Comment`. Its invariant is that every stored comment carries the id
  it is stored under.
- `Users.UserDao` holds the users and sessions collections as sequences in
  natural order. Its invariant is that emails are unique (the unique index on
  `users.email`), and so are session jwt tokens. The upsert keeps the tokens unique once they
  are; that the stored sessions start so is an assumption, since no index
  enforces it.

Each DAO method becomes a method of that class. What the store does on the
method's behalf is written as functions in `Documents`:

- `find(filter).first()` is `FirstMatch`;
- `deleteOne(filter)` is `DeleteOne`;
- the documents a filter matches are `Filter`;
- the query filters `new Document(field, value)` are `SessionFilter` and
  `UserFilter`. A session document has only the fields `user_id` and `jwt`
  (`SessionField`), so a session filter on any other field matches nothing.

The commenter report runs the pipeline group by author email, count, sort by
descending count, keep 20. `Ranking.IsRanking` specifies it, and leaves the
order among equal counts open, as the store does. `Ranking.SortAndLimit`
computes one such report, and `Comments.CommentDao.MostActiveCommenters`
collects its rows in order.

Exceptions are values of `DaoBase.DaoError`:

- `IncorrectDaoOperation`, tagged with its cause;
- the store's `MongoWriteException`;
- the `NullPointerException` raised where the code dereferences a lookup that
  found nothing.

Where the doc comments of the code and its behaviour differ, the model
follows the code:

- `updateComment` sets only `text`. Its doc comment (CommentDao.java:101)
  also promises a new date. On an unknown id it fails with a
  NullPointerException, not with a "not found" answer.
- `updateUserPreferences` merges the payload into the stored map. Its doc
  comment (UserDao.java:141) says the payload replaces the existing
  preferences. On an unknown email it fails with a NullPointerException.
- `deleteUserSessions` deletes at most one session, filtered on `email`, a
  field sessions do not have, so it deletes none. Its name promises that the
  user's sessions are removed. See Findings.
- `addUser` lets the store's write error through. Its doc comment
  (UserDao.java:55) says it raises IncorrectDaoOperation.
- `updateComment` and `deleteComment` read the comment, then write it. A
  single filtered write would avoid the race between the read and the write;
  the model is sequential, so it does not arise here.
- The report sorts by descending count and keeps ties, so its counts are
  proved non-increasing, not strictly decreasing.

## Model

| member | source | states |
|---|---|---|
| `Comments.CommentDao.constructor` | src/main/java/mflix/api/daos/CommentDao.java:45-56 | a DAO opened on a stored comments collection whose comments carry their own ids holds exactly that collection and satisfies the store invariant |
| `Comments.CommentDao.GetComment` | src/main/java/mflix/api/daos/CommentDao.java:64-66 | a comment is returned iff some stored comment has that id, and the one returned has that id and is stored |
| `Comments.CommentDao.AddComment` | src/main/java/mflix/api/daos/CommentDao.java:79-95 | no id: IncorrectDaoOperation, store unchanged; id already stored: IncorrectDaoOperation (wrapped write error), store unchanged; fresh id: the same comment is returned and the store maps its id to it |
| `Comments.CommentDao.UpdateComment` | src/main/java/mflix/api/daos/CommentDao.java:110-120 | unknown id: NullPointerException and nothing changes; caller not the author: false and nothing changes; author: true, only the text of that comment changes, every other field and comment is kept |
| `Comments.CommentDao.DeleteComment` | src/main/java/mflix/api/daos/CommentDao.java:152-159 | true iff the id is stored and the caller is its author; then exactly that id is removed, otherwise nothing changes |
| `Comments.CommentDao.MostActiveCommenters` | src/main/java/mflix/api/daos/CommentDao.java:169-187 | the list returned is a report of the store (IsRanking with limit 20), and each row's count is the number of comments by that email |
| `Comments.AuthorCountsMeaning` | src/main/java/mflix/api/daos/CommentDao.java:179 | the group stage lists an email iff it wrote at least one comment, with the number of its comments |
| `Ranking.SortAndLimit` | src/main/java/mflix/api/daos/CommentDao.java:180-181 | the rows are min(20, authors) distinct authors with their counts, counts non-increasing, and no left-out author counts more than the last row |
| `Ranking.CountsDetermined` | src/main/java/mflix/api/daos/CommentDao.java:178-181 | any two reports for the same counts have the same length and the same count in every row: only the order of tied authors is open |
| `Ranking.NoLargerAt` | src/main/java/mflix/api/daos/CommentDao.java:180-181 | row i of one report never counts more than row i of another report of the same counts |
| `Ranking.AboveIsAmongFirst` | src/main/java/mflix/api/daos/CommentDao.java:180-181 | an author counting more than row i of a report appears before row i |
| `Ranking.LeaderFirst` | src/main/java/mflix/api/daos/CommentDao.java:178-181 | an author with strictly more comments than every other heads the report, with its count |
| `Users.UserDao.constructor` | src/main/java/mflix/api/daos/UserDao.java:39-49 | a DAO opened on stored users and sessions collections with unique emails and unique tokens holds exactly those collections and satisfies the store invariant |
| `Users.UserFilterMatchesAtMostOne` | src/main/java/mflix/api/daos/UserDao.java:97-98 | with unique emails the filter `UserFilter(email)` matches at most one user, the one `find(filter).first()` returns |
| `Users.UserDao.AddUser` | src/main/java/mflix/api/daos/UserDao.java:57-68 | an email already stored: MongoWriteException, users unchanged; otherwise true and the user is appended; sessions untouched |
| `Users.UserDao.CreateUserSession` | src/main/java/mflix/api/daos/UserDao.java:77-88 | returns true; afterwards exactly one session has the token and it bears the user id; the sessions of every other token are unchanged, in order; tokens stay unique |
| `Users.UpsertReplaces` | src/main/java/mflix/api/daos/UserDao.java:83-86 | an upsert on a token that has a session leaves only the new session for it, the other tokens' sessions in order, and the tokens distinct |
| `Users.UpsertInserts` | src/main/java/mflix/api/daos/UserDao.java:83-86 | an upsert on a token without a session leaves only the new session for it, the other tokens' sessions in order, and the tokens distinct |
| `Users.UserDao.GetUser` | src/main/java/mflix/api/daos/UserDao.java:96-100 | a user returned has that email and is stored; none is returned iff no stored user has that email |
| `Users.UserDao.GetUserSession` | src/main/java/mflix/api/daos/UserDao.java:108-112 | a session returned has that user id and is stored; none is returned iff no stored session has that user id |
| `Users.UserDao.DeleteUserSessions` | src/main/java/mflix/api/daos/UserDao.java:114-119 | returns true; the deleteOne on field `email` leaves the sessions as they were |
| `Users.UserDao.DeleteUserSessionsByUserId` | src/main/java/mflix/api/daos/UserDao.java:114-119 | returns true; when the user has a session one is removed, and every session of another user is kept in order |
| `Users.UserDao.DeleteUser` | src/main/java/mflix/api/daos/UserDao.java:127-135 | returns true; no user with the email remains, at most one user and one session are removed, every session with another user id is kept in order |
| `Users.UserDao.UpdateUserPreferences` | src/main/java/mflix/api/daos/UserDao.java:145-163 | null payload: IncorrectDaoOperation, nothing changes; unknown email: NullPointerException, nothing changes; otherwise true and only that user changes, its preferences becoming the old map (empty if absent) overlaid with the payload |
| `Users.PutAll` | src/main/java/mflix/api/daos/UserDao.java:157-159 | the loop that puts the payload entries one by one ends with the merge `Overlay` describes |
| `Users.Overlay` | src/main/java/mflix/api/daos/UserDao.java:153-159 | the merged map has the old keys and the payload keys; payload keys take the payload values, other keys keep their old values |
| `Users.OverlayTwice` | src/main/java/mflix/api/daos/UserDao.java:157-159 | two merges in a row equal one merge of both payloads: a key of the first payload not in the second survives |
| `Users.LogoutKeepsSession` | src/main/java/mflix/api/daos/UserDao.java:115-116 | the `email` filter leaves a user's only session in place, where the `user_id` filter removes it |
| `Users.DeleteUserByEmail` | src/main/java/mflix/api/daos/UserDao.java:129-130 | with unique emails, deleting by email leaves no user with that email and the emails unique |
| `Users.DeleteSessionKeepsTokens` | src/main/java/mflix/api/daos/UserDao.java:131-132 | deleteOne on the sessions keeps the tokens unique |
| `Documents.FirstMatch` | src/main/java/mflix/api/daos/UserDao.java:98 | the position returned holds a matching document and none before it matches; none is returned iff no document matches |
| `Documents.DeleteOne` | src/main/java/mflix/api/daos/UserDao.java:116 | removes the document at the first match, and nothing when none matches |
| `Documents.DeleteOneRemovesOneMatch` | src/main/java/mflix/api/daos/UserDao.java:130-132 | deleteOne shortens the collection by one exactly when something matches, removes one matching document, and keeps every non-matching one in order |
| `Documents.FirstMatchReplaced` | src/main/java/mflix/api/daos/UserDao.java:152-161 | writing back a document that still matches, at the position found, keeps it the first match |
| `Scenarios.UpdateByAuthorThenByOther` | src/main/java/mflix/api/daos/CommentDao.java:112-119 | the author's update is seen by a later getComment, and another caller's update then answers false and changes nothing: the store is the old one with only that comment's text replaced |
| `Scenarios.DeleteTwice` | src/main/java/mflix/api/daos/CommentDao.java:152-159 | the author's delete answers true once and false the second time, and the comment is gone |
| `Scenarios.SameTokenTwice` | src/main/java/mflix/api/daos/UserDao.java:83-86 | two sessions created with the same token leave one for it, bearing the second user id |
| `Scenarios.MergeExample` | src/main/java/mflix/api/daos/UserDao.java:153-159 | merging {a:1} into absent preferences, then {b:2}, gives {a:1, b:2} |
| `Scenarios.MergeTwice` | src/main/java/mflix/api/daos/UserDao.java:153-161 | a user without preferences updated with {a:1} then {b:2} has preferences {a:1, b:2} |

## Findings

| source | as written | input that shows it | evidently intended | confidence | as-written member | corrected member |
|---|---|---|---|---|---|---|
| src/main/java/mflix/api/daos/UserDao.java:115 | `deleteUserSessions` deletes one session matching `email == userId`, but session documents have only `user_id` and `jwt`, so nothing is ever deleted | sessions `[{user_id: "a@b.c", jwt: "t"}]`, call `deleteUserSessions("a@b.c")`: the session remains, and the answer is true | filter on `user_id`, as `deleteUser` does at line 131; the corrected member changes only the filter and keeps `deleteOne`, as `deleteUser` does at line 132, so it removes one session of the user, not all of them | not executed; high, if the session document has no `email` field (Session.java is not part of this model) | `Users.UserDao.DeleteUserSessions`, `Users.LogoutKeepsSession` | `Users.UserDao.DeleteUserSessionsByUserId` |

## Left out

- Spring wiring, codec registries, database and collection handles, and logging: these are wiring and library calls, not behaviour.
- Read and write concern (`WriteConcern.MAJORITY` on the comment and user inserts, `ReadConcern.MAJORITY` on the report): durability across replica failover has no meaning in a sequential in-memory model.
- ObjectId hex parsing and its exceptions: ids are opaque strings.
- Exception message text: an exception is an error tag, with a cause for IncorrectDaoOperation.
- Concurrency, and the check-then-act race between the read and the write in `updateComment`, `deleteComment` and `updateUserPreferences`: the model is sequential.
- The commented-out alternative implementations (CommentDao.java:131-150, UserDao.java:58-63): they are not live code.
- Null strings: emails, ids, texts and tokens are never null here. A null email in `Objects.equals` is not modelled.
- Preference values are strings: the runtime `(String)` cast on payload values is replaced by the payload type `map<string, string>`.
- `Comments.CommentDao.constructor`: the Java constructor opens the existing comments collection, whatever the database holds; the model takes those contents as a parameter and requires that every comment carries the id it is stored under.
- `Users.UserDao.constructor`: the Java constructor opens the existing users and sessions collections, whatever the database holds; the model takes those contents as parameters and requires unique emails and unique session tokens. Unique emails rest on the assumed index. Unique tokens are an assumption only, since no index in this code enforces them, and `Users.UserDao.CreateUserSession`'s "exactly one session has the token" depends on it.
- The unique index on `users.email` is assumed, not created. The index definition is not part of this model.
- User.java, Session.java, Comment.java and Critic.java are not part of this model. Their fields are taken as `Users.User`, `Users.Session`, `Comments.Comment` and `Ranking.Critic` declare them.
- The report aggregation does not run inside the store. `Ranking.SortAndLimit` computes it in memory, and the tie order it picks is arbitrary. Only what `Ranking.IsRanking` states is promised, as in the store.
