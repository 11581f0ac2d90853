/** The comment store of `CommentDao`: a collection of comments keyed by their
    id, the ownership-checked update and delete, and the commenter report. */
module Comments {
  import opened DaoBase
  import opened Ranking

  /** A comment id (the hex string of an ObjectId, treated as an opaque value). */
  type Id = string

  /** A comment document. Only `text` is ever changed by the store. */
  datatype Comment = Comment(
    id: Option<Id>,   // null until one is assigned; the store's `_id`
    email: string,    // author email
    name: string,     // author name
    movieId: string,
    text: string,
    date: int)        // creation timestamp, opaque

  /** The authors of the comments in a store. */
  function Commenters(store: map<Id, Comment>): set<string>
  {
    set k | k in store :: store[k].email
  }

  /** The number of comments in a store written by `email`. */
  function CommentsBy(store: map<Id, Comment>, email: string): nat
  {
    |set k | k in store && store[k].email == email|
  }

  /** The group stage of the commenter report: each author with the number
      of its comments. */
  function AuthorCounts(store: map<Id, Comment>): map<string, nat>
  {
    map e | e in Commenters(store) :: CommentsBy(store, e)
  }

  /** The group stage lists exactly the emails with at least one comment, each
      with its number of comments. */
  lemma AuthorCountsMeaning(store: map<Id, Comment>, email: string)
    ensures email in AuthorCounts(store) <==> CommentsBy(store, email) >= 1
    ensures email in AuthorCounts(store) ==> AuthorCounts(store)[email] == CommentsBy(store, email)
  {
    var written := set k | k in store && store[k].email == email;
    if email in Commenters(store) {
      var k :| k in store && store[k].email == email;
      assert k in written;
    }
    if |written| >= 1 {
      var k :| k in written;
      assert email in Commenters(store);
    }
  }

  class CommentDao {
    /** The comments collection, keyed by `_id`. */
    var comments: map<Id, Comment>

    /** Every stored comment carries the id it is stored under. */
    ghost predicate Valid()
      reads this
    {
      forall k | k in comments :: comments[k].id == Some(k)
    }

    /** A DAO over the comments collection as the database holds it; every
        stored comment is taken to carry the id it is stored under. */
    constructor(stored: map<Id, Comment>)
      requires forall k | k in stored :: stored[k].id == Some(k)
      ensures Valid() && comments == stored
    {
      comments := stored;
    }

    /** `getComment`: the stored comment whose id is `id`, if there is one. */
    function GetComment(id: Id): (r: Option<Comment>)
      reads this
      requires Valid()
      ensures r.Some? <==> exists k | k in comments :: comments[k].id == Some(id)
      ensures r.Some? ==> r.value.id == Some(id) && r.value in comments.Values
    {
      if id in comments then Some(comments[id]) else None
    }

    /** `addComment`: a comment without an id is refused before the store is
        reached; a comment whose id is already stored is refused by the store's
        unique `_id`; otherwise it is stored under its id and returned. */
    method AddComment(comment: Comment) returns (r: Result<Comment, DaoError>)
      requires Valid()
      modifies this
      ensures Valid()
      ensures comment.id.None? ==>
        r == Failure(IncorrectDaoOperation(MissingCommentId)) && comments == old(comments)
      ensures comment.id.Some? && comment.id.value in old(comments) ==>
        r == Failure(IncorrectDaoOperation(CommentWriteFailed)) && comments == old(comments)
      ensures comment.id.Some? && comment.id.value !in old(comments) ==>
        r == Success(comment) && comments == old(comments)[comment.id.value := comment]
    {
      if comment.id.None? {
        return Failure(IncorrectDaoOperation(MissingCommentId));
      }
      var id := comment.id.value;
      if id in comments {
        // the insert fails with a duplicate key error, rethrown as IncorrectDaoOperation
        return Failure(IncorrectDaoOperation(CommentWriteFailed));
      }
      comments := comments[id := comment];
      r := Success(comment);
    }

    /** `updateComment`: only the author may change the text. The comment is
        fetched and dereferenced without a null check, so an unknown id ends
        in a NullPointerException. Only `text` is set; the date is kept. */
    method UpdateComment(commentId: Id, text: string, email: string) returns (r: Result<bool, DaoError>)
      requires Valid()
      modifies this
      ensures Valid()
      ensures commentId !in old(comments) ==>
        r == Failure(NullPointerException) && comments == old(comments)
      ensures commentId in old(comments) && old(comments)[commentId].email != email ==>
        r == Success(false) && comments == old(comments)
      ensures commentId in old(comments) && old(comments)[commentId].email == email ==>
        && r == Success(true)
        && comments.Keys == old(comments).Keys
        && comments[commentId] == old(comments)[commentId].(text := text)
        && forall k | k in comments && k != commentId :: comments[k] == old(comments)[k]
    {
      var found := GetComment(commentId);
      if found.None? {
        return Failure(NullPointerException);
      }
      if found.value.email != email {
        return Success(false);
      }
      comments := comments[commentId := found.value.(text := text)];
      r := Success(true);
    }

    /** `deleteComment`: the comment is removed only when it exists and the
        caller is its author; in every other case nothing changes and the
        answer is false. */
    method DeleteComment(commentId: Id, email: string) returns (ok: bool)
      requires Valid()
      modifies this
      ensures Valid()
      ensures ok <==> commentId in old(comments) && old(comments)[commentId].email == email
      ensures ok ==> comments == old(comments) - {commentId}
      ensures !ok ==> comments == old(comments)
    {
      var found := GetComment(commentId);
      if found.None? || found.value.email != email {
        return false;
      }
      comments := comments - {commentId};
      ok := true;
    }

    /** `mostActiveCommenters`: runs the report pipeline (group by author,
        count, sort by descending count, keep the first 20) and collects the
        rows it yields into a list, in the order yielded. */
    method MostActiveCommenters() returns (mostActive: seq<Critic>)
      ensures IsRanking(AuthorCounts(comments), mostActive, ReportLimit)
      ensures forall i | 0 <= i < |mostActive| ::
        mostActive[i].count == CommentsBy(comments, mostActive[i].email)
    {
      var counts := AuthorCounts(comments);
      var cursor := SortAndLimit(counts, ReportLimit);
      mostActive := [];
      var i := 0;
      while i < |cursor|
        invariant 0 <= i <= |cursor|
        invariant mostActive == cursor[..i]
      {
        mostActive := mostActive + [cursor[i]];
        i := i + 1;
      }
      assert mostActive == cursor;
      forall i | 0 <= i < |mostActive|
        ensures mostActive[i].count == CommentsBy(comments, mostActive[i].email)
      {
        assert mostActive[i].email in counts;
        AuthorCountsMeaning(comments, mostActive[i].email);
      }
    }
  }
}
