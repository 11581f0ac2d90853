/** What a caller can conclude from the DAO contracts alone about short
    sequences of calls. */
module Scenarios {
  import opened DaoBase
  import opened Documents
  import opened Comments
  import opened Users

  /** The author's update is visible to a later `getComment`; a second caller's
      update of the same comment is refused and changes nothing. */
  method UpdateByAuthorThenByOther(dao: CommentDao, id: Id, text: string, other: string, otherText: string)
    returns (first: Result<bool, DaoError>, second: Result<bool, DaoError>)
    requires dao.Valid() && id in dao.comments && dao.comments[id].email != other
    modifies dao
    ensures dao.Valid()
    ensures first == Success(true) && second == Success(false)
    ensures dao.GetComment(id) == Some(old(dao.comments[id]).(text := text))
    ensures dao.comments == old(dao.comments)[id := old(dao.comments[id]).(text := text)]
  {
    var author := dao.comments[id].email;
    first := dao.UpdateComment(id, text, author);
    second := dao.UpdateComment(id, otherText, other);
  }

  /** Deleting one's own comment succeeds once; the same call again answers
      false, and the comment is gone. */
  method DeleteTwice(dao: CommentDao, id: Id)
    returns (first: bool, second: bool)
    requires dao.Valid() && id in dao.comments
    modifies dao
    ensures dao.Valid()
    ensures first && !second
    ensures dao.GetComment(id).None? && dao.comments == old(dao.comments) - {id}
  {
    var author := dao.comments[id].email;
    first := dao.DeleteComment(id, author);
    second := dao.DeleteComment(id, author);
  }

  /** Two sessions created with the same token leave one session for it,
      bearing the second user id. */
  method SameTokenTwice(dao: UserDao, firstUser: string, secondUser: string, jwt: string)
    requires dao.Valid()
    modifies dao
    ensures Filter(dao.sessions, SessionFilter("jwt", jwt)) == [Session(secondUser, jwt)]
    ensures Filter(dao.sessions, Not(SessionFilter("jwt", jwt))) ==
            Filter(old(dao.sessions), Not(SessionFilter("jwt", jwt)))
  {
    var ok := dao.CreateUserSession(firstUser, jwt);
    ok := dao.CreateUserSession(secondUser, jwt);
  }

  /** Merging {a: 1} into no preferences, then {b: 2}, gives {a: 1, b: 2}. */
  lemma MergeExample()
    ensures Overlay(Some(Overlay(None, map["a" := "1"])), map["b" := "2"]) == map["a" := "1", "b" := "2"]
  {
    assert Overlay(None, map["a" := "1"]) == map["a" := "1"];
  }

  /** Two preference updates in a row merge: a user who had no preferences
      ends with the keys of both payloads. */
  method MergeTwice(dao: UserDao, email: string)
    returns (first: Result<bool, DaoError>, second: Result<bool, DaoError>)
    requires dao.Valid()
    requires dao.GetUser(email).Some? && dao.GetUser(email).value.preferences.None?
    modifies dao
    ensures first == Success(true) && second == Success(true)
    ensures dao.GetUser(email).Some?
    ensures dao.GetUser(email).value.preferences == Some(map["a" := "1", "b" := "2"])
  {
    first := dao.UpdateUserPreferences(email, Some(map["a" := "1"]));
    second := dao.UpdateUserPreferences(email, Some(map["b" := "2"]));
    MergeExample();
  }
}
