/** Values shared by the two data-access classes: absent results, results that
    may carry a failure, and the failures the DAO methods raise. */
module DaoBase {

  /** The Java `null` of a lookup that found nothing. */
  datatype Option<+T> = None | Some(value: T)

  /** A normal return value, or the exception a DAO method raises instead. */
  datatype Result<+R, +E> = Success(value: R) | Failure(error: E)

  /** Why an `IncorrectDaoOperation` was raised (its message text is not modelled). */
  datatype Cause =
    | MissingCommentId   // addComment on a comment whose id is null
    | CommentWriteFailed // the insert of addComment was refused by the store
    | NullPreferences    // updateUserPreferences with a null payload

  /** The exceptions that leave the DAO methods. */
  datatype DaoError =
    | IncorrectDaoOperation(cause: Cause)
      // the store's write error, propagated unchanged (addUser does not catch it)
    | MongoWriteException
      // a method dereferenced the null result of a lookup
    | NullPointerException
}
