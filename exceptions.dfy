/**
 * The errors a service call can end with. The first nine constructors are the
 * exception classes of apps/exceptions/service_exception.py (all of them
 * subclasses of BaseServiceException); the rest are the Python and SQLAlchemy
 * exceptions that the services let through unwrapped.
 */
module Exceptions {

  datatype Error =
    | BaseServiceException  // a failed read; the in-memory store never fails a read
    | ModelNotSet           // a service without model_class; every service of the core sets one
    | RecordNotFound
    | RecordAlreadyDeleted  // declared but never raised: a repeated soft delete reports RecordNotFound
    | RecordNotDeleted
    | CreateFailed
    | UpdateFailed
    | DeleteFailed
    | RestoreFailed
    | AttributeError        // unknown filter field, field outside a whitelist, `.first()` on a list
    | ValueError            // search field outside the whitelist, int() of a non-number
    | TypeError             // invalid keyword argument to a model constructor; a refused commit in a BaseModel method (apps/models.py:50, 60, 70, 80)
    | IntegrityError        // a commit refused by the database, raised by session.commit() itself
    | MultipleResultsFound  // query.one() with more than one match
  {
    /** True exactly for the classes declared in service_exception.py. */
    predicate IsServiceException() {
      !(AttributeError? || ValueError? || TypeError? || IntegrityError? || MultipleResultsFound?)
    }
  }
}
