/**
 * The operational error the controller hands to `next`: a message and an
 * HTTP status code. utils/appError.js is not part of this model; only the
 * two values the controller passes to its constructor are kept.
 */
module AppErrors {

  datatype AppError = AppError(message: string, statusCode: nat)

  /** An error the client caused (a 4xx status code). */
  predicate IsClientError(e: AppError) {
    400 <= e.statusCode < 500
  }
}
