/**
 * The client's single error value. The error module of the client (`AppError`, its
 * `codeFromStatus` and `fromUnknown`) is not part of this model: the code set below is the
 * closed taxonomy the client's callers compare against, and the two conversion functions are
 * passed to the operations that use them as parameters, so nothing here fixes their mapping.
 */
module AppErrors {

  datatype ErrorCode =
    | Unauthorized   // "unauthorized"
    | Forbidden      // "forbidden"
    | NotFound       // "not_found"
    | Validation     // "validation"
    | ServerError    // "server_error"
    | NetworkError   // "network_error"
    | UnknownError   // "unknown"

  datatype AppError = AppError(code: ErrorCode, message: string)

  /** Any value a failed promise may carry: an `AppError` thrown by this client, or anything else. */
  datatype Thrown = ThrownAppError(appError: AppError) | ThrownOther(description: string)

  /** The codes for which a session is missing or insufficient. */
  predicate IsAuthFailure(code: ErrorCode) {
    code == Unauthorized || code == Forbidden
  }
}

/** The records the client reads from and sends to the server. */
module Entities {

  datatype User = User(id: string, username: string, role: string)

  datatype Forum = Forum(id: string, slug: string, title: string, description: string, category: string)

  datatype Post = Post(id: string, number: int, title: string, content: string, authorId: string, tags: seq<string>, createdAt: string)

  datatype Comment = Comment(id: string, number: int, content: string, authorId: string, createdAt: string)

  /** A page of results in the client's own field names (`PaginatedResponse<T>`). */
  datatype PaginatedResponse<T> = PaginatedResponse(items: seq<T>, totalCount: int, page: int, pageSize: int, totalPages: int)
}
