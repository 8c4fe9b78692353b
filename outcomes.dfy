/** Results of service calls and the exceptions that the services turn into them.

    Every public coroutine of the services is wrapped by `handle_exceptions`
    (services/utils.py), which returns the wrapped result when nothing is raised
    and an error record `{result: False, error_type, error_message}` otherwise. */
module Outcomes {

  datatype Option<+T> = None | Some(value: T)

  /** The exception classes whose names the services report. Both the HTTP
      client's `ClientError` (aiohttp) and the object store's `ClientError`
      (botocore) are named "ClientError", but only the first is caught by the
      lifecycle pruner. */
  datatype ErrorClass =
    | TypeError
    | ValueError
    | KeyError
    | OverflowError
    | FileNotFoundError
    | NotADirectoryError
    | OSError
    | HttpClientError
    | StoreClientError
    | IntegrityError
    | ValidationError
    | OtherError(name: string)

  /** `e.__class__.__name__` */
  function ClassName(c: ErrorClass): string
  {
    match c
    case TypeError => "TypeError"
    case ValueError => "ValueError"
    case KeyError => "KeyError"
    case OverflowError => "OverflowError"
    case FileNotFoundError => "FileNotFoundError"
    case NotADirectoryError => "NotADirectoryError"
    case OSError => "OSError"
    case HttpClientError => "ClientError"
    case StoreClientError => "ClientError"
    case IntegrityError => "IntegrityError"
    case ValidationError => "ValidationError"
    case OtherError(name) => name
  }

  /** A raised exception: its class and `str(e)`. */
  datatype Exception = Exception(cls: ErrorClass, message: string)

  /** A service response: a successful payload or the error record
      (`ExceptionSchema` with `result=False`). */
  datatype Response<+T> = Ok(value: T) | Fail(errorType: string, errorMessage: string)

  /** What a wrapped call did: returned a value or raised. */
  datatype Outcome<+T> = Returned(value: T) | Raised(exc: Exception)

  /** The error record `handle_exceptions` builds from a raised exception. */
  function ErrorResult<T>(e: Exception): (r: Response<T>)
    ensures r.Fail? && r.errorType == ClassName(e.cls) && r.errorMessage == e.message
  {
    Fail(ClassName(e.cls), e.message)
  }

  /** `handle_exceptions`: the wrapper never raises; a returned response passes
      through unchanged, an exception becomes an error record. Every modelled
      service method states its raising paths as `HandleExceptions(Raised(e))`. */
  function HandleExceptions<T>(o: Outcome<Response<T>>): (r: Response<T>)
    ensures r.Fail? <==> o.Raised? || o.value.Fail?
    ensures o.Returned? ==> r == o.value
    ensures o.Raised? ==> r == ErrorResult(o.exc)
  {
    match o
    case Returned(v) => v
    case Raised(e) => ErrorResult(e)
  }

  /** A decorated call that returns what another decorated call returned
      (`upload_picture` returning `upload_file`'s record, say) hands the inner
      error record on unchanged: wrapping twice is wrapping once. */
  lemma HandleExceptionsNested<T>(o: Outcome<Response<T>>)
    ensures HandleExceptions(Returned(HandleExceptions(o))) == HandleExceptions(o)
  {
  }
}
