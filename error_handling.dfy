/**
 * backend/middleware/error.js: the central error handler, which turns a
 * thrown error into a JSON reply, and the fallback for unknown routes.
 */
module ErrorHandling {
  import opened Wrappers
  import opened Text
  import opened Http

  const ResourceNotFound := "Resource not found"
  const InvalidJwt := "Invalid token. Please login again."
  const ExpiredJwt := "Token expired. Please login again."
  const ServerError := "Server Error"
  /** Express's own answer when the handler itself throws. */
  const HandlerCrashed := "Internal Server Error"

  /** `field.charAt(0).toUpperCase() + field.slice(1)`. */
  function Capitalize(field: string): (r: string)
    ensures |r| == |field|
    ensures field != [] ==> r[0] == UpperChar(field[0]) && r[1..] == field[1..]
  {
    if field == [] then [] else [UpperChar(field[0])] + field[1..]
  }

  predicate IsTokenErrorName(name: string) {
    name == "JsonWebTokenError" || name == "TokenExpiredError"
  }

  /** The message and status rule that no `if` of the handler overrides. */
  function Fallback(err: AppError): Reply {
    Fail(if err.statusCode.None? || err.statusCode.value == 0 then 500 else err.statusCode.value,
         if err.message == [] then ServerError else err.message)
  }

  /**
   * `errorHandler`. Each matching rule overwrites message and status, so the
   * last match wins; an 11000 error without `keyValue` makes the handler
   * itself throw (`field` is undefined) and Express answers 500.
   */
  method HandleError(err: AppError) returns (reply: Reply)
    ensures !reply.success && reply.data == NoData && reply.message != []
    ensures err.code == Some(11000) && err.keyValue == [] ==> reply == Fail(500, HandlerCrashed)
    ensures err.code == Some(11000) && err.keyValue != [] && err.name != "ValidationError" && !IsTokenErrorName(err.name)
            ==> reply == Fail(400, Capitalize(err.keyValue[0]) + " already exists")
    ensures !(err.code == Some(11000) && err.keyValue == []) ==>
            && (err.name == "CastError" && err.code != Some(11000) ==> reply == Fail(404, ResourceNotFound))
            && (err.name == "ValidationError" ==>
                  reply == Fail(400, var joined := Join(err.errors, ", "); if joined == [] then ServerError else joined))
            && (err.name == "JsonWebTokenError" ==> reply == Fail(401, InvalidJwt))
            && (err.name == "TokenExpiredError" ==> reply == Fail(401, ExpiredJwt))
    ensures err.code != Some(11000) && err.name != "CastError" && err.name != "ValidationError" && !IsTokenErrorName(err.name)
            ==> reply == Fallback(err)
  {
    var message := err.message;
    var statusCode := err.statusCode;

    if err.name == "CastError" {
      message := ResourceNotFound;
      statusCode := Some(404);
    }

    if err.code == Some(11000) {
      if err.keyValue == [] {
        return Fail(500, HandlerCrashed);
      }
      var field := err.keyValue[0];
      message := Capitalize(field) + " already exists";
      statusCode := Some(400);
    }

    if err.name == "ValidationError" {
      message := Join(err.errors, ", ");
      statusCode := Some(400);
    }

    if err.name == "JsonWebTokenError" {
      message := InvalidJwt;
      statusCode := Some(401);
    }

    if err.name == "TokenExpiredError" {
      message := ExpiredJwt;
      statusCode := Some(401);
    }

    reply := Fail(if statusCode.None? || statusCode.value == 0 then 500 else statusCode.value,
                  if message == [] then ServerError else message);
  }

  /** `notFound`: every unmatched route answers 404 with a message naming the URL. */
  function NotFound(url: string): (r: Reply)
    ensures r.status == 404 && !r.success && r.data == NoData
    ensures |r.message| == |url| + 16 && StartsWith(r.message, "Route ") && r.message[6..6 + |url|] == url
    ensures r.message[6 + |url|..] == " not found"
  {
    Fail(404, "Route " + url + " not found")
  }
}
