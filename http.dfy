/**
 * The Express-level vocabulary shared by the middleware, the controllers and
 * the routes: request bodies, JSON replies, thrown errors and what a
 * middleware does with a request (pass it on, answer it, or throw).
 */
module Http {
  import opened Wrappers
  import opened UserModel

  /** The JSON body fields the handlers read; `None` is an absent (undefined) field. */
  datatype Body = Body(
    fullName: Option<string>,
    email: Option<string>,
    password: Option<string>,
    currentPassword: Option<string>,
    newPassword: Option<string>,
    confirmPassword: Option<string>)

  /** One entry of the `errors` array a failed validation answers with. */
  datatype FieldError = FieldError(field: string, message: string)

  datatype Pagination = Pagination(currentPage: int, totalPages: int, totalUsers: nat, limit: int)

  /**
   * The `data` member of a reply. The handlers pick subsets of the public
   * fields for their `user` object; the model carries the whole public view.
   */
  datatype Data =
    | NoData
    | UserData(user: PublicAccount)
    | ProfileData(profile: Option<PublicAccount>)
    | AuthData(user: PublicAccount, token: string)
    | ListData(users: seq<PublicAccount>, pagination: Pagination)
    | ErrorList(errors: seq<FieldError>)

  /** `res.status(status).json({success, message, data})`; an empty message stands for no `message` member. */
  datatype Reply = Reply(status: int, success: bool, message: string, data: Data)

  function Fail(status: int, message: string): Reply {
    Reply(status, false, message, NoData)
  }

  /**
   * A thrown error as the error handler inspects it: `name`, `code`, the keys
   * of `keyValue`, the messages of `errors` in order, an own `statusCode`, and
   * `message`.
   */
  datatype AppError = AppError(
    name: string,
    code: Option<int>,
    keyValue: seq<string>,
    errors: seq<string>,
    statusCode: Option<int>,
    message: string)

  /** Mongoose's error for an id that is not an ObjectId. */
  function CastError(): AppError {
    AppError("CastError", None, [], [], None, "Cast to ObjectId failed")
  }

  /** The store's unique-index violation on `field`. */
  function DuplicateKey(field: string): AppError {
    AppError("MongoServerError", Some(11000), [field], [], None, "E11000 duplicate key error")
  }

  /** Mongoose's ValidationError carrying the failed validators' messages. */
  function SchemaValidation(messages: seq<string>): AppError {
    AppError("ValidationError", None, [], messages, None, "User validation failed")
  }

  /** Any other error, such as a TypeError or an error thrown by bcrypt. */
  function Thrown(name: string, message: string): AppError {
    AppError(name, None, [], [], None, message)
  }

  /** What a middleware does: call `next()`, answer the request, or throw to the error handler. */
  datatype Gate = Next | Halt(reply: Reply) | Raise(error: AppError)
}
