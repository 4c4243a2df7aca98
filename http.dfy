/** The responses the handlers and middleware write: a status and the JSON
    body `res.status(s).json(...)` / `.send(...)` carries. */
module Http {
  import opened Js
  import UserModel
  import PostModel

  datatype Reply =
    | Message(message: string)                                // { message }
    | AuthFailed(message: string)                             // { auth: "Failed", message }
    | AuthNotFound(error: string, message: string)            // { auth: "Failed", error, message }
    | StatusText(text: string)                                // res.sendStatus(status)
    | ErrorReply(message: string, errorCode: Value, details: Value)  // { error: { message, errorCode, details } }
    | EmailAvailability(email: string, available: bool)
    | UserNameAvailability(userName: string, available: bool)
    | UserReply(message: string, user: UserModel.PublicUser)
    | AccessReply(message: string, access: string)
    | ProfileReply(user: UserModel.PublicUser)
    | PostReply(post: PostModel.Post)
    | PostsReply(posts: seq<PostModel.Post>)

  datatype Response = Response(status: int, body: Reply)
}
