/** `controllers/post.js`: creating, listing, reading and deleting posts,
    and adding and removing comments. `getAllPosts` and `getPost` only read
    the collection and are functions of its contents; the others are
    methods that take the `PostStore` and call its writes. */
module PostController {
  import opened Js
  import opened Db
  import opened Http
  import opened PostModel
  import Auth

  /** What `v?.trim()` does: `undefined` for a missing value, the trimmed
      text for a string, and a TypeError for any other value, which has no
      `trim` method. */
  datatype TrimCall = Missing | Text(text: string) | NotString

  function TrimOf(v: Value): (t: TrimCall)
    ensures t.Text? <==> v.Str?
    ensures t.Text? ==> t.text == Trim(v.s) && Trimmed(t.text)
    ensures t.Missing? <==> v.Undefined? || v.Null?
  {
    match v
    case Undefined => Missing
    case Null => Missing
    case Str(s) => Text(Trim(s))
    case _ => NotString
  }

  /** `!v?.trim()` when it does not throw. */
  predicate Falsy(t: TrimCall) {
    t.Missing? || (t.Text? && t.text == "")
  }

  /** The test `!title?.trim() || !blog?.trim()` up to the first value that
      decides it: `None` when both texts are non-blank, a response otherwise
      (400, or 500 for the TypeError of a non-string). */
  function TitleBlogCheck(body: Body): (r: Option<Response>)
    ensures r.None? <==>
      Field(body, "title").Str? && !Blank(Field(body, "title").s)
      && Field(body, "blog").Str? && !Blank(Field(body, "blog").s)
    ensures TrimOf(Field(body, "title")).NotString? ==>
      r == Some(Auth.ErrorHandler(NotAFunction("title?.trim")))
    ensures Falsy(TrimOf(Field(body, "title"))) ==>
      r == Some(Response(400, Message("Title and blog are required")))
    ensures !TrimOf(Field(body, "title")).NotString? && !Falsy(TrimOf(Field(body, "title")))
            && TrimOf(Field(body, "blog")).NotString? ==>
      r == Some(Auth.ErrorHandler(NotAFunction("blog?.trim")))
    ensures !TrimOf(Field(body, "title")).NotString? && !Falsy(TrimOf(Field(body, "title")))
            && Falsy(TrimOf(Field(body, "blog"))) ==>
      r == Some(Response(400, Message("Title and blog are required")))
  {
    var title := TrimOf(Field(body, "title"));
    if title.NotString? then Some(Auth.ErrorHandler(NotAFunction("title?.trim")))
    else if Falsy(title) then Some(Response(400, Message("Title and blog are required")))
    else
      var blog := TrimOf(Field(body, "blog"));
      if blog.NotString? then Some(Auth.ErrorHandler(NotAFunction("blog?.trim")))
      else if Falsy(blog) then Some(Response(400, Message("Title and blog are required")))
      else None
  }

  /** `addPost`: a post with the trimmed title and blog, owned by the
      caller, created at the collection's current creation key. */
  method AddPost(store: PostStore, user: Auth.Claims, body: Body, newId: ObjectId) returns (r: Response)
    requires store.Valid()
    modifies store
    ensures store.Valid()
    ensures TitleBlogCheck(body).Some? ==> r == TitleBlogCheck(body).value && store.posts == old(store.posts)
    ensures r.status == 201 <==> store.clock == old(store.clock) + 1
    ensures r.status != 201 ==> store.clock == old(store.clock)
    ensures TitleBlogCheck(body).None? && CastObjectId(Str(user.id)).None? ==>
      r == Auth.ErrorHandler(ValidationError("Post validation")) && store.posts == old(store.posts)
    ensures TitleBlogCheck(body).None? && CastObjectId(Str(user.id)).Some? ==>
      var p := Post(newId, Trim(Field(body, "title").s), CastObjectId(Str(user.id)).value,
                    Trim(Field(body, "blog").s), [], old(store.clock));
      && (!PostConforms(p) ==>
            r == Auth.ErrorHandler(ValidationError("Post validation")) && store.posts == old(store.posts))
      && (PostConforms(p) && FindFirst(old(store.posts), IdMatches(newId)).Some? ==>
            r == Auth.ErrorHandler(DuplicateKey) && store.posts == old(store.posts))
      && (PostConforms(p) && FindFirst(old(store.posts), IdMatches(newId)).None? ==>
            r == Response(201, PostReply(p)) && store.posts == old(store.posts) + [p])
  {
    var check := TitleBlogCheck(body);
    if check.Some? {
      return check.value;
    }
    var title := Trim(Field(body, "title").s);
    var blog := Trim(Field(body, "blog").s);
    TrimTrimmed(title);
    TrimTrimmed(blog);
    var created := store.Create(PostInput(title, blog, Str(user.id)), newId);
    match created
    case Threw(err) => r := Auth.ErrorHandler(err);
    case Done(p) => r := Response(201, PostReply(p));
  }

  /** `getAllPosts`: every post once, newest first. */
  function GetAllPosts(posts: seq<Post>): (r: Response)
    ensures r.status == 200 && r.body.PostsReply?
    ensures multiset(r.body.posts) == multiset(posts)
    ensures CreationOrdered(posts) ==>
      forall i, j :: 0 <= i < j < |r.body.posts| ==> r.body.posts[i].createdAt > r.body.posts[j].createdAt
  {
    NewestFirstPermutes(posts);
    Response(200, PostsReply(NewestFirst(posts)))
  }

  /** `getPost`: the post with the id in the path, 404 when there is none,
      the CastError's 500 when the path segment is not an ObjectId. */
  function GetPost(posts: seq<Post>, postId: string): (r: Response)
    ensures CastObjectId(Str(postId)).None? ==> r == Auth.ErrorHandler(CastError)
    ensures CastObjectId(Str(postId)).Some? ==>
      var id := CastObjectId(Str(postId)).value;
      && (r.status == 404 <==> forall i :: 0 <= i < |posts| ==> posts[i].id != id)
      && (r.status == 404 ==> r.body == Message("Post not found"))
      && (r.status != 404 ==> exists i :: 0 <= i < |posts| && posts[i].id == id && r == Response(200, PostReply(posts[i])))
  {
    match CastObjectId(Str(postId))
    case None => Auth.ErrorHandler(CastError)
    case Some(id) =>
      match FindFirst(posts, IdMatches(id))
      case None => Response(404, Message("Post not found"))
      case Some(k) => Response(200, PostReply(posts[k]))
  }

  /** A post just created is what `getPost` returns for its id. */
  lemma CreatedPostIsFound(posts: seq<Post>, p: Post)
    requires forall i :: 0 <= i < |posts| ==> posts[i].id != p.id
    ensures GetPost(posts + [p], p.id) == Response(200, PostReply(p))
  {
    CastCanonical(p.id);
    var s := posts + [p];
    var k := FindFirst(s, IdMatches(p.id));
    assert IdMatches(p.id)(s[|posts|]);
  }

  /** After a post is deleted from a collection with unique ids, `getPost`
      answers 404 for its id. */
  lemma DeletedPostIsGone(posts: seq<Post>, k: nat)
    requires k < |posts|
    requires forall i, j :: 0 <= i < j < |posts| ==> posts[i].id != posts[j].id
    ensures GetPost(posts[..k] + posts[k + 1..], posts[k].id) == Response(404, Message("Post not found"))
  {
    CastCanonical(posts[k].id);
    var s := posts[..k] + posts[k + 1..];
    forall i | 0 <= i < |s| ensures s[i].id != posts[k].id {
      if i < k {
        assert s[i] == posts[i];
      } else {
        assert s[i] == posts[i + 1];
      }
    }
  }

  /** `addComment`: 400 for a missing or blank comment; otherwise the
      trimmed comment, by the caller, appended to the post, or 404. The push
      runs no validators (`PostStore.PushCommentUnvalidated`), so the
      comment's `maxlength` is not checked. */
  method AddComment(store: PostStore, user: Auth.Claims, postId: string, body: Body, commentId: ObjectId)
    returns (r: Response)
    requires store.Valid()
    modifies store
    ensures store.Valid() && store.clock == old(store.clock)
    ensures TrimOf(Field(body, "comment")).NotString? ==>
      r == Auth.ErrorHandler(NotAFunction("comment?.trim")) && store.posts == old(store.posts)
    ensures Falsy(TrimOf(Field(body, "comment"))) ==>
      r == Response(400, Message("Comment is required")) && store.posts == old(store.posts)
    ensures !Falsy(TrimOf(Field(body, "comment"))) && !TrimOf(Field(body, "comment")).NotString? ==>
      var text := TrimOf(Field(body, "comment")).text;
      var pid := CastObjectId(Str(postId));
      var uid := CastObjectId(Str(user.id));
      && (pid.None? || uid.None? ==> r == Auth.ErrorHandler(CastError) && store.posts == old(store.posts))
      && (pid.Some? && uid.Some? ==>
            var c := Comment(commentId, uid.value, text);
            var k := FindFirst(old(store.posts), IdMatches(pid.value));
            && (k.None? ==>
                  r == Response(404, Message("Post not found")) && store.posts == old(store.posts))
            && (k.Some? ==>
                  var q := WithComment(old(store.posts)[k.value], c);
                  r == Response(200, PostReply(q)) && store.posts == old(store.posts)[k.value := q]))
  {
    var comment := TrimOf(Field(body, "comment"));
    if comment.NotString? {
      return Auth.ErrorHandler(NotAFunction("comment?.trim"));
    }
    if Falsy(comment) {
      return Response(400, Message("Comment is required"));
    }
    TrimTrimmed(comment.text);
    var updated := store.PushCommentUnvalidated(Str(postId), Str(user.id), comment.text, commentId);
    match updated
    case Threw(err) => r := Auth.ErrorHandler(err);
    case Done(None) => r := Response(404, Message("Post not found"));
    case Done(Some(q)) => r := Response(200, PostReply(q));
  }

  /** `deletePost`: the post with that id is removed, the others stay in order. */
  method DeletePost(store: PostStore, postId: string) returns (r: Response)
    requires store.Valid()
    modifies store
    ensures store.Valid() && store.clock == old(store.clock)
    ensures CastObjectId(Str(postId)).None? ==> r == Auth.ErrorHandler(CastError) && store.posts == old(store.posts)
    ensures CastObjectId(Str(postId)).Some? ==>
      var k := FindFirst(old(store.posts), IdMatches(CastObjectId(Str(postId)).value));
      && (k.None? ==> r == Response(404, Message("Post not found")) && store.posts == old(store.posts))
      && (k.Some? ==> r == Response(200, Message("Post deleted"))
                      && store.posts == old(store.posts)[..k.value] + old(store.posts)[k.value + 1..])
  {
    var deleted := store.FindByIdAndDelete(Str(postId));
    match deleted
    case Threw(err) => r := Auth.ErrorHandler(err);
    case Done(None) => r := Response(404, Message("Post not found"));
    case Done(Some(_)) => r := Response(200, Message("Post deleted"));
  }

  /** `removeComment`: 404 unless the post exists and has that comment;
      otherwise every comment with that id leaves the post. */
  method RemoveComment(store: PostStore, postId: string, commentId: string) returns (r: Response)
    requires store.Valid()
    modifies store
    ensures store.Valid() && store.clock == old(store.clock)
    ensures CastObjectId(Str(postId)).None? || CastObjectId(Str(commentId)).None? ==>
      r == Auth.ErrorHandler(CastError) && store.posts == old(store.posts)
    ensures CastObjectId(Str(postId)).Some? && CastObjectId(Str(commentId)).Some? ==>
      var cid := CastObjectId(Str(commentId)).value;
      var k := FindFirst(old(store.posts), IdAndCommentMatch(CastObjectId(Str(postId)).value, cid));
      && (k.None? ==> r == Response(404, Message("Post or comment not found")) && store.posts == old(store.posts))
      && (k.Some? ==>
            var q := old(store.posts)[k.value].(comments := WithoutComment(old(store.posts)[k.value].comments, cid));
            r == Response(200, PostReply(q)) && store.posts == old(store.posts)[k.value := q])
  {
    var updated := store.PullComment(Str(postId), Str(commentId));
    match updated
    case Threw(err) => r := Auth.ErrorHandler(err);
    case Done(None) => r := Response(404, Message("Post or comment not found"));
    case Done(Some(q)) => r := Response(200, PostReply(q));
  }
}
