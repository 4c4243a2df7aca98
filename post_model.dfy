/** The Post and Comment schemas (`models/Post.js`) and the post collection,
    with the four writes the post handlers make. */
module PostModel {
  import opened Js
  import opened Db

  /** A comment subdocument. Its timestamps are not modelled. */
  datatype Comment = Comment(id: ObjectId, userId: ObjectId, text: string)

  /** A post document. `createdAt` is the collection's creation key: larger
      means created later. `publishedAt`, `updatedAt` and `__v` are not modelled. */
  datatype Post = Post(
    id: ObjectId,
    title: string,
    userId: ObjectId,
    blog: string,
    comments: seq<Comment>,
    createdAt: nat)

  const TitleMaxLength := 200
  const CommentMaxLength := 2000

  /** The comment schema: `comment` is required, trimmed, at most 2000 long. */
  predicate CommentConforms(c: Comment) {
    c.text != "" && Trimmed(c.text) && Utf16Length(c.text) <= CommentMaxLength
  }

  /** The post schema's constraints on the post's own fields: `title`
      required, trimmed, at most 200 long; `blog` required and trimmed. */
  predicate PostFieldsConform(p: Post) {
    && p.title != "" && Trimmed(p.title) && Utf16Length(p.title) <= TitleMaxLength
    && p.blog != "" && Trimmed(p.blog)
  }

  /** The whole post schema: the post's own fields and every comment. */
  predicate PostConforms(p: Post) {
    && PostFieldsConform(p)
    && forall k :: 0 <= k < |p.comments| ==> CommentConforms(p.comments[k])
  }

  /** Every document of the collection conforms to the whole schema. */
  predicate AllConform(posts: seq<Post>) {
    forall i :: 0 <= i < |posts| ==> PostConforms(posts[i])
  }

  /** Creation keys increase along the natural order. */
  predicate CreationOrdered(posts: seq<Post>) {
    forall i, j :: 0 <= i < j < |posts| ==> posts[i].createdAt < posts[j].createdAt
  }

  /** The invariant of the collection: every post's own fields conform (they
      were validated on create), ids are unique, creation keys increase along
      the natural order and stay below `clock`. Comments are not part of it:
      the `$push` of the comment handler runs no validators. */
  predicate PostsWellFormed(posts: seq<Post>, clock: nat) {
    && (forall i :: 0 <= i < |posts| ==> PostFieldsConform(posts[i]) && posts[i].createdAt < clock)
    && (forall i, j :: 0 <= i < j < |posts| ==> posts[i].id != posts[j].id)
    && CreationOrdered(posts)
  }

  /** Appending a conforming post with a fresh id and the current creation
      key keeps the collection well formed under the next key. */
  lemma AppendKeepsWellFormed(posts: seq<Post>, clock: nat, p: Post)
    requires PostsWellFormed(posts, clock) && PostConforms(p) && p.createdAt == clock
    requires forall i :: 0 <= i < |posts| ==> posts[i].id != p.id
    ensures PostsWellFormed(posts + [p], clock + 1)
  {
    var s := posts + [p];
    forall i, j | 0 <= i < j < |s| ensures s[i].createdAt < s[j].createdAt {
      if j == |posts| { assert s[i] == posts[i]; }
    }
  }

  /** Rewriting one post in place with a post of the same id, creation key
      and conforming fields keeps the collection well formed. */
  lemma ReplaceKeepsWellFormed(posts: seq<Post>, clock: nat, k: nat, q: Post)
    requires PostsWellFormed(posts, clock) && k < |posts| && PostFieldsConform(q)
    requires q.id == posts[k].id && q.createdAt == posts[k].createdAt
    ensures PostsWellFormed(posts[k := q], clock)
  {
    var s := posts[k := q];
    assert forall i :: 0 <= i < |s| ==> s[i].id == posts[i].id && s[i].createdAt == posts[i].createdAt;
  }

  /** Removing one post keeps the collection well formed. */
  lemma RemoveKeepsWellFormed(posts: seq<Post>, clock: nat, k: nat)
    requires PostsWellFormed(posts, clock) && k < |posts|
    ensures PostsWellFormed(posts[..k] + posts[k + 1..], clock)
  {
    var s := posts[..k] + posts[k + 1..];
    assert forall i :: 0 <= i < |s| ==> s[i] == posts[if i < k then i else i + 1];
  }

  /** The fields handed to `Post.create`. `userId` is still to be cast. */
  datatype PostInput = PostInput(title: string, blog: string, userId: Value)

  predicate HasComment(cs: seq<Comment>, cid: ObjectId) {
    exists k :: 0 <= k < |cs| && cs[k].id == cid
  }

  /** The document `Post.create(input)` builds: title and blog trimmed by
      the setters, no comments, the given creation key. */
  function Draft(input: PostInput, userId: ObjectId, id: ObjectId, createdAt: nat): Post {
    Post(id, Trim(input.title), userId, Trim(input.blog), [], createdAt)
  }

  /** `$pull: { comments: { _id: cid } }`: the list shrinks exactly when a
      comment had that id (see `PullKeepsExactlyOthers` for which stay). */
  function WithoutComment(cs: seq<Comment>, cid: ObjectId): (r: seq<Comment>)
    ensures |r| <= |cs|
    ensures HasComment(cs, cid) <==> |r| < |cs|
  {
    if cs == [] then []
    else
      var rest := WithoutComment(cs[1..], cid);
      assert HasComment(cs, cid) <==> cs[0].id == cid || HasComment(cs[1..], cid) by {
        if HasComment(cs, cid) {
          var k :| 0 <= k < |cs| && cs[k].id == cid;
          assert k > 0 ==> cs[1..][k - 1].id == cid;
        }
        if HasComment(cs[1..], cid) {
          var k :| 0 <= k < |cs[1..]| && cs[1..][k].id == cid;
          assert cs[k + 1].id == cid;
        }
      }
      if cs[0].id == cid then rest else [cs[0]] + rest
  }

  /** Every comment with that id goes, every other stays. */
  lemma {:induction false} PullKeepsExactlyOthers(cs: seq<Comment>, cid: ObjectId)
    ensures forall j :: 0 <= j < |WithoutComment(cs, cid)| ==>
      WithoutComment(cs, cid)[j] in cs && WithoutComment(cs, cid)[j].id != cid
    ensures forall j :: 0 <= j < |cs| && cs[j].id != cid ==> cs[j] in WithoutComment(cs, cid)
  {
    if cs != [] {
      PullKeepsExactlyOthers(cs[1..], cid);
      var r := WithoutComment(cs, cid);
      var rest := WithoutComment(cs[1..], cid);
      assert r == if cs[0].id == cid then rest else [cs[0]] + rest;
      forall j | 0 <= j < |r| ensures r[j] in cs && r[j].id != cid {
        if cs[0].id != cid && j == 0 {
        } else {
          var m := if cs[0].id == cid then j else j - 1;
          assert r[j] == rest[m];
          assert rest[m] in cs[1..];
        }
      }
      forall j | 0 <= j < |cs| && cs[j].id != cid ensures cs[j] in r {
        if j > 0 {
          assert cs[j] == cs[1..][j - 1];
        }
      }
    }
  }

  lemma {:induction false} PullUndoesPush(cs: seq<Comment>, c: Comment)
    requires !HasComment(cs, c.id)
    ensures WithoutComment(cs + [c], c.id) == cs
  {
    var t := cs + [c];
    if cs == [] {
      assert t == [c] && t[1..] == [];
    } else {
      assert cs[0].id != c.id by { assert cs[0] == cs[0]; }
      forall k | 0 <= k < |cs[1..]| ensures cs[1..][k].id != c.id {
        assert cs[1..][k] == cs[k + 1];
      }
      PullUndoesPush(cs[1..], c);
      assert t[0] == cs[0] && t[1..] == cs[1..] + [c];
      calc {
        WithoutComment(t, c.id);
        [cs[0]] + WithoutComment(t[1..], c.id);
        [cs[0]] + cs[1..];
        cs;
      }
    }
  }

  /** The post after `$push` of one comment. */
  function WithComment(p: Post, c: Comment): (q: Post)
    ensures q.comments == p.comments + [c]
    ensures q.(comments := p.comments) == p
  {
    p.(comments := p.comments + [c])
  }

  /** Mongoose runs no validators on `findByIdAndUpdate` unless asked to, so
      the `$push` as the comment handler issues it stores a comment of any
      length: a conforming post takes a 2001-character comment and stops
      conforming. */
  lemma UnvalidatedPushBreaksSchema(p: Post, c: Comment)
    requires PostConforms(p)
    requires c.text == seq(CommentMaxLength + 1, _ => 'a')
    ensures !PostConforms(WithComment(p, c))
  {
    AsciiLength(c.text);
    var q := WithComment(p, c);
    assert q.comments[|q.comments| - 1] == c;
  }

  lemma {:induction false} AsciiLength(s: string)
    requires forall i :: 0 <= i < |s| ==> s[i] as int <= 0xFFFF
    ensures Utf16Length(s) == |s|
  {
    if s != [] {
      AsciiLength(s[1..]);
    }
  }

  /** The same `$push` with the validators run keeps a conforming post conforming. */
  lemma ValidatedPushKeepsSchema(p: Post, c: Comment)
    requires PostConforms(p) && CommentConforms(c)
    ensures PostConforms(WithComment(p, c))
  {
    var q := WithComment(p, c);
    forall k | 0 <= k < |q.comments| ensures CommentConforms(q.comments[k]) {
      if k < |p.comments| { assert q.comments[k] == p.comments[k]; }
    }
  }

  /** `find().sort({ createdAt: -1 })` on a collection whose creation keys
      increase along its natural order: the natural order reversed. */
  function NewestFirst(posts: seq<Post>): (r: seq<Post>)
    ensures |r| == |posts|
    ensures forall i :: 0 <= i < |r| ==> r[i] == posts[|posts| - 1 - i]
  {
    if posts == [] then [] else NewestFirst(posts[1..]) + [posts[0]]
  }

  /** The listing holds every post once and is ordered by `createdAt`, newest first. */
  lemma NewestFirstSorted(posts: seq<Post>)
    requires CreationOrdered(posts)
    ensures multiset(NewestFirst(posts)) == multiset(posts)
    ensures forall i, j :: 0 <= i < j < |posts| ==>
      NewestFirst(posts)[i].createdAt > NewestFirst(posts)[j].createdAt
  {
    NewestFirstPermutes(posts);
  }

  lemma {:induction false} NewestFirstPermutes(posts: seq<Post>)
    ensures multiset(NewestFirst(posts)) == multiset(posts)
  {
    if posts != [] {
      NewestFirstPermutes(posts[1..]);
      assert posts == [posts[0]] + posts[1..];
    }
  }

  function IdMatches(id: ObjectId): Post -> bool {
    (p: Post) => p.id == id
  }

  function IdAndCommentMatch(id: ObjectId, cid: ObjectId): Post -> bool {
    (p: Post) => p.id == id && HasComment(p.comments, cid)
  }

  /** The post collection. */
  class PostStore {
    var posts: seq<Post>
    var clock: nat

    ghost predicate Valid()
      reads this
    {
      PostsWellFormed(posts, clock)
    }

    constructor ()
      ensures Valid() && posts == []
    {
      posts := [];
      clock := 0;
    }

    /** `Post.create(input)`: `userId` cast, setters applied, `comments`
        defaulting to empty, then the validators, then the insert (a clash
        on `_id` is the duplicate-key error). A post that is stored takes
        the current creation key, and the key advances. */
    method Create(input: PostInput, id: ObjectId) returns (res: Outcome<Post>)
      requires Valid()
      modifies this
      ensures Valid()
      ensures CastObjectId(input.userId).None? ==>
        res == Threw(ValidationError("Post validation")) && posts == old(posts) && clock == old(clock)
      ensures CastObjectId(input.userId).Some? ==>
        var p := Draft(input, CastObjectId(input.userId).value, id, old(clock));
        && (!PostConforms(p) ==>
              res == Threw(ValidationError("Post validation")) && posts == old(posts) && clock == old(clock))
        && (PostConforms(p) && FindFirst(old(posts), IdMatches(id)).Some? ==>
              res == Threw(DuplicateKey) && posts == old(posts) && clock == old(clock))
        && (PostConforms(p) && FindFirst(old(posts), IdMatches(id)).None? ==>
              res == Done(p) && posts == old(posts) + [p] && clock == old(clock) + 1)
    {
      var uid := CastObjectId(input.userId);
      if uid.None? {
        return Threw(ValidationError("Post validation"));
      }
      var p := Draft(input, uid.value, id, clock);
      if !PostConforms(p) {
        return Threw(ValidationError("Post validation"));
      }
      if FindFirst(posts, IdMatches(id)).Some? {
        return Threw(DuplicateKey);
      }
      Insert(p);
      res := Done(p);
    }

    /** The insert itself: a conforming post with an unused id, stamped
        with the current creation key, goes to the end and the key advances. */
    method Insert(p: Post)
      requires Valid() && PostConforms(p) && p.createdAt == clock
      requires FindFirst(posts, IdMatches(p.id)).None?
      modifies this
      ensures Valid()
      ensures posts == old(posts) + [p] && clock == old(clock) + 1
    {
      forall i | 0 <= i < |posts| ensures posts[i].id != p.id {
        assert !IdMatches(p.id)(posts[i]);
      }
      AppendKeepsWellFormed(posts, clock, p);
      posts := posts + [p];
      clock := clock + 1;
    }

    /** An in-place update: the post at `k` becomes `q`, which keeps its id,
        creation key and conforming fields. */
    method Replace(k: nat, q: Post)
      requires Valid() && k < |posts| && PostFieldsConform(q)
      requires q.id == posts[k].id && q.createdAt == posts[k].createdAt
      modifies this
      ensures Valid()
      ensures posts == old(posts)[k := q] && clock == old(clock)
    {
      ReplaceKeepsWellFormed(posts, clock, k, q);
      posts := posts[k := q];
    }

    /** A delete: the post at `k` leaves, the others keep their order. */
    method Remove(k: nat)
      requires Valid() && k < |posts|
      modifies this
      ensures Valid()
      ensures posts == old(posts)[..k] + old(posts)[k + 1..] && clock == old(clock)
    {
      RemoveKeepsWellFormed(posts, clock, k);
      posts := posts[..k] + posts[k + 1..];
    }

    /** `findByIdAndUpdate(postId, { $push: { comments: { userId, comment } } },
        { new: true })`, as the comment handler issues it: both ids cast,
        no validators run, the comment appended to the post with that id, if
        there is one. */
    method PushCommentUnvalidated(postIdv: Value, userIdv: Value, text: string, commentId: ObjectId)
      returns (res: Outcome<Option<Post>>)
      requires Valid()
      modifies this
      ensures Valid() && clock == old(clock)
      ensures CastObjectId(postIdv).None? || CastObjectId(userIdv).None? ==>
        res == Threw(CastError) && posts == old(posts)
      ensures CastObjectId(postIdv).Some? && CastObjectId(userIdv).Some? ==>
        var c := Comment(commentId, CastObjectId(userIdv).value, Trim(text));
        var k := FindFirst(old(posts), IdMatches(CastObjectId(postIdv).value));
        && (k.None? ==> res == Done(None) && posts == old(posts))
        && (k.Some? ==>
              var q := WithComment(old(posts)[k.value], c);
              res == Done(Some(q)) && posts == old(posts)[k.value := q])
    {
      var pid := CastObjectId(postIdv);
      var uid := CastObjectId(userIdv);
      if pid.None? || uid.None? {
        return Threw(CastError);
      }
      var c := Comment(commentId, uid.value, Trim(text));
      var k := FindFirst(posts, IdMatches(pid.value));
      if k.None? {
        return Done(None);
      }
      var q := WithComment(posts[k.value], c);
      Replace(k.value, q);
      res := Done(Some(q));
    }

    /** The same push with `runValidators: true`, which the schema's
        `maxlength` evidently calls for: a comment that does not conform is
        a ValidationError and nothing is stored, so a collection whose
        documents all conform keeps conforming. */
    method PushComment(postIdv: Value, userIdv: Value, text: string, commentId: ObjectId)
      returns (res: Outcome<Option<Post>>)
      requires Valid()
      modifies this
      ensures Valid() && clock == old(clock)
      ensures AllConform(old(posts)) ==> AllConform(posts)
      ensures CastObjectId(postIdv).None? || CastObjectId(userIdv).None? ==>
        res == Threw(CastError) && posts == old(posts)
      ensures CastObjectId(postIdv).Some? && CastObjectId(userIdv).Some? ==>
        var c := Comment(commentId, CastObjectId(userIdv).value, Trim(text));
        var k := FindFirst(old(posts), IdMatches(CastObjectId(postIdv).value));
        && (!CommentConforms(c) ==> res == Threw(ValidationError("Validation")) && posts == old(posts))
        && (CommentConforms(c) && k.None? ==> res == Done(None) && posts == old(posts))
        && (CommentConforms(c) && k.Some? ==>
              var q := WithComment(old(posts)[k.value], c);
              res == Done(Some(q)) && posts == old(posts)[k.value := q])
    {
      var pid := CastObjectId(postIdv);
      var uid := CastObjectId(userIdv);
      if pid.None? || uid.None? {
        return Threw(CastError);
      }
      var c := Comment(commentId, uid.value, Trim(text));
      if !CommentConforms(c) {
        return Threw(ValidationError("Validation"));
      }
      var k := FindFirst(posts, IdMatches(pid.value));
      if k.None? {
        return Done(None);
      }
      var q := WithComment(posts[k.value], c);
      if AllConform(posts) {
        ValidatedPushKeepsSchema(posts[k.value], c);
      }
      ghost var before := posts;
      Replace(k.value, q);
      assert AllConform(before) ==> AllConform(posts) by {
        if AllConform(before) {
          forall i | 0 <= i < |posts| ensures PostConforms(posts[i]) {
            if i != k.value { assert posts[i] == before[i]; }
          }
        }
      }
      res := Done(Some(q));
    }

    /** `findByIdAndDelete(postId)`: the post with that id, if any, is removed
        and returned; every other post stays, in order. */
    method FindByIdAndDelete(postIdv: Value) returns (res: Outcome<Option<Post>>)
      requires Valid()
      modifies this
      ensures Valid() && clock == old(clock)
      ensures CastObjectId(postIdv).None? ==> res == Threw(CastError) && posts == old(posts)
      ensures CastObjectId(postIdv).Some? ==>
        var k := FindFirst(old(posts), IdMatches(CastObjectId(postIdv).value));
        && (k.None? ==> res == Done(None) && posts == old(posts))
        && (k.Some? ==> res == Done(Some(old(posts)[k.value]))
                        && posts == old(posts)[..k.value] + old(posts)[k.value + 1..])
    {
      var pid := CastObjectId(postIdv);
      if pid.None? {
        return Threw(CastError);
      }
      var k := FindFirst(posts, IdMatches(pid.value));
      if k.None? {
        return Done(None);
      }
      var gone := posts[k.value];
      Remove(k.value);
      res := Done(Some(gone));
    }

    /** `findOneAndUpdate({ _id: postId, "comments._id": commentId },
        { $pull: { comments: { _id: commentId } } }, { new: true })`: only a
        post that has that comment matches; from it every comment with that
        id is removed. */
    method PullComment(postIdv: Value, commentIdv: Value) returns (res: Outcome<Option<Post>>)
      requires Valid()
      modifies this
      ensures Valid() && clock == old(clock)
      ensures AllConform(old(posts)) ==> AllConform(posts)
      ensures CastObjectId(postIdv).None? || CastObjectId(commentIdv).None? ==>
        res == Threw(CastError) && posts == old(posts)
      ensures CastObjectId(postIdv).Some? && CastObjectId(commentIdv).Some? ==>
        var cid := CastObjectId(commentIdv).value;
        var k := FindFirst(old(posts), IdAndCommentMatch(CastObjectId(postIdv).value, cid));
        && (k.None? ==> res == Done(None) && posts == old(posts))
        && (k.Some? ==>
              var q := old(posts)[k.value].(comments := WithoutComment(old(posts)[k.value].comments, cid));
              res == Done(Some(q)) && posts == old(posts)[k.value := q])
    {
      var pid := CastObjectId(postIdv);
      var cid := CastObjectId(commentIdv);
      if pid.None? || cid.None? {
        return Threw(CastError);
      }
      var k := FindFirst(posts, IdAndCommentMatch(pid.value, cid.value));
      if k.None? {
        return Done(None);
      }
      var p := posts[k.value];
      var q := p.(comments := WithoutComment(p.comments, cid.value));
      assert PostConforms(p) ==> PostConforms(q) by {
        if PostConforms(p) {
          PullKeepsExactlyOthers(p.comments, cid.value);
          forall j | 0 <= j < |q.comments| ensures CommentConforms(q.comments[j]) {
            assert q.comments[j] in p.comments;
          }
        }
      }
      ghost var before := posts;
      Replace(k.value, q);
      assert AllConform(before) ==> AllConform(posts) by {
        if AllConform(before) {
          forall i | 0 <= i < |posts| ensures PostConforms(posts[i]) {
            if i != k.value { assert posts[i] == before[i]; }
          }
        }
      }
      res := Done(Some(q));
    }
  }
}
