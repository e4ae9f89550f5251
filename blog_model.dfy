/** `blogSchema` and `commentSchema` (models/Blog.js): the stored form of a
    blog post, what constructing one does, and when Mongoose accepts it. */
module BlogModel {
  import opened Common
  import opened JsString
  import opened Schema

  datatype Comment = Comment(user: Option<Id>, comment: Option<string>, authorName: Option<string>)

  datatype Blog = Blog(
    title: Option<string>,
    ccc: Option<string>,
    plantType: Option<string>,
    content: Option<string>,
    cultivationTips: Option<string>,
    author: Option<string>,
    images: seq<Option<string>>,
    user: Option<Id>,
    comments: seq<Comment>,
    likes: seq<Id>,
    status: Option<string>,
    tags: seq<string>)

  const Statuses: seq<string> := ["published", "draft"]

  /** A comment names its author by id and by name and has a text of at most
      500 characters. */
  predicate CommentValid(c: Comment)
  {
    c.user.Some? && StringOk(c.comment, true, 500) && HasString(c.authorName)
  }

  function CommentErrors(c: Comment): (errs: seq<SchemaError>)
    ensures errs == [] <==> CommentValid(c)
  {
    CheckRef("comments.user", c.user)
    + CheckString("comments.comment", c.comment, true, 500)
    + CheckRequired("comments.authorName", c.authorName)
  }

  function AllCommentErrors(cs: seq<Comment>): (errs: seq<SchemaError>)
    ensures errs == [] <==> forall i :: 0 <= i < |cs| ==> CommentValid(cs[i])
  {
    if cs == [] then [] else CommentErrors(cs[0]) + AllCommentErrors(cs[1..])
  }

  /** Everything `blogSchema` demands of a document. */
  predicate Valid(b: Blog)
  {
    && StringOk(b.title, true, 200)
    && StringOk(b.ccc, true, 200)
    && StringOk(b.plantType, true, 100)
    && StringOk(b.content, true, 5000)
    && StringOk(b.cultivationTips, true, 2000)
    && StringOk(b.author, true, 100)
    && b.user.Some?
    && (forall i :: 0 <= i < |b.comments| ==> CommentValid(b.comments[i]))
    && EnumOk(b.status, false, Statuses)
    && (forall i :: 0 <= i < |b.tags| ==> |b.tags[i]| <= 50)
  }

  /** The validation errors Mongoose reports when saving `b`, in schema
      order; saving succeeds exactly when there are none. */
  function Validate(b: Blog): (errs: seq<SchemaError>)
    ensures errs == [] <==> Valid(b)
  {
    CheckString("title", b.title, true, 200)
    + CheckString("ccc", b.ccc, true, 200)
    + CheckString("plantType", b.plantType, true, 100)
    + CheckString("content", b.content, true, 5000)
    + CheckString("cultivationTips", b.cultivationTips, true, 2000)
    + CheckString("author", b.author, true, 100)
    + CheckRef("user", b.user)
    + AllCommentErrors(b.comments)
    + CheckEnum("status", b.status, false, Statuses)
    + CheckEach("tags", b.tags, 50)
  }

  function TrimOpt(v: Option<string>): Option<string>
  {
    if v.Some? then Some(Trim(v.value)) else None
  }

  /** `new Blog(fields)`: the `trim` setters on `title` and `ccc` and the
      default `status`; nothing else changes. */
  function Construct(b: Blog): (r: Blog)
    ensures r.title.Some? ==> IsTrimmed(r.title.value)
    ensures r.ccc.Some? ==> IsTrimmed(r.ccc.value)
    ensures r.status == (if b.status.None? then Some("published") else b.status)
    ensures EnumOk(b.status, false, Statuses) ==> EnumOk(r.status, false, Statuses)
    ensures r.(title := b.title, ccc := b.ccc, status := b.status) == b
  {
    b.(title := TrimOpt(b.title), ccc := TrimOpt(b.ccc),
       status := if b.status.None? then Some("published") else b.status)
  }

  /** Constructing a document twice is the same as constructing it once. */
  lemma ConstructIdempotent(b: Blog)
    ensures Construct(Construct(b)) == Construct(b)
  {
    if b.title.Some? { TrimIdempotent(b.title.value); }
    if b.ccc.Some? { TrimIdempotent(b.ccc.value); }
  }
}
