/** The blog routes (routes/blogs.js) that change data: create, and the
    like toggle. Every field these routes set is declared in
    models/Blog.js, so the document they save is a `BlogModel.Blog`, and a
    save runs the schema's validation. */
module BlogRoutes {
  import opened Common
  import opened Schema
  import opened BlogModel
  import JsParse

  /** `likes.filter(id => id != x)`: every occurrence of `x` removed. */
  function RemoveAll(s: seq<Id>, x: Id): (r: seq<Id>)
    ensures x !in r
    ensures |r| <= |s|
    ensures x in s ==> |r| < |s|
    ensures forall y :: y in r ==> y in s
  {
    if s == [] then []
    else if s[0] == x then RemoveAll(s[1..], x)
    else [s[0]] + RemoveAll(s[1..], x)
  }

  /** `a` is `b` with some elements left out, the rest in order. */
  ghost predicate IsSubsequence(a: seq<Id>, b: seq<Id>)
  {
    if a == [] then true
    else if b == [] then false
    else (a[0] == b[0] && IsSubsequence(a[1..], b[1..])) || IsSubsequence(a, b[1..])
  }

  /** Removing `x` keeps every other id, as often as it occurred ... */
  lemma {:induction false} RemoveAllCounts(s: seq<Id>, x: Id)
    ensures multiset(RemoveAll(s, x)) == multiset(s)[x := 0]
  {
    if s != [] {
      RemoveAllCounts(s[1..], x);
      assert s == [s[0]] + s[1..];
    }
  }

  /** ... and in the order they had. */
  lemma {:induction false} RemoveAllKeepsOrder(s: seq<Id>, x: Id)
    ensures IsSubsequence(RemoveAll(s, x), s)
  {
    if s != [] {
      RemoveAllKeepsOrder(s[1..], x);
      var r := RemoveAll(s, x);
      if s[0] != x {
        assert r[0] == s[0] && r[1..] == RemoveAll(s[1..], x);
      }
    }
  }

  /** Removing an id that does not occur changes nothing. */
  lemma {:induction false} RemoveAllAbsent(s: seq<Id>, x: Id)
    requires x !in s
    ensures RemoveAll(s, x) == s
  {
    if s != [] {
      assert x !in s[1..];
      RemoveAllAbsent(s[1..], x);
    }
  }

  /** Removing `x` from `s + [x]` is removing it from `s`. */
  lemma {:induction false} RemoveAllAppended(s: seq<Id>, x: Id)
    ensures RemoveAll(s + [x], x) == RemoveAll(s, x)
  {
    if s == [] {
      assert [x][1..] == [];
    } else {
      assert (s + [x])[1..] == s[1..] + [x];
      RemoveAllAppended(s[1..], x);
    }
  }

  /** The like toggle: a liked blog is unliked (every occurrence of the id
      goes), otherwise the id is appended once. */
  function Toggle(likes: seq<Id>, x: Id): (r: seq<Id>)
    ensures x in likes ==> r == RemoveAll(likes, x) && x !in r && |r| < |likes|
    ensures x !in likes ==> r == likes + [x]
  {
    if x in likes then RemoveAll(likes, x) else likes + [x]
  }

  /** Liking and then unliking restores the list exactly. */
  lemma ToggleTwice(likes: seq<Id>, x: Id)
    requires x !in likes
    ensures Toggle(Toggle(likes, x), x) == likes
  {
    RemoveAllAppended(likes, x);
    RemoveAllAbsent(likes, x);
  }

  /** Toggling never changes the other ids' number of occurrences (their
      order is kept too: an unlike is RemoveAll, see RemoveAllKeepsOrder, and
      a like appends). */
  lemma ToggleKeepsOthers(likes: seq<Id>, x: Id, y: Id)
    requires y != x
    ensures multiset(Toggle(likes, x))[y] == multiset(likes)[y]
  {
    if x in likes {
      RemoveAllCounts(likes, x);
    }
  }

  /** The document of `POST /`: the four fields from the body and the
      requester's id as `author`; `ccc` and `user` are never set. */
  function NewBlog(title: Option<string>, content: Option<string>, plantType: Option<string>,
                   cultivationTips: Option<string>, requester: Id): (b: Blog)
    ensures b.title == title && b.content == content && b.plantType == plantType
    ensures b.cultivationTips == cultivationTips
    ensures b.author == Some(JsParse.NatToString(requester))
    ensures b.ccc.None? && b.user.None?
    ensures b.images == [] && b.comments == [] && b.likes == [] && b.tags == [] && b.status.None?
  {
    Blog(title, None, plantType, content, cultivationTips, Some(JsParse.NatToString(requester)),
         [], None, [], [], None, [])
  }

  /** Because the route never sets the required `ccc` and `user` paths, the
      schema rejects every blog it creates. */
  lemma NewBlogNeverValid(title: Option<string>, content: Option<string>, plantType: Option<string>,
                          cultivationTips: Option<string>, requester: Id)
    ensures var errs := Validate(Construct(NewBlog(title, content, plantType, cultivationTips, requester)));
            Required("ccc") in errs && Required("user") in errs
  {
    var b := Construct(NewBlog(title, content, plantType, cultivationTips, requester));
    var errs := Validate(b);
    var pre := CheckString("title", b.title, true, 200);
    assert errs[|pre|] == Required("ccc");
    var pre2 := pre + CheckString("ccc", b.ccc, true, 200) + CheckString("plantType", b.plantType, true, 100)
                + CheckString("content", b.content, true, 5000)
                + CheckString("cultivationTips", b.cultivationTips, true, 2000)
                + CheckString("author", b.author, true, 100);
    assert errs[|pre2|] == Required("user");
  }

  /** The like toggle leaves every validated path alone, so it never changes
      whether a document passes validation. */
  lemma ToggleKeepsValidation(b: Blog, x: Id)
    ensures Validate(b.(likes := Toggle(b.likes, x))) == Validate(b)
  {
  }

  /** What the handlers answer. */
  datatype Reply =
    | Ok(blog: Blog)                       // 200
    | NotFound                             // 404 {msg: 'Blog not found'}
    | Rejected(errors: seq<SchemaError>)   // 500, the validation error's message
    | ServerError                          // 500, any other failure

  function Status(r: Reply): int
  {
    match r
    case Ok(_) => 200
    case NotFound => 404
    case Rejected(_) => 500
    case ServerError => 500
  }

  class BlogStore {
    var blogs: map<Id, Blog>

    constructor (initial: map<Id, Blog>)
      ensures blogs == initial
    {
      blogs := initial;
    }

    /** `POST /`: the document is constructed and validated before it is
        saved; validation always fails (see NewBlogNeverValid), so the route
        answers 500 and stores nothing. */
    method Create(title: Option<string>, content: Option<string>, plantType: Option<string>,
                  cultivationTips: Option<string>, requester: Id) returns (r: Reply)
      ensures var b := Construct(NewBlog(title, content, plantType, cultivationTips, requester));
              r == Rejected(Validate(b))
      ensures r.Rejected? && Required("ccc") in r.errors && Required("user") in r.errors
    {
      var b := Construct(NewBlog(title, content, plantType, cultivationTips, requester));
      NewBlogNeverValid(title, content, plantType, cultivationTips, requester);
      var errs := Validate(b);
      assert errs != [];
      return Rejected(errs);
    }

    /** `POST /:id/like`: toggles the requester's like and saves; a rejected
        `findById` or `save` answers 500. */
    method Like(id: Id, requester: Id, lookupFails: bool, saveFails: bool) returns (r: Reply)
      modifies this
      ensures lookupFails ==> r == ServerError
      ensures !lookupFails && id !in old(blogs) ==> r == NotFound
      ensures !lookupFails && id in old(blogs) && Validate(old(blogs)[id]) != [] ==>
                r == Rejected(Validate(old(blogs)[id]))
      ensures id in old(blogs) && Validate(old(blogs)[id]) == [] && saveFails ==> r == ServerError
      ensures !r.Ok? ==> blogs == old(blogs)
      ensures r.Ok? <==> !lookupFails && id in old(blogs) && Validate(old(blogs)[id]) == [] && !saveFails
      ensures r.Ok? ==>
                && r.blog == old(blogs)[id].(likes := Toggle(old(blogs)[id].likes, requester))
                && blogs == old(blogs)[id := r.blog]
    {
      if lookupFails {
        return ServerError;
      }
      if id !in blogs {
        return NotFound;
      }
      var b := blogs[id];
      if requester in b.likes {
        b := b.(likes := RemoveAll(b.likes, requester));
      } else {
        b := b.(likes := b.likes + [requester]);
      }
      ToggleKeepsValidation(blogs[id], requester);
      var errs := Validate(b);
      if errs != [] {
        return Rejected(errs);
      }
      if saveFails {
        return ServerError;
      }
      blogs := blogs[id := b];
      return Ok(b);
    }
  }
}
