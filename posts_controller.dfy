/**
 * The posts endpoints: each action validates the request body, calls the
 * repository and turns what it gets back into a response.
 */
module Controllers {
  import opened Wrappers
  import opened Models
  import opened Repositories

  /** The responses an action can give, and the error that escapes an action
      when the repository raises one the action does not handle. */
  datatype ActionResult<T> =
    | Ok(value: T)                                        // 200 with a body
    | CreatedAtAction(actionName: string, id: int, value: T)  // 201 naming the action that fetches the new post
    | NoContent                                           // 204
    | BadRequest                                          // 400
    | NotFound                                            // 404
    | Unhandled(error: DbError)                           // the exception propagates to the caller

  class PostsController {
    const repository: PostRepository

    constructor (repository: PostRepository)
      ensures this.repository == repository
    {
      this.repository := repository;
    }

    /** GET api/posts?userId=: the repository's list, as it comes back. */
    method GetPosts(userId: Option<int>) returns (r: ActionResult<seq<Post>>)
      requires repository.Valid()
      ensures r == Ok(repository.GetAllPosts(userId))
      ensures forall p :: p in r.value <==> repository.Stored(p) && OwnedBy(p, userId)
    {
      r := Ok(repository.GetAllPosts(userId));
    }

    /** GET api/posts/{id}: the stored post, or 404. */
    method GetPost(id: int) returns (r: ActionResult<Post>)
      requires repository.Valid()
      ensures r == NotFound <==> id !in repository.posts
      ensures id in repository.posts ==> r == Ok(repository.posts[id])
    {
      var post := repository.GetPost(id);
      if post.None? {
        return NotFound;
      }
      r := Ok(post.value);
    }

    /** POST api/posts: 400 for a body that fails validation or whose id is
        already stored; otherwise the post is added and 201 names the
        GetPost action with the stored post's id. */
    method PostPost(post: Post) returns (r: ActionResult<Post>)
      requires repository.Valid()
      modifies repository
      ensures repository.Valid()
      ensures r == BadRequest <==> !IsValid(post) || post.id in old(repository.posts)
      ensures r == BadRequest ==> unchanged(repository)
      ensures r != BadRequest ==>
        && r.CreatedAtAction? && r.actionName == "GetPost" && r.id == r.value.id
        && r.value == post.(id := r.value.id, user := Some(old(repository.SavedUser(post.user.value))))
        && r.value.id !in old(repository.posts)
        && (post.id != 0 ==> r.value.id == post.id)
        && (post.id == 0 ==> r.value.id == old(repository.postSeq) + 1)
        && repository.posts == old(repository.posts)[r.value.id := r.value]
        && repository.users == old(repository.users)[r.value.user.value.id := r.value.user.value]
        && repository.postSeq == Max(old(repository.postSeq), r.value.id)
        && repository.userSeq == Max(old(repository.userSeq), r.value.user.value.id)
        && repository.PostExists(r.value.id)
    {
      if !IsValid(post) {
        return BadRequest;
      }
      var found := repository.PostExists(post.id);
      if found {
        return BadRequest;
      }
      var added := repository.AddPost(post);
      r := match added
        case Success(stored) => CreatedAtAction("GetPost", stored.id, stored)
        case Failure(e) => Unhandled(e);
    }

    /** PUT api/posts/{id}: 400 for a body that fails validation or whose id
        differs from the path id; otherwise the stored post is replaced and
        the answer is 204. A concurrency conflict from the update becomes 404
        when no post has the id and propagates otherwise; any other error,
        such as the foreign-key failure for a user that was not found,
        propagates. `racer` is a create by another request that lands
        between the failed update and the existence check (see `Races`);
        `updated` is what the update returned, None when the request was
        rejected before it. */
    method PutPost(id: int, post: Post, racer: Option<Post>) returns (r: ActionResult<()>, ghost updated: Option<Result<Post, DbError>>)
      requires repository.Valid()
      modifies repository
      ensures repository.Valid()
      ensures r == BadRequest <==> updated.None?
      ensures updated.None? <==> !IsValid(post) || id != post.id
      ensures updated == Some(Failure(ConcurrencyConflict)) ==>
        && (r == NotFound <==> !repository.PostExists(id))
        && (repository.PostExists(id) ==> r == Unhandled(ConcurrencyConflict))
      ensures updated == Some(Failure(ConstraintViolated)) ==> r == Unhandled(ConstraintViolated)
      ensures updated.Some? && updated.value.Success? ==> r == NoContent
      ensures r == NotFound <==>
        IsValid(post) && id == post.id && id !in old(repository.posts) && !Races(racer, id)
      ensures r == Unhandled(ConcurrencyConflict) <==>
        IsValid(post) && id == post.id && id !in old(repository.posts) && Races(racer, id)
      ensures r == Unhandled(ConstraintViolated) <==>
        IsValid(post) && id == post.id && id in old(repository.posts)
        && post.user.value.id !in old(repository.users)
      ensures r == NoContent <==>
        IsValid(post) && id == post.id && id in old(repository.posts)
        && post.user.value.id in old(repository.users)
      ensures r == NoContent ==>
        && repository.posts == old(repository.posts)[id := old(repository.ResolveUser(post))]
        && repository.users == old(repository.users)
        && repository.postSeq == old(repository.postSeq)
        && repository.userSeq == old(repository.userSeq)
      ensures r == Unhandled(ConcurrencyConflict) ==>
        var saved := old(repository.SavedUser(racer.value.user.value));
        && repository.posts == old(repository.posts)[id := racer.value.(user := Some(saved))]
        && repository.users == old(repository.users)[saved.id := saved]
        && repository.postSeq == Max(old(repository.postSeq), id)
        && repository.userSeq == Max(old(repository.userSeq), saved.id)
      ensures r != NoContent && r != Unhandled(ConcurrencyConflict) ==> unchanged(repository)
    {
      if !IsValid(post) {
        return BadRequest, None;
      }
      if id != post.id {
        return BadRequest, None;
      }
      var result := repository.UpdatePost(post);
      updated := Some(result);
      if result == Failure(ConcurrencyConflict) {
        if Races(racer, id) {
          var _ := repository.AddPost(racer.value);
        }
        var found := repository.PostExists(id);
        r := if found then Unhandled(ConcurrencyConflict) else NotFound;
        return;
      }
      r := match result
        case Success(_) => NoContent
        case Failure(e) => Unhandled(e);
    }

    /** DELETE api/posts/{id}: 404 when no post has the id; otherwise the
        post is removed and returned. */
    method DeletePost(id: int) returns (r: ActionResult<Post>)
      requires repository.Valid()
      modifies repository
      ensures repository.Valid() && repository.users == old(repository.users)
      ensures repository.postSeq == old(repository.postSeq)
      ensures repository.userSeq == old(repository.userSeq)
      ensures r == NotFound <==> id !in old(repository.posts)
      ensures id in old(repository.posts) ==> r == Ok(old(repository.posts)[id])
      ensures repository.posts == old(repository.posts) - {id}
      ensures !repository.PostExists(id)
    {
      var post := repository.GetPost(id);
      if post.None? {
        return NotFound;
      }
      var deleted := repository.DeletePost(post.value);
      r := match deleted
        case Pass => Ok(post.value)
        case Fail(e) => Unhandled(e);
    }
  }

  /** Whether another request's create lands in `PutPost` between its
      failed update and its existence check, storing a post under the path
      id: a complete post with that id, which is not the "generate one" id
      0. */
  predicate Races(racer: Option<Post>, id: int)
  {
    racer.Some? && racer.value.id == id && id != 0 && NotNull(racer.value)
  }

  /** Creating a post and then deleting it by the id the creation reports
      leaves the table as it was, and the deletion returns the created post. */
  method CreateThenDelete(c: PostsController, post: Post) returns (created: ActionResult<Post>, deleted: ActionResult<Post>)
    requires c.repository.Valid() && IsValid(post) && post.id !in c.repository.posts
    modifies c.repository
    ensures created.CreatedAtAction? && deleted == Ok(created.value)
    ensures c.repository.Valid() && c.repository.posts == old(c.repository.posts)
  {
    created := c.PostPost(post);
    deleted := c.DeletePost(created.id);
  }

  // A client of the contracts alone: the flows of the integration tests,
  // each over a store seeded with two users and one post by each.

  const Ann := User(1, Some("Some Gal"), Some("person@email.com"), Some("Driving"))
  const Bob := User(2, Some("Some Guy"), Some("human@email.com.com"), Some("Walking"))
  const First := Post(1, Some(Ann), Some("Beep Beep"), Some("I'm driving here!"))
  const Second := Post(2, Some(Bob), Some("Pitter Patter"), Some("Hey, I'm walking here!"))

  method Seeded() returns (c: PostsController)
    ensures fresh(c.repository) && c.repository.Valid()
    ensures c.repository.posts == map[1 := First, 2 := Second]
    ensures c.repository.users == map[1 := Ann, 2 := Bob]
    ensures c.repository.postSeq == 2 && c.repository.userSeq == 2
  {
    var repository := new PostRepository(map[1 := First, 2 := Second], map[1 := Ann, 2 := Bob], 2, 2);
    c := new PostsController(repository);
  }

  method ListScenario()
  {
    var c := Seeded();
    assert c.repository.Stored(First) && c.repository.Stored(Second);
    var all := c.GetPosts(None);
    assert First in all.value && Second in all.value;
    var mine := c.GetPosts(Some(1));
    assert First in mine.value && Second !in mine.value;
  }

  method ReadScenario()
  {
    var c := Seeded();
    var one := c.GetPost(1);
    assert one == Ok(First);
    var missing := c.GetPost(123);
    assert missing == NotFound;
  }

  method CreateScenario()
  {
    var c := Seeded();
    ScenarioBodies();
    assert c.repository.posts.Keys == {1, 2};
    var byId := User(1, None, None, None);
    var created := c.PostPost(Post(0, Some(byId), Some("Posty"), Some("McPost")));
    assert created.CreatedAtAction? && created.actionName == "GetPost";
    assert created.value.id == 3 && created.value.user == Some(Ann);
    var rejected := c.PostPost(Post(0, Some(byId), None, Some("McPost")));
    assert rejected == BadRequest;
    var duplicate := c.PostPost(First);
    assert duplicate == BadRequest;
    var stranger := User(99, None, None, None);
    var withNewUser := c.PostPost(Post(0, Some(stranger), Some("Posty"), Some("McPost")));
    assert withNewUser.CreatedAtAction? && withNewUser.value.id == 4;
    assert c.repository.users == map[1 := Ann, 2 := Bob, 99 := stranger];
  }

  method UpdateScenario()
  {
    var c := Seeded();
    var changed := Second.(title := Some("Change me"));
    TextAt("Change me", 0);
    TextAt("Hey, I'm walking here!", 0);
    var updated, _ := c.PutPost(2, changed, None);
    assert updated == NoContent;
    var fetched := c.GetPost(2);
    assert fetched == Ok(changed);
    var mismatched, _ := c.PutPost(1, changed, None);
    assert mismatched == BadRequest;
    var unknown, _ := c.PutPost(7, changed.(id := 7), None);
    assert unknown == NotFound;
    var raced, _ := c.PutPost(8, changed.(id := 8), Some(First.(id := 8)));
    assert raced == Unhandled(ConcurrencyConflict);
    var rows := c.GetPost(8);
    assert rows == Ok(First.(id := 8));
    var stranger := Some(User(99, None, None, None));
    var dangling, _ := c.PutPost(2, changed.(user := stranger), None);
    assert dangling == Unhandled(ConstraintViolated);
    var nobody := Some(User(0, Some("Nobody"), None, None));
    var unsaved, _ := c.PutPost(2, changed.(user := nobody), None);
    assert unsaved == Unhandled(ConstraintViolated);
    assert c.repository.users == map[1 := Ann, 2 := Bob];
  }

  method DeleteScenario()
  {
    var c := Seeded();
    var absent := c.DeletePost(999);
    assert absent == NotFound;
    var deleted := c.DeletePost(2);
    assert deleted == Ok(Second);
    var gone := c.GetPost(2);
    assert gone == NotFound;
    ScenarioBodies();
    var created := c.PostPost(Post(0, Some(User(1, None, None, None)), Some("Posty"), Some("McPost")));
    assert created.CreatedAtAction? && created.value.id == 3;
  }
}
