/**
 * The post repository over an in-memory table: posts keyed by id, users
 * keyed by id. What the relational store and its mapper decide (generated
 * ids, NOT NULL columns, the "no row was affected" check of an update or a
 * delete) is written out explicitly here.
 */
module Repositories {
  import opened Wrappers
  import opened Models

  /** What saving changes can raise. */
  datatype DbError =
    | ConstraintViolated   // an insert or update rejected by a NOT NULL or primary-key constraint
    | ConcurrencyConflict  // an update or delete that affected no row

  /** The columns that `[Required]` makes NOT NULL: a stored post has a user,
      a title and a body (blank text is not a storage concern). */
  predicate NotNull(p: Post)
  {
    p.user.Some? && p.title.Some? && p.body.Some?
  }

  /** The query filter of `GetAllPosts`: no user id selects every post,
      otherwise only the posts whose user has that id. */
  predicate OwnedBy(p: Post, userId: Option<int>)
  {
    userId.None? || (p.user.Some? && p.user.value.id == userId.value)
  }

  /** `m` is the least element of `s`. */
  predicate IsLeast(m: int, s: set<int>)
  {
    m in s && forall k :: k in s ==> m <= k
  }

  /** Every non-empty finite set of integers has a least element. */
  lemma {:induction false} LeastExists(s: set<int>)
    requires s != {}
    ensures exists m :: IsLeast(m, s)
    decreases |s|
  {
    assert !(forall k :: k !in s) by {
      if forall k :: k !in s { assert false; }
    }
    var x :| x in s;
    var rest := s - {x};
    if rest == {} {
      assert IsLeast(x, s) by {
        forall k | k in s ensures x <= k { assert k !in rest; }
      }
    } else {
      LeastExists(rest);
      var m :| IsLeast(m, rest);
      var least := if x <= m then x else m;
      assert IsLeast(least, s) by {
        forall k | k in s ensures least <= k { if k != x { assert k in rest; } }
      }
    }
  }

  /** The least element of a non-empty set. */
  function Least(s: set<int>): (m: int)
    requires s != {}
    ensures IsLeast(m, s)
  {
    LeastExists(s);
    var m :| IsLeast(m, s);
    m
  }

  /** The ids of a table in primary-key order: each element of `s` once, in
      strictly ascending order. */
  function Ascending(s: set<int>): (r: seq<int>)
    ensures forall k :: k in r <==> k in s
    ensures forall i, j :: 0 <= i < j < |r| ==> r[i] < r[j]
    decreases |s|
  {
    if s == {} then []
    else
      var m := Least(s);
      [m] + Ascending(s - {m})
  }

  /** The larger of two integers. */
  function Max(a: int, b: int): (m: int)
    ensures m >= a && m >= b && (m == a || m == b)
  {
    if a >= b then a else b
  }

  /** A stored post references a stored user, and carries that user's row. */
  predicate References(p: Post, users: map<int, User>)
  {
    p.user.Some? && p.user.value.id in users && users[p.user.value.id] == p.user.value
  }

  /** The table invariant. Every post is stored under its own id, fills its
      NOT NULL columns and references a stored user (the foreign key); every
      user is stored under its own id. No row has id 0, which asks the store
      for a generated id; and each table's sequence, the largest id it has
      ever held, bounds its ids, so a generated id is never one in use or one
      freed by a delete. */
  ghost predicate WellFormed(posts: map<int, Post>, users: map<int, User>, postSeq: nat, userSeq: nat)
  {
    && (forall k :: k in posts ==> posts[k].id == k && NotNull(posts[k]) && References(posts[k], users))
    && (forall k :: k in posts ==> k <= postSeq)
    && (forall k :: k in users ==> users[k].id == k && k <= userSeq)
    && 0 !in posts && 0 !in users
  }

  class PostRepository {
    var posts: map<int, Post>
    var users: map<int, User>
    var postSeq: nat   // the largest post id ever stored
    var userSeq: nat   // the largest user id ever stored

    ghost predicate Valid()
      reads this
    {
      WellFormed(posts, users, postSeq, userSeq)
    }

    /** A repository over a store that already holds these rows. */
    constructor (posts: map<int, Post>, users: map<int, User>, postSeq: nat, userSeq: nat)
      requires WellFormed(posts, users, postSeq, userSeq)
      ensures Valid()
      ensures this.posts == posts && this.users == users
      ensures this.postSeq == postSeq && this.userSeq == userSeq
    {
      this.posts := posts;
      this.users := users;
      this.postSeq := postSeq;
      this.userSeq := userSeq;
    }

    /** `p` is the row stored under its id. */
    ghost predicate Stored(p: Post)
      reads this
    {
      p.id in posts && posts[p.id] == p
    }

    /** The posts under the listed keys, in the order listed, kept when they
        pass the user filter. */
    function Select(keys: seq<int>, userId: Option<int>): (r: seq<Post>)
      reads this
      requires Valid()
      requires forall i :: 0 <= i < |keys| ==> keys[i] in posts
      requires forall i, j :: 0 <= i < j < |keys| ==> keys[i] < keys[j]
      ensures forall p :: p in r ==> p.id in keys && Stored(p) && OwnedBy(p, userId)
      ensures forall p: Post :: p.id in keys && Stored(p) && OwnedBy(p, userId) ==> p in r
      ensures forall i, j :: 0 <= i < j < |r| ==> r[i].id < r[j].id
    {
      if keys == [] then []
      else
        var rest := Select(keys[1..], userId);
        var p := posts[keys[0]];
        if OwnedBy(p, userId) then [p] + rest else rest
    }

    /** All posts, or only those of one user, in primary-key order, each
        carrying its stored user. */
    function GetAllPosts(userId: Option<int>): (r: seq<Post>)
      reads this
      requires Valid()
      ensures forall p :: p in r <==> Stored(p) && OwnedBy(p, userId)
      ensures forall i, j :: 0 <= i < j < |r| ==> r[i].id < r[j].id
      ensures forall i :: 0 <= i < |r| ==> References(r[i], users)
    {
      Select(Ascending(posts.Keys), userId)
    }

    /** Whether some stored post has this id. */
    function PostExists(id: int): (b: bool)
      reads this
      requires Valid()
      ensures b <==> exists k :: k in posts && posts[k].id == id
    {
      id in posts
    }

    /** The single stored post with this id, carrying its stored user, or None. */
    function GetPost(id: int): (r: Option<Post>)
      reads this
      requires Valid()
      ensures r.Some? <==> PostExists(id)
      ensures forall k :: k in posts && posts[k].id == id ==> r == Some(posts[k])
      ensures r.Some? ==> Stored(r.value) && r.value.id == id && References(r.value, users)
    {
      if id in posts then Some(posts[id]) else None
    }

    /** The post with its embedded user replaced by the stored user with the
        same id, when there is one. */
    function ResolveUser(post: Post): (r: Post)
      reads this
      requires Valid() && post.user.Some?
      ensures r.(user := post.user) == post
      ensures r.user.Some? && r.user.value.id == post.user.value.id
      ensures post.user.value.id in users ==> r.user == Some(users[post.user.value.id])
      ensures post.user.value.id !in users ==> r == post
    {
      var id := post.user.value.id;
      if id in users then post.(user := Some(users[id])) else post
    }

    /** The user row a saved post references: the stored user with the sent
        id; otherwise the sent user itself, which the save inserts, under the
        next generated user id when it has none. */
    function SavedUser(u: User): (r: User)
      reads this
      requires Valid()
      ensures r.id != 0
      ensures u.id in users ==> r == users[u.id]
      ensures u.id !in users ==> r.id !in users && r.(id := u.id) == u
      ensures u.id !in users && u.id != 0 ==> r == u
      ensures u.id == 0 ==> r.id == userSeq + 1
    {
      if u.id in users then users[u.id]
      else if u.id == 0 then u.(id := userSeq + 1)
      else u
    }

    /** Inserts the post after resolving its user. A post without an id gets
        the next generated id; a post with an id keeps it, and the insert
        fails if that id is taken or a NOT NULL column is left empty. A user
        that resolution did not find is inserted with the post. A failed
        save changes nothing. */
    method AddPost(post: Post) returns (r: Result<Post, DbError>)
      requires Valid() && post.user.Some?
      modifies this
      ensures Valid()
      ensures r.Success? <==> NotNull(post) && post.id !in old(posts)
      ensures r.Failure? ==> r.error == ConstraintViolated && unchanged(this)
      ensures r.Success? ==>
        && r.value == post.(id := r.value.id, user := Some(old(SavedUser(post.user.value))))
        && r.value.id !in old(posts)
        && (post.id != 0 ==> r.value.id == post.id)
        && (post.id == 0 ==> r.value.id == old(postSeq) + 1)
        && posts == old(posts)[r.value.id := r.value]
        && users == old(users)[r.value.user.value.id := r.value.user.value]
        && postSeq == Max(old(postSeq), r.value.id)
        && userSeq == Max(old(userSeq), r.value.user.value.id)
    {
      var resolved := ResolveUser(post);
      if !NotNull(resolved) || (resolved.id != 0 && resolved.id in posts) {
        return Failure(ConstraintViolated);
      }
      var user := SavedUser(resolved.user.value);
      var id := if resolved.id == 0 then postSeq + 1 else resolved.id;
      var stored := resolved.(id := id, user := Some(user));
      posts := posts[id := stored];
      users := users[user.id := user];
      postSeq := Max(postSeq, id);
      userSeq := Max(userSeq, user.id);
      r := Success(stored);
    }

    /** Replaces the whole stored post with the same id by the given post,
        after resolving its user. Only the post's own entry is marked as
        modified, so a user that resolution did not find is not saved with
        it: the post's foreign key then names no stored user and the save
        fails on that constraint. Updating an id that is not stored affects
        no row and reports a concurrency conflict. A failed save changes
        nothing. */
    method UpdatePost(post: Post) returns (r: Result<Post, DbError>)
      requires Valid() && post.user.Some?
      modifies this
      ensures Valid()
      ensures r == Failure(ConcurrencyConflict) <==> post.id !in old(posts)
      ensures r == Failure(ConstraintViolated) <==>
        post.id in old(posts) && (post.user.value.id !in old(users) || !NotNull(post))
      ensures r.Success? <==>
        post.id in old(posts) && post.user.value.id in old(users) && NotNull(post)
      ensures r.Failure? ==> unchanged(this)
      ensures r.Success? ==>
        && r.value == old(ResolveUser(post))
        && r.value.user == Some(old(users)[post.user.value.id])
        && posts == old(posts)[post.id := r.value]
        && users == old(users) && postSeq == old(postSeq) && userSeq == old(userSeq)
    {
      var resolved := ResolveUser(post);
      if resolved.id !in posts {
        return Failure(ConcurrencyConflict);
      }
      if resolved.user.value.id !in users || !NotNull(resolved) {
        return Failure(ConstraintViolated);
      }
      posts := posts[resolved.id := resolved];
      r := Success(resolved);
    }

    /** Removes the stored post with the given post's id. Deleting an id that
        is not stored affects no row and reports a concurrency conflict. */
    method DeletePost(post: Post) returns (r: Outcome<DbError>)
      requires Valid()
      modifies this
      ensures Valid() && users == old(users)
      ensures postSeq == old(postSeq) && userSeq == old(userSeq)
      ensures r.Pass? <==> post.id in old(posts)
      ensures r.Fail? ==> r.error == ConcurrencyConflict
      ensures posts == old(posts) - {post.id}
      ensures !PostExists(post.id)
    {
      if post.id !in posts {
        return Fail(ConcurrencyConflict);
      }
      posts := posts - {post.id};
      r := Pass;
    }
  }
}
