# BnrBackend posts API, modelled in Dafny

BnrBackend is a small blog REST API: users and posts stored in a relational
database, one CRUD resource (`api/posts`) served by `PostsController` through
`PostRepository`. This project models the part with behaviour of its own:

- `post.dfy` (module `Models`): the `User` and `Post` records and the
  request validation that `[Required]` on `Post.User`, `Post.Title` and
  `Post.Body` imposes before any action of the `[ApiController]` runs. A
  required string must be present and must not be empty or white space only
  (the white-space set is .NET's `char.IsWhiteSpace`); a required user must be
  present; `Id` is not required.
- `post_repository.dfy` (module `Repositories`): the repository as a class
  over two tables, `posts: map<int, Post>` and `users: map<int, User>`, and
  each table's id sequence (the largest id it has ever held). The invariant:
  every row is stored under its own id, no row has id 0, every stored post
  fills its NOT NULL columns (user, title, body) and references a stored
  user (the foreign key), and no id exceeds its table's sequence. The
  queries `GetAllPosts`, `GetPost` and `PostExists` are functions of the
  tables; `AddPost`, `UpdatePost` and `DeletePost` are methods that change
  them. What the database and its mapper decide is written out:
  - a row saved with id 0 gets a generated id, one more than its table's
    sequence, so a freed id is never handed out again (SQLite's
    `AUTOINCREMENT`, the store of the integration tests); a post added with
    an id keeps it, and the sequence rises to it;
  - an insert that leaves a NOT NULL column empty or reuses a stored id fails
    with `ConstraintViolated` (the mapper's `DbUpdateException`);
  - an update or delete that affects no row fails with `ConcurrencyConflict`
    (the mapper's `DbUpdateConcurrencyException`);
  - a user that resolution did not find: `AddPost` adds the whole post, so
    the user is inserted with it (under a generated id when it has none);
    `UpdatePost` marks only the post itself as modified, so the user is not
    saved, the post's foreign key names no stored user and the save fails
    with `ConstraintViolated`; a failed save changes nothing;
  - `GetAllPosts` lists rows in primary-key order (the query has no
    `OrderBy`; ascending id is the order chosen here).
- `posts_controller.dfy` (module `Controllers`): the five actions as methods
  of a `PostsController` class holding the repository, each returning an
  `ActionResult` (200 with a body, 201 naming the `GetPost` action, 204, 400,
  404, or an error that escapes the action). Below the class, a round trip
  (`CreateThenDelete`) and the flows of the integration tests written as
  verified clients of the contracts.
- `wrappers.dfy` (module `Wrappers`): `Option`, `Result`, `Outcome`.

Three details where the model follows the code as written:

- `Post` has no concurrency token, so the mapper raises its concurrency
  error on an update only when the update affects no row, that is, when the
  post's id is not stored; a row changed by someone else is simply
  overwritten. `PutPost` then asks whether the post exists: 404 when it
  does not, and the conflict re-raised
  (BnrBackend/Controllers/PostsController.cs:64) when another request has
  created it in between. That other request is an input of `PutPost`
  (`racer`), so both answers are reachable. An update whose user was not
  found fails on the foreign key, an error the action does not catch, so it
  escapes.
- User resolution (BnrBackend/Repositories/PostRepository.cs:37-39) only
  substitutes a user it finds; it does not reject an unknown one, so a
  create with an unknown user inserts a new user row.
- `IPostRepository.GetAllPosts()` (BnrBackend/Repositories/IPostRepository.cs:9)
  takes no argument, while the implementation and the controller use
  `GetAllPosts(int? userId)`. The model has the parameterised form.

## Model

| member | source | states |
|---|---|---|
| `Models.MissingValueInvalid` | BnrBackend/Models/Post.cs:8-13 | a post whose user, title or body is absent, or whose title or body is empty, fails validation |
| `Models.IdNotRequired` | BnrBackend/Models/Post.cs:7 | the id plays no part in validation: a post is valid with id 0 exactly when it is valid with any other id |
| `Models.ScenarioBodies` | BnrBackend.Test.Integration/Controllers/PostsControllerTests.cs:29-34 | the three request bodies that each lack title, body or user are invalid; the complete body with id 0 and a user given by id alone (the body the create test sends, line 103 of the same file) is valid |
| `Repositories.PostRepository.GetAllPosts` | BnrBackend/Repositories/PostRepository.cs:19-25 | a post is in the list iff it is a stored row and the filter passes it (no user id: every row; a user id: the rows whose user has that id); ids strictly ascend, so no row appears twice; each listed post carries its stored user |
| `Repositories.PostRepository.GetPost` | BnrBackend/Repositories/PostRepository.cs:27-33 | the result is present iff `PostExists(id)`; it is then the stored row with that id, carrying its stored user, and it equals every stored row with that id (the single match) |
| `Repositories.PostRepository.PostExists` | BnrBackend/Repositories/PostRepository.cs:61-64 | true iff some stored row has that id |
| `Repositories.PostRepository.ResolveUser` | BnrBackend/Repositories/PostRepository.cs:37-39 | only the user reference changes; it keeps the same user id; it becomes the stored user when one has that id and stays as sent otherwise |
| `Repositories.PostRepository.SavedUser` | BnrBackend/Repositories/PostRepository.cs:37-42 | the user a saved post references: the stored user with the sent id when there is one; otherwise the sent user, kept as sent when it has an id and given the next generated user id when it has none; never id 0 |
| `Repositories.PostRepository.AddPost` | BnrBackend/Repositories/PostRepository.cs:35-43 | succeeds iff the post fills its NOT NULL columns and its id is not stored; the stored row is the post with its saved user under its own id or, for id 0, under the sequence plus one; exactly that key is added, the saved user is stored (inserted if resolution did not find it), and the sequences rise to the new ids; a failure changes nothing; the invariant, foreign key included, is kept |
| `Repositories.PostRepository.UpdatePost` | BnrBackend/Repositories/PostRepository.cs:45-53 | a conflict iff the id is not stored; a constraint failure iff it is stored and the user was not found or a NOT NULL column is empty; otherwise the whole row with that id is replaced by the post with its stored user, and users and sequences are unchanged; a failure changes nothing |
| `Repositories.PostRepository.DeletePost` | BnrBackend/Repositories/PostRepository.cs:55-59 | exactly the key of the given post is removed, so `PostExists` of it is false afterwards; a conflict iff it was not stored; users and the post sequence unchanged, so the freed id is not generated again |
| `Controllers.PostsController.GetPosts` | BnrBackend/Controllers/PostsController.cs:21-25 | the answer is 200 with exactly the repository's `GetAllPosts(userId)`, the same user id passed on |
| `Controllers.PostsController.GetPost` | BnrBackend/Controllers/PostsController.cs:27-36 | 404 iff no post has the id; otherwise 200 with that stored post |
| `Controllers.PostsController.PostPost` | BnrBackend/Controllers/PostsController.cs:38-47 | 400 iff the body is invalid or its id is already stored, and then nothing changes; otherwise 201 naming `GetPost` with the new post's id, the post is stored under that id (the given one, or the sequence plus one for 0) with its saved user, that user is stored, and nothing else changes |
| `Controllers.PostsController.PutPost` | BnrBackend/Controllers/PostsController.cs:49-68 | 400 iff the body is invalid or the path id differs from its id, and then the update is not called; the update's conflict gives 404 iff `PostExists(id)` is false afterwards and is re-raised when it is true; its other errors propagate, and its success gives 204. Outright: 404 iff the id is not stored and no racing create stores it; the conflict is re-raised iff the id is not stored and a racing create stores a post under it, which is then the new row; the foreign-key failure escapes iff the id is stored but the user was not found; 204 otherwise, with that row replaced; in every other case nothing changes |
| `Controllers.PostsController.DeletePost` | BnrBackend/Controllers/PostsController.cs:70-80 | 404 iff no post has the id, with nothing deleted; otherwise 200 with the post as it was stored, and exactly that key is removed; users and both sequences are unchanged |
| `Controllers.CreateThenDelete` | BnrBackend/Controllers/PostsController.cs:38-80 | creating a valid post with a free id and deleting it by the reported id restores the posts table, and the deletion returns the created post |

## Left out

- Asynchrony (`async`/`Task`): every call is an ordinary sequential method; there is no in-process concurrency.
- HTTP plumbing: routing, model binding from JSON, camelCase serialisation, the `Location` header's text; responses are the `ActionResult` datatype.
- The mapper's internals: `FindAsync`, `Include`, change tracking and how `SaveChangesAsync` detects failures are represented only by the tables, the generated-id rule and the two error variants.
- `AddPost`, `UpdatePost`: the source assigns the resolved user and the generated id into the caller's `Post` object; here `Post` is a value and the updated post is returned instead, so aliasing between the caller's object and the stored row is not modelled.
- The inserted user's own columns: `User.cs` is not part of this model, so inserting a user that resolution did not find never fails on the user's columns.
- `UpdatePost`, `PutPost`: the save of a post whose user was not found is represented by `ConstraintViolated`, the foreign-key failure; which statement the mapper issues for the unsaved user, and so the exact error it raises, is not modelled.
- `AddPost`, `UpdatePost`: both require the post to carry a user, because the source dereferences `post.User.Id` and a null user raises a null-reference error; only validated bodies reach them from the controller.
- Id generation: ids and sequences are unbounded integers, so the 32-bit `int` overflow of a generated id is not modelled; the rule is SQLite's `AUTOINCREMENT`, and another store's identity column, which may skip ids or refuse an explicit id, is not modelled.
- `PutPost`: of the requests that may interleave with it, only a create of a complete post under the path id, landing between the failed update and the existence check, is modelled (the `racer` input); other interleavings, such as a delete or a change landing before the update, are not. Every other operation runs alone.
- `DeletePost`: the mapper's error when a different object with the same key is already tracked is not modelled; the controller always passes the object it just fetched.
- User: `User.cs` is not part of this model; `User` is a plain record with an id and three optional strings, with no validation of its own (a body whose user has only an id is accepted).
- Seeding (`SeedData.cs`) and the table configuration (`DataContext.cs`) have no behaviour of their own and are not part of this model; the client scenarios seed the tables directly.
