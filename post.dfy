/**
 * The blog's two records and the request-validation rule that the
 * `[Required]` annotations on `Post` impose before any posts action runs.
 */
module Models {
  import opened Wrappers

  /** A blog author. Only `id` is needed to refer to one; a client may send
      a user whose other fields are absent. */
  datatype User = User(id: int, name: Option<string>, email: Option<string>, expertise: Option<string>)

  /** A blog post. `id` is 0 when the client leaves it out; the references
      and strings may be absent (null) in a request body. */
  datatype Post = Post(id: int, user: Option<User>, title: Option<string>, body: Option<string>)

  /** The characters for which .NET's `char.IsWhiteSpace` holds: the Unicode
      space, line and paragraph separators, the controls U+0009 to U+000D, and
      U+0085. */
  predicate IsWhiteSpace(c: char)
  {
    || ('\t' <= c <= '\r')
    || c == ' '
    || c == '\U{0085}'
    || c == '\U{00A0}'
    || c == '\U{1680}'
    || ('\U{2000}' <= c <= '\U{200A}')
    || c == '\U{2028}'
    || c == '\U{2029}'
    || c == '\U{202F}'
    || c == '\U{205F}'
    || c == '\U{3000}'
  }

  /** `string.IsNullOrWhiteSpace`, with null as None. */
  predicate IsNullOrWhiteSpace(s: Option<string>)
  {
    s.None? || forall i :: 0 <= i < |s.value| ==> IsWhiteSpace(s.value[i])
  }

  /** What `[Required]` accepts: a non-null object, and for a string one that
      is not empty or made of white space only (empty strings are not allowed
      by default). */
  predicate RequiredText(s: Option<string>)
  {
    !IsNullOrWhiteSpace(s)
  }

  /** Model validation of a request body: `User`, `Title` and `Body` carry
      `[Required]`; `Id` does not. */
  predicate IsValid(p: Post)
  {
    p.user.Some? && RequiredText(p.title) && RequiredText(p.body)
  }

  /** A post lacking any one of its required values is rejected, whatever its
      other fields hold. */
  lemma MissingValueInvalid(p: Post)
    ensures p.user.None? ==> !IsValid(p)
    ensures p.title.None? ==> !IsValid(p)
    ensures p.body.None? ==> !IsValid(p)
    ensures p.title == Some("") || p.body == Some("") ==> !IsValid(p)
  {
  }

  /** The id takes no part in validation: a post with the default id 0 is
      valid exactly when the same post with any other id is. */
  lemma IdNotRequired(p: Post, id: int)
    ensures IsValid(p.(id := id)) <==> IsValid(p.(id := 0))
  {
  }

  /** A string with one character outside the white-space set has text. */
  lemma TextAt(s: string, i: nat)
    requires i < |s| && !IsWhiteSpace(s[i])
    ensures RequiredText(Some(s))
  {
  }

  /** The request bodies of the create and update scenarios: the three posts
      that each lack one required value are rejected, and the complete post
      with the default id 0 and a user given by id alone is accepted. */
  lemma ScenarioBodies()
    ensures !IsValid(Post(0, Some(User(1, None, None, None)), None, Some("McPost")))
    ensures !IsValid(Post(0, Some(User(1, None, None, None)), Some("Posty"), None))
    ensures !IsValid(Post(0, None, Some("Posty"), Some("McPost")))
    ensures IsValid(Post(0, Some(User(1, None, None, None)), Some("Posty"), Some("McPost")))
  {
    TextAt("Posty", 0);
    TextAt("McPost", 0);
  }
}
