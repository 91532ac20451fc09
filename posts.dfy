/** The meaning of the operations on the list of posts, as functions of the
    list. The handlers in module Api are proved against these. */
module Posts {
  import opened Records

  /** The position of the first post whose id equals `id`: the post at which
      every handler's search loop stops. */
  function FirstIndex(posts: seq<Post>, id: int): (r: Option<nat>)
    ensures r.Some? ==> r.value < |posts| && posts[r.value].id == id
    ensures r.Some? ==> forall j | 0 <= j < r.value :: posts[j].id != id
    ensures r.None? <==> forall j | 0 <= j < |posts| :: posts[j].id != id
  {
    if |posts| == 0 then None
    else if posts[0].id == id then Some(0)
    else match FirstIndex(posts[1..], id)
      case None => None
      case Some(k) => Some(k + 1)
  }

  /** Python's `list.remove(x)`: drops the first element equal to `x`. */
  function ListRemove<T(==)>(s: seq<T>, x: T): (r: seq<T>)
    requires x in s
    ensures |r| == |s| - 1
    ensures multiset(r) == multiset(s) - multiset{x}
  {
    assert s == [s[0]] + s[1..];
    if s[0] == x then s[1..] else [s[0]] + ListRemove(s[1..], x)
  }

  /** `list.remove(x)` takes out exactly the element at the first position
      holding `x`, keeping the others in order. */
  lemma {:induction false} ListRemoveFirst<T>(s: seq<T>, x: T, k: nat)
    requires k < |s| && s[k] == x && x !in s[..k]
    ensures x in s
    ensures ListRemove(s, x) == s[..k] + s[k + 1..]
  {
    if k > 0 {
      assert s[0] in s[..k];
      assert s[1..][..k - 1] == s[..k][1..];
      ListRemoveFirst(s[1..], x, k - 1);
      assert s[1..][k..] == s[k + 1..];
      assert s[..k] == [s[0]] + s[1..][..k - 1];
    }
  }

  /** All ids are the positions counted from 1: true of the seeded list and
      of every list built by adding posts only. */
  predicate SequentialIds(posts: seq<Post>)
  {
    forall j | 0 <= j < |posts| :: posts[j].id == j + 1
  }

  /** The list after a create request: the body's title and content, with
      id one more than the length before the append, at the end. */
  function AfterAdd(posts: seq<Post>, body: PostSchema): (r: seq<Post>)
    ensures |r| == |posts| + 1 && r[..|posts|] == posts
    ensures r[|posts|] == Post(|posts| + 1, body.title, body.content)
  {
    posts + [Post(|posts| + 1, body.title, body.content)]
  }

  /** The list after an update request: the first post with the id gets the
      body's title and content; with no such post, the list as it was. */
  function AfterUpdate(posts: seq<Post>, id: int, body: PostUpdate): (r: seq<Post>)
    ensures |r| == |posts|
    ensures FirstIndex(posts, id).None? ==> r == posts
    ensures FirstIndex(posts, id).Some? ==>
      var i := FirstIndex(posts, id).value;
      r[i] == Post(id, body.title, body.content) &&
      forall j | 0 <= j < |r| && j != i :: r[j] == posts[j]
  {
    match FirstIndex(posts, id)
    case None => posts
    case Some(i) => posts[i := posts[i].(title := body.title, content := body.content)]
  }

  /** The list after a delete request: the first post with the id is removed
      the way the handler removes it, by `list.remove` of that record. That
      takes out exactly the first post with the id, since an earlier equal
      record would have had the same id; with no match the list is as it was. */
  function AfterDelete(posts: seq<Post>, id: int): (r: seq<Post>)
    ensures FirstIndex(posts, id).None? ==> r == posts
    ensures FirstIndex(posts, id).Some? ==>
      var i := FirstIndex(posts, id).value;
      r == posts[..i] + posts[i + 1..]
  {
    match FirstIndex(posts, id)
    case None => posts
    case Some(i) =>
      assert posts[i] !in posts[..i] by {
        forall j | 0 <= j < i ensures posts[..i][j] != posts[i] {
          assert posts[j].id != id;
        }
      }
      ListRemoveFirst(posts, posts[i], i);
      ListRemove(posts, posts[i])
  }

  /** Adding keeps ids sequential, so as long as nothing is deleted no two
      posts share an id (updates keep them too, see below). */
  lemma {:induction false} AddKeepsSequentialIds(posts: seq<Post>, body: PostSchema)
    requires SequentialIds(posts)
    ensures SequentialIds(AfterAdd(posts, body))
    ensures forall j, k | 0 <= j < k < |AfterAdd(posts, body)| ::
      AfterAdd(posts, body)[j].id != AfterAdd(posts, body)[k].id
  {
  }

  /** Updating keeps ids sequential too: an update never changes an id. */
  lemma UpdateKeepsSequentialIds(posts: seq<Post>, id: int, body: PostUpdate)
    requires SequentialIds(posts)
    ensures SequentialIds(AfterUpdate(posts, id, body))
  {
  }

  /** Ids are not unique: deleting any post but the last from a list with
      sequential ids and then adding one gives the new post the id of the
      post that was last. */
  lemma DeleteThenAddDuplicatesId(posts: seq<Post>, k: int, body: PostSchema)
    requires SequentialIds(posts) && 1 <= k < |posts|
    ensures var r := AfterAdd(AfterDelete(posts, k), body);
      |r| == |posts| && r[|r| - 2].id == |posts| && r[|r| - 1].id == |posts|
  {
    assert posts[k - 1].id == k;
    assert FirstIndex(posts, k) == Some(k - 1);
    var d := AfterDelete(posts, k);
    assert d[|d| - 1] == posts[|posts| - 1];
  }

  /** What the single-post lookup answers. `NullAnswer` is the handler falling
      off the end of its loop and answering nothing (null). */
  datatype SinglePost = NoSuchPost | Data(post: Post) | NullAnswer

  /** The lookup as written: an id above the list's length is an error
      without searching; otherwise the first post with the id, or nothing. */
  function Lookup(posts: seq<Post>, id: int): (r: SinglePost)
    ensures r == NoSuchPost <==> id > |posts|
    ensures r.Data? ==> r.post.id == id && r.post in posts
    ensures r.Data? ==>
      exists i | 0 <= i < |posts| :: posts[i] == r.post && forall j | 0 <= j < i :: posts[j].id != id
    ensures r == NullAnswer <==> id <= |posts| && forall j | 0 <= j < |posts| :: posts[j].id != id
  {
    if id > |posts| then NoSuchPost
    else match FirstIndex(posts, id)
      case Some(i) => Data(posts[i])
      case None => NullAnswer
  }

  /** The lookup as evidently intended: the first post with the id, and the
      error exactly when no post has it. */
  function LookupCorrected(posts: seq<Post>, id: int): (r: SinglePost)
    ensures r != NullAnswer
    ensures r == NoSuchPost <==> forall j | 0 <= j < |posts| :: posts[j].id != id
    ensures r.Data? ==> r.post.id == id
    ensures r.Data? ==>
      exists i | 0 <= i < |posts| :: posts[i] == r.post && forall j | 0 <= j < i :: posts[j].id != id
  {
    match FirstIndex(posts, id)
    case Some(i) => Data(posts[i])
    case None => NoSuchPost
  }

  /** The shortcut hides a post that exists: from ids [1, 2, 3], deleting 1
      leaves [2, 3], and looking up 3 answers "No such post". */
  lemma ShortcutHidesExistingPost()
    ensures var posts := AfterDelete([Post(1, "a", ""), Post(2, "b", ""), Post(3, "c", "")], 1);
      posts == [Post(2, "b", ""), Post(3, "c", "")] &&
      Lookup(posts, 3) == NoSuchPost && LookupCorrected(posts, 3) == Data(Post(3, "c", ""))
  {
  }

  /** The lookup falls off the end for an id no post has that is not above
      the length: on the seeded list, id 0 gets no answer at all. */
  lemma LookupFallsOff()
    ensures Lookup([Post(1, "Pancake", "Lorem Ipsum ...")], 0) == NullAnswer
    ensures LookupCorrected([Post(1, "Pancake", "Lorem Ipsum ...")], 0) == NoSuchPost
  {
  }

  /** The shortcut is sound while ids are sequential: then the lookup
      as written agrees with the intended one for every positive id. */
  lemma LookupAgreesOnSequentialIds(posts: seq<Post>, id: int)
    requires SequentialIds(posts) && id >= 1
    ensures Lookup(posts, id) == LookupCorrected(posts, id)
  {
    if id <= |posts| {
      assert posts[id - 1].id == id;
    }
  }
}
