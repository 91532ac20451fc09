/** The blog API's in-memory store and its request handlers. The two lists
    the handlers share are fields of one `Store`; each handler is a method.

    The bearer-token guard on the create, update and delete routes is the
    boolean `authorized`: when it is false the guard rejects the request and
    the handler never runs. The token issuer is the function `signJwt` the
    store is built with. */
module Api {
  import opened Records
  import opened Posts
  import opened Users

  /** The messages of the post handlers. `Forbidden` is the guard's rejection. */
  datatype Reply =
    | PostAdded             // "post added."
    | PostUpdated(id: int)  // "post with id {id} has been updated."
    | PostRemoved(id: int)  // "post with id {id} has been removed."
    | PostNotFound(id: int) // "post with id {id} not found."
    | Forbidden

  /** The answer of signup and login: the issued token, or the login error. */
  datatype AuthReply =
    | AccessToken(token: string)
    | WrongLoginDetails     // "Wrong login details!"

  class Store {
    var posts: seq<Post>
    var users: seq<User>
    /** The token issuer, a function of the email. */
    const signJwt: string -> string

    /** The module state at start-up: one seeded post and no users. */
    constructor (signJwt: string -> string)
      ensures posts == [Post(1, "Pancake", "Lorem Ipsum ...")] && users == []
      ensures this.signJwt == signJwt
      ensures SequentialIds(posts)
    {
      this.signJwt := signJwt;
      posts := [Post(1, "Pancake", "Lorem Ipsum ...")];
      users := [];
    }

    /** Linear search for a user with the login's email and password. */
    method CheckUser(data: LoginData) returns (found: bool)
      ensures found == Registered(users, data)
    {
      var i := 0;
      while i < |users|
        invariant 0 <= i <= |users|
        invariant forall j | 0 <= j < i :: !(users[j].email == data.email && users[j].password == data.password)
      {
        var user := users[i];
        if user.email == data.email && user.password == data.password {
          return true;
        }
        i := i + 1;
      }
      return false;
    }

    /** All posts, as stored. */
    method GetPosts() returns (data: seq<Post>)
      ensures data == posts
    {
      data := posts;
    }

    /** The single-post lookup as written, with its length shortcut and its
        fall-through. */
    method GetSinglePost(id: int) returns (r: SinglePost)
      ensures r == Lookup(posts, id)
    {
      if id > |posts| {
        return NoSuchPost;
      }
      var i := 0;
      while i < |posts|
        invariant 0 <= i <= |posts|
        invariant forall j | 0 <= j < i :: posts[j].id != id
      {
        var post := posts[i];
        if post.id == id {
          return Data(post);
        }
        i := i + 1;
      }
      return NullAnswer;
    }

    /** The single-post lookup without the shortcut: it searches the whole
        list and reports "No such post" exactly when no post has the id. */
    method GetSinglePostCorrected(id: int) returns (r: SinglePost)
      ensures r == LookupCorrected(posts, id)
    {
      var i := 0;
      while i < |posts|
        invariant 0 <= i <= |posts|
        invariant forall j | 0 <= j < i :: posts[j].id != id
      {
        var post := posts[i];
        if post.id == id {
          return Data(post);
        }
        i := i + 1;
      }
      return NoSuchPost;
    }

    /** Appends the post with id one more than the current length. */
    method AddPost(authorized: bool, post: PostSchema) returns (reply: Reply)
      modifies this`posts
      ensures !authorized ==> reply == Forbidden && posts == old(posts)
      ensures authorized ==> reply == PostAdded && posts == AfterAdd(old(posts), post)
      ensures authorized ==> |posts| == |old(posts)| + 1 && posts[..|old(posts)|] == old(posts)
      ensures authorized ==> posts[|old(posts)|] == Post(|old(posts)| + 1, post.title, post.content)
    {
      if !authorized {
        return Forbidden;
      }
      var stored := Post(|posts| + 1, post.title, post.content);
      posts := posts + [stored];
      return PostAdded;
    }

    /** Overwrites the title and content of the first post with the id. */
    method UpdatePost(authorized: bool, id: int, body: PostUpdate) returns (reply: Reply)
      modifies this`posts
      ensures !authorized ==> reply == Forbidden && posts == old(posts)
      ensures authorized ==> posts == AfterUpdate(old(posts), id, body)
      ensures authorized && FirstIndex(old(posts), id).None? ==>
        reply == PostNotFound(id) && posts == old(posts)
      ensures authorized && FirstIndex(old(posts), id).Some? ==>
        var i := FirstIndex(old(posts), id).value;
        reply == PostUpdated(id) && |posts| == |old(posts)| &&
        posts[i] == Post(id, body.title, body.content) &&
        forall j | 0 <= j < |posts| && j != i :: posts[j] == old(posts)[j]
    {
      if !authorized {
        return Forbidden;
      }
      var i := 0;
      while i < |posts|
        invariant 0 <= i <= |posts|
        invariant posts == old(posts)
        invariant forall j | 0 <= j < i :: posts[j].id != id
      {
        var post := posts[i];
        if post.id == id {
          posts := posts[i := post.(title := body.title, content := body.content)];
          return PostUpdated(id);
        }
        i := i + 1;
      }
      return PostNotFound(id);
    }

    /** Removes the first post with the id, by `list.remove` of that record. */
    method DeletePost(authorized: bool, id: int) returns (reply: Reply)
      modifies this`posts
      ensures !authorized ==> reply == Forbidden && posts == old(posts)
      ensures authorized ==> posts == AfterDelete(old(posts), id)
      ensures authorized && FirstIndex(old(posts), id).None? ==>
        reply == PostNotFound(id) && posts == old(posts)
      ensures authorized && FirstIndex(old(posts), id).Some? ==>
        var i := FirstIndex(old(posts), id).value;
        reply == PostRemoved(id) && posts == old(posts)[..i] + old(posts)[i + 1..]
    {
      if !authorized {
        return Forbidden;
      }
      var i := 0;
      while i < |posts|
        invariant 0 <= i <= |posts|
        invariant posts == old(posts)
        invariant forall j | 0 <= j < i :: posts[j].id != id
      {
        var post := posts[i];
        if post.id == id {
          posts := ListRemove(posts, post);
          return PostRemoved(id);
        }
        i := i + 1;
      }
      return PostNotFound(id);
    }

    /** Stores the user as received and issues a token for its email. */
    method CreateUser(user: User) returns (r: AuthReply)
      modifies this`users
      ensures users == old(users) + [user]
      ensures r == AccessToken(signJwt(user.email))
    {
      users := users + [user];
      return AccessToken(signJwt(user.email));
    }

    /** Issues a token exactly when the credentials match a stored user. */
    method UserLogin(data: LoginData) returns (r: AuthReply)
      ensures Registered(users, data) ==> r == AccessToken(signJwt(data.email))
      ensures !Registered(users, data) ==> r == WrongLoginDetails
    {
      var ok := CheckUser(data);
      if ok {
        return AccessToken(signJwt(data.email));
      }
      return WrongLoginDetails;
    }
  }

  /** From the seeded store: add a post (ids [1, 2]), delete id 1 (ids [2]),
      add another (ids [2, 2]). Two posts now share id 2, and the lookup
      of 2 finds the older one. */
  method DuplicateIdScenario(signJwt: string -> string)
  {
    var store := new Store(signJwt);
    var reply := store.AddPost(true, PostSchema(0, "Waffle", "..."));
    assert store.posts == [Post(1, "Pancake", "Lorem Ipsum ..."), Post(2, "Waffle", "...")];
    reply := store.DeletePost(true, 1);
    assert FirstIndex([Post(1, "Pancake", "Lorem Ipsum ..."), Post(2, "Waffle", "...")], 1) == Some(0);
    assert store.posts == [Post(2, "Waffle", "...")];
    reply := store.AddPost(true, PostSchema(0, "Crepe", "..."));
    assert store.posts == [Post(2, "Waffle", "..."), Post(2, "Crepe", "...")];
    var found := store.GetSinglePost(2);
    assert FirstIndex(store.posts, 2) == Some(0);
    assert found == Data(Post(2, "Waffle", "..."));
  }

  /** A signed-up user can log in, and a rejected create request changes
      nothing. */
  method SignupLoginScenario(signJwt: string -> string)
  {
    var store := new Store(signJwt);
    var user := User("Ada", "ada@example.com", "secret");
    var token := store.CreateUser(user);
    SignupRegisters([], user);
    var login := store.UserLogin(LoginData("ada@example.com", "secret"));
    assert login.AccessToken?;
    var before := store.posts;
    var reply := store.AddPost(false, PostSchema(0, "Waffle", "..."));
    assert reply == Forbidden && store.posts == before;
  }
}
