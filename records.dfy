/** The records the blog API stores and receives: stored posts, request bodies
    and users. Each is a plain value; the request schemas carry no validation. */
module Records {

  datatype Option<T> = None | Some(value: T)

  /** A stored post: the dictionary with keys "id", "title" and "content"
      that the `posts` list holds. */
  datatype Post = Post(id: int, title: string, content: string)

  /** Body of a create request. Its `id` is whatever the client sent; the
      handler overwrites it before storing the post. */
  datatype PostSchema = PostSchema(id: int, title: string, content: string)

  /** Body of an update request: the new title and content. */
  datatype PostUpdate = PostUpdate(title: string, content: string)

  /** A registered user, stored as received (the password is not hashed). */
  datatype User = User(fullname: string, email: string, password: string)

  /** Body of a login request. */
  datatype LoginData = LoginData(email: string, password: string)
}
