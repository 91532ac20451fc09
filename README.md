# Blog API store: a verified model

This project models the in-memory store behind a small FastAPI blog service
with JWT-guarded routes (`app/api.py`). Two module-level lists are shared
by all handlers. `posts` holds records `{id, title, content}` and starts
with one seeded post. `users` holds signed-up users and starts empty.

The handlers are:

- a credential check
- a list read and a single-post lookup
- create, update and delete of posts, each behind the bearer-token guard
- signup and login, each answering with a token

Every search is a loop that stops at the first match.

The Dafny model has four modules:

- `Records`: the stored records and request bodies, as datatypes.
- `Posts`: what each operation on the post list means, as functions of the list, with lemmas about them.
- `Users`: what the user list accepts as a login.
- `Api`: the class `Store`. Its fields are `posts: seq<Post>`, `users: seq<User>` and the token issuer `signJwt`. It has one method per handler. Each search keeps the source's loop and early return. The lookups, the credential check and the three post changes are proved against the functions of `Posts` and `Users`.

Two things are not in `app/api.py`, so they become inputs:

- The bearer-token guard (`JWTBearer`) becomes a boolean `authorized`. When it is false the reply is `Forbidden` and nothing changes.
- The token issuer `signJWT` becomes a function of the email, handed to the `Store` constructor.

Two client methods, `Api.DuplicateIdScenario` and `Api.SignupLoginScenario`, chain the handlers' contracts over a short history and assert the outcome. They carry no contract of their own.

## Model

| member | source | states |
|---|---|---|
| `Api.Store.constructor` | app/api.py:8-16 | the store starts with exactly the seeded post `{1, "Pancake", "Lorem Ipsum ..."}` and no users; its ids are sequential |
| `Api.Store.CheckUser` | app/api.py:23-27 | answers true exactly when some stored user has both the login's email and its password; reads and never changes the users |
| `Api.Store.GetPosts` | app/api.py:37-39 | answers the stored posts unchanged |
| `Api.Store.GetSinglePost` | app/api.py:43-53 | answers exactly `Posts.Lookup` of the posts: the shortcut error, the first match, or nothing; changes nothing |
| `Api.Store.GetSinglePostCorrected` | app/api.py:43-53 | the lookup without the length shortcut answers exactly `Posts.LookupCorrected`: the first match, or the error when no post has the id |
| `Api.Store.AddPost` | app/api.py:56-62 | when authorized: appends `{len+1, title, content}` with len taken before the append; the length grows by one; every earlier post is unchanged in place; the body's own id is ignored. When not authorized: nothing changes |
| `Api.Store.UpdatePost` | app/api.py:65-77 | when some post has the id: only the first such post changes; it keeps its id and takes the body's title and content; length and all other posts unchanged; reply "updated". Otherwise: posts unchanged, reply "not found". Not authorized: nothing changes |
| `Api.Store.DeletePost` | app/api.py:80-91 | when some post has the id: the list becomes the old list without exactly its first post with that id, the others in order; reply "removed". Otherwise: posts unchanged, reply "not found". Not authorized: nothing changes |
| `Api.Store.CreateUser` | app/api.py:94-97 | the user is appended to the users as received, and the reply is the token issued for the user's email |
| `Api.Store.UserLogin` | app/api.py:100-106 | answers the token issued for the email exactly when the credentials match a stored user, otherwise "Wrong login details!"; never changes the users |
| `Posts.FirstIndex` | app/api.py:67-68 | the position found is a post with the id and no earlier post has it; none is found exactly when no post has the id |
| `Posts.ListRemove` | app/api.py:84 | `list.remove(x)` gives a list one shorter whose multiset is the old one less one `x` |
| `Posts.ListRemoveFirst` | app/api.py:84 | when `x` first appears at position k, `list.remove(x)` is the list without position k, the rest in order |
| `Posts.AfterAdd` | app/api.py:58-59 | the old list is a prefix of the new one, which holds one more post: `{len+1, title, content}` |
| `Posts.AfterUpdate` | app/api.py:67-77 | same length; with no match the same list; otherwise the first match keeps its id and gets the new title and content, and every other position is unchanged |
| `Posts.AfterDelete` | app/api.py:82-84 | removing the matched record by value (`list.remove`) leaves exactly the list without its first post with the id, the rest in order, because an equal earlier record would have matched first; with no match the list is unchanged |
| `Posts.AddKeepsSequentialIds` | app/api.py:58-59 | adding keeps ids equal to positions counted from 1, so a list built only by adding has pairwise distinct ids |
| `Posts.UpdateKeepsSequentialIds` | app/api.py:67-70 | an update never changes an id, so it keeps ids equal to positions counted from 1 |
| `Posts.DeleteThenAddDuplicatesId` | app/api.py:56-91 | from sequential ids, deleting any id but the last and then adding gives two posts with the same id |
| `Posts.Lookup` | app/api.py:44-53 | "No such post" exactly when the id exceeds the length; otherwise the first post with the id; nothing at all exactly when no post has the id |
| `Posts.LookupCorrected` | app/api.py:44-53 | never answers nothing; "No such post" exactly when no post has the id; otherwise the first post with the id |
| `Posts.LookupAgreesOnSequentialIds` | app/api.py:44-53 | while ids are sequential, the shortcut lookup equals the corrected one for every positive id |
| `Posts.ShortcutHidesExistingPost` | app/api.py:44-47 | after deleting id 1 from ids [1, 2, 3], looking up 3 gives "No such post" although post 3 is stored |
| `Posts.LookupFallsOff` | app/api.py:49-53 | on the seeded list, id 0 gets no answer at all, where the corrected lookup answers "No such post" |
| `Users.SignupRegisters` | app/api.py:94-106 | after a user is appended, a login with that user's email and password is accepted |
| `Users.SignupKeepsRegistered` | app/api.py:94-96 | appending a user never revokes a login that was accepted before |

## Left out

- FastAPI wiring: the app object, route decorators, paths, HTTP methods and tags. The reply dictionaries are reduced to their message or payload, as the datatypes `Api.Reply`, `Api.AuthReply` and `Posts.SinglePost`. The `{id}` in a message is kept as a field and not rendered into text.
- `read_root` (app/api.py:32-34): it returns a constant greeting and touches no state.
- `async`: the handlers run one at a time to completion, so they are modelled as ordinary sequential methods.
- The bearer-token guard. `JWTBearer` lives in `app/auth/auth_bearer.py`, which is not part of this model. It becomes the boolean `authorized`, and its rejection becomes `Forbidden`. Header parsing, signature checks and expiry are not modelled.
- `signJWT`, which lives in `app/auth/auth_handler.py` and is not part of this model. It becomes a function of the email alone. Its expiry claim depends on the wall clock, so real tokens for one email differ over time; the model does not capture that.
- The request schemas in `app/model.py`, which is not part of this model. They are plain records without validation.
- `int(post["id"])` in delete (app/api.py:83): ids are already integers, so the conversion is the identity.
- Password hashing and persistence: the source has neither.

## Findings

| source | as written | input that shows it | evidently intended | confidence | as-written member | corrected member |
|---|---|---|---|---|---|---|
| app/api.py:44-47 | any id greater than `len(posts)` gets "No such post" without a search | ids [1, 2, 3]; delete 1, leaving [2, 3]; get post 3 | return post 3, which is stored | medium, not executed | `Posts.ShortcutHidesExistingPost` | `Posts.LookupCorrected` |
| app/api.py:49-53 | an absent id no greater than `len(posts)` falls off the loop and the handler answers null | seeded list; get post 0 | answer "No such post" | medium, not executed | `Posts.LookupFallsOff` | `Api.Store.GetSinglePostCorrected` |

The store's own `GetSinglePost` keeps the behaviour as written. `Posts.LookupAgreesOnSequentialIds` shows that the shortcut is sound for positive ids while ids are sequential. `Posts.AddKeepsSequentialIds` and `Posts.UpdateKeepsSequentialIds` show that ids stay sequential as long as no delete has happened.
