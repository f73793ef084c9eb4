/** `UserRepository`: the `users` collection, ids allocated as one more than the largest. */
module UserRepository {
  import opened Wrappers
  import opened PyJson
  import opened Documents

  const IdKey := "user_id"
  const EmailKey := "email"
  const HashKey := "password_hash"

  /** The stored `User(user_id, email, password_hash, role)`. */
  function UserDoc(userId: int, email: string, passwordHash: string, role: string): Doc {
    map[IdKey := JInt(userId), EmailKey := JStr(email), HashKey := JStr(passwordHash), "role" := JStr(role)]
  }

  /** `create(email, password_hash, role)`: one new user under the next id, found by that id
      afterwards; nothing else changes. */
  method Create(users: Collection, email: string, passwordHash: string, role: string) returns (user: Doc)
    modifies users
    ensures user == UserDoc(NextId(old(users.docs), IdKey), email, passwordHash, role)
    ensures users.docs == old(users.docs) + [user]
    ensures FindOne(users.docs, By(IdKey, user[IdKey])) == Some(user)
    ensures Unique(old(users.docs), IdKey) ==> Unique(users.docs, IdKey)
  {
    user := UserDoc(NextId(users.docs, IdKey), email, passwordHash, role);
    InsertWithNextId(users.docs, IdKey, user);
    users.Insert(user);
  }

  /** `get_by_email(email)`: a user with that email, None when there is none. */
  function GetByEmail(docs: seq<Doc>, email: string): (r: Option<Doc>)
    ensures r.Some? <==> exists j | 0 <= j < |docs| :: EmailKey in docs[j] && docs[j][EmailKey] == JStr(email)
    ensures r.Some? ==> r.value in docs && EmailKey in r.value && r.value[EmailKey] == JStr(email)
  {
    FindOne(docs, By(EmailKey, JStr(email)))
  }

  /** `delete(user_id)`: True and the user removed when the id exists, otherwise False and
      no change. */
  method Delete(users: Collection, userId: int) returns (deleted: bool)
    modifies users
    ensures deleted <==> FindOne(old(users.docs), By(IdKey, JInt(userId))).Some?
    ensures users.docs == RemoveFirst(old(users.docs), By(IdKey, JInt(userId)))
    ensures Unique(old(users.docs), IdKey) ==> FindOne(users.docs, By(IdKey, JInt(userId))).None?
  {
    if Unique(users.docs, IdKey) {
      RemoveUniqueLeavesNone(users.docs, IdKey, JInt(userId));
    }
    deleted := users.Delete(By(IdKey, JInt(userId)));
  }
}
