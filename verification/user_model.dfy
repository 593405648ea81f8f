/** The user collection (backend/src/models/user.model.ts): the record, its
    schema validators, the unique email index, the pre-save and
    pre-insertMany password hashing hooks and `comparePassword`. The
    collection is an in-memory sequence in insertion order. */
module UserModel {
  import opened Wrappers
  import opened Errors
  import opened Crypto

  datatype User = User(id: string, email: string, fullName: string, password: Secret, profilePic: string)

  /** The collection in insertion order (the order `find` returns). */
  type UserStore = seq<User>

  /** The profile picture a new user starts with. */
  const DefaultProfilePic := ""

  /** The minimum password length of the schema. */
  const MinPasswordLength := 6

  /** A document as it looks to readers: the password is present only when
      the query selected it (`+password`) or the document was just saved. */
  datatype UserView = UserView(id: string, email: string, fullName: string, password: Option<Secret>, profilePic: string)

  /** The default projection: `password` has `select: false`. */
  function PublicView(u: User): (v: UserView)
    ensures v.password.None? && v.id == u.id && v.email == u.email && v.fullName == u.fullName && v.profilePic == u.profilePic
  {
    UserView(u.id, u.email, u.fullName, None, u.profilePic)
  }

  /** The whole document, password included. */
  function PrivateView(u: User): (v: UserView)
    ensures v.password == Some(u.password) && v.id == u.id && v.email == u.email && v.fullName == u.fullName && v.profilePic == u.profilePic
  {
    UserView(u.id, u.email, u.fullName, Some(u.password), u.profilePic)
  }

  /** The four fields the profile update answers with. */
  datatype Profile = Profile(id: string, fullName: string, email: string, profilePic: string)

  /** `new User({ fullName, email, password })`: the plaintext password and
      the default profile picture. */
  function NewUser(id: string, fullName: string, email: string, password: string): (u: User)
    ensures u.password == Plain(password) && u.profilePic == DefaultProfilePic
    ensures u.id == id && u.fullName == fullName && u.email == email
  {
    User(id, email, fullName, Plain(password), DefaultProfilePic)
  }

  /** Ids are unique, emails are unique (the `unique` index), and every
      stored document passed the schema validators. */
  predicate Wf(store: UserStore) {
    && (forall i, j :: 0 <= i < j < |store| ==> store[i].id != store[j].id)
    && (forall i, j :: 0 <= i < j < |store| ==> store[i].email != store[j].email)
    && (forall i :: 0 <= i < |store| ==> PathErrors(store[i]) == [])
  }

  /** `findById`. */
  function FindById(store: UserStore, id: string): (r: Option<User>)
    ensures r.Some? ==> r.value in store && r.value.id == id
    ensures r.None? <==> forall i :: 0 <= i < |store| ==> store[i].id != id
  {
    if |store| == 0 then None
    else if store[0].id == id then Some(store[0])
    else FindById(store[1..], id)
  }

  /** `findOne({ email })`. */
  function FindByEmail(store: UserStore, email: string): (r: Option<User>)
    ensures r.Some? ==> r.value in store && r.value.email == email
    ensures r.None? <==> forall i :: 0 <= i < |store| ==> store[i].email != email
  {
    if |store| == 0 then None
    else if store[0].email == email then Some(store[0])
    else FindByEmail(store[1..], email)
  }

  /** In a well-formed store a user is found by its own id and email. */
  lemma {:induction false} FindStored(store: UserStore, i: nat)
    requires Wf(store) && i < |store|
    ensures FindById(store, store[i].id) == Some(store[i])
    ensures FindByEmail(store, store[i].email) == Some(store[i])
  {
    if i > 0 {
      assert Wf(store[1..]) by {
        assert forall a :: 0 <= a < |store| - 1 ==> store[1..][a] == store[a + 1];
      }
      FindStored(store[1..], i - 1);
    }
  }

  /** The Mongoose validators, in schema order: `email` and `fullName` are
      required (an empty string counts as missing), `password` is required
      and at least six characters. A hash is always long enough. */
  function PathErrors(u: User): (errs: seq<(string, string)>)
    ensures errs == [] <==>
      (u.email != "" && u.fullName != "" && (u.password.Plain? ==> |u.password.text| >= MinPasswordLength))
  {
    (if u.email == "" then [("email", "Path `email` is required.")] else [])
    + (if u.fullName == "" then [("fullName", "Path `fullName` is required.")] else [])
    + (match u.password
       case Plain(t) =>
         if t == "" then [("password", "Path `password` is required.")]
         else if |t| < MinPasswordLength then
           [("password", "Path `password` (`" + t + "`) is shorter than the minimum allowed length (6).")]
         else []
       case Hashed(_, _, _) => [])
  }

  /** The pre-save hook: rehash only when the password was modified. */
  function PreSave(doc: User, passwordModified: bool, salt: nat): (u: User)
    ensures !passwordModified ==> u == doc
    ensures passwordModified ==> u == doc.(password := Hash(doc.password, salt))
    ensures passwordModified ==> u.password != doc.password && u.password.Hashed?
  {
    if passwordModified then doc.(password := Hash(doc.password, salt)) else doc
  }

  /** Replaces the document with `user`'s id. */
  function Replace(store: UserStore, user: User): (r: UserStore)
    ensures |r| == |store|
    ensures forall i :: 0 <= i < |r| ==> r[i] == if store[i].id == user.id then user else store[i]
  {
    if |store| == 0 then []
    else [if store[0].id == user.id then user else store[0]] + Replace(store[1..], user)
  }

  /** Whether another document than `id` already uses `email`. */
  predicate EmailTakenByOther(store: UserStore, email: string, id: string) {
    exists i :: 0 <= i < |store| && store[i].email == email && store[i].id != id
  }

  datatype Saved = Saved(store: UserStore, user: User)

  /** `doc.save()`: validate, run the pre-save hook, then insert (`isNew`) or
      update; the unique indexes on `_id` and `email` reject duplicates. */
  function Save(store: UserStore, doc: User, isNew: bool, passwordModified: bool, salt: nat): (r: Result<Saved, Thrown>)
    ensures r.Ok? ==> r.value.user == PreSave(doc, passwordModified, salt)
    ensures isNew && r.Ok? ==> r.value.store == store + [r.value.user]
    ensures !isNew && r.Ok? ==> r.value.store == Replace(store, r.value.user)
    ensures r.Ok? <==> PathErrors(doc) == [] && !EmailTakenByOther(store, doc.email, doc.id) &&
                       (if isNew then FindById(store, doc.id).None? else FindById(store, doc.id).Some?)
    ensures PathErrors(doc) != [] ==> r == Err(MongooseValidation(PathErrors(doc)))
    ensures r.Ok? && Wf(store) ==> Wf(r.value.store)
  {
    var errs := PathErrors(doc);
    if errs != [] then Err(MongooseValidation(errs))
    else
      var user := PreSave(doc, passwordModified, salt);
      if isNew then
        if FindById(store, doc.id).Some? then Err(DuplicateKey([("_id", doc.id)]))
        else if FindByEmail(store, doc.email).Some? then Err(DuplicateKey([("email", doc.email)]))
        else
          assert !EmailTakenByOther(store, doc.email, doc.id);
          assert Wf(store) ==> Wf(store + [user]) by {
            if Wf(store) {
              InsertKeepsWf(store, user);
            }
          }
          Ok(Saved(store + [user], user))
      else if EmailTakenByOther(store, doc.email, doc.id) then Err(DuplicateKey([("email", doc.email)]))
      else if FindById(store, doc.id).None? then
        Err(Native("DocumentNotFoundError", "No document found for query", None, [], []))
      else
        assert Wf(store) ==> Wf(Replace(store, user)) by {
          if Wf(store) {
            ReplaceKeepsWf(store, user);
          }
        }
        Ok(Saved(Replace(store, user), user))
  }

  /** Inserting a valid user with a new id and a new email keeps the store well formed. */
  lemma InsertKeepsWf(store: UserStore, user: User)
    requires Wf(store) && PathErrors(user) == []
    requires FindById(store, user.id).None? && FindByEmail(store, user.email).None?
    ensures Wf(store + [user])
  {
    var r := store + [user];
    assert forall i :: 0 <= i < |store| ==> r[i] == store[i];
  }

  /** Replacing a user by a valid document whose email no other user has
      keeps the store well formed. */
  lemma ReplaceKeepsWf(store: UserStore, user: User)
    requires Wf(store) && PathErrors(user) == [] && !EmailTakenByOther(store, user.email, user.id)
    ensures Wf(Replace(store, user))
  {
    var r := Replace(store, user);
    forall i, j | 0 <= i < j < |r|
      ensures r[i].email != r[j].email
    {
      if store[i].id == user.id {
        assert store[j].id != user.id;
      }
    }
  }

  /** Saving a stored user that was not modified changes nothing: the hash is
      not recomputed and the store is the same. */
  lemma ResaveUnchanged(store: UserStore, i: nat, salt: nat)
    requires Wf(store) && i < |store|
    ensures Save(store, store[i], false, false, salt) == Ok(Saved(store, store[i]))
  {
    var u := store[i];
    FindStored(store, i);
    assert PathErrors(u) == [];
    assert !EmailTakenByOther(store, u.email, u.id);
    ReplaceSelf(store, i);
  }

  /** Replacing a stored user by itself leaves the store as it was. */
  lemma ReplaceSelf(store: UserStore, i: nat)
    requires Wf(store) && i < |store|
    ensures Replace(store, store[i]) == store
  {
    var r := Replace(store, store[i]);
    assert forall j :: 0 <= j < |store| ==> r[j] == store[j];
  }

  /** The pre-insertMany hook: every document's password is hashed, with
      the salt of its position; nothing else changes. */
  function HashAll(docs: seq<User>, salt: nat -> nat): (r: seq<User>)
    ensures |r| == |docs|
    ensures forall i :: 0 <= i < |r| ==> r[i] == docs[i].(password := Hash(docs[i].password, salt(i)))
  {
    seq(|docs|, i requires 0 <= i < |docs| => docs[i].(password := Hash(docs[i].password, salt(i))))
  }

  /** After the bulk-insert hook, each document still logs in with the
      plaintext it was inserted with, and only its password has changed. */
  lemma HashAllAcceptsPlaintexts(docs: seq<User>, salt: nat -> nat)
    ensures var r := HashAll(docs, salt);
      forall i :: 0 <= i < |docs| && docs[i].password.Plain? ==>
        Compare(docs[i].password.text, r[i].password) && r[i].(password := docs[i].password) == docs[i]
  {
    forall i | 0 <= i < |docs| && docs[i].password.Plain?
      ensures Compare(docs[i].password.text, HashAll(docs, salt)[i].password)
    {
      HashAcceptsItsPassword(docs[i].password.text, salt(i));
    }
  }

  /** `user.comparePassword(candidate, userPassword)`: compares the candidate
      with the document's own password; the second argument is ignored. */
  function ComparePassword(u: User, candidate: string, userPassword: Secret): (b: bool)
    ensures b <==> Compare(candidate, u.password)
  {
    Compare(candidate, u.password)
  }
}
