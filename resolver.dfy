/**
 * The `createUser` resolver: look the email up in the user store, refuse a
 * duplicate, otherwise hash the password at cost 12, save a new user document and
 * return that document with its `_id` in string form.
 */
module Resolver {
  import opened Wrappers
  import opened ObjectIds

  /** The bcrypt work factor passed to `hash`. */
  const Cost: nat := 12

  /** The message of the error thrown for an email that is already registered. */
  const UserExists := "User already exists!"

  /** The `userInput` argument of the mutation. */
  datatype UserInput = UserInput(email: string, name: string, password: string)

  /** A stored user document: the fields the resolver sets, plus its ObjectId. */
  datatype UserDoc = UserDoc(id: ObjectId, email: string, password: string, name: string)

  /** What the resolver returns: the saved document's fields, `_id` as a string. */
  datatype UserView = UserView(id: string, email: string, password: string, name: string)

  /** The password hashing primitive: an arbitrary function of (password, cost). */
  type Hasher = (string, nat) -> string

  /** One call the resolver makes into its collaborators, in order. */
  datatype Call = FindOneCall(email: string) | HashCall(password: string, cost: nat) | SaveCall(doc: UserDoc)

  /** Every document is filed under its own email, so no two documents share one. */
  ghost predicate EmailsKeyed(users: map<string, UserDoc>)
  {
    forall e | e in users :: users[e].email == e
  }

  /** No two documents share an ObjectId. */
  ghost predicate IdsDistinct(users: map<string, UserDoc>)
  {
    forall e1, e2 | e1 in users && e2 in users && e1 != e2 :: users[e1].id != users[e2].id
  }

  ghost function Ids(users: map<string, UserDoc>): set<ObjectId>
  {
    set e | e in users :: users[e].id
  }

  /**
   * `User.findOne({ email })`: the document filed under the email. When every
   * document is filed under its own email this is the one document whose
   * `email` field matches.
   */
  function Lookup(users: map<string, UserDoc>, email: string): (r: Option<UserDoc>)
    ensures r.Some? <==> email in users
    ensures r.Some? ==> r.value == users[email]
    ensures EmailsKeyed(users) ==> (r.Some? <==> exists e | e in users :: users[e].email == email)
    ensures EmailsKeyed(users) && r.Some? ==> r.value.email == email
  {
    if email in users then Some(users[email]) else None
  }

  /** `{ ...createduser._doc, _id: createduser._id.toString() }`. */
  function ToView(doc: UserDoc): (v: UserView)
    ensures v.email == doc.email && v.name == doc.name && v.password == doc.password
    ensures WellFormed(doc.id) ==> |v.id| == 24 && ParseHex(v.id) == Some(doc.id.bytes)
  {
    ParseHexOfHex(doc.id.bytes);
    UserView(IdToString(doc.id), doc.email, doc.password, doc.name)
  }

  /** Recovers the document from a returned view; None when the id is not hex. */
  function FromView(v: UserView): Option<UserDoc>
  {
    match ParseHex(v.id)
    case Some(bytes) => Some(UserDoc(ObjectId(bytes), v.email, v.password, v.name))
    case None => None
  }

  /** The returned view loses nothing of the saved document. */
  lemma FromViewOfToView(doc: UserDoc)
    ensures FromView(ToView(doc)) == Some(doc)
  {
    ParseHexOfHex(doc.id.bytes);
  }

  /** The document `new User({ email, password: hashedPassword, name })` saves. */
  function NewDoc(hash: Hasher, input: UserInput, id: ObjectId): (d: UserDoc)
    ensures d.email == input.email && d.name == input.name && d.id == id
    ensures d.password == hash(input.password, 12)
  {
    UserDoc(id, input.email, hash(input.password, Cost), input.name)
  }

  /** The outcome of one createUser call: the reply and the store afterwards. */
  datatype Outcome = Outcome(reply: Result<UserView, string>, users: map<string, UserDoc>)

  /** createUser as a function of the store before the call. */
  function Register(hash: Hasher, users: map<string, UserDoc>, input: UserInput, id: ObjectId): (o: Outcome)
    ensures input.email in users <==> o.reply.Failure?
    ensures o.reply.Failure? ==> o.reply.error == UserExists && o.users == users
    ensures o.reply.Success? ==>
              o.users.Keys == users.Keys + {input.email} && |o.users| == |users| + 1 &&
              o.users[input.email] == NewDoc(hash, input, id) &&
              o.reply.value == ToView(o.users[input.email])
    ensures forall e | e != input.email :: Lookup(o.users, e) == Lookup(users, e)
    ensures EmailsKeyed(users) ==> EmailsKeyed(o.users)
    ensures IdsDistinct(users) && id !in Ids(users) ==> IdsDistinct(o.users)
  {
    if input.email in users then Outcome(Failure(UserExists), users)
    else
      var doc := NewDoc(hash, input, id);
      var users' := users[input.email := doc];
      assert users'.Keys == users.Keys + {input.email};
      Outcome(Success(ToView(doc)), users')
  }

  /** The collaborator calls createUser makes, in order. */
  function RegisterCalls(hash: Hasher, users: map<string, UserDoc>, input: UserInput, id: ObjectId): (calls: seq<Call>)
    ensures |calls| >= 1 && calls[0] == FindOneCall(input.email)
    ensures input.email in users ==> calls == [FindOneCall(input.email)]
    ensures (exists k :: 0 <= k < |calls| && calls[k].HashCall?) <==> input.email !in users
    ensures (exists k :: 0 <= k < |calls| && calls[k].SaveCall?) <==> input.email !in users
  {
    if input.email in users then [FindOneCall(input.email)]
    else
      var calls := [FindOneCall(input.email), HashCall(input.password, Cost), SaveCall(NewDoc(hash, input, id))];
      assert calls[1].HashCall? && calls[2].SaveCall?;
      calls
  }

  /** A run of createUser calls, one per input, each with the id the driver generated. */
  function RegisterAll(hash: Hasher, users: map<string, UserDoc>, inputs: seq<UserInput>, ids: seq<ObjectId>): (o: (seq<Result<UserView, string>>, map<string, UserDoc>))
    requires |ids| == |inputs|
    ensures |o.0| == |inputs|
    decreases |inputs|
  {
    if inputs == [] then ([], users)
    else
      var first := Register(hash, users, inputs[0], ids[0]);
      var rest := RegisterAll(hash, first.users, inputs[1..], ids[1..]);
      ([first.reply] + rest.0, rest.1)
  }

  function CountSuccess(replies: seq<Result<UserView, string>>): nat
  {
    if replies == [] then 0
    else (if replies[0].Success? then 1 else 0) + CountSuccess(replies[1..])
  }

  /** The emails a run of registrations asks for. */
  function Emails(inputs: seq<UserInput>): set<string>
  {
    if inputs == [] then {} else {inputs[0].email} + Emails(inputs[1..])
  }

  /** A later registration never overwrites a document already in the store. */
  lemma {:induction false} RegisterAllKeepsExisting(hash: Hasher, users: map<string, UserDoc>, inputs: seq<UserInput>, ids: seq<ObjectId>)
    requires |ids| == |inputs|
    ensures var after := RegisterAll(hash, users, inputs, ids).1;
      forall e | e in users :: e in after && after[e] == users[e]
    decreases |inputs|
  {
    if inputs != [] {
      var first := Register(hash, users, inputs[0], ids[0]);
      RegisterAllKeepsExisting(hash, first.users, inputs[1..], ids[1..]);
      forall e | e in users ensures e in first.users && first.users[e] == users[e] {
        assert Lookup(first.users, e) == Lookup(users, e);
      }
    }
  }

  /** After a run the store holds exactly the old emails plus every requested one. */
  lemma {:induction false} RegisterAllKeys(hash: Hasher, users: map<string, UserDoc>, inputs: seq<UserInput>, ids: seq<ObjectId>)
    requires |ids| == |inputs|
    ensures RegisterAll(hash, users, inputs, ids).1.Keys == users.Keys + Emails(inputs)
    decreases |inputs|
  {
    if inputs != [] {
      var first := Register(hash, users, inputs[0], ids[0]);
      RegisterAllKeys(hash, first.users, inputs[1..], ids[1..]);
      RegisterKeys(hash, users, inputs[0], ids[0]);
    }
  }

  /** One registration leaves the store with the old emails plus the requested one. */
  lemma RegisterKeys(hash: Hasher, users: map<string, UserDoc>, input: UserInput, id: ObjectId)
    ensures Register(hash, users, input, id).users.Keys == users.Keys + {input.email}
  {
  }

  /** Every accepted registration adds exactly one document, every refused one none. */
  lemma {:induction false} RegisterAllCount(hash: Hasher, users: map<string, UserDoc>, inputs: seq<UserInput>, ids: seq<ObjectId>)
    requires |ids| == |inputs|
    ensures var o := RegisterAll(hash, users, inputs, ids);
      |o.1| == |users| + CountSuccess(o.0)
    decreases |inputs|
  {
    if inputs != [] {
      var first := Register(hash, users, inputs[0], ids[0]);
      var rest := RegisterAll(hash, first.users, inputs[1..], ids[1..]);
      RegisterAllCount(hash, first.users, inputs[1..], ids[1..]);
      assert ([first.reply] + rest.0)[1..] == rest.0;
    }
  }

  /** Email uniqueness holds after any run of registrations that started with it. */
  lemma {:induction false} RegisterAllKeyed(hash: Hasher, users: map<string, UserDoc>, inputs: seq<UserInput>, ids: seq<ObjectId>)
    requires |ids| == |inputs|
    requires EmailsKeyed(users)
    ensures EmailsKeyed(RegisterAll(hash, users, inputs, ids).1)
    decreases |inputs|
  {
    if inputs != [] {
      var first := Register(hash, users, inputs[0], ids[0]);
      RegisterAllKeyed(hash, first.users, inputs[1..], ids[1..]);
    }
  }

  /**
   * The user collection. `users` files each document under its email (the
   * collection's key for `findOne`); `trace` records the calls the resolver
   * makes into the store and the hashing library.
   */
  class UserStore {
    const hash: Hasher
    var users: map<string, UserDoc>
    ghost var trace: seq<Call>

    ghost predicate Valid()
      reads this
    {
      EmailsKeyed(users)
    }

    constructor (hash: Hasher)
      ensures Valid()
      ensures this.hash == hash && users == map[] && trace == []
    {
      this.hash := hash;
      users := map[];
      trace := [];
    }

    /** `User.findOne({ email })`. */
    method FindOne(email: string) returns (found: Option<UserDoc>)
      requires Valid()
      modifies this`trace
      ensures found == Lookup(users, email)
      ensures found.Some? <==> exists e | e in users :: users[e].email == email
      ensures found.Some? ==> found.value.email == email
      ensures trace == old(trace) + [FindOneCall(email)]
    {
      found := Lookup(users, email);
      trace := trace + [FindOneCall(email)];
    }

    /** `hash(password, cost)` from bcryptjs. */
    method HashPassword(password: string, cost: nat) returns (digest: string)
      modifies this`trace
      ensures digest == hash(password, cost)
      ensures trace == old(trace) + [HashCall(password, cost)]
    {
      digest := hash(password, cost);
      trace := trace + [HashCall(password, cost)];
    }

    /**
     * `user.save()` for a new document. A map keyed by email holds one document
     * per email, so a document may only be saved under an email not yet present.
     */
    method Save(doc: UserDoc) returns (saved: UserDoc)
      requires doc.email !in users
      modifies this`users, this`trace
      ensures saved == doc
      ensures users == old(users)[doc.email := doc]
      ensures trace == old(trace) + [SaveCall(doc)]
    {
      users := users[doc.email := doc];
      trace := trace + [SaveCall(doc)];
      saved := doc;
    }

    /** The `createUser` resolver; `id` is the ObjectId `new User(...)` generates. */
    method CreateUser(input: UserInput, id: ObjectId) returns (reply: Result<UserView, string>)
      requires Valid()
      modifies this`users, this`trace
      ensures Valid()
      ensures Outcome(reply, users) == Register(hash, old(users), input, id)
      ensures trace == old(trace) + RegisterCalls(hash, old(users), input, id)
      ensures input.email in old(users) ==> reply == Failure(UserExists) && users == old(users)
      ensures input.email !in old(users) ==>
                users == old(users)[input.email := UserDoc(id, input.email, hash(input.password, 12), input.name)] &&
                reply == Success(UserView(IdToString(id), input.email, hash(input.password, 12), input.name))
      ensures old(IdsDistinct(users)) && id !in old(Ids(users)) ==> IdsDistinct(users)
    {
      var existing := FindOne(input.email);
      if existing.Some? {
        reply := Failure(UserExists);
        return;
      }
      var hashed := HashPassword(input.password, Cost);
      var user := UserDoc(id, input.email, hashed, input.name);
      var created := Save(user);
      reply := Success(ToView(created));
    }
  }
}
