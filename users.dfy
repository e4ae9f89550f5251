/** The user collection both login flows read and write. The User schema
    itself (models/User.js) is not part of this model: the fields below are
    the ones the login code reads and writes. The collection is a map from
    ids to records; `findOne` and `save` are the two operations the login
    code performs on it, and every one of them is recorded in a ghost log so
    that contracts can say which lookups and writes a flow performed. */
module Users {
  import opened Common

  datatype User = User(
    id: Id,
    googleId: Option<string>,
    name: Option<string>,
    email: string,
    avatar: Option<string>,
    authMethod: string,
    role: Option<string>,
    password: Option<string>)

  /** The three `findOne` filters the login code uses: `{ googleId }`,
      `{ email }` and `{ $or: [{ googleId }, { email }] }`. */
  datatype Query =
    | ByGoogleId(googleId: string)
    | ByEmail(email: string)
    | ByGoogleIdOrEmail(googleId: string, email: string)

  function Matches(u: User, q: Query): (m: bool)
    ensures q.ByGoogleId? ==> (m <==> u.googleId.Some? && u.googleId.value == q.googleId)
    ensures q.ByEmail? ==> (m <==> u.email == q.email)
    ensures q.ByGoogleIdOrEmail? ==>
              (m <==> (u.googleId.Some? && u.googleId.value == q.googleId) || u.email == q.email)
  {
    match q
    case ByGoogleId(g) => u.googleId == Some(g)
    case ByEmail(e) => u.email == e
    case ByGoogleIdOrEmail(g, e) => u.googleId == Some(g) || u.email == e
  }

  /** Some record of `users` matches `q`. */
  ghost predicate AnyMatch(users: map<Id, User>, q: Query)
  {
    exists k :: k in users && Matches(users[k], q)
  }

  /** No Google id and no email address belongs to two records. */
  ghost predicate UniqueIdentities(users: map<Id, User>)
  {
    && (forall a, b ::
          a in users && b in users && users[a].googleId.Some? && users[a].googleId == users[b].googleId
          ==> a == b)
    && (forall a, b :: a in users && b in users && users[a].email == users[b].email ==> a == b)
  }

  /** The outcome of `findOne`: it throws, finds nothing (`null`), or finds
      a record. */
  datatype Lookup = LookupFailed | Missing | Found(user: User)

  /** One access to the collection. */
  datatype Access = Find(q: Query) | Write(u: User)

  class UserStore {
    var users: map<Id, User>
    var nextId: Id
    ghost var log: seq<Access>

    /** Every record is stored under its own id, and ids not yet handed out
        are at least `nextId`. */
    ghost predicate Valid()
      reads this
    {
      forall k :: k in users ==> k < nextId && users[k].id == k
    }

    constructor (initial: map<Id, User>, next: Id)
      requires forall k :: k in initial ==> k < next && initial[k].id == k
      ensures Valid() && users == initial && nextId == next && log == []
    {
      users, nextId, log := initial, next, [];
    }

    /** `User.findOne(q)`: some record matching `q` (which one, when several
        match, is up to the database), or none when no record matches. When
        `fails`, the database reports an error instead. */
    method FindOne(q: Query, fails: bool) returns (r: Lookup)
      requires Valid()
      modifies this`log
      ensures log == old(log) + [Find(q)]
      ensures fails <==> r.LookupFailed?
      ensures r.Found? ==> r.user.id in users && users[r.user.id] == r.user && Matches(r.user, q)
      ensures r.Missing? <==> !fails && !AnyMatch(users, q)
    {
      log := log + [Find(q)];
      if fails {
        return LookupFailed;
      }
      var unseen := users.Keys;
      while unseen != {}
        invariant unseen <= users.Keys
        invariant forall k :: k in users && k !in unseen ==> !Matches(users[k], q)
        decreases unseen
      {
        var k :| k in unseen;
        if Matches(users[k], q) {
          return Found(users[k]);
        }
        unseen := unseen - {k};
      }
      return Missing;
    }

    /** The id `new User(...)` gives a record: one no stored record has. */
    method NewId() returns (id: Id)
      requires Valid()
      modifies this`nextId
      ensures Valid()
      ensures id == old(nextId) && nextId == id + 1 && id !in users
    {
      id := nextId;
      nextId := nextId + 1;
    }

    /** `user.save()`: insert or overwrite the record with `u`'s id; when
        `fails`, the database reports an error and nothing is written. */
    method Save(u: User, fails: bool) returns (ok: bool)
      requires Valid() && u.id < nextId
      modifies this`users, this`log
      ensures Valid()
      ensures log == old(log) + [Write(u)]
      ensures ok == !fails
      ensures users == if ok then old(users)[u.id := u] else old(users)
    {
      log := log + [Write(u)];
      ok := !fails;
      if ok {
        users := users[u.id := u];
      }
    }
  }
}
