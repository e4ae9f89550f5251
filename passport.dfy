/** The Google strategy's verify callback and the session (de)serialisers
    (config/passport.js). The callback resolves a Google profile to a user in
    a fixed order: the record holding the profile's Google id; else the
    record holding its first email address, which is linked to the Google
    account; else a new record. `done(error, user)` becomes a `Done` value. */
module Passport {
  import opened Common
  import opened Users

  /** The parts of a passport Google profile the callback reads; `emails`
      and `photos` are the `value`s of `profile.emails` and `profile.photos`
      (either may be empty). */
  datatype Profile = Profile(id: string, displayName: Option<string>, emails: seq<string>, photos: seq<string>)

  /** Why `done` was called with an error: the database failed, or the
      profile lacked an email address or photo (reading `[0].value` of an
      empty list throws a TypeError). */
  datatype Fault = StorageError | MissingProfileField

  /** The arguments of `done(error, user)`. */
  datatype Done = Done(error: Option<Fault>, user: Option<User>)

  /** Which database calls fail in one run of the callback: the Google id
      lookup, the email lookup, the save. */
  datatype Faults = Faults(googleLookupFails: bool, emailLookupFails: bool, saveFails: bool)

  /** The record created for a profile seen for the first time. */
  function NewGoogleUser(id: Id, p: Profile): (u: User)
    requires |p.emails| > 0 && |p.photos| > 0
    ensures u.id == id && u.authMethod == "google"
    ensures u.googleId == Some(p.id) && u.name == p.displayName
    ensures u.email == p.emails[0] && u.avatar == Some(p.photos[0])
    ensures u.role.None? && u.password.None?
  {
    User(id, Some(p.id), p.displayName, p.emails[0], Some(p.photos[0]), "google", None, None)
  }

  /** An email-matched record linked to the Google account: only `googleId`
      and `avatar` change. */
  function Link(u: User, p: Profile): (r: User)
    requires |p.photos| > 0
    ensures r.googleId == Some(p.id) && r.avatar == Some(p.photos[0])
    ensures r.(googleId := u.googleId, avatar := u.avatar) == u
  {
    u.(googleId := Some(p.id), avatar := Some(p.photos[0]))
  }

  /** The verify callback. The branches of its contract follow the order of
      the lookups: the Google id decides first, then the email address. */
  method VerifyGoogleProfile(store: UserStore, p: Profile, faults: Faults) returns (done: Done)
    requires store.Valid()
    modifies store
    ensures store.Valid()
    // `done` gets an error or a user, never both
    ensures done.error.Some? <==> done.user.None?
    ensures done.error.Some? ==> store.users == old(store.users)
    ensures faults.googleLookupFails ==> done == Done(Some(StorageError), None)
    // Step 1: the record holding the Google id is returned as it is, nothing
    // is written and the email address is never looked up.
    ensures !faults.googleLookupFails && AnyMatch(old(store.users), ByGoogleId(p.id)) ==>
              && done.user.Some?
              && done.user.value.id in old(store.users)
              && old(store.users)[done.user.value.id] == done.user.value
              && done.user.value.googleId == Some(p.id)
              && store.users == old(store.users)
              && store.log == old(store.log) + [Find(ByGoogleId(p.id))]
    // Without a Google id match, a profile without an email address fails.
    ensures !faults.googleLookupFails && !AnyMatch(old(store.users), ByGoogleId(p.id)) && |p.emails| == 0 ==>
              done == Done(Some(MissingProfileField), None)
    // A failed email lookup fails the callback.
    ensures (!faults.googleLookupFails && !AnyMatch(old(store.users), ByGoogleId(p.id)) && |p.emails| > 0
             && faults.emailLookupFails) ==> done == Done(Some(StorageError), None)
    // Step 2: the record holding the email address is linked and returned.
    ensures !faults.googleLookupFails && !faults.emailLookupFails && !AnyMatch(old(store.users), ByGoogleId(p.id))
            && |p.emails| > 0
            && AnyMatch(old(store.users), ByEmail(p.emails[0])) ==>
              if |p.photos| == 0 then done == Done(Some(MissingProfileField), None)
              else if faults.saveFails then done == Done(Some(StorageError), None)
              else
                && done.user.Some?
                && var u := done.user.value;
                && u.id in old(store.users)
                && old(store.users)[u.id].email == p.emails[0]
                && u == Link(old(store.users)[u.id], p)
                && store.users == old(store.users)[u.id := u]
                && store.log == old(store.log) + [Find(ByGoogleId(p.id)), Find(ByEmail(p.emails[0])), Write(u)]
    // Step 3: neither lookup matched, so a new record is created.
    ensures !faults.googleLookupFails && !faults.emailLookupFails && !AnyMatch(old(store.users), ByGoogleId(p.id))
            && |p.emails| > 0
            && !AnyMatch(old(store.users), ByEmail(p.emails[0])) ==>
              if |p.photos| == 0 then done == Done(Some(MissingProfileField), None)
              else if faults.saveFails then done == Done(Some(StorageError), None)
              else
                && done.user.Some?
                && var u := done.user.value;
                && u.id !in old(store.users)
                && u == NewGoogleUser(u.id, p)
                && store.users == old(store.users)[u.id := u]
    // At most one record is added and none is removed.
    ensures old(store.users).Keys <= store.users.Keys
    ensures |store.users.Keys| <= |old(store.users).Keys| + 1
    // No Google id or email address ends up on two records.
    ensures UniqueIdentities(old(store.users)) ==> UniqueIdentities(store.users)
  {
    var byGoogleId := store.FindOne(ByGoogleId(p.id), faults.googleLookupFails);
    if byGoogleId.LookupFailed? {
      return Done(Some(StorageError), None);
    }
    if byGoogleId.Found? {
      return Done(None, Some(byGoogleId.user));
    }
    if |p.emails| == 0 {
      return Done(Some(MissingProfileField), None);
    }
    var byEmail := store.FindOne(ByEmail(p.emails[0]), faults.emailLookupFails);
    if byEmail.LookupFailed? {
      return Done(Some(StorageError), None);
    }
    if |p.photos| == 0 {
      return Done(Some(MissingProfileField), None);
    }
    var u: User;
    if byEmail.Found? {
      u := Link(byEmail.user, p);
    } else {
      var id := store.NewId();
      u := NewGoogleUser(id, p);
    }
    ghost var before := store.users;
    var saved := store.Save(u, faults.saveFails);
    if !saved {
      return Done(Some(StorageError), None);
    }
    assert store.users.Keys == before.Keys + {u.id};
    UpdatePreservesUnique(before, u, p.id, p.emails[0]);
    return Done(None, Some(u));
  }

  /** Writing a record whose Google id no other record holds, and whose email
      address no other record holds, keeps identities unique. */
  lemma UpdatePreservesUnique(users: map<Id, User>, u: User, g: string, e: string)
    requires u.googleId == Some(g) && u.email == e
    requires !AnyMatch(users, ByGoogleId(g))
    requires u.id in users ==> users[u.id].email == e
    requires u.id !in users ==> !AnyMatch(users, ByEmail(e))
    ensures UniqueIdentities(users) ==> UniqueIdentities(users[u.id := u])
  {
  }

  /** `serializeUser`: the session stores the user's id. */
  function SerializeUser(u: User): (key: Id)
    ensures key == u.id
  {
    u.id
  }

  /** `deserializeUser`: `findById`; a missing record gives `done(null, null)`
      and a database failure `done(error, null)`. */
  function DeserializeUser(users: map<Id, User>, id: Id, lookupFails: bool): (done: Done)
    ensures done.error.Some? <==> lookupFails
    ensures done.user.Some? ==> id in users && done.user.value == users[id]
    ensures !lookupFails ==> (done.user.Some? <==> id in users)
  {
    if lookupFails then Done(Some(StorageError), None)
    else if id in users then Done(None, Some(users[id]))
    else Done(None, None)
  }

  /** What the session stores for a user reads back as that user's current
      record. */
  lemma SessionRoundTrip(store: UserStore, u: User)
    requires store.Valid() && u.id in store.users
    ensures DeserializeUser(store.users, SerializeUser(u), false) == Done(None, Some(store.users[u.id]))
    ensures DeserializeUser(store.users, SerializeUser(u), false).user.value.id == u.id
  {
  }

  /** Logging in twice with the same profile: the second run returns the
      same record, writes nothing, and its only access is the Google id
      lookup. `usersBetween` and `logBetween` are the collection and its log
      between the two runs. */
  method VerifyTwice(store: UserStore, p: Profile)
      returns (first: Done, second: Done, ghost usersBetween: map<Id, User>, ghost logBetween: seq<Access>)
    requires store.Valid() && UniqueIdentities(store.users)
    modifies store
    ensures first.user.Some? ==> second.user == first.user
    ensures first.user.Some? ==> store.users == usersBetween
    ensures first.user.Some? ==> store.log == logBetween + [Find(ByGoogleId(p.id))]
  {
    first := VerifyGoogleProfile(store, p, Faults(false, false, false));
    usersBetween, logBetween := store.users, store.log;
    if first.user.None? {
      second := first;
      return;
    }
    assert Matches(usersBetween[first.user.value.id], ByGoogleId(p.id));
    second := VerifyGoogleProfile(store, p, Faults(false, false, false));
  }
}
