/** The user directory routes (`/users`). Items are keyed by `id`; every
    profile attribute may be missing, because `update_item` creates the item
    when the key is new (so update and deactivate can write partial items). */
module Users {
  import opened Base
  import opened Http
  import opened Scan
  import opened Text

  datatype User = User(
    id: UserId,
    fullName: Option<string>,
    email: Option<string>,
    skill: Option<string>,
    bio: Option<string>,
    isActive: Option<bool>)

  /** The create payload. */
  datatype NewUser = NewUser(fullName: string, email: string, skill: string, bio: Option<string>)

  /** The update payload; `None` means "leave as is". */
  datatype ProfileUpdate = ProfileUpdate(fullName: Option<string>, skill: Option<string>, bio: Option<string>)

  type Store = map<UserId, User>

  /** `if skill:` — a filter is applied only for a non-empty value. */
  predicate Given(filter: Option<string>) {
    filter.Some? && filter.value != ""
  }

  predicate Active(u: User) {
    u.isActive == Some(true)
  }

  /** The scan filter of `list_users`: active, and with the skill filter
      lowercased and compared for equality when one is given. */
  predicate ListedBySkill(u: User, skill: Option<string>) {
    Active(u) && (!Given(skill) || u.skill == Some(Lower(skill.value)))
  }

  /** The scan filter of `search_users`: active, and the lowercased, stripped
      query occurs in the full name or in the skill. */
  predicate MatchesQuery(u: User, q: string) {
    && Active(u)
    && ((u.fullName.Some? && Contains(u.fullName.value, q)) || (u.skill.Some? && Contains(u.skill.value, q)))
  }

  /** `list_users` (the whole scan; paging is not modelled). */
  function ListUsers(users: Store, scan: seq<UserId>, skill: Option<string>): (r: seq<User>)
    requires IsScanOf(scan, users)
    ensures forall u :: u in r <==> u in users.Values && ListedBySkill(u, skill)
    ensures |r| == |set k | k in users && ListedBySkill(users[k], skill)|
    ensures forall u :: multiset(r)[u] == if ListedBySkill(u, skill) then |KeysHolding(users, u)| else 0
  {
    RowsAreValues(scan, users);
    var keep := (u: User) => ListedBySkill(u, skill);
    FilterRowsCount(scan, users, keep);
    FilterRowsMultiplicity(scan, users, keep);
    KeysWhereIs(users, keep, set k | k in users && ListedBySkill(users[k], skill));
    Filter(Rows(scan, users), keep)
  }

  /** `search_users`. */
  function SearchUsers(users: Store, scan: seq<UserId>, query: string): (r: seq<User>)
    requires IsScanOf(scan, users)
    ensures forall u :: u in r <==> u in users.Values && MatchesQuery(u, Strip(Lower(query)))
    ensures |r| == |set k | k in users && MatchesQuery(users[k], Strip(Lower(query)))|
    ensures forall u :: multiset(r)[u] ==
              if MatchesQuery(u, Strip(Lower(query))) then |KeysHolding(users, u)| else 0
  {
    RowsAreValues(scan, users);
    var q := Strip(Lower(query));
    var keep := (u: User) => MatchesQuery(u, q);
    FilterRowsCount(scan, users, keep);
    FilterRowsMultiplicity(scan, users, keep);
    KeysWhereIs(users, keep, set k | k in users && MatchesQuery(users[k], q));
    Filter(Rows(scan, users), keep)
  }

  /** `get_own_profile`: a missing item is a 404 that the catch-all turns into a 500. */
  function GetOwnProfile(users: Store, caller: UserId): (r: Result<User>)
    ensures r.Ok? <==> caller in users
    ensures r.Ok? ==> r.value == users[caller]
    ensures r.Err? ==> r.error == CaughtAll(Error(404, UserNotFound))
  {
    if caller in users then Ok(users[caller]) else Err(CaughtAll(Error(404, UserNotFound)))
  }

  /** The item `create_user` writes: keyed by the caller, active. */
  function Registered(caller: UserId, n: NewUser): User {
    User(caller, Some(n.fullName), Some(n.email), Some(n.skill), n.bio, Some(true))
  }

  /** `create_user`: puts (or replaces) the caller's item, always active. */
  function CreateUser(users: Store, caller: UserId, n: NewUser): (r: Reply<Store, User>)
    ensures r.store.Keys == users.Keys + {caller}
    ensures forall k :: k in users && k != caller ==> r.store[k] == users[k]
    ensures r.body == r.store[caller]
    ensures r.body.id == caller && r.body.isActive == Some(true)
    ensures r.body.fullName == Some(n.fullName) && r.body.email == Some(n.email)
    ensures r.body.skill == Some(n.skill) && r.body.bio == n.bio
  {
    var u := Registered(caller, n);
    Reply(users[caller := u], u)
  }

  /** The caller's item, or the bare key an `update_item` on a new key starts from. */
  function Current(users: Store, caller: UserId): User {
    if caller in users then users[caller] else User(caller, None, None, None, None, None)
  }

  function Overwrite(stored: Option<string>, given: Option<string>): Option<string> {
    if given.Some? then given else stored
  }

  predicate NothingGiven(p: ProfileUpdate) {
    p.fullName.None? && p.skill.None? && p.bio.None?
  }

  /** `update_user`: an all-`None` payload is a 400 raised inside the `try`,
      so it surfaces as a 500; otherwise each given field is set, every other
      attribute is kept, and the item is created if it was missing. */
  function UpdateUser(users: Store, caller: UserId, p: ProfileUpdate): (r: Result<Reply<Store, User>>)
    ensures r.Err? <==> NothingGiven(p)
    ensures r.Err? ==> r.error == CaughtAll(Error(400, NothingToUpdate))
    ensures r.Ok? ==> r.value.store.Keys == users.Keys + {caller}
    ensures r.Ok? ==> forall k :: k in users && k != caller ==> r.value.store[k] == users[k]
    ensures r.Ok? ==>
              var u, u' := Current(users, caller), r.value.store[caller];
              && r.value.body == u'
              && u'.id == u.id && u'.email == u.email && u'.isActive == u.isActive
              && (p.fullName.Some? ==> u'.fullName == p.fullName) && (p.fullName.None? ==> u'.fullName == u.fullName)
              && (p.skill.Some? ==> u'.skill == p.skill) && (p.skill.None? ==> u'.skill == u.skill)
              && (p.bio.Some? ==> u'.bio == p.bio) && (p.bio.None? ==> u'.bio == u.bio)
  {
    if NothingGiven(p) then Err(CaughtAll(Error(400, NothingToUpdate)))
    else
      var u := Current(users, caller);
      var u' := u.(fullName := Overwrite(u.fullName, p.fullName),
                   skill := Overwrite(u.skill, p.skill),
                   bio := Overwrite(u.bio, p.bio));
      Ok(Reply(users[caller := u'], u'))
  }

  /** `reactivate_user`: any authenticated caller may reactivate any existing
      user; a missing target is a 404 surfaced as a 500. */
  function ReactivateUser(users: Store, caller: UserId, target: UserId): (r: Result<Reply<Store, ()>>)
    ensures r.Ok? <==> target in users
    ensures r.Err? ==> r.error == CaughtAll(Error(404, UserNotFound))
    ensures r.Ok? ==> r.value.store.Keys == users.Keys
    ensures r.Ok? ==> forall k :: k in users && k != target ==> r.value.store[k] == users[k]
    ensures r.Ok? ==> r.value.store[target] == users[target].(isActive := Some(true))
  {
    if target !in users then Err(CaughtAll(Error(404, UserNotFound)))
    else Ok(Reply(users[target := users[target].(isActive := Some(true))], ()))
  }

  /** `deactivate_user`: clears `is_active` on the caller's own item (creating
      a bare inactive item when there was none) and on no other. */
  function DeactivateUser(users: Store, caller: UserId): (r: Reply<Store, ()>)
    ensures r.store.Keys == users.Keys + {caller}
    ensures forall k :: k in users && k != caller ==> r.store[k] == users[k]
    ensures r.store[caller] == Current(users, caller).(isActive := Some(false))
    ensures !Active(r.store[caller])
  {
    Reply(users[caller := Current(users, caller).(isActive := Some(false))], ())
  }

  /** Sending the same update twice leaves the table as one update does. */
  lemma UpdateIdempotent(users: Store, caller: UserId, p: ProfileUpdate)
    requires !NothingGiven(p)
    ensures UpdateUser(UpdateUser(users, caller, p).value.store, caller, p).value.store
            == UpdateUser(users, caller, p).value.store
  {
  }

  /** Reactivation undoes a deactivation of an active user, and who asks for
      it does not matter. */
  lemma ReactivateUndoesDeactivate(users: Store, u: UserId, anyone: UserId)
    requires u in users && Active(users[u])
    ensures ReactivateUser(DeactivateUser(users, u).store, anyone, u) == Ok(Reply(users, ()))
  {
    var s := ReactivateUser(DeactivateUser(users, u).store, anyone, u).value.store;
    assert s[u] == users[u];
    assert s == users;
  }

  /** A deactivated user drops out of every listing and every search. */
  lemma DeactivatedUnlisted(users: Store, caller: UserId, scan: seq<UserId>, skill: Option<string>, query: string)
    requires IsScanOf(scan, DeactivateUser(users, caller).store)
    ensures DeactivateUser(users, caller).store[caller] !in ListUsers(DeactivateUser(users, caller).store, scan, skill)
    ensures DeactivateUser(users, caller).store[caller] !in SearchUsers(DeactivateUser(users, caller).store, scan, query)
  {
  }

  /** After registering, the caller's own profile is the registered record,
      and every other account's profile reads as before. */
  lemma CreateThenGetOwnProfile(users: Store, caller: UserId, n: NewUser, other: UserId)
    ensures GetOwnProfile(CreateUser(users, caller, n).store, caller) == Ok(Registered(caller, n))
    ensures other != caller ==>
              GetOwnProfile(CreateUser(users, caller, n).store, other) == GetOwnProfile(users, other)
  {
  }

  /** A newly created user is listed when no skill filter is given. */
  lemma CreatedUserListed(users: Store, caller: UserId, n: NewUser, scan: seq<UserId>)
    requires IsScanOf(scan, CreateUser(users, caller, n).store)
    ensures CreateUser(users, caller, n).body in ListUsers(CreateUser(users, caller, n).store, scan, None)
  {
  }
}
