/** The in-memory user store, keyed by user id, and its discovery query. */
module UserRepository {
  import opened Wrappers
  import opened Ids
  import opened UserStates
  import opened Geo
  import opened Profiles
  import opened Users

  /** The first two filters of the discovery query: the state allows
      discovery and there is a profile with a location. */
  predicate Locatable(u: User)
    reads u
  {
    CanBeDiscovered(u.state) && u.profile.Some? && u.profile.value.location.Some?
  }

  /** All three filters: locatable and at most `radius` from `center`,
      the boundary included. */
  predicate WithinRadius(u: User, center: Option<Location>, radius: Distance)
    reads u
  {
    && Locatable(u) && center.Some?
    && IsLessThanOrEqual(DistanceTo(center.value, u.profile.value.location.value), radius)
  }

  /** What the discovery query may return, given that the stored users are
      visited in some unspecified order: at most `limit` distinct stored
      users that pass the filters, and all of them when fewer than `limit`
      are returned. */
  ghost predicate IsDiscoveryResult(stored: set<User>, center: Option<Location>, radius: Distance,
                                    limit: int, r: seq<User>)
    reads stored
  {
    && |r| <= limit
    && (forall i :: 0 <= i < |r| ==> r[i] in stored && WithinRadius(r[i], center, radius))
    && (forall i, j :: 0 <= i < j < |r| ==> r[i] != r[j])
    && (|r| < limit ==> forall u :: u in stored && WithinRadius(u, center, radius) ==> u in r)
  }

  class InMemoryUserRepository {
    var storage: map<UserId, User>

    /** Each user is stored under its own id. */
    ghost predicate Valid()
      reads this
    {
      forall id | id in storage :: storage[id].id == id
    }

    constructor ()
      ensures storage == map[] && Valid()
    {
      storage := map[];
    }

    /** Inserts the user, or replaces the one stored under the same id. */
    method Save(user: User)
      requires Valid()
      modifies this
      ensures Valid()
      ensures storage == old(storage)[user.id := user]
    {
      storage := storage[user.id := user];
    }

    /** The last user saved under the id, or empty. */
    function FindById(id: UserId): (r: Option<User>)
      requires Valid()
      reads this
      ensures r.Some? <==> exists u :: u in storage.Values && u.id == id
      ensures r.Some? ==> r.value in storage.Values && r.value.id == id
    {
      if id in storage then
        assert storage[id] in storage.Values;
        Some(storage[id])
      else
        None
    }

    function ExistsById(id: UserId): (b: bool)
      requires Valid()
      reads this
      ensures b <==> FindById(id).Some?
    {
      id in storage
    }

    /** Some stored user with exactly this username, or empty; which one,
        when several share it, depends on the map's iteration order. */
    method FindByUsername(username: string) returns (r: Option<User>)
      ensures r.Some? ==> r.value in storage.Values && r.value.username == username
      ensures r.None? <==> forall u :: u in storage.Values ==> u.username != username
    {
      if u :| u in storage.Values && u.username == username {
        r := Some(u);
      } else {
        r := None;
      }
    }

    function ExistsByUsername(username: string): (b: bool)
      reads this
      ensures b <==> exists u :: u in storage.Values && u.username == username
    {
      exists id :: id in storage && storage[id].username == username
    }

    /** `findDiscoverableInRadius(center, radius, limit)`: the stored users
        are visited in an unspecified order and kept while they pass the
        filters, until `limit` are kept. A negative limit is rejected before
        any user is visited; a missing center fails on the first locatable
        user visited. */
    method FindDiscoverableInRadius(center: Option<Location>, radius: Distance, limit: int)
      returns (r: Result<seq<User>>)
      ensures limit < 0 ==> r.Failure? && r.error.IllegalArgument?
      ensures limit >= 0 && r.Failure? ==> r.error == NullPointer
      ensures r.Failure? && limit >= 0 <==>
        center.None? && limit > 0 && exists u :: u in storage.Values && Locatable(u)
      ensures r.Success? ==> IsDiscoveryResult(storage.Values, center, radius, limit, r.value)
    {
      if limit < 0 {
        return Failure(IllegalArgument(""));
      }
      var rest := storage.Values;
      var kept: seq<User> := [];
      while rest != {} && |kept| < limit
        invariant rest <= storage.Values
        invariant |kept| <= limit
        invariant forall i :: 0 <= i < |kept| ==> kept[i] in storage.Values - rest && WithinRadius(kept[i], center, radius)
        invariant forall i, j :: 0 <= i < j < |kept| ==> kept[i] != kept[j]
        invariant forall u :: u in storage.Values - rest && WithinRadius(u, center, radius) ==> u in kept
        invariant center.None? ==> kept == [] && forall u :: u in storage.Values - rest ==> !Locatable(u)
        decreases |rest|
      {
        var u :| u in rest;
        rest := rest - {u};
        if Locatable(u) {
          if center.None? {
            return Failure(NullPointer);
          }
          if IsLessThanOrEqual(DistanceTo(center.value, u.profile.value.location.value), radius) {
            kept := kept + [u];
          }
        }
      }
      r := Success(kept);
    }
  }
}
