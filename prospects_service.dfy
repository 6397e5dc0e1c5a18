/**
  The application-level discovery path: prospects near a stored user that
  the user has not swiped yet, as flat records, in the order the discovery
  query returns them.
*/
module ProspectsApplication {
  import opened Wrappers
  import opened Ids
  import opened Geo
  import opened Profiles
  import opened Users
  import opened ProspectOrder
  import opened Scoring
  import opened UserRepository
  import opened SwipeRepository
  import opened Matching

  /** The flat record returned to the API layer. */
  datatype ProspectDto = ProspectDto(
    userId: UserId, displayName: Option<string>, age: int, distanceKm: real, sharedInterestCount: nat)

  /** `calculateAge`: the difference of the calendar years alone. */
  function CalculateAge(birth: Date, today: Date): (a: int)
    ensures OnOrBefore(birth, today) ==> a >= 0
  {
    today.year - birth.year
  }

  /** The year difference overstates the completed years by one exactly
      when this year's birthday is still to come, so it can differ from
      `Profile.age`. */
  lemma CalculateAgeVersusAge(p: Profile, today: Date)
    requires p.birthDate.Some? && OnOrBefore(p.birthDate.value, today)
    ensures var b := p.birthDate.value;
      CalculateAge(b, today) - Age(p, today)
        == if today.month < b.month || (today.month == b.month && today.day < b.day) then 1 else 0
  {
  }

  /** `countSharedInterests`: how many of the requester's interests the
      candidate also has. */
  function CountSharedInterests(mine: set<Interest>, theirs: set<Interest>): (n: nat)
    ensures n <= |mine| && n <= |theirs|
    ensures n == 0 <==> forall i :: i in mine ==> i !in theirs
  {
    var shared := set i | i in mine && i in theirs;
    assert shared <= mine && shared <= theirs;
    SubsetSize(shared, mine);
    SubsetSize(shared, theirs);
    assert (forall i :: i in mine ==> i !in theirs) ==> shared == {};
    assert forall i :: i in mine && i in theirs ==> i in shared;
    |shared|
  }

  lemma {:induction false} SubsetSize<T>(a: set<T>, b: set<T>)
    requires a <= b
    ensures |a| <= |b|
    decreases |b|
  {
    if a != {} {
      var x :| x in a;
      SubsetSize(a - {x}, b - {x});
    }
  }

  /** The count is the size of the shared-interest set the matching
      service puts in its prospects. */
  lemma SharedCountAgrees(id: UserId, candidate: Profile, requester: Profile, today: Date,
                          strategies: seq<Strategy>)
    requires candidate.location.Some? && requester.location.Some?
    requires forall i :: 0 <= i < |strategies| ==> WellFormed(strategies[i])
    ensures CountSharedInterests(requester.interests, candidate.interests)
      == |ProspectOf(id, candidate, requester, today, strategies).sharedInterests|
  {
    var p := ProspectOf(id, candidate, requester, today, strategies);
    assert p.sharedInterests == set i | i in requester.interests && i in candidate.interests;
  }

  /** The record for one candidate, given the requester's location and
      interests. */
  function DtoOf(u: User, myLocation: Location, myInterests: set<Interest>, today: Date): (d: ProspectDto)
    requires u.profile.Some? && u.profile.value.location.Some? && u.profile.value.birthDate.Some?
    reads u
    ensures d.userId == u.id && d.displayName == u.profile.value.displayName
    ensures d.age == CalculateAge(u.profile.value.birthDate.value, today)
    ensures d.distanceKm == Haversine(u.profile.value.location.value, myLocation) && d.distanceKm >= 0.0
    ensures d.sharedInterestCount == CountSharedInterests(myInterests, u.profile.value.interests)
  {
    var p := u.profile.value;
    ProspectDto(u.id, p.displayName, CalculateAge(p.birthDate.value, today),
                DistanceTo(p.location.value, myLocation).kilometers,
                CountSharedInterests(myInterests, p.interests))
  }

  /** Every candidate has a birth date. */
  predicate AllBorn(cands: seq<User>)
    reads cands
  {
    forall i :: 0 <= i < |cands| ==> cands[i].profile.Some? && cands[i].profile.value.birthDate.Some?
  }

  /** The records of the candidates, in candidate order. */
  function DtosOf(cands: seq<User>, myLocation: Option<Location>, myInterests: set<Interest>, today: Date): (ds: seq<ProspectDto>)
    requires AllLocated(cands) && AllBorn(cands) && (|cands| > 0 ==> myLocation.Some?)
    reads cands
    ensures |ds| == |cands|
    ensures forall i :: 0 <= i < |ds| ==> ds[i].userId == cands[i].id
    decreases |cands|
  {
    if |cands| == 0 then []
    else
      var last := cands[|cands| - 1];
      DtosOf(cands[..|cands| - 1], myLocation, myInterests, today) + [DtoOf(last, myLocation.value, myInterests, today)]
  }

  class ProspectsService {
    const users: InMemoryUserRepository
    const swipes: InMemorySwipeRepository

    constructor (users: InMemoryUserRepository, swipes: InMemorySwipeRepository)
      ensures this.users == users && this.swipes == swipes
    {
      this.users := users;
      this.swipes := swipes;
    }

    /** `findProspects(userId, maxDistance, limit, excludedInterests)` with
        `today` for the ages. An unknown user or one without a profile
        throws. The discovery query is asked for exactly `limit` users and
        may fail as it does; the user and everyone the user has swiped on
        are dropped, and a remaining candidate without a birth date throws.
        `excludedInterests` plays no part. */
    method FindProspects(userId: UserId, maxDistance: Distance, limit: Int32, excludedInterests: set<Interest>,
                         today: Date)
      returns (r: Result<seq<ProspectDto>>, ghost candidates: seq<User>)
      requires users.Valid() && swipes.Valid()
      ensures users.FindById(userId).None? ==> r == Failure(NoSuchElement)
      ensures users.FindById(userId).Some? && users.FindById(userId).value.profile.None? ==> r == Failure(NullPointer)
      ensures users.FindById(userId).Some? && users.FindById(userId).value.profile.Some? ==>
        var me := users.FindById(userId).value.profile.value;
        var nullCenter := me.location.None? && limit > 0 && exists u :: u in users.storage.Values && Locatable(u);
        var swiped := swipes.FindSwipedUserIds(userId);
        && (limit < 0 ==> r.Failure? && r.error.IllegalArgument?)
        && (limit >= 0 && nullCenter ==> r == Failure(NullPointer))
        && (limit >= 0 && !nullCenter ==>
              && IsDiscoveryResult(users.storage.Values, me.location, maxDistance, limit, candidates)
              && AllLocated(candidates) && (|candidates| > 0 ==> me.location.Some?)
              && var kept := Survivors(candidates, userId, swiped);
                 && (!AllBorn(kept) ==> r == Failure(NullPointer))
                 && (AllBorn(kept) ==> r == Success(DtosOf(kept, me.location, me.interests, today))))
      ensures r.Success? ==>
        && |r.value| <= limit
        && forall i :: 0 <= i < |r.value| ==>
             r.value[i].userId != userId && r.value[i].userId !in swipes.FindSwipedUserIds(userId)
    {
      candidates := [];
      var current := users.FindById(userId);
      if current.None? {
        return Failure(NoSuchElement), candidates;
      }
      if current.value.profile.None? {
        return Failure(NullPointer), candidates;
      }
      var me := current.value.profile.value;
      var swiped := swipes.FindSwipedUserIds(userId);
      var found := users.FindDiscoverableInRadius(me.location, maxDistance, limit);
      if found.Failure? {
        return Failure(found.error), candidates;
      }
      candidates := found.value;
      DiscoveredAreLocated(users.storage.Values, me.location, maxDistance, limit, candidates);
      var kept := Survivors(found.value, userId, swiped);
      SurvivorsLocated(found.value, userId, swiped);
      r := ToDtos(kept, me.location, me.interests, today);
    }

    /** The records of the remaining candidates, built in order; the first
        candidate without a birth date throws. */
    static method ToDtos(kept: seq<User>, myLocation: Option<Location>, myInterests: set<Interest>, today: Date)
      returns (r: Result<seq<ProspectDto>>)
      requires AllLocated(kept) && (|kept| > 0 ==> myLocation.Some?)
      ensures !AllBorn(kept) ==> r == Failure(NullPointer)
      ensures AllBorn(kept) ==> r == Success(DtosOf(kept, myLocation, myInterests, today))
    {
      var ds: seq<ProspectDto> := [];
      var i := 0;
      while i < |kept|
        invariant 0 <= i <= |kept|
        invariant AllBorn(kept[..i])
        invariant ds == DtosOf(kept[..i], myLocation, myInterests, today)
      {
        assert kept[..i + 1][..i] == kept[..i];
        var u := kept[i];
        if u.profile.value.birthDate.None? {
          return Failure(NullPointer);
        }
        ds := ds + [DtoOf(u, myLocation.value, myInterests, today)];
        i := i + 1;
      }
      assert kept[..i] == kept;
      r := Success(ds);
    }
  }
}
