/**
  The matching service: processing a swipe (record it once, detect a
  mutual like, create and announce the match once) and finding prospects
  (discover, filter, score, sort, truncate).
*/
module Matching {
  import opened Wrappers
  import opened Ids
  import opened Geo
  import opened Profiles
  import opened Users
  import opened Swipes
  import opened Matches
  import opened Events
  import opened Scoring
  import opened ProspectOrder
  import opened UserRepository
  import opened SwipeRepository
  import opened MatchRepository

  // ------------------------------------------------------------ prospects

  /** The over-fetch `limit * 2`, in Java `int` arithmetic. */
  function FetchSize(limit: Int32): Int32 {
    WrapInt32(limit * 2)
  }

  /** Up to 2^30 - 1 the over-fetch is exact; from 2^30 on it overflows to
      a negative count, which the discovery query rejects. */
  lemma FetchSizeOverflow(limit: Int32)
    ensures 0 <= limit < 0x4000_0000 ==> FetchSize(limit) == 2 * limit
    ensures limit >= 0x4000_0000 ==> FetchSize(limit) < 0
    ensures -0x4000_0000 <= limit < 0 ==> FetchSize(limit) < 0
  {
    if limit >= 0x4000_0000 {
      assert FetchSize(limit) == limit * 2 - 0x1_0000_0000;
    }
  }

  /** The candidates that are neither the requester nor excluded, in order. */
  function Survivors(cands: seq<User>, self: UserId, excluded: set<UserId>): (r: seq<User>)
    ensures |r| <= |cands|
    ensures forall i :: 0 <= i < |r| ==> r[i] in cands && r[i].id != self && r[i].id !in excluded
    ensures forall u :: u in cands && u.id != self && u.id !in excluded ==> u in r
    decreases |cands|
  {
    if |cands| == 0 then []
    else
      var rest := Survivors(cands[1..], self, excluded);
      if cands[0].id != self && cands[0].id !in excluded then [cands[0]] + rest else rest
  }

  /** The filter keeps the discovery order: filtering a concatenation
      filters each part and concatenates the results. */
  lemma {:induction false} SurvivorsConcat(a: seq<User>, b: seq<User>, self: UserId, excluded: set<UserId>)
    ensures Survivors(a + b, self, excluded) == Survivors(a, self, excluded) + Survivors(b, self, excluded)
    decreases |a|
  {
    if |a| == 0 {
      assert a + b == b;
    } else {
      assert (a + b)[0] == a[0] && (a + b)[1..] == a[1..] + b;
      SurvivorsConcat(a[1..], b, self, excluded);
      var head := SurvivorsCons(a + b, self, excluded);
      var head' := SurvivorsCons(a, self, excluded);
      ConcatAssociates(head, Survivors(a[1..], self, excluded), Survivors(b, self, excluded));
    }
  }

  /** One step of the filter: the first candidate, if it survives, then
      the survivors of the rest. */
  lemma SurvivorsCons(cands: seq<User>, self: UserId, excluded: set<UserId>) returns (head: seq<User>)
    requires |cands| > 0
    ensures head == if cands[0].id != self && cands[0].id !in excluded then [cands[0]] else []
    ensures Survivors(cands, self, excluded) == head + Survivors(cands[1..], self, excluded)
  {
    head := if cands[0].id != self && cands[0].id !in excluded then [cands[0]] else [];
  }

  lemma ConcatAssociates<T>(x: seq<T>, y: seq<T>, z: seq<T>)
    ensures x + (y + z) == (x + y) + z
  {
  }

  /** `toProspect(candidate, requester)` on the two profiles: the
      requester-to-candidate distance, the interests both hold, the
      candidate's age today and the scorer's mean score. */
  function ProspectOf(id: UserId, candidate: Profile, requester: Profile, today: Date,
                      strategies: seq<Strategy>): (p: Prospect)
    requires candidate.location.Some? && requester.location.Some?
    requires forall i :: 0 <= i < |strategies| ==> WellFormed(strategies[i])
    ensures p.userId == id
    ensures forall i :: i in p.sharedInterests <==> i in candidate.interests && i in requester.interests
    ensures 0.0 <= p.score <= 1.0
  {
    MeanInUnitInterval(Scores(strategies, candidate, requester));
    Prospect(id, candidate.displayName, Age(candidate, today), candidate.bio, candidate.photoUrls,
             DistanceTo(requester.location.value, candidate.location.value),
             candidate.interests * requester.interests,
             Mean(Scores(strategies, candidate, requester)))
  }

  /** The prospect shows the candidate's own name, bio and photos, the
      candidate's age today, the distance from the requester to the
      candidate, and the mean of the strategy scores. */
  lemma ProspectOfShows(id: UserId, candidate: Profile, requester: Profile, today: Date,
                        strategies: seq<Strategy>)
    requires candidate.location.Some? && requester.location.Some?
    requires forall i :: 0 <= i < |strategies| ==> WellFormed(strategies[i])
    ensures var p := ProspectOf(id, candidate, requester, today, strategies);
      && p.displayName == candidate.displayName && p.bio == candidate.bio
      && p.photoUrls == candidate.photoUrls && p.age == Age(candidate, today)
      && p.distance.kilometers == Haversine(requester.location.value, candidate.location.value)
      && p.score == Mean(Scores(strategies, candidate, requester))
  {
  }

  /** Every candidate has a profile with a location. */
  predicate AllLocated(cands: seq<User>)
    reads cands
  {
    forall i :: 0 <= i < |cands| ==> cands[i].profile.Some? && cands[i].profile.value.location.Some?
  }

  lemma SurvivorsLocated(cands: seq<User>, self: UserId, excluded: set<UserId>)
    requires AllLocated(cands)
    ensures AllLocated(Survivors(cands, self, excluded))
  {
    var kept := Survivors(cands, self, excluded);
    forall i | 0 <= i < |kept| ensures kept[i].profile.Some? && kept[i].profile.value.location.Some? {
      var j :| 0 <= j < |cands| && cands[j] == kept[i];
    }
  }

  /** Whatever the discovery query returns has profiles with locations, and
      is empty when there is no center. */
  lemma DiscoveredAreLocated(stored: set<User>, center: Option<Location>, radius: Distance, limit: int,
                             r: seq<User>)
    requires IsDiscoveryResult(stored, center, radius, limit, r)
    ensures AllLocated(r) && (|r| > 0 ==> center.Some?)
  {
    if |r| > 0 {
      assert WithinRadius(r[0], center, radius);
    }
  }

  /** The prospects of the candidates, in candidate order. */
  function ProspectsOf(cands: seq<User>, requester: Profile, today: Date, strategies: seq<Strategy>): (ps: seq<Prospect>)
    requires AllLocated(cands) && (|cands| > 0 ==> requester.location.Some?)
    requires forall i :: 0 <= i < |strategies| ==> WellFormed(strategies[i])
    reads cands
    ensures |ps| == |cands|
    ensures forall i :: 0 <= i < |ps| ==> ps[i] == ProspectOf(cands[i].id, cands[i].profile.value, requester, today, strategies)
  {
    seq(|cands|, k requires 0 <= k < |cands| && cands[k].profile.Some? && cands[k].profile.value.location.Some?
                   reads cands =>
      ProspectOf(cands[k].id, cands[k].profile.value, requester, today, strategies))
  }

  /** What `findProspects` computes from the discovered candidates: drop
      the requester and the excluded ids, score, sort by descending score
      and keep the first `limit`. */
  function Pipeline(cands: seq<User>, requesterId: UserId, requester: Profile, excluded: set<UserId>,
                    limit: nat, today: Date, strategies: seq<Strategy>): seq<Prospect>
    requires AllLocated(cands) && (|cands| > 0 ==> requester.location.Some?)
    requires forall i :: 0 <= i < |strategies| ==> WellFormed(strategies[i])
    reads cands
  {
    var kept := Survivors(cands, requesterId, excluded);
    SurvivorsLocated(cands, requesterId, excluded);
    Take(SortByScoreDesc(ProspectsOf(kept, requester, today, strategies)), limit)
  }

  /** The result has at most `limit` prospects, best score first, and
      never shows the requester or an excluded user. */
  lemma PipelineGuarantees(cands: seq<User>, requesterId: UserId, requester: Profile, excluded: set<UserId>,
                           limit: nat, today: Date, strategies: seq<Strategy>)
    requires AllLocated(cands) && (|cands| > 0 ==> requester.location.Some?)
    requires forall i :: 0 <= i < |strategies| ==> WellFormed(strategies[i])
    ensures var r := Pipeline(cands, requesterId, requester, excluded, limit, today, strategies);
      && |r| <= limit
      && |r| == Min(limit, |Survivors(cands, requesterId, excluded)|)
      && SortedByScoreDesc(r)
      && forall i :: 0 <= i < |r| ==> r[i].userId != requesterId && r[i].userId !in excluded
  {
    var kept := Survivors(cands, requesterId, excluded);
    SurvivorsLocated(cands, requesterId, excluded);
    var ps := ProspectsOf(kept, requester, today, strategies);
    var r := Take(SortByScoreDesc(ps), limit);
    SortIsSorted(ps);
    TakeKeepsSorted(SortByScoreDesc(ps), limit);
    forall i | 0 <= i < |r| ensures r[i].userId != requesterId && r[i].userId !in excluded {
      SortKeepsElements(ps, r[i]);
      var j :| 0 <= j < |ps| && ps[j] == r[i];
    }
  }

  /** The smaller of two counts. */
  function Min(a: nat, b: nat): nat {
    if a <= b then a else b
  }

  /** Storing a new match and announcing it keeps every stored match
      announced exactly once. */
  lemma AnnounceKeepsOnce(published: seq<DomainEvent>, storage: map<MatchId, Match>, m: Match, e: DomainEvent)
    requires forall id :: CountMatchCreated(published, id) == (if id in storage then 1 else 0)
    requires m.id !in storage && e.MatchCreated? && e.matchId == m.id
    ensures forall id :: CountMatchCreated(published + [e], id) == (if id in storage[m.id := m] then 1 else 0)
  {
    forall id ensures CountMatchCreated(published + [e], id) == (if id in storage[m.id := m] then 1 else 0) {
      CountAfterPublish(published, e, id);
    }
  }

  // ------------------------------------------------------------- service

  class MatchingService {
    const scorer: MatchScorer
    const users: InMemoryUserRepository
    const swipes: InMemorySwipeRepository
    const matches: InMemoryMatchRepository
    const events: EventPublisher

    constructor (scorer: MatchScorer, users: InMemoryUserRepository, swipes: InMemorySwipeRepository,
                 matches: InMemoryMatchRepository, events: EventPublisher)
      ensures this.scorer == scorer && this.users == users && this.swipes == swipes
      ensures this.matches == matches && this.events == events
      ensures Valid() <==>
        (&& users.Valid() && swipes.Valid() && matches.Valid()
         && forall id :: CountMatchCreated(events.published, id) == (if id in matches.storage then 1 else 0))
    {
      this.scorer := scorer;
      this.users := users;
      this.swipes := swipes;
      this.matches := matches;
      this.events := events;
    }

    /** Every stored match was announced exactly once, and no event names a
        match that is not stored. */
    ghost predicate PublishedOnce()
      reads matches, events
    {
      forall id :: CountMatchCreated(events.published, id) == (if id in matches.storage then 1 else 0)
    }

    ghost predicate Valid()
      reads users, swipes, matches, events
    {
      users.Valid() && swipes.Valid() && matches.Valid() && PublishedOnce()
    }

    /** `processSwipe(swiper, target, direction)`, with the new swipe's id
        and the clock reading as parameters.
        A self-swipe throws before anything is written. Otherwise the swipe
        is saved unless the pair already has one; a match results exactly
        when the stored swipes both ways are likes. An existing match is
        returned as stored, with no save and no event; otherwise the new
        match is saved and one event announces it. */
    method ProcessSwipe(swiper: UserId, target: UserId, direction: SwipeDirection, swipeId: SwipeId, now: int)
      returns (r: Result<Option<Match>>)
      requires Valid()
      modifies swipes, matches, events
      ensures Valid()
      ensures swiper == target ==>
        && r == Failure(IllegalArgument("Cannot swipe on yourself"))
        && swipes.storage == old(swipes.storage) && matches.storage == old(matches.storage)
        && events.published == old(events.published)
      ensures swiper != target ==>
        && r.Success?
        && var k := Key(swiper, target);
           swipes.storage == if k in old(swipes.storage) then old(swipes.storage)
                             else old(swipes.storage)[k := Swipe(swipeId, swiper, target, direction, now)]
      ensures r.Success? ==> (r.value.Some? <==> swipes.Likes(swiper, target) && swipes.Likes(target, swiper))
      ensures r == Success(None) ==>
        matches.storage == old(matches.storage) && events.published == old(events.published)
      ensures var id := Canonical(swiper, target);
        r.Success? && r.value.Some? && id in old(matches.storage) ==>
          && r.value.value == old(matches.storage)[id]
          && matches.storage == old(matches.storage) && events.published == old(events.published)
      ensures var id := Canonical(swiper, target);
        r.Success? && r.value.Some? && id !in old(matches.storage) ==>
          && r.value.value == Matches.Create(swiper, target, now).value
          && matches.storage == old(matches.storage)[id := r.value.value]
          && events.published == old(events.published) + [MatchCreated(id, swiper, target, now)]
    {
      var created := Swipes.Create(swiper, target, direction, swipeId, now);
      if created.Failure? {
        return Failure(created.error);
      }
      var swipe := swipes.SaveIfNotExists(created.value);
      if !IsLike(swipe.direction) {
        return Success(None);
      }
      var reverse := swipes.FindByPair(target, swiper);
      if reverse.None? || !IsLike(reverse.value.direction) {
        return Success(None);
      }
      r := CreateMatch(swiper, target, now);
    }

    /** The third step of `processSwipe`, once both swipes are likes: the
        stored match is returned if there is one; otherwise the new match
        is saved and announced. */
    method CreateMatch(swiper: UserId, target: UserId, now: int) returns (r: Result<Option<Match>>)
      requires Valid() && swiper != target
      modifies matches, events
      ensures Valid() && r.Success? && r.value.Some?
      ensures var id := Canonical(swiper, target);
        id in old(matches.storage) ==>
          && r.value.value == old(matches.storage)[id]
          && matches.storage == old(matches.storage) && events.published == old(events.published)
      ensures var id := Canonical(swiper, target);
        id !in old(matches.storage) ==>
          && r.value.value == Matches.Create(swiper, target, now).value
          && matches.storage == old(matches.storage)[id := r.value.value]
          && events.published == old(events.published) + [MatchCreated(id, swiper, target, now)]
    {
      var id := Canonical(swiper, target);
      var existing := matches.FindById(id);
      if existing.Some? {
        return Success(existing);
      }
      var m := Matches.Create(swiper, target, now).value;
      var _ := matches.SaveIfNotExists(m);
      var e := MatchCreated(m.id, swiper, target, now);
      events.Publish(e);
      AnnounceKeepsOnce(old(events.published), old(matches.storage), m, e);
      r := Success(Some(m));
    }

    /** `toProspect(candidate, requester)`. */
    method ToProspect(candidate: User, requester: User, today: Date) returns (p: Prospect)
      requires scorer.Configured()
      requires candidate.profile.Some? && candidate.profile.value.location.Some?
      requires requester.profile.Some? && requester.profile.value.location.Some?
      ensures p == ProspectOf(candidate.id, candidate.profile.value, requester.profile.value, today, scorer.strategies)
    {
      var c := candidate.profile.value;
      var q := requester.profile.value;
      var score := scorer.Score(c, q);
      var dist := DistanceTo(q.location.value, c.location.value);
      var shared := set i | i in c.interests && i in q.interests;
      assert shared == c.interests * q.interests;
      p := Prospect(candidate.id, c.displayName, Age(c, today), c.bio, c.photoUrls, dist, shared, score);
    }

    /** `findProspects(requester, radius, limit, excludedIds)` with
        `today` for the ages. A requester without a profile throws. The
        discovery query is asked for `limit * 2` users (Java `int`
        arithmetic) around the requester's location and may fail as that
        query does; a negative `limit` is rejected after it. On success the
        result is `Pipeline` of the users the query returned, which are
        `candidates`. */
    method FindProspects(requester: User, radius: Distance, limit: Int32, excludedIds: set<UserId>, today: Date)
      returns (r: Result<seq<Prospect>>, ghost candidates: seq<User>)
      requires scorer.Configured()
      ensures requester.profile.None? ==> r == Failure(NullPointer)
      ensures requester.profile.Some? ==>
        var center := requester.profile.value.location;
        var fetch := FetchSize(limit);
        var nullCenter := center.None? && fetch > 0 && exists u :: u in users.storage.Values && Locatable(u);
        && (fetch < 0 ==> r.Failure? && r.error.IllegalArgument?)
        && (fetch >= 0 && nullCenter ==> r == Failure(NullPointer))
        && (fetch >= 0 && !nullCenter && limit < 0 ==> r.Failure? && r.error.IllegalArgument?)
        && (fetch >= 0 && !nullCenter && limit >= 0 ==>
              && r.Success?
              && IsDiscoveryResult(users.storage.Values, center, radius, fetch, candidates)
              && AllLocated(candidates) && (|candidates| > 0 ==> center.Some?)
              && r.value == Pipeline(candidates, requester.id, requester.profile.value, excludedIds,
                                     limit, today, scorer.strategies))
      ensures r.Success? ==>
        && |r.value| <= limit
        && SortedByScoreDesc(r.value)
        && forall i :: 0 <= i < |r.value| ==> r.value[i].userId != requester.id && r.value[i].userId !in excludedIds
    {
      candidates := [];
      if requester.profile.None? {
        return Failure(NullPointer), candidates;
      }
      var center := requester.profile.value.location;
      var found := users.FindDiscoverableInRadius(center, radius, FetchSize(limit));
      if found.Failure? {
        return Failure(found.error), candidates;
      }
      candidates := found.value;
      if limit < 0 {
        return Failure(IllegalArgument("")), candidates;
      }
      DiscoveredAreLocated(users.storage.Values, center, radius, FetchSize(limit), candidates);
      var kept := Survivors(found.value, requester.id, excludedIds);
      SurvivorsLocated(found.value, requester.id, excludedIds);
      var ps := ToProspects(kept, requester, today);
      assert ps == ProspectsOf(kept, requester.profile.value, today, scorer.strategies);
      r := Success(Take(SortByScoreDesc(ps), limit));
      PipelineGuarantees(candidates, requester.id, requester.profile.value, excludedIds, limit, today, scorer.strategies);
    }

    /** `toProspect` applied to each candidate in turn. */
    method ToProspects(cands: seq<User>, requester: User, today: Date) returns (ps: seq<Prospect>)
      requires scorer.Configured() && AllLocated(cands) && requester.profile.Some?
      requires |cands| > 0 ==> requester.profile.value.location.Some?
      ensures |ps| == |cands|
      ensures forall k :: 0 <= k < |ps| ==> ps[k] == ProspectOf(cands[k].id, cands[k].profile.value, requester.profile.value, today, scorer.strategies)
    {
      ps := [];
      var i := 0;
      while i < |cands|
        invariant 0 <= i <= |cands| && |ps| == i
        invariant forall k :: 0 <= k < i ==> ps[k] == ProspectOf(cands[k].id, cands[k].profile.value, requester.profile.value, today, scorer.strategies)
      {
        var p := ToProspect(cands[i], requester, today);
        ps := ps + [p];
        i := i + 1;
      }
    }
  }

  /** On a fresh service, a like waits for its answer; the reciprocal like
      makes the match under the canonical id and announces it once. */
  method ReciprocalLikeScenario(a: UserId, b: UserId, s1: SwipeId, s2: SwipeId, t: int)
    returns (first: Result<Option<Match>>, second: Result<Option<Match>>, ghost announced: nat)
    requires a != b
    ensures first == Success(None)
    ensures second.Success? && second.value.Some? && second.value.value.id == Canonical(a, b)
    ensures announced == 1
  {
    var scorer := new MatchScorer([]);
    var users := new InMemoryUserRepository();
    var swipes := new InMemorySwipeRepository();
    var matches := new InMemoryMatchRepository();
    var events := new EventPublisher();
    var service := new MatchingService(scorer, users, swipes, matches, events);
    assert service.Valid();
    first := service.ProcessSwipe(a, b, Like, s1, t);
    assert swipes.storage == map[Key(a, b) := Swipe(s1, a, b, Like, t)];
    assert !swipes.Likes(b, a);
    second, announced := AnswerLike(service, a, b, s1, s2, t);
  }

  /** The second half of the scenario: with only `a`'s like stored and no
      match yet, `b`'s like back makes the match and announces it once. */
  method AnswerLike(service: MatchingService, a: UserId, b: UserId, s1: SwipeId, s2: SwipeId, t: int)
    returns (second: Result<Option<Match>>, ghost announced: nat)
    requires service.Valid() && a != b
    requires service.swipes.storage == map[Key(a, b) := Swipe(s1, a, b, Like, t)]
    requires service.matches.storage == map[] && service.events.published == []
    modifies service.swipes, service.matches, service.events
    ensures second.Success? && second.value.Some? && second.value.value.id == Canonical(a, b)
    ensures announced == 1
  {
    CanonicalCommutes(a, b);
    var id := Canonical(a, b);
    if Key(b, a) == Key(a, b) {
      KeyInjective(b, a, a, b);
    }
    second := service.ProcessSwipe(b, a, Like, s2, t + 1);
    assert service.swipes.Likes(a, b) && service.swipes.Likes(b, a);
    assert service.events.published == [MatchCreated(id, b, a, t + 1)];
    announced := CountMatchCreated(service.events.published, id);
  }
}
