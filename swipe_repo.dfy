/** The in-memory swipe store: one swipe per ordered pair of users. */
module SwipeRepository {
  import opened Wrappers
  import opened Ids
  import opened Swipes

  /** The storage key of an ordered pair: swiper text, "_", target text. */
  function Key(swiper: UserId, target: UserId): (k: string)
    ensures |k| == 73 && k[..36] == swiper.uuid && k[37..] == target.uuid
  {
    swiper.uuid + "_" + target.uuid
  }

  /** Different ordered pairs never share a key. */
  lemma KeyInjective(a: UserId, b: UserId, c: UserId, d: UserId)
    requires Key(a, b) == Key(c, d)
    ensures a == c && b == d
  {
    assert a.uuid == Key(a, b)[..36] == c.uuid;
    assert b.uuid == Key(a, b)[37..] == d.uuid;
  }

  class InMemorySwipeRepository {
    var storage: map<string, Swipe>

    /** Each swipe is stored under the key of its own pair. */
    ghost predicate Valid()
      reads this
    {
      forall k | k in storage :: k == Key(storage[k].swiperId, storage[k].targetId)
    }

    constructor ()
      ensures storage == map[] && Valid()
    {
      storage := map[];
    }

    /** First write wins: a swipe for a pair already stored is not saved and
        the stored one is returned; otherwise the argument is stored and
        returned. Other pairs are never touched. */
    method SaveIfNotExists(swipe: Swipe) returns (r: Swipe)
      requires Valid()
      modifies this
      ensures Valid()
      ensures var k := Key(swipe.swiperId, swipe.targetId);
        if k in old(storage) then r == old(storage)[k] && storage == old(storage)
        else r == swipe && storage == old(storage)[k := swipe]
    {
      var k := Key(swipe.swiperId, swipe.targetId);
      if k in storage {
        r := storage[k];
      } else {
        storage := storage[k := swipe];
        r := swipe;
      }
    }

    /** The stored swipe of exactly this ordered pair; the reverse pair is a
        different entry. */
    function FindByPair(swiper: UserId, target: UserId): (r: Option<Swipe>)
      requires Valid()
      reads this
      ensures r.Some? <==> exists s :: s in storage.Values && s.swiperId == swiper && s.targetId == target
      ensures r.Some? ==> r.value in storage.Values && r.value.swiperId == swiper && r.value.targetId == target
    {
      var k := Key(swiper, target);
      if k in storage then
        assert storage[k] in storage.Values;
        KeyInjective(swiper, target, storage[k].swiperId, storage[k].targetId);
        Some(storage[k])
      else
        None
    }

    /** The swipe stored for this ordered pair exists and is a like. */
    function Likes(swiper: UserId, target: UserId): (b: bool)
      requires Valid()
      reads this
      ensures b <==> exists s :: s in storage.Values && s.swiperId == swiper && s.targetId == target && IsLike(s.direction)
    {
      var s := FindByPair(swiper, target);
      s.Some? && IsLike(s.value.direction)
    }

    /** Everyone the swiper has swiped on, in any direction: exactly the
        targets for which a pair lookup succeeds. */
    function FindSwipedUserIds(swiper: UserId): (ids: set<UserId>)
      requires Valid()
      reads this
      ensures forall t :: t in ids <==> FindByPair(swiper, t).Some?
    {
      set s | s in storage.Values && s.swiperId == swiper :: s.targetId
    }

    /** Everyone who liked or super-liked the user: exactly the swipers whose
        stored swipe on the user is a like. */
    function FindPendingLikersFor(user: UserId): (ids: set<UserId>)
      requires Valid()
      reads this
      ensures forall w :: w in ids <==> FindByPair(w, user).Some? && IsLike(FindByPair(w, user).value.direction)
    {
      set s | s in storage.Values && s.targetId == user && IsLike(s.direction) :: s.swiperId
    }
  }

  /** Saving a dislike after a like on the same pair leaves the like in
      place and returns it. */
  method FirstWriteWins(like: Swipe, dislike: Swipe) returns (stored: Swipe, later: Swipe)
    requires like.direction == Like && dislike.direction == Dislike
    requires like.swiperId == dislike.swiperId && like.targetId == dislike.targetId
    ensures stored == like && later == like
  {
    var repo := new InMemorySwipeRepository();
    stored := repo.SaveIfNotExists(like);
    later := repo.SaveIfNotExists(dislike);
  }
}
