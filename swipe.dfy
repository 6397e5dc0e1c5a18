/** A single swipe of one user on another, and its direction. */
module Swipes {
  import opened Wrappers
  import opened Ids

  datatype SwipeDirection = Like | Dislike | SuperLike

  /** LIKE and SUPER_LIKE count as likes, DISLIKE does not. */
  function IsLike(d: SwipeDirection): (b: bool)
    ensures b <==> d != Dislike
  {
    d == Like || d == SuperLike
  }

  /** The swipe aggregate; all fields are final. */
  datatype Swipe = Swipe(
    id: SwipeId, swiperId: UserId, targetId: UserId, direction: SwipeDirection, createdAt: int)

  /** `Swipe.create`: the random id and the clock reading are parameters.
      A swipe on oneself is rejected; otherwise the fields are taken as
      given. */
  function Create(swiper: UserId, target: UserId, direction: SwipeDirection, id: SwipeId, now: int): (r: Result<Swipe>)
    ensures r.Failure? <==> swiper == target
    ensures r.Failure? ==> r.error == IllegalArgument("Cannot swipe on yourself")
    ensures r.Success? ==> r.value == Swipe(id, swiper, target, direction, now)
  {
    if swiper == target then Failure(IllegalArgument("Cannot swipe on yourself"))
    else Success(Swipe(id, swiper, target, direction, now))
  }

  /** `Swipe.reconstitute`: no validation, so a stored self-swipe loads. */
  function Reconstitute(id: SwipeId, swiperId: UserId, targetId: UserId, direction: SwipeDirection, createdAt: int): (s: Swipe)
    ensures s.id == id && s.swiperId == swiperId && s.targetId == targetId
    ensures s.direction == direction && s.createdAt == createdAt
  {
    Swipe(id, swiperId, targetId, direction, createdAt)
  }

  /** Every swipe `create` returns is between two different users. */
  lemma CreatedSwipeIsNotSelf(swiper: UserId, target: UserId, direction: SwipeDirection, id: SwipeId, now: int)
    requires Create(swiper, target, direction, id, now).Success?
    ensures Create(swiper, target, direction, id, now).value.swiperId != Create(swiper, target, direction, id, now).value.targetId
  {
  }

  /** `swipe.isLike()` delegates to the direction. */
  function SwipeIsLike(s: Swipe): (b: bool)
    ensures b <==> s.direction in {Like, SuperLike}
  {
    IsLike(s.direction)
  }
}
