/** Domain events and the publisher port, recorded as the sequence of
    events published so far. */
module Events {
  import opened Ids
  import opened Swipes

  datatype DomainEvent =
    | UserSwiped(swiperId: UserId, targetId: UserId, direction: SwipeDirection, occurredAt: int)
    | MatchCreated(matchId: MatchId, userA: UserId, userB: UserId, occurredAt: int)

  /** How many `MatchCreatedEvent`s for `id` a sequence holds. */
  function CountMatchCreated(events: seq<DomainEvent>, id: MatchId): nat
    decreases |events|
  {
    if |events| == 0 then 0
    else
      var last := events[|events| - 1];
      CountMatchCreated(events[..|events| - 1], id) + (if last.MatchCreated? && last.matchId == id then 1 else 0)
  }

  /** Publishing one more event adds one to its own count and leaves every
      other id's count as it was. */
  lemma CountAfterPublish(events: seq<DomainEvent>, e: DomainEvent, id: MatchId)
    ensures CountMatchCreated(events + [e], id)
      == CountMatchCreated(events, id) + (if e.MatchCreated? && e.matchId == id then 1 else 0)
  {
    assert (events + [e])[..|events|] == events;
  }

  /** The publisher: every call appends its event. */
  class EventPublisher {
    ghost var published: seq<DomainEvent>

    constructor ()
      ensures published == []
    {
      published := [];
    }

    method Publish(e: DomainEvent)
      modifies this
      ensures published == old(published) + [e]
    {
      published := published + [e];
    }
  }
}
