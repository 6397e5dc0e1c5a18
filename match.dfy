/** A confirmed mutual match between two users. */
module Matches {
  import opened Wrappers
  import opened JavaText
  import opened Ids

  /** The match aggregate. `create` stores the smaller id text as `userA`;
      `reconstitute` stores whatever it is given. */
  datatype Match = Match(id: MatchId, userA: UserId, userB: UserId, createdAt: int, newlyCreated: bool)

  /** `Match.create(a, b)` with the clock reading `now`: rejects a match of
      a user with themselves; otherwise orders the pair by id text, so the
      result does not depend on the argument order. */
  function Create(a: UserId, b: UserId, now: int): (r: Result<Match>)
    ensures r.Failure? <==> a == b
    ensures r.Failure? ==> r.error == IllegalArgument("Cannot match user with themselves")
    ensures r.Success? ==>
      && {r.value.userA, r.value.userB} == {a, b}
      && Less(r.value.userA.uuid, r.value.userB.uuid)
      && r.value.id == Canonical(a, b)
      && r.value.createdAt == now && r.value.newlyCreated
  {
    if a == b then Failure(IllegalArgument("Cannot match user with themselves"))
    else
      LessTotal(a.uuid, b.uuid);
      CanonicalCommutes(a, b);
      var first := if Less(a.uuid, b.uuid) then a else b;
      var second := if Less(a.uuid, b.uuid) then b else a;
      Success(Match(Canonical(first, second), first, second, now, true))
  }

  /** Creating the match for (a, b) and for (b, a) gives the same match. */
  lemma {:induction false} CreateIsSymmetric(a: UserId, b: UserId, now: int)
    ensures Create(a, b, now) == Create(b, a, now)
  {
    if a != b {
      LessTotal(a.uuid, b.uuid);
      LessAsymmetric(a.uuid, b.uuid);
      CanonicalCommutes(a, b);
    }
  }

  /** `Match.reconstitute`: no validation, and never newly created. */
  function Reconstitute(id: MatchId, userA: UserId, userB: UserId, createdAt: int): (m: Match)
    ensures m.id == id && m.userA == userA && m.userB == userB && m.createdAt == createdAt
    ensures !m.newlyCreated
  {
    Match(id, userA, userB, createdAt, false)
  }

  function Involves(m: Match, u: UserId): (b: bool)
    ensures b <==> u in {m.userA, m.userB}
  {
    m.userA == u || m.userB == u
  }

  /** The participant other than `u`; `userA` is tried first. A user not in
      the match is an error. */
  function OtherUser(m: Match, u: UserId): (r: Result<UserId>)
    ensures r.Success? <==> Involves(m, u)
    ensures r.Failure? ==> r.error == IllegalArgument("User " + u.uuid + " is not part of this match")
    ensures r.Success? ==> Involves(m, r.value) && (m.userA != m.userB ==> r.value != u)
  {
    if m.userA == u then Success(m.userB)
    else if m.userB == u then Success(m.userA)
    else Failure(IllegalArgument("User " + u.uuid + " is not part of this match"))
  }

  /** For a match between two different users, `otherUser` is an
      involution on the participants. */
  lemma OtherUserInvolution(m: Match, u: UserId)
    requires m.userA != m.userB && Involves(m, u)
    ensures OtherUser(m, OtherUser(m, u).value) == Success(u)
  {
  }

  /** Every match `create` returns involves exactly its two arguments, and
      each is the other's counterpart. */
  lemma CreatedMatchPairsArguments(a: UserId, b: UserId, now: int)
    requires a != b
    ensures var m := Create(a, b, now).value;
      Involves(m, a) && Involves(m, b)
      && OtherUser(m, a) == Success(b) && OtherUser(m, b) == Success(a)
  {
  }
}
