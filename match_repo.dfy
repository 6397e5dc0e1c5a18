/** The in-memory match store: at most one match per match id. */
module MatchRepository {
  import opened Wrappers
  import opened Ids
  import opened Matches

  class InMemoryMatchRepository {
    var storage: map<MatchId, Match>

    /** Each match is stored under its own id. */
    ghost predicate Valid()
      reads this
    {
      forall id | id in storage :: storage[id].id == id
    }

    constructor ()
      ensures storage == map[] && Valid()
    {
      storage := map[];
    }

    /** First write wins: an id already stored keeps its match, which is
        returned; otherwise the argument is stored and returned. */
    method SaveIfNotExists(m: Match) returns (r: Match)
      requires Valid()
      modifies this
      ensures Valid()
      ensures if m.id in old(storage) then r == old(storage)[m.id] && storage == old(storage)
              else r == m && storage == old(storage)[m.id := m]
    {
      if m.id in storage {
        r := storage[m.id];
      } else {
        storage := storage[m.id := m];
        r := m;
      }
    }

    /** The stored match with this id, or empty. */
    function FindById(id: MatchId): (r: Option<Match>)
      requires Valid()
      reads this
      ensures r.Some? <==> exists m :: m in storage.Values && m.id == id
      ensures r.Some? ==> r.value in storage.Values && r.value.id == id
    {
      if id in storage then
        assert storage[id] in storage.Values;
        Some(storage[id])
      else
        assert forall m :: m in storage.Values ==> m.id != id by {
          forall m | m in storage.Values ensures m.id != id {
            var k :| k in storage && storage[k] == m;
          }
        }
        None
    }

    /** Every stored match involving the user, whichever side the user is on,
        each once, in no particular order. */
    method FindByUser(user: UserId) returns (r: seq<Match>)
      ensures forall m :: m in r <==> m in storage.Values && Involves(m, user)
      ensures forall i, j :: 0 <= i < j < |r| ==> r[i] != r[j]
    {
      var rest := storage.Values;
      r := [];
      while rest != {}
        invariant rest <= storage.Values
        invariant forall m :: m in r <==> m in storage.Values - rest && Involves(m, user)
        invariant forall i, j :: 0 <= i < j < |r| ==> r[i] != r[j]
        decreases |rest|
      {
        var m :| m in rest;
        rest := rest - {m};
        if Involves(m, user) {
          r := r + [m];
        }
      }
    }
  }
}
