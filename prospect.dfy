/**
  The `Prospect` view and the ordering `findProspects` puts prospects in:
  by score, highest first, keeping the input order among equal scores (the
  stream sort is stable).
*/
module ProspectOrder {
  import opened Ids
  import opened Geo
  import opened Profiles

  /** A candidate as shown to the requester. */
  datatype Prospect = Prospect(
    userId: UserId,
    displayName: Option<string>,
    age: int,
    bio: Option<string>,
    photoUrls: seq<string>,
    distance: Distance,
    sharedInterests: set<Interest>,
    score: real)

  import opened Wrappers

  predicate SortedByScoreDesc(ps: seq<Prospect>) {
    forall i, j :: 0 <= i < j < |ps| ==> ps[i].score >= ps[j].score
  }

  /** Places `p` after every element scoring at least as much, so an element
      inserted later stays behind earlier ones of equal score. */
  function InsertByScore(p: Prospect, ps: seq<Prospect>): (r: seq<Prospect>)
    ensures |r| == |ps| + 1
    decreases |ps|
  {
    if |ps| == 0 then [p]
    else if ps[0].score >= p.score then [ps[0]] + InsertByScore(p, ps[1..])
    else [p] + ps
  }

  lemma {:induction false} InsertPermutes(p: Prospect, ps: seq<Prospect>)
    ensures multiset(InsertByScore(p, ps)) == multiset(ps) + multiset{p}
    decreases |ps|
  {
    if |ps| > 0 {
      assert ps == [ps[0]] + ps[1..];
      if ps[0].score >= p.score {
        InsertPermutes(p, ps[1..]);
      }
    }
  }

  /** The stable sort by descending score: insertion of each element, left
      to right. */
  function SortByScoreDesc(ps: seq<Prospect>): (r: seq<Prospect>)
    ensures |r| == |ps|
    decreases |ps|
  {
    if |ps| == 0 then [] else InsertByScore(ps[|ps| - 1], SortByScoreDesc(ps[..|ps| - 1]))
  }

  /** The sort is a permutation of its input. */
  lemma {:induction false} SortPermutes(ps: seq<Prospect>)
    ensures multiset(SortByScoreDesc(ps)) == multiset(ps)
    decreases |ps|
  {
    if |ps| > 0 {
      var init := ps[..|ps| - 1];
      assert ps == init + [ps[|ps| - 1]];
      SortPermutes(init);
      InsertPermutes(ps[|ps| - 1], SortByScoreDesc(init));
    }
  }

  /** `[p]` when `p` scores exactly `v`, otherwise nothing. */
  function Keep(p: Prospect, v: real): seq<Prospect> {
    if p.score == v then [p] else []
  }

  /** The elements scoring exactly `v`, in order. */
  function WithScore(ps: seq<Prospect>, v: real): (r: seq<Prospect>)
    decreases |ps|
  {
    if |ps| == 0 then [] else Keep(ps[0], v) + WithScore(ps[1..], v)
  }

  lemma {:induction false} WithScoreConcat(a: seq<Prospect>, b: seq<Prospect>, v: real)
    ensures WithScore(a + b, v) == WithScore(a, v) + WithScore(b, v)
    decreases |a|
  {
    if |a| == 0 {
      assert a + b == b;
    } else {
      WithScoreConcat(a[1..], b, v);
      assert (a + b)[0] == a[0] && (a + b)[1..] == a[1..] + b;
      assert WithScore(a + b, v) == Keep(a[0], v) + (WithScore(a[1..], v) + WithScore(b, v));
    }
  }

  lemma {:induction false} WithScoreNone(ps: seq<Prospect>, v: real)
    requires forall i :: 0 <= i < |ps| ==> ps[i].score < v
    ensures WithScore(ps, v) == []
    decreases |ps|
  {
    if |ps| > 0 {
      WithScoreNone(ps[1..], v);
    }
  }

  lemma {:induction false} InsertKeepsSorted(p: Prospect, ps: seq<Prospect>)
    requires SortedByScoreDesc(ps)
    ensures SortedByScoreDesc(InsertByScore(p, ps))
    decreases |ps|
  {
    if |ps| > 0 && ps[0].score >= p.score {
      var t := InsertByScore(p, ps[1..]);
      InsertKeepsSorted(p, ps[1..]);
      assert ps[0].score >= t[0].score by {
        if |ps| > 1 {
          assert t[0] == ps[1] || t[0] == p;
        }
      }
      assert InsertByScore(p, ps) == [ps[0]] + t;
    }
  }

  lemma {:induction false} InsertKeepsTies(p: Prospect, ps: seq<Prospect>, v: real)
    requires SortedByScoreDesc(ps)
    ensures WithScore(InsertByScore(p, ps), v) == WithScore(ps, v) + Keep(p, v)
    decreases |ps|
  {
    var r := InsertByScore(p, ps);
    if |ps| == 0 {
      assert r == [p] && r[1..] == [];
    } else if ps[0].score >= p.score {
      var t := InsertByScore(p, ps[1..]);
      InsertKeepsTies(p, ps[1..], v);
      assert r == [ps[0]] + t;
      assert r[0] == ps[0] && r[1..] == t;
      calc {
        WithScore(r, v);
        Keep(ps[0], v) + WithScore(t, v);
        Keep(ps[0], v) + (WithScore(ps[1..], v) + Keep(p, v));
        (Keep(ps[0], v) + WithScore(ps[1..], v)) + Keep(p, v);
      }
    } else {
      assert r == [p] + ps;
      assert r[0] == p && r[1..] == ps;
      if p.score == v {
        assert forall k :: 0 <= k < |ps| ==> ps[k].score <= ps[0].score;
        WithScoreNone(ps, v);
      }
    }
  }

  /** The result is ordered by descending score. */
  lemma {:induction false} SortIsSorted(ps: seq<Prospect>)
    ensures SortedByScoreDesc(SortByScoreDesc(ps))
    decreases |ps|
  {
    if |ps| > 0 {
      SortIsSorted(ps[..|ps| - 1]);
      InsertKeepsSorted(ps[|ps| - 1], SortByScoreDesc(ps[..|ps| - 1]));
    }
  }

  /** Stability: the prospects of any one score keep their input order. */
  lemma {:induction false} SortIsStable(ps: seq<Prospect>, v: real)
    ensures WithScore(SortByScoreDesc(ps), v) == WithScore(ps, v)
    decreases |ps|
  {
    if |ps| > 0 {
      var init := ps[..|ps| - 1];
      var last := ps[|ps| - 1];
      SortIsStable(init, v);
      SortIsSorted(init);
      InsertKeepsTies(last, SortByScoreDesc(init), v);
      assert ps == init + [last];
      WithScoreConcat(init, [last], v);
      assert WithScore([last], v) == Keep(last, v) + WithScore([], v);
    }
  }

  /** Every element of the sorted sequence comes from the input. */
  lemma SortKeepsElements(ps: seq<Prospect>, x: Prospect)
    requires x in SortByScoreDesc(ps)
    ensures x in ps
  {
    SortPermutes(ps);
    assert x in multiset(SortByScoreDesc(ps));
  }

  /** A prefix of a sorted sequence is sorted. */
  lemma TakeKeepsSorted(ps: seq<Prospect>, n: nat)
    requires SortedByScoreDesc(ps)
    ensures SortedByScoreDesc(Take(ps, n))
  {
  }

  /** `limit(n)`: the first `n` elements, or all of them. */
  function Take<T>(s: seq<T>, n: nat): (r: seq<T>)
    ensures |r| == if |s| <= n then |s| else n
    ensures r == s[..|r|]
    ensures |s| <= n ==> r == s
  {
    if |s| <= n then s else s[..n]
  }
}
