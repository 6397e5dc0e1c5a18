/**
  Identifiers: `UserId` and `SwipeId` wrap a UUID, `MatchId` a string, and
  `MatchId.canonical` names an unordered pair of users.
*/
module Ids {
  import opened Wrappers
  import opened JavaText

  /** A character of `UUID.toString()`: a lower-case hex digit or a hyphen. */
  predicate IsUuidChar(c: char) {
    ('0' <= c <= '9') || ('a' <= c <= 'f') || c == '-'
  }

  /** The text of `UUID.toString()`: 36 characters, hex digits and hyphens. */
  type UuidText = s: string | |s| == 36 && forall i :: 0 <= i < |s| ==> IsUuidChar(s[i])
    witness "00000000-0000-0000-0000-000000000000"

  /** A user identifier; two ids are equal exactly when their texts are. */
  datatype UserId = UserId(uuid: UuidText)

  datatype SwipeId = SwipeId(uuid: UuidText)

  /** The record `MatchId(String value)`. */
  datatype MatchId = MatchId(value: string)

  /** `new MatchId(value)`: rejects only null; any string, canonical or not,
      is accepted. */
  function NewMatchId(value: Option<string>): (r: Result<MatchId>)
    ensures r.Failure? <==> value.None?
    ensures r.Success? ==> r.value.value == value.value
  {
    match value
    case None => Failure(NullPointer)
    case Some(v) => Success(MatchId(v))
  }

  /** `MatchId.canonical(a, b)`: the lexicographically smaller UUID text,
      an underscore, then the other one. */
  function Canonical(a: UserId, b: UserId): (id: MatchId)
    ensures Less(a.uuid, b.uuid) ==> id.value == a.uuid + "_" + b.uuid
    ensures Less(b.uuid, a.uuid) ==> id.value == b.uuid + "_" + a.uuid
  {
    LessAsymmetric(a.uuid, b.uuid);
    if Less(a.uuid, b.uuid) then MatchId(a.uuid + "_" + b.uuid)
    else MatchId(b.uuid + "_" + a.uuid)
  }

  /** The canonical id does not depend on the order of its arguments. */
  lemma CanonicalCommutes(a: UserId, b: UserId)
    ensures Canonical(a, b) == Canonical(b, a)
  {
    LessAsymmetric(a.uuid, b.uuid);
    LessTotal(a.uuid, b.uuid);
  }

  /** The value is the smaller text, "_", the larger text: its first 36
      characters are one participant, its last 36 the other, and the first
      is never greater than the second. */
  lemma CanonicalIsOrderedPair(a: UserId, b: UserId)
    ensures var v := Canonical(a, b).value;
      |v| == 73 && v[36] == '_'
      && {v[..36], v[37..]} == {a.uuid, b.uuid}
      && !Less(v[37..], v[..36])
  {
    var v := Canonical(a, b).value;
    LessAsymmetric(a.uuid, b.uuid);
    LessIrreflexive(a.uuid);
    if Less(a.uuid, b.uuid) {
      assert v[..36] == a.uuid && v[37..] == b.uuid;
    } else {
      assert v[..36] == b.uuid && v[37..] == a.uuid;
    }
  }

  /** For equal ids the value is "s_s": canonical does not reject them. */
  lemma CanonicalOfSame(a: UserId)
    ensures Canonical(a, a).value == a.uuid + "_" + a.uuid
  {
    LessIrreflexive(a.uuid);
  }

  /** Two pairs have the same canonical id only if they are the same
      unordered pair. */
  lemma CanonicalInjective(a: UserId, b: UserId, c: UserId, d: UserId)
    requires Canonical(a, b) == Canonical(c, d)
    ensures {a, b} == {c, d}
  {
    CanonicalIsOrderedPair(a, b);
    CanonicalIsOrderedPair(c, d);
    var v := Canonical(a, b).value;
    assert {a.uuid, b.uuid} == {c.uuid, d.uuid};
    assert a.uuid in {c.uuid, d.uuid} && b.uuid in {c.uuid, d.uuid};
    assert c.uuid in {a.uuid, b.uuid} && d.uuid in {a.uuid, b.uuid};
  }
}
