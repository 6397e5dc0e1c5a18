/**
  The mapping between a `User` and its `users` row: lists and sets are
  stored as comma-joined strings and split back, and the profile is rebuilt
  from nullable columns.
*/
module Mapper {
  import opened Wrappers
  import opened JavaText
  import opened Ids
  import opened UserStates
  import opened Geo
  import opened Profiles
  import opened Users

  /** The columns of a `users` row; a null column is `None`. */
  datatype UserRow = UserRow(
    id: Option<UuidText>,
    username: Option<string>,
    passwordHash: Option<string>,
    state: Option<UserState>,
    displayName: Option<string>,
    bio: Option<string>,
    birthDate: Option<Date>,
    latitude: Option<real>,
    longitude: Option<real>,
    photoUrls: Option<string>,
    interests: Option<string>,
    interestedIn: Option<string>,
    ageRangeMin: Option<int>,
    ageRangeMax: Option<int>,
    maxDistanceKm: Option<real>,
    createdAt: Option<int>,
    updatedAt: Option<int>)

  const EmptyRow: UserRow :=
    UserRow(None, None, None, None, None, None, None, None, None, None, None, None, None, None, None, None, None)

  /** The persistence entity: one settable field per column. */
  class UserEntity {
    var id: Option<UuidText>
    var username: Option<string>
    var passwordHash: Option<string>
    var state: Option<UserState>
    var displayName: Option<string>
    var bio: Option<string>
    var birthDate: Option<Date>
    var latitude: Option<real>
    var longitude: Option<real>
    var photoUrls: Option<string>
    var interests: Option<string>
    var interestedIn: Option<string>
    var ageRangeMin: Option<int>
    var ageRangeMax: Option<int>
    var maxDistanceKm: Option<real>
    var createdAt: Option<int>
    var updatedAt: Option<int>

    /** `new UserEntity()`: every column null. */
    constructor ()
      ensures Row() == EmptyRow
    {
      id, username, passwordHash, state := None, None, None, None;
      displayName, bio, birthDate := None, None, None;
      latitude, longitude := None, None;
      photoUrls, interests, interestedIn := None, None, None;
      ageRangeMin, ageRangeMax, maxDistanceKm := None, None, None;
      createdAt, updatedAt := None, None;
    }

    function Row(): UserRow
      reads this
    {
      UserRow(id, username, passwordHash, state, displayName, bio, birthDate, latitude, longitude,
              photoUrls, interests, interestedIn, ageRangeMin, ageRangeMax, maxDistanceKm, createdAt, updatedAt)
    }

    // The setters: each one writes its own column and no other.

    method SetId(v: Option<UuidText>)
      modifies this
      ensures Row() == old(Row()).(id := v)
    {
      id := v;
    }

    method SetUsername(v: Option<string>)
      modifies this
      ensures Row() == old(Row()).(username := v)
    {
      username := v;
    }

    method SetPasswordHash(v: Option<string>)
      modifies this
      ensures Row() == old(Row()).(passwordHash := v)
    {
      passwordHash := v;
    }

    method SetState(v: Option<UserState>)
      modifies this
      ensures Row() == old(Row()).(state := v)
    {
      state := v;
    }

    method SetDisplayName(v: Option<string>)
      modifies this
      ensures Row() == old(Row()).(displayName := v)
    {
      displayName := v;
    }

    method SetBio(v: Option<string>)
      modifies this
      ensures Row() == old(Row()).(bio := v)
    {
      bio := v;
    }

    method SetBirthDate(v: Option<Date>)
      modifies this
      ensures Row() == old(Row()).(birthDate := v)
    {
      birthDate := v;
    }

    method SetLatitude(v: Option<real>)
      modifies this
      ensures Row() == old(Row()).(latitude := v)
    {
      latitude := v;
    }

    method SetLongitude(v: Option<real>)
      modifies this
      ensures Row() == old(Row()).(longitude := v)
    {
      longitude := v;
    }

    method SetPhotoUrls(v: Option<string>)
      modifies this
      ensures Row() == old(Row()).(photoUrls := v)
    {
      photoUrls := v;
    }

    method SetInterests(v: Option<string>)
      modifies this
      ensures Row() == old(Row()).(interests := v)
    {
      interests := v;
    }

    method SetInterestedIn(v: Option<string>)
      modifies this
      ensures Row() == old(Row()).(interestedIn := v)
    {
      interestedIn := v;
    }

    method SetAgeRangeMin(v: Option<int>)
      modifies this
      ensures Row() == old(Row()).(ageRangeMin := v)
    {
      ageRangeMin := v;
    }

    method SetAgeRangeMax(v: Option<int>)
      modifies this
      ensures Row() == old(Row()).(ageRangeMax := v)
    {
      ageRangeMax := v;
    }

    method SetMaxDistanceKm(v: Option<real>)
      modifies this
      ensures Row() == old(Row()).(maxDistanceKm := v)
    {
      maxDistanceKm := v;
    }

    method SetCreatedAt(v: Option<int>)
      modifies this
      ensures Row() == old(Row()).(createdAt := v)
    {
      createdAt := v;
    }

    method SetUpdatedAt(v: Option<int>)
      modifies this
      ensures Row() == old(Row()).(updatedAt := v)
    {
      updatedAt := v;
    }
  }

  // -------------------------------------------------------------- encoding

  /** `order` lists every element of `s` exactly once. */
  ghost predicate IsEnumeration<T(!new)>(order: seq<T>, s: set<T>) {
    && (forall x :: x in order <==> x in s)
    && (forall i, j :: 0 <= i < j < |order| ==> order[i] != order[j])
  }

  /** An enumeration has as many elements as the set. */
  lemma {:induction false} EnumerationSize<T(!new)>(order: seq<T>, s: set<T>)
    requires IsEnumeration(order, s)
    ensures |order| == |s|
    decreases |order|
  {
    if |order| > 0 {
      var x := order[|order| - 1];
      var init := order[..|order| - 1];
      assert forall y :: y in init <==> y in s - {x} by {
        forall y ensures y in init <==> y in s - {x} {
          if y in init {
            var k :| 0 <= k < |init| && init[k] == y;
            assert order[k] == y;
          }
          if y in s - {x} {
            assert y in order;
            var k :| 0 <= k < |order| && order[k] == y;
            assert k != |order| - 1;
            assert init[k] == y;
          }
        }
      }
      EnumerationSize(init, s - {x});
    }
  }

  /** The stream over a set: its elements one by one, in whatever order the
      set yields them. */
  method Enumerate<T(!new)>(s: set<T>) returns (order: seq<T>)
    ensures IsEnumeration(order, s)
  {
    order := [];
    var rest := s;
    while rest != {}
      invariant rest <= s
      invariant forall x :: x in order <==> x in s - rest
      invariant forall i, j :: 0 <= i < j < |order| ==> order[i] != order[j]
      decreases |rest|
    {
      var x :| x in rest;
      rest := rest - {x};
      order := order + [x];
    }
  }

  /** `Interest::name` over a sequence. */
  function InterestNames(order: seq<Interest>): (names: seq<string>)
    ensures |names| == |order|
    ensures forall k :: 0 <= k < |order| ==> names[k] == InterestName(order[k])
    decreases |order|
  {
    if |order| == 0 then [] else [InterestName(order[0])] + InterestNames(order[1..])
  }

  /** The columns `toEntity` always writes: identity, username, state and
      timestamps verbatim, and the password hash when one is given. */
  function IdentityRow(id: UserId, username: string, state: UserState, createdAt: int, updatedAt: int,
                       passwordHash: Option<string>): (row: UserRow)
    ensures row.id == Some(id.uuid) && row.username == Some(username) && row.state == Some(state)
    ensures row.createdAt == Some(createdAt) && row.updatedAt == Some(updatedAt)
    ensures row.passwordHash == passwordHash
    ensures row.(id := None, username := None, state := None, createdAt := None, updatedAt := None,
                 passwordHash := None) == EmptyRow
  {
    EmptyRow.(id := Some(id.uuid), username := Some(username), state := Some(state),
              createdAt := Some(createdAt), updatedAt := Some(updatedAt), passwordHash := passwordHash)
  }

  /** The preference columns: the accepted genders comma-joined in
      `genderOrder`, and the age bounds and the maximum distance each only
      when set. */
  function WithPreferences(row: UserRow, prefs: Preferences, genderOrder: seq<string>): (r: UserRow)
    ensures r.interestedIn == Some(Join(genderOrder, ','))
    ensures r.ageRangeMin == (if prefs.ageRange.Some? then Some(prefs.ageRange.value.min) else row.ageRangeMin)
    ensures r.ageRangeMax == (if prefs.ageRange.Some? then Some(prefs.ageRange.value.max) else row.ageRangeMax)
    ensures r.maxDistanceKm == (if prefs.maxDistance.Some? then Some(prefs.maxDistance.value.kilometers) else row.maxDistanceKm)
    ensures r.(interestedIn := row.interestedIn, ageRangeMin := row.ageRangeMin, ageRangeMax := row.ageRangeMax,
               maxDistanceKm := row.maxDistanceKm) == row
  {
    var withGenders := row.(interestedIn := Some(Join(genderOrder, ',')));
    var withRange :=
      if prefs.ageRange.Some? then withGenders.(ageRangeMin := Some(prefs.ageRange.value.min), ageRangeMax := Some(prefs.ageRange.value.max))
      else withGenders;
    if prefs.maxDistance.Some? then withRange.(maxDistanceKm := Some(prefs.maxDistance.value.kilometers))
    else withRange
  }

  /** The profile columns: name, bio and birth date verbatim (null stays
      null), the coordinates only for a location, the photos and the
      interest names comma-joined, and the preference columns only for
      preferences. */
  function WithProfile(row: UserRow, p: Profile, interestOrder: seq<Interest>, genderOrder: seq<string>): (r: UserRow)
    ensures r.displayName == p.displayName && r.bio == p.bio && r.birthDate == p.birthDate
    ensures p.location.Some? ==> r.latitude == Some(p.location.value.lat) && r.longitude == Some(p.location.value.lon)
    ensures p.location.None? ==> r.latitude == row.latitude && r.longitude == row.longitude
    ensures r.photoUrls == Some(Join(p.photoUrls, ','))
    ensures r.interests == Some(Join(InterestNames(interestOrder), ','))
    ensures p.preferences.None? ==>
      && r.interestedIn == row.interestedIn && r.ageRangeMin == row.ageRangeMin
      && r.ageRangeMax == row.ageRangeMax && r.maxDistanceKm == row.maxDistanceKm
    ensures r.id == row.id && r.username == row.username && r.passwordHash == row.passwordHash && r.state == row.state
      && r.createdAt == row.createdAt && r.updatedAt == row.updatedAt
  {
    var listed := WithListed(row, p, interestOrder);
    if p.preferences.Some? then WithPreferences(listed, p.preferences.value, genderOrder) else listed
  }

  /** The profile columns other than the preferences. */
  function WithListed(row: UserRow, p: Profile, interestOrder: seq<Interest>): (r: UserRow)
    ensures r.interestedIn == row.interestedIn && r.ageRangeMin == row.ageRangeMin
      && r.ageRangeMax == row.ageRangeMax && r.maxDistanceKm == row.maxDistanceKm
  {
    var named := row.(displayName := p.displayName, bio := p.bio, birthDate := p.birthDate);
    var located :=
      if p.location.Some? then named.(latitude := Some(p.location.value.lat), longitude := Some(p.location.value.lon))
      else named;
    located.(photoUrls := Some(Join(p.photoUrls, ',')), interests := Some(Join(InterestNames(interestOrder), ',')))
  }

  /** The row `toEntity` writes; a user without a profile leaves every
      profile column null. */
  function RowOf(id: UserId, username: string, state: UserState, createdAt: int, updatedAt: int,
                 profile: Option<Profile>, passwordHash: Option<string>,
                 interestOrder: seq<Interest>, genderOrder: seq<string>): UserRow
  {
    var base := IdentityRow(id, username, state, createdAt, updatedAt, passwordHash);
    if profile.Some? then WithProfile(base, profile.value, interestOrder, genderOrder) else base
  }

  /** `toEntity(user, passwordHash)`: a fresh entity filled column by
      column; the interests and genders are joined in the order their sets
      yield them, which `interestOrder` and `genderOrder` report. */
  method ToEntity(user: User, passwordHash: Option<string>)
    returns (e: UserEntity, ghost interestOrder: seq<Interest>, ghost genderOrder: seq<string>)
    ensures fresh(e)
    ensures user.profile.Some? ==> IsEnumeration(interestOrder, user.profile.value.interests)
    ensures user.profile.Some? && user.profile.value.preferences.Some? ==>
      IsEnumeration(genderOrder, user.profile.value.preferences.value.interestedIn)
    ensures e.Row() == RowOf(user.id, user.username, user.state, user.createdAt, user.updatedAt,
                             user.profile, passwordHash, interestOrder, genderOrder)
  {
    interestOrder, genderOrder := [], [];
    e := new UserEntity();
    e.SetId(Some(user.id.uuid));
    e.SetUsername(Some(user.username));
    e.SetState(Some(user.state));
    e.SetCreatedAt(Some(user.createdAt));
    e.SetUpdatedAt(Some(user.updatedAt));
    if passwordHash.Some? {
      e.SetPasswordHash(passwordHash);
    }
    assert e.Row() == IdentityRow(user.id, user.username, user.state, user.createdAt, user.updatedAt, passwordHash);
    if user.profile.Some? {
      interestOrder, genderOrder := WriteProfile(e, user.profile.value);
    }
  }

  /** The profile half of `toEntity`. */
  method WriteProfile(e: UserEntity, p: Profile) returns (ghost interestOrder: seq<Interest>, ghost genderOrder: seq<string>)
    modifies e
    ensures IsEnumeration(interestOrder, p.interests)
    ensures p.preferences.Some? ==> IsEnumeration(genderOrder, p.preferences.value.interestedIn)
    ensures e.Row() == WithProfile(old(e.Row()), p, interestOrder, genderOrder)
  {
    genderOrder := [];
    var order := Enumerate(p.interests);
    interestOrder := order;
    WriteListed(e, p, order);
    if p.preferences.Some? {
      genderOrder := WritePreferences(e, p.preferences.value);
    }
  }

  /** The profile columns other than the preferences, in the order `toEntity`
      sets them. */
  method WriteListed(e: UserEntity, p: Profile, order: seq<Interest>)
    modifies e
    ensures e.Row() == WithListed(old(e.Row()), p, order)
  {
    e.SetDisplayName(p.displayName);
    e.SetBio(p.bio);
    e.SetBirthDate(p.birthDate);
    if p.location.Some? {
      e.SetLatitude(Some(p.location.value.lat));
      e.SetLongitude(Some(p.location.value.lon));
    }
    e.SetPhotoUrls(Some(Join(p.photoUrls, ',')));
    e.SetInterests(Some(Join(InterestNames(order), ',')));
  }

  /** The preferences part of `toEntity`. */
  method WritePreferences(e: UserEntity, prefs: Preferences) returns (ghost genderOrder: seq<string>)
    modifies e
    ensures IsEnumeration(genderOrder, prefs.interestedIn)
    ensures e.Row() == WithPreferences(old(e.Row()), prefs, genderOrder)
  {
    var genders := Enumerate(prefs.interestedIn);
    genderOrder := genders;
    e.SetInterestedIn(Some(Join(genders, ',')));
    if prefs.ageRange.Some? {
      e.SetAgeRangeMin(Some(prefs.ageRange.value.min));
      e.SetAgeRangeMax(Some(prefs.ageRange.value.max));
    }
    if prefs.maxDistance.Some? {
      e.SetMaxDistanceKm(Some(prefs.maxDistance.value.kilometers));
    }
  }
  // -------------------------------------------------------------- decoding

  /** A location only when both coordinates are present; it is validated. */
  function DecodeLocation(lat: Option<real>, lon: Option<real>): (r: Result<Option<Location>>)
    ensures r.Success? ==> (r.value.Some? <==> lat.Some? && lon.Some?)
    ensures r.Success? && r.value.Some? ==> r.value.value.lat == lat.value && r.value.value.lon == lon.value
    ensures r.Failure? <==> lat.Some? && lon.Some? && !InRange(lat.value, lon.value)
  {
    if lat.Some? && lon.Some? then
      var l := NewLocation(lat.value, lon.value);
      if l.Failure? then Failure(l.error) else Success(Some(l.value))
    else Success(None)
  }

  /** The photo list: a null or blank column is the empty list, anything
      else is split on commas (so a column of commas only is empty too). */
  function DecodePhotos(text: Option<string>): (photos: seq<string>)
    ensures text.None? || IsBlank(text.value) ==> photos == []
    ensures text.Some? && |text.value| > 0 && ',' !in text.value && !IsBlank(text.value) ==> photos == [text.value]
  {
    if text.Some? && !IsBlank(text.value) then
      if ',' !in text.value then PiecesWithoutSeparator(text.value, ','); Split(text.value, ',')
      else Split(text.value, ',')
    else []
  }

  /** `map(String::trim)` over the pieces. */
  function TrimAll(pieces: seq<string>): (r: seq<string>)
    ensures |r| == |pieces|
    ensures forall k :: 0 <= k < |r| ==> r[k] == Trim(pieces[k])
    decreases |pieces|
  {
    if |pieces| == 0 then [] else [Trim(pieces[0])] + TrimAll(pieces[1..])
  }

  /** `filter(s -> !s.isEmpty())`. */
  function NonEmpty(pieces: seq<string>): (r: seq<string>)
    ensures forall s :: s in r <==> s in pieces && s != ""
    decreases |pieces|
  {
    if |pieces| == 0 then []
    else (if pieces[0] == "" then [] else [pieces[0]]) + NonEmpty(pieces[1..])
  }

  /** `map(Interest::valueOf)` collected into a set; the first unknown
      name, in order, throws. */
  function ValuesOf(names: seq<string>): (r: Result<set<Interest>>)
    ensures r.Failure? ==> r.error.IllegalArgument?
    decreases |names|
  {
    if |names| == 0 then Success({})
    else
      var head := InterestValueOf(names[0]);
      var rest := ValuesOf(names[1..]);
      if head.Failure? then Failure(head.error)
      else if rest.Failure? then Failure(rest.error)
      else Success({head.value} + rest.value)
  }

  /** The lookup succeeds exactly when every name is a constant's. */
  lemma {:induction false} ValuesOfSucceeds(names: seq<string>)
    ensures ValuesOf(names).Success? <==> forall k :: 0 <= k < |names| ==> InterestValueOf(names[k]).Success?
    decreases |names|
  {
    if |names| > 0 {
      ValuesOfSucceeds(names[1..]);
      assert forall k :: 0 < k < |names| ==> names[k] == names[1..][k - 1];
    }
  }

  /** A successful lookup holds an interest exactly when its name is listed. */
  lemma {:induction false} ValuesOfMember(names: seq<string>, i: Interest)
    requires ValuesOf(names).Success?
    ensures i in ValuesOf(names).value <==> InterestName(i) in names
    decreases |names|
  {
    if |names| > 0 {
      ValuesOfMember(names[1..], i);
      var head := InterestValueOf(names[0]).value;
      InterestNameShape(i);
      assert ValuesOf(names).value == {head} + ValuesOf(names[1..]).value;
      assert i == head <==> InterestName(i) == names[0];
      assert names == [names[0]] + names[1..];
    }
  }

  /** A successful lookup collects exactly the named constants. */
  lemma ValuesOfMembers(names: seq<string>)
    requires ValuesOf(names).Success?
    ensures forall i :: i in ValuesOf(names).value <==> InterestName(i) in names
  {
    forall i ensures i in ValuesOf(names).value <==> InterestName(i) in names {
      ValuesOfMember(names, i);
    }
  }

  /** The interest set: a null or blank column is empty; otherwise the
      pieces are trimmed, empty ones dropped, and each looked up by name. */
  function DecodeInterests(text: Option<string>): (r: Result<set<Interest>>)
    ensures text.None? || IsBlank(text.value) ==> r == Success({})
  {
    if text.Some? && !IsBlank(text.value) then ValuesOf(NonEmpty(TrimAll(Split(text.value, ','))))
    else Success({})
  }

  /** The accepted genders: a null or blank column is empty; otherwise the
      untrimmed pieces. */
  function DecodeGenders(text: Option<string>): (r: set<string>)
    ensures text.None? || IsBlank(text.value) ==> r == {}
    ensures text.Some? && !IsBlank(text.value) ==> forall g :: g in r <==> g in Split(text.value, ',')
  {
    if text.Some? && !IsBlank(text.value) then set g | g in Split(text.value, ',') else {}
  }

  /** An age range only when both bounds are present; it is validated. */
  function DecodeAgeRange(min: Option<int>, max: Option<int>): (r: Result<Option<AgeRange>>)
    ensures r.Success? ==> (r.value.Some? <==> min.Some? && max.Some?)
    ensures r.Success? && r.value.Some? ==> r.value.value.min == min.value && r.value.value.max == max.value
    ensures r.Failure? <==> min.Some? && max.Some? && NewAgeRange(min.value, max.value).Failure?
  {
    if min.Some? && max.Some? then
      var a := NewAgeRange(min.value, max.value);
      if a.Failure? then Failure(a.error) else Success(Some(a.value))
    else Success(None)
  }

  /** A maximum distance only when the column is present; it is validated. */
  function DecodeMaxDistance(km: Option<real>): (r: Result<Option<Distance>>)
    ensures r.Success? ==> (r.value.Some? <==> km.Some?)
    ensures r.Success? && r.value.Some? ==> r.value.value.kilometers == km.value
    ensures r.Failure? <==> km.Some? && km.value < 0.0
  {
    if km.Some? then
      var d := OfKilometers(km.value);
      if d.Failure? then Failure(d.error) else Success(Some(d.value))
    else Success(None)
  }

  /** `buildProfile(entity)`: the parts are decoded in source order, the
      first failure wins; preferences are always built; a null id throws
      when the profile is constructed, and so does a third photo. */
  function BuildProfile(row: UserRow): (r: Result<Profile>)
    ensures row.id.None? ==> r.Failure?
    ensures r.Success? ==>
      && row.id.Some? && r.value.userId == UserId(row.id.value)
      && r.value.displayName == row.displayName && r.value.bio == row.bio && r.value.birthDate == row.birthDate
      && (r.value.location.Some? <==> row.latitude.Some? && row.longitude.Some?)
      && r.value.photoUrls == DecodePhotos(row.photoUrls)
      && r.value.preferences.Some?
      && r.value.preferences.value.interestedIn == DecodeGenders(row.interestedIn)
      && (r.value.preferences.value.ageRange.Some? <==> row.ageRangeMin.Some? && row.ageRangeMax.Some?)
      && (r.value.preferences.value.maxDistance.Some? <==> row.maxDistanceKm.Some?)
    ensures r.Success? ==>
      && DecodeLocation(row.latitude, row.longitude) == Success(r.value.location)
      && DecodeInterests(row.interests) == Success(r.value.interests)
      && DecodeAgeRange(row.ageRangeMin, row.ageRangeMax) == Success(r.value.preferences.value.ageRange)
      && DecodeMaxDistance(row.maxDistanceKm) == Success(r.value.preferences.value.maxDistance)
    ensures r.Failure? <==>
      || DecodeLocation(row.latitude, row.longitude).Failure?
      || DecodeInterests(row.interests).Failure?
      || DecodeAgeRange(row.ageRangeMin, row.ageRangeMax).Failure?
      || DecodeMaxDistance(row.maxDistanceKm).Failure?
      || row.id.None?
      || |DecodePhotos(row.photoUrls)| > MaxPhotos
  {
    var location :- DecodeLocation(row.latitude, row.longitude);
    var photos := DecodePhotos(row.photoUrls);
    var interests :- DecodeInterests(row.interests);
    var genders := DecodeGenders(row.interestedIn);
    var ageRange :- DecodeAgeRange(row.ageRangeMin, row.ageRangeMax);
    var maxDistance :- DecodeMaxDistance(row.maxDistanceKm);
    var preferences := NewPreferences(Some(genders), ageRange, maxDistance);
    if row.id.None? then Failure(NullPointer)
    else NewProfile(UserId(row.id.value), row.displayName, row.bio, row.birthDate, Some(interests),
                    Some(preferences), location, Some(photos))
  }

  /** `toDomain(entity)` with the clock reading of the `User` constructor:
      the profile is rebuilt and the user constructed from id, username and
      profile, so the stored state and timestamps are not used and the
      state is derived again from completeness. The username column is
      never null. */
  method ToDomain(e: UserEntity, now: int) returns (r: Result<User>)
    requires e.username.Some?
    ensures BuildProfile(e.Row()).Failure? ==> r == Failure(BuildProfile(e.Row()).error)
    ensures BuildProfile(e.Row()).Success? ==>
      && r.Success? && fresh(r.value)
      && r.value.id == UserId(e.id.value) && r.value.username == e.username.value
      && r.value.profile == Some(BuildProfile(e.Row()).value)
      && r.value.state == InitialState(r.value.profile)
      && r.value.createdAt == now && r.value.updatedAt == now
  {
    var profile := BuildProfile(e.Row());
    if profile.Failure? {
      return Failure(profile.error);
    }
    var user := new User(UserId(e.id.value), e.username.value, Some(profile.value), now);
    r := Success(user);
  }

  // ----------------------------------------------------------- round trips

  /** Photos come back as they were stored when each URL is non-empty and
      comma-free and a single URL is not blank. */
  lemma PhotosRoundTrip(photos: seq<string>)
    requires forall k :: 0 <= k < |photos| ==> |photos[k]| > 0 && ',' !in photos[k]
    requires |photos| == 1 ==> !IsBlank(photos[0])
    ensures DecodePhotos(Some(Join(photos, ','))) == photos
  {
    JoinBlank(photos, ',');
    if |photos| > 0 {
      SplitJoin(photos, ',');
    }
  }

  /** A single whitespace URL is stored as a blank column and read back as
      no photo at all. */
  lemma BlankPhotoIsLost()
    ensures DecodePhotos(Some(Join([" "], ','))) == []
  {
    assert IsBlank(Join([" "], ','));
  }

  lemma {:induction false} NamesAreClean(order: seq<Interest>)
    ensures forall k :: 0 <= k < |InterestNames(order)| ==>
      |InterestNames(order)[k]| > 0 && ',' !in InterestNames(order)[k]
      && Trim(InterestNames(order)[k]) == InterestNames(order)[k]
  {
    forall k | 0 <= k < |order| ensures
      |InterestNames(order)[k]| > 0 && ',' !in InterestNames(order)[k]
      && Trim(InterestNames(order)[k]) == InterestNames(order)[k]
    {
      InterestNameShape(order[k]);
    }
  }

  lemma {:induction false} TrimAllClean(names: seq<string>)
    requires forall k :: 0 <= k < |names| ==> Trim(names[k]) == names[k]
    ensures TrimAll(names) == names
  {
  }

  lemma {:induction false} NonEmptyClean(names: seq<string>)
    requires forall k :: 0 <= k < |names| ==> |names[k]| > 0
    ensures NonEmpty(names) == names
    decreases |names|
  {
    if |names| > 0 {
      NonEmptyClean(names[1..]);
      assert [names[0]] + names[1..] == names;
    }
  }

  /** Looking the names up gives back the interests they were made from. */
  lemma {:induction false} ValuesOfNames(order: seq<Interest>)
    ensures ValuesOf(InterestNames(order)) == Success(set x | x in order)
    decreases |order|
  {
    if |order| > 0 {
      var names := InterestNames(order);
      assert names[0] == InterestName(order[0]) && names[1..] == InterestNames(order[1..]) by {
        assert names == [InterestName(order[0])] + InterestNames(order[1..]);
      }
      ValuesOfNames(order[1..]);
      InterestNameShape(order[0]);
      ValuesOfCons(names, order[0]);
      ElementsOfCons(order);
    } else {
      assert (set x | x in order) == {};
    }
  }

  /** The elements of a non-empty sequence are its head and the elements of its tail. */
  lemma ElementsOfCons<T>(s: seq<T>)
    requires |s| > 0
    ensures (set x | x in s) == {s[0]} + (set x | x in s[1..])
  {
    assert s == [s[0]] + s[1..];
  }

  /** A known first name adds its constant to the lookup of the rest. */
  lemma ValuesOfCons(names: seq<string>, i: Interest)
    requires |names| > 0 && InterestValueOf(names[0]) == Success(i) && ValuesOf(names[1..]).Success?
    ensures ValuesOf(names) == Success({i} + ValuesOf(names[1..]).value)
  {
  }

  /** The comma-joined names of a non-empty enumeration split back into the
      same names, and trimming and dropping empty pieces change nothing. */
  lemma {:induction false} InterestColumnPieces(order: seq<Interest>)
    requires |order| > 0
    ensures !IsBlank(Join(InterestNames(order), ','))
    ensures NonEmpty(TrimAll(Split(Join(InterestNames(order), ','), ','))) == InterestNames(order)
  {
    var names := InterestNames(order);
    var column := Join(names, ',');
    InterestColumnNotBlank(order);
    NamesAreClean(order);
    assert Split(column, ',') == names by {
      SplitJoin(names, ',');
    }
    TrimAllClean(names);
    NonEmptyClean(names);
  }

  lemma InterestColumnNotBlank(order: seq<Interest>)
    requires |order| > 0
    ensures !IsBlank(Join(InterestNames(order), ','))
  {
    var names := InterestNames(order);
    JoinBlank(names, ',');
    if |names| == 1 {
      InterestNameShape(order[0]);
      assert Join(names, ',') == InterestName(order[0]);
      assert !IsWhitespace(InterestName(order[0])[0]);
    }
  }

  /** The interest set comes back exactly, whatever order it was written in. */
  lemma InterestsRoundTrip(order: seq<Interest>, s: set<Interest>)
    requires IsEnumeration(order, s)
    ensures DecodeInterests(Some(Join(InterestNames(order), ','))) == Success(s)
  {
    if |order| == 0 {
      assert s == {};
    } else {
      InterestColumnPieces(order);
      ValuesOfNames(order);
      assert (set x | x in order) == s;
    }
  }

  /** The accepted genders come back exactly when each is non-empty and
      comma-free and a single one is not blank. */
  lemma GendersRoundTrip(order: seq<string>, s: set<string>)
    requires IsEnumeration(order, s)
    requires forall g :: g in s ==> |g| > 0 && ',' !in g
    requires |order| == 1 ==> !IsBlank(order[0])
    ensures DecodeGenders(Some(Join(order, ','))) == s
  {
    JoinBlank(order, ',');
    if |order| > 0 {
      SplitJoin(order, ',');
    }
  }

  /** The photo URLs and the accepted genders survive the comma encoding,
      and the interests and genders were written as enumerations. */
  ghost predicate Encodable(p: Profile, interestOrder: seq<Interest>, genderOrder: seq<string>) {
    && IsEnumeration(interestOrder, p.interests)
    && (forall k :: 0 <= k < |p.photoUrls| ==> |p.photoUrls[k]| > 0 && ',' !in p.photoUrls[k])
    && (|p.photoUrls| == 1 ==> !IsBlank(p.photoUrls[0]))
    && (p.preferences.Some? ==>
          && IsEnumeration(genderOrder, p.preferences.value.interestedIn)
          && (forall g :: g in p.preferences.value.interestedIn ==> |g| > 0 && ',' !in g)
          && (|genderOrder| == 1 ==> !IsBlank(genderOrder[0])))
  }

  /** A stored profile is read back as it was written, under the user's
      id, with missing preferences read back as empty ones. */
  lemma ProfileRoundTrip(id: UserId, username: string, state: UserState, createdAt: int, updatedAt: int,
                         p: Profile, passwordHash: Option<string>, interestOrder: seq<Interest>,
                         genderOrder: seq<string>)
    requires Encodable(p, interestOrder, genderOrder)
    ensures BuildProfile(RowOf(id, username, state, createdAt, updatedAt, Some(p), passwordHash, interestOrder, genderOrder))
      == Success(p.(userId := id, preferences := Some(if p.preferences.Some? then p.preferences.value else Preferences({}, None, None))))
  {
    var row := RowOf(id, username, state, createdAt, updatedAt, Some(p), passwordHash, interestOrder, genderOrder);
    var base := IdentityRow(id, username, state, createdAt, updatedAt, passwordHash);
    assert row == WithProfile(base, p, interestOrder, genderOrder);
    assert DecodeLocation(row.latitude, row.longitude) == Success(p.location);
    PhotosRoundTrip(p.photoUrls);
    assert DecodePhotos(row.photoUrls) == p.photoUrls;
    InterestsRoundTrip(interestOrder, p.interests);
    assert DecodeInterests(row.interests) == Success(p.interests);
    var prefs := if p.preferences.Some? then p.preferences.value else Preferences({}, None, None);
    if p.preferences.Some? {
      GendersRoundTrip(genderOrder, prefs.interestedIn);
    }
    assert DecodeGenders(row.interestedIn) == prefs.interestedIn;
    assert DecodeAgeRange(row.ageRangeMin, row.ageRangeMax) == Success(prefs.ageRange);
    assert DecodeMaxDistance(row.maxDistanceKm) == Success(prefs.maxDistance);
    assert NewPreferences(Some(prefs.interestedIn), prefs.ageRange, prefs.maxDistance) == prefs;
  }

  /** A user without a profile comes back with an empty one: every profile
      column is null, and the rebuilt profile has no name, no photos, no
      interests and empty preferences, so it is incomplete. */
  lemma MissingProfileComesBackEmpty(id: UserId, username: string, state: UserState, createdAt: int, updatedAt: int,
                                     passwordHash: Option<string>, interestOrder: seq<Interest>, genderOrder: seq<string>)
    ensures var row := RowOf(id, username, state, createdAt, updatedAt, None, passwordHash, interestOrder, genderOrder);
      && BuildProfile(row) == Success(ProfileRecord(id, None, None, None, {}, Some(Preferences({}, None, None)), None, []))
      && !IsComplete(BuildProfile(row).value)
  {
  }

  /** The stored state is not read back: a user with a complete profile
      reloads as active whatever state was saved, a banned or paused one
      included. */
  lemma ReloadForgetsState(id: UserId, username: string, state: UserState, createdAt: int, updatedAt: int,
                           p: Profile, passwordHash: Option<string>, interestOrder: seq<Interest>,
                           genderOrder: seq<string>)
    requires Encodable(p, interestOrder, genderOrder) && IsComplete(p)
    ensures var row := RowOf(id, username, state, createdAt, updatedAt, Some(p), passwordHash, interestOrder, genderOrder);
      && row.state == Some(state)
      && BuildProfile(row).Success?
      && InitialState(Some(BuildProfile(row).value)) == Active
  {
    ProfileRoundTrip(id, username, state, createdAt, updatedAt, p, passwordHash, interestOrder, genderOrder);
  }
}
