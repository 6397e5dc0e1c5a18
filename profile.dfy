/**
  The profile value objects: `Interest`, dates and ages, `AgeRange`,
  `Preferences` and `Profile`.
*/
module Profiles {
  import opened Wrappers
  import opened JavaText
  import opened Ids
  import opened Geo

  datatype Interest =
    Hiking | Music | Travel | Movies | Reading | Cooking | Gaming | Fitness | Photography | Art

  /** The constants in declaration order. */
  const AllInterests: seq<Interest> :=
    [Hiking, Music, Travel, Movies, Reading, Cooking, Gaming, Fitness, Photography, Art]

  /** `Interest.name()`. */
  function InterestName(i: Interest): string {
    match i
    case Hiking => "HIKING"
    case Music => "MUSIC"
    case Travel => "TRAVEL"
    case Movies => "MOVIES"
    case Reading => "READING"
    case Cooking => "COOKING"
    case Gaming => "GAMING"
    case Fitness => "FITNESS"
    case Photography => "PHOTOGRAPHY"
    case Art => "ART"
  }

  /** `Interest.valueOf(s)`: the constant whose name is exactly `s`; any
      other string throws IllegalArgumentException. */
  function InterestValueOf(s: string): (r: Result<Interest>)
    ensures r.Success? ==> InterestName(r.value) == s
    ensures r.Failure? ==> r.error.IllegalArgument? && forall i :: InterestName(i) != s
  {
    if s == "HIKING" then Success(Hiking)
    else if s == "MUSIC" then Success(Music)
    else if s == "TRAVEL" then Success(Travel)
    else if s == "MOVIES" then Success(Movies)
    else if s == "READING" then Success(Reading)
    else if s == "COOKING" then Success(Cooking)
    else if s == "GAMING" then Success(Gaming)
    else if s == "FITNESS" then Success(Fitness)
    else if s == "PHOTOGRAPHY" then Success(Photography)
    else if s == "ART" then Success(Art)
    else Failure(IllegalArgument("No enum constant com.datingapp.domain.Interest." + s))
  }

  /** A constant's name: upper-case letters and underscores, at least one. */
  predicate IsConstantName(s: string) {
    |s| > 0 && forall k :: 0 <= k < |s| ==> 'A' <= s[k] <= 'Z' || s[k] == '_'
  }

  /** Such a name has no comma and no character that trim or isBlank would
      treat as space. */
  lemma ConstantNameIsClean(s: string)
    requires IsConstantName(s)
    ensures ',' !in s
    ensures forall k :: 0 <= k < |s| ==> s[k] > ' ' && !IsWhitespace(s[k])
  {
  }

  /** A name is upper-case letters and underscores: non-empty, without
      commas, untouched by trim, and `valueOf` maps it back. */
  lemma InterestNameShape(i: Interest)
    ensures |InterestName(i)| > 0 && ',' !in InterestName(i)
    ensures forall k :: 0 <= k < |InterestName(i)| ==> InterestName(i)[k] > ' ' && !IsWhitespace(InterestName(i)[k])
    ensures InterestValueOf(InterestName(i)) == Success(i)
  {
    assert IsConstantName(InterestName(i));
    ConstantNameIsClean(InterestName(i));
  }

  // ---------------------------------------------------------------- dates

  /** A `LocalDate` as year, month and day of month. Every month may have
      31 days here, so the type holds a few dates `LocalDate` rejects. */
  datatype DateRecord = DateRecord(year: int, month: int, day: int)

  type Date = d: DateRecord | 1 <= d.month <= 12 && 1 <= d.day <= 31 witness DateRecord(2000, 1, 1)

  /** Chronological order: year, then month, then day. */
  predicate OnOrBefore(a: Date, b: Date) {
    a.year < b.year
    || (a.year == b.year && (a.month < b.month || (a.month == b.month && a.day <= b.day)))
  }

  /** Java's `/` on int: truncates toward zero. */
  function JavaDiv(a: int, b: int): int
    requires b > 0
  {
    if a >= 0 then a / b else -((-a) / b)
  }

  /** `Period.between(start, end).getYears()`: the month difference, less
      one when the day of month is not yet reached (more one for a negative
      period), divided by 12 with truncation. */
  function PeriodYears(start: Date, end: Date): int {
    var totalMonths := (end.year * 12 + end.month - 1) - (start.year * 12 + start.month - 1);
    var days := end.day - start.day;
    var months :=
      if totalMonths > 0 && days < 0 then totalMonths - 1
      else if totalMonths < 0 && days > 0 then totalMonths + 1
      else totalMonths;
    JavaDiv(months, 12)
  }

  /** The number of birthdays from `birth` reached by `today`. */
  function CompletedYears(birth: Date, today: Date): int {
    today.year - birth.year
    - (if today.month < birth.month || (today.month == birth.month && today.day < birth.day) then 1 else 0)
  }

  lemma DivTwelve(a: int, q: int)
    requires 12 * q <= a < 12 * q + 12
    ensures a / 12 == q
  {
  }

  /** For a birth date not after today, the period in years is the number of
      completed years. */
  lemma PeriodYearsCountsBirthdays(birth: Date, today: Date)
    requires OnOrBefore(birth, today)
    ensures PeriodYears(birth, today) == CompletedYears(birth, today)
  {
    var y := today.year - birth.year;
    var m := today.month - birth.month;
    var totalMonths := (today.year * 12 + today.month - 1) - (birth.year * 12 + birth.month - 1);
    assert totalMonths == 12 * y + m;
    var days := today.day - birth.day;
    var months :=
      if totalMonths > 0 && days < 0 then totalMonths - 1
      else if totalMonths < 0 && days > 0 then totalMonths + 1
      else totalMonths;
    if m > 0 || (m == 0 && days >= 0) {
      assert months >= 0;
      DivTwelve(months, y);
    } else {
      assert y >= 1;
      assert months >= 0;
      DivTwelve(months, y - 1);
    }
  }

  // ------------------------------------------------------------- AgeRange

  datatype AgeRangeRecord = AgeRangeRecord(min: int, max: int)

  /** Every constructed range satisfies 18 <= min <= max <= 120. */
  type AgeRange = r: AgeRangeRecord | 18 <= r.min <= r.max <= 120 witness AgeRangeRecord(18, 18)

  /** The compact constructor, guards in source order; `AgeRange.of` is the
      same constructor. */
  function NewAgeRange(min: int, max: int): (r: Result<AgeRange>)
    ensures r.Success? <==> 18 <= min <= max <= 120
    ensures r.Success? ==> r.value.min == min && r.value.max == max
    ensures min < 18 ==> r == Failure(IllegalArgument("Minimum age must be 18+"))
    ensures min >= 18 && max < min ==>
      r == Failure(IllegalArgument("Max age must be greater than or equal to min age"))
    ensures 18 <= min <= max && max > 120 ==> r == Failure(IllegalArgument("Max age exceeded"))
  {
    if min < 18 then Failure(IllegalArgument("Minimum age must be 18+"))
    else if max < min then Result<AgeRange>.Failure(IllegalArgument("Max age must be greater than or equal to min age"))
    else if max > 120 then Failure(IllegalArgument("Max age exceeded"))
    else Success(AgeRangeRecord(min, max))
  }

  function Contains(r: AgeRange, age: int): bool {
    age >= r.min && age <= r.max
  }

  /** `contains` is inclusive at both ends and false just outside them. */
  lemma ContainsIsInclusive(r: AgeRange, age: int)
    ensures Contains(r, r.min) && Contains(r, r.max)
    ensures !Contains(r, r.min - 1) && !Contains(r, r.max + 1)
    ensures Contains(r, age) <==> r.min <= age <= r.max
  {
  }

  // ---------------------------------------------------------- Preferences

  /** The record `Preferences(interestedIn, ageRange, maxDistance)`; the
      two last components may be null. */
  datatype Preferences = Preferences(
    interestedIn: set<string>, ageRange: Option<AgeRange>, maxDistance: Option<Distance>)

  /** The compact constructor turns a null `interestedIn` into the empty set. */
  function NewPreferences(interestedIn: Option<set<string>>, ageRange: Option<AgeRange>,
                          maxDistance: Option<Distance>): (p: Preferences)
    ensures interestedIn.None? ==> p.interestedIn == {}
    ensures interestedIn.Some? ==> p.interestedIn == interestedIn.value
    ensures p.ageRange == ageRange && p.maxDistance == maxDistance
  {
    Preferences(if interestedIn.Some? then interestedIn.value else {}, ageRange, maxDistance)
  }

  // --------------------------------------------------------------- Profile

  /** The record `Profile(...)` after normalisation: the collections are
      never null; the other components may be. */
  datatype ProfileRecord = ProfileRecord(
    userId: UserId,
    displayName: Option<string>,
    bio: Option<string>,
    birthDate: Option<Date>,
    interests: set<Interest>,
    preferences: Option<Preferences>,
    location: Option<Location>,
    photoUrls: seq<string>)

  const MaxPhotos := 2

  /** Every constructed profile has at most two photos. */
  type Profile = p: ProfileRecord | |p.photoUrls| <= MaxPhotos
    witness ProfileRecord(UserId("00000000-0000-0000-0000-000000000000"), None, None, None, {}, None, None, [])

  /** The compact constructor: null collections become empty, and more than
      two photo URLs are rejected. */
  function NewProfile(userId: UserId, displayName: Option<string>, bio: Option<string>,
                      birthDate: Option<Date>, interests: Option<set<Interest>>,
                      preferences: Option<Preferences>, location: Option<Location>,
                      photoUrls: Option<seq<string>>): (r: Result<Profile>)
    ensures var photos := if photoUrls.Some? then photoUrls.value else [];
      && (r.Failure? <==> |photos| > MaxPhotos)
      && (r.Failure? ==> r.error == IllegalArgument("Maximum 2 photos allowed"))
      && (r.Success? ==>
            && r.value.photoUrls == photos
            && r.value.interests == (if interests.Some? then interests.value else {})
            && r.value.userId == userId && r.value.displayName == displayName && r.value.bio == bio
            && r.value.birthDate == birthDate && r.value.preferences == preferences
            && r.value.location == location)
  {
    var ints := if interests.Some? then interests.value else {};
    var photos := if photoUrls.Some? then photoUrls.value else [];
    if |photos| > MaxPhotos then Failure(IllegalArgument("Maximum 2 photos allowed"))
    else Success(ProfileRecord(userId, displayName, bio, birthDate, ints, preferences, location, photos))
  }

  /** `isComplete`: a non-blank display name, a birth date, a location and
      at least one photo. */
  predicate IsComplete(p: Profile) {
    && p.displayName.Some? && !IsBlank(p.displayName.value)
    && p.birthDate.Some?
    && p.location.Some?
    && |p.photoUrls| > 0
  }

  /** Bio, interests and preferences play no part in completeness, and a
      whitespace-only display name makes a profile incomplete. */
  lemma CompletenessIgnores(p: Profile, bio: Option<string>, interests: set<Interest>,
                            preferences: Option<Preferences>)
    ensures IsComplete(p) == IsComplete(p.(bio := bio, interests := interests, preferences := preferences))
    ensures p.displayName.Some? && IsBlank(p.displayName.value) ==> !IsComplete(p)
  {
  }

  /** `age()` with `LocalDate.now()` passed in as `today`: 0 without a
      birth date, otherwise the completed years when the birth date is not
      in the future. */
  function Age(p: Profile, today: Date): (a: int)
    ensures p.birthDate.None? ==> a == 0
    ensures p.birthDate.Some? && OnOrBefore(p.birthDate.value, today) ==>
      a == CompletedYears(p.birthDate.value, today) && a >= 0
  {
    if p.birthDate.None? then 0
    else
      var b := p.birthDate.value;
      if OnOrBefore(b, today) then PeriodYearsCountsBirthdays(b, today); PeriodYears(b, today)
      else PeriodYears(b, today)
  }

  /** A birthday falling today counts; one falling tomorrow does not yet,
      including when tomorrow is 1 January. */
  lemma AgeAroundBirthday(p: Profile, n: nat)
    requires p.birthDate.Some?
    ensures var b := p.birthDate.value;
      Age(p, DateRecord(b.year + n, b.month, b.day)) == n
    ensures var b := p.birthDate.value;
      n >= 1 && b.day >= 2 ==> Age(p, DateRecord(b.year + n, b.month, b.day - 1)) == n - 1
    ensures var b := p.birthDate.value;
      n >= 1 && b.day == 1 && b.month == 1 ==> Age(p, DateRecord(b.year + n - 1, 12, 31)) == n - 1
  {
  }

  /** For a birthday on the first of a month after January, every day of the
      previous month still counts one year fewer. */
  lemma AgeBeforeFirstOfMonth(p: Profile, n: nat, d: int)
    requires p.birthDate.Some? && 1 <= d <= 31
    ensures var b := p.birthDate.value;
      n >= 1 && b.day == 1 && b.month >= 2 ==> Age(p, DateRecord(b.year + n, b.month - 1, d)) == n - 1
  {
  }

  /** `Preferences.matches`: with no age range every profile matches;
      otherwise exactly the profiles whose age the range contains. The
      genders and the maximum distance are not consulted. */
  function Matches(prefs: Preferences, p: Profile, today: Date): (b: bool)
    ensures prefs.ageRange.None? ==> b
    ensures prefs.ageRange.Some? ==> (b <==> Contains(prefs.ageRange.value, Age(p, today)))
  {
    !(prefs.ageRange.Some? && !Contains(prefs.ageRange.value, Age(p, today)))
  }

  lemma MatchesIgnoresGendersAndDistance(prefs: Preferences, p: Profile, today: Date,
                                         genders: set<string>, maxDistance: Option<Distance>)
    ensures Matches(prefs, p, today) == Matches(prefs.(interestedIn := genders, maxDistance := maxDistance), p, today)
  {
  }
}
