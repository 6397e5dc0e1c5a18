# Matching core of the dating application, in Dafny

This project models the domain core of a small dating service. It covers:

- the value objects: identifiers, the canonical match id, location, distance, age range, preferences and profile;
- the `User` aggregate and its state machine (`PROFILE_INCOMPLETE`, `ACTIVE`, `PAUSED`, `BANNED`; `REGISTERED` is never entered);
- swipes, matches and the domain events;
- the distance strategy and the `MatchScorer` that averages strategy scores;
- the in-memory user, swipe and match repositories;
- the `MatchingService`: swipe processing, mutual-like detection, idempotent match creation and announcement, and prospect discovery (discover, filter, score, sort by score, truncate);
- the application-level `ProspectsService`;
- the `UserMapper` between a `User` and its persistence row.

How the Java maps onto Dafny:

- Java exceptions are values of `Wrappers.Error`, returned in a `Result` (or an `Outcome` for a `void` method).
- `null` is `Option.None`.
- Clock readings (`Instant.now()`, `LocalDate.now()`) and generated ids are parameters.
- Objects the source mutates are classes with `modifies` clauses: `User`, the repositories, the event publisher, the services and `UserEntity`.
- Values are datatypes. Validated records are subset types, with a `New…` constructor function that returns the exception.
- The stream pipelines over a `ConcurrentHashMap`'s values are methods that pick elements in an unspecified order. They are specified by membership, absence of duplicates and completeness.

`User.java` declares no username and only the constructor `User(UserId, Profile)`. Yet `UserMapper`, the user repository and the services call `getUsername()` and a three-argument constructor `new User(id, username, profile)`. The model follows those callers: a `User` carries an immutable `username`, and its constructor takes `(id, username, profile)`.

Things the proofs bring out:

- `MatchingService.findProspects` asks the discovery query for `limit * 2` users in Java `int` arithmetic. From `limit = 2^30` on, this wraps to a negative count, and the query then throws (`Matching.FetchSizeOverflow`).
- The discovery query dereferences a null centre lazily. A requester without a location fails only when `limit > 0` and some stored user is discoverable and located.
- `ProspectsService.calculateAge` subtracts calendar years. It overstates the age by one until the birthday comes round (`ProspectsApplication.CalculateAgeVersusAge`).
- Reloading a user through `UserMapper.toDomain` rebuilds the state from profile completeness. A banned or paused user with a complete profile comes back `ACTIVE` (`Mapper.ReloadForgetsState`).
- Missing preferences come back as empty ones.
- A single blank photo URL is lost on the way through the comma-joined column (`Mapper.BlankPhotoIsLost`).

## Model

| member | source | states |
|---|---|---|
| Wrappers.WrapInt32 | src/main/java/com/datingapp/domain/matching/MatchingService.java:49 | Java `int` arithmetic: the result is a 32-bit value, equals the exact value when that fits, and differs from it by a multiple of 2^32 |
| JavaText.LessIrreflexive | src/main/java/com/datingapp/domain/MatchId.java:20 | `compareTo(...) < 0` never holds of a string and itself |
| JavaText.LessAsymmetric | src/main/java/com/datingapp/domain/MatchId.java:20 | `compareTo(...) < 0` never holds in both directions |
| JavaText.LessTotal | src/main/java/com/datingapp/domain/MatchId.java:20 | of two different strings, one compares below the other |
| JavaText.LessTransitive | src/main/java/com/datingapp/domain/MatchId.java:20 | `compareTo(...) < 0` is transitive |
| JavaText.Trim | src/main/java/com/datingapp/infrastructure/persistence/jpa/UserMapper.java:100 | `String.trim` never lengthens, leaves a string without control characters or spaces unchanged, and leaves no such character at either end |
| JavaText.TrimKeepsMiddle | src/main/java/com/datingapp/infrastructure/persistence/jpa/UserMapper.java:100 | `String.trim` removes only leading and trailing characters up to U+0020: its result is a contiguous slice of the input with only such characters around it |
| JavaText.SplitJoin | src/main/java/com/datingapp/infrastructure/persistence/jpa/UserMapper.java:93-95 | splitting the comma-join of non-empty, comma-free parts gives the parts back |
| JavaText.JoinBlank | src/main/java/com/datingapp/infrastructure/persistence/jpa/UserMapper.java:93-95 | joining no parts gives a blank string; one part gives the part itself; two or more parts never give a blank string |
| Ids.NewMatchId | src/main/java/com/datingapp/domain/MatchId.java:10-12 | a null value throws; otherwise the id holds the value |
| Ids.Canonical | src/main/java/com/datingapp/domain/MatchId.java:17-24 | the id is the smaller UUID text, "_", then the larger one |
| Ids.CanonicalCommutes | src/main/java/com/datingapp/domain/MatchId.java:17-24 | the canonical id does not depend on the order of the two users |
| Ids.CanonicalIsOrderedPair | src/main/java/com/datingapp/domain/MatchId.java:17-24 | the id has 73 characters with "_" at position 36; its halves are the two UUIDs, and the first half is not greater than the second |
| Ids.CanonicalOfSame | src/main/java/com/datingapp/domain/MatchId.java:17-24 | one user paired with itself gives that UUID twice |
| Ids.CanonicalInjective | src/main/java/com/datingapp/domain/MatchId.java:17-24 | equal canonical ids come from the same unordered pair of users |
| Geo.NewLocation | src/main/java/com/datingapp/domain/Location.java:9-14 | a location exists exactly for latitude in [-90, 90] and longitude in [-180, 180]; the latitude is checked first, and each failure has its own message |
| Geo.NewDistance | src/main/java/com/datingapp/domain/Distance.java:7-10 | a distance exists exactly for non-negative kilometres; otherwise "Distance cannot be negative" |
| Geo.OfKilometers | src/main/java/com/datingapp/domain/Distance.java:12-14 | succeeds exactly for non-negative kilometres and keeps the value |
| Geo.OfKilometersIsConstructor | src/main/java/com/datingapp/domain/Distance.java:12-14 | `ofKilometers` is the constructor |
| Geo.IsLessThanOrEqual | src/main/java/com/datingapp/domain/Distance.java:16-22 | at most a distance exactly when not greater than it (`Geo.IsGreaterThan`, the strict comparison of kilometres) |
| Geo.CompareTo | src/main/java/com/datingapp/domain/Distance.java:24-27 | the comparison is -1, 0 or 1, and its sign follows the kilometres |
| Geo.CompareToAntisymmetric | src/main/java/com/datingapp/domain/Distance.java:24-27 | swapping the arguments negates the comparison |
| Geo.DistanceTo | src/main/java/com/datingapp/domain/Location.java:16-19 | the distance is the great-circle function of the two locations, which is never negative |
| UserStates.CanSwipe | src/main/java/com/datingapp/domain/UserState.java:7-11 | only ACTIVE may swipe |
| UserStates.CanMessage | src/main/java/com/datingapp/domain/UserState.java:7-11 | only ACTIVE may message |
| UserStates.CanUpdateProfile | src/main/java/com/datingapp/domain/UserState.java:7-11 | every state but BANNED may update its profile |
| UserStates.CanBeDiscovered | src/main/java/com/datingapp/domain/UserState.java:7-11 | only ACTIVE is discoverable |
| UserStates.PermissionRows | src/main/java/com/datingapp/domain/UserState.java:7-11 | the permission table row by row |
| Profiles.InterestValueOf | src/main/java/com/datingapp/domain/Interest.java:6-17 | `valueOf` succeeds with the constant of exactly that name, and throws IllegalArgument for a string that names no constant |
| Profiles.InterestNameShape | src/main/java/com/datingapp/domain/Interest.java:6-17 | a name is non-empty, comma-free and has no whitespace or control characters; `valueOf` maps it back to its constant |
| Profiles.PeriodYearsCountsBirthdays | src/main/java/com/datingapp/domain/Profile.java:40 | for a birth date not in the future, `Period.between(...).getYears()` is the number of completed years |
| Profiles.NewAgeRange | src/main/java/com/datingapp/domain/AgeRange.java:7-14 | a range exists exactly for 18 <= min <= max <= 120; the three checks run in source order with their messages |
| Profiles.ContainsIsInclusive | src/main/java/com/datingapp/domain/AgeRange.java:16-18 | `Profiles.Contains`: both bounds are contained, their outer neighbours are not, and containment means lying between the bounds |
| Profiles.NewPreferences | src/main/java/com/datingapp/domain/Preferences.java:13-15 | null genders become the empty set; the other components are kept |
| Profiles.NewProfile | src/main/java/com/datingapp/domain/Profile.java:22-28 | null collections become empty; more than two photos throws "Maximum 2 photos allowed"; otherwise every component is kept |
| Profiles.CompletenessIgnores | src/main/java/com/datingapp/domain/Profile.java:30-35 | `Profiles.IsComplete` (a non-blank name, a birth date, a location and a photo): completeness does not depend on bio, interests or preferences, and a blank display name makes a profile incomplete |
| Profiles.Age | src/main/java/com/datingapp/domain/Profile.java:37-41 | no birth date gives 0; a birth date not in the future gives the completed years, which are never negative |
| Profiles.AgeAroundBirthday | src/main/java/com/datingapp/domain/Profile.java:37-41 | on the n-th birthday the age is n; the day before, it is n - 1, including 31 December for a birthday on 1 January |
| Profiles.AgeBeforeFirstOfMonth | src/main/java/com/datingapp/domain/Profile.java:37-41 | for a birthday on the first of a month after January, any day of the previous month in the n-th year gives n - 1 |
| Profiles.Matches | src/main/java/com/datingapp/domain/Preferences.java:17-23 | with no age range every profile matches; otherwise a profile matches exactly when the range contains its age |
| Profiles.MatchesIgnoresGendersAndDistance | src/main/java/com/datingapp/domain/Preferences.java:17-23 | neither the accepted genders nor the maximum distance affect `matches` |
| Users.InitialState | src/main/java/com/datingapp/domain/User.java:20-22 | a new user is ACTIVE exactly when its profile is present and complete, and PROFILE_INCOMPLETE otherwise |
| Users.Step | src/main/java/com/datingapp/domain/User.java:54-86 | the transition table: ban always succeeds; activate succeeds exactly from PROFILE_INCOMPLETE or PAUSED; pause exactly from ACTIVE; a profile update fails in BANNED. A successful activate yields ACTIVE and a successful pause PAUSED. A profile update keeps ACTIVE and PAUSED. From PROFILE_INCOMPLETE it succeeds exactly for a non-null profile and yields ACTIVE exactly when that profile is complete. REGISTERED is never entered; BANNED is never left |
| Users.RegisteredUnreachable | src/main/java/com/datingapp/domain/User.java:17-86 | no user reaches REGISTERED, whatever operations it undergoes |
| Users.NeverEntersRegistered | src/main/java/com/datingapp/domain/User.java:54-86 | no run of operations from another state reaches REGISTERED |
| Users.BannedIsAbsorbing | src/main/java/com/datingapp/domain/User.java:54-86 | every run of operations from BANNED stays in BANNED |
| Users.BanIsFinal | src/main/java/com/datingapp/domain/User.java:83-86 | after a ban, the user is BANNED whatever follows |
| Users.PauseThenActivate | src/main/java/com/datingapp/domain/User.java:67-81 | pausing an active user and then activating it returns it to ACTIVE |
| Users.User.constructor | src/main/java/com/datingapp/domain/User.java:17-25 | keeps the id, username and profile; derives the state from completeness; both timestamps are the clock reading |
| Users.User.UpdateProfile | src/main/java/com/datingapp/domain/User.java:54-65 | BANNED throws IllegalState and changes nothing. Otherwise the profile and timestamp are replaced, and the new state is the one `Users.Step` gives: PROFILE_INCOMPLETE becomes ACTIVE exactly for a complete profile, and ACTIVE and PAUSED stay. A null profile in PROFILE_INCOMPLETE throws after the replacement |
| Users.User.Activate | src/main/java/com/datingapp/domain/User.java:67-73 | from PROFILE_INCOMPLETE or PAUSED the user becomes ACTIVE, as `Users.Step` states, and the timestamp is renewed; any other state throws and changes nothing |
| Users.User.Pause | src/main/java/com/datingapp/domain/User.java:75-81 | from ACTIVE the user becomes PAUSED and the timestamp is renewed; any other state throws and changes nothing |
| Users.User.Ban | src/main/java/com/datingapp/domain/User.java:83-86 | any state becomes BANNED, the timestamp is renewed, and the profile is kept |
| Users.User.CanSwipe | src/main/java/com/datingapp/domain/User.java:88-90 | a user may swipe exactly when ACTIVE |
| Users.User.CanMessage | src/main/java/com/datingapp/domain/User.java:92-94 | a user may message exactly when ACTIVE |
| Users.User.CanBeDiscovered | src/main/java/com/datingapp/domain/User.java:96-98 | a user is discoverable exactly when ACTIVE |
| Swipes.IsLike | src/main/java/com/datingapp/domain/SwipeDirection.java:11-13 | LIKE and SUPER_LIKE are likes, DISLIKE is not |
| Swipes.Create | src/main/java/com/datingapp/domain/Swipe.java:30-45 | a self-swipe throws "Cannot swipe on yourself"; otherwise the swipe holds the fresh id, both users, the direction and the clock reading |
| Swipes.Reconstitute | src/main/java/com/datingapp/domain/Swipe.java:52-55 | a stored swipe is rebuilt with exactly the given fields |
| Swipes.CreatedSwipeIsNotSelf | src/main/java/com/datingapp/domain/Swipe.java:35-37 | a created swipe never has the same swiper and target |
| Swipes.SwipeIsLike | src/main/java/com/datingapp/domain/Swipe.java:77-79 | a swipe is a like exactly when its direction is LIKE or SUPER_LIKE |
| Matches.Create | src/main/java/com/datingapp/domain/Match.java:30-55 | a self-match throws. Otherwise the two users are stored smaller-text first, the id is their canonical id, and the match is newly created |
| Matches.CreateIsSymmetric | src/main/java/com/datingapp/domain/Match.java:38-47 | creating a match from (a, b) or (b, a) gives the same match |
| Matches.Reconstitute | src/main/java/com/datingapp/domain/Match.java:60-62 | a stored match is rebuilt with the given fields and is not newly created |
| Matches.Involves | src/main/java/com/datingapp/domain/Match.java:84-86 | a user is involved exactly when it is one of the two |
| Matches.OtherUser | src/main/java/com/datingapp/domain/Match.java:88-94 | succeeds exactly for an involved user, with the other one; otherwise throws "User … is not part of this match" |
| Matches.OtherUserInvolution | src/main/java/com/datingapp/domain/Match.java:88-94 | the other user of the other user is the user itself |
| Matches.CreatedMatchPairsArguments | src/main/java/com/datingapp/domain/Match.java:30-55 | a created match involves exactly its two arguments, and the other user of each is the other argument |
| Events.CountAfterPublish | src/main/java/com/datingapp/domain/event/EventPublisher.java:7 | publishing an event adds one to an id's count of MatchCreated announcements exactly when it announces that id, and leaves every other count unchanged |
| Events.EventPublisher.Publish | src/main/java/com/datingapp/domain/event/EventPublisher.java:7 | the event is appended to those published |
| Scoring.Decay | src/main/java/com/datingapp/domain/matching/DistanceStrategy.java:28-33 | the linear decay lies in [0, 1] and is 0 beyond the maximum distance |
| Scoring.DecayEnds | src/main/java/com/datingapp/domain/matching/DistanceStrategy.java:32-33 | the decay is 1 at distance 0 and 0 at the maximum distance |
| Scoring.DecayIsMonotone | src/main/java/com/datingapp/domain/matching/DistanceStrategy.java:28-33 | farther never scores higher, and strictly lower within the maximum distance |
| Scoring.StrategyScore | src/main/java/com/datingapp/domain/matching/DistanceStrategy.java:18-34 | the score lies in [0, 1]; it is 0 when either location is missing, and otherwise the decay of the requester-to-candidate distance |
| Scoring.StrategyName | src/main/java/com/datingapp/domain/matching/DistanceStrategy.java:37-39 | the distance strategy is named "distance" |
| Scoring.Scores | src/main/java/com/datingapp/domain/matching/MatchScorer.java:23-25 | one score per strategy, in strategy order |
| Scoring.SumBounds | src/main/java/com/datingapp/domain/matching/MatchScorer.java:22-25 | a sum of scores in [0, 1] lies between 0 and their count |
| Scoring.MeanInUnitInterval | src/main/java/com/datingapp/domain/matching/MatchScorer.java:17-27 | the mean of scores in [0, 1] lies in [0, 1] |
| Scoring.MeanExamples | src/main/java/com/datingapp/domain/matching/MatchScorer.java:26 | the mean of one score is that score; the mean of 0.8 and 0.4 is 0.6 |
| Scoring.MatchScorer.Score | src/main/java/com/datingapp/domain/matching/MatchScorer.java:17-27 | the loop computes the mean of the strategy scores: 0.5 with no strategies, always in [0, 1] |
| SwipeRepository.Key | src/main/java/com/datingapp/infrastructure/persistence/inmemory/InMemorySwipeRepository.java:47-49 | the key is 73 characters: the swiper's UUID, "_", then the target's UUID |
| SwipeRepository.KeyInjective | src/main/java/com/datingapp/infrastructure/persistence/inmemory/InMemorySwipeRepository.java:47-49 | equal keys come from the same ordered pair |
| SwipeRepository.InMemorySwipeRepository.SaveIfNotExists | src/main/java/com/datingapp/infrastructure/persistence/inmemory/InMemorySwipeRepository.java:20-23 | the first swipe for a pair is stored and returned; a later one leaves the store unchanged and returns the stored swipe |
| SwipeRepository.InMemorySwipeRepository.FindByPair | src/main/java/com/datingapp/infrastructure/persistence/inmemory/InMemorySwipeRepository.java:26-28 | finds a stored swipe from that swiper to that target exactly when one exists |
| SwipeRepository.InMemorySwipeRepository.Likes | src/main/java/com/datingapp/domain/matching/MatchingService.java:64-73 | a stored like or super-like from the swiper to the target exists |
| SwipeRepository.InMemorySwipeRepository.FindSwipedUserIds | src/main/java/com/datingapp/infrastructure/persistence/inmemory/InMemorySwipeRepository.java:31-36 | exactly the targets of the swiper's stored swipes |
| SwipeRepository.InMemorySwipeRepository.FindPendingLikersFor | src/main/java/com/datingapp/infrastructure/persistence/inmemory/InMemorySwipeRepository.java:39-45 | exactly the users whose stored swipe on the user is a like |
| SwipeRepository.FirstWriteWins | src/main/java/com/datingapp/infrastructure/persistence/inmemory/InMemorySwipeRepository.java:20-23 | a dislike saved after a like for the same pair returns, and keeps, the like |
| MatchRepository.InMemoryMatchRepository.SaveIfNotExists | src/main/java/com/datingapp/infrastructure/persistence/inmemory/InMemoryMatchRepository.java:21-23 | the first match for an id is stored and returned; a later one leaves the store unchanged and returns the stored match |
| MatchRepository.InMemoryMatchRepository.FindById | src/main/java/com/datingapp/infrastructure/persistence/inmemory/InMemoryMatchRepository.java:26-28 | finds a stored match with that id exactly when one exists |
| MatchRepository.InMemoryMatchRepository.FindByUser | src/main/java/com/datingapp/infrastructure/persistence/inmemory/InMemoryMatchRepository.java:31-35 | exactly the stored matches involving the user, each once |
| UserRepository.InMemoryUserRepository.Save | src/main/java/com/datingapp/infrastructure/persistence/inmemory/InMemoryUserRepository.java:34-36 | the user is stored under its id, replacing any earlier one |
| UserRepository.InMemoryUserRepository.FindById | src/main/java/com/datingapp/infrastructure/persistence/inmemory/InMemoryUserRepository.java:22-24 | finds a stored user with that id exactly when one exists |
| UserRepository.InMemoryUserRepository.ExistsById | src/main/java/com/datingapp/infrastructure/persistence/inmemory/InMemoryUserRepository.java:49-51 | true exactly when `findById` finds a user |
| UserRepository.InMemoryUserRepository.FindByUsername | src/main/java/com/datingapp/infrastructure/persistence/inmemory/InMemoryUserRepository.java:27-31 | some stored user with the username, and none exactly when no stored user has it |
| UserRepository.InMemoryUserRepository.ExistsByUsername | src/main/java/com/datingapp/infrastructure/persistence/inmemory/InMemoryUserRepository.java:54-57 | true exactly when a stored user has the username |
| UserRepository.InMemoryUserRepository.FindDiscoverableInRadius | src/main/java/com/datingapp/infrastructure/persistence/inmemory/InMemoryUserRepository.java:39-46 | a negative limit throws IllegalArgument, and a null centre throws NullPointer exactly when the limit is positive and a stored user is discoverable and located. Otherwise the result holds at most `limit` distinct stored users, each ACTIVE, located and within the radius, and it holds all such users when fewer than `limit` are returned |
| ProspectOrder.InsertByScore | src/main/java/com/datingapp/domain/matching/MatchingService.java:54 | inserting adds exactly one element |
| ProspectOrder.InsertPermutes | src/main/java/com/datingapp/domain/matching/MatchingService.java:54 | inserting adds the prospect to the multiset and nothing else |
| ProspectOrder.SortByScoreDesc | src/main/java/com/datingapp/domain/matching/MatchingService.java:54 | sorting keeps the length |
| ProspectOrder.SortPermutes | src/main/java/com/datingapp/domain/matching/MatchingService.java:54 | the sort is a permutation |
| ProspectOrder.InsertKeepsSorted | src/main/java/com/datingapp/domain/matching/MatchingService.java:54 | inserting into a list sorted by descending score keeps it sorted |
| ProspectOrder.InsertKeepsTies | src/main/java/com/datingapp/domain/matching/MatchingService.java:54 | the inserted prospect goes after every prospect of equal score |
| ProspectOrder.SortIsSorted | src/main/java/com/datingapp/domain/matching/MatchingService.java:54 | the result is in descending score order |
| ProspectOrder.SortIsStable | src/main/java/com/datingapp/domain/matching/MatchingService.java:54 | prospects of equal score keep their discovery order, as `Stream.sorted` guarantees for ordered streams |
| ProspectOrder.WithScoreConcat | src/main/java/com/datingapp/domain/matching/MatchingService.java:54 | the prospects of one score in a concatenation are those of each part, in order |
| ProspectOrder.WithScoreNone | src/main/java/com/datingapp/domain/matching/MatchingService.java:54 | a list whose scores all lie below a value has no prospect of that score |
| ProspectOrder.SortKeepsElements | src/main/java/com/datingapp/domain/matching/MatchingService.java:54 | every element of the sorted list comes from the input |
| ProspectOrder.TakeKeepsSorted | src/main/java/com/datingapp/domain/matching/MatchingService.java:54-55 | truncating a list sorted by descending score keeps it sorted |
| ProspectOrder.Take | src/main/java/com/datingapp/domain/matching/MatchingService.java:55 | `limit(n)` keeps exactly the first n elements of a longer list, and all of a shorter one |
| Matching.FetchSizeOverflow | src/main/java/com/datingapp/domain/matching/MatchingService.java:49 | `limit * 2` is exact below 2^30 and negative from 2^30 on, and for negative limits down to -2^30 |
| Matching.Survivors | src/main/java/com/datingapp/domain/matching/MatchingService.java:51-52 | exactly the candidates that are neither the requester nor excluded |
| Matching.SurvivorsConcat | src/main/java/com/datingapp/domain/matching/MatchingService.java:50-52 | the filter keeps discovery order: filtering a concatenation concatenates the filtered parts |
| Matching.SurvivorsLocated | src/main/java/com/datingapp/domain/matching/MatchingService.java:51-53 | filtering keeps candidates located |
| Matching.DiscoveredAreLocated | src/main/java/com/datingapp/infrastructure/persistence/inmemory/InMemoryUserRepository.java:42-43 | discovered users are located, and a non-empty result implies a centre |
| Matching.ProspectOf | src/main/java/com/datingapp/domain/matching/MatchingService.java:91-109 | the prospect is for the candidate's id, its shared interests are exactly the interests both users hold, and its score lies between 0 and 1 |
| Matching.ProspectOfShows | src/main/java/com/datingapp/domain/matching/MatchingService.java:92-108 | the prospect shows the candidate's own name, bio, photos and age today, the distance from the requester to the candidate, and the mean strategy score |
| Matching.ProspectsOf | src/main/java/com/datingapp/domain/matching/MatchingService.java:53 | one prospect per candidate, in order |
| Matching.PipelineGuarantees | src/main/java/com/datingapp/domain/matching/MatchingService.java:45-57 | `Matching.Pipeline` (filter, score, sort, truncate): the prospects are at most `limit`, and exactly as many as the smaller of `limit` and the number of candidates left after filtering; they are in descending score order and never the requester or an excluded user |
| Matching.MatchingService.ProcessSwipe | src/main/java/com/datingapp/domain/matching/MatchingService.java:59-89 | see the contract summary below the table |
| Matching.MatchingService.ToProspect | src/main/java/com/datingapp/domain/matching/MatchingService.java:91-109 | the prospect built is the one `ProspectOf` describes |
| Matching.MatchingService.FindProspects | src/main/java/com/datingapp/domain/matching/MatchingService.java:45-57 | see the contract summary below the table |
| Matching.MatchingService.ToProspects | src/main/java/com/datingapp/domain/matching/MatchingService.java:53 | the loop builds the prospects `ProspectsOf` describes |
| Matching.ReciprocalLikeScenario | src/main/java/com/datingapp/domain/matching/MatchingService.java:59-89 | on a fresh service a like gives no match; the reciprocal like gives the match under the canonical id, announced exactly once |
| Matching.AnswerLike | src/main/java/com/datingapp/domain/matching/MatchingService.java:59-89 | with only the other user's like stored and no match yet, the like back returns the match under the canonical id, announced exactly once |
| Matching.AnnounceKeepsOnce | src/main/java/com/datingapp/domain/matching/MatchingService.java:82-86 | storing a new match and publishing its MatchCreated event keeps every stored match announced exactly once and every other id unannounced |
| Matching.MatchingService.CreateMatch | src/main/java/com/datingapp/domain/matching/MatchingService.java:75-88 | an existing match under the canonical id is returned and nothing changes; otherwise the new match is stored and its event appended, keeping the service valid |
| ProspectsApplication.CalculateAge | src/main/java/com/datingapp/application/ProspectsService.java:47-49 | the year difference is non-negative for a birth date not in the future |
| ProspectsApplication.CalculateAgeVersusAge | src/main/java/com/datingapp/application/ProspectsService.java:47-49 | the year difference exceeds the completed years by one exactly when this year's birthday is still to come |
| ProspectsApplication.CountSharedInterests | src/main/java/com/datingapp/application/ProspectsService.java:51-55 | the count is bounded by both set sizes and is 0 exactly for disjoint sets |
| ProspectsApplication.SharedCountAgrees | src/main/java/com/datingapp/application/ProspectsService.java:51-55 | the count equals the size of the shared-interest set of the corresponding prospect |
| ProspectsApplication.DtoOf | src/main/java/com/datingapp/application/ProspectsService.java:37-43 | the record holds the id, name, year-difference age, the candidate-to-requester distance (never negative) and the shared count |
| ProspectsApplication.DtosOf | src/main/java/com/datingapp/application/ProspectsService.java:34-44 | one record per candidate, in order |
| ProspectsApplication.ProspectsService.FindProspects | src/main/java/com/datingapp/application/ProspectsService.java:27-45 | see the contract summary below the table |
| ProspectsApplication.ProspectsService.ToDtos | src/main/java/com/datingapp/application/ProspectsService.java:37-44 | the first candidate without a birth date throws; otherwise the loop builds the records `DtosOf` describes |
| Mapper.UserEntity.constructor | src/main/java/com/datingapp/infrastructure/persistence/jpa/UserMapper.java:36 | a new entity has every column null |
| Mapper.UserEntity.SetId | src/main/java/com/datingapp/infrastructure/persistence/jpa/UserEntity.java:89-91 | writes the `id` column and leaves every other column as it was |
| Mapper.UserEntity.SetUsername | src/main/java/com/datingapp/infrastructure/persistence/jpa/UserEntity.java:97-99 | writes the `username` column and leaves every other column as it was |
| Mapper.UserEntity.SetPasswordHash | src/main/java/com/datingapp/infrastructure/persistence/jpa/UserEntity.java:105-107 | writes the `passwordHash` column and leaves every other column as it was |
| Mapper.UserEntity.SetState | src/main/java/com/datingapp/infrastructure/persistence/jpa/UserEntity.java:113-115 | writes the `state` column and leaves every other column as it was |
| Mapper.UserEntity.SetDisplayName | src/main/java/com/datingapp/infrastructure/persistence/jpa/UserEntity.java:121-123 | writes the `displayName` column and leaves every other column as it was |
| Mapper.UserEntity.SetBio | src/main/java/com/datingapp/infrastructure/persistence/jpa/UserEntity.java:129-131 | writes the `bio` column and leaves every other column as it was |
| Mapper.UserEntity.SetBirthDate | src/main/java/com/datingapp/infrastructure/persistence/jpa/UserEntity.java:137-139 | writes the `birthDate` column and leaves every other column as it was |
| Mapper.UserEntity.SetLatitude | src/main/java/com/datingapp/infrastructure/persistence/jpa/UserEntity.java:145-147 | writes the `latitude` column and leaves every other column as it was |
| Mapper.UserEntity.SetLongitude | src/main/java/com/datingapp/infrastructure/persistence/jpa/UserEntity.java:153-155 | writes the `longitude` column and leaves every other column as it was |
| Mapper.UserEntity.SetPhotoUrls | src/main/java/com/datingapp/infrastructure/persistence/jpa/UserEntity.java:161-163 | writes the `photoUrls` column and leaves every other column as it was |
| Mapper.UserEntity.SetInterests | src/main/java/com/datingapp/infrastructure/persistence/jpa/UserEntity.java:169-171 | writes the `interests` column and leaves every other column as it was |
| Mapper.UserEntity.SetInterestedIn | src/main/java/com/datingapp/infrastructure/persistence/jpa/UserEntity.java:177-179 | writes the `interestedIn` column and leaves every other column as it was |
| Mapper.UserEntity.SetAgeRangeMin | src/main/java/com/datingapp/infrastructure/persistence/jpa/UserEntity.java:185-187 | writes the `ageRangeMin` column and leaves every other column as it was |
| Mapper.UserEntity.SetAgeRangeMax | src/main/java/com/datingapp/infrastructure/persistence/jpa/UserEntity.java:193-195 | writes the `ageRangeMax` column and leaves every other column as it was |
| Mapper.UserEntity.SetMaxDistanceKm | src/main/java/com/datingapp/infrastructure/persistence/jpa/UserEntity.java:201-203 | writes the `maxDistanceKm` column and leaves every other column as it was |
| Mapper.UserEntity.SetCreatedAt | src/main/java/com/datingapp/infrastructure/persistence/jpa/UserEntity.java:209-211 | writes the `createdAt` column and leaves every other column as it was |
| Mapper.UserEntity.SetUpdatedAt | src/main/java/com/datingapp/infrastructure/persistence/jpa/UserEntity.java:217-219 | writes the `updatedAt` column and leaves every other column as it was |
| Scoring.MatchScorer.constructor | src/main/java/com/datingapp/domain/matching/MatchScorer.java:13-15 | the scorer keeps the given strategies, in order |
| Matching.MatchingService.constructor | src/main/java/com/datingapp/domain/matching/MatchingService.java:33-43 | the service keeps its scorer, repositories and publisher; it is valid exactly when the repositories are and every stored match has been announced exactly once |
| ProspectsApplication.ProspectsService.constructor | src/main/java/com/datingapp/application/ProspectsService.java:22-25 | the service keeps its user and swipe repositories |
| UserRepository.InMemoryUserRepository.constructor | src/main/java/com/datingapp/infrastructure/persistence/inmemory/InMemoryUserRepository.java:19 | a new repository is empty |
| SwipeRepository.InMemorySwipeRepository.constructor | src/main/java/com/datingapp/infrastructure/persistence/inmemory/InMemorySwipeRepository.java:17 | a new repository is empty |
| MatchRepository.InMemoryMatchRepository.constructor | src/main/java/com/datingapp/infrastructure/persistence/inmemory/InMemoryMatchRepository.java:18 | a new repository is empty |
| Mapper.WriteListed | src/main/java/com/datingapp/infrastructure/persistence/jpa/UserMapper.java:49-67 | writes name, bio, birth date, the coordinates of a location, and the joined photo and interest columns, as `Mapper.WithListed` describes |
| Mapper.EnumerationSize | src/main/java/com/datingapp/infrastructure/persistence/jpa/UserMapper.java:63-65 | streaming a set yields exactly as many elements as the set has |
| Mapper.Enumerate | src/main/java/com/datingapp/infrastructure/persistence/jpa/UserMapper.java:63-65 | a set's stream yields each element exactly once |
| Mapper.InterestNames | src/main/java/com/datingapp/infrastructure/persistence/jpa/UserMapper.java:64 | one name per interest, in order |
| Mapper.IdentityRow | src/main/java/com/datingapp/infrastructure/persistence/jpa/UserMapper.java:37-45 | id, username, state and timestamps are copied; the password hash only when given; every other column stays null |
| Mapper.WithPreferences | src/main/java/com/datingapp/infrastructure/persistence/jpa/UserMapper.java:69-81 | the genders are comma-joined; the age bounds and maximum distance are written only when set; nothing else changes |
| Mapper.WithProfile | src/main/java/com/datingapp/infrastructure/persistence/jpa/UserMapper.java:47-82 | name, bio and birth date are copied; coordinates only for a location; photos and interest names comma-joined; preference columns only for preferences; identity columns untouched |
| Mapper.WithListed | src/main/java/com/datingapp/infrastructure/persistence/jpa/UserMapper.java:49-67 | the non-preference profile columns leave the preference columns alone |
| Mapper.ToEntity | src/main/java/com/datingapp/infrastructure/persistence/jpa/UserMapper.java:35-85 | a fresh entity whose row is the user's row (`Mapper.RowOf`: the identity columns, then the profile columns when there is a profile), with sets joined in some enumeration order of each set |
| Mapper.WriteProfile | src/main/java/com/datingapp/infrastructure/persistence/jpa/UserMapper.java:47-82 | writes exactly the profile columns |
| Mapper.WritePreferences | src/main/java/com/datingapp/infrastructure/persistence/jpa/UserMapper.java:69-81 | writes exactly the preference columns |
| Mapper.DecodeLocation | src/main/java/com/datingapp/infrastructure/persistence/jpa/UserMapper.java:88-91 | a location exactly when both coordinates are present, with those coordinates; it throws exactly when they are out of range |
| Mapper.DecodePhotos | src/main/java/com/datingapp/infrastructure/persistence/jpa/UserMapper.java:93-95 | a null or blank column gives no photos; a non-blank column without commas gives that one URL |
| Mapper.TrimAll | src/main/java/com/datingapp/infrastructure/persistence/jpa/UserMapper.java:100 | every piece is trimmed, in place |
| Mapper.NonEmpty | src/main/java/com/datingapp/infrastructure/persistence/jpa/UserMapper.java:101 | exactly the non-empty pieces are kept |
| Mapper.ValuesOf | src/main/java/com/datingapp/infrastructure/persistence/jpa/UserMapper.java:102-103 | the only exception it throws is IllegalArgument |
| Mapper.ValuesOfSucceeds | src/main/java/com/datingapp/infrastructure/persistence/jpa/UserMapper.java:102-103 | the lookup succeeds exactly when every name is the name of a constant |
| Mapper.ValuesOfMember | src/main/java/com/datingapp/infrastructure/persistence/jpa/UserMapper.java:102-103 | after a successful lookup, an interest is in the set exactly when its name is one of the names |
| Mapper.ValuesOfMembers | src/main/java/com/datingapp/infrastructure/persistence/jpa/UserMapper.java:102-103 | the same, for every interest at once |
| Mapper.DecodeInterests | src/main/java/com/datingapp/infrastructure/persistence/jpa/UserMapper.java:97-104 | a null or blank column gives no interests |
| Mapper.DecodeGenders | src/main/java/com/datingapp/infrastructure/persistence/jpa/UserMapper.java:106-109 | a null or blank column gives no genders; otherwise exactly the untrimmed split pieces |
| Mapper.DecodeAgeRange | src/main/java/com/datingapp/infrastructure/persistence/jpa/UserMapper.java:111-114 | a range exactly when both bounds are present, with those bounds; it throws exactly when the bounds are invalid |
| Mapper.DecodeMaxDistance | src/main/java/com/datingapp/infrastructure/persistence/jpa/UserMapper.java:116-118 | a distance exactly when the column is present, with that value; it throws exactly when the value is negative |
| Mapper.BuildProfile | src/main/java/com/datingapp/infrastructure/persistence/jpa/UserMapper.java:87-131 | a null id fails. On success the profile carries the row's id, copied name, bio and birth date, and decoded photos and genders. Its location, interests, age range and maximum distance are the decoded columns. It has a location exactly when both coordinates are present, and always has preferences, whose range and distance are present exactly when their columns are. It throws exactly when a coordinate is out of range, an interest name is unknown, the age range is invalid, the distance is negative, the id is null or there are more than two photos |
| Mapper.ToDomain | src/main/java/com/datingapp/infrastructure/persistence/jpa/UserMapper.java:27-33 | a profile failure propagates. Otherwise the user is fresh, with the row's id and username and the rebuilt profile; its state is derived from completeness, and the stored state and timestamps are ignored |
| Mapper.PhotosRoundTrip | src/main/java/com/datingapp/infrastructure/persistence/jpa/UserMapper.java:58-60 | non-empty, comma-free photo URLs are read back unchanged, unless a single one is blank |
| Mapper.BlankPhotoIsLost | src/main/java/com/datingapp/infrastructure/persistence/jpa/UserMapper.java:93-95 | a single blank URL is read back as no photo |
| Mapper.NamesAreClean | src/main/java/com/datingapp/infrastructure/persistence/jpa/UserMapper.java:63-65 | interest names are non-empty, comma-free and unchanged by trim |
| Mapper.ValuesOfNames | src/main/java/com/datingapp/infrastructure/persistence/jpa/UserMapper.java:102-103 | looking up the names of interests gives back exactly those interests |
| Mapper.InterestColumnPieces | src/main/java/com/datingapp/infrastructure/persistence/jpa/UserMapper.java:97-101 | the interest column of a non-empty set is not blank, and splitting, trimming and filtering give back the names |
| Mapper.InterestsRoundTrip | src/main/java/com/datingapp/infrastructure/persistence/jpa/UserMapper.java:62-67 | the interest set is read back exactly, whatever order it was written in |
| Mapper.GendersRoundTrip | src/main/java/com/datingapp/infrastructure/persistence/jpa/UserMapper.java:71-73 | the accepted genders are read back unchanged when they are non-empty and comma-free and a single one is not blank |
| Mapper.ProfileRoundTrip | src/main/java/com/datingapp/infrastructure/persistence/jpa/UserMapper.java:87-131 | a stored profile is read back as written, under the user's id, with missing preferences becoming empty ones |
| Mapper.MissingProfileComesBackEmpty | src/main/java/com/datingapp/infrastructure/persistence/jpa/UserMapper.java:47-48 | a user stored without a profile is read back with an empty, incomplete profile |
| Mapper.ReloadForgetsState | src/main/java/com/datingapp/infrastructure/persistence/jpa/UserMapper.java:27-33 | the stored state is written, but a complete profile reloads as ACTIVE whatever that state was |

Contract summaries for the three long rows:

- **Matching.MatchingService.ProcessSwipe**
  - A self-swipe throws and changes nothing.
  - Otherwise the first swipe per ordered pair is kept.
  - A match is returned exactly when both users like each other.
  - With no match, nothing but the swipe store changes.
  - An existing match for the canonical id is returned unchanged.
  - Otherwise a new match is stored, and exactly one MatchCreated event for it is published.
  - The store holds a match exactly when it has been announced once.
- **Matching.MatchingService.FindProspects**
  - A requester without a profile throws.
  - The discovery query is asked for `limit * 2` users in `int` arithmetic, and fails as the query does.
  - Otherwise the result is the pipeline over a valid discovery result: at most `limit` prospects, sorted, never the requester or an excluded user.
- **ProspectsApplication.ProspectsService.FindProspects**
  - An unknown user throws NoSuchElement.
  - A user without a profile throws NullPointer.
  - A negative limit throws IllegalArgument.
  - Otherwise the discovery query is asked for exactly `limit` users, and a null centre fails as the query does.
  - A candidate without a birth date throws.
  - Otherwise the result is the records of the discovered users minus the user and everyone already swiped: at most `limit` of them.

## Left out

- Geo.DistanceTo: the haversine formula (trigonometry on doubles) is an uninterpreted non-negative function, `Geo.Haversine`; floating-point rounding and NaN are not modelled, and reals stand in for doubles.
- Scoring.StrategyScore: requires a positive maximum distance; with a zero maximum, Java divides by zero into NaN or infinity, which reals cannot express.
- `Instant.now()`, `LocalDate.now()`, `UUID.randomUUID()`: clock readings and fresh ids are parameters.
- `MatchStrategy` is an interface with one implementation, `DistanceStrategy`. The model closes it into a datatype with that one case.
- Events.EventPublisher.Publish: the Spring publisher and its listeners are not part of this model. Publishing appends to a ghost log.
- The JPA repositories, Spring Data interfaces, controllers, DTO mapping in the API layer, CLI, views and the legacy `model`/`service` packages are not part of this model.
- Concurrency: the `ConcurrentHashMap` stores are modelled as single-threaded maps; `putIfAbsent` is atomic by construction.
- The iteration order of a hash map's values and of a hash set is not modelled. The repository queries and `Mapper.Enumerate` choose an arbitrary order, and their contracts hold for every order.
- Mapper.ToEntity: the entity's column types (`UUID`, `Double`, `Instant`) are represented by the model's own types.
- Mapper.ToDomain: requires a non-null username column. The schema declares it non-null, and `User` has no behaviour for a null username.
- `UserEntity` getters and `UserId.of` are field access and construction, not separate members.
- Null arguments: `Swipe.create` (requireNonNull on swiper, target and direction), `Match.create` (on both users), the `User` constructor (on the id), and the NullPointerException of `Set.copyOf`/`List.copyOf` on a null element in `Profile` and `Preferences`. The model's types have no null for these, so these exceptions are not modelled. The null `MatchId` value and the null row id in `Mapper.BuildProfile` are modelled.
- Matching.MatchingService.ProcessSwipe: one clock reading `now` stamps the swipe, the match and the MatchCreated event; Java reads the clock separately in `Swipe.create`, `Match.create` and the event's constructor, so the three instants may differ there.
- Exception messages that carry a formatted number are not reproduced. `Stream.limit` throws `IllegalArgumentException` with the limit as its message; the model gives IllegalArgument with an empty message in `UserRepository.InMemoryUserRepository.FindDiscoverableInRadius` and `Matching.MatchingService.FindProspects`. `Location` appends the offending coordinate to its message; `Geo.NewLocation` keeps only the fixed prefix.
- `Date` admits impossible calendar dates such as 30 February or 31 April, which `LocalDate` rejects. The properties are proved over this larger set of dates, so they hold for every real date too.
- `Profile.age()` with a birth date in the future is a negative `Period` year count. The model computes it, but proves properties only for birth dates not in the future.
- `Ban(reason)`: the reason is discarded in the source and in the model.
