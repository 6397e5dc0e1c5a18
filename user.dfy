/**
  The `User` aggregate: identity, username, the current profile and the
  lifecycle state machine. The state machine is first given as a function
  on states (`Step`), then carried out in place by the methods of the class.
*/
module Users {
  import opened Wrappers
  import opened Ids
  import opened UserStates
  import opened Profiles

  /** The state the constructor chooses: ACTIVE for a non-null complete
      profile, PROFILE_INCOMPLETE otherwise. */
  function InitialState(profile: Option<Profile>): (s: UserState)
    ensures s == Active <==> profile.Some? && IsComplete(profile.value)
    ensures s == Active || s == ProfileIncomplete
  {
    if profile.Some? && IsComplete(profile.value) then Active else ProfileIncomplete
  }

  /** The operations that change a user's state. */
  datatype Op = UpdateProfile(newProfile: Option<Profile>) | Activate | Pause | Ban(reason: string)

  /** One transition: the new state, or the exception the operation throws.
      `updateProfile(null)` from PROFILE_INCOMPLETE throws when it asks the
      null profile whether it is complete. */
  function Step(s: UserState, op: Op): (r: Result<UserState>)
    ensures r.Success? && r.value == Registered ==> s == Registered
    ensures s == Banned ==> r.Failure? || r.value == Banned
    ensures op.Ban? ==> r == Success(Banned)
    ensures op.Activate? ==> (r.Success? <==> s in {ProfileIncomplete, Paused})
    ensures op.Pause? ==> (r.Success? <==> s == Active)
    ensures op.UpdateProfile? && !CanUpdateProfile(s) ==> r.Failure?
    ensures r.Success? && !op.UpdateProfile? ==> r.value != s || s == Banned
    ensures op.Activate? && r.Success? ==> r.value == Active
    ensures op.Pause? && r.Success? ==> r.value == Paused
    ensures op.UpdateProfile? && CanUpdateProfile(s) && s != ProfileIncomplete ==> r == Success(s)
    ensures op.UpdateProfile? && s == ProfileIncomplete ==>
      && (r.Success? <==> op.newProfile.Some?)
      && (r.Success? ==> (r.value == Active <==> IsComplete(op.newProfile.value)))
  {
    match op
    case UpdateProfile(p) =>
      if !CanUpdateProfile(s) then Failure(IllegalState("Cannot update profile in state: " + Name(s)))
      else if s == ProfileIncomplete then
        (if p.None? then Failure(NullPointer)
         else if IsComplete(p.value) then Success(Active)
         else Success(s))
      else Success(s)
    case Activate =>
      if s != ProfileIncomplete && s != Paused then Failure(IllegalState("Cannot activate from " + Name(s)))
      else Success(Active)
    case Pause =>
      if s != Active then Failure(IllegalState("Cannot pause from " + Name(s)))
      else Success(Paused)
    case Ban(_) => Success(Banned)
  }

  /** The state after an operation; a throwing operation leaves it as it was. */
  function After(s: UserState, op: Op): UserState {
    var r := Step(s, op);
    if r.Success? then r.value else s
  }

  function OutcomeOf(r: Result<UserState>): Outcome {
    if r.Success? then Pass else Fail(r.error)
  }

  /** The state after a sequence of operations, each applied to the state
      the previous one left. */
  function Run(s: UserState, ops: seq<Op>): UserState
    decreases |ops|
  {
    if |ops| == 0 then s else Run(After(s, ops[0]), ops[1..])
  }

  /** REGISTERED is never entered: no user built by the constructor reaches
      it, whatever operations follow. */
  lemma {:induction false} RegisteredUnreachable(profile: Option<Profile>, ops: seq<Op>)
    ensures Run(InitialState(profile), ops) != Registered
  {
    NeverEntersRegistered(InitialState(profile), ops);
  }

  lemma {:induction false} NeverEntersRegistered(s: UserState, ops: seq<Op>)
    requires s != Registered
    ensures Run(s, ops) != Registered
    decreases |ops|
  {
    if |ops| > 0 {
      NeverEntersRegistered(After(s, ops[0]), ops[1..]);
    }
  }

  /** BANNED is absorbing: no sequence of operations leaves it. */
  lemma {:induction false} BannedIsAbsorbing(ops: seq<Op>)
    ensures Run(Banned, ops) == Banned
    decreases |ops|
  {
    if |ops| > 0 {
      BannedIsAbsorbing(ops[1..]);
    }
  }

  /** Once banned, a user stays banned: ban followed by anything ends BANNED. */
  lemma {:induction false} BanIsFinal(s: UserState, reason: string, ops: seq<Op>)
    ensures Run(s, [Ban(reason)] + ops) == Banned
  {
    assert ([Ban(reason)] + ops)[1..] == ops;
    BannedIsAbsorbing(ops);
  }

  /** ACTIVE -> pause -> PAUSED -> activate -> ACTIVE. */
  lemma PauseThenActivate()
    ensures Run(Active, [Pause, Activate]) == Active
    ensures After(Active, Pause) == Paused
  {
    assert [Pause, Activate][1..] == [Activate];
  }

  class User {
    const id: UserId
    /** Set once by the constructor the callers use (see README). */
    const username: string
    var profile: Option<Profile>
    var state: UserState
    const createdAt: int
    var updatedAt: int

    /** `new User(id, username, profile)`, with the clock reading `now`. */
    constructor (id: UserId, username: string, profile: Option<Profile>, now: int)
      ensures this.id == id && this.username == username && this.profile == profile
      ensures state == InitialState(profile)
      ensures createdAt == now && updatedAt == createdAt
    {
      this.id := id;
      this.username := username;
      this.profile := profile;
      this.state := InitialState(profile);
      this.createdAt := now;
      this.updatedAt := now;
    }

    /** Throws when the state forbids profile updates (BANNED) and changes
        nothing then; otherwise replaces the profile and the timestamp, and
        promotes PROFILE_INCOMPLETE to ACTIVE for a complete profile. */
    method UpdateProfile(newProfile: Option<Profile>, now: int) returns (r: Outcome)
      modifies this
      ensures r == OutcomeOf(Step(old(state), Op.UpdateProfile(newProfile)))
      ensures state == After(old(state), Op.UpdateProfile(newProfile))
      ensures CanUpdateProfile(old(state)) ==> profile == newProfile && updatedAt == now
      ensures !CanUpdateProfile(old(state)) ==> profile == old(profile) && updatedAt == old(updatedAt)
    {
      if !CanUpdateProfile(state) {
        return Fail(IllegalState("Cannot update profile in state: " + Name(state)));
      }
      profile := newProfile;
      updatedAt := now;
      if state == ProfileIncomplete {
        if newProfile.None? {
          return Fail(NullPointer);
        }
        if IsComplete(newProfile.value) {
          state := Active;
        }
      }
      r := Pass;
    }

    /** Legal only from PROFILE_INCOMPLETE or PAUSED (no completeness
        check); yields ACTIVE. */
    method Activate(now: int) returns (r: Outcome)
      modifies this
      ensures r == OutcomeOf(Step(old(state), Op.Activate))
      ensures state == After(old(state), Op.Activate)
      ensures profile == old(profile)
      ensures updatedAt == if r.Pass? then now else old(updatedAt)
    {
      if state != ProfileIncomplete && state != Paused {
        return Fail(IllegalState("Cannot activate from " + Name(state)));
      }
      state := Active;
      updatedAt := now;
      r := Pass;
    }

    /** Legal only from ACTIVE; yields PAUSED. */
    method Pause(now: int) returns (r: Outcome)
      modifies this
      ensures r == OutcomeOf(Step(old(state), Op.Pause))
      ensures state == After(old(state), Op.Pause)
      ensures profile == old(profile)
      ensures updatedAt == if r.Pass? then now else old(updatedAt)
    {
      if state != Active {
        return Fail(IllegalState("Cannot pause from " + Name(state)));
      }
      state := Paused;
      updatedAt := now;
      r := Pass;
    }

    /** Moves any state to BANNED; the reason is not stored. */
    method Ban(reason: string, now: int)
      modifies this
      ensures state == Banned && state == After(old(state), Op.Ban(reason))
      ensures profile == old(profile) && updatedAt == now
    {
      state := Banned;
      updatedAt := now;
    }

    function CanSwipe(): (b: bool)
      reads this
      ensures b <==> state == Active
    {
      UserStates.CanSwipe(state)
    }

    function CanMessage(): (b: bool)
      reads this
      ensures b <==> state == Active
    {
      UserStates.CanMessage(state)
    }

    function CanBeDiscovered(): (b: bool)
      reads this
      ensures b <==> state == Active
    {
      UserStates.CanBeDiscovered(state)
    }
  }
}
