/** The user lifecycle states and the fixed permission table they carry. */
module UserStates {

  datatype UserState = Registered | ProfileIncomplete | Active | Paused | Banned

  /** The four flags a state is declared with, in declaration order. */
  datatype Permissions = Permissions(
    canSwipe: bool, canMessage: bool, canUpdateProfile: bool, canBeDiscovered: bool)

  /** The enum's constructor arguments, row by row. */
  function Table(s: UserState): Permissions {
    match s
    case Registered => Permissions(false, false, true, false)
    case ProfileIncomplete => Permissions(false, false, true, false)
    case Active => Permissions(true, true, true, true)
    case Paused => Permissions(false, false, true, false)
    case Banned => Permissions(false, false, false, false)
  }

  /** `name()` of the enum constant, as used in exception messages. */
  function Name(s: UserState): string {
    match s
    case Registered => "REGISTERED"
    case ProfileIncomplete => "PROFILE_INCOMPLETE"
    case Active => "ACTIVE"
    case Paused => "PAUSED"
    case Banned => "BANNED"
  }

  function CanSwipe(s: UserState): (b: bool)
    ensures b <==> s == Active
  {
    Table(s).canSwipe
  }

  function CanMessage(s: UserState): (b: bool)
    ensures b <==> s == Active
  {
    Table(s).canMessage
  }

  function CanUpdateProfile(s: UserState): (b: bool)
    ensures b <==> s != Banned
  {
    Table(s).canUpdateProfile
  }

  function CanBeDiscovered(s: UserState): (b: bool)
    ensures b <==> s == Active
  {
    Table(s).canBeDiscovered
  }

  /** ACTIVE grants every permission, BANNED none; the three other states
      grant only the profile update. */
  lemma PermissionRows(s: UserState)
    ensures s == Active ==> Table(s) == Permissions(true, true, true, true)
    ensures s == Banned ==> Table(s) == Permissions(false, false, false, false)
    ensures s in {Registered, ProfileIncomplete, Paused} ==> Table(s) == Permissions(false, false, true, false)
  {
  }
}
