/** The user's profile (UserContext.tsx): a profile record with nested
    preferences, partial updates that merge a patch over it the way an
    object spread does, and the transitions the authentication events cause.
    The authentication service is outside the model: what it reports (a
    session or none, a sign-in or sign-out event, an error) is a parameter. */
module UserContext {
  import opened Wrappers

  datatype Difficulty = Beginner | Intermediate | Advanced

  datatype Preferences = Preferences(
    soundEnabled: bool,
    notifications: bool,
    hapticFeedback: bool,
    difficulty: Difficulty,
    focusMode: bool)

  datatype Profile = Profile(
    name: string,
    email: string,
    title: string,
    level: string,
    bio: string,
    phone: string,
    location: string,
    avatar: Option<string>,
    preferences: Preferences)

  /** The profile before any sign-in, and after a sign-out. */
  const DefaultProfile: Profile := Profile(
    "Student Alpha",
    "alpha.student@edux.ai",
    "Neural Architect",
    "LVL 42",
    "Exploring the linguistic frontiers of the metaverse. Focused on mastering Asian dialects.",
    "+1 (555) 019-2834",
    "Neo-Tokyo, Digital Realm",
    None,
    Preferences(true, true, true, Intermediate, false))

  /** A `Partial<UserProfile>`: `None` for a key the patch does not have.
      The avatar is optional in the profile, so a patch may also set it to
      `undefined`, which is `Some(None)`. */
  datatype ProfilePatch = ProfilePatch(
    name: Option<string>,
    email: Option<string>,
    title: Option<string>,
    level: Option<string>,
    bio: Option<string>,
    phone: Option<string>,
    location: Option<string>,
    avatar: Option<Option<string>>,
    preferences: Option<Preferences>)

  /** A `Partial<UserPreferences>`. */
  datatype PreferencesPatch = PreferencesPatch(
    soundEnabled: Option<bool>,
    notifications: Option<bool>,
    hapticFeedback: Option<bool>,
    difficulty: Option<Difficulty>,
    focusMode: Option<bool>)

  const EmptyProfilePatch: ProfilePatch := ProfilePatch(None, None, None, None, None, None, None, None, None)

  const EmptyPreferencesPatch: PreferencesPatch := PreferencesPatch(None, None, None, None, None)

  /** `{ ...prev, ...data }`: every key of the patch replaces the profile's
      value, every other key keeps it. The preferences are replaced as a
      whole. */
  function UpdateProfile(prev: Profile, data: ProfilePatch): (r: Profile)
    ensures data.name.Some? ==> r.name == data.name.value
    ensures data.name.None? ==> r.name == prev.name
    ensures data.email.Some? ==> r.email == data.email.value
    ensures data.email.None? ==> r.email == prev.email
    ensures data.title.Some? ==> r.title == data.title.value
    ensures data.title.None? ==> r.title == prev.title
    ensures data.level.Some? ==> r.level == data.level.value
    ensures data.level.None? ==> r.level == prev.level
    ensures data.bio.Some? ==> r.bio == data.bio.value
    ensures data.bio.None? ==> r.bio == prev.bio
    ensures data.phone.Some? ==> r.phone == data.phone.value
    ensures data.phone.None? ==> r.phone == prev.phone
    ensures data.location.Some? ==> r.location == data.location.value
    ensures data.location.None? ==> r.location == prev.location
    ensures data.avatar.Some? ==> r.avatar == data.avatar.value
    ensures data.avatar.None? ==> r.avatar == prev.avatar
    ensures data.preferences.Some? ==> r.preferences == data.preferences.value
    ensures data.preferences.None? ==> r.preferences == prev.preferences
  {
    Profile(
      data.name.GetOr(prev.name),
      data.email.GetOr(prev.email),
      data.title.GetOr(prev.title),
      data.level.GetOr(prev.level),
      data.bio.GetOr(prev.bio),
      data.phone.GetOr(prev.phone),
      data.location.GetOr(prev.location),
      data.avatar.GetOr(prev.avatar),
      data.preferences.GetOr(prev.preferences))
  }

  /** `{ ...prev.preferences, ...data }`. */
  function MergePreferences(prev: Preferences, data: PreferencesPatch): (r: Preferences)
    ensures data.soundEnabled.Some? ==> r.soundEnabled == data.soundEnabled.value
    ensures data.soundEnabled.None? ==> r.soundEnabled == prev.soundEnabled
    ensures data.notifications.Some? ==> r.notifications == data.notifications.value
    ensures data.notifications.None? ==> r.notifications == prev.notifications
    ensures data.hapticFeedback.Some? ==> r.hapticFeedback == data.hapticFeedback.value
    ensures data.hapticFeedback.None? ==> r.hapticFeedback == prev.hapticFeedback
    ensures data.difficulty.Some? ==> r.difficulty == data.difficulty.value
    ensures data.difficulty.None? ==> r.difficulty == prev.difficulty
    ensures data.focusMode.Some? ==> r.focusMode == data.focusMode.value
    ensures data.focusMode.None? ==> r.focusMode == prev.focusMode
  {
    Preferences(
      data.soundEnabled.GetOr(prev.soundEnabled),
      data.notifications.GetOr(prev.notifications),
      data.hapticFeedback.GetOr(prev.hapticFeedback),
      data.difficulty.GetOr(prev.difficulty),
      data.focusMode.GetOr(prev.focusMode))
  }

  /** `updatePreferences`: the preferences merged with the patch, the rest
      of the profile kept. */
  function UpdatePreferences(prev: Profile, data: PreferencesPatch): (r: Profile)
    ensures r.(preferences := prev.preferences) == prev
    ensures r.preferences == MergePreferences(prev.preferences, data)
  {
    prev.(preferences := MergePreferences(prev.preferences, data))
  }

  /** A key the patch has wins over a key of the earlier patch. */
  function ThenPatch<T>(first: Option<T>, second: Option<T>): Option<T> {
    if second.Some? then second else first
  }

  /** The patch that does what applying `first` and then `second` does. */
  function ComposeProfilePatches(first: ProfilePatch, second: ProfilePatch): ProfilePatch {
    ProfilePatch(
      ThenPatch(first.name, second.name),
      ThenPatch(first.email, second.email),
      ThenPatch(first.title, second.title),
      ThenPatch(first.level, second.level),
      ThenPatch(first.bio, second.bio),
      ThenPatch(first.phone, second.phone),
      ThenPatch(first.location, second.location),
      ThenPatch(first.avatar, second.avatar),
      ThenPatch(first.preferences, second.preferences))
  }

  function ComposePreferencesPatches(first: PreferencesPatch, second: PreferencesPatch): PreferencesPatch {
    PreferencesPatch(
      ThenPatch(first.soundEnabled, second.soundEnabled),
      ThenPatch(first.notifications, second.notifications),
      ThenPatch(first.hapticFeedback, second.hapticFeedback),
      ThenPatch(first.difficulty, second.difficulty),
      ThenPatch(first.focusMode, second.focusMode))
  }

  /** An empty patch changes nothing, and a patch that repeats the
      profile's own values changes nothing either. */
  lemma UpdateProfileIdentity(p: Profile, data: ProfilePatch)
    requires data.name.Some? ==> data.name.value == p.name
    requires data.email.Some? ==> data.email.value == p.email
    requires data.title.Some? ==> data.title.value == p.title
    requires data.level.Some? ==> data.level.value == p.level
    requires data.bio.Some? ==> data.bio.value == p.bio
    requires data.phone.Some? ==> data.phone.value == p.phone
    requires data.location.Some? ==> data.location.value == p.location
    requires data.avatar.Some? ==> data.avatar.value == p.avatar
    requires data.preferences.Some? ==> data.preferences.value == p.preferences
    ensures UpdateProfile(p, data) == p
    ensures UpdateProfile(p, EmptyProfilePatch) == p
  {
  }

  /** Two updates in a row are one update with the later keys winning;
      applying the same patch twice is applying it once. */
  lemma UpdateProfileComposes(p: Profile, first: ProfilePatch, second: ProfilePatch)
    ensures UpdateProfile(UpdateProfile(p, first), second) == UpdateProfile(p, ComposeProfilePatches(first, second))
    ensures UpdateProfile(UpdateProfile(p, first), first) == UpdateProfile(p, first)
  {
  }

  /** The same for the preferences. */
  lemma UpdatePreferencesComposes(p: Profile, first: PreferencesPatch, second: PreferencesPatch)
    ensures UpdatePreferences(UpdatePreferences(p, first), second) == UpdatePreferences(p, ComposePreferencesPatches(first, second))
    ensures UpdatePreferences(UpdatePreferences(p, first), first) == UpdatePreferences(p, first)
    ensures UpdatePreferences(p, EmptyPreferencesPatch) == p
  {
  }

  /** Updating the preferences is updating the profile with the merged
      preferences. */
  lemma UpdatePreferencesIsUpdateProfile(p: Profile, data: PreferencesPatch)
    ensures UpdatePreferences(p, data) ==
      UpdateProfile(p, EmptyProfilePatch.(preferences := Some(MergePreferences(p.preferences, data))))
  {
  }

  /** The user of a session: the e-mail address and the `name` of the
      metadata, each possibly missing. */
  datatype SessionUser = SessionUser(email: Option<string>, metadataName: Option<string>)

  /** `x || fallback` for an optional text: an empty or missing text is
      falsy. */
  function OrElse(x: Option<string>, fallback: string): (r: string)
    ensures x.Some? && x.value != "" ==> r == x.value
    ensures x.None? || x.value == "" ==> r == fallback
  {
    if x.Some? && x.value != "" then x.value else fallback
  }

  /** The patch a signed-in user makes: the e-mail address and the name,
      when they are there and not empty. */
  function SignInPatch(user: SessionUser): ProfilePatch {
    EmptyProfilePatch.(
      email := if user.email.Some? && user.email.value != "" then user.email else None,
      name := if user.metadataName.Some? && user.metadataName.value != "" then user.metadataName else None)
  }

  /** The profile after a sign-in or a found session: the user's e-mail
      address and name, falling back to the previous ones. */
  function SignedInProfile(prev: Profile, user: SessionUser): (r: Profile)
    ensures r.(email := prev.email, name := prev.name) == prev
  {
    prev.(email := OrElse(user.email, prev.email), name := OrElse(user.metadataName, prev.name))
  }

  /** Signing in is the update with the sign-in patch, so everything but the
      name and the e-mail address is kept; signing in again as the same
      user changes nothing. */
  lemma SignedInIsUpdate(prev: Profile, user: SessionUser)
    ensures SignedInProfile(prev, user) == UpdateProfile(prev, SignInPatch(user))
    ensures SignedInProfile(SignedInProfile(prev, user), user) == SignedInProfile(prev, user)
  {
  }

  /** What the initial session check finds. */
  datatype SessionCheck = Threw | NoSession | Found(user: SessionUser)

  /** The events of the authentication listener the provider reacts to;
      every other event is `Other`. */
  datatype AuthEvent = SignedIn | SignedOut | Other

  /** The provider's state. */
  class UserProvider {
    var profile: Profile
    var isAuthenticated: bool
    var isLoading: bool

    /** Before the session check: the default profile, signed out and
        loading. */
    constructor()
      ensures profile == DefaultProfile && !isAuthenticated && isLoading
    {
      profile := DefaultProfile;
      isAuthenticated := false;
      isLoading := true;
    }

    /** `checkSession`: a found session signs the user in; loading is over
        whatever the check found, and an error or no session changes
        nothing else. */
    method CheckSession(outcome: SessionCheck)
      modifies this
      ensures !isLoading
      ensures outcome.Found? ==> isAuthenticated && profile == SignedInProfile(old(profile), outcome.user)
      ensures !outcome.Found? ==> isAuthenticated == old(isAuthenticated) && profile == old(profile)
    {
      if outcome.Found? {
        isAuthenticated := true;
        profile := SignedInProfile(profile, outcome.user);
      }
      isLoading := false;
    }

    /** The authentication listener: a sign-in signs the user in and, when
        the session has a user, takes the user's name and e-mail address; a
        sign-out goes back to the default profile; other events change
        nothing. The loading flag is not touched. */
    method OnAuthStateChange(event: AuthEvent, user: Option<SessionUser>)
      modifies this
      ensures isLoading == old(isLoading)
      ensures event == SignedIn ==> isAuthenticated
      ensures event == SignedIn && user.Some? ==> profile == SignedInProfile(old(profile), user.value)
      ensures event == SignedIn && user.None? ==> profile == old(profile)
      ensures event == SignedOut ==> !isAuthenticated && profile == DefaultProfile
      ensures event == Other ==> isAuthenticated == old(isAuthenticated) && profile == old(profile)
    {
      if event == SignedIn {
        isAuthenticated := true;
        if user.Some? {
          profile := SignedInProfile(profile, user.value);
        }
      } else if event == SignedOut {
        isAuthenticated := false;
        profile := DefaultProfile;
      }
    }

    /** `updateProfile`. */
    method Update(data: ProfilePatch)
      modifies this
      ensures profile == UpdateProfile(old(profile), data)
      ensures isAuthenticated == old(isAuthenticated) && isLoading == old(isLoading)
    {
      profile := UpdateProfile(profile, data);
    }

    /** `updatePreferences`. */
    method UpdatePrefs(data: PreferencesPatch)
      modifies this
      ensures profile == UpdatePreferences(old(profile), data)
      ensures isAuthenticated == old(isAuthenticated) && isLoading == old(isLoading)
    {
      profile := UpdatePreferences(profile, data);
    }
  }
}
