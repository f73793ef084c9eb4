/** `RecruiterService`: at most one recruiter profile per user, and 404 for a missing one. */
module RecruiterService {
  import opened Wrappers
  import opened PyJson
  import opened Documents
  import opened Http
  import opened RecruiterRepository

  const ProfileExists := HttpError(BadRequest, "Recruiter profile already exists")
  const NoProfile := HttpError(NotFound, "Recruiter profile not found")

  /** `create_profile(...)`: 400 and no change when the user has a profile; otherwise exactly
      one profile is added, so profiles made this way stay one per user. */
  method CreateProfile(profiles: Collection, userId: int, companyName: string, recruiterTitle: string,
                       companyLogo: Option<string>, aboutCompany: Option<string>, hiringFields: seq<string>)
    returns (r: Result<Doc, HttpError>)
    modifies profiles
    ensures FindOne(old(profiles.docs), By(UserKey, JInt(userId))).Some? ==>
      r == Failure(ProfileExists) && profiles.docs == old(profiles.docs)
    ensures FindOne(old(profiles.docs), By(UserKey, JInt(userId))).None? ==>
      (r == Success(ProfileDoc(userId, companyName, recruiterTitle, companyLogo, aboutCompany, hiringFields))
       && profiles.docs == old(profiles.docs) + [r.value])
    ensures Unique(old(profiles.docs), UserKey) ==> Unique(profiles.docs, UserKey)
  {
    if FindOne(profiles.docs, By(UserKey, JInt(userId))).Some? {
      return Failure(ProfileExists);
    }
    ghost var before := profiles.docs;
    var profile := RecruiterRepository.Create(profiles, userId, companyName, recruiterTitle, companyLogo, aboutCompany,
                                               hiringFields);
    if Unique(before, UserKey) {
      InsertFreshKeepsUnique(before, UserKey, profile);
    }
    r := Success(profile);
  }

  /** `get_profile(user_id)`: the user's profile, or 404 exactly when there is none. */
  function GetProfile(docs: seq<Doc>, userId: int): (r: Result<Doc, HttpError>)
    ensures r.Failure? <==> forall j | 0 <= j < |docs| :: !Matches(docs[j], By(UserKey, JInt(userId)))
    ensures r.Failure? ==> r.error == NoProfile
    ensures r.Success? ==> r.value in docs && UserKey in r.value && r.value[UserKey] == JInt(userId)
  {
    match FindOne(docs, By(UserKey, JInt(userId)))
    case None => Failure(NoProfile)
    case Some(profile) => Success(profile)
  }

  /** `update_profile(user_id, **kwargs)`: sets the given fields of the user's profile and
      returns it re-read; 404 with no change when the user has none. When `user_id` itself is
      not among the fields, the reply is the old profile with exactly those fields replaced,
      and profiles that were one per user stay so. */
  method UpdateProfile(profiles: Collection, userId: int, kwargs: map<string, Json>) returns (r: Result<Doc, HttpError>)
    modifies profiles
    ensures profiles.docs == SetFirst(old(profiles.docs), By(UserKey, JInt(userId)), kwargs)
    ensures GetProfile(old(profiles.docs), userId).Failure? ==> r == Failure(NoProfile)
    ensures r.Failure? ==> r.error == NoProfile
    ensures UserKey !in kwargs && GetProfile(old(profiles.docs), userId).Success? ==>
      r == Success(GetProfile(old(profiles.docs), userId).value + kwargs)
    ensures UserKey !in kwargs && Unique(old(profiles.docs), UserKey) ==> Unique(profiles.docs, UserKey)
  {
    ghost var before := profiles.docs;
    var q := By(UserKey, JInt(userId));
    var updated := profiles.Update(q, kwargs);
    if UserKey !in kwargs {
      if FirstMatch(before, q).Some? {
        SetThenFind(before, q, kwargs);
      }
      if Unique(before, UserKey) {
        SetKeepsUnique(before, q, kwargs, UserKey);
      }
    }
    if updated.None? {
      return Failure(NoProfile);
    }
    r := Success(updated.value);
  }
}
