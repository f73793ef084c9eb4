/** `CandidateRepository`: the `candidate_profiles` collection, looked up by `user_id`. */
module CandidateRepository {
  import opened Wrappers
  import opened PyJson
  import opened Documents

  const UserKey := "user_id"

  /** The stored `CandidateProfile` as `create` builds it. */
  function ProfileDoc(userId: int, fullName: string, location: Option<string>, experienceYears: int,
                      skills: seq<string>, summary: Option<string>): Doc
  {
    map[UserKey := JInt(userId), "full_name" := JStr(fullName), "location" := OptStr(location),
        "experience_years" := JInt(experienceYears), "skills" := Strs(skills), "summary" := OptStr(summary)]
  }

  /** `create(...)`: inserts the profile whether or not the user already has one, so the
      user's profiles grow by exactly one; nothing else changes. */
  method Create(profiles: Collection, userId: int, fullName: string, location: Option<string>, experienceYears: int,
                skills: seq<string>, summary: Option<string>)
    returns (profile: Doc)
    modifies profiles
    ensures profile == ProfileDoc(userId, fullName, location, experienceYears, skills, summary)
    ensures profiles.docs == old(profiles.docs) + [profile]
    ensures FindAll(profiles.docs, By(UserKey, JInt(userId)))
         == FindAll(old(profiles.docs), By(UserKey, JInt(userId))) + [profile]
  {
    profile := ProfileDoc(userId, fullName, location, experienceYears, skills, summary);
    InsertedIsListed(profiles.docs, By(UserKey, JInt(userId)), profile);
    profiles.Insert(profile);
  }
}
