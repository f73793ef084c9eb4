/** `RecruiterRepository`: the `recruiter_profiles` collection, looked up by `user_id`. */
module RecruiterRepository {
  import opened Wrappers
  import opened PyJson
  import opened Documents

  const UserKey := "user_id"

  /** The stored `RecruiterProfile` as `create` builds it. */
  function ProfileDoc(userId: int, companyName: string, recruiterTitle: string, companyLogo: Option<string>,
                      aboutCompany: Option<string>, hiringFields: seq<string>): Doc
  {
    map[UserKey := JInt(userId), "company_name" := JStr(companyName), "recruiter_title" := JStr(recruiterTitle),
        "company_logo" := OptStr(companyLogo), "about_company" := OptStr(aboutCompany),
        "hiring_fields" := Strs(hiringFields)]
  }

  /** `create(...)`: inserts the profile whether or not the user already has one, so the
      user's profiles grow by exactly one; nothing else changes. */
  method Create(profiles: Collection, userId: int, companyName: string, recruiterTitle: string,
                companyLogo: Option<string>, aboutCompany: Option<string>, hiringFields: seq<string>)
    returns (profile: Doc)
    modifies profiles
    ensures profile == ProfileDoc(userId, companyName, recruiterTitle, companyLogo, aboutCompany, hiringFields)
    ensures profiles.docs == old(profiles.docs) + [profile]
    ensures FindAll(profiles.docs, By(UserKey, JInt(userId)))
         == FindAll(old(profiles.docs), By(UserKey, JInt(userId))) + [profile]
  {
    profile := ProfileDoc(userId, companyName, recruiterTitle, companyLogo, aboutCompany, hiringFields);
    InsertedIsListed(profiles.docs, By(UserKey, JInt(userId)), profile);
    profiles.Insert(profile);
  }
}
