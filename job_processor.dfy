/** logic/job_processor.py: cleaning a Mastodon post into a job description, the job record
    built from it, and the control flow of processing one post. The save into the job
    store is a parameter; the clock is the `now` parameter. */
module JobProcessor {
  import opened Wrappers
  import opened PyStr
  import opened PyJson
  import TextUtils
  import VectorStore

  // ---------------------------------------------------------------------------
  // re.sub(r'<.*?>', '', content)
  // ---------------------------------------------------------------------------

  /** Where the shortest `.*?>` starting at the front of `s` ends: the index of the first
      `>`, provided no newline (which `.` does not match) comes before it. */
  function Close(s: string): (r: Option<nat>)
    ensures r.Some? ==> r.value < |s| && s[r.value] == '>'
  {
    if s == [] || s[0] == '\n' then None
    else if s[0] == '>' then Some(0)
    else match Close(s[1..])
      case None => None
      case Some(k) => Some(k + 1)
  }

  /** Every `<` is left without a closing `>` on its own line: no tag is left to remove. */
  predicate NoTag(s: string) {
    forall i | 0 <= i < |s| && s[i] == '<' :: Close(s[i + 1..]).None?
  }

  /** `re.sub(r'<.*?>', '', t)`: scanning from the left, a `<` that has a `>` after it on
      the same line starts a tag, which is dropped up to and including the first such `>`;
      every other character is kept. */
  function RemoveTags(t: string): (r: string)
    ensures |r| <= |t|
    decreases |t|
  {
    if t == [] then []
    else if t[0] == '<' && Close(t[1..]).Some? then RemoveTags(t[Close(t[1..]).value + 2..])
    else [t[0]] + RemoveTags(t[1..])
  }

  /** A text with no `<` has no tag: removing tags leaves it as it is. */
  lemma {:induction false} RemoveTagsNoAngle(t: string)
    requires forall i | 0 <= i < |t| :: t[i] != '<'
    ensures RemoveTags(t) == t
    decreases |t|
  {
    if t != [] {
      RemoveTagsNoAngle(t[1..]);
    }
  }

  /** Newlines are never inside a tag, so a line with no `>` stays so after tag removal. */
  lemma {:induction false} RemoveTagsKeepsOpenLine(t: string)
    requires Close(t).None?
    ensures Close(RemoveTags(t)).None?
    decreases |t|
  {
    if t != [] && t[0] != '\n' {
      assert t[0] != '>';
      if t[0] == '<' {
        assert Close(t[1..]).None?;
      }
      RemoveTagsKeepsOpenLine(t[1..]);
      assert RemoveTags(t) == [t[0]] + RemoveTags(t[1..]);
    }
  }

  /** Tag removal leaves no tag behind. */
  lemma {:induction false} RemoveTagsLeavesNoTag(t: string)
    ensures NoTag(RemoveTags(t))
    decreases |t|
  {
    if t == [] {
    } else if t[0] == '<' && Close(t[1..]).Some? {
      RemoveTagsLeavesNoTag(t[Close(t[1..]).value + 2..]);
    } else {
      var rest := RemoveTags(t[1..]);
      var r := RemoveTags(t);
      RemoveTagsLeavesNoTag(t[1..]);
      assert r == [t[0]] + rest;
      forall i | 0 <= i < |r| && r[i] == '<' ensures Close(r[i + 1..]).None? {
        if i == 0 {
          RemoveTagsKeepsOpenLine(t[1..]);
          assert r[1..] == rest;
        } else {
          assert rest[i - 1] == '<';
          assert r[i + 1..] == rest[i..];
        }
      }
    }
  }

  /** Removing tags from a text that has none changes nothing. */
  lemma {:induction false} RemoveTagsOfNoTag(s: string)
    requires NoTag(s)
    ensures RemoveTags(s) == s
    decreases |s|
  {
    if s != [] {
      forall i | 0 <= i < |s[1..]| && s[1..][i] == '<' ensures Close(s[1..][i + 1..]).None? {
        assert s[1..][i + 1..] == s[i + 2..];
      }
      RemoveTagsOfNoTag(s[1..]);
    }
  }

  /** Removing tags is idempotent. */
  lemma RemoveTagsIdempotent(t: string)
    ensures RemoveTags(RemoveTags(t)) == RemoveTags(t)
  {
    RemoveTagsLeavesNoTag(t);
    RemoveTagsOfNoTag(RemoveTags(t));
  }

  // ---------------------------------------------------------------------------
  // re.sub(r'#\w+', '', text)
  // ---------------------------------------------------------------------------

  /** The end of the run of word characters starting at `i`. */
  function WordRunEnd(t: string, i: nat): (e: nat)
    requires i <= |t|
    ensures i <= e <= |t| && (e < |t| ==> !IsWordChar(t[e]))
    decreases |t| - i
  {
    if i < |t| && IsWordChar(t[i]) then WordRunEnd(t, i + 1) else i
  }

  /** A hashtag starts at `i`: a `#` followed by a word character. */
  predicate HashtagAt(s: string, i: nat)
    requires i < |s|
  {
    s[i] == '#' && i + 1 < |s| && IsWordChar(s[i + 1])
  }

  /** No hashtag occurs anywhere in `s`. */
  predicate NoHashtag(s: string) {
    forall i | 0 <= i < |s| :: !HashtagAt(s, i)
  }

  /** `re.sub(r'#\w+', '', t)`: each `#` followed by a word character is dropped together
      with the whole run of word characters after it. */
  function RemoveHashtags(t: string): (r: string)
    ensures |r| <= |t|
    decreases |t|
  {
    if t == [] then []
    else if HashtagAt(t, 0) then RemoveHashtags(t[WordRunEnd(t, 1)..])
    else [t[0]] + RemoveHashtags(t[1..])
  }

  /** A text that starts with no word character still does after hashtag removal. */
  lemma {:induction false} RemoveHashtagsFront(t: string)
    requires t != [] ==> !IsWordChar(t[0])
    ensures var r := RemoveHashtags(t); r != [] ==> !IsWordChar(r[0])
    decreases |t|
  {
    if t != [] && HashtagAt(t, 0) {
      RemoveHashtagsFront(t[WordRunEnd(t, 1)..]);
    }
  }

  /** Hashtag removal leaves no hashtag behind: a `#` it keeps is followed by something
      other than a word character. */
  lemma {:induction false} RemoveHashtagsLeavesNone(t: string)
    ensures NoHashtag(RemoveHashtags(t))
    decreases |t|
  {
    if t == [] {
    } else if HashtagAt(t, 0) {
      RemoveHashtagsLeavesNone(t[WordRunEnd(t, 1)..]);
    } else {
      var rest := RemoveHashtags(t[1..]);
      var r := RemoveHashtags(t);
      assert r == [t[0]] + rest;
      RemoveHashtagsLeavesNone(t[1..]);
      if t[0] == '#' {
        RemoveHashtagsFront(t[1..]);
      }
      forall i | 0 <= i < |r| ensures !HashtagAt(r, i) {
        if i > 0 {
          assert r[i] == rest[i - 1];
          assert i + 1 < |r| ==> r[i + 1] == rest[i];
          assert !HashtagAt(rest, i - 1);
        }
      }
    }
  }

  /** Removing hashtags from a text that has none changes nothing. */
  lemma {:induction false} RemoveHashtagsOfNone(s: string)
    requires NoHashtag(s)
    ensures RemoveHashtags(s) == s
    decreases |s|
  {
    if s != [] {
      assert !HashtagAt(s, 0);
      forall i | 0 <= i < |s[1..]| ensures !HashtagAt(s[1..], i) {
        assert !HashtagAt(s, i + 1);
      }
      RemoveHashtagsOfNone(s[1..]);
    }
  }

  /** Removing hashtags is idempotent. */
  lemma RemoveHashtagsIdempotent(t: string)
    ensures RemoveHashtags(RemoveHashtags(t)) == RemoveHashtags(t)
  {
    RemoveHashtagsLeavesNone(t);
    RemoveHashtagsOfNone(RemoveHashtags(t));
  }

  // ---------------------------------------------------------------------------
  // extract_job_description
  // ---------------------------------------------------------------------------

  /** Every character of a run found by `SpaceRunEnd` is whitespace. */
  lemma {:induction false} SpaceRunAll(t: string, i: nat)
    requires i <= |t|
    ensures forall k | i <= k < TextUtils.SpaceRunEnd(t, i) :: IsSpace(t[k])
    decreases |t| - i
  {
    if i < |t| && IsSpace(t[i]) {
      SpaceRunAll(t, i + 1);
    }
  }

  /** Collapsing whitespace keeps a text non-empty, and its last character is whitespace
      exactly when the text's is. */
  lemma {:induction false} CollapseLast(t: string)
    requires t != []
    ensures var r := TextUtils.CollapseSpaces(t);
      r != [] && (IsSpace(r[|r| - 1]) <==> IsSpace(t[|t| - 1]))
    decreases |t|
  {
    var r := TextUtils.CollapseSpaces(t);
    if IsSpace(t[0]) {
      var e := TextUtils.SpaceRunEnd(t, 0);
      var rest := TextUtils.CollapseSpaces(t[e..]);
      assert r == [' '] + rest;
      if e == |t| {
        SpaceRunAll(t, 0);
        assert rest == [];
      } else {
        CollapseLast(t[e..]);
        assert r[|r| - 1] == rest[|rest| - 1];
      }
    } else {
      var rest := TextUtils.CollapseSpaces(t[1..]);
      assert r == [t[0]] + rest;
      if |t| > 1 {
        CollapseLast(t[1..]);
        assert r[|r| - 1] == rest[|rest| - 1];
      }
    }
  }

  /** Collapsing whitespace creates no hashtag: it only turns whitespace into spaces. */
  lemma {:induction false} CollapseKeepsNoHashtag(t: string)
    requires NoHashtag(t)
    ensures NoHashtag(TextUtils.CollapseSpaces(t))
    decreases |t|
  {
    if t != [] {
      var r := TextUtils.CollapseSpaces(t);
      forall i | 0 <= i < |t[1..]| ensures !HashtagAt(t[1..], i) {
        assert !HashtagAt(t, i + 1);
      }
      if IsSpace(t[0]) {
        var e := TextUtils.SpaceRunEnd(t, 0);
        var rest := TextUtils.CollapseSpaces(t[e..]);
        forall i | 0 <= i < |t[e..]| ensures !HashtagAt(t[e..], i) {
          assert !HashtagAt(t, e + i);
        }
        CollapseKeepsNoHashtag(t[e..]);
        assert r == [' '] + rest;
        forall i | 0 <= i < |r| ensures !HashtagAt(r, i) {
          if i > 0 {
            assert !HashtagAt(rest, i - 1);
          }
        }
      } else {
        var rest := TextUtils.CollapseSpaces(t[1..]);
        CollapseKeepsNoHashtag(t[1..]);
        assert r == [t[0]] + rest;
        forall i | 0 <= i < |r| ensures !HashtagAt(r, i) {
          if i == 0 && t[0] == '#' && |r| > 1 {
            assert !HashtagAt(t, 0);
            if IsSpace(t[1]) {
              assert rest[0] == ' ';
            } else {
              assert rest[0] == t[1];
            }
          } else if i > 0 {
            assert !HashtagAt(rest, i - 1);
          }
        }
      }
    }
  }

  /** Stripping keeps a text free of hashtags: it keeps a contiguous piece of it. */
  lemma StripKeepsNoHashtag(s: string)
    requires NoHashtag(s)
    ensures NoHashtag(Strip(s))
  {
    var a := StripOffset(s);
    var r := Strip(s);
    forall i | 0 <= i < |r| ensures !HashtagAt(r, i) {
      assert !HashtagAt(s, a + i);
    }
  }

  /** The text after tag removal, stripping, hashtag removal and stripping again. */
  function Cleaned(content: string): string {
    Strip(RemoveHashtags(Strip(RemoveTags(content))))
  }

  /** `extract_job_description(content)`: the cleaned text with each whitespace run
      collapsed to one space, or None when nothing is left. The description is non-empty,
      starts and ends with a non-whitespace character, uses no whitespace but the plain
      space, never has two spaces in a row, and holds no hashtag. */
  function JobDescription(content: string): (r: Option<string>)
    ensures r.None? <==> Cleaned(content) == []
    ensures r.Some? ==> var d := r.value;
      d != [] && !IsSpace(d[0]) && !IsSpace(d[|d| - 1])
      && (forall k | 0 <= k < |d| :: IsSpace(d[k]) ==> d[k] == ' ')
      && (forall k | 0 <= k < |d| - 1 :: !(IsSpace(d[k]) && IsSpace(d[k + 1])))
      && NoHashtag(d)
  {
    var s := Cleaned(content);
    var d := TextUtils.CollapseSpaces(s);
    if d == [] then
      assert s == [] by {
        if s != [] {
          CollapseLast(s);
        }
      }
      None
    else
      CollapseLast(s);
      RemoveHashtagsLeavesNone(Strip(RemoveTags(content)));
      StripKeepsNoHashtag(RemoveHashtags(Strip(RemoveTags(content))));
      CollapseKeepsNoHashtag(s);
      Some(d)
  }

  // ---------------------------------------------------------------------------
  // create_job_data
  // ---------------------------------------------------------------------------

  const StatusUrlPrefix: string := "https://mastodonuet.duckdns.org/web/statuses/"

  /** The job record `create_job_data` builds. */
  datatype JobData = JobData(
    title: string,
    description: string,
    company: string,
    location: string,
    requiredSkills: seq<string>,
    requiredExperienceYears: nat,
    employmentType: string,
    sourceUrl: string,
    postedBy: Json,
    postedDate: string)

  /** `create_job_data(job_text, poster_account)`, with `now` the formatted local time. The
      title, skills and experience are read from the same text the record describes; the
      company and location are not extracted, the employment type is a fixed default, the
      source URL points at the poster's status and the poster defaults to "Unknown". */
  function CreateJobData(jobText: string, account: seq<(string, Json)>, show: Json -> string, now: string): (r: JobData)
    ensures r.description == jobText
    ensures r.title == TextUtils.JobTitle(jobText)
    ensures r.requiredSkills == TextUtils.SkillsIn(Lower(jobText), TextUtils.TechSkills)
    ensures r.requiredExperienceYears == TextUtils.ExperienceRequirement(jobText)
    ensures r.company == "Unknown" && r.location == "Unknown" && r.employmentType == "Full-time"
    ensures StartsWith(r.sourceUrl, StatusUrlPrefix)
    ensures "id" !in KeyList(account) ==> r.sourceUrl == StatusUrlPrefix
    ensures "acct" !in KeyList(account) ==> r.postedBy == JStr("Unknown")
    ensures r.postedDate == now
  {
    var url := StatusUrlPrefix + Str(Get(account, "id", JStr("")), show);
    assert url[..|StatusUrlPrefix|] == StatusUrlPrefix;
    JobData(
      TextUtils.JobTitle(jobText),
      jobText,
      "Unknown",
      "Unknown",
      TextUtils.SkillsIn(Lower(jobText), TextUtils.TechSkills),
      TextUtils.ExperienceRequirement(jobText),
      "Full-time",
      url,
      Get(account, "acct", JStr("Unknown")),
      now)
  }

  // ---------------------------------------------------------------------------
  // process_job_post
  // ---------------------------------------------------------------------------

  /** What `process_job_post` returns: the saved job, or the failure message. */
  datatype Outcome =
    | Processed(jobId: string, jobText: string, jobData: JobData)
    | Rejected(error: string)

  const NoDescription: string := "No job description found"
  const SaveFailed: string := "Failed to save job description"

  /** `process_job_post(post_content, poster_account)`, where `save` is what
      `save_job_to_database` returns for a record (None when it fails). A post with no
      description is rejected before anything is saved; a save that gives no id rejects it;
      otherwise the outcome carries the id, the description and the record that was
      saved. */
  function ProcessJobPost(content: string, account: seq<(string, Json)>, show: Json -> string, now: string,
                          save: JobData -> Option<string>): (r: Outcome)
    ensures JobDescription(content).None? <==> r == Rejected(NoDescription)
    ensures r.Processed? <==> (JobDescription(content).Some?
      && var id := save(CreateJobData(JobDescription(content).value, account, show, now)); id.Some? && id.value != "")
    ensures r.Processed? ==> (r.jobText == JobDescription(content).value
      && r.jobData == CreateJobData(r.jobText, account, show, now)
      && save(r.jobData) == Some(r.jobId) && r.jobId != "")
    ensures r.Rejected? ==> r.error in {NoDescription, SaveFailed}
  {
    match JobDescription(content)
    case None => Rejected(NoDescription)
    case Some(text) =>
      var job := CreateJobData(text, account, show, now);
      match save(job)
      case None => Rejected(SaveFailed)
      case Some(id) => if id == "" then Rejected(SaveFailed) else Processed(id, text, job)
  }

  /** A post with no description never reaches the save: the outcome is the same whatever
      the store would have done. */
  lemma NoSaveWithoutDescription(content: string, account: seq<(string, Json)>, show: Json -> string, now: string,
                                 save1: JobData -> Option<string>, save2: JobData -> Option<string>)
    requires JobDescription(content).None?
    ensures ProcessJobPost(content, account, show, now, save1) == ProcessJobPost(content, account, show, now, save2)
  {
  }

  /** The dictionary `create_job_data` returns, with its keys in the order written. */
  function JobDict(j: JobData): (r: seq<(string, Json)>)
    ensures |r| == 10
    ensures Get(r, "required_skills", JNull) == JList(JStrs(j.requiredSkills))
  {
    var r := [("title", JStr(j.title)), ("description", JStr(j.description)), ("company", JStr(j.company)),
              ("location", JStr(j.location)), ("required_skills", JList(JStrs(j.requiredSkills))),
              ("required_experience_years", JInt(j.requiredExperienceYears)),
              ("employment_type", JStr(j.employmentType)), ("source_url", JStr(j.sourceUrl)),
              ("posted_by", j.postedBy), ("posted_date", JStr(j.postedDate))];
    LookupBefore(r, 5, "required_skills");
    r
  }

  /** With `save_job_to_database` as the store, a post that has a description is processed
      exactly when the collection accepts the record, and the outcome carries the id the
      store made: the skills of a built record are strings, so building its embedding text
      never raises. */
  lemma ProcessJobPostSaved(content: string, account: seq<(string, Json)>, show: Json -> string, now: string,
                            hex: string, added: bool)
    requires |hex| == 32 && VectorStore.IsHex(hex)
    requires JobDescription(content).Some?
    ensures var r := ProcessJobPost(content, account, show, now, j => VectorStore.SaveJob(JobDict(j), hex, show, added));
      (r.Processed? <==> added) && (r.Processed? ==> r.jobId == VectorStore.JobId(hex))
  {
    var save := j => VectorStore.SaveJob(JobDict(j), hex, show, added);
    var job := CreateJobData(JobDescription(content).value, account, show, now);
    RecordSaved(job, hex, show, added);
    assert save(job).Some? <==> added;
  }

  /** A built record is saved exactly when the collection accepts it. */
  lemma RecordSaved(job: JobData, hex: string, show: Json -> string, added: bool)
    requires |hex| == 32 && VectorStore.IsHex(hex)
    ensures VectorStore.SaveJob(JobDict(job), hex, show, added).Some? <==> added
    ensures added ==> VectorStore.SaveJob(JobDict(job), hex, show, added) == Some(VectorStore.JobId(hex))
  {
    var skills := Get(JobDict(job), "required_skills", JNull);
    assert skills.JList? && forall i | 0 <= i < |skills.items| :: skills.items[i].JStr?;
    VectorStore.SaveJobSucceeds(JobDict(job), hex, show, added);
  }
}
