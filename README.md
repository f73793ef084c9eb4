# Verified model of the job-matching platform's core

This project models the deterministic core of a job-matching platform: a React client with a
FastAPI/Mongo back end, plus a retrieval-augmented pipeline that parses resumes and job posts,
scores them and ranks matches. The model keeps the sequential logic. It replaces the language
model, the embedding model, the vector database, HTTP, the clock and uuids with parameters.

What is modelled, one Dafny module per source file:

- **Client onboarding wizard.** `OnboardingPage.Wizard` is a class holding the step, the role
  and the answers. `HandleNext` and `HandleBack` are proved against a pure transition function.
  Backend calls go into a ghost call log, and each call's outcome is a parameter.
  - The candidate and recruiter flow screens (`CandidateFlow`, `RecruiterFlow`) are classes
    over their state. They have list-as-set add/remove operations, per-step "Next enabled"
    predicates and payload builders.
  - The model keeps three quirks of the code: a missing user id reads as `Number(null) = 0`;
    the terminal steps do not store the merged answers; the completion screens call the
    profile APIs themselves.
- **Client normalisation and validation.**
  - `normalizeExperience` and the snake_case payload builders (`UsersApi`, `CvsApi`).
  - The ordered sign-in checks, with a hand-written email recogniser (`SignIn`).
  - The case-insensitive list filters (`MatchingTracker`, `CandidateManager`).
- **Resume and job-post parsing.**
  - Highlight filtering and refinement (`ResumeHighlights`).
  - Date arithmetic of `compute_years`, with today as a parameter, rounded to two decimals
    as Python's `round(x, 2)` does (`ResumeDates`, `PyRound`).
  - Schema validation and the extension dispatch (`ResumeSchema`).
  - The heading-based section splitter and the bullet and skill extractors (`TextSections`,
    `RagResumeParser`, `JobParser`).
  - Regular expressions are explicit character-class recognisers over strings. Python's
    `strip`, `split`, `lower` and order-preserving `dict.fromkeys` are defined in `PyStr`.
    JSON values, with objects as ordered key lists, are defined in `PyJson`.
- **Language-model replies.** Code-fence stripping, the brace-depth scanner that finds the
  first balanced JSON object, the sanitiser and the schema coercion (`LlmReply`,
  `LlmEvaluate`, `RagLlmEvaluate`). The two evaluators keep their different `"%"` score rules.
- **Text utilities, serialisers and scoring.**
  - Keyword, skill, experience and title extraction, and text normalisation (`TextUtils`).
    The extra character filter of one skill extractor is kept.
  - The CV and job-description serialisers (`Embedder`).
  - Education ranking, location pick, experience sum, skill overlap, composite score and
    metadata (`Scoring`). The three copies differ in their `"Unknown"` or `""` defaults and in
    rounding, and these are parameters.
  - The similarity-threshold filters, id formats, metadata and CV and job saves of the vector
    stores (`VectorStore`).
  - The job-post cleaner and job record (`JobProcessor`).
  - The CV search query and the ranking of matched jobs (`CvJobMatcher`).
- **In-memory matching store.** `MatchingLogic.MatchingStore` is a class holding the CV and
  job-description maps. The score is an abstract function, and top-k ranking is a stable
  descending sort (`Ranking`).
- **Server data layer.** A Mongo collection is a `Documents.Collection` class over a sequence
  of documents.
  - Every repository is modelled: users, CVs, jobs, applications, matches, candidate and
    recruiter profiles. They allocate ids as max+1, report found or not found on update and
    delete, and upsert matches keyed by the (cv_id, job_id) pair.
  - The user, candidate and recruiter services add the duplicate checks: email for users,
    user_id for profiles.
  - The repositories use `cv_id`, `job_id` and `app_id` as the model does, although the data
    models declare `id`.

Near-duplicate files are each modelled and cite their own lines. Where their bodies are
identical, they share one definition.

Python floats are Dafny `real`s. Integer division and `int()` truncation are written out.

## Model

| member | source | states |
|---|---|---|
| UsersApi.AuthHeader | app/client/src/api/users.ts:15-21 | an Authorization header exactly when a non-empty token is stored, and its value is "Bearer " + token; no other header |
| UsersApi.RemoveFirstPlus | app/client/src/api/users.ts:72 | `replace("+", "")` removes only the first `+`: unchanged without one, one character shorter with one |
| UsersApi.NormalizeExperience | app/client/src/api/users.ts:65-86 | a missing or empty answer gives `null` |
| UsersApi.NormalizeOfTrimmed | app/client/src/api/users.ts:68 | an answer that is already trimmed goes straight to the shape analysis |
| UsersApi.NumberTextOfDigits | app/client/src/api/users.ts:84-85 | `String(parseInt(s))` on text that starts with k digits is those digits without leading zeros |
| UsersApi.NormalizeDigits | app/client/src/api/users.ts:84-85 | a non-empty digit string normalises to its numeric value's text |
| UsersApi.NormalizeNumber | app/client/src/api/users.ts:84-85 | the text of a whole number normalises to itself |
| UsersApi.NormalizeOpenRangeForm | app/client/src/api/users.ts:71-74 | digits followed by one `+` normalise to the digits' value |
| UsersApi.NormalizeDigitsTrimmed | app/client/src/api/users.ts:84-85 | parsing a digit string and printing it gives the digits without leading zeros |
| UsersApi.NormalizeOpenRange | app/client/src/api/users.ts:71-74 | "n+" normalises to "n" for every n |
| UsersApi.NormalizeRangeForm | app/client/src/api/users.ts:77-81 | digits followed by a dash normalise to the digits' value, whatever follows |
| UsersApi.NormalizeDigitsNoShape | app/client/src/api/users.ts:83-85 | a digit string takes the plain-number branch |
| UsersApi.NormalizeTrimmedRange | app/client/src/api/users.ts:77-81 | the range branch of a trimmed answer reads the digits before the dash |
| UsersApi.RemoveFirstPlusKeepsHead | app/client/src/api/users.ts:72 | removing the first `+` keeps a prefix that has no `+` |
| UsersApi.NormalizeRange | app/client/src/api/users.ts:77-81 | "n-m" normalises to "n" for every n and every m |
| UsersApi.NormalizeNegative | app/client/src/api/users.ts:77-80 | a trimmed answer that starts with a dash ("-5") is read as a range with an empty lower end and gives `null` |
| UsersApi.NormalizeWords | app/client/src/api/users.ts:66-85 | an answer without digits, signs or dashes ("abc") gives `null` |
| UsersApi.NormalizePadded | app/client/src/api/users.ts:68 | whitespace around an answer is ignored (" 7 " reads as "7") |
| UsersApi.CandidatePayload | app/client/src/api/users.ts:105-111 | exactly the five back-end keys; `full_name` is the cached name or "none" when it is missing or empty, never empty; the other answers are copied, `null` when absent; experience goes through `normalizeExperience` |
| UsersApi.RecruiterPayload | app/client/src/api/users.ts:144-150 | exactly the five back-end keys, each the camelCase answer or `null` |
| CvsApi.AuthHeader | app/client/src/api/cvs.ts:34-41 | a bearer header exactly when storage does not throw and a non-empty token is stored; no other header |
| CvsApi.MapBackendCv | app/client/src/api/cvs.ts:56-68 | the mapped `Cv` has exactly the client's nine keys |
| CvsApi.MappedCvCopies | app/client/src/api/cvs.ts:57-66 | `id`, `userId`, `title`, `experienceYears` and `createdAt` copy their snake_case fields unchanged |
| CvsApi.MappedCvDefaults | app/client/src/api/cvs.ts:60-65 | `location`, `summary` and `fullText` default to `null` when missing or null, `skills` to `[]` when not an array |
| CvsApi.SnakePayload | app/client/src/api/cvs.ts:70-79 | a back-end key is present exactly when its camelCase field is present and not `undefined`, and then carries that field's value unchanged |
| CvsApi.CopyAllIsSnakePayload | app/client/src/api/cvs.ts:71-78 | copying the six fields one by one gives exactly that body |
| CvsApi.CopyAllAt | app/client/src/api/cvs.ts:72-77 | each guarded copy sets its key exactly when the field is present and defined |
| CvsApi.BuildSnakePayload | app/client/src/api/cvs.ts:70-79 | the method's body equals the reference body |
| CvsApi.SnakePayloadOfEmpty | app/client/src/api/cvs.ts:70-79 | an empty payload, or one whose fields are all `undefined`, gives an empty body |
| CvsApi.SnakePayloadOfMappedCv | app/client/src/api/cvs.ts:56-79 | a received CV sent back unchanged reproduces the back end's own fields |
| CvsApi.WrapError | app/client/src/api/cvs.ts:100-103 | an error with a `status` is rethrown unchanged, any other is wrapped as a status-0 network error; the result always has a `status` |
| CvsApi.WrapErrorIdempotent | app/client/src/api/cvs.ts:100-103 | wrapping twice is wrapping once |
| CvsApi.DeleteCvResult | app/client/src/api/cvs.ts:155-171 | a request or body that fails rejects through the `catch` wrapper; a non-ok response rejects with its status, `json?.detail ?? statusText` as message and the body as details; an ok one resolves to `{status: String(json.status ?? "")}`; a `null` body rejects as a network error; every rejection has a `status` |
| CvsApi.UnparsedBodyIsNetworkError | app/client/src/api/cvs.ts:161-169 | a body that does not parse rejects with status 0 and "Network or parsing error", whatever the response's status |
| CvsApi.DeleteCvOfBackendReply | app/client/src/api/cvs.ts:161-166 | the back end's `{"message": "CV deleted"}` resolves to an empty status |
| SignIn.IsValidEmailMatchesPattern | app/client/src/components/authComponents/SignIn.tsx:27-28 | the hand-written recogniser accepts exactly what `^[^\s@]+@[^\s@]+\.[^\s@]+$` matches (both directions) |
| SignIn.ValidEmailMatches | app/client/src/components/authComponents/SignIn.tsx:27-28 | every string the recogniser accepts matches the pattern |
| SignIn.PatternIsValid | app/client/src/components/authComponents/SignIn.tsx:27-28 | every string the pattern matches is accepted by the recogniser |
| SignIn.ValidationError | app/client/src/components/authComponents/SignIn.tsx:23-39 | the first failing check in source order: email required, email invalid, password required, password shorter than 6; none exactly when all pass |
| SignIn.BlankPasswordIsMissing | app/client/src/components/authComponents/SignIn.tsx:32-39 | a password of spaces is reported as missing, never as too short |
| SignIn.ValidEmailIsNotBlank | app/client/src/components/authComponents/SignIn.tsx:23-31 | an email the pattern accepts is never blank |
| SignIn.SignInForm.constructor | app/client/src/components/authComponents/SignIn.tsx:11-16 | empty fields, not loading, no error, no token, no login call |
| SignIn.SignInForm.HandleSignIn | app/client/src/components/authComponents/SignIn.tsx:18-50 | a failed check sets its message and calls nothing; otherwise exactly one login call with the fields, `loading` false afterwards, and the token or the error message ("Sign in failed" by default) from the outcome |
| SignIn.SignInForm.Login | app/client/src/components/authComponents/SignIn.tsx:41-49 | exactly one login call with the fields; `loading` false afterwards; a resolved call stores its token (none when absent) and keeps the error, a rejected one keeps the token and sets its message or "Sign in failed" |
| MatchingTracker.FilteredJobs | app/client/src/components/recruiterComponents/MatchingTracker.tsx:77-81 | exactly the jobs whose title, a tag or a top skill contains the query case-insensitively, in their order |
| MatchingTracker.EmptyQueryKeepsAll | app/client/src/components/recruiterComponents/MatchingTracker.tsx:77-81 | an empty query keeps every job |
| MatchingTracker.EmptyStateIffNoMatch | app/client/src/components/recruiterComponents/MatchingTracker.tsx:240 | the empty state shows exactly when no job matches |
| CandidateManager.FilteredCandidates | app/client/src/components/recruiterComponents/CandidateManager.tsx:20-24 | exactly the candidates whose name, role or a skill contains the query case-insensitively, in their order |
| CandidateManager.EmptyQueryKeepsAll | app/client/src/components/recruiterComponents/CandidateManager.tsx:20-24 | an empty query keeps every candidate |
| CandidateManager.LongerQueryNarrows | app/client/src/components/recruiterComponents/CandidateManager.tsx:20-24 | extending the query keeps a subsequence of the previous result |
| ListSet.AddIfNew | app/client/src/components/onboardingComponents/CandidateFlow.tsx:37-42 | a non-empty item not yet listed is appended; otherwise the list is unchanged |
| ListSet.RemoveAll | app/client/src/components/onboardingComponents/CandidateFlow.tsx:44-46 | every occurrence of the item goes and the rest keep their order |
| ListSet.Suggestions | app/client/src/components/onboardingComponents/CandidateFlow.tsx:228-229 | exactly the fixed suggestions not yet chosen, in suggestion order |
| ListSet.FilterNoDups | app/client/src/components/onboardingComponents/CandidateFlow.tsx:45 | filtering a duplicate-free list keeps it duplicate-free |
| ListSet.AddKeepsNoDups | app/client/src/components/onboardingComponents/CandidateFlow.tsx:37-42 | adding keeps a duplicate-free list duplicate-free |
| ListSet.EditsKeepNoDups | app/client/src/components/onboardingComponents/RecruiterFlow.tsx:26-35 | any sequence of adds and removes keeps a duplicate-free list duplicate-free |
| ListSet.RemoveAbsent | app/client/src/components/onboardingComponents/RecruiterFlow.tsx:33-35 | removing an absent item changes nothing |
| ListSet.RemoveIdempotent | app/client/src/components/onboardingComponents/RecruiterFlow.tsx:33-35 | removing twice is removing once |
| ListSet.RemoveUndoesAdd | app/client/src/components/onboardingComponents/CandidateFlow.tsx:37-46 | removing a freshly added item restores the list |
| ListSet.AddThenPresent | app/client/src/components/onboardingComponents/RecruiterFlow.tsx:26-31 | an added non-empty item is present, and adding it again changes nothing |
| ListSet.FilterAppend | app/client/src/components/onboardingComponents/RecruiterFlow.tsx:246-247 | filtering a concatenation filters each part |
| ListSet.SuggestionsAfterAdd | app/client/src/components/onboardingComponents/RecruiterFlow.tsx:246-247 | choosing an item removes exactly it from the suggestions |
| OnboardingAnswers.Merge | app/client/src/components/OnBoardingPage.tsx:45 | no step data keeps the answers; otherwise the keys are the union, the step data wins, and keys it lacks keep their values |
| OnboardingAnswers.StrList | app/client/src/components/OnBoardingPage.tsx:68 | a list answer of strings reads back item by item; anything else is rejected |
| OnboardingAnswers.StrListOfStrItems | app/client/src/components/OnBoardingPage.tsx:68 | a list of strings stored as an answer reads back unchanged |
| OnboardingAnswers.TextAnswerOfMerge | app/client/src/components/OnBoardingPage.tsx:45 | a text merged under one key is read back there and leaves the other keys' texts alone |
| OnboardingAnswers.ListAnswerOfMerge | app/client/src/components/OnBoardingPage.tsx:45 | a list merged under a key is read back unchanged |
| OnboardingAnswers.MergeOther | app/client/src/components/OnBoardingPage.tsx:45 | merging one key leaves every other key's answer as it was |
| OnboardingPage.RoleOf | app/client/src/components/OnBoardingPage.tsx:61-62 | the role is "candidate" or "recruiter" exactly when the answer holds that string |
| OnboardingPage.Transition | app/client/src/components/OnBoardingPage.tsx:44-94 | at most one backend call; without a call the step grows by one and the merged answers are stored; a call needs a truthy user id |
| OnboardingPage.TotalSteps | app/client/src/components/OnBoardingPage.tsx:102-106 | 8 for a candidate, 7 for a recruiter, 1 otherwise |
| OnboardingPage.Wizard.constructor | app/client/src/components/OnBoardingPage.tsx:35-36 | step 0, role unset, no other answers, no calls |
| OnboardingPage.Wizard.HandleRoleSelect | app/client/src/components/OnBoardingPage.tsx:39-41 | only the role answer changes; step and calls stay |
| OnboardingPage.Wizard.HandleNext | app/client/src/components/OnBoardingPage.tsx:44-94 | step, answers and call log become those of the transition |
| OnboardingPage.Wizard.HandleBack | app/client/src/components/OnBoardingPage.tsx:96-100 | a positive step decreases by one, step 0 stays; answers and calls are untouched |
| OnboardingPage.Wizard.Total | app/client/src/components/OnBoardingPage.tsx:102-106 | the total depends on the role alone, not on the step |
| OnboardingPage.CommitRole | app/client/src/components/OnBoardingPage.tsx:51-56 | at step 0 with a role and a usable id: exactly one role call; if it throws the step stays 0 and the answers are not stored, otherwise step 1 with the merged answers |
| OnboardingPage.CreateCandidateAtLastStep | app/client/src/components/OnBoardingPage.tsx:64-74 | candidate at step 7 with a usable id: exactly one candidate-profile call from the merged answers; step and stored answers unchanged |
| OnboardingPage.CreateRecruiterAtLastStep | app/client/src/components/OnBoardingPage.tsx:76-87 | recruiter at step 6 with a usable id: exactly one recruiter-profile call from the merged answers; step and stored answers unchanged |
| OnboardingPage.CallsOnlyAtEnds | app/client/src/components/OnBoardingPage.tsx:51-93 | a call is made exactly at step 0 with a role, step 7 as candidate or step 6 as recruiter, and only with a usable id |
| OnboardingPage.MissingUserIdJustAdvances | app/client/src/components/OnBoardingPage.tsx:46 | with no stored id (`Number(null)` is 0) every step just advances |
| OnboardingPage.NonNumericUserIdJustAdvances | app/client/src/components/OnBoardingPage.tsx:46 | a non-numeric stored id reads as NaN and every step just advances |
| OnboardingPage.LetterLeadIsNaN | app/client/src/components/OnBoardingPage.tsx:46 | `Number` of text starting with a letter is NaN |
| OnboardingPage.StoredUserIdUsable | app/client/src/components/OnBoardingPage.tsx:46 | a stored decimal id is usable exactly when it is not 0 |
| OnboardingPage.LastStepsUnreachableFromScreens | app/client/src/components/OnBoardingPage.tsx:61-62 | no screen's Next payload takes the wizard to step 7 (candidate) or 6 (recruiter): the profile calls come from the completion screens |
| CandidateFlow.CandidateScreen.constructor | app/client/src/components/onboardingComponents/CandidateFlow.tsx:14-20 | each field starts from the stored answer of that name (empty text or list when absent); the skill input starts empty |
| CandidateFlow.CandidateScreen.HandleAddSkill | app/client/src/components/onboardingComponents/CandidateFlow.tsx:37-42 | the skills become the add-if-new of the skill; the input clears only when the skill was added; other fields unchanged |
| CandidateFlow.CandidateScreen.HandleRemoveSkill | app/client/src/components/onboardingComponents/CandidateFlow.tsx:44-46 | every occurrence of the skill is removed; nothing else changes |
| CandidateFlow.CandidateScreen.HandleKeyPress | app/client/src/components/onboardingComponents/CandidateFlow.tsx:48-53 | Enter adds the typed skill as the add button would; any other key changes nothing |
| CandidateFlow.CandidateScreen.ChooseExperience | app/client/src/components/onboardingComponents/CandidateFlow.tsx:158-161 | the experience becomes the chosen level's value; nothing else changes |
| CandidateFlow.CandidateScreen.NextPayload | app/client/src/components/onboardingComponents/CandidateFlow.tsx:73 | screens 0-5 hand on exactly one answer, under that screen's key, holding that screen's field; other steps hand on nothing |
| CandidateFlow.CandidateScreen.NextEnabled | app/client/src/components/onboardingComponents/CandidateFlow.tsx:74 | Next is enabled exactly when the screen's text is not blank after trimming, an experience is chosen, or at least one skill is listed |
| CandidateFlow.CandidateScreen.ShownSuggestions | app/client/src/components/onboardingComponents/CandidateFlow.tsx:228-229 | exactly the suggested skills not yet chosen |
| CandidateFlow.FinishInput | app/client/src/components/onboardingComponents/CandidateFlow.tsx:293-299 | the profile call takes location, experience, skills and bio from the stored answers, absent ones as missing |
| CandidateFlow.EmptyTextBlocksNext | app/client/src/components/onboardingComponents/CandidateFlow.tsx:105 | an empty text on a text screen disables Next |
| CandidateFlow.NextThenRemount | app/client/src/components/onboardingComponents/CandidateFlow.tsx:14-20 | after Next merges a screen's payload, a fresh screen reads that field back unchanged |
| CandidateFlow.FinishInputOfScreens | app/client/src/components/onboardingComponents/CandidateFlow.tsx:293-299 | after all six screens the profile call carries exactly what was entered on them |
| CandidateFlow.FinishCarriesAnswers | app/client/src/components/onboardingComponents/CandidateFlow.tsx:293-299 | the request body holds the entered location, the normalised experience, the skills and the bio as summary, and no field or desired role |
| CandidateFlow.LevelsNormaliseToLowerBound | app/client/src/components/onboardingComponents/CandidateFlow.tsx:27-35 | each offered experience level normalises to its lower bound in years |
| CandidateFlow.TopLevelNormalises | app/client/src/components/onboardingComponents/CandidateFlow.tsx:34 | the "10+" level normalises to 10 |
| CandidateFlow.LevelNormalises | app/client/src/components/onboardingComponents/CandidateFlow.tsx:28-33 | a single-digit range level normalises to its lower digit |
| RecruiterFlow.RecruiterScreen.constructor | app/client/src/components/onboardingComponents/RecruiterFlow.tsx:14-19 | each field starts from the stored answer of that name (empty text or list when absent); the industry input starts empty |
| RecruiterFlow.RecruiterScreen.HandleAddIndustry | app/client/src/components/onboardingComponents/RecruiterFlow.tsx:26-31 | the industries become the add-if-new of the industry; the input clears only when it was added; other fields unchanged |
| RecruiterFlow.RecruiterScreen.HandleRemoveIndustry | app/client/src/components/onboardingComponents/RecruiterFlow.tsx:33-35 | every occurrence of the industry is removed; nothing else changes |
| RecruiterFlow.RecruiterScreen.HandleKeyPress | app/client/src/components/onboardingComponents/RecruiterFlow.tsx:37-42 | Enter adds the typed industry as the add button would; any other key changes nothing |
| RecruiterFlow.RecruiterScreen.HandleFileUpload | app/client/src/components/onboardingComponents/RecruiterFlow.tsx:44-53 | a read file's data URL becomes the logo; no file changes nothing |
| RecruiterFlow.RecruiterScreen.NextPayload | app/client/src/components/onboardingComponents/RecruiterFlow.tsx:75 | screens 0-4 hand on exactly one answer, under that screen's key, holding that screen's field; other steps hand on nothing |
| RecruiterFlow.RecruiterScreen.NextEnabled | app/client/src/components/onboardingComponents/RecruiterFlow.tsx:76 | Next is enabled exactly when the screen's text is not blank after trimming or an industry is listed; the logo screen is always enabled |
| RecruiterFlow.RecruiterScreen.LogoButtonLabel | app/client/src/components/onboardingComponents/RecruiterFlow.tsx:165 | the logo button reads "Skip" exactly when no logo is set, and "Next" otherwise |
| RecruiterFlow.RecruiterScreen.ShownSuggestions | app/client/src/components/onboardingComponents/RecruiterFlow.tsx:246-247 | exactly the suggested industries not yet chosen |
| RecruiterFlow.FinishInput | app/client/src/components/onboardingComponents/RecruiterFlow.tsx:281-287 | the profile call takes each of the five answers from the stored answers, absent ones as null |
| RecruiterFlow.NextThenRemount | app/client/src/components/onboardingComponents/RecruiterFlow.tsx:14-19 | after Next merges a screen's payload, a fresh screen reads that field back unchanged |
| RecruiterFlow.FinishInputOfScreens | app/client/src/components/onboardingComponents/RecruiterFlow.tsx:281-287 | after all five screens the profile call carries exactly what was entered on them |
| RecruiterFlow.ScreenPayloads | app/client/src/components/onboardingComponents/RecruiterFlow.tsx:75-263 | each screen's Next hands on its own field under its own key |
| RecruiterFlow.FinishCarriesAnswers | app/client/src/components/onboardingComponents/RecruiterFlow.tsx:281-287 | the request body maps each entered answer to its backend field |
| RecruiterFlow.SkippedLogoIsEmptyText | app/client/src/components/onboardingComponents/RecruiterFlow.tsx:162-165 | skipping the logo sends an empty text, not null |
| ResumeHighlights.Clean | logic/resume_parser.py:141 | the cleaned text has no whitespace at either end |
| ResumeHighlights.Texts | logic/resume_parser.py:141 | each raw item becomes its `str`, one for one |
| ResumeHighlights.KeptMembers | logic/resume_parser.py:140-149 | a text is kept exactly when it is the cleaned form of some item and has at least three words |
| ResumeHighlights.FilterHighlights | logic/resume_parser.py:132-150 | the kept cleaned texts, deduplicated in first-occurrence order: no repeats, and exactly the cleaned items of three or more words |
| ResumeHighlights.SplitClauses | logic/resume_parser.py:162 | splitting at commas and " and " gives at least one piece, and no piece holds a comma |
| ResumeHighlights.LongPiecesMembers | logic/resume_parser.py:163 | a piece is kept exactly when it is a stripped part of three or more words |
| ResumeHighlights.Normalize | logic/resume_parser.py:170-177 | at most one item comes out, and it is finished: non-empty, stripped, capitalised and ending in a full stop |
| ResumeHighlights.NormalizedAll | logic/resume_parser.py:169-177 | every normalised item is finished |
| ResumeHighlights.RefineHighlights | logic/resume_parser.py:153-179 | the split-then-normalised items, deduplicated: no repeats and every item finished |
| ResumeHighlights.SplitLong | logic/resume_parser.py:155-167 | the loop builds the refined list: items over the word limit split into clauses of three or more words, the others kept whole |
| ResumeHighlights.AppendEach | logic/resume_parser.py:164-165 | appending the kept clauses one by one adds exactly them, in order, after what was there |
| ResumeHighlights.NormalizeEach | logic/resume_parser.py:169-177 | the loop builds the normalised list |
| ResumeHighlights.RefineKeepsFinished | dataPreprocess/resumeParser.py:162-186 | a clean, finished item within the word limit comes out unchanged |
| ResumeHighlights.FilterKeepsCleanTexts | logic/resume_parser.py:140-150 | texts that are already clean and long enough are all kept, in order |
| ResumeHighlights.FilterNotIdempotent | logic/resume_parser.py:141 | a carriage return before a bullet survives one pass of the clean-up as a leading "- " that a second pass removes |
| ResumeHighlights.CleanBehindCarriageReturn | logic/resume_parser.py:141 | the bullet strip stops at a carriage return, and the final strip then leaves the bullet |
| ResumeHighlights.CleanAfterBullet | dataPreprocess/resumeParser.py:149 | a leading "- " is removed |
| ResumeHighlights.CleanFixed | logic/resume_parser.py:141 | the corrected clean-up leaves neither whitespace nor a bullet character at either end |
| ResumeHighlights.FilterFixed | logic/resume_parser.py:132-150 | the corrected filter yields no repeats |
| ResumeHighlights.FilterFixedIdempotent | logic/resume_parser.py:132-150 | the corrected filter is idempotent |
| ResumeDates.ParseMonth | logic/resume_parser.py:192-194 | a month that `%m` accepts lies between 1 and 12 |
| ResumeDates.ParseYear | logic/resume_parser.py:192-194 | a year that `%Y` accepts lies between 1 and 9999 |
| ResumeDates.ParseNumericDate | logic/resume_parser.py:192-197 | a date read as `YYYY-MM` or `YYYY` is a valid calendar month |
| ResumeDates.ParseDate | logic/resume_parser.py:187-197 | a falsy value is no date, a truthy non-string raises AttributeError, a string never raises, and a parsed date other than today is valid |
| ResumeDates.ComputeYears | logic/resume_parser.py:182-204 | a falsy start gives 0.0, a truthy non-string start raises, string or falsy dates never raise, and an unreadable start gives 0.0 |
| ResumeDates.ComputeYearsHundredths | logic/resume_parser.py:204 | the reported years always have at most two decimals |
| ResumeDates.FourDigitsValue | logic/resume_parser.py:192-194 | the four-digit text of a year reads back as that year |
| ResumeDates.FormatDate | logic/resume_parser.py:192 | the `YYYY-MM` text of a date is seven characters with the year first |
| ResumeDates.ParseFormatDate | logic/resume_parser.py:192-194 | a `YYYY-MM` text reads back as its date |
| ResumeDates.ParseYearOnly | logic/resume_parser.py:192-194 | a year alone reads as January of that year |
| ResumeDates.ParseMonthExactly | logic/resume_parser.py:192-194 | the month field accepts exactly the decimal month, with or without one leading zero |
| ResumeDates.ComputeYearsOfFormatted | logic/resume_parser.py:199-204 | two formatted dates give the difference in years plus the months' difference in twelfths, rounded to two decimals |
| ResumeDates.NextMonthIsRounded | logic/resume_parser.py:203-204 | consecutive months are reported as 0.08 years |
| ResumeDates.SameMonthIsZero | dataPreprocess/resumeParser.py:210 | a start and end in the same month give 0 |
| ResumeDates.MissingEndIsToday | dataPreprocess/resumeParser.py:207-211 | a missing or unreadable end counts up to today, rounded to two decimals |
| ResumeSchema.SchemaKeyList | logic/resume_parser.py:212-225 | the schema holds the twelve keys in order |
| ResumeSchema.Defaults | logic/resume_parser.py:227 | one pair per schema key, in schema order, holding the input's value or the schema's default |
| ResumeSchema.SetKey | logic/resume_parser.py:242 | assigning a key replaces its value in place and keeps the key order |
| ResumeSchema.LookupSetKey | logic/resume_parser.py:242 | the assigned key reads back the new value |
| ResumeSchema.LookupSetOtherKey | logic/resume_parser.py:242 | every other key reads back unchanged |
| ResumeSchema.GpaOfParts | logic/resume_parser.py:239 | a GPA written as decimal, dot, decimal, slash, decimal is accepted |
| ResumeSchema.FixEdu | logic/resume_parser.py:233-240 | a rebuilt education entry has exactly degree, school, gpa and year, and its gpa is empty or matches the GPA pattern |
| ResumeSchema.FixedEducation | logic/resume_parser.py:230-241 | every rebuilt entry has the four keys and a valid or empty gpa; none is built exactly when no item is a dictionary |
| ResumeSchema.FixEducation | logic/resume_parser.py:230-241 | the loop builds the rebuilt education list |
| ResumeSchema.EntryHighlights | logic/resume_parser.py:254 | the highlights succeed exactly when the value is iterable, and come out without repeats, every one finished |
| ResumeSchema.FixEntry | logic/resume_parser.py:247-257 | an entry raises exactly when its dates or highlights raise, and is kept exactly when it has a role, an organization or a highlight |
| ResumeSchema.FailureStays | logic/resume_parser.py:245-257 | once an entry raises, the whole loop raises that error |
| ResumeSchema.FixEntries | logic/resume_parser.py:245-258 | the loop builds the kept entries or stops at the first error |
| ResumeSchema.FixOne | logic/resume_parser.py:247-257 | the loop body rebuilds one entry as FixEntry does |
| ResumeSchema.FixedEntriesWorth | logic/resume_parser.py:256-257 | every kept entry is a rebuilt dictionary with a role, an organization or a highlight |
| ResumeSchema.StrippedNonEmptyMembers | logic/resume_parser.py:291 | a piece is kept exactly when it is a non-empty stripped part |
| ResumeSchema.CleanStringList | logic/resume_parser.py:288-295 | every item is non-empty and stripped; a value that is neither a string nor a list gives [] |
| ResumeSchema.CommaSeparatedSkills | logic/resume_parser.py:290-291 | a string value is split at commas, stripped and emptied pieces dropped |
| ResumeSchema.Assemble | logic/resume_parser.py:227-297 | the result has the twelve schema keys in order |
| ResumeSchema.Validated | logic/resume_parser.py:207-297 | a non-dictionary gives {}; a dictionary gives exactly the twelve schema keys |
| ResumeSchema.ValidateJson | logic/resume_parser.py:207-297 | the method computes the validated dictionary |
| ResumeSchema.SectionValue | logic/resume_parser.py:244-285 | the method builds one section's entries or its error |
| ResumeSchema.LookupAssemble | logic/resume_parser.py:242-295 | the rebuilt education, skills and languages are stored under their keys |
| ResumeSchema.EducationFallsBack | logic/resume_parser.py:242 | with no dictionary among the education items, the default education entry is kept |
| ResumeSchema.SkillsStringIsSplit | dataPreprocess/resumeParser.py:297-298 | a skills string becomes its comma-separated stripped non-empty pieces |
| ResumeSchema.LastIndexOf | logic/resume_parser.py:302 | the last position of the character, or none when it does not occur |
| ResumeSchema.Extension | logic/resume_parser.py:302 | the extension is empty or starts with a dot and holds no slash |
| ResumeSchema.PickExtractor | logic/resume_parser.py:302-308 | the lower-cased extension picks the PDF reader for .pdf, OCR for .png/.jpg/.jpeg, and ValueError otherwise |
| ResumeSchema.ParseResume | logic/resume_parser.py:300-312 | an unsupported extension raises ValueError; otherwise the result is the validated model answer |
| ResumeSchema.UpperCasePdfAccepted | dataPreprocess/resumeParser.py:309-310 | a ".PDF" file goes to the PDF reader |
| ResumeSchema.HiddenFileRefused | dataPreprocess/resumeParser.py:308-315 | a name that only starts with a dot has no extension and is refused |
| TextSections.RunEnd | app/server/ragmodel/dataPreprocess/resumeParser.py:43 | the run of `[:\s]` characters from k ends at the first character outside the class |
| TextSections.AfterLastNewline | app/server/ragmodel/dataPreprocess/resumeParser.py:43 | the position after the last newline inside the run, or none when it holds no newline |
| TextSections.HeadingTail | app/server/ragmodel/dataPreprocess/resumeParser.py:43 | the heading's tail is a run of colons and whitespace that ends in a newline |
| TextSections.Alternative | app/server/ragmodel/dataPreprocess/resumeParser.py:43 | the first heading name, in list order, that matches at the position and is followed by its tail |
| TextSections.MatchAt | app/server/ragmodel/dataPreprocess/resumeParser.py:43-44 | a match starts at the position, its name starts a line, and it ends just after a newline |
| TextSections.NextMatch | app/server/ragmodel/dataPreprocess/resumeParser.py:44 | the leftmost match at or after the position; no match starts before it |
| TextSections.Flatten | app/server/ragmodel/dataPreprocess/resumeParser.py:44 | the split list alternates each heading with the text after it |
| TextSections.FindSection | app/server/ragmodel/dataPreprocess/resumeParser.py:39-51 | the loop builds the section map of the split |
| TextSections.SectionLoop | app/server/ragmodel/dataPreprocess/resumeParser.py:46-50 | walking the split from index 1 in steps of two builds the section map of its heading/body pairs |
| TextSections.HeadingsAreNames | app/server/ragmodel/dataPreprocess/resumeParser.py:44 | every heading the split captures is one of the names, ignoring case |
| TextSections.SectionMapKeys | app/server/ragmodel/dataPreprocess/resumeParser.py:46-50 | a key is in the map exactly when some captured heading lower-cases to it |
| TextSections.SectionMapLastWins | app/server/ragmodel/dataPreprocess/resumeParser.py:50 | a heading that occurs again later is overwritten; the last one keeps its stripped text |
| TextSections.SectionKeysAreNames | app/server/ragmodel/dataPreprocess/resumeParser.py:48 | every key of the map is the lower-cased form of one of the names |
| TextSections.OneSection | app/server/ragmodel/dataPreprocess/resumeParser.py:39-51 | a text made of one heading, a colon, a newline and a body maps that heading to the stripped body |
| TextSections.NoMatchFrom | app/server/ragmodel/dataPreprocess/resumeParser.py:44 | with no match from the position onwards, the split finds none |
| TextSections.ExtractBullets | app/server/ragmodel/dataPreprocess/resumeParser.py:78-85 | the loop keeps the bullet lines, stripped of bullets and spaces |
| TextSections.BulletsExactly | app/server/ragmodel/dataPreprocess/resumeParser.py:82-84 | a text is kept exactly when it is the stripped form of a line that starts with a bullet and whitespace |
| TextSections.TabbedBulletKeepsBullet | app/server/ragmodel/dataPreprocess/resumeParser.py:84 | a tab-indented bullet line is kept with its tab and bullet, since the strip does not remove tabs |
| TextSections.CommaPiecesExactly | app/server/ragmodel/dataPreprocess/resumeParser.py:63-65 | a piece is collected exactly when it is a kept stripped part of a line holding a comma |
| TextSections.KeptPiecesExactly | app/server/ragmodel/dataPreprocess/resumeParser.py:65 | a part is kept exactly when its stripped form passes the test |
| TextSections.SortedSkills | app/server/ragmodel/dataPreprocess/resumeParser.py:157 | the skills come out strictly ascending, exactly the non-empty stripped raw skills |
| RagResumeParser.SkillTextsOnlyMembers | app/server/ragmodel/dataPreprocess/resumeParser.py:68-71 | a candidate is kept exactly when it matches the skill-character pattern |
| RagResumeParser.RegexExtractSkills | app/server/ragmodel/dataPreprocess/resumeParser.py:54-75 | the loop builds the deduplicated list of skill pieces, without repeats |
| RagResumeParser.RegexSkillsExactly | app/server/ragmodel/dataPreprocess/resumeParser.py:54-75 | a skill is found exactly when it is a stripped comma piece of some line, longer than one character, made of skill characters |
| RagResumeParser.RegexSkillsStripped | app/server/ragmodel/dataPreprocess/resumeParser.py:65 | every skill found is stripped and longer than one character |
| RagResumeParser.LlmCleanSummary | app/server/ragmodel/dataPreprocess/resumeParser.py:92-106 | the summary is the model's answer, stripped |
| RagResumeParser.LlmCleanBlock | app/server/ragmodel/dataPreprocess/resumeParser.py:109-129 | a block shorter than five characters once stripped gives ""; otherwise the stripped answer |
| RagResumeParser.BulletBlock | app/server/ragmodel/dataPreprocess/resumeParser.py:159-169 | a missing section gives "" |
| RagResumeParser.FinalCvOf | app/server/ragmodel/dataPreprocess/resumeParser.py:136-177 | full text is the raw text; skills strictly ascending and exactly those found in the skills section, or else the whole text; summary from the first 300 characters when there is no summary section; missing sections give "" |
| RagResumeParser.SkillsOfStrippedPieces | app/server/ragmodel/dataPreprocess/resumeParser.py:157 | re-stripping the found skills keeps exactly them |
| RagResumeParser.BuildFinalCv | app/server/ragmodel/dataPreprocess/resumeParser.py:136-177 | the method builds the five fields |
| RagResumeParser.SkillsFromSkillsSection | app/server/ragmodel/dataPreprocess/resumeParser.py:151-157 | two resumes with the same skills section get the same skills |
| JobParser.ExtractSkillList | app/server/ragmodel/dataPreprocess/jobParser.py:30-36 | the loop builds the deduplicated comma pieces, without repeats |
| JobParser.SkillListExactly | app/server/ragmodel/dataPreprocess/jobParser.py:30-36 | a skill is listed exactly when it is a non-empty stripped comma piece of some line |
| JobParser.SkillListStripped | app/server/ragmodel/dataPreprocess/jobParser.py:35 | every listed skill is stripped and non-empty |
| JobParser.LlmCleanDesc | app/server/ragmodel/dataPreprocess/jobParser.py:52-65 | the description is the model's answer, stripped |
| JobParser.LlmCleanText | app/server/ragmodel/dataPreprocess/jobParser.py:68-82 | an empty text gives ""; otherwise the stripped answer |
| JobParser.RawSkills | app/server/ragmodel/dataPreprocess/jobParser.py:107-111 | with neither a requirements nor a tech stack section there are no skills |
| JobParser.BulletText | app/server/ragmodel/dataPreprocess/jobParser.py:101-104 | a missing section gives "" |
| JobParser.JobPostOf | app/server/ragmodel/dataPreprocess/jobParser.py:89-127 | full text is the stripped post; skills strictly ascending and exactly those of the requirements section, or else the tech stack section |
| JobParser.SkillsOfStrippedPieces | app/server/ragmodel/dataPreprocess/jobParser.py:113 | re-stripping the listed skills keeps exactly them |
| JobParser.RawSkillStripped | app/server/ragmodel/dataPreprocess/jobParser.py:109-111 | every raw skill is stripped and non-empty |
| JobParser.ParseJobpost | app/server/ragmodel/dataPreprocess/jobParser.py:89-127 | the method builds the five fields |
| LlmReply.Fallback | logics/llmEvaluate.py:72 | the fallback verdict: score 0, no skills, and the given reason |
| LlmReply.WsEnd | logics/llmEvaluate.py:21 | the greedy `\s*` run from k ends at the first non-whitespace character |
| LlmReply.StripKeepsOut | logics/llmEvaluate.py:24 | stripping adds no character |
| LlmReply.RemoveParens | logics/llmEvaluate.py:61 | removing parenthesised remarks never lengthens the text |
| LlmReply.RemoveParensChars | logics/llmEvaluate.py:61 | every remaining character comes from the text |
| LlmReply.RemoveParensNoPair | logics/llmEvaluate.py:61 | no parenthesised remark is left |
| LlmReply.RemoveParensOfPlain | logics/llmEvaluate.py:61 | a text without "(" is unchanged |
| LlmReply.RemoveParensDropsRemark | logics/llmEvaluate.py:61 | one remark between plain texts is cut out, with its parentheses |
| LlmReply.CutComments | logics/llmEvaluate.py:62-63 | cutting comments never lengthens the text and keeps a first character that does not start a comment |
| LlmReply.CutCommentsChars | logics/llmEvaluate.py:62-63 | every remaining character comes from the text |
| LlmReply.MarkerCharGone | logics/llmEvaluate.py:63 | no "#" is left after the "#" comments are cut |
| LlmReply.NoDoubleSlashLeft | logics/llmEvaluate.py:62 | no "//" is left after the "//" comments are cut |
| LlmReply.CutCommentLine | logics/llmEvaluate.py:63 | a "#" comment is cut up to the end of its line, and the newline stays |
| LlmReply.ReplaceChar | logics/llmEvaluate.py:64 | every occurrence of one character is replaced, nothing else changes |
| LlmReply.Trunc | logics/llmEvaluate.py:77 | `int` of a float truncates toward zero |
| LlmReply.IntOfNumber | logics/llmEvaluate.py:76-77 | `int` of an int is itself and of a bool is 0 or 1 |
| LlmReply.WholePart | logics/llmEvaluate.py:79 | `int(float(s))` of a digit string without a point is its decimal value |
| LlmReply.Count | logics/llmEvaluate.py:79 | the count is 0 exactly when the character is absent |
| LlmReply.RemoveFirst | logics/llmEvaluate.py:79 | `replace(c, "", 1)` removes one character when present and changes nothing otherwise |
| LlmReply.RemoveCharChars | app/server/ragmodel/logics/llmEvaluate.py:69 | removing a character only removes characters |
| LlmReply.RemoveFirstChars | logics/llmEvaluate.py:79 | removing the first occurrence of c keeps every other character and adds none |
| LlmEvaluate.DropLeadingJsonFence | logics/llmEvaluate.py:21 | removing a leading json fence never lengthens the text |
| LlmEvaluate.DropLeadingFence | logics/llmEvaluate.py:22 | removing a leading fence never lengthens the text |
| LlmEvaluate.FirstTrailingFence | logics/llmEvaluate.py:23 | the leftmost position where whitespace, a fence and whitespace reach the end of the text |
| LlmEvaluate.DropTrailingFence | logics/llmEvaluate.py:23 | removing a trailing fence never lengthens the text |
| LlmEvaluate.StripCodeFence | logics/llmEvaluate.py:18-24 | the result is stripped |
| LlmEvaluate.FencedReplyUnwrapped | logics/llmEvaluate.py:18-24 | a stripped body without backticks inside a json fence comes out as the body |
| LlmEvaluate.NoTrailingFenceInBody | logics/llmEvaluate.py:23 | the trailing fence is found right after the body |
| LlmEvaluate.LazyClose | logics/llmEvaluate.py:35 | the lazy `.*?` stops at the first closing "}" followed by a fence |
| LlmEvaluate.FencedObjectAt | logics/llmEvaluate.py:35-41 | a fenced object starts with "{" and ends with "}" |
| LlmEvaluate.FirstFencedObject | logics/llmEvaluate.py:35-41 | the leftmost fenced object, or none anywhere from the position |
| LlmEvaluate.BalancedFrom | logics/llmEvaluate.py:48-55 | the first position where the brace depth returns to 0 |
| LlmEvaluate.BalancePositive | logics/llmEvaluate.py:48-55 | before the depth first returns to 0 it stays positive |
| LlmEvaluate.ScanBraces | logics/llmEvaluate.py:48-56 | the loop finds the end of the first balanced object, ending in "}", with positive depth inside; or reports none |
| LlmEvaluate.ExtractJsonBlock | logics/llmEvaluate.py:27-56 | the method computes the extracted block |
| LlmEvaluate.UnfencedBlock | logics/llmEvaluate.py:43-56 | without fences: no "{" gives the stripped text; otherwise the balanced object from the first "{", or the stripped text when it never closes |
| LlmEvaluate.BalancedSlice | logics/llmEvaluate.py:55 | the balanced object has positive depth inside and is already stripped |
| LlmEvaluate.FencedObjectExtracted | logics/llmEvaluate.py:35-37 | an object inside a json fence is extracted whole |
| LlmEvaluate.SanitizeJsonText | logics/llmEvaluate.py:59-66 | the sanitised text holds no newline, no carriage return and no "#" |
| LlmEvaluate.CoercedScore | logics/llmEvaluate.py:74-81 | an int score is kept; a digit string reads as its value; a string with "%" gives 0; a non-number never gives a negative score |
| LlmEvaluate.CoerceSchema | logics/llmEvaluate.py:69-86 | a non-dictionary gives the fallback with its text cut to 200; the reason is at most 500 long; a dictionary fails exactly when a skill list is not iterable |
| LlmEvaluate.PercentScoreIsZero | logics/llmEvaluate.py:79 | "85" reads 85, "85.9" reads 85 and "85%" reads 0 |
| LlmEvaluate.EvaluateMatch | logics/llmEvaluate.py:90-145 | blank input gives "Empty input text."; an empty reply gives "Gemini returned empty response"; the reason is at most 500 long |
| RagLlmEvaluate.RemoveJsonFences | app/server/ragmodel/logics/llmEvaluate.py:25 | removing json fences never lengthens the text |
| RagLlmEvaluate.RemoveFences | app/server/ragmodel/logics/llmEvaluate.py:26 | removing fences never lengthens the text |
| RagLlmEvaluate.CleanCodeFence | app/server/ragmodel/logics/llmEvaluate.py:23-27 | no fence is left and the result is stripped |
| RagLlmEvaluate.RemoveFencesHead | app/server/ragmodel/logics/llmEvaluate.py:26 | a first character that does not start a fence is kept |
| RagLlmEvaluate.FencesGone | app/server/ragmodel/logics/llmEvaluate.py:26 | no three backticks are left |
| RagLlmEvaluate.HeadKept | app/server/ragmodel/logics/llmEvaluate.py:26 | the first character is kept when no fence starts there |
| RagLlmEvaluate.StripOfNoFence | app/server/ragmodel/logics/llmEvaluate.py:27 | stripping a fence-free text leaves it fence-free |
| RagLlmEvaluate.LastIndex | app/server/ragmodel/logics/llmEvaluate.py:33 | the last position of the character, or none when absent |
| RagLlmEvaluate.ExtractJson | app/server/ragmodel/logics/llmEvaluate.py:30-36 | the slice from the first "{" to the last "}" when that is ordered; the stripped text when a brace is missing |
| RagLlmEvaluate.ExtractJsonAround | app/server/ragmodel/logics/llmEvaluate.py:30-36 | an object between brace-free text is extracted whole |
| RagLlmEvaluate.SanitizeJson | app/server/ragmodel/logics/llmEvaluate.py:39-44 | the sanitised text holds no newline and no "#" |
| RagLlmEvaluate.CarriageReturnKept | app/server/ragmodel/logics/llmEvaluate.py:39-44 | a carriage return survives, unlike in the first evaluator |
| RagLlmEvaluate.TextScore | app/server/ragmodel/logics/llmEvaluate.py:70 | a digit string reads as its decimal value |
| RagLlmEvaluate.ValidatedScore | app/server/ragmodel/logics/llmEvaluate.py:64-72 | an int score is kept; a digit string reads as its value; a non-number never gives a negative score |
| LlmReply.RemoveCharKeeps | app/server/ragmodel/logics/llmEvaluate.py:69 | a character other than the removed one stays |
| LlmReply.RemoveCharOfAbsent | app/server/ragmodel/logics/llmEvaluate.py:69 | removing an absent character changes nothing |
| RagLlmEvaluate.PercentScoreRead | app/server/ragmodel/logics/llmEvaluate.py:69-70 | "85%" reads as 85 |
| RagLlmEvaluate.TwoPointScoreRead | app/server/ragmodel/logics/llmEvaluate.py:70-72 | "1.2.3" passes the digit test but `float` raises, so the score is 0 |
| RagLlmEvaluate.TextScoreWhole | app/server/ragmodel/logics/llmEvaluate.py:70 | "85" reads 85 |
| RagLlmEvaluate.TextScoreTwoPoints | app/server/ragmodel/logics/llmEvaluate.py:70 | "1.2.3" reads 0 |
| RagLlmEvaluate.StrippedStrings | app/server/ragmodel/logics/llmEvaluate.py:75 | no more skills than items |
| RagLlmEvaluate.StrippedStringsMembers | app/server/ragmodel/logics/llmEvaluate.py:75 | a skill is kept exactly when it is the stripped form of a string item |
| RagLlmEvaluate.Validate | app/server/ragmodel/logics/llmEvaluate.py:47-81 | a non-dictionary gives the fallback with its text cut to 200; the reason is at most 400 long; a dictionary fails exactly when a skill list is not iterable |
| RagLlmEvaluate.EvaluateMatch | app/server/ragmodel/logics/llmEvaluate.py:87-147 | blank input gives "Empty input."; the reason is at most 400 long |
| LlmReply.CutCommentsOfPlain | logics/llmEvaluate.py:62-63 | a text without the comment marker is left as it is |
| LlmEvaluate.NoFencedObjectWithoutBackticks | logics/llmEvaluate.py:35-41 | a reply without backticks holds no fenced object |
| LlmEvaluate.BareObjectExtracted | logics/llmEvaluate.py:43-55 | a balanced object starting at the first character is extracted whole |
| LlmEvaluate.PlainObjectSanitized | logics/llmEvaluate.py:59-66 | a stripped line without parentheses, comment markers or line breaks is not changed by sanitising |
| LlmEvaluate.FencedObjectReplyEvaluated | logics/llmEvaluate.py:117-140 | a one-line balanced object in a json fence is what `json.loads` reads: its coerced verdict, or the fallback quoting it when it does not parse |
| RagLlmEvaluate.JsonFencesBeforeClose | app/server/ragmodel/logics/llmEvaluate.py:25 | a closing fence after text without backticks is not a json fence |
| RagLlmEvaluate.FencesBeforeClose | app/server/ragmodel/logics/llmEvaluate.py:26 | the closing fence is removed and the text before it kept |
| RagLlmEvaluate.FencedReplyCleaned | app/server/ragmodel/logics/llmEvaluate.py:23-27 | a json-fenced body comes out as the body |
| RagLlmEvaluate.PlainJsonSanitized | app/server/ragmodel/logics/llmEvaluate.py:39-44 | a stripped line without parentheses, comment markers or line breaks is not changed by sanitising |
| RagLlmEvaluate.FencedObjectReplyEvaluated | app/server/ragmodel/logics/llmEvaluate.py:124-142 | a one-line object in a json fence is what `json.loads` reads: its validated verdict, or the fallback quoting it when it does not parse or validate |
| TextUtils.AlnumRunEnd | utils/text_utils.py:115 | the `[a-zA-Z0-9]+` run from i ends at the first character that is not an ASCII letter or digit |
| TextUtils.TokensExactly | utils/text_utils.py:115 | `\b[a-zA-Z0-9]+\b` finds exactly the maximal ASCII alphanumeric runs, in both directions |
| TextUtils.CandidatesMembers | utils/text_utils.py:118 | a word survives the filter exactly when it is longer than two characters and not a stop word |
| TextUtils.Keywords | utils/text_utils.py:121 | the keyword list holds no duplicates |
| TextUtils.KeywordsExactly | utils/text_utils.py:105-121 | a word is a keyword exactly when it is a maximal alphanumeric run of the lower-cased text, longer than two characters and not a stop word |
| TextUtils.KeywordsLowerAlnum | utils/text_processing.py:7-23 | every keyword consists of lower-case ASCII letters and digits |
| TextUtils.LowerCharNotUpper | utils/text_utils.py:115 | lower-casing leaves no upper-case ASCII letter |
| TextUtils.Title | utils/text_utils.py:140 | `str.title()` keeps the length and which positions hold letters |
| TextUtils.TitleIdempotent | utils/text_utils.py:140 | title-casing twice is title-casing once |
| TextUtils.TitleLowerRoundTrip | utils/text_utils.py:140 | lower-casing the title-cased form of a lower-case ASCII skill name gives the name back |
| TextUtils.SkillsIn | utils/text_utils.py:138-140 | no more skills are found than the list holds |
| TextUtils.ExtractSkillsFromText | utils/text_utils.py:124-142 | the loop returns the title-cased skills of the fixed list that occur in the lower-cased text |
| TextUtils.FoundSkills | utils/text_processing.py:54-56 | the loop over a skill list returns exactly the specified found skills |
| TextUtils.SkillsInExactly | utils/text_processing.py:40-58 | a name is found exactly when it is the title-cased form of a listed skill that occurs in the text |
| TextUtils.Titles | utils/text_utils.py:140 | each listed skill is title-cased in place |
| TextUtils.SkillsInListOrder | utils/text_utils.py:138-140 | the found skills keep the order of the skill list |
| TextUtils.DigitRunEnd | utils/text_utils.py:148-153 | the greedy `\d+` run ends at the first non-digit |
| TextUtils.SpaceRunEnd | utils/text_utils.py:148-153 | the greedy `\s*` run ends at the first non-whitespace character |
| TextUtils.MatchAt | utils/text_utils.py:148-153 | a pattern match captures only digits |
| TextUtils.Search | utils/text_utils.py:158 | `re.search` captures only digits, and finds nothing only when the pattern matches at no position |
| TextUtils.ExtractExperienceRequirement | utils/text_utils.py:145-162 | the loop over the six patterns returns the specified requirement |
| TextUtils.FirstPatternDecides | utils/text_utils.py:157-160 | the first pattern that matches decides the requirement: the decimal value of its capture |
| TextUtils.NoPatternNoRequirement | utils/text_processing.py:61-78 | when no pattern matches, there is no requirement (0) |
| TextUtils.FirstTitleLine | utils/text_utils.py:168-172 | a title found is a stripped line with a hiring keyword under 100 characters; none is found exactly when no line qualifies |
| TextUtils.ExtractJobTitle | utils/text_utils.py:165-173 | the loop returns the specified job title |
| TextUtils.JobTitleFromFirstLines | utils/text_processing.py:81-89 | only the first three lines are looked at; when none qualifies the title is "Job Position" |
| TextUtils.CollapseSpaces | utils/text_utils.py:182 | `\s+` → " " leaves only single plain spaces, adds no other character and keeps whether the text starts with whitespace |
| TextUtils.KeepAllowed | utils/text_utils.py:185 | only word characters, whitespace and `.,!?-` remain, each from the text |
| TextUtils.NormalizeText | utils/text_utils.py:187 | the normalised text neither starts nor ends with whitespace |
| TextUtils.NormalizeTextShape | utils/text_utils.py:176-187 | the normalised text is lower case, holds only allowed characters, and its only whitespace is the plain space |
| TextUtils.CollapseFirst | utils/text_utils.py:182 | "a @ b" has no whitespace run to collapse |
| TextUtils.CollapseSecond | utils/text_utils.py:182 | "a  b" collapses to "a b" |
| TextUtils.LowerOfPlain | utils/text_utils.py:179 | lower-casing leaves lower-case letters, spaces and '@' alone |
| TextUtils.NormalizeFirst | utils/text_processing.py:26-37 | "a @ b" normalises to "a  b" (the space collapse runs before '@' is dropped) |
| TextUtils.KeepFirst | utils/text_utils.py:185 | dropping '@' from "a @ b" leaves "a  b" |
| TextUtils.NormalizeSecond | utils/text_utils.py:176-187 | "a  b" normalises to "a b" |
| TextUtils.NormalizeNotIdempotent | utils/text_utils.py:182-185 | normalising is not idempotent: a second pass changes "a @ b"'s result |
| TextUtils.Collect | utils/text_utils.py:9-102 | gathering no parts succeeds with no lines |
| TextUtils.CollectFailed | utils/text_utils.py:9-102 | the first failing part aborts the whole content: later parts do not matter |
| TextUtils.CollectSucceeded | utils/text_utils.py:9-102 | the content succeeds only when every part does |
| TextUtils.CollectAll | utils/text_utils.py:9-102 | when every part succeeds the lines are their concatenation in order |
| TextUtils.Bulleted | utils/text_utils.py:52-55 | the bulleted highlight lines are at most one per highlight |
| TextUtils.HighlightLines | utils/text_utils.py:52 | falsy highlights give no lines |
| TextUtils.EntryLine | utils/text_utils.py:30-31 | an entry gives a line exactly when it has some part |
| TextUtils.Part | utils/text_utils.py:24-29 | a field gives one part exactly when it is truthy |
| TextUtils.EducationEntry | utils/text_utils.py:22 | a non-dictionary education entry gives nothing |
| TextUtils.YearsPart | utils/text_utils.py:43-44 | the years part appears exactly when years is a positive number |
| TextUtils.ExperienceEntry | utils/text_utils.py:37 | a non-dictionary experience entry gives nothing |
| TextUtils.ProjectEntry | utils/text_utils.py:61-62 | a project without a truthy role, or not a dictionary, gives nothing |
| TextUtils.NamedEntry | utils/text_utils.py:79-100 | a certification or award gives at most one line, and none without a truthy name |
| TextUtils.Block | utils/text_utils.py:12-100 | a falsy field contributes nothing; a truthy one starts with its label line |
| TextUtils.Blocks | utils/text_utils.py:12-100 | the nine fields are visited in the source's order |
| TextUtils.EntryLoop | utils/text_utils.py:21-31 | the loop over entries returns the specified lines or the first failure |
| TextUtils.SectionLines | utils/text_utils.py:19-100 | one section's statements give the specified block |
| TextUtils.CreateEmbeddingContent | utils/text_utils.py:7-102 | the whole function returns the specified newline-joined content |
| TextUtils.EmptyCvNoContent | utils/text_utils.py:102 | a CV without any truthy field gives empty content |
| TextUtils.ConcatEmpty | utils/text_utils.py:102 | concatenating empty blocks gives no lines |
| TextUtils.YearsOnlyWhenPositive | utils/text_utils.py:34-44 | an experience with only a years field gives a line exactly when years is positive |
| Embedder.SortedJoin | logics/embedder.py:20 | `", ".join(sorted(set(xs)))` succeeds exactly when the value is iterable and every item is a string |
| Embedder.SortedJoinOrderFree | logics/embedder.py:20 | the joined skills depend only on which skills occur, not on their order or repeats |
| Embedder.JoinedList | logics/embedder.py:28 | a missing highlights key joins to the empty string |
| Embedder.ExperienceText | logics/embedder.py:24-29 | a non-dictionary experience raises AttributeError; otherwise one text |
| Embedder.ExperienceDefaults | logics/embedder.py:25-29 | any experience without role, organization, years and highlights keys renders with empty role and organisation, 0 years and no highlight |
| Embedder.ProjectText | logics/embedder.py:34-35 | a non-dictionary project raises AttributeError; otherwise one text |
| Embedder.EducationText | logics/embedder.py:40-41 | a non-dictionary education entry raises AttributeError; otherwise one text |
| Embedder.CertificationText | logics/embedder.py:45 | a non-dictionary certification raises AttributeError; otherwise one text |
| Embedder.CvPart | logics/embedder.py:17-46 | a falsy field contributes nothing; a truthy one gives one line starting with its label |
| Embedder.CvParts | logics/embedder.py:17-46 | the six fields are visited in the source's order |
| Embedder.CvText | logics/embedder.py:14-51 | any exception gives ""; the text never starts or ends with whitespace |
| Embedder.CvSection | logics/embedder.py:22-30 | one section's statements give the specified part |
| Embedder.JsonToTextCv | logics/embedder.py:14-51 | the function returns the specified CV text |
| Embedder.CvSkillsOrderFree | logics/embedder.py:19-20 | two CVs alike but for the order of their skills give the same text |
| Embedder.EmptyCvText | logics/embedder.py:48 | a CV with no truthy field gives "" |
| Embedder.ExperienceNotDictEmptiesText | logics/embedder.py:24-51 | one non-dictionary experience makes the whole CV text "" |
| Embedder.JdPart | logics/embedder.py:58-71 | a falsy field contributes nothing; a truthy one gives one line starting with its label |
| Embedder.JdText | logics/embedder.py:55-75 | the job text never starts or ends with whitespace |
| Embedder.JdTextFails | logics/embedder.py:62-75 | the job text fails exactly when a truthy list field cannot be sorted and joined |
| Embedder.CollectFailureHasCause | logics/embedder.py:48-51 | a failed conversion has a failing part |
| TextUtils.CollectFailsOnFailedPart | logics/embedder.py:48-51 | a failing part anywhere makes the whole conversion fail |
| Embedder.AutoText | logics/embedder.py:79-90 | a CV key sends the data to the CV converter; otherwise a job key sends it to the job converter |
| Embedder.EmptySkillsIsResume | logics/embedder.py:81 | a `skills` key, even with an empty list, selects the CV converter, whose text is then "" |
| Embedder.EmbedJson | logics/embedder.py:94-112 | a non-empty result is the converted text and its encoding; blank text or a missing model give ("", []) |
| Scoring.SetOfSize | utils/scoring.py:19 | a set built from a list is no larger than the list |
| Scoring.LowerAll | utils/scoring.py:15-16 | every skill is lower-cased in place |
| Scoring.SkillMatchScore | utils/scoring.py:6-21 | 0.5 with no job skills, 0.0 with no CV skills, and always within [0, 1] |
| Scoring.MatchedSize | utils/scoring.py:19-21 | the matched skills are no more than the job's skills |
| Scoring.SubsetSize | utils/scoring.py:19 | a subset is no larger than its superset |
| Scoring.Ratio | utils/scoring.py:21 | matched over required lies within [0, 1] |
| Scoring.RatioGrows | utils/scoring.py:21 | more matches give a larger ratio |
| Scoring.FullSkillMatch | utils/scoring.py:6-21 | a CV holding every one of the job's distinct skills scores 1.0 |
| Scoring.DistinctSetSize | utils/scoring.py:19 | a list without repeats has as many distinct items as entries |
| Scoring.SkillMatchGrows | utils/scoring.py:6-21 | adding skills to a non-empty CV never lowers the score |
| Scoring.LowerAllGrows | utils/scoring.py:15-19 | more CV skills give at least the same lower-cased set |
| Scoring.SkillMatchIgnoresCase | utils/scoring.py:15-16 | the score ignores case: lower-cased inputs score the same |
| Scoring.LowerAllTwice | utils/scoring.py:15 | lower-casing twice is lower-casing once |
| Scoring.ExperienceMatchScore | utils/scoring.py:24-32 | 0.5 with no requirement, 1.0 when met, else the fraction cv/job; within [0, 1] for a positive requirement |
| Scoring.ExperienceMatchMonotone | utils/scoring.py:24-32 | more experience never lowers the score |
| Scoring.CompositeScore | utils/scoring.py:35-47 | the weights sum to one: equal inputs give that value, and inputs in [0, 1] give a result in [0, 1] |
| Scoring.CompositeMonotone | utils/scoring.py:43-47 | raising any component never lowers the composite |
| Scoring.PositiveYears | utils/scoring.py:56-59 | an experience counts its years exactly when it is a dictionary whose years is a positive number |
| Scoring.SumYears | utils/scoring.py:55-59 | the total is never negative |
| Scoring.TotalExperience | utils/scoring.py:50-61 | fails with TypeError exactly when experiences is not iterable; no experiences give 0.0 |
| Scoring.CalculateTotalExperience | utils/scoring.py:50-61 | the loop returns the specified total |
| Scoring.SumYearsAppend | utils/scoring.py:55-59 | the total over two lists is the sum of their totals |
| Scoring.SumYearsOfNothing | utils/scoring.py:58 | entries without positive years add nothing |
| Scoring.SumYearsCovers | db/chromaDB.py:354-365 | the total is at least every single entry's years |
| Scoring.Degrees | utils/scoring.py:70 | collecting degrees fails only with AttributeError, and gives at most one per entry |
| Scoring.DegreesExactly | utils/scoring.py:70 | degrees are collected exactly when every dictionary entry's degree is a string; they are lower case |
| Scoring.LevelExactly | db/cv_storage.py:131-148 | each level name is returned exactly when it is the highest level named; otherwise the first degree or the default |
| Scoring.LevelRankGrows | utils/scoring.py:72-79 | more degrees never lower the level reached |
| Scoring.LevelRankOrderFree | utils/scoring.py:72-79 | the level reached does not depend on the degrees' order |
| Scoring.HighestEducation | utils/scoring.py:64-70 | falsy education gives the default; non-iterable education raises TypeError |
| Scoring.HighestEducationNames | db/chromaDB.py:367-385 | the result is a level name exactly when the degrees reach that level |
| Scoring.FirstLocation | utils/scoring.py:88-90 | a location found is truthy |
| Scoring.FirstLocationExactly | db/cv_storage.py:153-156 | none is found exactly when no entry has a location; otherwise it is the first entry's |
| Scoring.Location | utils/scoring.py:84-98 | the result is a truthy location or the default; errors are TypeError |
| Scoring.ExtractLocation | utils/scoring.py:84-98 | the loops return the specified location |
| Scoring.ExperienceLocationWins | db/chromaDB.py:387-401 | an experience with a location decides, whatever the activities or default |
| VectorStore.SimilarHits | db/cv_storage.py:39-64 | a failed query gives no hits |
| VectorStore.KeptExactly | db/cv_storage.py:49-51 | the kept indices are exactly the zipped pairs whose similarity 1 - distance reaches the threshold, in increasing order |
| VectorStore.HitsFail | db/cv_storage.py:55-56 | building the hits fails (and the search gives []) exactly when a kept index is missing from the metadata or document lists |
| VectorStore.HitsExactly | db/cv_storage.py:49-57 | each hit is built from its kept index, one per kept index, in order |
| VectorStore.SimilarHitsReachThreshold | db/chromaDB.py:190-198 | every hit returned reaches the threshold |
| VectorStore.SearchSimilar | db/job_storage.py:38-63 | the loop returns the specified hits |
| VectorStore.HitsFailLater | db/chromaDB.py:203-205 | once an index fails, the whole search fails |
| VectorStore.CvId | db/cv_storage.py:16 | the id is "cv_", the owner, "_" and eight hex digits |
| VectorStore.JobId | db/job_storage.py:15 | the id is "jd_" and eight hex digits |
| VectorStore.CvIdInjective | db/cv_storage.py:16 | the CV id determines its owner and its eight hex digits |
| VectorStore.CvIdIsNotJobId | db/job_storage.py:15 | a CV id never equals a job id |
| PyRound.Round2 | db/cv_storage.py:128 | rounding to two places moves the value by at most 0.005, lands on a multiple of 0.01 and keeps it non-negative |
| PyRound.Round2OfHundredths | db/cv_storage.py:128 | a value that already has two decimals is unchanged |
| PyRound.Round2OfTwelfth | logic/resume_parser.py:203-204 | a twelfth of a year rounds to 0.08 |
| VectorStore.RoundedTotalExperience | db/cv_storage.py:117-128 | the rounded total succeeds with the plain total and is within 0.005 of it |
| VectorStore.CvMetadataOf | db/cv_storage.py:101-114 | the metadata is built exactly when experience, education and location can be computed; it keeps id and owner, a missing source url becomes "" and a missing name "" |
| VectorStore.SaveCv | db/cv_storage.py:12-36 | saving returns the CV id exactly when the metadata and content are built and the add succeeds, else None |
| VectorStore.JobMetadataOf | db/job_storage.py:100-115 | the metadata keeps id and time; missing title, skills, experience and posted date take their defaults |
| VectorStore.JobLine | db/job_storage.py:122-134 | a falsy field gives no line; a truthy one gives one line starting with its label |
| VectorStore.EmptyJobText | db/chromaDB.py:334-352 | a job without any truthy field gives empty text |
| VectorStore.JobTextLines | db/job_storage.py:136 | when the text is built, every field's line is, and the text joins them in order |
| VectorStore.SaveJob | db/job_storage.py:11-35 | saving a job returns its `jd_` id exactly when the embedding text is built and the add succeeds, else None |
| VectorStore.SaveJobSucceeds | db/chromaDB.py:123-167 | a job is saved exactly when the add succeeds and its required skills are falsy or an iterable of strings: only the skills line can raise |
| JobProcessor.Close | logic/job_processor.py:44 | the lazy `.*?>` ends at the first '>' after the '<' |
| JobProcessor.RemoveTags | logic/job_processor.py:44 | removing tags never lengthens the text |
| JobProcessor.RemoveTagsNoAngle | logic/job_processor.py:44 | text without '<' is left alone |
| JobProcessor.RemoveTagsKeepsOpenLine | logic/job_processor.py:44 | text with no closing '>' has none after removal |
| JobProcessor.RemoveTagsLeavesNoTag | logic/job_processor.py:44 | no tag is left after removal |
| JobProcessor.RemoveTagsOfNoTag | logic/job_processor.py:44 | text with no tag is left alone |
| JobProcessor.RemoveTagsIdempotent | logic/job_processor.py:44 | removing tags twice is removing them once |
| JobProcessor.WordRunEnd | logic/job_processor.py:46 | the greedy `\w+` run ends at the first non-word character |
| JobProcessor.RemoveHashtags | logic/job_processor.py:46 | removing hashtags never lengthens the text |
| JobProcessor.RemoveHashtagsFront | logic/job_processor.py:46 | text not starting with a word character does not start with one after removal |
| JobProcessor.RemoveHashtagsLeavesNone | logic/job_processor.py:46 | no hashtag is left after removal |
| JobProcessor.RemoveHashtagsOfNone | logic/job_processor.py:46 | text with no hashtag is left alone |
| JobProcessor.RemoveHashtagsIdempotent | logic/job_processor.py:46 | removing hashtags twice is removing them once |
| JobProcessor.SpaceRunAll | logic/job_processor.py:48 | the `\s+` run consists of whitespace |
| JobProcessor.CollapseLast | logic/job_processor.py:48 | collapsing keeps whether the text ends with whitespace |
| JobProcessor.CollapseKeepsNoHashtag | logic/job_processor.py:48 | collapsing whitespace creates no hashtag |
| JobProcessor.StripKeepsNoHashtag | logic/job_processor.py:46 | stripping creates no hashtag |
| JobProcessor.JobDescription | logic/job_processor.py:40-52 | None exactly when nothing is left after cleaning; otherwise the text is stripped, its whitespace is single plain spaces and it holds no hashtag |
| JobProcessor.CreateJobData | logic/job_processor.py:55-68 | the job record holds the text, its title, skills and experience requirement, the fixed defaults and the poster's status url and account |
| JobProcessor.ProcessJobPost | logic/job_processor.py:12-37 | no description rejects; a save that returns an id processes the post with that id, text and record; otherwise the save failure is reported |
| JobProcessor.NoSaveWithoutDescription | logic/job_processor.py:16-18 | without a description the store is never consulted |
| JobProcessor.JobDict | logic/job_processor.py:57-68 | the record as a dictionary has ten keys and its required skills are the record's skills as a list of strings |
| JobProcessor.RecordSaved | logic/job_processor.py:23-25 | a record built from a post is saved under the store's id exactly when the add succeeds |
| JobProcessor.ProcessJobPostSaved | logic/job_processor.py:21-33 | with the job store as the save, a post with a description is processed exactly when the add succeeds, under the store's `jd_` id |
| CvJobMatcher.PairText | logic/cv_job_matcher.py:84-88 | an entry gives a text exactly when it is a dictionary whose two fields are both truthy |
| CvJobMatcher.PairTexts | logic/cv_job_matcher.py:83-88 | at most one text per entry |
| CvJobMatcher.PairTextsExactly | logic/cv_job_matcher.py:101-106 | a text is collected exactly when some entry gives it |
| CvJobMatcher.CollectPairs | logic/cv_job_matcher.py:82-88 | the loop collects exactly the specified texts |
| CvJobMatcher.PairSection | logic/cv_job_matcher.py:80-90 | the section fails exactly when a truthy value is not iterable; a section present starts with its heading |
| CvJobMatcher.SkillsSection | logic/cv_job_matcher.py:93-95 | the skills section fails exactly when truthy skills cannot be joined, and is present exactly when the skills are truthy |
| CvJobMatcher.Head | logic/cv_job_matcher.py:73-77 | the query starts with the name text and the summary itself, which is kept when truthy |
| CvJobMatcher.Tail | logic/cv_job_matcher.py:89-108 | the experience, skills and education sections are strings |
| CvJobMatcher.QueryParts | logic/cv_job_matcher.py:68-108 | the parts fail exactly when a section fails; they start with the head and then hold only strings |
| CvJobMatcher.CvSearchQueryFails | logic/cv_job_matcher.py:68-110 | the query raises exactly when the summary is a truthy non-string or a truthy experiences, skills or education value cannot be iterated or joined |
| CvJobMatcher.PairSectionLoop | logic/cv_job_matcher.py:98-108 | the loop returns the specified section |
| CvJobMatcher.CreateCvSearchQuery | logic/cv_job_matcher.py:68-110 | the function returns the specified query |
| CvJobMatcher.EmptyCvEmptyQuery | logic/cv_job_matcher.py:110 | an empty CV gives the empty query |
| CvJobMatcher.NameOnlyQuery | logic/cv_job_matcher.py:73-74 | a CV with only a name gives "Looking for" and the name |
| CvJobMatcher.EvaluateJob | logic/cv_job_matcher.py:36-52 | a non-empty evaluation is kept with its score (default 0); otherwise the job is kept with score 0 and an error evaluation |
| CvJobMatcher.EvaluateAll | logic/cv_job_matcher.py:35 | every job of the prefix is evaluated, in order |
| CvJobMatcher.FindMatchingJobsForCv | logic/cv_job_matcher.py:12-65 | the function returns the specified job list |
| CvJobMatcher.EvaluateHits | logic/cv_job_matcher.py:34-52 | the loop evaluates every one of the first `max_jobs` hits exactly once and keeps them in search order |
| CvJobMatcher.NothingFound | logic/cv_job_matcher.py:27-29 | no similar jobs give no result |
| CvJobMatcher.MatchingJobsRanked | logic/cv_job_matcher.py:35-58 | the result is the first max_jobs evaluated jobs, a permutation of them, by non-increasing LLM score, stable among equal scores |
| CvJobMatcher.MatchScore | logic/cv_job_matcher.py:113-126 | the weighted score lies between similarity and LLM score; with neither it is 0 |
| CvJobMatcher.MatchScoreGrows | logic/cv_job_matcher.py:120 | a higher LLM score never lowers the match score |
| Ranking.InsertDescPermutes | logic/cv_job_matcher.py:55-58 | inserting adds exactly that item and keeps every other |
| Ranking.SortDescPermutes | app/server/ragmodel/logics/matchingLogic.py:165 | the sort is a permutation of its input |
| Ranking.InsertDescItems | logic/cv_job_matcher.py:55-58 | every item of the insertion is the new item or an old one |
| Ranking.InsertDescending | logic/cv_job_matcher.py:55-58 | inserting into a descending list keeps it descending |
| Ranking.SortDescDescending | app/server/ragmodel/logics/matchingLogic.py:165 | the sorted list has non-increasing keys |
| Ranking.InsertDescGroups | app/server/ragmodel/logics/matchingLogic.py:219 | the insertion goes after every item of equal key |
| Ranking.SortDescStable | app/server/ragmodel/logics/matchingLogic.py:219 | the sort keeps the input order of items with equal keys |
| Ranking.SortDescOfSorted | logic/cv_job_matcher.py:55-58 | a list already strictly descending is left as it is |
| Ranking.InsertAtEnd | logic/cv_job_matcher.py:55-58 | an item below every key goes last |
| Ranking.Prefix | app/server/ragmodel/logics/matchingLogic.py:166 | `xs[:n]` keeps the first n items, or drops -n from the end for negative n |
| Ranking.DistinctCount | app/server/ragmodel/logics/matchingLogic.py:165 | a list without repeats holds each value at most once |
| Ranking.PermutationDistinct | app/server/ragmodel/logics/matchingLogic.py:165 | a permutation of a list without repeats has none |
| MatchingLogic.Find | app/server/ragmodel/logics/matchingLogic.py:14-15 | a lookup finds an entry exactly when its id is stored |
| MatchingLogic.Upsert | app/server/ragmodel/logics/matchingLogic.py:19 | assigning a key replaces in place or appends one entry |
| MatchingLogic.UpsertFind | app/server/ragmodel/logics/matchingLogic.py:18-23 | after an upsert the id finds the new entry and every other id finds what it found before |
| MatchingLogic.UpsertPresent | app/server/ragmodel/logics/matchingLogic.py:19 | re-assigning a present key keeps the keys and their order |
| MatchingLogic.UpsertAbsent | app/server/ragmodel/logics/matchingLogic.py:23 | assigning a new key appends it last, as dictionary insertion order does |
| MatchingLogic.UpsertKeepsDistinct | app/server/ragmodel/logics/matchingLogic.py:18-23 | keys stay distinct; the store grows by one exactly for a new key |
| MatchingLogic.ScoreCvForJd | app/server/ragmodel/logics/matchingLogic.py:51-78 | the score exists exactly when all five field pairs are present (otherwise KeyError) |
| MatchingLogic.ScoreBetween | app/server/ragmodel/logics/matchingLogic.py:59-77 | the weights sum to one: five cosines within [lo, hi] give a score within [lo, hi] |
| MatchingLogic.ScoreJdForCv | app/server/ragmodel/logics/matchingLogic.py:81-83 | scoring a JD for a CV is scoring the CV for the JD |
| MatchingLogic.ScoreAllExactly | app/server/ragmodel/logics/matchingLogic.py:157-162 | scoring succeeds exactly when every entry scores, giving one scored triple per entry in store order |
| MatchingLogic.RankedAt | app/server/ragmodel/logics/matchingLogic.py:171-184 | a result needs both full texts; it keeps target and score, and only the first explain_top_n carry the model's score and reason |
| MatchingLogic.ExplainExactly | app/server/ragmodel/logics/matchingLogic.py:171-184 | the results are built exactly when every top entry has its full text, one per entry in order |
| MatchingLogic.ScoreLoop | app/server/ragmodel/logics/matchingLogic.py:157-162 | the loop returns the specified scores |
| MatchingLogic.ExplainLoop | app/server/ragmodel/logics/matchingLogic.py:168-184 | the loop returns the specified results |
| MatchingLogic.RankLoop | app/server/ragmodel/logics/matchingLogic.py:156-197 | the steps return the specified ranking, [] on any exception |
| MatchingLogic.TopItems | app/server/ragmodel/logics/matchingLogic.py:165-166 | the top entries are scored entries, by non-increasing score, top_k of them when there are enough |
| MatchingLogic.TopFromEntries | app/server/ragmodel/logics/matchingLogic.py:158-166 | each top entry is some stored entry with its own score |
| MatchingLogic.RankResults | app/server/ragmodel/logics/matchingLogic.py:149-197 | the ranking is [] or one result per top entry, in order |
| MatchingLogic.RankShape | app/server/ragmodel/logics/matchingLogic.py:149-197 | with every entry complete: min(top_k, size) results by non-increasing score, only the first explain_top_n explained |
| MatchingLogic.RankEntries | app/server/ragmodel/logics/matchingLogic.py:204-251 | each result is a distinct stored entry with its own score |
| MatchingLogic.SortedIdsDistinct | app/server/ragmodel/logics/matchingLogic.py:165-166 | sorting distinct ids keeps them distinct |
| MatchingLogic.JobScoreIsCandidateScore | app/server/ragmodel/logics/matchingLogic.py:216 | each job's score is the CV-for-JD score of its stored embedding |
| MatchingLogic.FindDistinct | app/server/ragmodel/logics/matchingLogic.py:14-15 | with distinct ids, each stored id finds its own entry |
| MatchingLogic.MatchingStore.constructor | app/server/ragmodel/logics/matchingLogic.py:14-15 | both stores start empty |
| MatchingLogic.MatchingStore.UpsertCv | app/server/ragmodel/logics/matchingLogic.py:18-19 | the CV store becomes the upsert of the old one; the JD store is unchanged |
| MatchingLogic.MatchingStore.UpsertJd | app/server/ragmodel/logics/matchingLogic.py:22-23 | the JD store becomes the upsert of the old one; the CV store is unchanged |
| MatchingLogic.MatchingStore.FindBestCandidates | app/server/ragmodel/logics/matchingLogic.py:149-197 | returns the specified ranking of the stored CVs for the JD |
| MatchingLogic.MatchingStore.FindBestJobs | app/server/ragmodel/logics/matchingLogic.py:204-251 | returns the specified ranking of the stored JDs for the CV |
| Documents.FirstMatch | app/server/repositories/user_repo.py:17 | the position found is the first document matching the query; none is found only when no document matches |
| Documents.FindOne | app/server/repositories/cv_repo.py:31 | `find_one` finds a document exactly when one matches, and it matches |
| Documents.FindAll | app/server/repositories/cv_repo.py:35 | `find(...).to_list()` lists exactly the matching documents, in collection order |
| Documents.InsertedIsListed | app/server/repositories/job_repo.py:28 | an inserted document joins the end of every listing it matches and no other |
| Documents.By | app/server/repositories/job_repo.py:33 | the query `Model.key == v` matches exactly the documents whose key holds v |
| Documents.MaxId | app/server/repositories/user_repo.py:8 | sorting by id descending and taking one gives the largest id |
| Documents.NextId | app/server/repositories/user_repo.py:8-9 | the next id is 1 for an empty collection, else one more than some id, and above every id |
| Documents.NextIdIsFresh | app/server/repositories/cv_repo.py:11-12 | no stored document holds the next id |
| Documents.UniqueFindsOnly | app/server/repositories/application_repo.py:23 | with unique keys, a lookup by key finds the one document holding it |
| Documents.InsertFreshKeepsUnique | app/server/repositories/application_repo.py:18 | inserting a document with an unused key keeps keys unique |
| Documents.InsertWithNextId | app/server/repositories/job_repo.py:11-29 | a document inserted with the next id is what a lookup by that id finds, and ids stay unique |
| Documents.InsertedIsFound | app/server/repositories/candidate_repo.py:17 | an inserted document that is the only match is found |
| Documents.SetFirst | app/server/repositories/cv_repo.py:47 | `$set` changes only the first matching document, overwriting exactly the named fields; no match changes nothing |
| Documents.RemoveFirst | app/server/repositories/cv_repo.py:55 | `delete()` removes exactly the first matching document and keeps the rest in order; no match changes nothing |
| Documents.Without | app/server/repositories/job_repo.py:51 | cutting one item out drops exactly that item and keeps the order |
| Documents.SubsequenceWithout | app/server/repositories/job_repo.py:51 | cutting one item out keeps the order of the others |
| Documents.SubsequenceDrop | app/server/repositories/job_repo.py:51 | dropping the head keeps the order of the others |
| Documents.SubsequenceRefl | app/server/repositories/job_repo.py:37 | a collection lists itself in order |
| Documents.RemoveUniqueLeavesNone | app/server/repositories/recruiter_repo.py:33-38 | deleting by a unique key leaves nothing found under it |
| Documents.RemoveKeepsUnique | app/server/repositories/application_repo.py:42-47 | deleting keeps keys unique |
| Documents.SetKeepsUnique | app/server/repositories/application_repo.py:34-39 | a `$set` that does not name the key keeps keys unique |
| Documents.SetThenFind | app/server/repositories/job_repo.py:40-45 | after a `$set` not touching the query's fields, the lookup returns the updated document |
| Documents.Collection.constructor | app/server/repositories/user_repo.py:5 | a collection starts empty |
| Documents.Collection.Insert | app/server/repositories/user_repo.py:12 | `insert()` appends the document |
| Documents.Collection.Update | app/server/repositories/cv_repo.py:44-49 | the first match gets the fields set and is returned, re-read; without a match nothing changes and None is returned |
| Documents.Collection.Delete | app/server/repositories/cv_repo.py:52-57 | the first match is removed and True returned exactly when there is one |
| UserRepository.Create | app/server/repositories/user_repo.py:7-13 | the new user gets the next id, is appended, is found by that id, and ids stay unique |
| UserRepository.GetByEmail | app/server/repositories/user_repo.py:20-21 | a user is found exactly when one holds the email, and it holds it |
| UserRepository.Delete | app/server/repositories/user_repo.py:24-29 | True exactly when the id is stored; the first such user is removed and, with unique ids, none is left |
| CvRepository.Create | app/server/repositories/cv_repo.py:7-27 | the new CV gets the next id, is appended, is found by that id, and ids stay unique |
| CvRepository.GetMainByUserId | app/server/repositories/cv_repo.py:38-41 | a CV is found exactly when one is the user's main CV, and it is |
| CvRepository.TwoMainCvs | app/server/repositories/cv_repo.py:7-27 | creating two main CVs for a user is allowed: the user then has at least two main CVs, and the lookup takes the first |
| JobRepository.Create | app/server/repositories/job_repo.py:7-29 | the new job gets the next id, is appended, is found by that id, and ids stay unique |
| JobRepository.GetAll | app/server/repositories/job_repo.py:36-37 | all jobs are listed in collection order |
| ApplicationRepository.Create | app/server/repositories/application_repo.py:7-19 | the new application gets the next id and status "pending", is appended and found, ids stay unique and statuses stay known |
| ApplicationRepository.GetByJobId | app/server/repositories/application_repo.py:26-27 | exactly the applications for the job are listed |
| ApplicationRepository.GetByCandidateId | app/server/repositories/application_repo.py:30-31 | exactly the candidate's applications are listed |
| ApplicationRepository.StatusUpdateKeepsKnown | app/server/repositories/application_repo.py:34-39 | setting a known status keeps every status known |
| MatchRepository.CreateOrUpdate | app/server/repositories/match_repo.py:7-17 | the pair's score is set in place or a new result appended, and the stored result for the pair is returned |
| MatchRepository.UpsertFinds | app/server/repositories/match_repo.py:11-17 | afterwards the pair is found with the new score; a new pair is found as the inserted result |
| MatchRepository.UpsertKeepsOthers | app/server/repositories/match_repo.py:7-17 | other pairs' results are unchanged, and at most one result is added, for this pair |
| MatchRepository.UpsertKeepsUniquePairs | app/server/repositories/match_repo.py:7-17 | each (cv_id, job_id) pair keeps at most one result |
| MatchRepository.SetScoreKeepsPair | app/server/repositories/match_repo.py:12 | setting the score leaves every result's pair as it was |
| MatchRepository.GetByCvId | app/server/repositories/match_repo.py:26-27 | exactly the CV's results are listed |
| MatchRepository.GetByJobId | app/server/repositories/match_repo.py:30-31 | exactly the job's results are listed |
| CandidateRepository.Create | app/server/repositories/candidate_repo.py:7-18 | the profile is appended without any check, joining the user's listed profiles |
| RecruiterRepository.Create | app/server/repositories/recruiter_repo.py:7-19 | the profile is appended without any check, joining the user's listed profiles |
| UserService.Register | app/server/services/user_service.py:10-19 | a taken email gives 400 and changes nothing; otherwise the user is created with the hashed password; emails stay unique |
| UserService.Login | app/server/services/user_service.py:22-31 | 401 exactly when the email is unknown or the password does not verify; otherwise a bearer token signed over the user id's decimal text |
| UserService.LoginAfterRegister | app/server/services/user_service.py:10-31 | after registering, logging in with the same password yields the token for the new id |
| UserService.SubjectsDistinct | app/server/services/user_service.py:30 | distinct user ids give distinct token subjects |
| UserService.GetUser | app/server/services/user_service.py:34-41 | 404 exactly when no user holds the id; otherwise a user with that id |
| UserService.DeleteUser | app/server/services/user_service.py:44-51 | 404 exactly when no user holds the id, changing nothing; otherwise True and the user is removed |
| CandidateService.CreateProfile | app/server/services/candidate_service.py:9-17 | an existing profile gives 400 and changes nothing; otherwise it is created; one profile per user is kept |
| CandidateService.GetProfile | app/server/services/candidate_service.py:20-27 | 404 exactly when the user has no profile; otherwise the user's profile |
| CandidateService.UpdateProfile | app/server/services/candidate_service.py:30-37 | a missing profile gives 404; otherwise the fields are set and the updated profile returned; one profile per user is kept |
| RecruiterService.CreateProfile | app/server/services/recruiter_service.py:9-18 | an existing profile gives 400 and changes nothing; otherwise it is created; one profile per user is kept |
| RecruiterService.GetProfile | app/server/services/recruiter_service.py:21-28 | 404 exactly when the user has no profile; otherwise the user's profile |
| RecruiterService.UpdateProfile | app/server/services/recruiter_service.py:31-38 | a missing profile gives 404; otherwise the fields are set and the updated profile returned; one profile per user is kept |
| JsText.Trim | app/client/src/api/users.ts:68 | `trim()` leaves no JavaScript whitespace at either end |
| JsText.TrimEmptyIffBlank | app/client/src/components/onboardingComponents/CandidateFlow.tsx:74 | `!field.trim()` holds exactly when the field is all whitespace |
| JsText.ParseInt | app/client/src/api/users.ts:84 | `parseInt(s, 10)` is NaN exactly when no digit follows the leading whitespace and sign |
| JsText.ParseIntOfDigits | app/client/src/api/users.ts:72 | `parseInt` of a digit run followed by a non-digit is that run's decimal value |
| JsText.NumberOf | app/client/src/components/OnBoardingPage.tsx:46 | `Number(null)` of a missing stored id is 0 |
| JsText.NumberOfDecimal | app/client/src/components/OnBoardingPage.tsx:46 | `Number` of a stored decimal id gives the id back |
| JsText.IncludesEmptyQuery | app/client/src/components/recruiterComponents/MatchingTracker.tsx:78 | an empty search query is included in every text |
| JsText.IncludesPrefixOfQuery | app/client/src/components/recruiterComponents/CandidateManager.tsx:21 | a text that includes a query includes every prefix of it |
| PyStr.Dedupe | utils/text_utils.py:121 | `list(dict.fromkeys(xs))` holds no repeats and the same items |
| PyStr.DedupeOfNoDups | utils/text_utils.py:121 | a list without repeats is left as it is |
| PyStr.DedupeIdempotent | utils/text_utils.py:121 | removing repeats twice is removing them once |
| PyStr.DedupeKeepsFirstOccurrenceOrder | utils/text_utils.py:121 | the items keep the order of their first occurrences |
| PyStr.SortStringsAscending | logics/embedder.py:20 | `sorted` gives ascending strings |
| PyStr.SortedSetStrictlyAscending | logics/embedder.py:20 | `sorted(set(xs))` is strictly ascending and holds exactly the items of xs |
| PyStr.SortedSetDependsOnElementsOnly | logics/embedder.py:63 | `sorted(set(xs))` depends only on which items occur |
| PyStr.StripEmptyIffBlank | logic/job_processor.py:49 | stripping leaves nothing exactly when the text is all whitespace |
| PyStr.JoinSplitOn | utils/text_utils.py:167 | joining `split('\n')` with '\n' gives the text back |
| PyStr.Find | logics/llmEvaluate.py:45 | `str.find` gives the first occurrence, and one exactly when the pattern occurs |
| PyStr.DecimalRoundTrip | app/server/services/user_service.py:30 | `str(user_id)` of a natural number reads back as the same number |

## Left out

- Language-model calls (`extract_with_gemini`, the `llm_clean_*` helpers, the prompt and request in `evaluate_match`): the reply text is a parameter; only the pre- and post-processing is modelled.
- PDF and OCR text extraction (fitz, pytesseract): the extracted text is a parameter. `ResumeSchema.PickExtractor` models the extension dispatch shared by all three `parse_resume` functions.
- Embedding models, numpy cosine similarity and the vector database's query/add/get/delete: embeddings and similarity scores are parameters, and `index_all_*` file reading is not modelled. The encoder of `Embedder.EmbedJson` is a parameter, so an exception raised by `model.encode` is not modelled.
- The wall clock, uuids, password hashing and token signing and expiry: parameters of the operations that use them.
- VectorStore.CvMetadataOf: one `now` stands for both `posted_at` and `created_at`, while the source reads the clock twice, so the two may differ by microseconds there.
- VectorStore.JobMetadataOf: one `now` stands for the default `posted_date` and for `created_at`, which the source reads from two clock calls.
- SignIn.ValidationError: the six-character minimum counts code points, while JavaScript's `length` counts UTF-16 units, so a password with characters outside the Basic Multilingual Plane may pass in the browser where the model reports it too short.
- JsText.NumberOf: `Number(...)` is modelled for signed decimal literals only; exponents, `0x`/`0b`/`0o` prefixes and `Infinity` read as `NaN`.
- Floating point: every float is a Dafny `real`, so float rounding error is not modelled, and a JSON number cannot be the `NaN`, `Infinity` or `-Infinity` that `json.loads` accepts.
- PyRound.Round2: `round(x, 2)` rounds half to even on the exact real value, so where Python's binary float lies just below or above a half the two may differ by 0.01; its contract states only that the result has two decimals and lies within 0.005 of `x`.
- MatchingLogic.RankedAt: the reported semantic score is not rounded to four places as `round(score, 4)` does.
- `str()` of a JSON value inside a string: the printed form is a `show` parameter, not Python's repr.
- Unicode: `\s`, `strip` and `split` use the whole `str.isspace` set. `\w` accepts the letters of ASCII, Latin-1, Latin Extended-A and -B and Latin Extended Additional; letters of other scripts count as non-word characters. `lower` and `upper` map the ASCII and Latin-1 letters, the regular case pairs of Latin Extended-A and Latin Extended Additional, and `Ơ`/`Ư`, which covers the Vietnamese alphabet; every other letter (`µ`, `ÿ`, `Ÿ`, `İ`, Greek, Cyrillic) keeps its case. `str.title` is ASCII-only. `isdigit`, `\d` and the `%Y-%m` digits accept only `0`-`9`, while Python also accepts the other Unicode decimal digits. Special case mappings other than `ß` to `SS` are not modelled.
- CvJobMatcher.FindMatchingJobs: when two or more jobs are matched, the model sorts only when every score is a number and otherwise returns no jobs, as Python does when a mix of numbers and strings makes the sort raise; Python would also sort any list of mutually comparable non-numbers (all strings, all lists, all tuples), which the model does not.
- In-place mutation of the job dictionaries in `find_matching_jobs_for_cv` is modelled as new records, so aliasing between the caller's list and the result is not captured.
- Async Mongo, Beanie and pydantic coercion: awaited calls are sequential, `find_one` returns the first match in insertion order, and `created_at`/`posted_at` timestamps are not stored.
- Documents.IdOf: a document whose id field is not an integer counts as id 0 in the max+1 allocation.
- The keyword arguments of `update` are a map from field names to values; the field holding the key is chosen by the caller, as the repositories do.
- Concurrency: the max+1 id allocation is racy under concurrent requests, and React can double-submit; both are out of scope.
- FastAPI routers, app and database setup, configuration and logging.
- The pass-through services `cv_service.py`, `job_service.py`, `application_service.py` and `match_service.py` are not part of this model.
- Onboarding answers: a truthy non-string value in a text answer is read as the empty string.
- The client's `fetch`, `parseOrThrow`, `localStorage`, `alert` and `console`: backend outcomes are parameters, and the wizard's backend calls are a ghost log.
- The FileReader logo upload of the recruiter flow: the logo is a parameter.
- The Mastodon bot, its listeners and posting, the LlamaIndex and Chroma adapters and connections, and the orchestration scripts (`logics/matchingLogic.py`, `logic/candidate_matcher.py`, `initdb.py`, `cli.py`, `main.py`).
- Presentational React components and mock tables, which only render.

## Findings

| source | as written | input that shows it | evidently intended | confidence | as-written member | corrected member |
|---|---|---|---|---|---|---|
| logic/resume_parser.py:141 | `str(item).strip("•- \n\t").strip()` strips the bullets before the remaining whitespace, so a carriage return in front of a bullet stops the bullet strip | a highlight `"\r- built a thing"` comes out of `filter_highlights` as `"- built a thing"`; filtering that again gives `"built a thing"` | bullets and whitespace stripped together, so that filtering filtered highlights changes nothing | medium, not executed | ResumeHighlights.FilterNotIdempotent | ResumeHighlights.FilterFixed |

`ResumeHighlights.FilterFixed` uses `ResumeHighlights.CleanFixed`, and `ResumeHighlights.FilterFixedIdempotent` proves that it is idempotent. The parser pipeline (`FilterHighlights`, `ResumeSchema`) keeps the behaviour as written, because it models the source.
