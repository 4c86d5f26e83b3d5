# Simulated-patient interview trainer: a Dafny model of its core

The application lets instructors write "patient actors" (personas) that a
chat model role-plays. Students interview a persona, save the conversation
as a chat session, and submit the session to an instructor. The instructor
reviews it, leaves feedback and an optional grade, and may attach a grading
rubric to each persona. This project models that core and proves properties
of it:

- **The prompt compiler and its reader** (`prompt_utils.dfy`, `prompt_cues.dfy`).
  - The generator turns a structured persona description into labelled
    profile sections, a numbered list of behaviour instructions and optional
    custom instructions.
  - The parser reads a prompt text back. It extracts labelled fields and
    detects the behaviour settings through lowercase substring cues.
  - The model proves the exact layout of a generated prompt. It also proves
    that parsing a generated prompt recovers its settings: in full when the
    free-text fields are empty, and otherwise only when no free-text field
    contains one of eight cue trigrams (see Left out).
- **The persona registry and slugs** (`slugs.dfy`, `patient_actors.dfy`, `migrate_slugs.dfy`).
  - The slug pipeline turns a name into a URL slug.
  - The uniqueness loop tries `base`, `base-1`, `base-2`, … until a slug is free.
  - Get, update and delete are gated on ownership; lookup by slug returns
    only public personas; the starter persona is created per user.
  - The migration script gives every persona without a real slug the first
    free one, one persona at a time.
- **Sessions, submissions, chat access and rubrics** (`sessions.dfy`, `chat.dfy`, `rubrics.dfy`).
  - These are the server actions, over a store class `Db` (`store.dfy`).
    The store holds one finite map per table.
  - The signed-in user is an optional caller id.
- **Client state** (`rubric_editor.dfy`, `chat_interface.dfy`, `page_client.dfy`, `objectives.dfy`).
  - The rubric editor, the stand-alone chat panel, the home page's persona
    list and the objectives checklist.
  - These components update state step by step, so each is a class with
    methods, except the objectives list, which is a pure `map` and count.

Supporting modules: `wrappers.dfy` (`Option`, `Result`), `text.dfy`
(lowercasing, trimming, substring search, joining, decimal numerals),
`listing.dfy` (ordering a query result by a total preorder) and
`rubric_types.dfy` (rubric records and the standard OSCE template).

Three facts about the code that the model follows:

- The instruction list always ends its fixed part with three universal directives.
- The server stores a rubric's `totalPoints` exactly as the client sends it. It does not recompute it.
- An update never touches a slug, but the migration script rewrites the slugs of the personas it selects.

## Model

| member | source | states |
|---|---|---|
| Store.RequireAuth | lib/auth-utils.ts:21-29 | The caller id is returned exactly when someone is signed in; otherwise the action fails with the not-signed-in message. |
| PromptUtils.ProfileSectionsPositions | lib/prompt-utils.ts:49-80 | A profile section is emitted exactly for each non-empty field. Field k's section sits at the position equal to the number of non-empty fields before k, so the eight fields keep their fixed order. |
| PromptUtils.DirectivesLayout | lib/prompt-utils.ts:86-132 | The instruction list has 1 + 2·stay + 3·jargon + 3 + 8·feedback items. Item 1 is the revelation paragraph; the three universal directives follow the optional stay and jargon blocks. |
| PromptUtils.DirectivesOptionalBlocks | lib/prompt-utils.ts:100-132 | Each optional block (stay in character, avoid jargon, feedback) appears at its place exactly when its flag is set, and the list ends with the universal directives when feedback is off. |
| PromptUtils.SentencesConcat | lib/prompt-utils.ts:100-132 | Building instructions block by block gives the concatenation of the blocks' sentences. |
| PromptUtils.BlocksLayout | lib/prompt-utils.ts:100-132 | The instruction list's length and the position of each block, for any choice of enabled blocks. |
| PromptUtils.NumberedLineReadBack | lib/prompt-utils.ts:134-135 | Line k of the numbered list starts with the decimal numeral k + 1, then ". ", then item k, so the numbering can be read back. |
| PromptUtils.Generate | lib/prompt-utils.ts:45-144 | The prompt is the profile sections, each followed by a blank line, then the Instructions section, which is always present, then a blank line and the custom section only when custom instructions are non-empty. |
| PromptUtils.GenerateLayout | lib/prompt-utils.ts:134-143 | The section list is the profile sections in order, then the Instructions section, then the custom section exactly when custom instructions are non-empty. |
| PromptUtils.FindFrom | lib/prompt-utils.ts:154-158 | The first position at or after `from` where the label pattern matches, or none when it matches nowhere. |
| PromptUtils.SpaceRunEnd | lib/prompt-utils.ts:155 | The end of the whitespace run after a label: everything skipped is whitespace and the next character is not. |
| PromptUtils.NextStop | lib/prompt-utils.ts:155 | The first point at or after the start where the lazy capture stops: a line break followed by `**` or by another line break, or the end of the text. |
| PromptUtils.StripQuotes | lib/prompt-utils.ts:157 | The result is a slice of the input; one leading and one trailing quote go when both are present, and a value without edge quotes is unchanged. |
| PromptUtils.ExtractAfterLabel | lib/prompt-utils.ts:154-158 | A label that does not occur gives the empty string. |
| PromptUtils.NoLabelNoValue | lib/prompt-utils.ts:154-158 | A text with no `*` contains no bold label, so every extraction from it is empty. |
| PromptUtils.CustomFrom | lib/prompt-utils.ts:186-189 | Without the Additional Instructions label there is no custom text; custom text that is found is the trimmed remainder of the prompt after a line break at or after the search start. |
| PromptUtils.BreakAfterLabel | lib/prompt-utils.ts:186 | The break where the custom group starts lies after the search start, before the last character, and is a line break; there is none without a label match. |
| PromptUtils.LastBreak | lib/prompt-utils.ts:186 | Where the custom-instructions regex's whitespace run backs off to: the last line break in the run that has text after it, or none. |
| PromptUtils.DetectRevelation | lib/prompt-utils.ts:172-178 | The level is one of the three. It is "reserved" exactly when the reserved cue is present, and "forthcoming" exactly when the forthcoming cue is present and the reserved one is not. |
| PromptUtils.Parse | lib/prompt-utils.ts:150-191 | The parsed revelation level is always one of the three values, and without an Additional Instructions match the custom instructions stay empty, as in the defaults. |
| PromptUtils.ParseWithoutLabels | lib/prompt-utils.ts:150-168 | Parsing a text without bold labels leaves every free-text field empty, as in the defaults. |
| PromptCues.ParseSettings | lib/prompt-utils.ts:171-183 | In the lowercased text: the level is reserved iff it contains "brief" and "minimal" or "only reveal information when directly asked"; otherwise forthcoming iff it contains "detailed information readily" or "open and communicative"; otherwise moderate. Stay in character iff "stay in character" or "maintain character" occurs; avoid jargon iff both "avoid" and "jargon" occur; feedback iff "feedback" or "rating" occurs. |
| PromptCues.EffectiveLevel | lib/prompt-utils.ts:86-98 | The level the generator acts on is one of the three, and it produces the same revelation paragraph as the stored value. |
| PromptCues.RevelationChoice | lib/prompt-utils.ts:86-98 | Item 1 is the forthcoming paragraph iff the level is "forthcoming" and the reserved paragraph iff it is "reserved"; every other value gives the moderate paragraph. |
| PromptCues.RevelationParagraphsDistinct | lib/prompt-utils.ts:86-98 | The three revelation paragraphs are pairwise different. |
| PromptCues.RevelationRoundTrip | lib/prompt-utils.ts:172-178 | On a generated prompt, revelation detection returns the level the generator acted on, when no free-text field contains, in any letter case, one of the trigrams "bri", "dir", "ead", "ope", "cha", "jar", "fee" or "tin". |
| PromptCues.StayRoundTrip | lib/prompt-utils.ts:181 | On a generated prompt, the stay-in-character cue is present iff the flag was set, when no free-text field contains, in any letter case, one of the trigrams "bri", "dir", "ead", "ope", "cha", "jar", "fee" or "tin". |
| PromptCues.JargonRoundTrip | lib/prompt-utils.ts:182 | On a generated prompt, the avoid-jargon cue is present iff the flag was set, when no free-text field contains, in any letter case, one of the trigrams "bri", "dir", "ead", "ope", "cha", "jar", "fee" or "tin". |
| PromptCues.FeedbackRoundTrip | lib/prompt-utils.ts:183 | On a generated prompt, the feedback cue is present iff the flag was set, when no free-text field contains, in any letter case, one of the trigrams "bri", "dir", "ead", "ope", "cha", "jar", "fee" or "tin". |
| PromptCues.ParseGenerateSettings | lib/prompt-utils.ts:171-183 | Parsing a generated prompt recovers the effective revelation level and all three flags, when no free-text field contains, in any letter case, one of the trigrams "bri", "dir", "ead", "ope", "cha", "jar", "fee" or "tin" (a sufficient condition, see Left out). |
| PromptCues.ParseGenerateSettingsWhenEmpty | lib/prompt-utils.ts:171-183 | With every free-text field empty, parsing a generated prompt recovers the effective revelation level and all three flags. |
| Slugs.SqueezeHyphensSingle | scripts/migrate-slugs.ts:9 | After hyphen runs are collapsed, no two hyphens are adjacent. |
| Slugs.CreateSlug | scripts/migrate-slugs.ts:4-11 | A slug consists of lowercase letters, digits, `_` and `-` only, with no two hyphens in a row. |
| Slugs.SqueezedShape | scripts/migrate-slugs.ts:4-10 | Before the trim the text already has only slug characters and no doubled hyphen, so the final trim removes nothing. |
| Slugs.CreateSlugShape | scripts/migrate-slugs.ts:4-11 | A slug has only slug characters and no doubled hyphen, and it keeps the letters, digits and underscores of the lowercased name in order. |
| Slugs.SlugFixed | scripts/migrate-slugs.ts:4-11 | Any string of slug characters without doubled hyphens is its own slug. |
| Slugs.CreateSlugIdempotent | scripts/migrate-slugs.ts:4-11 | Slugifying a slug gives it back. |
| Slugs.CandidateInjective | lib/actions/patient-actors.ts:63 | Different counters give different candidates `base`, `base-1`, `base-2`, …. |
| Slugs.FirstFreeSlug | lib/actions/patient-actors.ts:60-65 | The loop returns the first candidate not in use: every earlier candidate is in use and the one returned is not. |
| Slugs.FirstFreeUnique | lib/actions/patient-actors.ts:60-65 | The first free candidate is unique, so the loop's choice is determined by the slugs in use. |
| PatientActors.GetPatientActor | lib/actions/patient-actors.ts:23-39 | Success iff signed in, the persona exists and the caller owns it; not-found is reported before the ownership error. |
| PatientActors.AddFreshSlugValid | lib/actions/patient-actors.ts:67-75 | Adding a persona with a new id and an unused slug keeps ids and slugs unique. |
| PatientActors.CreatePatientActor | lib/actions/patient-actors.ts:44-78 | The new persona is owned by the caller, takes the given fields and the schema defaults, and gets the first free candidate of the supplied slug or the name's slug. Nothing else in the store changes. |
| PatientActors.ApplyPatch | lib/actions/patient-actors.ts:119-123 | An update never changes the id, slug, owner, visibility or creation time. |
| PatientActors.ApplyPatchLaws | lib/actions/patient-actors.ts:119-123 | An empty patch changes nothing and applying the same patch twice is the same as once. |
| PatientActors.ApplyPatchWrites | lib/actions/patient-actors.ts:119-123 | Each of the sixteen patchable fields (name, age, prompt and the thirteen profile fields) takes the supplied value, and keeps its old value when none is supplied. |
| PatientActors.UpdatePatientActor | lib/actions/patient-actors.ts:83-126 | Fails exactly when the get would fail, with its message and no change; otherwise only that persona changes, by the patch. |
| PatientActors.DeletePatientActor | lib/actions/patient-actors.ts:131-153 | Fails exactly when the get would fail, with its message; otherwise the persona, and only it, is gone. |
| PatientActors.GetPatientActorBySlug | lib/actions/patient-actors.ts:159-174 | A persona is returned iff one with that slug exists and is public; it is that stored record. |
| PatientActors.GetMyPatientActors | lib/actions/patient-actors.ts:9-18 | Exactly the caller's personas, each once, newest first. |
| PatientActors.LastChars | lib/actions/patient-actors.ts:208 | The last n characters, or the whole string when it is shorter. |
| PatientActors.CreateStarterPatientActor | lib/actions/patient-actors.ts:180-216 | Creates the public starter persona with slug "philip-walters-" plus the last six characters of the user id; there is no uniqueness loop, so it fails iff that slug is taken. |
| PatientActors.StarterSlugClash | lib/actions/patient-actors.ts:208 | Any two user ids of at least six characters that end in the same six characters get the same starter slug, so once one starter persona exists the other's slug is already in use. |
| PatientActors.ShortIdSlug | lib/actions/patient-actors.ts:208 | An id of at most six characters is used whole in the starter slug. |
| MigrateSlugs.ReslugValid | scripts/migrate-slugs.ts:38-41 | Giving one persona an unused slug keeps slugs unique. |
| MigrateSlugs.AssignStep | scripts/migrate-slugs.ts:29-41 | One loop step keeps slugs unique and extends the record of which slug each processed persona chose from which slugs in use. |
| MigrateSlugs.AssignSlug | scripts/migrate-slugs.ts:29-41 | The current persona gets the first free candidate of its name's slug among the slugs in use at that moment. |
| MigrateSlugs.PicksNamed | scripts/migrate-slugs.ts:29-36 | Every processed persona's slug is the first free candidate of its original name's slug at its turn. |
| MigrateSlugs.Migrate | scripts/migrate-slugs.ts:17-44 | Exactly the personas with an empty or `temp-` slug are processed, in order. Each gets the first free candidate at its turn, only slugs change, and all slugs stay unique. |
| Listing.Insert | lib/actions/patient-actors.ts:14 | Inserting into an ordered list keeps it ordered and adds exactly the new element. |
| Listing.OrderBy | lib/actions/patient-actors.ts:14 | The result is ordered and holds exactly the queried records, each once. |
| Sessions.CreateChatSession | lib/actions/sessions.ts:11-31 | A new session owned by the caller, with no messages and a count of 0; it fails if the user or persona does not exist. |
| Sessions.OwnSession | lib/actions/sessions.ts:43-54 | Success iff signed in, the session exists and the caller owns it, with a distinct message for each failure. |
| Sessions.Saved | lib/actions/sessions.ts:56-63 | The whole message list is replaced, the count is its length and the last-message time is the given one. |
| Sessions.UpdateChatSession | lib/actions/sessions.ts:36-70 | Fails exactly when the ownership check fails, with no change; otherwise only that session's messages, count and time change. |
| Sessions.GetStudentSessions | lib/actions/sessions.ts:75-109 | Exactly the caller's sessions, each once, latest activity first. |
| Sessions.GetChatSession | lib/actions/sessions.ts:114-162 | Success iff the caller owns the session or is the instructor its submission is assigned to. |
| Sessions.OwnerCanView | lib/actions/sessions.ts:148-153 | An owner can always view their session. |
| Sessions.SubmitCheck | lib/actions/sessions.ts:172-212 | Success iff the user exists, owns an existing, not yet submitted session, and the target exists with the instructor or admin role. Each failure gives its own message, checked in the code's order: not signed in, user not found, session not found, not your session, already submitted, instructor not found, not an instructor. |
| Sessions.SubmitOnlyOnce | lib/actions/sessions.ts:197-199 | After a submission, submitting the same session again fails with the already-submitted message, whoever the target is. |
| Sessions.SubmitByOwnerOnly | lib/actions/sessions.ts:193-195 | Someone else's session cannot be submitted. |
| Sessions.SubmitSessionToInstructor | lib/actions/sessions.ts:167-230 | On success exactly one pending submission assigning the session to the instructor is added; on failure nothing changes. |
| Sessions.InstructorGate | lib/actions/sessions.ts:237-250 | Success iff the caller exists and has the instructor or admin role. |
| Sessions.GetSubmittedSessions | lib/actions/sessions.ts:235-284 | Only instructors are served; they get exactly the submissions assigned to them, newest first. |
| Sessions.GetSubmissionsByPatientActor | lib/actions/sessions.ts:289-343 | As above, restricted to sessions with the given persona. |
| Sessions.GradeOrNull | lib/actions/sessions.ts:386 | An empty grade is stored as no grade. |
| Sessions.StatusFor | lib/actions/sessions.ts:387 | The status is graded iff the grade is non-empty, and reviewed otherwise; it is never pending. |
| Sessions.Review | lib/actions/sessions.ts:382-390 | A review keeps the submission's identity and submit time, records the feedback and review time, stores the grade sent (an empty one as none) and sets the status from that grade. |
| Sessions.ReviewStatus | lib/actions/sessions.ts:386-387 | The status is graded iff a non-empty grade was sent and reviewed otherwise; a non-empty grade is stored as sent and any other as none, whatever the submission held before, so a graded submission saved without a grade reverts to reviewed. |
| Sessions.ReviewIdempotent | lib/actions/sessions.ts:382-390 | Saving the same review twice is the same as once. |
| Sessions.FeedbackCheck | lib/actions/sessions.ts:354-380 | Success iff the caller is an instructor and the submission exists and is assigned to them. |
| Sessions.UpdateSubmissionFeedback | lib/actions/sessions.ts:348-400 | Fails exactly when the check fails, with no change; otherwise only that submission is reviewed. |
| Sessions.ByNameIsTotalPreorder | lib/actions/sessions.ts:418 | Ordering users by name is a total preorder. |
| Sessions.GetInstructors | lib/actions/sessions.ts:405-428 | Exactly the users with the instructor or admin role, each once, by name. |
| Chat.GenerateResponse | lib/actions/chat.ts:11-37 | Fails with the ownership check's message; otherwise it is the model's answer for the persona's stored prompt and the messages. |
| Chat.GeneratePublicResponse | lib/actions/chat.ts:43-67 | Fails for a missing or non-public persona; otherwise it is the model's answer. |
| Chat.OwnerOfPublicPersona | lib/actions/chat.ts:11-67 | For the owner of a public persona both actions give the same answer. |
| Chat.ChecksBeforeModel | lib/actions/chat.ts:21-30 | When the checks fail the model is not consulted: the result is the same for every model. |
| Rubrics.GetRubricByPatientActor | lib/actions/rubrics.ts:10-35 | Fails exactly as the persona get does; otherwise returns the persona's rubric, or none. |
| Rubrics.StoredRubric | lib/actions/rubrics.ts:61-76 | The stored rubric takes the categories, total and auto-grade flag as sent; a threshold that is not sent is left out of the write. |
| Rubrics.ClearedThresholdKept | lib/actions/rubrics.ts:73 | An existing threshold of 30 survives an upsert that sends none. |
| Rubrics.StoredRubricIntended | lib/actions/rubrics.ts:61-76 | The intended write stores every field of the data under the persona. |
| Rubrics.IntendedUpsertRoundTrip | lib/actions/rubrics.ts:61-76 | With every field written, the owner reads back exactly the data sent, total included, whether the rubric was created or overwritten. |
| Rubrics.StoredRubricDiffersOnlyThere | lib/actions/rubrics.ts:67-73 | The as-written and intended writes agree except when an existing threshold meets a missing one. |
| Rubrics.UpsertRubric | lib/actions/rubrics.ts:40-85 | Fails as the persona get does, with no change. Otherwise the persona has exactly one rubric, holding every field sent (the corrected write, see Findings), and other personas' rubrics are untouched. |
| Rubrics.DeleteRubric | lib/actions/rubrics.ts:90-119 | Fails as the persona get does; otherwise the persona has no rubric, whether or not it had one. |
| Rubrics.DeleteThenGet | lib/actions/rubrics.ts:108-110 | After a delete the owner reads no rubric, and deleting again changes nothing. |
| RubricTypes.StandardOsceRubricShape | lib/types/rubric.ts:18-49 | The template has 5 categories, each with 10 points, a name and a description. |
| RubricTypes.StandardOsceNamesDistinct | lib/types/rubric.ts:20-46 | The template's category names are pairwise distinct. |
| RubricEditing.TotalPoints | components/patient-rubric-editor.tsx:112-114 | When no category has negative points, the total is not negative and no category is worth more than it. |
| RubricEditing.TotalPointsAppend | components/patient-rubric-editor.tsx:112-114 | The total of a concatenation is the sum of the totals. |
| RubricEditing.TotalPointsAround | components/patient-rubric-editor.tsx:112-114 | The total splits around any one category. |
| RubricEditing.TotalPointsUniform | components/patient-rubric-editor.tsx:112-114 | Categories of equal points total their number times the points. |
| RubricEditing.StandardOsceTotal | lib/types/rubric.ts:18-49 | The template totals 50 points. |
| RubricEditing.StandardOsceComplete | lib/types/rubric.ts:18-49 | Every template category passes the editor's save validation. |
| RubricEditing.NewCategoryIncomplete | components/patient-rubric-editor.tsx:90-100 | A freshly added category is worth 10 points and cannot be saved until named and described. |
| RubricEditing.Removed | components/patient-rubric-editor.tsx:108-110 | Removing index i drops exactly that entry and keeps the rest in order; an index out of range changes nothing. |
| RubricEditing.RemovedTotal | components/patient-rubric-editor.tsx:108-114 | Removing a category lowers the total by its points. |
| RubricEditing.Merged | components/patient-rubric-editor.tsx:102-106 | Each supplied field replaces the old value and each missing one keeps it. |
| RubricEditing.CategoriesValid | components/patient-rubric-editor.tsx:118-128 | The list is valid iff it is non-empty and every category has a name, a description and non-zero points; negative points pass. |
| RubricEditing.LeadingDigits | components/patient-rubric-editor.tsx:252 | The longest prefix of decimal digits. |
| RubricEditing.ParseIntOrZero | components/patient-rubric-editor.tsx:252 | A points entry that does not start with a number (after whitespace and a sign) becomes 0, and only an entry starting with a minus sign becomes negative. |
| RubricEditing.ParseIntOfNatToString | components/patient-rubric-editor.tsx:252 | A points entry typed as a decimal number reads back as that number; the program's `parseInt` returns a double, so this holds for it only below 2^53 (see Left out). |
| RubricEditing.RubricEditor.constructor | components/patient-rubric-editor.tsx:48-53 | The editor opens with no categories, no threshold, auto-grading on, and nothing saving. |
| RubricEditing.RubricEditor.HasCategories | components/patient-rubric-editor.tsx:66 | True iff the category list is non-empty. |
| RubricEditing.RubricEditor.Load | components/patient-rubric-editor.tsx:69-83 | A stored rubric replaces the categories, flag and threshold (a threshold of 0 shows as none); no rubric changes nothing. |
| RubricEditing.RubricEditor.LoadTemplate | components/patient-rubric-editor.tsx:85-88 | The categories become the template, totalling 50. |
| RubricEditing.RubricEditor.AddCategory | components/patient-rubric-editor.tsx:90-100 | Exactly the new empty category is appended and the total rises by 10. |
| RubricEditing.RubricEditor.UpdateCategory | components/patient-rubric-editor.tsx:102-106 | Only entry i changes, by the merge, and the total changes by that entry's difference. |
| RubricEditing.RubricEditor.RemoveCategory | components/patient-rubric-editor.tsx:108-110 | Exactly entry i is removed and the total falls by its points. |
| RubricEditing.RubricEditor.SetPassingThreshold | components/patient-rubric-editor.tsx:289 | The threshold field takes the entered value, or none when cleared. |
| RubricEditing.RubricEditor.Save | components/patient-rubric-editor.tsx:116-154 | Data is sent iff the categories are valid, with the total computed from those same categories; the status then reflects the server's answer. |
| RubricEditing.RubricEditor.Delete | components/patient-rubric-editor.tsx:156-171 | The editor resets only after a confirmed, successful delete. |
| ChatPanel.Contents | components/chat-interface.tsx:39 | The contents of the messages, in order. |
| ChatPanel.ReplyTo | components/chat-interface.tsx:41-55 | The model's answer, or the fixed apology when the model fails. |
| ChatPanel.PromptIsTranscript | components/chat-interface.tsx:39 | The prompt is the earlier messages and the new input, joined by newlines. |
| ChatPanel.AlternatesRoles | components/chat-interface.tsx:17-55 | The conversation has odd length; the patient speaks at even positions and the student at odd ones, provided sends do not overlap (the Enter key still sends while a reply is loading; see Left out). |
| ChatPanel.ExchangeKeepsShape | components/chat-interface.tsx:29-55 | A send strictly extends the conversation, keeps the greeting first and keeps the roles alternating, provided sends do not overlap. |
| ChatPanel.ChatInterface.constructor | components/chat-interface.tsx:17-24 | The panel opens with the greeting alone, an empty input and nothing loading. |
| ChatPanel.ChatInterface.SetInput | components/chat-interface.tsx:117 | Typing changes only the input. |
| ChatPanel.ChatInterface.SendMessage | components/chat-interface.tsx:26-59 | Blank input changes nothing. Otherwise the untrimmed input and then the reply or apology are appended, the input is cleared and loading ends; earlier messages never change. |
| HomePage.ReplacedAt | app/page-client.tsx:33-35 | Exactly the entries with the updated id become the update; the rest keep their place. |
| HomePage.ReplacedIds | app/page-client.tsx:33-35 | An update keeps the list of ids. |
| HomePage.WithoutMembers | app/page-client.tsx:45 | The filter keeps exactly the personas with another id. |
| HomePage.WithoutDistinct | app/page-client.tsx:45 | The filter keeps distinct ids distinct. |
| HomePage.DistinctAfterCreate | app/page-client.tsx:61 | Prepending a persona with a new id keeps ids distinct. |
| HomePage.DistinctAfterUpdate | app/page-client.tsx:33-35 | An update keeps ids distinct. |
| HomePage.HomeClient.constructor | app/page-client.tsx:20-24 | The first persona is selected, or none when the list is empty. |
| HomePage.HomeClient.Update | app/page-client.tsx:32-39 | Only entries with the updated id change, the ids stay, and the selection is replaced iff its id matches. |
| HomePage.HomeClient.Delete | app/page-client.tsx:41-50 | No selection means no change; otherwise the selected id leaves the list and the first remaining persona, or none, is selected. |
| HomePage.HomeClient.Create | app/page-client.tsx:52-68 | On success the new persona is prepended and selected; on failure nothing changes; no create is running afterwards. |
| HomePage.HomeClient.Click | app/page-client.tsx:129 | Clicking a listed persona selects it. |
| Objectives.Toggle | components/objectives-panel.tsx:21-23 | Length, order, ids and texts are kept. |
| Objectives.ToggleAt | components/objectives-panel.tsx:22 | Exactly the objectives with the id flip their completed flag. |
| Objectives.ToggleTwice | components/objectives-panel.tsx:22 | Toggling the same id twice restores the list. |
| Objectives.ToggleAbsent | components/objectives-panel.tsx:22 | Toggling an id that no objective has changes nothing. |
| Objectives.CompletedCount | components/objectives-panel.tsx:25 | The count of completed objectives is at most the number of objectives. |
| Objectives.ToggleCount | components/objectives-panel.tsx:21-25 | With unique ids, a toggle moves the count by exactly one, in the direction of the flip. |
| Objectives.InitialChecklist | components/objectives-panel.tsx:13-19 | Five objectives with ids 1 to 5, none complete. |

## Left out

- Lowercasing maps only `A`-`Z`; Unicode case folding is not modelled. Whitespace is the full set JavaScript's `\s` and `trim` use: tab, line feed, vertical tab, form feed, carriage return, space, U+00A0, U+1680, U+2000-U+200A, U+2028, U+2029, U+202F, U+205F, U+3000 and U+FEFF.
- The label-matching regex is modelled as a scanner over the same pattern. The regex engine's backtracking is not modelled beyond that.
- The chat model (the Gemini/OpenAI call) is a function parameter that may fail. It receives the persona's stored prompt and the messages. The model does not say what the answer contains.
- The identity provider is an optional caller id. Redirects and request headers are not modelled.
- Timestamps and new record ids are parameters, because the code takes them from the clock and the database.
- The database is a set of finite maps.
  - The schema's column defaults for a new persona are a parameter.
  - Slug uniqueness is a store invariant; a clash fails with the store's message.
  - Creating a chat session for a missing user or persona fails with the store's foreign-key message. Persona creation (`createPatientActor`, `createStarterPatientActor`) does not check that the owner id names a user; the store's foreign key on the owner is not modelled there.
  - Cascading deletes of a persona's sessions and rubric are not modelled.
  - Relations that queries include (owner, persona, student) are not returned.
  - Name ordering uses code-point order, not the database's collation.
- The starter persona's prompt, a long literal written inline in `createStarterPatientActor`, is a parameter; its text has no logic.
- PromptCues.ParseGenerateSettings: proved only when no free-text field contains, in any letter case, one of the eight trigrams "bri", "dir", "ead", "ope", "cha", "jar", "fee", "tin". This condition is stronger than the absence of the cue phrases and excludes ordinary words such as "headache", "feels", "sitting", "hope" and "change". The round trip under the mere absence of the cue phrases is not proved. Some condition is needed: every non-empty field is copied into the prompt, so a field containing "rating" sets the parsed feedback flag whatever the setting was.
- PromptCues.RevelationRoundTrip: proved only under the same eight-trigram condition as PromptCues.ParseGenerateSettings, not under the mere absence of the cue phrases; a field such as "brief, minimal" turns a moderate level into reserved.
- PromptCues.StayRoundTrip: proved only under the same eight-trigram condition, not under the mere absence of "stay in character" and "maintain character"; a field containing either phrase sets the parsed flag.
- PromptCues.JargonRoundTrip: proved only under the same eight-trigram condition, not under the mere absence of "avoid" or "jargon"; a field containing both words sets the parsed flag.
- PromptCues.FeedbackRoundTrip: proved only under the same eight-trigram condition, not under the mere absence of "feedback" and "rating"; a field containing either word sets the parsed flag.
- RubricEditing.ParseIntOrZero: `parseInt` is modelled for decimal input only. Its hexadecimal prefix handling is not modelled, and a threshold field that parses to NaN is not modelled. Every number is a mathematical integer: `parseInt` returns a double, which rounds values above 2^53 (`"9007199254740993"` reads as 9007199254740992), and that rounding is not modelled.
- RubricEditing.ParseIntOfNatToString: the read-back is proved for every natural number; the program's double-valued `parseInt` gives it back exactly only below 2^53.
- PatientActors.UpdatePatientActor: the patch's age is an optional integer. The persona editor sends `parseInt(age)`, which is NaN when the age field is emptied; a NaN age reaching the store, and whatever the store then does with it, is not modelled.
- Numbers stored in the database's integer columns (age, totalPoints, passingThreshold) are unbounded integers in the model; the columns' fixed width and the store's rejection of out-of-range values are not modelled.
- Rubrics.UpsertRubric: stores the corrected write, in which a threshold that is not sent is written as none. The program as written keeps an existing threshold in that case; Rubrics.StoredRubric models that write (see Findings).
- React rendering, toasts, timers that reset the save status, confirmation dialogs and `revalidatePath` are UI effects with no logic; a cancelled or failed confirmation is a parameter of `Delete`.
- Each React handler is one sequential step. Stale closures and interleaved asynchronous handlers are not modelled. In particular the chat panel's Enter-key handler sends even while a reply is loading (only the button is disabled), so two overlapping sends could break the role alternation that ChatPanel.AlternatesRoles states for sequential sends.
- The objectives panel's progress percentage is floating point and is not modelled.

## Findings

| source | as written | input that shows it | evidently intended | confidence | as-written member | corrected member |
|---|---|---|---|---|---|---|
| lib/actions/rubrics.ts:73 | The upsert's update passes `passingThreshold` as `undefined` when the editor's threshold is cleared, and the store then leaves the column unchanged | An existing rubric with threshold 30, saved again with the threshold field cleared: the rubric read back still has threshold 30 | Clearing the threshold in the editor clears it in the store (write null) | medium, not executed | Rubrics.StoredRubric, Rubrics.ClearedThresholdKept | Rubrics.StoredRubricIntended, Rubrics.IntendedUpsertRoundTrip |
