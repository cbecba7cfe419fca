# Campus placement portal: session, navigation and profile model

A Dafny model of the state machine at the heart of the campus placement portal's single-page
script (`app.js`). It covers:

- login against the demo credential table and the role check;
- logout;
- the role-dependent sidebar menu;
- the section router, with its breadcrumb and loader dispatch;
- the quick action.

It also covers the student profile editor:

- the skill grid click;
- the certification add;
- the personal, academic and preferences forms, and what the profile loader shows afterwards;
- the completion display;
- the skill-gap filter;
- the chatbot's keyword reply and its blank-input guard.

The page's state is one immutable record, `Session.State`. It holds:

- the user store;
- the key of the logged-in user, which stands for the script's reference to that record, so edits land in the store itself;
- the current section;
- the sidebar as rendered.

Every handler is a function from a state to an `Outcome`: the next state plus the effects it shows (toasts, breadcrumb and loader, completion percentage, roadmap, modal).

A handler that the script would abort with a `TypeError` yields the effect `Fault` and leaves the state unchanged, except at login completion, where the user has already become current. That happens when nobody is logged in, or when a non-student record has no skill or certification list. The two timers are collapsed into their step: the 1.2 s login completion and the 0.8 s bot reply.

Modules:

- `Wrappers`: `Option`.
- `Text`: ECMAScript `trim`, ASCII case mapping, `includes`, the camelCase to snake_case rewrite.
- `Seqs`: `filter` and its laws.
- `Users`: roles, user records, the seed store, the credential table.
- `Navigation`: the menu table, breadcrumb, loader dispatch.
- `Profile`: the per-record editing operations.
- `Chatbot`: the reply and the send handler.
- `Session`: the state machine, its invariant and its scenarios.

Behaviour a reader might expect that the code does not have, as the model records it:

- The router does not ignore a section outside the role's menu. `navigateToSection` assigns any id unconditionally: `Session.Navigate`, `Session.StudentReachesSettings`.
- The completion score is never recomputed after an edit. `updateProfileCompletion` only displays the stored `profileCompletion`: `Profile.CompletionShown`. The invariant also proves that no handler ever changes it.
- Failures can be fatal. A handler run with nobody logged in, or on a record without the list it edits, throws a `TypeError` (`Fault`). So does the login completion for a record without a `name`, after that record has already become current.
- Skills are an ordered list, not a set. Deselecting removes every occurrence, and re-selecting appends at the end.
- The personal form does not overwrite the fields the profile shows for name and roll number. It writes `full_name` and `roll_no`, which the loader never reads: `Profile.SavePersonalThenLoad`.

## Model

| member | source | states |
|---|---|---|
| Session.Login | app.js:237-257 | Bad credentials give "Invalid credentials" and no state change. Only after a credential match does a missing record or a different role give "Role mismatch", again with no state change. On success the trimmed username's own record becomes current and the store is untouched. If that record has a name, the section is the dashboard and the menu is that role's. A record without a name throws in the completion timer, leaving the menu and section as they were. |
| Session.UsernamePaddingIgnored | app.js:240 | White space around the username never changes the outcome of a login. |
| Session.PasswordPaddingRejected | app.js:241-242 | The password is compared as typed. A working password with a space added at either end is rejected as invalid credentials, with no state change. |
| Session.StudentLoginScenario | app.js:237-257 | From any good state, and with any username that trims to the demo student's address, the demo password logs the student in. The student becomes current, the section is "dashboard", and the menu is exactly the eight student sections in order. |
| Session.WrongPasswordScenario | app.js:242 | The staff address with a wrong password gets "Invalid credentials" in any state, and the state is kept. |
| Session.WrongRoleScenario | app.js:244 | In any good state, valid faculty credentials with the admin role selected give "Role mismatch", and the state is kept. |
| Session.Logout | app.js:148-150 | Logout clears the current user and nothing else. |
| Session.LogoutIdempotent | app.js:149 | Logging out twice equals logging out once. |
| Session.EditsSurviveRelogin | app.js:245 | After logout and a new login, the store is unchanged and the current record is the stored, edited one. The dashboard opens when that record has a name. |
| Navigation.Menu | app.js:266-279 | The menu is the common dashboard and notifications items, with their captions and icons, followed by the role's table entries. Ids are distinct, and only the dashboard is marked active. |
| Navigation.StudentMenuIds | app.js:267-272 | The student menu ids are dashboard, notifications, profile, jobs, applications, interviews, mentorship, chatbot. |
| Navigation.Breadcrumb | app.js:288 | The breadcrumb is the text of the first menu link for the section. It falls back to "Dashboard" when there is no such link or the text is empty. |
| Navigation.BreadcrumbOfMenuItem | app.js:278-288 | In a menu with distinct ids, navigating to an item shows that item's icon and caption. |
| Navigation.LoaderFor | app.js:290-299 | A loader runs exactly for the eight sections the switch names. Any other id runs none. |
| Navigation.LoaderDispatchRoundTrip | app.js:290-299 | Each loader is run by exactly its own section, and only by that one. |
| Session.Navigate | app.js:284-300 | The new state is the old one with the section set to the id, with no menu check. The loader follows the id. An id not in the menu gets the "Dashboard" breadcrumb. |
| Session.StudentReachesSettings | app.js:284-288 | "settings" is not in a logged-in student's menu. Navigating there still makes it the current section, with the fallback breadcrumb. |
| Session.PageNavigationStaysInMenu | app.js:153 | The bell's target is always in the logged-in user's menu. The quick action's target is in the menu, or it leaves the section alone. |
| Session.QuickAction | app.js:375 | Students go to "jobs" and companies get the job-post dialog without a section change. Other roles go to "analytics". With nobody logged in, it throws. |
| Profile.SelectSkill | app.js:196-206 | After a click the skill is listed iff the item is selected, and other skills are kept. Re-selecting a listed skill changes nothing. Selecting a new one appends it. Deselecting removes every occurrence, and the other skills keep their order and counts. No duplicates are introduced. |
| Profile.ToggleSkill | app.js:200-206 | With the grid in step with the list, a click flips the skill's membership. An absent skill is appended at the end. A present one is removed everywhere, and the rest keep their order and counts. |
| Profile.RemoveAll | app.js:205 | Deselecting removes every occurrence. Every other entry keeps its number of occurrences and its order. |
| Profile.RemoveUnique | app.js:205 | In a duplicate-free list, deselecting closes the gap and keeps the order. |
| Profile.ToggleAbsentTwice | app.js:200-206 | Toggling an absent skill twice restores the exact list. |
| Profile.TogglePresentTwice | app.js:200-206 | Toggling a present skill twice keeps the same skills but moves that one to the end. |
| Profile.ClickSkill | app.js:196-206 | A record without a skill list throws. Otherwise only the skill list changes, to the selected list. |
| Session.SkillClick | app.js:196-208 | The click stores the new skill list in the current record. With no current user or no skill list, it throws. |
| Profile.AddCertification | app.js:213-215 | A whitespace-only input leaves the list unchanged. Otherwise one entry is appended, the trimmed input, and the old entries are kept in order. |
| Profile.AddCertificationKeepsDuplicates | app.js:215 | Adding "AWS" twice lists it twice. |
| Profile.AddCertificationTo | app.js:212-219 | Blank input leaves the record alone. A record without a certification list throws. Otherwise only the certification list changes. |
| Session.AddCertificationClick | app.js:212-220 | Blank input does nothing, even with nobody logged in. Otherwise the new list is stored in the current record, or the click throws. |
| Text.Trim | app.js:213 | The result is a contiguous slice of the input with no white space at either end. It is empty iff the input is all white space. |
| Text.TrimIgnoresPadding | app.js:240 | White space added at either end does not change the trimmed value. |
| Text.CamelToSnake | app.js:328 | The length grows by the number of capitals, and no capital remains. That each capital becomes '_' plus its lower case is fixed together with Text.SnakeToCamelInvertsCamelToSnake, for names without '_'. |
| Text.SnakeToCamelInvertsCamelToSnake | app.js:328 | For names without '_', the rewrite is undone by the inverse rewrite. |
| Text.CamelToSnakeFixedIffNoUpper | app.js:328 | The rewrite leaves a name unchanged iff the name has no capital. |
| Profile.PersonalKeys | app.js:328 | The form ids are written as full_name, email, phone, roll_no and address. |
| Profile.SavePersonal | app.js:328 | The five inputs are written under the snake-case keys, and nothing else in the record changes. |
| Profile.SavePersonalThenLoad | app.js:311-328 | After a personal save the loader shows the new email, phone and address. Name, roll number, department, year and CGPA show their old values. |
| Profile.SaveAcademic | app.js:329 | Department and year take the form's values. The CGPA takes the parse rule's value. The rest of the record is unchanged. |
| Profile.ParsedOr | app.js:329 | A parsed, non-zero number replaces the CGPA. NaN and zero keep the previous value. |
| Profile.SaveAcademicThenLoad | app.js:311-329 | After an academic save the loader shows the new department and year, and the old name and roll number. The CGPA shown is the parsed one, or the previous one for NaN or zero. |
| Profile.LoadProfile | app.js:311-321 | Only a student's record is shown. The inputs read the camelCase properties name, email, phone, rollNo, address, department and year. A zero or missing CGPA shows as empty. |
| Profile.CheckedValues | app.js:330 | The job types are the values of the ticked boxes, one per ticked box, in page order, with repeats kept. |
| Profile.SavePreferences | app.js:330 | The preferences hold the values of the ticked boxes in page order, and the two text inputs. The rest of the record is unchanged. |
| Profile.SavePreferencesReplacesWhole | app.js:330 | The saved preferences do not depend on the previous ones. |
| Profile.CompletionShown | app.js:333 | The displayed percentage is the stored one, or 0 without one. It is not derived from the profile. |
| Profile.MissingSkills | app.js:343 | The result is the listed targets not held, in list order, without repeats. It is empty iff all five are held. |
| Profile.MissingSkillsOfPythonAndJavaScript | app.js:343 | A profile with none of the five targets gets all five back, in order. |
| Profile.SkillGapOf | app.js:343 | A record without a skill list throws. Otherwise the result holds exactly the targets the record lacks, in the target list's order, without repeats. |
| Session.SkillGapClick | app.js:343 | The state is unchanged, and the roadmap lists the missing skills. Without a skill list it throws. |
| Chatbot.FirstMatch | app.js:372 | It returns the first rule whose keyword occurs, or none iff no keyword occurs. |
| Chatbot.BotReply | app.js:372 | "skill" wins over "interview", matched in the lower-cased text. Anything else gets the default reply. |
| Chatbot.BotReplyIgnoresCase | app.js:372 | For ASCII letters, the reply does not depend on the case the question was typed in. |
| Chatbot.BotReplyIgnoresTrim | app.js:370-372 | Trimming the question, as sendChat does, never changes the reply. |
| Text.Contains | app.js:372 | `includes` holds iff the keyword occurs at some position. |
| Chatbot.SendChat | app.js:370 | Blank input leaves the transcript alone. Otherwise the trimmed question and the bot's reply to the trimmed question are appended. |
| Chatbot.SendChatIgnoresSurface | app.js:179-183 | Every chat surface appends the same two messages for the same text. |
| Session.PersonalSubmit | app.js:328 | With nobody logged in it throws. Otherwise the saved record replaces the current one in the store. |
| Session.AcademicSubmit | app.js:329 | With nobody logged in it throws. Otherwise the saved record replaces the current one in the store. |
| Session.PreferencesSubmit | app.js:330 | With nobody logged in it throws. Otherwise the saved record replaces the current one in the store. |
| Session.Step | app.js:132-234 | Only login and logout change who is logged in or the sidebar. Only login and the navigation events change the section. Only the profile handlers write the store. |
| Session.StepPreservesInv | app.js:196-330 | Every handler keeps the invariant: the same users with the same roles, a name on every record, duplicate-free skill lists, and a current user's menu that is their role's. It changes only the current user's record, never a role or the stored completion. |
| Session.RunPreservesInv | app.js:132-234 | Any sequence of events from a good state ends in a good state. |
| Seqs.Filter | app.js:205 | `filter` keeps the elements satisfying the predicate and no others, as a subsequence of the input, and preserves having no duplicates. |
| Seqs.FilterCounts | app.js:205 | Each element that passes is kept as often as it occurs in the input, and every other element zero times. |

## Left out

- Rendering: DOM writes, class toggles, the text of toasts, modals, the spinner and the mobile sidebar are not modelled. Effects are returned as data instead.
- Timers: login completion and the bot reply happen within their step. The interleaving of other events with a pending timer is not modelled.
- Case mapping: `toLowerCase` is modelled for ASCII letters only. Other Unicode case mappings are not.
- Chatbot.BotReplyIgnoresCase: holds for the ASCII case mapping only. Under full Unicode mapping, "ſkill" (long s) gets the default reply while its upper case "SKILL" gets the skill reply.
- `parseFloat`: the CGPA input arrives already parsed, as a number or NaN. `Infinity` and partial-prefix parsing are not distinguished.
- Breadcrumb lookup: `querySelector` is modelled over the rendered menu only. Other static page elements carrying `data-section`, and ids that would make the selector invalid, are not modelled.
- Section loaders: only their dispatch is modelled. What they render is not, including the placeholder loaders for jobs, analytics, job management, applications and company. So is the fault a loader raises when run with nobody logged in.
- Resume upload and parsing: file API access and text formatting.
- Features outside this model: switchTab, the theme toggle, the search logger, savePrivacySettings, submitApplication, submitJobPost, notifications rendering, and the `applications` and `jobs` collections.
- Profile.ToggleSkill: assumes the grid item's `selected` class matches the skill list. The general handler with an arbitrary class state is `Profile.SelectSkill`.
