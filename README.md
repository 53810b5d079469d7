# EduAI learning dashboard: the decision logic of four pages

This project models the parts of a React learning-management dashboard that make decisions. Everything else in the app is mock data and layout.

- **AI Assistant page.**
  - The reply selector `generateAIResponse` lower-cases the question. It then picks one of four canned texts by keyword, first match wins. When no keyword matches, it echoes the original question inside a fixed sentence.
  - The chat log is the class `Assistant.ChatSession`. Sending a message appends it, clears the input box, switches the typing indicator on and queues the question. Blank text is ignored.
  - A separate delivery step appends the oldest queued question's reply and switches the indicator off. In the page this step runs from a 1500 ms timer.
- **Students page.** The list is filtered by a case-insensitive search over name and email and by a status, with "All" as a wildcard. The page also has the at-risk and active counts and the empty-state panel.
- **Courses page.** The catalogue is filtered the same way, over title, description and category. The page also has the recommended list, the banner that shows its first three entries, and the empty-state panel.
- **Settings page.** The class `Settings.SettingsPage` holds the settings table.
  - `handleSettingChange` gives a new value to every entry with a given id.
  - `handleReset` gives each entry the default for its kind.
  - The toggle buttons pass the negation of the current value. The "AI Insights" button names an id the table does not have, so pressing it changes nothing.

Modules:

- `Text`: ASCII lower-casing, JavaScript's `includes` and `trim`, and words joined by spaces.
- `Lists`: `filter` and `slice(0, n)`, and an order-preserving subsequence relation.
- `Reply`: the reply selector.
- `Assistant`: the chat session and the quick-action cards.
- `Students`, `Courses` and `Settings`: one module per page.

Pure code (the selector and the two list pages) is written as functions and lemmas. State the pages replace is written as classes with `seq` fields and methods; each method's `ensures` ties the new state to a function of the old one.

The chat log's invariant says that replaying the log after the greeting is consistent: the queue holds the questions not yet answered, and every AI message answers the oldest question that was open at that point. The lemmas `ReplayMeaning` and `AllAnswered` turn that invariant into what the user sees: once nothing is pending, the i-th reply is the reply to the i-th question.

## Model

| member | source | states |
|---|---|---|
| Text.Lower | src/pages/AIAssistant.tsx:116 | `toLowerCase` maps each ASCII capital to its small letter and keeps every other character; the result has the input's length |
| Text.Includes | src/pages/AIAssistant.tsx:118 | `includes`: t is a prefix of s or of one of its suffixes |
| Text.IncludesIff | src/pages/AIAssistant.tsx:118 | `includes` holds exactly when some slice of s equals t |
| Text.IncludesEmpty | src/pages/Students.tsx:121-122 | The empty term occurs in every text, so an empty search matches everything |
| Text.Trim | src/pages/AIAssistant.tsx:86 | `trim` drops the leading and then the trailing characters that JavaScript counts as white space or line terminators |
| Text.IsBlank | src/pages/AIAssistant.tsx:86 | `!text.trim()`: the trimmed text is empty |
| Text.BlankIff | src/pages/AIAssistant.tsx:86 | A text is blank exactly when every character is JavaScript white space |
| Text.TrimIsInfix | src/pages/AIAssistant.tsx:86 | What `trim` keeps is a contiguous slice of the text whose first and last characters are not white space |
| Reply.Select | src/pages/AIAssistant.tsx:115-134 | The branch of the if-chain that answers, tested in order (courses, study, progress, tips) on the lower-cased input; an echo carries the original input |
| Reply.GenerateResponse | src/pages/AIAssistant.tsx:115-135 | `generateAIResponse`: the text of the selected branch. The five rule lemmas below state which text each input gets |
| Reply.CourseRule | src/pages/AIAssistant.tsx:115-120 | The course-recommendation text is the reply exactly when the lower-cased input contains "recommend" or "course" |
| Reply.StudyRule | src/pages/AIAssistant.tsx:118-124 | The study-strategy text is the reply exactly when rule 1 fails and the lower-cased input contains "study" or "strategy" |
| Reply.ProgressRule | src/pages/AIAssistant.tsx:118-128 | The progress-analysis text is the reply exactly when rules 1-2 fail and the input contains "progress" or "analysis" |
| Reply.TipsRule | src/pages/AIAssistant.tsx:118-132 | The learning-tips text is the reply exactly when rules 1-3 fail and the input contains "tip" or "help" |
| Reply.FallbackRule | src/pages/AIAssistant.tsx:115-134 | The reply is the fixed opening, then the original (not lower-cased) input, then the fixed closing, exactly when no keyword occurs |
| Reply.FallbackContainsInput | src/pages/AIAssistant.tsx:134 | The echo reply contains the user's input as a substring |
| Reply.FallbackInjective | src/pages/AIAssistant.tsx:134 | Different inputs give different echo replies |
| Reply.EchoDiffers | src/pages/AIAssistant.tsx:134 | An echo reply starts with 'I', so it differs from any joined sentence whose first word starts otherwise |
| Reply.StudyDiffersFromTips | src/pages/AIAssistant.tsx:122-132 | The study-strategy and learning-tips texts differ, although they share their first three words |
| Reply.CannedRepliesDistinct | src/pages/AIAssistant.tsx:119-131 | The four canned texts are pairwise different |
| Reply.TextOfInjective | src/pages/AIAssistant.tsx:118-134 | Different branches of the selector return different texts |
| Reply.SameReplySameRule | src/pages/AIAssistant.tsx:115-134 | Two inputs get the same reply exactly when the same branch answers both; echo branches are equal only for equal inputs |
| Reply.CaseOnlyMattersForEcho | src/pages/AIAssistant.tsx:116 | For inputs that differ only in letter case, either both get an echo or neither does. When neither does, both take the same branch |
| Reply.CourseBeatsStudy | src/pages/AIAssistant.tsx:118-124 | "What course study strategy?" contains "study", yet the course rule answers it, because rule 1 comes first |
| Reply.InsideWordMatches | src/pages/AIAssistant.tsx:130-132 | Keywords match inside words: "multiple" contains "tip" and gets the learning-tips text |
| Assistant.QuickActionsRoute | src/pages/AIAssistant.tsx:46-75 | Each of the four quick-action texts reaches the rule it is named after: courses, study, progress, tips |
| Assistant.RecommendCoursesRoute | src/pages/AIAssistant.tsx:47-53 | The course-recommendation action text selects rule 1 |
| Assistant.StudyStrategiesRoute | src/pages/AIAssistant.tsx:54-60 | The study-strategies action text has no course keyword and selects rule 2 |
| Assistant.AnalyzeProgressRoute | src/pages/AIAssistant.tsx:61-67 | The analyze-progress action text has no course or study keyword and selects rule 3 |
| Assistant.LearningTipsRoute | src/pages/AIAssistant.tsx:68-74 | The learning-tips action text has no keyword of rules 1-3 and selects rule 4 |
| Assistant.SuggestionsNotBlank | src/pages/AIAssistant.tsx:46-75 | No quick-action card's action text is blank, so clicking any card always appends a message |
| Assistant.ReplayMeaning | src/pages/AIAssistant.tsx:85-112 | In a consistently replayed log, the pending queue is the suffix of the questions not yet answered, and the AI messages are the replies to the questions before it, in order |
| Assistant.QuestionsNotBlank | src/pages/AIAssistant.tsx:86-98 | Every user message in a consistent log has non-blank text |
| Assistant.AllAnswered | src/pages/AIAssistant.tsx:101-112 | Once nothing is pending, there are as many replies as questions, and the i-th reply is `generateAIResponse` of the i-th question |
| Assistant.AskKeepsQueued | src/pages/AIAssistant.tsx:96-98 | Asking a question appends it both to the questions and to the pending queue, and the answered prefix stays answered |
| Assistant.AnswerKeepsQueued | src/pages/AIAssistant.tsx:101-111 | Answering the oldest pending question removes it from the queue and appends its reply to the answers |
| Assistant.ChatSession.constructor | src/pages/AIAssistant.tsx:33-43 | A session starts with the greeting only, an empty input, the indicator off, nothing pending, and `generateAIResponse` as its reply function |
| Assistant.ChatSession.SetInput | src/pages/AIAssistant.tsx:241 | Typing sets the input box and changes nothing else |
| Assistant.ChatSession.SendMessage | src/pages/AIAssistant.tsx:85-98 | Blank text (JavaScript `trim` is empty) changes nothing. Otherwise exactly one user message with that text is appended, earlier messages are kept, the input is cleared, the indicator comes on and the question is queued |
| Assistant.ChatSession.PressEnter | src/pages/AIAssistant.tsx:242 | Enter sends the input box's text even while a reply is pending |
| Assistant.ChatSession.ClickSend | src/pages/AIAssistant.tsx:246-248 | The button sends only when the input is not blank and no reply is pending; otherwise nothing changes |
| Assistant.ChatSession.ClickSuggestion | src/pages/AIAssistant.tsx:137-139 | A quick-action card sends its action text, whatever the input box holds |
| Assistant.ChatSession.DeliverReply | src/pages/AIAssistant.tsx:101-112 | Exactly one AI message is appended, holding the reply to the oldest pending question. That question leaves the queue, the indicator goes off, the input is untouched and the log stays consistent |
| Lists.FilterMember | src/pages/Students.tsx:120-125 | An element is kept exactly when it occurs in the list and passes the test |
| Lists.FilterSubsequence | src/pages/Students.tsx:120-125 | A filter's result is a subsequence of its input, in the original order |
| Lists.FilterMultiset | src/pages/Students.tsx:145-146 | A filter keeps each passing element as many times as it occurs, and drops every other element |
| Lists.FilterKeepsAll | src/pages/Students.tsx:120-125 | A filter returns its whole input exactly when every element passes |
| Lists.FilterEmpty | src/pages/Students.tsx:318 | A filter returns nothing exactly when no element passes |
| Lists.FilterCongruent | src/pages/Students.tsx:120-125 | Tests that agree on every element give the same result |
| Lists.FilterOfFilter | src/pages/Students.tsx:120-125 | Filtering by a stricter test equals filtering the looser test's result again |
| Lists.FilterStricter | src/pages/Students.tsx:123 | A stricter test keeps a subsequence of what a looser test keeps |
| Lists.FilterDisjoint | src/pages/Students.tsx:145-146 | Two tests that never both pass keep, together, at most as many elements as the input has |
| Lists.Take | src/pages/Courses.tsx:154 | `slice(0, n)` returns the first n elements, or all of them when there are fewer |
| Lists.SubsequenceMember | src/pages/Students.tsx:120-125 | Every element of a subsequence is an element of the whole |
| Students.FilteredStudents | src/pages/Students.tsx:120-125 | `filteredStudents`: the students whose lower-cased name or email contains the lower-cased term and whose status is the selected one or "All" |
| Students.AtRiskStudents | src/pages/Students.tsx:145 | `atRiskStudents`: the students whose status is at-risk |
| Students.ActiveStudents | src/pages/Students.tsx:146 | `activeStudents`: the students whose status is active |
| Students.FilteredInOrder | src/pages/Students.tsx:120-125 | The filtered students are a subsequence of the list, in the original order |
| Students.FilteredMember | src/pages/Students.tsx:120-125 | A student is listed exactly when they are in the list, the lower-cased term occurs in their lower-cased name or email, and the status is "All" or theirs |
| Students.InitialFilterShowsAll | src/pages/Students.tsx:115-125 | With the opening state (empty term, "All"), every student is listed |
| Students.SearchIgnoresCase | src/pages/Students.tsx:121-122 | Terms that differ only in letter case list the same students |
| Students.StatusNarrows | src/pages/Students.tsx:123 | For a fixed term, the list for any status is a subsequence of the list for "All" |
| Students.StatusCounts | src/pages/Students.tsx:145-146 | The at-risk and active lists hold exactly the students with that status, and their sizes add up to at most the number of students |
| Students.StatusMultiplicity | src/pages/Students.tsx:145-146 | Each status list keeps every student of that status as often as they occur, and no one else |
| Students.InitialCounts | src/pages/Students.tsx:145-146 | On the page's own list the banner shows 1 at-risk and 4 active students |
| Students.EmptyStateIff | src/pages/Students.tsx:318 | "No students found" is shown exactly when no student passes both the search and the status test |
| Courses.FilteredCourses | src/pages/Courses.tsx:117-122 | `filteredCourses`: the courses whose lower-cased title or description contains the lower-cased term and whose category is the selected one or "All" |
| Courses.AiRecommendedCourses | src/pages/Courses.tsx:124 | `aiRecommendedCourses`: the courses with `aiRecommended` set |
| Courses.Banner | src/pages/Courses.tsx:154 | The banner's courses: `slice(0, 3)` of the recommended list |
| Courses.FilteredInOrder | src/pages/Courses.tsx:117-122 | The filtered courses are a subsequence of the catalogue, in the original order |
| Courses.FilteredMember | src/pages/Courses.tsx:117-122 | A course is listed exactly when it is in the catalogue, the lower-cased term occurs in its lower-cased title or description, and the category is "All" or its own |
| Courses.InitialFilterShowsAll | src/pages/Courses.tsx:112-122 | With an empty term and "All", every course is listed |
| Courses.SearchIgnoresCase | src/pages/Courses.tsx:118-119 | Terms that differ only in letter case list the same courses |
| Courses.CategoryNarrows | src/pages/Courses.tsx:120 | For a fixed term, the list for any category is a subsequence of the list for "All" |
| Courses.EmptyStateIff | src/pages/Courses.tsx:272 | "No courses found" is shown exactly when no course passes the filter |
| Courses.RecommendedExactly | src/pages/Courses.tsx:124 | The recommended list holds exactly the courses with `aiRecommended` set, in catalogue order, each as often as it occurs |
| Courses.BannerFirstThree | src/pages/Courses.tsx:154 | The banner shows at most three courses: the first three recommended ones, or all of them when there are fewer. Each shown course is recommended |
| Courses.InitialBanner | src/pages/Courses.tsx:154 | On the page's own catalogue four courses are recommended and the banner shows courses 1, 2 and 4 |
| Settings.ChangeValue | src/pages/Settings.tsx:74-80 | The table `handleSettingChange` computes: every entry with the id takes the value, the others are kept, and the length is kept |
| Settings.Reset | src/pages/Settings.tsx:89-97 | The table `handleReset` computes: each entry takes the default for its kind, and the length is kept |
| Settings.Find | src/pages/Settings.tsx:230 | `find`: the first entry with the id, or nothing |
| Settings.NegatedLookup | src/pages/Settings.tsx:230 | `!settings.find(...)?.value`: the negated truthiness of the entry's value, or true when no entry has the id |
| Settings.Toggled | src/pages/Settings.tsx:249 | A named toggle button's new table: the entries with the id take the negated lookup |
| Settings.ChangeValueFrame | src/pages/Settings.tsx:74-80 | A change alters values only. Entries with the id get the new value, and every other entry is unchanged |
| Settings.ChangeKeepsIds | src/pages/Settings.tsx:74-80 | A change keeps the table's length and the id at every position |
| Settings.ChangeAbsentId | src/pages/Settings.tsx:76-78 | Changing an id that no entry has leaves the table as it was |
| Settings.FindFirst | src/pages/Settings.tsx:230 | `find` returns nothing exactly when the id is absent; otherwise it returns the first entry with the id |
| Settings.FindUnique | src/pages/Settings.tsx:230 | With unique ids, `find` returns the one entry with the id |
| Settings.IdsAt | src/pages/Settings.tsx:15-22 | The table's id list holds each entry's id at its position |
| Settings.UniqueIdsFromIds | src/pages/Settings.tsx:15-22 | Entries have different ids when the id list has no repeats |
| Settings.UniqueIdsSameIds | src/pages/Settings.tsx:74-97 | Two tables with the same id list agree on whether ids are unique |
| Settings.ToggleTwice | src/pages/Settings.tsx:150 | With unique ids and boolean values, pressing the same toggle twice restores the table |
| Settings.RowToggleIsNamedToggle | src/pages/Settings.tsx:150 | A toggle row's `!setting.value` equals the lookup-by-id negation that the named buttons use |
| Settings.ResetValues | src/pages/Settings.tsx:89-97 | After a reset: every toggle holds true; every select holds its first option, or "" when it has none; every other entry holds "". Titles, descriptions, kinds, options and ids are kept |
| Settings.ResetKeepsIds | src/pages/Settings.tsx:91-95 | A reset keeps the table's length and the id at every position |
| Settings.ResetIdempotent | src/pages/Settings.tsx:89-97 | Resetting twice is the same as resetting once |
| Settings.InitialIds | src/pages/Settings.tsx:25-70 | The page's table has the six listed ids, all different |
| Settings.PageIdsUnique | src/pages/Settings.tsx:25-70 | Any table with the page's ids has unique ids |
| Settings.AiInsightsMissing | src/pages/Settings.tsx:249 | For "ai-insights": `find` returns nothing, so the button passes true, and the change leaves the table unchanged |
| Settings.ResetIsNotInitial | src/pages/Settings.tsx:89-97 | A reset moves "ai-intensity" from "Moderate" to "Minimal", so it does not bring back the starting table |
| Settings.InitialBooleans | src/pages/Settings.tsx:25-70 | Every toggle of the starting table holds a boolean |
| Settings.ChangeKeepsBooleans | src/pages/Settings.tsx:74-80 | A change keeps every toggle boolean when it stores a boolean or names no toggle |
| Settings.ResetKeepsBooleans | src/pages/Settings.tsx:91-95 | After a reset every toggle holds a boolean |
| Settings.BooleanToggleTwice | src/pages/Settings.tsx:230 | With unique ids and boolean toggles, pressing a named button for a toggle twice restores the table |
| Settings.SettingsPage.constructor | src/pages/Settings.tsx:25-70 | The page starts with its initial table |
| Settings.SettingsPage.HandleSettingChange | src/pages/Settings.tsx:74-80 | The new table is the old one with the value changed for the given id; the page's ids are kept, and toggles stay boolean when the value is a boolean or the id names no toggle |
| Settings.SettingsPage.HandleReset | src/pages/Settings.tsx:89-97 | The new table is the reset of the old one; the page's ids are kept and toggles stay boolean |
| Settings.SettingsPage.ToggleRow | src/pages/Settings.tsx:143-150 | A row of the first card passes the negation of its own entry's value for its own id |
| Settings.SettingsPage.ToggleNamed | src/pages/Settings.tsx:230 | A named button toggles the entry with that id, or changes nothing when there is none. When the id names toggles only, pressing it again restores the table |
| Settings.SettingsPage.ChooseOption | src/pages/Settings.tsx:184-193 | A select in the second card stores the chosen option as its own entry's value |

## Left out

- Letter case: lower-casing covers ASCII letters only. JavaScript's `toLowerCase` also folds other Unicode letters.
- Clock values: message ids come from `Date.now()`; they are the `now` parameter, and the AI message's id is `now + 1` at delivery. Message timestamps (`new Date()`) are left out.
- Reply timer: the 1500 ms timer is the explicit step `DeliverReply`. Timers of equal delay fire in the order they were set, so replies are delivered oldest first.
- Assistant.ChatSession.DeliverReply: its contract names the session's reply function `respond`. That is a constant which the constructor sets to `GenerateResponse`, so every session answers with `generateAIResponse`.
- The message type (`text`, `suggestion` or `insight`) is kept, but only `text` is ever produced. Auto-scrolling and animations are left out.
- `handleSave` in src/pages/Settings.tsx only flips `isSaving` around a 1000 ms sleep, so it is not modelled.
- Rendering is left out:
  - icons, colours, and the `getStatusColor`/`getStatusIcon` lookups;
  - avatars and image URLs;
  - the status and category option lists of the dropdowns.
- The course rating is kept in tenths (4.8 becomes 48), since it only ever appears as written.
- Settings.SettingsPage.ChooseOption: the chosen option is any string; the dropdown only offers the entry's own options.
- `!value` on a setting follows JavaScript truthiness for the values the table holds: a boolean negates; a string is true exactly when it is non-empty. A missing entry gives `undefined`, so its negation is true.
- Dashboard, Analytics, App and Sidebar are static data and layout and are not part of this model.
