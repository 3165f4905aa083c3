# Course marketplace: the logic behind three React variants

The repository ships the same online-course marketplace three times: `src/App.jsx`, `src/final.js`
and `src/t.js`. Nearly all of each is view markup. This project models the logic that is not
markup, and proves what that logic guarantees:

- the home page's results list, which works differently in each variant:
  - `App.jsx` searches, filters by category and popularity, then sorts by a key;
  - `final.js` applies a single five-condition filter;
  - `t.js` searches field by field, then applies a free-only filter and a category filter;
- the session updaters of `App.jsx`: saving a course, enrolling in a course, and the course-detail lookup;
- the mentor chat's send guard;
- the one-digit boxes of the OTP screen;
- the login / signup / OTP stage machine of each variant;
- the rules for loading the theme and other persisted state;
- the id and price pattern of the generated sample catalogs.

Modules:

- `Options`: `Option`, which stands for `undefined`, `null` and `NaN`.
- `Text`: JavaScript's `trim`, with its exact set of white-space code points, plus `toLowerCase`
  and `includes`.
- `Seqs`: `Array.prototype.filter`, with its membership, multiplicity and order laws.
- `Catalog`: the `Course` record, the `sorters` table and the stable `list.sort`. The sort is an
  in-place insertion sort on an `array`, proved equal to a functional `SortBy`. `SortBy` is proved
  ordered, a permutation of its input and stable.
- `AppQuery`, `FinalQuery`, `TQuery`: the three results computations.
- `Variants`: how the three search engines relate.
- `Session`: the session state of `App.jsx`, as the class `AppSession`.
- `Chat`: the chat guard, as the class `ChatPanel`.
- `Otp`, `Auth`, `Storage`, `Seed`: the OTP boxes, the stage machines, the load rules and the
  sample catalogs.

A course's rating is held in integer tenths of a star.

## Model

| member | source | states |
|---|---|---|
| Text.Lower | src/App.jsx:398 | lower-casing keeps the length and lowers each character on its own (ASCII) |
| Text.TrimStart | src/App.jsx:397 | leading white space removed and nothing else: the result is a suffix that does not start with white space, and every dropped character is white space |
| Text.TrimEnd | src/App.jsx:397 | trailing white space removed and nothing else: the result is a prefix that does not end with white space, and every dropped character is white space |
| Text.Trim | src/App.jsx:397 | no contract; `trim` as `TrimEnd` after `TrimStart`; characterised by Text.BlankIff |
| Text.Blank | src/App.jsx:397 | no contract; `!s.trim()`; characterised by Text.BlankIff |
| Text.Contains | src/App.jsx:399 | no contract; `s.includes(q)`; characterised by Text.ContainsIff |
| Text.BlankIff | src/App.jsx:397 | `!query.trim()` holds exactly when every character is JavaScript white space |
| Text.ContainsIff | src/App.jsx:399 | `includes` holds exactly when the query occurs at some offset |
| Text.LowerConcat | src/App.jsx:399 | lower-casing the concatenated fields equals concatenating the lower-cased fields |
| Text.ContainsInLeft | src/App.jsx:399 | an occurrence in a left part is an occurrence in the concatenation |
| Text.ContainsInRight | src/App.jsx:399 | an occurrence in a right part is an occurrence in the concatenation |
| Seqs.Filter | src/App.jsx:399-402 | `filter` never lengthens the list, and every kept element passes the test |
| Seqs.FilterMember | src/App.jsx:399-402 | an element is kept exactly when it is in the input and passes (soundness and completeness) |
| Seqs.FilterMultiset | src/App.jsx:399-402 | each passing value is kept as often as it occurs, each failing value not at all |
| Seqs.FilterSubsequence | src/App.jsx:399-402 | `filter` keeps input order |
| Seqs.FilterAll | src/App.jsx:399-402 | when every element passes, `filter` returns the list unchanged |
| Seqs.FilterConcat | src/App.jsx:812 | filtering a concatenation filters each part |
| Seqs.FilterFilter | src/App.jsx:399-402 | two filters in a row equal one filter on the conjunction |
| Seqs.FilterAgree | src/final.js:284-297 | tests that agree on every element keep the same list |
| Seqs.FilterWhen | src/App.jsx:397-402 | a filter applied only under a condition equals one filter whose test passes everything when the condition is off |
| Seqs.FilterSingleton | src/App.jsx:812 | a one-element list is kept whole or dropped whole |
| Seqs.Splice | src/App.jsx:411 | a list that agrees with another around one new element is that list with the element spliced in |
| Catalog.SortOrderOf | src/App.jsx:403-411 | `sorters[key] \|\| sorters.relevance`: the five known keys select their comparator, any other key selects relevance |
| Catalog.SearchHit | src/App.jsx:397-399 | no contract; the search test on the concatenated fields, shared with final.js:290-292; characterised by AppQuery.ResultsMember and Variants.FieldHitIsSearchHit |
| Catalog.Rank | src/App.jsx:403-410 | no contract; each comparator as the difference of ranks; characterised by Catalog.RankMeaning |
| Catalog.Insert | src/App.jsx:411 | no contract; one insertion step of the sort; characterised by Catalog.InsertMultiset, Catalog.InsertSorted, Catalog.InsertTies and Catalog.InsertAtPosition |
| Catalog.SortBy | src/App.jsx:411 | no contract; the stable sort; characterised by Catalog.SortByPermutation, Catalog.SortBySorted and Catalog.SortByStable |
| Catalog.SortByPermutation | src/App.jsx:411 | sorting is a permutation of its input |
| Catalog.SortBySorted | src/App.jsx:403-411 | the sorted list is ordered by the comparator's rank for every pair |
| Catalog.SortByStable | src/App.jsx:411 | sorting is stable: the courses of one rank keep their input order |
| Catalog.SortByRelevance | src/App.jsx:404 | the relevance comparator always returns 0, so sorting by it changes nothing |
| Catalog.RankMeaning | src/App.jsx:403-410 | for each of the five keys, comparator rank order means descending rating, id or students, or ascending or descending price |
| Catalog.SortByStep | src/App.jsx:411 | sorting one more element inserts it into the sorted prefix |
| Catalog.InsertMultiset | src/App.jsx:411 | one insertion step adds exactly the inserted course |
| Catalog.InsertBounded | src/App.jsx:411 | insertion keeps every rank under a common bound |
| Catalog.InsertSorted | src/App.jsx:411 | insertion into a sorted list keeps it sorted |
| Catalog.InsertTies | src/App.jsx:411 | insertion places a course after every course of equal rank |
| Catalog.SortInPlace | src/App.jsx:411 | `list.sort` on the array leaves it equal to the stable sort of its old contents |
| Catalog.InsertAt | src/App.jsx:411 | one pass moves the next element into place among the sorted prefix, and later elements are untouched |
| Catalog.InsertAtPosition | src/App.jsx:411 | insertion puts the course right after the last element that does not rank above it |
| Catalog.FindById | src/App.jsx:818 | `find` by id is `None` exactly when no course has the id; otherwise it is a course in the list with that id |
| Catalog.FindByIdFirst | src/App.jsx:858 | `find` returns the first course with the id |
| AppQuery.HomeResults | src/App.jsx:395-413 | the results array is a fresh copy equal to the stable sort of the filtered catalog; the catalog array is not modified |
| AppQuery.SortedCopy | src/App.jsx:396 | the sort runs on a fresh copy and yields the sorted list |
| AppQuery.Keep | src/App.jsx:397-402 | no contract; the three filter conditions; characterised by AppQuery.ResultsMember |
| AppQuery.Results | src/App.jsx:395-413 | no contract; the filtered, stably sorted list; characterised by AppQuery.ResultsMember, AppQuery.ResultsPermutation, AppQuery.ResultsOrdered and AppQuery.ResultsStable |
| AppQuery.FiltersCompose | src/App.jsx:397-402 | the three conditional filters in a row equal one filter on their conjunction |
| AppQuery.ResultsMember | src/App.jsx:395-413 | a course is listed exactly when it is in the catalog, hits the query (or the query is blank), matches the category (unless "" or "All"), and is a bestseller when popular is set |
| AppQuery.ResultsPermutation | src/App.jsx:396-411 | the results are a permutation of the order-preserving subsequence of passing courses, each passing course as often as in the catalog |
| AppQuery.ResultsOrdered | src/App.jsx:403-411 | for any two listed positions: "rating", "newest" and "students" descend, "price_low" ascends and "price_high" descends |
| AppQuery.ResultsStable | src/App.jsx:411 | courses of equal rank appear in catalog order |
| AppQuery.ResultsInCatalogOrder | src/App.jsx:403-411 | "relevance" and every unknown key leave the results in catalog order |
| AppQuery.DefaultKeepsAll | src/App.jsx:392-402 | with a blank query the initial filters keep every course |
| AppQuery.ResultsDefault | src/App.jsx:392-412 | the initial filters with a blank query list the whole catalog in its own order |
| FinalQuery.ResultsMember | src/final.js:284-297 | a course is listed exactly when it is in the catalog and meets the category, price tier, bestseller, level and search conditions |
| FinalQuery.Keep | src/final.js:285-294 | no contract; the five early-return conditions; characterised by FinalQuery.ResultsMember |
| FinalQuery.Results | src/final.js:284-296 | no contract; `sampleCourses.filter(...)`; characterised by FinalQuery.ResultsMember and FinalQuery.ResultsOrder |
| FinalQuery.ResultsOrder | src/final.js:284-297 | the results keep catalog order, and each passing course appears as often as in the catalog |
| FinalQuery.SortIgnored | src/final.js:280-297 | changing `filters.sort` never changes the results |
| FinalQuery.PriceAllFiltersNothing | src/final.js:287-288 | a price tier other than "free" and "paid" filters exactly as "all" does |
| FinalQuery.ResultsDefault | src/final.js:280-297 | the initial filters with a blank query return every course in order |
| TQuery.Filtered | src/t.js:181-191 | the step-by-step filtering yields exactly the courses that pass all three conditions, in catalog order |
| TQuery.FieldHit | src/t.js:186 | no contract; the field-by-field search test; characterised by TQuery.FilteredMember and Variants.CrossFieldHit |
| TQuery.Keep | src/t.js:184-189 | no contract; the three filter conditions; characterised by TQuery.FilteredMember |
| TQuery.StagesCompose | src/t.js:183-190 | the three stages in a row equal one filter on their conjunction |
| TQuery.FilteredMember | src/t.js:182-191 | a course is listed exactly when one of its title, instructor and category holds the query (unless blank), it is free under `freeOnly`, and its category matches unless "All" |
| TQuery.FilteredOrder | src/t.js:181-191 | the list is an order-preserving subsequence of the catalog that drops no passing copy |
| TQuery.FilteredInitial | src/t.js:181-190 | the initial state lists every course in order |
| Variants.FieldHitIsSearchHit | src/t.js:186 | a field-by-field hit is also a hit on the concatenation used by the other two variants |
| Variants.CrossFieldHit | src/t.js:186 | not conversely: title "ab", instructor "cd" and query "bc" hit the concatenation but no single field |
| Variants.TListedIsAppListed | src/t.js:182-191 | every course `t.js` lists (not free-only) is listed by `App.jsx` for the same category and query |
| Variants.AppAgreesWithFinal | src/final.js:284-297 | under "relevance", with all prices and levels, `App.jsx` and `final.js` list the same courses in the same order |
| Storage.AppDarkIff | src/App.jsx:83-96 | dark loads exactly when "dark" is stored, or when nothing non-empty is stored and the host prefers dark |
| Storage.AppDark | src/App.jsx:83-96 | no contract; the `useDarkMode` initialiser; characterised by Storage.AppDarkIff and Storage.AppDarkIgnoresPreference |
| Storage.Preference | src/App.jsx:89-92 | no contract; `matchMedia(...).matches`, or false without `matchMedia`; characterised by Storage.AppDarkIff |
| Storage.StoredDark | src/final.js:98-105 | no contract; `getItem(key) === "dark"`, false on failure (also t.js:39-46); characterised by Storage.ThemeRoundTrip |
| Storage.ThemeText | src/App.jsx:102 | no contract; the theme string written back; characterised by Storage.ThemeRoundTrip |
| Storage.LoadLocal | src/App.jsx:59-67 | no contract; the `useLocalState` initialiser; characterised by Storage.LoadLocalRoundTrip and Storage.LoadLocalFallback |
| Storage.AppDarkIgnoresPreference | src/App.jsx:87 | a stored value other than "dark" loads light, whatever the host prefers |
| Storage.ThemeRoundTrip | src/final.js:98-112 | the stored theme reads back as written, in all variants; missing or failing storage reads light in `final.js` and `t.js` |
| Storage.LoadLocalRoundTrip | src/App.jsx:59-74 | a stored value that parses back loads as written; missing or failing storage loads the initial value |
| Storage.LoadLocalFallback | src/App.jsx:62-66 | an empty or unparsable stored string loads the initial value |
| Session.ToggleSavedEffect | src/App.jsx:810-815 | toggling flips whether the id is saved and leaves every other id's count unchanged |
| Session.ToggleSaved | src/App.jsx:810-815 | no contract; the `toggleSave` updater; characterised by Session.ToggleSavedEffect, Session.ToggleSavedOrder and the toggle-twice lemmas |
| Session.ToggleSavedOrder | src/App.jsx:810-815 | an unsaved id is appended at the end; removing a saved id keeps the others in order |
| Session.ToggleTwiceAbsent | src/App.jsx:810-815 | toggling an unsaved id twice restores the list exactly |
| Session.ToggleTwicePresent | src/App.jsx:810-815 | toggling a saved id twice on a duplicate-free list restores its contents |
| Session.ToggleTwiceReorders | src/App.jsx:810-815 | the order is not restored: [5, 6] toggled twice on 5 becomes [6, 5] |
| Session.ToggleSavedNoDup | src/App.jsx:810-815 | toggling keeps the saved list free of duplicates |
| Session.ToggleFiveTwice | src/App.jsx:810-815 | from nothing saved, toggling course 5 twice leaves nothing saved |
| Session.NoDupCount | src/App.jsx:812 | in a duplicate-free list each present id occurs once |
| Session.FilterNoDup | src/App.jsx:812 | filtering keeps a duplicate-free list duplicate-free |
| Session.EnrolledEffect | src/App.jsx:817-821 | enrolling appends exactly the course when its id is absent and changes nothing otherwise |
| Session.Enrolled | src/App.jsx:817-821 | no contract; the `enroll` updater; characterised by Session.EnrolledEffect and Session.EnrollTwice |
| Session.EnrollTwice | src/App.jsx:817-821 | enrolling twice equals enrolling once; the length is n + 1 for an absent id and n otherwise |
| Session.EnrolledUniqueIds | src/App.jsx:817-821 | enrolling keeps the enrolled courses unique by id |
| Session.RouteCourse | src/App.jsx:855-859 | the route finds a course with the parsed id, and none when the id does not parse or is absent |
| Session.AppSession.Load | src/App.jsx:770-775 | the theme, catalog, saved ids and enrolled courses load by their rules |
| Session.AppSession.ToggleSave | src/App.jsx:810-815 | the saved ids become their toggle, and nothing else changes |
| Session.AppSession.Enroll | src/App.jsx:817-821 | the enrolled courses become their enrolment update, and nothing else changes |
| Session.AppSession.ToggleTheme | src/App.jsx:828 | the theme flips, and nothing else changes |
| Session.AppSession.SetDark | src/App.jsx:751 | the theme takes the checkbox value, and nothing else changes |
| Session.AppSession.CourseDetail | src/App.jsx:855-860 | the detail page gets the course with the parsed id (if any), and it is saved exactly when the id is in the saved list |
| Chat.SendBlank | src/App.jsx:566-567 | an empty or all-white-space draft leaves the messages unchanged |
| Chat.AfterSend | src/App.jsx:566-569 | no contract; the `send` guard and append, the same in final.js:436-438 and t.js:311-313; characterised by Chat.SendBlank, Chat.SendVisible and Chat.SendAppendsOnly |
| Chat.SendVisible | src/final.js:436-438 | a draft with a visible character is appended once, whole and untrimmed, as the user's message |
| Chat.SendAppendsOnly | src/t.js:311-313 | sending keeps the old messages as a prefix and adds at most one |
| Chat.ChatPanel.constructor | src/App.jsx:555-559 | the panel starts with its seeded messages and an empty draft |
| Chat.ChatPanel.Type | src/App.jsx:599 | typing replaces the draft and keeps the messages |
| Chat.ChatPanel.Send | src/App.jsx:566-570 | send applies the guard; the draft is cleared exactly when a message was sent |
| Otp.Sanitize | src/App.jsx:634 | the sanitised input is empty or one digit |
| Otp.FilterFirstDigit | src/App.jsx:634 | removing non-digits leaves the first digit at the front |
| Otp.SanitizeFirstDigit | src/final.js:500 | the box keeps the first digit of the input, whatever surrounds it |
| Otp.SanitizeNoDigit | src/t.js:364 | input without a digit empties the box |
| Otp.SanitizeIdempotent | src/App.jsx:634 | sanitising what a box holds changes nothing |
| Otp.SetSlot | src/App.jsx:635 | slot `i` becomes the sanitised input, the other slots are unchanged, and every slot stays empty or one digit |
| Auth.CompletesExactly | src/App.jsx:616-664 | every variant completes exactly on "Login" from the login form or on "Verify" from the OTP screen |
| Auth.FormStep | src/App.jsx:664-677 | no contract; the login/signup form shared by the three variants; characterised by Auth.CompletesExactly, Auth.OtpEntry and Auth.ToggleSwaps |
| Auth.AppInitial | src/App.jsx:610-611 | no contract; `useState(mode)`; characterised by Auth.AppInitialStages |
| Auth.AppStep | src/App.jsx:616-623 | no contract; the App.jsx stage machine; characterised by Auth.CompletesExactly and Auth.OtpEntry |
| Auth.FinalInitial | src/final.js:475-476 | no contract; the initial stage from `?mode`; characterised by Auth.FinalInitialStages |
| Auth.FinalStep | src/final.js:480-488 | no contract; the final.js stage machine; characterised by Auth.CompletesExactly and Auth.OtpEntry |
| Auth.TStep | src/t.js:346-358 | no contract; the t.js stage machine with its Back edge; characterised by Auth.CompletesExactly, Auth.OtpEntry and Auth.TBackFromOtp |
| Auth.OtpEntry | src/t.js:346-349 | the OTP screen is entered only by "Send OTP" from a form stage other than login |
| Auth.ToggleSwaps | src/t.js:399-400 | the link swaps login and signup; following it twice returns to the start |
| Auth.AppInitialStages | src/App.jsx:610-611 | with no `mode` prop the page opens on login; a prop outside the three stages shows the signup form, which leads on to OTP |
| Auth.FinalInitialStages | src/final.js:475-476 | the page opens on signup exactly for `?mode=signup`, and on login otherwise |
| Auth.TBackFromOtp | src/t.js:358 | Back on the OTP screen of `t.js` returns to signup without completing; the other two variants have no such edge |
| Auth.RunKeepsListed | src/t.js:344-358 | a flow whose steps stay among login, signup and OTP stays there on any run |
| Auth.RunsStayListed | src/final.js:475-481 | from each variant's initial stage, every run stays among login, signup and OTP |
| Auth.NoSubmitNoCompletion | src/t.js:346-353 | a flow that starts on a form and never presses the form button neither completes nor reaches OTP |
| Auth.CompletionNeedsSubmit | src/App.jsx:664 | in every variant, completion needs "Login" or "Send OTP" first |
| Auth.TSignupScenario | src/t.js:344-400 | toggle to signup, send, back, send and verify completes |
| Seed.IdsDistinct | src/App.jsx:127 | generated ids are 1 to n, increasing with generation order, hence distinct |
| Seed.Ids | src/App.jsx:127 | no contract; `id: i + 1` (also final.js:128 and t.js:60); characterised by Seed.IdsDistinct |
| Seed.AppPrice | src/App.jsx:132 | no contract; characterised by Seed.AppPrices |
| Seed.FinalPrice | src/final.js:140 | no contract; characterised by Seed.SamplePrices |
| Seed.TPrice | src/t.js:72 | no contract; characterised by Seed.SamplePrices |
| Seed.AppPrices | src/App.jsx:132 | every fourth course is free; the others cost 399, 499 or 699, and 299 is never charged |
| Seed.SamplePrices | src/final.js:140 | every third course is free; the others cost 499 in `final.js` and 399 in `t.js` |

## Left out

- Rendering: JSX, styling, animation and icons are presentation only.
- Navigation: routing, `navigate`/`goto`, `window.location` and `history` are host plumbing. The
  drawer and the page switch are not modelled either.
- Storage writes and parsing: `localStorage.setItem`, `JSON.stringify` and `JSON.parse` are foreign
  calls. Reads are the input `Storage.Read`. `JSON.parse` is a parameter that answers `None` where
  it would throw. Only the load rules are modelled.
- Storage.LoadLocal: the parser answers `Option<T>`, so stored text that is valid JSON of another
  shape (`"null"`, `"5"`, `"{}"`) is outside the model. `useLocalState` would load such a value as
  it is, not `initial`, and a later updater such as `toggleSave` would then throw.
- `matchMedia`: the host's colour-scheme preference is a parameter.
- Timers: the mentor's reply and the delayed completion of `final.js` run on `setTimeout`, so they
  are not modelled. Only the synchronous append and the completion itself are.
- Nondeterministic ids: `uid` uses `Math.random` and message ids use `Date.now`. Ids are
  parameters. Message timestamps are dropped.
- Ratings: the generated ratings and their display use floating point `toFixed`. Ratings are
  integer tenths, and their generation is not modelled. The rest of each generated course (title,
  instructor, level, category, reviews, students) is not modelled either. Only the id and price
  pattern is.
- Text.Lower: lowers ASCII letters only, not the full Unicode mapping of `toLowerCase`.
- Catalog.SortOrderOf: a sort key naming a member that every JavaScript object inherits
  (`"constructor"`, `"toString"`, ...) would not fall back to relevance in JavaScript. Such keys are
  treated as unknown. The select offers only the six table keys.
- Session.RouteCourse: `parseInt`'s own rules (leading digits, signs, white space) are not modelled.
  The parsed id, or `None` for `NaN`, is the input.
- Auth: the Back button of `final.js` (final.js:492) and the Back button above the login and
  signup forms of `t.js` (t.js:376) call `history.back()`. That is navigation, so `FinalStep` and
  `TStep` model it as leaving the stage unchanged. The Google/Apple buttons, "Resend" and the password-visibility
  toggle change no stage and are not modelled.
- Concurrency: React's batching of state updates is not modelled. Each updater is applied to the
  state it is given.

A few behaviours of the code are easy to misread; the model follows the code:

- Toggling a saved id twice restores the saved ids as a multiset, not as a list: the id moves to
  the end. `Session.ToggleTwiceReorders` proves this with the input [5, 6].
- In `App.jsx`, a non-empty stored theme other than "dark" loads light. The host preference is
  consulted only when the stored value is missing or empty.
- In `App.jsx`, the category filter is skipped for the empty string as well as for "All".
- `App.jsx` mounts its auth page without a `mode` prop, so the page always opens on login, even
  for `/auth?mode=signup`.
- `final.js` holds a sort selection that never affects its results.
