# irc-ai-automation admin dashboard — a Dafny model

This project models the client logic of the irc-ai-automation admin dashboard, a React application
where editors review AI-collected news. The model covers:

- **the application shell** (`App`): session flags set from the OAuth return parameters, the
  backend token exchange and the profile check; the one-level news-detail navigator; logout; and
  the choice of what to render;
- **the OAuth 2.0 authorization-code callback page** (`AuthCallback`, section 4.1.2 of RFC 6749):
  its chain of early exits, the stored token, and the redirect target with its error message
  encoded as `encodeURIComponent` does (section 2.3 of RFC 3986 for the unreserved set, UTF-8
  per RFC 3629);
- **the user context** (`UserContext`) and **the profile page** (`ProfilePage`): both read the
  payload segment of the stored JSON Web Token (section 7.1 of RFC 7519) and map it to a user
  record through JavaScript `||` fallback chains;
- **the news table** (`NewsTable`), **the filter bar** (`NewsFilters`) and **the verification
  queue** (`VerificationCards`);
- **the category grid** (`CategoryCards`) and **the add-category dialog** (`AddCategoryModal`);
- **the profile settings form** (`ProfileSettings`), **the weekly topic configuration**
  (`WeeklyCategories`) and **the demo login form** (`Login`).

Components whose state the source updates in place are classes. A class's fields are the
component's state variables. Its methods are the event handlers, and each handler's `ensures`
ties the new state to pure functions. Those functions carry the proved properties.

A `setTimeout` callback is a queue field of what the callback captured. A separate `FireTimer` or
`FinishSave` method runs the oldest entry, because timers with the same delay fire in the order
they were set.

The shared modules model what the components rely on:

- `JsText`: `split`, `trim`, `toLowerCase` and `includes`;
- `JsJson`: JSON values, truthiness, property reads that throw on `null`, and `||` chains;
- `SearchParams`: `URLSearchParams.get`;
- `UriEncoding`: `encodeURIComponent`;
- `BrowserStorage`: `localStorage`, as a class with a map field;
- `Lists`: generic `filter`, `find` and update-by-predicate over sequences.

All source paths below are relative to the repository root.

## Model

| member | source | states |
|---|---|---|
| App.PageView | src/App.tsx:186-211 | an unknown page name, or news-detail without a truthy selection, shows the dashboard; news-detail with a truthy selection shows exactly that item's detail view; every other known page gets a view of its own, not the dashboard |
| App.FailureStatusFirst | src/App.tsx:72-80 | an oauthStatus of failed, error or denied is acted on first, even when a token is present |
| App.ErrorParameterBeatsToken | src/App.tsx:93-103 | without a failure status, an `error` parameter stops the login although a token came back |
| App.ExchangeOnlyForCleanToken | src/App.tsx:105-111 | an exchange starts only for a non-empty oauthToken with no failure status and no error parameter |
| App.SelectThenBack | src/App.tsx:175-184 | opening a news item then going back returns to the page it was opened from, with no selection |
| App.SelectShowsDetail | src/App.tsx:175-197 | opening an item with a non-zero id renders that item's detail view |
| App.BackRestoresView | src/App.tsx:181-184 | going back from a detail page opened from another page renders that page's view again |
| App.AppContent.constructor | src/App.tsx:16-21 | the session starts unauthenticated, with no error, not exchanging, on the dashboard |
| App.AppContent.Render | src/App.tsx:214-232 | the exchange spinner wins over everything; the login view (with the auth error) exactly when not exchanging and not authenticated; otherwise the page's view |
| App.AppContent.ValidateAuth | src/App.tsx:25-58 | ok profile response authenticates and applies a truthy `page` parameter; 401 removes the stored token and sets the session-expired error; another status only clears the flag; a network error sets the connection error |
| App.AppContent.HandleOAuthParams | src/App.tsx:63-111 | each case of the return parameters sets its error message and clears the session flag; only a clean token starts the exchange, clears the error and sets the exchanging flag; navigation is untouched |
| App.AppContent.FinishExchange | src/App.tsx:123-146 | the exchange spinner always ends; success (ok status and JSON body) authenticates and opens the requested page or the dashboard; any failure sets the retry error and clears the session flag |
| App.AppContent.HandleLogin | src/App.tsx:150-152 | the login view's callback authenticates and changes nothing else |
| App.AppContent.HandleLogout | src/App.tsx:155-173 | whatever the logout request does, the stored token is removed, session and navigation are reset, and the login view with no error is shown |
| App.AppContent.HandleNewsSelect | src/App.tsx:175-179 | the current page is remembered, the item selected, the detail page opened |
| App.AppContent.HandleBackFromNewsDetail | src/App.tsx:181-184 | the selection is dropped and the remembered page restored |
| App.AppContent.Navigate | src/App.tsx:236-239 | the sidebar switches the current page and keeps the remembered page and selection |
| SearchParams.Get | src/App.tsx:64-67 | absent exactly when no pair has the name; otherwise the value of a pair with that name (the first one) |
| AuthCallback.ExchangeData | src/app/auth/callback/page.tsx:39-53 | a rejected fetch fails with its message; an ok response yields its parsed body or the parse error; a non-ok response always fails |
| AuthCallback.TokenToStore | src/app/auth/callback/page.tsx:55-58 | reading `token` fails exactly on null data; a token is stored exactly when `data.token` is truthy, as its string form |
| AuthCallback.ErrorParameterDenies | src/app/auth/callback/page.tsx:24-29 | an error parameter redirects to access_denied, stores nothing and exchanges nothing |
| AuthCallback.MissingCodeStops | src/app/auth/callback/page.tsx:31-35 | without a code the page redirects to no_code and exchanges nothing |
| AuthCallback.RefusedExchangeDefaultMessage | src/app/auth/callback/page.tsx:48-51 | a refused exchange whose body does not parse or has no `message` fails with "Authentication failed" |
| AuthCallback.RefusedExchangeServerMessage | src/app/auth/callback/page.tsx:48-51 | a refused exchange whose body has a non-empty `message` string fails with that message, whatever its other fields |
| AuthCallback.ExchangeFailureRedirects | src/app/auth/callback/page.tsx:37-77 | a failed exchange redirects with its message under `/?error=` and stores no token |
| AuthCallback.TokenStoredOnlyFromExchange | src/app/auth/callback/page.tsx:53-58 | a stored token comes only from an ok exchange whose parsed data has a truthy `token`, and is that value as a string |
| AuthCallback.TruthyTokenStored | src/app/auth/callback/page.tsx:53-58 | conversely, once the parameters pass, an ok exchange whose data has a truthy `token` stores it as a string, whatever the profile check answers |
| AuthCallback.ProfileRejection | src/app/auth/callback/page.tsx:61-70 | a non-ok profile check redirects with the invalid-account message, and the token already stored stays stored |
| AuthCallback.ErrorTargetShape | src/app/auth/callback/page.tsx:74-77 | every failure redirect lies under `/?error=` and differs from the success redirect |
| AuthCallback.SuccessIff | src/app/auth/callback/page.tsx:17-78 | the page redirects to `/?authenticated=true` exactly when there is a code and no error, the exchange yields non-null data and the profile check is ok; every other run redirects under `/?error=` |
| AuthCallback.ErrorMessageRecoverable | src/app/auth/callback/page.tsx:76-77 | percent-decoding the redirect's `error` value gives back the message's UTF-8 bytes |
| AuthCallback.CallbackPage.HandleCallback | src/app/auth/callback/page.tsx:17-79 | absent search parameters do nothing; otherwise the redirect and the stored token are exactly those of the decision, and nothing else is stored |
| UriEncoding.EncodeURIComponent | src/app/auth/callback/page.tsx:77 | the encoding contains only unreserved characters and `%` |
| UriEncoding.DecodeEncode | src/app/auth/callback/page.tsx:77 | percent-decoding an encoding gives the UTF-8 bytes of the original string |
| UriEncoding.EncodeUnreserved | src/app/auth/callback/page.tsx:77 | a string of unreserved characters is left as it is |
| UriEncoding.Utf8 | src/app/auth/callback/page.tsx:77 | one to four bytes per code point; one byte exactly for ASCII, and then the same value |
| JsJson.Get | src/app/auth/callback/page.tsx:50 | a property read throws exactly on null; on an object it yields the field or undefined |
| JsJson.OrElse | src/contexts/UserContext.tsx:42-49 | `a \|\| "fallback"` is `a` when truthy and the fallback string otherwise |
| JsJson.OptionalSplitPiece | src/contexts/UserContext.tsx:46-47 | `v?.split(sep)[i]` is undefined for a nullish value and throws exactly for a present value that is neither null nor a string; on a string it is the i-th piece |
| JsJson.NatToStringRoundTrip | src/app/auth/callback/page.tsx:50 | the decimal text of a numeric message reads back as the same number |
| JsText.Split | src/contexts/UserContext.tsx:33 | at least one piece, and no piece contains the separator |
| JsText.JoinSplit | src/contexts/UserContext.tsx:33 | joining the pieces with the separator gives back the string |
| JsText.SplitJoin | src/contexts/UserContext.tsx:46-47 | splitting separator-free pieces joined by the separator gives back the pieces |
| JsText.SplitCount | src/contexts/UserContext.tsx:34 | there is one more piece than occurrences of the separator |
| JsText.Piece | src/pages/Profile.tsx:35 | the i-th piece exists exactly when i is at most the number of separators |
| JsText.Lower | src/components/NewsTable.tsx:127 | same length; each character is lowered on its own |
| JsText.LowerIdempotent | src/components/NewsTable.tsx:127 | lowering twice is lowering once |
| JsText.IncludesIff | src/components/NewsTable.tsx:127 | `includes` holds exactly when the needle occurs at some position |
| JsText.Trim | src/components/AddCategoryModal.tsx:51 | the result is empty exactly for all-whitespace input; otherwise it starts and ends with non-whitespace and is the input minus its leading and trailing whitespace |
| JsText.TrimIdempotent | src/components/AddCategoryModal.tsx:51 | trimming twice is trimming once |
| Lists.Find | src/components/NewsTable.tsx:115 | `find` yields nothing exactly when no element passes; otherwise the first passing element |
| Lists.FilterSubMultiset | src/components/VerificationCards.tsx:133 | `filter` adds nothing: no element occurs more often in the result than in the list |
| Lists.FilterKeepsCounts | src/components/VerificationCards.tsx:133 | `filter` keeps every passing element as often as it occurs in the list |
| NewsTable.VerifyById | src/components/NewsTable.tsx:106-113 | every article with the id gets status "verified"; every other article and field is kept, order and length too |
| NewsTable.VerifyAbsentId | src/components/NewsTable.tsx:106-113 | verifying an id no article has changes nothing |
| NewsTable.VerifyTwice | src/components/NewsTable.tsx:106-113 | verifying the same id twice is verifying it once |
| NewsTable.VerifiedLosesButton | src/components/NewsTable.tsx:230 | after verifying, no article with that id offers the verify button; the others keep theirs |
| NewsTable.FilteredNews | src/components/NewsTable.tsx:122-170 | without filters all articles; otherwise the articles passing the search, category, status and date tests, in order, each as often as in the data, and nothing else |
| NewsTable.ShownAtMostTotal | src/components/NewsTable.tsx:177 | the "Showing X of Y" count never exceeds the total |
| NewsTable.DefaultFiltersShowAll | src/components/NewsTable.tsx:122-170 | the default filter state shows every article |
| NewsTable.SearchIgnoresCase | src/components/NewsTable.tsx:127 | searches that lower-case alike select alike |
| NewsTable.SearchIsSubstringMatch | src/components/NewsTable.tsx:127 | a non-empty search passes exactly the titles that contain it at some position, ignoring case |
| NewsTable.FilteredSuffix | src/components/NewsTable.tsx:178-180 | the counter suffix is " (filtered)" or empty |
| NewsTable.SuffixIffNotDefault | src/components/NewsTable.tsx:178-180 | the suffix shows exactly when filters were passed in and differ from the default state |
| NewsTable.Table.constructor | src/components/NewsTable.tsx:98 | the table starts with the eight sample articles |
| NewsTable.Table.HandleVerifyNews | src/components/NewsTable.tsx:106-119 | the list becomes the verified list; a toast exactly when some article had the id, naming the title of the first such article |
| NewsFilters.DefaultValue | src/components/NewsFilters.tsx:20-25 | each field's default is the default state's field; only the search defaults to empty |
| NewsFilters.Update | src/components/NewsFilters.tsx:27-28 | the key gets the value, every other field is kept |
| NewsFilters.FieldsDetermineState | src/components/NewsFilters.tsx:8-13 | two filter states with the same four fields are equal |
| NewsFilters.ActiveIff | src/components/NewsFilters.tsx:48 | filters are active exactly when some field differs from its default, that is, when the state is not the default |
| NewsFilters.UpdateOverrides | src/components/NewsFilters.tsx:27-33 | a later update of a field overrides an earlier one |
| NewsFilters.UpdatesCommute | src/components/NewsFilters.tsx:27-33 | updates of different fields commute |
| NewsFilters.RemovingEveryBadgeClears | src/components/NewsFilters.tsx:114-153 | closing the four badges one by one ends in the state "Clear All" gives |
| NewsFilters.FilterBar.constructor | src/components/NewsFilters.tsx:20-25 | the bar starts in the default state, with nothing active and nothing reported |
| NewsFilters.FilterBar.UpdateFilter | src/components/NewsFilters.tsx:27-33 | only that key changes, and a listener receives the new state |
| NewsFilters.FilterBar.ClearFilters | src/components/NewsFilters.tsx:35-46 | back to the default state from any state, reported to a listener |
| NewsFilters.FilterBar.RemoveBadge | src/components/NewsFilters.tsx:114-149 | a badge's close icon resets that field alone and reports the new state |
| VerificationCards.SetStatusById | src/components/VerificationCards.tsx:102-124 | the items with the id get the new status; every other item is kept |
| VerificationCards.PendingItems | src/components/VerificationCards.tsx:133 | the pending items, in order, each as often as in the data, and nothing else |
| VerificationCards.ProcessedLeavesQueue | src/components/VerificationCards.tsx:102-133 | approving or rejecting an id removes exactly that id's items from the pending view and keeps the other pending items in order |
| VerificationCards.EmptyMessageIff | src/components/VerificationCards.tsx:137-154 | the "No items pending verification" message shows exactly when no item is pending |
| VerificationCards.Queue.constructor | src/components/VerificationCards.tsx:100 | the queue starts with the given items |
| VerificationCards.Queue.HandleApprove | src/components/VerificationCards.tsx:102-115 | the items with the id become approved; a toast exactly when one existed, naming the title of the first one |
| VerificationCards.Queue.HandleReject | src/components/VerificationCards.tsx:117-130 | the items with the id become rejected; a toast exactly when one existed, naming the title of the first one |
| AddCategoryModal.KeywordAdded | src/components/AddCategoryModal.tsx:50-58 | a blank or already-listed keyword changes nothing; otherwise its trimmed form is appended and the input cleared |
| AddCategoryModal.KeywordRemoved | src/components/AddCategoryModal.tsx:60-65 | the keyword is gone; every other keyword stays, in order, as often as it occurred |
| AddCategoryModal.AddKeepsWellFormed | src/components/AddCategoryModal.tsx:50-58 | adding keeps the keywords unique, non-empty and trimmed |
| AddCategoryModal.RemoveKeepsWellFormed | src/components/AddCategoryModal.tsx:60-65 | removing keeps the keywords unique, non-empty and trimmed |
| AddCategoryModal.RemoveAbsent | src/components/AddCategoryModal.tsx:60-65 | removing a keyword that is not listed changes nothing |
| AddCategoryModal.RemoveUndoesAdd | src/components/AddCategoryModal.tsx:50-65 | removing the keyword just added restores the list |
| AddCategoryModal.AddTwice | src/components/AddCategoryModal.tsx:50-58 | adding the same text again changes nothing |
| AddCategoryModal.Modal.constructor | src/components/AddCategoryModal.tsx:23-29 | the dialog opens with the empty form and the first palette colour |
| AddCategoryModal.Modal.AddKeyword | src/components/AddCategoryModal.tsx:50-58 | keywords and input change as KeywordAdded says; the rest of the form is kept; well-formed keywords stay well-formed |
| AddCategoryModal.Modal.RemoveKeyword | src/components/AddCategoryModal.tsx:60-65 | keywords change as KeywordRemoved says; the rest is kept |
| AddCategoryModal.Modal.KeywordKeyPress | src/components/AddCategoryModal.tsx:67-72 | Enter adds the keyword; any other key changes nothing |
| AddCategoryModal.Modal.HandleClose | src/components/AddCategoryModal.tsx:39-48 | the form and input reset and one close request is made |
| AddCategoryModal.Modal.HandleSubmit | src/components/AddCategoryModal.tsx:31-37 | a blank name changes nothing; otherwise the form is handed on once, then reset and closed |
| AddCategoryModal.Modal.SetName | src/components/AddCategoryModal.tsx:88 | only the name changes |
| AddCategoryModal.Modal.SetDescription | src/components/AddCategoryModal.tsx:100 | only the description changes |
| AddCategoryModal.Modal.SelectColor | src/components/AddCategoryModal.tsx:110-114 | only the colour changes, to a palette colour |
| AddCategoryModal.Modal.SetNewKeyword | src/components/AddCategoryModal.tsx:131 | only the keyword input changes |
| CategoryCards.FilteredCategories | src/components/CategoryCards.tsx:97-103 | the categories whose name, description or some keyword contains the query ignoring case, in order, each as often as in the list, and nothing else |
| CategoryCards.EmptyQueryShowsAll | src/components/CategoryCards.tsx:97-103 | the empty query shows every category |
| CategoryCards.KeywordHitShows | src/components/CategoryCards.tsx:100-102 | a keyword hit alone is enough to show a category |
| CategoryCards.SearchIgnoresCase | src/components/CategoryCards.tsx:97-103 | queries that lower-case alike select alike |
| CategoryCards.ToggleActive | src/components/CategoryCards.tsx:105-111 | the categories with the id flip `isActive`; the others are kept |
| CategoryCards.ToggleTwice | src/components/CategoryCards.tsx:105-111 | toggling twice restores the list |
| CategoryCards.AddCategory | src/components/CategoryCards.tsx:118-128 | the form becomes a category appended at the end, with id length+1, no articles, zero growth and accuracy, active |
| CategoryCards.PositionIdsUnique | src/components/CategoryCards.tsx:7-80 | when ids are positions counted from 1, no two categories share an id |
| CategoryCards.OperationsKeepPositionIds | src/components/CategoryCards.tsx:105-128 | toggling and appending keep ids equal to positions, so the id of an appended category is new |
| CategoryCards.Grid.constructor | src/components/CategoryCards.tsx:95 | the grid starts with the sample categories, whose ids are their positions |
| CategoryCards.Grid.HandleToggleActive | src/components/CategoryCards.tsx:105-111 | the list becomes the toggled list |
| CategoryCards.Grid.HandleAddCategory | src/components/CategoryCards.tsx:118-128 | the list becomes the list with the new category appended |
| UserContext.NamePart | src/contexts/UserContext.tsx:46-47 | the explicit field, else the alternative field, else the i-th space-separated word of a string name, else `""` (also for a nullish name); it throws exactly when both fields are falsy and the name cannot be split |
| UserContext.MapPayload | src/contexts/UserContext.tsx:41-50 | id, name, email, picture, email_verified and role follow their `\|\|` chains with their defaults; the given and family names are NamePart of their fields and the name's first and second word; a null payload throws |
| UserContext.MapPayloadOkIff | src/contexts/UserContext.tsx:41-50 | mapping fails exactly on a null payload, or when a name part needs the split and the name cannot be split |
| UserContext.LoadUserIff | src/contexts/UserContext.tsx:25-56 | a user loads exactly when the token is non-empty with three segments, the middle one decodes, and the payload maps |
| UserContext.DefaultsAreNonEmpty | src/contexts/UserContext.tsx:43-49 | name, picture and role always end up truthy |
| UserContext.EmptyPayloadDefaults | src/contexts/UserContext.tsx:41-50 | an empty payload object gets every default |
| UserContext.NameWordsRejoin | src/contexts/UserContext.tsx:46-47 | a two-word name with no explicit parts yields the two words as given and family name |
| UserContext.UserProvider.constructor | src/contexts/UserContext.tsx:59-61 | mounting the provider loads the user from the stored token |
| UserContext.UserProvider.LoadUserFromToken | src/contexts/UserContext.tsx:25-57 | the user becomes the one loaded from the stored token, or null on every early exit and caught error |
| UserContext.UserProvider.SetUser | src/contexts/UserContext.tsx:64 | `setUser` replaces the user |
| UserContext.UseUser | src/contexts/UserContext.tsx:70-75 | outside a provider it throws the provider message; inside, it yields the context |
| ProfilePage.PayloadSegment | src/pages/Profile.tsx:35 | the second dot-separated segment when there is one, otherwise the text "undefined" |
| ProfilePage.DotlessTokenLoadsNothing | src/pages/Profile.tsx:33-48 | a non-empty token without a dot loads no profile when decoding "undefined" fails, as `atob` always does |
| ProfilePage.MapPayload | src/pages/Profile.tsx:36-46 | id, name, email, picture, email_verified and locale follow their `\|\|` chains with their defaults, `hd` is passed through; the given and family names are NamePart of their field and the name's first and second word; a null payload throws |
| ProfilePage.NamePart | src/pages/Profile.tsx:41-42 | the explicit field, else the i-th space-separated word of a string name, else `""` (also for a nullish name); it throws exactly when the field is falsy and the name cannot be split |
| ProfilePage.NameWordsRejoin | src/pages/Profile.tsx:41-42 | a two-word name yields the two words as given and family name |
| ProfilePage.EmptyPayloadDefaults | src/pages/Profile.tsx:36-46 | an empty payload gets every default and no hosted domain |
| ProfilePage.LooserThanUserContext | src/pages/Profile.tsx:35 | a two-segment token whose second segment decodes loads a profile on this page but no user in the context |
| ProfilePage.Page.constructor | src/pages/Profile.tsx:23-24 | the page starts loading, with no profile |
| ProfilePage.Page.Mount | src/pages/Profile.tsx:26-51 | loading always ends; without a token the profile is untouched, otherwise it is the loaded profile or null |
| ProfilePage.Page.HandleSignOut | src/pages/Profile.tsx:53-58 | the stored token is removed and a reload requested |
| ProfileSettings.SetField | src/components/Profile.tsx:85-155 | one input changes its field and no other |
| ProfileSettings.CheckPassword | src/components/Profile.tsx:35-43 | accepted exactly when the passwords match and have at least 8 characters; mismatch exactly when they differ |
| ProfileSettings.MismatchReportedFirst | src/components/Profile.tsx:35-43 | a short password with a different confirmation is reported as a mismatch |
| ProfileSettings.ClearPasswords | src/components/Profile.tsx:50-55 | the three password fields are emptied, name and email kept |
| ProfileSettings.ClearedFormDisablesSubmit | src/components/Profile.tsx:163 | after a completed change the password button stays disabled until the current password is refilled |
| ProfileSettings.Settings.constructor | src/components/Profile.tsx:11-19 | the form starts with the sample name and email, empty passwords, not loading |
| ProfileSettings.Settings.SetInput | src/components/Profile.tsx:85-155 | an input's change handler sets that field only |
| ProfileSettings.Settings.HandleProfileUpdate | src/components/Profile.tsx:21-30 | loading starts and a profile timer is queued |
| ProfileSettings.Settings.HandlePasswordChange | src/components/Profile.tsx:32-58 | a mismatch or short password only raises its toast; an accepted one starts loading and queues a password timer |
| ProfileSettings.Settings.FireTimer | src/components/Profile.tsx:26-57 | the oldest timer ends loading with its toast; a password timer also clears the password fields |
| WeeklyCategories.Settle | src/components/WeeklyCategoriesConfig.tsx:33-41 | a new saved category resets the selection and clears the flag; otherwise a new selection recomputes the flag; otherwise nothing runs |
| WeeklyCategories.MountedState | src/components/WeeklyCategoriesConfig.tsx:27-41 | after mounting, last week's category is selected and there are no changes |
| WeeklyCategories.ChangeSelectionKeepsConsistent | src/components/WeeklyCategoriesConfig.tsx:43-45 | a selection change keeps "unsaved changes exactly when selection differs from saved" |
| WeeklyCategories.AsWrittenLosesChangeFlag | src/components/WeeklyCategoriesConfig.tsx:59-61 | as written, a save that completes after the selection changed can leave the flag cleared while the selection differs |
| WeeklyCategories.SaveCompletedKeepsConsistent | src/components/WeeklyCategoriesConfig.tsx:57-72 | the corrected save completion keeps the flag consistent, ends saving and records the saved category |
| WeeklyCategories.AsWrittenAgreesOtherwise | src/components/WeeklyCategoriesConfig.tsx:57-72 | the completion as written and the corrected one agree exactly unless the save keeps the saved category while the selection has moved away from it |
| WeeklyCategories.SaveWithoutInterruption | src/components/WeeklyCategoriesConfig.tsx:47-73 | a save with no change in between leaves nothing unsaved, both as written and corrected |
| WeeklyCategories.SaveResetsLaterSelection | src/components/WeeklyCategoriesConfig.tsx:33-36 | a save that changes the saved category resets a selection made during the wait, both as written and corrected |
| WeeklyCategories.WeeklyConfig.constructor | src/components/WeeklyCategoriesConfig.tsx:27-41 | the component mounts in the mounted state, with nothing pending or saved |
| WeeklyCategories.WeeklyConfig.HandleCategoryChange | src/components/WeeklyCategoriesConfig.tsx:43-45 | the selection becomes the value, and a consistent flag stays consistent |
| WeeklyCategories.WeeklyConfig.HandleSave | src/components/WeeklyCategoriesConfig.tsx:47-57 | no selection gives the error toast only; otherwise saving starts and the selection is captured |
| WeeklyCategories.WeeklyConfig.FinishSave | src/components/WeeklyCategoriesConfig.tsx:57-72 | the oldest captured selection is saved (corrected completion), handed to a listener, and a consistent flag stays consistent; the state equals the completion as written except on the input of the finding below |
| Login.AcceptedIsDemo | src/components/Login.tsx:38-41 | exactly one credential pair is accepted, the demo pair, and it passes the fill check |
| Login.LoginForm.constructor | src/components/Login.tsx:19-24 | the form starts empty, hidden, not loading |
| Login.LoginForm.HandleSubmit | src/components/Login.tsx:26-37 | an empty field only raises the fill-in toast; otherwise loading starts and the credentials are captured |
| Login.LoginForm.FireTimer | src/components/Login.tsx:37-48 | the oldest captured credentials call `onLogin` exactly when accepted, with the matching toast; loading ends |
| Login.LoginForm.HandleDemoLogin | src/components/Login.tsx:51-57 | the accepted pair is filled in, so the next submit succeeds |
| Login.LoginForm.SetEmail | src/components/Login.tsx:93-97 | only the email changes |
| Login.LoginForm.SetPassword | src/components/Login.tsx:114-118 | only the password changes |
| Login.LoginForm.ToggleShowPassword | src/components/Login.tsx:125-127 | the password visibility flips |

## Left out

- Network transport is not modelled. `fetch`, cookies and request headers are left out; each request's outcome is a datatype input (status, parsed body, or the thrown message).
- The race between the profile check and the token exchange in the application shell is not modelled. Each is its own method, applied in whichever order the caller chooses.
- Browser navigation is left out: `history.replaceState`, the Next.js router and `location.reload`. Only the redirect target and a reload flag are recorded.
- The date-range test of the news table is left abstract. `new Date`, `toDateString` and the today/yesterday/week/month comparisons are a parameter `inDateRange`, because they depend on the clock.
- `atob` and `JSON.parse` are one abstract parameter `decode`, which returns none where either throws. Base64 and JSON syntax are not modelled.
- ProfilePage.PayloadSegment: a token without a dot passes the text "undefined" on to `atob`, which always rejects it (nine characters is not a valid base64 length), so such a token always loads no profile. The model leaves that rejection to the `decode` parameter; ProfilePage.DotlessTokenLoadsNothing states the outcome for a `decode` that rejects "undefined".
- Timer delays are not modelled; only the order in which timers fire is. Toasts are the methods' return values, not a side effect.
- `console` logging, `toLocaleDateString`, the `lastUpdated` timestamp, and the "Failed to save" branch are left out. That branch is unreachable, because the awaited timer never rejects.
- JSX markup and styling are left out. The modelled parts are the conditions that choose between the alternatives, and the `disabled` predicates.
- JSON numbers are integers only. Floating point, NaN and their string forms are not modelled.
- JsText.Lower: lowers ASCII letters only, whereas `toLowerCase` also lowers the rest of Unicode.
- String lengths count code points, not UTF-16 code units. This matters only for the 8-character password check with astral characters.
- JsJson.Get: reads own fields only. Properties inherited through the prototype chain are not modelled, for example `sub` on a string payload.
- `handleEdit` only logs, and `handleNewsClick` only forwards to the parent's callback. Neither is modelled.
- NewsDetail and the display-only components are not part of this model. These are cards, headers, stats, sidebar and breadcrumb, the `views/*` wrappers, and `app/page.tsx`. `config/api.ts` is not part of it either.
- VerificationCards.Queue.constructor: the five sample items (ids 1 to 5, all pending) are not written out, because their long preview and body texts make every proof that mentions them too costly for the verifier. The queue starts from the items it is given.
- WeeklyCategories.WeeklyConfig.FinishSave: runs the corrected completion, where the component clears `hasChanges` unconditionally (src/components/WeeklyCategoriesConfig.tsx:61). The two differ only when the save keeps the saved category while the selection has moved away from it. AsWrittenLosesChangeFlag exhibits that input, and the method's contract states the agreement everywhere else.
- AddCategoryModal's `isOpen` and the dialog's open/close animation are left out. `onOpenChange` is the same `HandleClose`.

## Findings

| source | as written | input that shows it | evidently intended | confidence | as-written member | corrected member |
|---|---|---|---|---|---|---|
| src/components/WeeklyCategoriesConfig.tsx:59-61 | the save completion sets `previousCategory` to the captured selection and `hasChanges` to false unconditionally | selection "Technology" equal to the saved one; press Save, then pick "Business" during the one-second wait; `previousCategory` does not change, so no effect recomputes the flag, and the page reports no changes while "Business" differs from the saved "Technology" | unsaved changes exactly when the selection differs from the saved category, so the flag should be computed from the current selection | not executed | WeeklyCategories.AsWrittenLosesChangeFlag | WeeklyCategories.SaveCompletedKeepsConsistent |
