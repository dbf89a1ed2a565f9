# FlavorJourney in Dafny

FlavorJourney is a web application where Vietnamese and Japanese users share, look up and present
Vietnamese dishes. This project models its core and proves properties of that model. The core has
two parts.

The NestJS back end:
- the dish catalogue and its moderation workflow: submit, list, fetch, edit, review and delete;
- accounts: register, login with a daily streak, logout by token version, forgotten-password reset;
- the check of a signed-in token;
- the request-body rules of the account forms;
- account statistics and the password change;
- favourites and their statistics;
- the view history;
- introductions written by a language model, and the templates saved from them;
- the profile and its owner guard;
- image upload to an object store.

The React front end:
- the search filter panel;
- the search page and its query string;
- the AI introduction generator's state;
- the "my submissions" page.

How the model is built:
- Every database table is a Dafny `map` keyed by id, or a `seq` of rows in insertion order.
- The services that write rows are classes with `modifies` clauses: `Dishes.DishTable`,
  `Accounts.UserStore`, `Favorites.FavoriteStore`, `ViewHistory.ViewLog`,
  `Templates.TemplateStore`.
- Each method's `ensures` ties the new table to a function of the old one. Lemmas about those
  functions state what the application promises.
- Pure helpers are functions: DTO rules, streaks, parsing, cleanup, tallies, query strings.
- The React components are classes whose fields are the component's state. Each event handler
  is a method.

Some things outside the model become parameters:
- bcrypt's hash (`UserStore.hash`) and `new Date(...)` parsing (`parseDate`);
- the local calendar day of a time (`dayOf`) and the current time (`now`);
- random tokens and key text;
- the language model's reply (`Completion`) and `JSON.parse` of it (`parse`);
- whether the object store accepted a put.

Modules follow the source files:
- `common`: JavaScript values, trimming, splitting, counting;
- `ordering`: sorting by a key;
- `dish_dtos`, `dishes`, `accounts`, `jwt`, `auth_dtos`, `user_dtos`, `users`, `favorites`,
  `view_history`, `templates`, `profile`, `owner_guard`, `upload`;
- `search_filters`, `search_page`, `ai_generator`, `my_submissions`.

## Model

| member | source | states |
|---|---|---|
| DishDtos.ParseStatus | backend/src/dish/dtos/update-dish.dto.ts:73-75 | Exactly the three texts pending, approved and rejected are statuses, and each parses to the status of that name |
| DishDtos.StatusNameRoundTrip | backend/src/dish/dtos/update-dish.dto.ts:73-75 | Parsing a status's name gives back the status |
| DishDtos.ValidCreate | backend/src/dish/dtos/create-dish.dto.ts:13-77 | Both names present, spiciness within 0..10, saltiness, sweetness and sourness within 0..5, an image URL that is absent or a URL |
| DishDtos.ValidCreateFields | backend/src/dish/dtos/create-dish.dto.ts:13-77 | A validated create request has both names. Its spiciness is within 0..10 and its saltiness, sweetness and sourness within 0..5 |
| DishDtos.ValidUpdate | backend/src/dish/dtos/update-dish.dto.ts:4-79 | Every level that is present lies within 0..5 |
| DishDtos.EmptyUpdateIsValid | backend/src/dish/dtos/update-dish.dto.ts:4-79 | Every field of an update is optional, so the empty update is valid |
| DishDtos.SpicinessScalesDiffer | backend/src/dish/dtos/update-dish.dto.ts:40-45 | A spiciness of 8 passes on create and fails on update, whose scale stops at 5 |
| Dishes.CreateError | backend/src/dish/dish.service.ts:32-56 | createDish refuses for these reasons, in order: an unknown non-zero category, then an unknown non-zero region, then a missing name. Otherwise it accepts |
| Dishes.ValidatedCreateHasNames | backend/src/dish/dish.service.ts:32-56 | A request that passed validation is refused only for its references |
| Dishes.StoredImageUrlAsWritten | backend/src/dish/dish.service.ts:58-65 | As written, the stored URL is the caller's imageUrl when non-empty, and null otherwise |
| Dishes.BodyImageUrlIsDropped | backend/src/dish/dish.service.ts:58-65 | As written, an image URL sent in the body is stored as null |
| Dishes.StoredImageUrl | backend/src/dish/dish.service.ts:58-65 | Corrected: the caller's URL wins, then the body's; '' is null; null only when both are missing or empty |
| Dishes.NewDish | backend/src/dish/dish.service.ts:58-65 | The inserted row has the request's names and references, is pending and unreviewed, is submitted by the user at now with 0 views, and stores the as-written image URL |
| Dishes.CorrectedCreateKeepsBodyImage | backend/src/dish/dish.service.ts:58-65 | Corrected: a body image_url survives creation, where the code as written stores null |
| Dishes.NewDishIsUnreviewed | backend/src/dish/dish.service.ts:58-65 | A new submission is pending, unreviewed, its submitter's, with a view count of 0. Its image is the caller's non-empty imageUrl or null, and the body's image_url plays no part |
| Dishes.DishTable.CreateDish | backend/src/dish/dish.service.ts:25-77 | It fails exactly when CreateError refuses. On success it inserts NewDish under the next id, changes nothing else, and returns the select's six columns of the new row |
| Dishes.CreateSelection | backend/src/dish/dish.service.ts:66-73 | The response carries only the id, the two names, the status, the submission time and the image URL |
| Dishes.UpdateOutcome | backend/src/dish/dish.service.ts:232-400 | A missing dish is DISH_NOT_FOUND. A successful update keeps the id, submitter, submission time and view count. A user who is not an administrator never changes the pending status |
| Dishes.UserEditsOnlyOwnPending | backend/src/dish/dish.service.ts:243-266 | A user who is not an administrator succeeds only on their own pending dish without a status. The moderation fields stay as they were |
| Dishes.ReviewStampsReviewer | backend/src/dish/dish.service.ts:269-316 | A review stores the new status, the reviewer and the time. The reason is kept only for a rejection |
| Dishes.RejectionNeedsReason | backend/src/dish/dish.service.ts:291-298 | A rejection without a reason fails with REJECTION_REASON_REQUIRED |
| Dishes.EditKeepsModeration | backend/src/dish/dish.service.ts:351-372 | Outside a review the moderation fields do not change. Every field the request carries replaces its column |
| Dishes.SameStatusIsPlainEdit | backend/src/dish/dish.service.ts:268-273 | An administrator who resends the current status makes a plain edit |
| Dishes.UpdateKeepsReviewConsistent | backend/src/dish/dish.service.ts:232-400 | Every successful update keeps the moderation fields consistent with the status and keeps the id |
| Dishes.DishTable.ApplyUpdate | backend/src/dish/dish.service.ts:232-400 | The stored row is UpdateOutcome's. On failure nothing changes |
| Dishes.UpdateSelection | backend/src/dish/dish.service.ts:321-344 | The answer of an update: the dish's content columns, status and submission time, with the review columns only after a review |
| Dishes.DishTable.UpdateDishSubmission | backend/src/dish/dish.service.ts:232-403 | It answers UpdateOutcome's error, or the select of the path taken. After a review that includes the reviewer, the time and the reason kept for a rejection. After a plain edit it has no review columns. The submitter and the view count are never returned |
| Dishes.DishTable.DeleteDishSubmission | backend/src/dish/dish.service.ts:514-540 | It succeeds exactly for the dish's submitter, whatever the role, and then removes exactly that row |
| Dishes.DishTable.IncrementViewCount | backend/src/view_history/view_history.service.ts:56-59 | One dish's view_count goes up by one |
| Dishes.DishTable.GetById | backend/src/dish/dish.service.ts:542-594 | Only an approved dish is found. It is shown with its joined category and region |
| Dishes.TasteFilters | backend/src/dish/dish.service.ts:87-103 | It yields one condition per requested taste name known to the service, each once |
| Dishes.PageOf | backend/src/dish/dish.service.ts:80-82 | An absent or zero page is 1; any other page is kept |
| Dishes.LimitOf | backend/src/dish/dish.service.ts:80-82 | An absent or zero limit is 20; any other limit is kept |
| Dishes.CategoryIds | backend/src/dish/dish.service.ts:106-114 | It holds exactly the ids of the categories whose slug is listed. It is absent for an empty list |
| Dishes.RegionIds | backend/src/dish/dish.service.ts:115-123 | It holds exactly the ids of the regions whose code is listed. It is absent for an empty list |
| Dishes.SelectedExactly | backend/src/dish/dish.service.ts:125-141 | The selection holds exactly the rows satisfying the filter, each once, in id order |
| Dishes.PageRowsAreSortedMatches | backend/src/dish/dish.service.ts:143-149 | A page has at most `limit` rows, all of them matches, sorted by the requested key |
| Ordering.SortDesc | backend/src/favorites/favorites.service.ts:134-138 | The result is a permutation of the input, sorted by the key from largest to smallest |
| Dishes.TotalPages | backend/src/dish/dish.service.ts:228 | It is the ceiling of total over limit: the fewest pages that hold every row |
| Dishes.ToResponse | backend/src/dish/dish.service.ts:176-221 | The response keeps the dish's id and names. A missing ingredients or how-to-eat text becomes ''. Category and region are present exactly when the references resolve |
| Dishes.DishTable.List | backend/src/dish/dish.service.ts:79-230 | It returns the requested page of matches with the match count, page, limit and totalPages |
| Dishes.DishTable.MatchesAreListed | backend/src/dish/dish.service.ts:125-141 | A dish appears in the list exactly when it is an approved row satisfying every filter |
| Dishes.DishTable.ListedAreReviewed | backend/src/dish/dish.service.ts:143-146 | Every listed dish records a reviewer and a review time |
| Accounts.RedirectFor | backend/src/auth/auth.service.ts:146 | The redirect is /admin exactly for an administrator, and / for every other role |
| Accounts.Streak | backend/src/auth/auth.service.ts:113-135 | The streak restarts at 1, stays, or grows by one. A first login starts at 1 |
| Accounts.StreakCases | backend/src/auth/auth.service.ts:113-135 | A login on the same day keeps the streak. The next day adds one. A later day restarts it at 1 |
| Accounts.NextDayLoginsAdd | backend/src/auth/auth.service.ts:113-135 | n logins on consecutive days after a streak of c give c + n |
| Accounts.ConsecutiveDaysStreak | backend/src/auth/auth.service.ts:113-135 | A first login followed by logins on consecutive days gives a streak of the number of days |
| Accounts.UserStore.constructor | backend/src/auth/auth.service.ts:29-83 | The store starts empty, with its hash, day and date functions |
| Accounts.UserStore.FindByEmail | backend/src/auth/auth.service.ts:38-45 | It finds a row with the email exactly when one exists |
| Accounts.UserStore.NewUser | backend/src/auth/auth.service.ts:60-69 | The new row is a regular user with the given email and name, the password's hash, token version 0, registered now, with no login and no reset token |
| Accounts.UserStore.Register | backend/src/auth/auth.service.ts:29-83 | It fails for these reasons, in order: mismatched passwords, a taken email, an invalid birthday. Otherwise it always succeeds: it inserts a regular user under the next id and answers with only that row's id, email, username, role and registration date |
| Accounts.RegisterSelection | backend/src/auth/auth.service.ts:70-76 | The answer of a registration carries the id, email, username, role and registration date, and no password hash |
| Accounts.UserStore.LoggedIn | backend/src/auth/auth.service.ts:137-144 | A login writes only the last login time, the streak and saveLoginInfo. An absent saveLoginInfo keeps the column |
| Accounts.UserStore.Login | backend/src/auth/auth.service.ts:85-158 | It fails exactly when no row with the email has the password's hash. An unknown email and a wrong password give the same error. On success it returns the token payload and the role's redirect, and stores the new streak and login time |
| Accounts.UserStore.CompareAndIncrement | backend/src/auth/auth.service.ts:161-170 | It bumps the version only when the stored version is the expected one, and reports 1 or 0 |
| Accounts.LogoutSpec | backend/src/auth/auth.service.ts:160-203 | Logout keeps every other row and the set of ids. It is USER_NOT_FOUND exactly for an unknown user. A success bumps that user's version, and any other answer changes nothing |
| Accounts.UserStore.Logout | backend/src/auth/auth.service.ts:160-203 | The answer and the new table are LogoutSpec's |
| Accounts.LogoutComparesVersion | backend/src/auth/auth.service.ts:161-191 | With a token version, logout succeeds exactly when that version is the stored one, and then moves past it. Otherwise it reports already_logged_out and changes nothing |
| Accounts.LogoutIdempotent | backend/src/auth/auth.service.ts:161-191 | A second logout with the same token reports already_logged_out and changes nothing |
| Accounts.LogoutWithoutVersion | backend/src/auth/auth.service.ts:193-202 | Without a version, logout bumps an existing user and refuses an unknown one |
| Accounts.AfterForgot | backend/src/auth/auth.service.ts:219-226 | Only the token, its expiry and the version change. The version grows, and the token works until one hour after now |
| Accounts.UserStore.ForgotPassword | backend/src/auth/auth.service.ts:205-256 | An unknown email gets reset_sent and nothing changes. A known email gets the token, an expiry one hour on and a new token version. Then the answer is reset_sent if the mail went out and send_error if it failed |
| Accounts.ForgotTokenLifetime | backend/src/auth/auth.service.ts:214-226 | A new reset token works until one hour later, and not at that moment |
| Accounts.UserStore.FindByResetToken | backend/src/auth/auth.service.ts:267-278 | It finds the first row with the token that has not expired, and reports none when no such row exists |
| Accounts.AfterReset | backend/src/auth/auth.service.ts:282-290 | Only the password hash, the token, its expiry and the version change. The version grows, and no token works afterwards |
| Accounts.UserStore.ResetPassword | backend/src/auth/auth.service.ts:258-295 | It fails on mismatched passwords and on an invalid or expired token. It succeeds whenever the passwords match and some row is resettable: that one row gets the new hash, loses its token and gets a new version |
| Accounts.ResetTokenSingleUse | backend/src/auth/auth.service.ts:280-290 | After a reset no row holds the used token |
| Jwt.Validate | backend/src/auth/strategies/jwt.strategy.ts:26-46 | An unknown user is unauthorized. A token is accepted exactly when its version (0 when absent) is the stored one. The principal is the row's id, email and role. Any other failure is token_revoked |
| Jwt.VersionBumpRevokes | backend/src/auth/strategies/jwt.strategy.ts:33-39 | Once the stored version moves past a token's, the token is revoked |
| Jwt.IssuedTokenAccepted | backend/src/auth/auth.service.ts:104-109 | The token a login issues is accepted for that user |
| Jwt.LogoutRevokesToken | backend/src/auth/auth.service.ts:160-191 | After a logout with it, the login's token is revoked |
| Jwt.ResetFlowRevokes | backend/src/auth/auth.service.ts:214-226 | Both forgot-password and reset revoke every earlier token |
| AuthDtos.ValidRegister | backend/src/auth/dtos/register.dto.ts:15-59 | A present email that passes the email check, a username, a password of eight or more characters that meets the pattern, a confirmation, and an absent or valid birthday |
| AuthDtos.RegisterRegexIffNonEmpty | backend/src/auth/dtos/register.dto.ts:13 | The registration password pattern is met by any non-empty text |
| AuthDtos.RegisterPasswordIsLengthOnly | backend/src/auth/dtos/register.dto.ts:33-42 | With the other fields valid, a registration is valid exactly when the password has eight or more characters |
| AuthDtos.LookaheadFromStart | backend/src/auth/dtos/reset-password.dto.ts:4 | On one line, a lookahead from the start finds any character of its class |
| AuthDtos.ResetRegexIff | backend/src/auth/dtos/reset-password.dto.ts:4 | The reset pattern matches exactly a one-line text that mixes two of the classes upper, lower, digit and other |
| AuthDtos.OneClassFailsReset | backend/src/auth/dtos/reset-password.dto.ts:4 | A text of a single class fails the reset pattern |
| AuthDtos.ValidReset | backend/src/auth/dtos/reset-password.dto.ts:7-19 | A token, a password of eight or more characters that meets the reset pattern, and a confirmation |
| AuthDtos.ValidResetMeaning | backend/src/auth/dtos/reset-password.dto.ts:7-19 | A valid reset carries a token, a confirmation, and a password of eight or more characters on one line that mixes two classes |
| AuthDtos.ResetStricterThanRegister | backend/src/auth/dtos/reset-password.dto.ts:4 | "abcdefgh" passes registration's pattern and fails the reset pattern |
| UserDtos.ValidChangePassword | backend/src/users/dtos/change-password.dto.ts:4-17 | The class-validator rules of a password change: a non-empty old password, a defined new one of at least eight characters that matches the pattern, and a defined confirmation |
| UserDtos.ValidChangePasswordMeaning | backend/src/users/dtos/change-password.dto.ts:4-17 | A valid change has an old password, a new one of at least eight characters, and a confirmation that may be empty |
| Users.GetUserStatistics | backend/src/users/users.service.ts:14-44 | An unknown user is NOT_FOUND. Otherwise it counts the user's views and favourites, sets searches to the views, shows a null streak as 0, and sets membership from the registration date |
| Users.StatisticsAfterHistoryDeleted | backend/src/users/users.service.ts:27-42 | Once a user's history is deleted, their views and searches are 0 |
| Users.StatisticsAfterFavorite | backend/src/users/users.service.ts:27-42 | A new favourite of the user adds one to their favourites. A favourite of someone else adds nothing |
| Users.ChangePassword | backend/src/users/users.service.ts:46-86 | It fails for these reasons, in order: not found, mismatch, same as old, wrong old password. Otherwise it stores the new hash and bumps the token version. On failure nothing changes |
| Users.ChangeRevokesTokens | backend/src/users/users.service.ts:74-81 | After a change every earlier token is revoked, and the new password's hash is the stored one |
| Favorites.PairCountPositive | backend/src/favorites/favorites.service.ts:84-92 | The count of a (user, dish) pair is positive exactly when the pair is stored |
| Favorites.CheckFavorite | backend/src/favorites/favorites.service.ts:84-92 | isFavorite holds exactly when the pair is stored |
| Favorites.RemovalCount | backend/src/favorites/favorites.service.ts:45-65 | The delete removes rows exactly when the pair exists, and otherwise leaves the table as it is |
| Favorites.FilterKeepsPairsUnique | backend/src/favorites/favorites.service.ts:45-65 | Deleting rows keeps the (user, dish) key unique |
| Favorites.FavoriteStore.constructor | backend/src/favorites/favorites.service.ts:13-42 | The table starts empty |
| Favorites.FavoriteStore.AddFavorite | backend/src/favorites/favorites.service.ts:13-42 | It refuses a missing or unapproved dish, then an existing pair. Otherwise it appends exactly the new row, after which the dish is a favourite |
| Favorites.FavoriteStore.RemoveFavorite | backend/src/favorites/favorites.service.ts:45-65 | It removes the pair's rows, is NOT_FOUND exactly when there were none, and afterwards the dish is no favourite |
| Favorites.RegionName | backend/src/favorites/favorites.service.ts:127-133 | The name is the joined region's non-empty Vietnamese name, otherwise 'Không rõ'. It is never empty |
| Favorites.FavoritedDishIds | backend/src/favorites/favorites.service.ts:109-125 | It holds exactly the ids of existing dishes the user has favourited |
| Favorites.FavoritedDishIdsDistinct | backend/src/favorites/favorites.service.ts:109-125 | With the key unique, each favourited dish appears once |
| Favorites.RegionNames | backend/src/favorites/favorites.service.ts:127-133 | It gives one region name per dish, in order |
| Favorites.BumpCounts | backend/src/favorites/favorites.service.ts:129-131 | One reduce step adds one to its name's count and to no other |
| Favorites.Tally | backend/src/favorites/favorites.service.ts:127-133 | The reduce over the names, left to right. TallyMeaning states what it counts |
| Favorites.TallyMeaning | backend/src/favorites/favorites.service.ts:127-133 | The tally has one entry per occurring name with its number of occurrences. The counts add up to the number of names |
| Favorites.RegionPopularity | backend/src/favorites/favorites.service.ts:127-138 | The tally of the favourited dishes' region names, sorted by count. RegionPopularityShape and RegionPopularityCounts state its meaning |
| Favorites.RegionPopularityShape | backend/src/favorites/favorites.service.ts:127-138 | region_popularity lists each name once, largest count first. Its counts add up to the number of favourited dishes |
| Favorites.RegionPopularityCounts | backend/src/favorites/favorites.service.ts:127-138 | Each entry counts the favourited dishes of its region name, and every favourited dish is counted under its own name |
| Favorites.FavoriteStore.GetFavoriteStatistics | backend/src/favorites/favorites.service.ts:94-146 | It returns the user's total, the spicy favourites and the region popularity, and writes nothing |
| ViewHistory.MapView | backend/src/view_history/view_history.service.ts:141-219 | The response copies the row's fields and the joined dish's fields. MapViewFaithful states what it keeps |
| ViewHistory.MapViewFaithful | backend/src/view_history/view_history.service.ts:141-219 | The response names its row and the dish joined to it |
| ViewHistory.RecentRows | backend/src/view_history/view_history.service.ts:85-97 | At most `limit` of the user's rows, latest first. None left out is later than one kept |
| ViewHistory.MapRows | backend/src/view_history/view_history.service.ts:100-107 | One response per row, in order |
| ViewHistory.ViewLog.constructor | backend/src/view_history/view_history.service.ts:23-63 | The log starts empty |
| ViewHistory.ViewLog.SaveViewHistory | backend/src/view_history/view_history.service.ts:23-63 | It succeeds exactly for an approved dish. It then appends the row and adds one to the dish's view count. The response shows the dish as read before the increment |
| ViewHistory.ViewLog.GetRecentViewHistory | backend/src/view_history/view_history.service.ts:69-108 | An unknown user is USER_NOT_FOUND. The default limit is 10. The items are the user's latest rows |
| ViewHistory.ViewLog.DeleteAllViewHistory | backend/src/view_history/view_history.service.ts:113-136 | An unknown user is refused. Otherwise the user's rows, and only theirs, are removed and counted |
| ViewHistory.CountSplit | backend/src/view_history/view_history.service.ts:113-136 | The deleted count plus the kept rows make the whole table |
| Templates.TasteEntry | backend/src/template/template.service.ts:31-44 | A level is shown as caption + n + "/5" exactly when it is not 0 |
| Templates.Present | backend/src/template/template.service.ts:31-44 | filter(Boolean) keeps exactly the present entries |
| Templates.TasteDescription | backend/src/template/template.service.ts:31-44 | The non-zero levels' entries joined by '、'. TasteDescriptionEmpty and TasteDescriptionParts state its meaning |
| Templates.TasteDescriptionEmpty | backend/src/template/template.service.ts:31-44 | The description is empty exactly when every level is 0 or absent |
| Templates.TasteDescriptionParts | backend/src/template/template.service.ts:31-44 | Split on its separator, the description gives back the entries of the non-zero levels |
| Templates.AllLevelsInOrder | backend/src/template/template.service.ts:31-44 | With every level set, the entries come in the order spiciness, saltiness, sweetness, sourness |
| Templates.CleanOutput | backend/src/template/template.service.ts:86-89 | The cleaned reply is trimmed and no longer than the raw one |
| Templates.CleanFencedReply | backend/src/template/template.service.ts:86-89 | A reply fenced as a JSON code block cleans to the block's content |
| Templates.CleanPlainReply | backend/src/template/template.service.ts:86-89 | A reply without fences is only trimmed |
| Templates.GeneratedTexts | backend/src/template/template.service.ts:91-108 | The parsed texts are used when both are truthy. Otherwise the cleaned reply is used for both languages |
| Templates.TasteField | backend/src/template/template.service.ts:128 | The taste field is null exactly when every level is 0 or absent, and otherwise holds the description |
| Templates.Introduce | backend/src/template/template.service.ts:110-134 | The response has the dish's names. Its category and region are present when they resolve. Empty texts become null, and the texts are those of the cleaned reply |
| Templates.GenerateIntroduction | backend/src/template/template.service.ts:21-134 | It refuses a missing dish, then a missing API key, then a failed call. An answered call always succeeds |
| Templates.SaveRefusal | backend/src/template/template.service.ts:151-155 | The checks in order: missing fields, then values of the wrong type, then an unknown dish. SaveAcceptsOnlyComplete states what passing means |
| Templates.SaveAcceptsOnlyComplete | backend/src/template/template.service.ts:151-155 | A save that passes names an existing dish and two non-empty texts |
| Templates.NewestFirst | backend/src/template/template.service.ts:172-180 | It holds the user's templates and only theirs, newest first |
| Templates.FindTemplate | backend/src/template/template.service.ts:183-203 | It finds a template with the id exactly when one exists |
| Templates.TemplateStore.constructor | backend/src/template/template.service.ts:142-169 | The table starts empty |
| Templates.TemplateStore.SaveTemplate | backend/src/template/template.service.ts:142-169 | It fails exactly when the checks refuse. Otherwise it appends a row with the next id, with absent optional fields as null, and returns it with its dish |
| Templates.TemplateStore.GetSavedTemplates | backend/src/template/template.service.ts:172-180 | The user's templates, newest first, each with its dish |
| Templates.TemplateStore.DeleteTemplate | backend/src/template/template.service.ts:183-203 | It refuses a missing template, then someone else's. Otherwise it removes exactly that one row |
| Templates.DeletedLeavesList | backend/src/template/template.service.ts:183-203 | A deleted template is gone from its owner's list, which is one shorter |
| Profile.MapProfileToDto | backend/src/profile/profile.service.ts:62-105 | The profile shows the row's public fields and one dish per favourite, in row order, with its category and region when they resolve |
| Profile.GetProfile | backend/src/profile/profile.service.ts:12-33 | An unknown user is not found. Otherwise the profile counts the user's favourites |
| Profile.BirthdayValue | backend/src/profile/profile.service.ts:41-44 | '' stores null. null stores the epoch. Other text stores its parsed date, and an invalid date is refused |
| Profile.Edited | backend/src/profile/profile.service.ts:39-46 | The edit writes only location, birthday, email and avatar. An absent email keeps the stored one |
| Profile.EditOutcome | backend/src/profile/profile.service.ts:35-60 | A success names an existing user and keeps the row's id. An email given in a successful edit is held by no other user. EMAIL_TAKEN happens only when an email is given |
| Profile.EditTouchesOnlyProfileFields | backend/src/profile/profile.service.ts:35-60 | An edit writes only location, birthday, email and avatar, each one only when given |
| Profile.EditIdempotent | backend/src/profile/profile.service.ts:35-60 | Repeating an edit changes nothing more |
| Profile.EditProfile | backend/src/profile/profile.service.ts:35-60 | It fails exactly as EditOutcome says: an invalid date, an unknown user, an email another user holds. Otherwise it stores the edited row and returns its profile |
| OwnerGuard.LeadingDigits | backend/src/auth/guards/profile-owner.guard.ts:13 | It is the longest prefix of digits of the base |
| OwnerGuard.ParseInt | backend/src/auth/guards/profile-owner.guard.ts:13 | parseInt: skip white space, take a sign, then a `0x` prefix or none, then the longest run of digits. The lemmas below state its cases |
| OwnerGuard.ParseIntOfNumber | backend/src/auth/guards/profile-owner.guard.ts:13 | parseInt gives back any integer that String wrote out |
| OwnerGuard.CanActivate | backend/src/auth/guards/profile-owner.guard.ts:9-23 | It allows exactly a signed-in non-zero user whose id the parsed body id equals |
| OwnerGuard.NumericIdOwnerOnly | backend/src/auth/guards/profile-owner.guard.ts:9-23 | With a numeric body id, only that non-zero user passes |
| OwnerGuard.ParseIntOfDecimalPrefix | backend/src/auth/guards/profile-owner.guard.ts:13 | parseInt reads a leading decimal numeral and ignores the text after it |
| OwnerGuard.ParseIntSkipsSpace | backend/src/auth/guards/profile-owner.guard.ts:13 | parseInt skips leading white space |
| OwnerGuard.ParseIntOfHex | backend/src/auth/guards/profile-owner.guard.ts:13 | After white space, a `0x` or `0X` prefix makes parseInt read base 16 |
| OwnerGuard.TrailingTextIgnored | backend/src/auth/guards/profile-owner.guard.ts:9-23 | A body id made of the user's decimal id and trailing text (such as "12abc" for user 12) passes |
| OwnerGuard.HexadecimalAccepted | backend/src/auth/guards/profile-owner.guard.ts:9-23 | A body id holding the user's id in hexadecimal after white space (such as " 0xC" for user 12) passes |
| OwnerGuard.LeadingTextDenied | backend/src/auth/guards/profile-owner.guard.ts:13-17 | A body id starting with a character that is no space, sign or digit (such as "abc12") is NaN and denied |
| Upload.Configure | backend/src/upload/upload.service.ts:11-33 | Configuration succeeds exactly when all five settings are present and non-empty |
| Upload.Extension | backend/src/upload/upload.service.ts:53-56 | The extension has no dot, and a name without a dot is its own extension |
| Upload.ExtensionAfterLastDot | backend/src/upload/upload.service.ts:53-56 | The extension is exactly what follows the last dot |
| Upload.Key | backend/src/upload/upload.service.ts:53-56 | The key is the prefix, the time, '_', the random text, '.' and the extension. KeyKeepsExtension states what it keeps |
| Upload.KeyKeepsExtension | backend/src/upload/upload.service.ts:53-56 | The key starts with the prefix and keeps the uploaded name's extension |
| Upload.Url | backend/src/upload/upload.service.ts:70-71 | The object's URL is the endpoint, the bucket and the key joined by '/' |
| Upload.UploadDishImage | backend/src/upload/upload.service.ts:35-76 | It refuses these, in order: no file, a disallowed type, more than 5 MiB, a failed put. On success it returns the new object's URL |
| Upload.SizeBoundary | backend/src/upload/upload.service.ts:47-50 | Exactly 5 MiB passes, and one byte more is too large |
| Upload.ExtractKeyAsWritten | backend/src/upload/upload.service.ts:81-82 | As written, the key is the URL's '/'-separated pieces from the fourth on |
| Upload.ExtractKeyIncludesBucket | backend/src/upload/upload.service.ts:81-82 | As written, the key deleteFile derives from an uploaded URL starts with the bucket name |
| Upload.ExtractKeyExample | backend/src/upload/upload.service.ts:81-82 | As written, an object of bucket media is deleted under "media/" + its key |
| Upload.ExtractKey | backend/src/upload/upload.service.ts:78-94 | Corrected: a key found in a URL is the key whose URL that is |
| Upload.ExtractKeyRoundTrip | backend/src/upload/upload.service.ts:78-94 | Corrected: deleting by URL targets the object the upload created |
| SearchFilters.FirstMatch | frontend/src/components/search/SearchFilters.jsx:29-62 | It finds the first option whose id has the same text, and none when no option does |
| SearchFilters.KeyOfMatch | frontend/src/components/search/SearchFilters.jsx:29-62 | It gives the matching option's code when that code is non-empty |
| SearchFilters.NumericText | frontend/src/components/search/SearchFilters.jsx:34 | `Number` yields a number exactly for blank text or a numeric literal between white space |
| SearchFilters.NormalizeValue | frontend/src/components/search/SearchFilters.jsx:134-163 | Empty values and 'all' are dropped. Text that is not a number is kept. A number becomes its option's code |
| SearchFilters.NormalizeValues | frontend/src/components/search/SearchFilters.jsx:134-163 | The result is no longer than the input and has no empty values |
| SearchFilters.NormalizeList | frontend/src/components/search/SearchFilters.jsx:29-62 | A value that is not an array becomes the empty list |
| SearchFilters.NormalizeValueStable | frontend/src/components/search/SearchFilters.jsx:134-163 | A normalised value normalises to itself |
| SearchFilters.NormalizeIdempotent | frontend/src/components/search/SearchFilters.jsx:27-163 | Normalising twice changes nothing, so the conversion on arrival and the one on submit agree |
| SearchFilters.CodesPassThrough | frontend/src/components/search/SearchFilters.jsx:134-163 | A list of non-numeric codes passes unchanged |
| SearchFilters.TasteStrings | frontend/src/components/search/SearchFilters.jsx:127-128 | It keeps the given non-empty taste strings other than 'spicy' |
| SearchFilters.SubmittedTaste | frontend/src/components/search/SearchFilters.jsx:127-167 | 'spicy' is submitted exactly once when the slider is at 3 or more, never otherwise. Every other taste was given |
| SearchFilters.Submit | frontend/src/components/search/SearchFilters.jsx:126-172 | It submits the search and sort, page 1, a limit that defaults to 20, the normalised lists and the rebuilt tastes |
| SearchFilters.FilterPanel.constructor | frontend/src/components/search/SearchFilters.jsx:8-25 | The first render holds the given filters, the fallback options and the slider at 0 |
| SearchFilters.Converted | frontend/src/components/search/SearchFilters.jsx:27-77 | Conversion rewrites only the region, category and taste lists. All three are then present, and a given taste list is kept |
| SearchFilters.FilterPanel.Receive | frontend/src/components/search/SearchFilters.jsx:27-77 | New filters are held in converted form. The slider resets to 0 unless 'spicy' is among the tastes |
| SearchFilters.FilterPanel.OptionsLoaded | frontend/src/components/search/SearchFilters.jsx:80-119 | Lists that arrive replace the options, and a non-list keeps them. When a list arrived, the filters are converted again and the slider resets unless 'spicy' is a taste. When none arrived, the filters and the slider stay |
| SearchFilters.FilterPanel.ChangeSearch | frontend/src/components/search/SearchFilters.jsx:121-124 | Only the search text changes |
| SearchFilters.FilterPanel.SelectCategory | frontend/src/components/search/SearchFilters.jsx:180-189 | 'all' clears the categories, and any other value makes them that one value. The page goes back to 1 |
| SearchFilters.FilterPanel.SelectRegion | frontend/src/components/search/SearchFilters.jsx:191-200 | 'all' clears the regions, and any other value makes them that one value. The page goes back to 1 |
| SearchFilters.FilterPanel.ChangeSpice | frontend/src/components/search/SearchFilters.jsx:202-207 | Only the slider changes |
| SearchFilters.FilterPanel.SearchSubmit | frontend/src/components/search/SearchFilters.jsx:126-172 | It hands over Submit's filters: page 1, with 'spicy' exactly when the slider is at 3 or more |
| SearchFilters.SelectAllSubmitsNoRegion | frontend/src/components/search/SearchFilters.jsx:191-200 | Selecting 'all' submits no region |
| SearchFilters.SelectedCodeSubmitted | frontend/src/components/search/SearchFilters.jsx:134-147 | A selected region code is submitted as itself |
| SearchPage.ListParams | frontend/src/pages/Search.jsx:43-66 | Each pair carries the list's name and a kept value of the list |
| SearchPage.ListParamsNamed | frontend/src/pages/Search.jsx:43-66 | A list's pairs carry no other name |
| SearchPage.QueryOf | frontend/src/pages/Search.jsx:36-66 | The query is the head, then the category, region and taste pairs. QueryHead and the lemmas below state its parts |
| SearchPage.QueryCountIsHeadCount | frontend/src/pages/Search.jsx:36-66 | search, sort, page and limit come only from the head of the query |
| SearchPage.HeadCount | frontend/src/pages/Search.jsx:36-41 | The head's count of a name is the sum over its parts |
| SearchPage.QueryHead | frontend/src/pages/Search.jsx:36-41 | page and limit are sent exactly once, as 1 and 20 when absent. search and sort are sent once when non-empty |
| SearchPage.PairsOf | frontend/src/pages/Search.jsx:43-66 | One pair per value, in order, each with the list's name and the value's text |
| SearchPage.ListParamsAsFilter | frontend/src/pages/Search.jsx:43-66 | A list's pairs are exactly the values its rule keeps that are text, one pair each, in list order |
| SearchPage.CategoryParamsInOrder | frontend/src/pages/Search.jsx:43-50 | Listed categories become one pair each, in order |
| SearchPage.InitialQuery | frontend/src/pages/Search.jsx:8-16 | The initial filters send only the sort and the first page of 20 |
| SearchPage.SearchView.constructor | frontend/src/pages/Search.jsx:20-28 | The first render: initial filters, no search, no dishes, no error, page 1 of 1 |
| SearchPage.SearchView.BuildQuery | frontend/src/pages/Search.jsx:36-66 | The query appended pair after pair is QueryOf's |
| SearchPage.SearchView.AppendList | frontend/src/pages/Search.jsx:43-66 | It appends one pair per kept value, in order |
| SearchPage.SearchView.Refresh | frontend/src/pages/Search.jsx:31-103 | Before a search nothing is sent. After one, the query goes out and the page's data or the failure's message is taken in |
| SearchPage.SearchView.FilterChange | frontend/src/pages/Search.jsx:105-111 | A search starts on the first page of the new filters |
| SearchPage.SearchView.SortChange | frontend/src/pages/Search.jsx:113-120 | A search starts with the new sort on page 1 |
| SearchPage.SearchView.PageChange | frontend/src/pages/Search.jsx:122-129 | It is ignored before a search. Afterwards only the page changes |
| SearchPage.SearchView.Reset | frontend/src/pages/Search.jsx:131-138 | Back to the first render |
| AiGenerator.KeywordIn | frontend/src/pages/ai-generator/AIIntroGenerator.jsx:44-60 | It holds exactly when the text contains a lower-cased keyword |
| AiGenerator.FindTone | frontend/src/pages/ai-generator/AIIntroGenerator.jsx:44-60 | It finds the first configured tone with a matching keyword, and none exactly when no tone matches |
| AiGenerator.DeriveTone | frontend/src/pages/ai-generator/AIIntroGenerator.jsx:22-60 | The tone of a context is the first of formal, casual, homestay and presentation whose keyword the lower-cased text contains |
| AiGenerator.FormalWins | frontend/src/pages/ai-generator/AIIntroGenerator.jsx:22-60 | A context containing "formal" is formal |
| AiGenerator.NewEntry | frontend/src/pages/ai-generator/AIIntroGenerator.jsx:101-107 | The entry carries its id, time and context, and the reply's own fields win |
| AiGenerator.PrependCapped | frontend/src/pages/ai-generator/AIIntroGenerator.jsx:109 | The newest entry comes first, followed by at most five earlier ones |
| AiGenerator.EntryItems | frontend/src/pages/ai-generator/AIIntroGenerator.jsx:128-137 | An entry gives at most two items, each with a non-blank text |
| AiGenerator.Flatten | frontend/src/pages/ai-generator/AIIntroGenerator.jsx:128-137 | Every item comes from an entry and has a non-blank text. There are at most two per entry |
| AiGenerator.FlattenAppend | frontend/src/pages/ai-generator/AIIntroGenerator.jsx:128-137 | Flattening distributes over concatenation |
| AiGenerator.ReplyLacksReadKeys | frontend/src/pages/ai-generator/AIIntroGenerator.jsx:132-133 | As written, the reply has no generated_text_ja or generated_text_vi key |
| AiGenerator.FlattenAsWrittenShowsNothing | frontend/src/pages/ai-generator/AIIntroGenerator.jsx:128-137 | As written, entries without the snake-case keys show nothing |
| AiGenerator.FreshReplyHidden | frontend/src/pages/ai-generator/AIIntroGenerator.jsx:101-137 | As written, after any successful generation the list shows nothing |
| AiGenerator.ReplyCarriesTexts | backend/src/template/template.service.ts:110-134 | The reply carries its texts under generatedTextJa and generatedTextVi |
| AiGenerator.TextShownFirst | frontend/src/pages/ai-generator/AIIntroGenerator.jsx:128-137 | An entry with a non-blank Japanese text shows it first |
| AiGenerator.NewestShownFirst | frontend/src/pages/ai-generator/AIIntroGenerator.jsx:101-137 | Corrected: after a successful generation the newest Japanese text is shown first |
| AiGenerator.Refusal | frontend/src/pages/ai-generator/AIIntroGenerator.jsx:63-76 | It refuses, in order: no dish, a blank context, no token. Otherwise it passes |
| AiGenerator.Generator.constructor | frontend/src/pages/ai-generator/AIIntroGenerator.jsx:13 | It starts with an empty context, no results, not generating, and no error |
| AiGenerator.Generator.EditContext | frontend/src/pages/ai-generator/AIIntroGenerator.jsx:154 | Only the context changes |
| AiGenerator.Generator.Generate | frontend/src/pages/ai-generator/AIIntroGenerator.jsx:62-115 | A refusal sets its error and sends nothing. Otherwise it sends the dish and the trimmed context, and ends not generating. A failure sets the error. A reply clears the error and becomes the newest of at most six results |
| MySubmissions.CurrentUserId | frontend/src/pages/MySubmissions/MySubmissions.jsx:36 | The user id is `id` when that is truthy and `sub` otherwise, so it is truthy exactly when one of the two is |
| MySubmissions.StatsOf | frontend/src/pages/MySubmissions/MySubmissions.jsx:60-68 | The total is the number of submissions, and the three counts never exceed it |
| MySubmissions.StatsBounded | frontend/src/pages/MySubmissions/MySubmissions.jsx:60-68 | Approved, pending and rejected add up to at most the total |
| MySubmissions.StatsSumIffKnown | frontend/src/pages/MySubmissions/MySubmissions.jsx:60-68 | They add up to the total exactly when every status is one of the three |
| MySubmissions.Load | frontend/src/pages/MySubmissions/MySubmissions.jsx:37-68 | A non-array answer gives nothing. Otherwise it keeps exactly the submissions whose submitter strictly equals the user's id, with their counts |
| MySubmissions.LoadIdempotent | frontend/src/pages/MySubmissions/MySubmissions.jsx:55-57 | Filtering the kept list again changes nothing |
| MySubmissions.StatusLabel | frontend/src/pages/MySubmissions/MySubmissions.jsx:116-131 | A known status gets its Japanese or Vietnamese caption. An unknown status is shown as it is |
| MySubmissions.KnownLabelsDistinct | frontend/src/pages/MySubmissions/MySubmissions.jsx:116-131 | The three captions of a language differ |
| MySubmissions.StatusClass | frontend/src/pages/MySubmissions/MySubmissions.jsx:133-135 | The class is the badge class followed by the status, with pending for an empty status |
| MySubmissions.StatusClassDistinguishes | frontend/src/pages/MySubmissions/MySubmissions.jsx:133-135 | Different non-empty statuses get different classes |

## Left out

- The database is in-memory maps and sequences. Prisma's errors are not modelled beyond those
  named: a unique-key violation (P2002 on a favourite) and a dangling foreign key or wrong-typed
  value (templates).
- Foreign keys between tables appear as `requires` (rows refer to existing dishes). The database
  enforces them, not the services.
- The order of rows that tie on a sort key is the order proven by `Ordering.SortDesc`. The
  database's tie order is not modelled.
- A negative page or limit is not modelled: page and limit are natural numbers, 0 standing for an
  absent value.
- The controllers' `parseInt` and `Number(id)` of path parameters are not modelled: services take
  their ids as numbers.
- Validation of request bodies by the whitelist pipe, and the rejection of non-string values,
  are not modelled. Only the DTO rules are predicates.
- bcrypt is a deterministic function `hash`, with its salt and timing left out.
- Mail delivery, the object store's network calls, and the language model's HTTP call are left
  out. Their outcomes are parameters: `mailSent`, `stored`, and `Completion`. The prompt text and
  the mail's template are not modelled.
- Accounts.UserStore.ForgotPassword: a failed database write, which also answers send_error, is
  not modelled. Only a failed mail is.
- The JWT signature and expiry are not modelled. Tokens are their payloads.
- Random reset tokens, object-key text and entry ids are parameters.
- A null `token_version` column is not modelled. The column is an integer.
- Calendar days are a `dayOf` parameter, so daylight-saving time and time zones are left out.
- `Number()`'s grammar is modelled for decimal, hexadecimal, octal, binary and Infinity
  literals. Exotic white space and the underscores it refuses are left out.
- Lower-casing is ASCII only, and strings are sequences of characters rather than UTF-16 units.
- `String(n)` of a number in exponent form is not modelled: numbers are integers.
- `Object.keys` order is the insertion order of the reduce, which `Favorites.Tally` keeps
  explicitly.
- Favorites.FavoriteStore.GetFavoriteStatistics: the Vietnamese region name of the statistics is
  modelled. getFavorites is not part of this model.
- Dishes.ToResponse: the submitter's username is represented by the submitter's id; the join
  with users is left out.
- Profile.EditProfile: a JSON null email is not modelled, the email being absent or text.
- Dishes.UpdateOutcome: an explicit JSON null in an update body is not modelled. `@IsOptional`
  lets it through and `...otherFields` writes it, so `{"image_url": null}` clears the column. In
  the model a field is absent (`None`, the column is kept) or has a value.
- Dishes.UpdateSelection: the `updated_at` column is not part of the model, so it is not in the
  answer.
- OwnerGuard.CanActivate: JSON values are text, numbers, booleans, null and undefined. Arrays and objects
  are not modelled, so a body id `[12]`, which `String` turns into "12" and which passes for
  user 12, cannot be expressed.
- Upload.Configure: the constructor's throw is a Result of the settings, not a failing
  constructor.
- Upload.ExtractKey: deleteFile's send to the store, and its swallowing of errors, are left out;
  only the key it derives is modelled.
- AiGenerator.NewEntry: the category and region objects of an introduction are omitted from
  `IntroductionJson`, because the flattened list never reads them.
- AiGenerator.Generator.Generate: the loading flag during the await and the translated captions
  are left out. A body's texts that are not strings, where `trim` would throw, are not modelled.
- The scroll position, loading flags and i18n captions of the React pages are left out.
- MySubmissions.StatusLabel: keys of the object prototype looked up in the status map are not
  modelled. getDishName, getCategoryName and formatDate are not part of this model.
- Accounts.UserStore.Logout: the retry after a concurrent change of the version cannot happen
  in a sequential model. That branch is unreachable here.

## Findings

| source | as written | input that shows it | evidently intended | confidence | as-written member | corrected member |
|---|---|---|---|---|---|---|
| backend/src/dish/dish.service.ts:60-64 | `image_url: imageUrl \|\| null` after spreading the body, and the controller (backend/src/dish/dish.controller.ts:22-24) never passes `imageUrl`, so the stored URL is always null | a create request whose body has `image_url: "https://…/a.jpg"`, as frontend/src/pages/RegisterDish/RegisterDish.jsx:122-135 sends | keep the body's URL when no other is passed | likely; not executed | Dishes.BodyImageUrlIsDropped | Dishes.StoredImageUrl |
| backend/src/upload/upload.service.ts:81-82 | the key is the URL's pieces from the fourth on, which for an endpoint `scheme://host` start with the bucket name | an upload to bucket `media` at `https://s3.example.com` with key `dishes/1.jpg`: deleteFile sends key `media/dishes/1.jpg` | the key the upload used | likely; not executed | Upload.ExtractKeyIncludesBucket | Upload.ExtractKeyRoundTrip |
| frontend/src/pages/ai-generator/AIIntroGenerator.jsx:132-133 | the list reads `generated_text_ja` and `generated_text_vi`, but the reply (backend/src/template/template.service.ts:132-133) carries `generatedTextJa` and `generatedTextVi` | any successful generation: the results list shows no text | read the camel-case keys the service returns | likely; not executed | AiGenerator.FreshReplyHidden | AiGenerator.NewestShownFirst |
