# FLUNKER social views, modelled in Dafny

This project models the decision logic of the FLUNKER Django social network's
views (`socials/base/views.py`). The ORM is replaced by an in-memory store
holding the like table, the posts with their `no_of_likes` counters, the
follow table and the accounts. The model covers:

- **Likes** (`like_post`). A request toggles the `(post_id, username)` like row
  and moves the post's counter by one. The counter stays equal to the number
  of rows for that post.
- **Follows** (`follow`). A POST toggles the directed edge from `follower` to
  `user`. Any other request changes nothing.
- **Profile page** (`ShowProfilePageView.get_context_data`). It shows the page
  owner's posts and their number, the follower and following counts, and the
  button label. The label is "UnFollow" as soon as anyone follows the page,
  whoever is viewing it. The model keeps this as written.
- **Home feed** (`home`). It counts the posts and offers every profile except
  the viewer's own as a suggestion.
- **Signup** (`signup`). An ordered chain of checks: empty field (the email is
  stripped first), existing username, existing email. The account is created
  only when all three pass.
- **Search** (`search`). A non-POST request gives an empty list. A POST keeps
  the profiles whose username contains the query, ignoring case.

Modules: `Models` (records), `Text` (Python `strip()` and the `icontains`
substring test), `Seqs` (order-preserving filter), `Likes`, `Follows`,
`Feed` (home and profile page), `ProfileSearch`, `Accounts` (signup decision)
and `Store`. `Store` is a class over the four tables. Its methods `LikePost`,
`Follow` and `Signup` tie the new state to the pure functions `ToggleLike`,
`ToggleFollow` and `SignupDecision`. The properties are proved as lemmas
about those functions.

Two behaviours of the code worth knowing:

- A POST search with an empty query lists every profile, because `icontains`
  with `''` matches every username (`ProfileSearch.SearchEmptyQuery`).
- The follow button's label is global: it tests for any edge into the page,
  not for one from the viewer (`Feed.ButtonTextIgnoresViewer`).

Assumptions the source does not settle (the models file is not part of this model):

- Follow-table endpoints are strings.
- The profile page matches follow edges by the page profile's username.
- The profile page matches posts by comparing the author key with the page
  profile's key. `new_post` stores a User as the author
  (`socials/base/views.py:118`), while the profile page filters posts by a
  Profile (`socials/base/views.py:48`). So the model compares a user's key
  with a profile's key. Current Django would raise a `ValueError` for a
  filter on a related field given an instance of another model. The model
  does not capture that error.

## Model

| member | source | states |
|---|---|---|
| Likes.ToggleLike | socials/base/views.py:169-176 | the set of posts is unchanged; the `(post_id, username)` row is present afterwards exactly when it was absent; no other row changes; the counter rises by one when the row is now present and falls by one when it is gone |
| Likes.ToggleLikeEffect | socials/base/views.py:169-177 | an absent like row is added and the counter rises by one; a present row is removed and the counter falls by one; the post's author is untouched |
| Likes.LikesOfToggle | socials/base/views.py:172-175 | adding or removing one like row changes its own post's row count by exactly one and leaves every other post's rows as they are |
| Likes.ToggleLikeKeepsCounter | socials/base/views.py:168-177 | if the post's counter equalled its row count before the toggle it still does after; other posts' rows and records and the set of posts are unchanged |
| Likes.ToggleLikeConsistent | socials/base/views.py:168-177 | the counter invariant over all posts is preserved by a toggle |
| Likes.ToggleLikeTwice | socials/base/views.py:171-176 | toggling the same like twice restores both the rows and the counter |
| Likes.LikeThenUnlike | socials/base/views.py:171-176 | from an empty table a like gives one row and counter 1, and an unlike returns to the empty table with counter 0 |
| Store.Store.LikePost | socials/base/views.py:165-178 | the new rows and posts are the toggle of the old ones; the post's counter consistency and the store invariant are preserved; follows and accounts are not modified |
| Follows.ToggleFollow | socials/base/views.py:216-220 | the toggled edge is present afterwards exactly when it was absent; every other edge keeps its presence |
| Follows.ToggleFollowTwice | socials/base/views.py:216-220 | following and unfollowing in a row restores the edge set |
| Follows.FollowersAfterToggle | socials/base/views.py:216-220 | a toggle moves `user`'s follower count by one (up on follow, down on unfollow) and no other profile's follower count |
| Follows.FollowingAfterToggle | socials/base/views.py:216-220 | a toggle moves `follower`'s following count by one (up on follow, down on unfollow) and no other profile's following count |
| Follows.FollowUnfollowKeepsCounts | socials/base/views.py:216-220 | the two-toggle scenario, a corollary of `ToggleFollowTwice`: every follower and following count is unchanged |
| Store.Store.Follow | socials/base/views.py:211-222 | a POST replaces the follow table by its toggle; any other request leaves it unchanged; nothing else is modified |
| Feed.ProfilePage | socials/base/views.py:47-58 | the label is "UnFollow" exactly when the follower count is positive, otherwise "Follow"; the posts are exactly the page owner's; the counts are the numbers of edges into and out of the page |
| Feed.ButtonTextIgnoresViewer | socials/base/views.py:50 | the label is "UnFollow" exactly when some edge points at the page, and an edge from any follower at all makes it so |
| Feed.Home | socials/base/views.py:24-26 | `count_posts` is the number of posts; the suggestions are known profiles other than the viewer's, and every other profile is among them |
| Feed.ShuffledSuggestions | socials/base/views.py:26-27 | any permutation of the suggestions never contains the viewer and contains every other profile exactly once, given distinct profile keys |
| Feed.DistinctOccursOnce | socials/base/views.py:23 | in the profile list, with distinct keys, each profile occurs exactly once |
| Accounts.SignupDecision | socials/base/views.py:80-97 | a logged-in session always ends in the redirect; a created account carries the posted username and the stripped email, neither of which an existing account has, and is new |
| Accounts.SignupChecksInOrder | socials/base/views.py:87-92 | on a visitor's POST an empty field (email after strip) wins over a taken username, which wins over a taken email |
| Accounts.SignupCreatesOnlyWhenAllPass | socials/base/views.py:80-97 | an account is created exactly when the visitor's POST passes all three checks; it carries the posted username and stripped email, is new, and grows the accounts by one; every other outcome leaves them unchanged |
| Accounts.SignupKeepsAccountsUnique | socials/base/views.py:89-94 | signup preserves unique usernames and emails and never stores a blank or space-padded email |
| Store.Store.Signup | socials/base/views.py:79-98 | the outcome is the decision chain's and the account table grows by the created account only; the store invariant is preserved |
| Text.Strip | socials/base/views.py:83 | the stripped email is the posted one with only leading and trailing whitespace removed: it occurs at some index with nothing but whitespace before and after it; it is empty exactly when the posted one is all whitespace, and otherwise starts and ends with a non-space |
| Text.StripIdempotent | socials/base/views.py:83 | stripping a stripped string changes nothing |
| Text.TrimStart | socials/base/views.py:83 | the result is a suffix of the input, everything dropped is whitespace, and it does not start with whitespace |
| Text.TrimEnd | socials/base/views.py:83 | the result is a prefix of the input, everything dropped is whitespace, and it does not end with whitespace |
| Text.IContains | socials/base/views.py:195 | the case-insensitive test holds exactly when the lower-cased query occurs at some index of the lower-cased username |
| Text.ContainsIff | socials/base/views.py:195 | the substring test holds exactly when the query occurs at some index of the username |
| ProfileSearch.Search | socials/base/views.py:191-196 | a non-POST gives the empty list; a POST gives profiles from the store whose username contains the query case-insensitively, and every such profile |
| ProfileSearch.SearchCount | socials/base/views.py:195-196 | each matching profile is listed as often as it is stored and no other profile is listed |
| ProfileSearch.SearchEmptyQuery | socials/base/views.py:194-196 | a POST with an empty query lists every profile, in store order |
| ProfileSearch.SearchIgnoresQueryCase | socials/base/views.py:195 | lower-casing the query does not change the result |
| Seqs.Filter | socials/base/views.py:26 | the filtered list is no longer than the input, holds only kept elements of the input, and holds every kept element |
| Seqs.FilterCount | socials/base/views.py:26 | filtering keeps each kept element with its multiplicity and drops the rest |

## Left out

- Rendering, redirects, the `messages` texts and templates. They are presentation only. The signup outcomes name which message is shown.
- Authentication and sessions: `login`, `logout`, `login_required`, `authenticate`, `auth_login` and `make_password`. These are library calls. The signup view's `is_authenticated` test is a boolean parameter. The password appears only through its emptiness test.
- The generic class-based views (`CreateProfilePageView`, `EditProfilePageView`, `PasswordsChangeView`, `AddCommentView`, `DeletePostView`, `UpdatePostView`, `FriendView`) and `new_post`. They are framework behaviour over forms and models that are not part of this model.
- Feed.ShuffledSuggestions: `random.shuffle` itself is not modelled. The lemma holds for every ordering with the same elements as the filtered list, which is what the shuffle produces.
- Feed.Home: `get_or_create`'s creation of a missing viewer profile is not modelled. The viewer is any profile value. The pass-through lists `all_users`, `all_posts` and `all_profile` are not part of the result.
- Lookup failures of `Post.objects.get`, `get_object_or_404` and `Profile.objects.get`, and a missing form field (a `KeyError`), are not modelled. `LikePost` requires the post to exist, and the other views take the looked-up profile as a value.
- Like and follow rows are sets. A duplicate row, which concurrent requests could create in the database, cannot be expressed. With sets, `.first()` and `.delete()` act on the one matching row.
- Post keys are numbers. The like view's raw `post_id` string and its conversion are not modelled.
- Text.IContains: case folding is ASCII only, as with SQLite's `LIKE`. Databases that fold non-ASCII letters match more usernames.
- The like counter's width: `no_of_likes` is a bounded database integer column, and the model uses an unbounded int, so overflow is not modelled. Overflow cannot happen while the counter equals the post's row count.
- Concurrency and atomicity of the read-then-write toggles. Each request is modelled as one sequential step.
