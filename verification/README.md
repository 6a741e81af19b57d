# AWSChat friend list: a Dafny model

This project models the data layer of the AWSChat iOS client. That is the
logic that runs after each DynamoDB call returns, plus the friend-list cache
it writes to:

- **`retrieveFriendIds`** scans the Friend table for the signed-in user's
  rows. It turns the returned page into the list of non-nil `friend_id`
  values, in scan order.
- **`refreshFriendList`** resolves those ids and clears the cache. It then
  scans the User table and appends every user whose id is in the list.
- **`retrieveUser`** loads one user by key. It classifies the load result as
  an error, a user, or a made-up code-200 "Unknown Error".
- **`ChatManager`** is the cache. It holds an optional array of users
  (`friendList`) with `clearFriendList` and `addFriend`. Both mutators use
  optional chaining.

Each DynamoDB call is replaced by the value its task settles with
(`Records.ScanTask`, `Records.LoadTask`). There are three shapes: an error, a
nil result, or a page of objects. Each object is a `Friend`, a `User` or
something else, and its id may be nil. Each continuation becomes the code
after the call, so one refresh is one sequential method.

Calls to a `completion` handler are recorded in order, as the values passed
to them. A Swift runtime trap ends a run. The two traps are an invalid range
`0...(count - 1)` on an empty page and a forced unwrap of nil. The model
represents a trap explicitly: `Exec.Trapped`, or the `trapped` result of a
method.

Modules:

- `Wrappers`: Swift optionals.
- `Selection`: the shared shape of both result loops. It visits the page in
  order and keeps what a guard accepts, as `Collect`. `Positions` is a
  reference description of that shape.
- `Records`: the values exchanged with DynamoDB.
- `Chat`: the `ChatManager` class and the functions that specify its
  mutators.
- `DynamoDBController`:
  - the continuations as methods (`RetrieveFriendIds`, `ScanUsersIntoCache`,
    `RefreshFriendList`);
  - the pure `RetrieveUser`;
  - the functions that specify the methods (`ResolveFriendIds`, `Refresh`);
  - the lemmas;
  - a corrected refresh (`RefreshGuarded`, `RefreshFriendListGuarded`) for
    the findings below.

Some behaviour of the code is easy to misread; the model follows the code:

- The resolved ids are a list that keeps scan order and duplicates, not a
  set.
- A nil Friend result yields a nil list, and the refresh goes on past
  `completion(nil)`.
- An empty page traps; it does not give an empty result.
- A missing record and an object of the wrong class give the same generic
  error. There is no separate not-found outcome.
- A failing User scan leaves the cache cleared and empty. It never leaves a
  partly filled cache, because nothing is appended before the scan result is
  known.

## Model

| member | source | states |
|---|---|---|
| `Selection.Collect` | final/AWSChat/AWSChat/DynamoDBController.swift:105-113 | A guarded loop over a page never yields more values than the page has items |
| `Selection.CollectAppend` | final/AWSChat/AWSChat/DynamoDBController.swift:105-113 | Visiting a page front to back: what a prefix and the rest yield, concatenated in that order |
| `Selection.CollectContains` | final/AWSChat/AWSChat/DynamoDBController.swift:105-113 | A value is gathered if and only if the guard extracts it from some item of the page |
| `Selection.Positions` | final/AWSChat/AWSChat/DynamoDBController.swift:105-113 | Reference description of a guarded loop: the k-th gathered value comes from the k-th accepted position; positions strictly increase; every accepted item is among them |
| `Selection.CollectCongruent` | final/AWSChat/AWSChat/DynamoDBController.swift:57-67 | Two guards that agree on every item of a page gather the same values |
| `Chat.ChatManager.constructor` | final/AWSChat/AWSChat/ChatManager.swift:17-19 | A new manager holds a non-nil, empty friend list |
| `Chat.ChatManager.ClearFriendList` | final/AWSChat/AWSChat/ChatManager.swift:21-23 | The new list is `Cleared(old list)`: empty if it was non-nil, still nil if it was nil |
| `Chat.ChatManager.AddFriend` | final/AWSChat/AWSChat/ChatManager.swift:25-27 | The new list is `Appended(old list, user)`: the user is appended to a non-nil list, and a nil list is left nil |
| `Chat.ClearIsIdempotent` | final/AWSChat/AWSChat/ChatManager.swift:21-23 | Clearing empties a non-nil list and keeps a nil one nil; clearing twice equals clearing once |
| `Chat.AddFriendExtends` | final/AWSChat/AWSChat/ChatManager.swift:25-27 | On a non-nil list, append grows the length by one, keeps the old users as the prefix and puts the user last; a nil list stays nil |
| `Chat.ClearThenAppendAll` | final/AWSChat/AWSChat/DynamoDBController.swift:29-67 | After a clear, appending a batch of users leaves exactly that batch in a non-nil list and nil in a nil one |
| `DynamoDBController.RetrieveFriendIds` | final/AWSChat/AWSChat/DynamoDBController.swift:92-117 | The continuation, with its loop, ends as `ResolveFriendIds` says: error passed on with nil ids; nil result gives nil error and nil ids; empty page traps; otherwise the `friend_id`s the loop gathers |
| `DynamoDBController.ResolveFriendIdsOutcomes` | final/AWSChat/AWSChat/DynamoDBController.swift:94-115 | Case by case: a scan error gives (error, nil); no result gives (nil, nil); an empty page traps; a non-empty page gives (nil, ids) with no more ids than items; an error never comes with ids |
| `DynamoDBController.FriendIdsExactly` | final/AWSChat/AWSChat/DynamoDBController.swift:105-113 | An id is resolved if and only if some scanned item is a `Friend` whose `friend_id` is that id; there are never more ids than items |
| `DynamoDBController.FriendIdsFollowScanOrder` | final/AWSChat/AWSChat/DynamoDBController.swift:105-113 | The resolved ids are the `friend_id`s at strictly increasing item positions, so scan order and duplicates are kept; every `Friend` with a non-nil `friend_id` contributes |
| `DynamoDBController.ScanUsersIntoCache` | final/AWSChat/AWSChat/DynamoDBController.swift:57-67 | The user loop traps exactly on an empty page, or on a nil id list together with a `User` that has an id. Otherwise it appends `FriendUsers(page, ids)` to the cache. A trap, or a nil id list, leaves the cache unchanged |
| `DynamoDBController.FriendUsersExactly` | final/AWSChat/AWSChat/DynamoDBController.swift:57-67 | A user is appended if and only if it is a `User` of the page with a non-nil id that the resolved list contains; never more users than items |
| `DynamoDBController.FriendUsersIgnoreDuplicateIds` | final/AWSChat/AWSChat/DynamoDBController.swift:64 | Only which ids are resolved matters, so duplicate resolved ids do not duplicate users |
| `DynamoDBController.FriendUsersFollowScanOrder` | final/AWSChat/AWSChat/DynamoDBController.swift:57-67 | Appended users come from strictly increasing page positions (scan order); every `User` whose non-nil id is resolved is among them |
| `DynamoDBController.RefreshFriendList` | final/AWSChat/AWSChat/DynamoDBController.swift:18-77 | One refresh yields the completions, trap and cache that `Refresh` gives for the old cache and the two scan results |
| `DynamoDBController.RefreshKeepsCacheOnResolveError` | final/AWSChat/AWSChat/DynamoDBController.swift:20-25 | A failed Friend scan is reported once, and the cache stays exactly as it was |
| `DynamoDBController.RefreshClearsBeforeUserScan` | final/AWSChat/AWSChat/DynamoDBController.swift:27-55 | Once the ids are resolved, a User scan that fails or returns nothing reports its error (or the code-200 error) last, and the cache is left cleared |
| `DynamoDBController.RefreshHydratesFriends` | final/AWSChat/AWSChat/DynamoDBController.swift:57-70 | When both pages are non-empty there is one completion, with nil, and no trap. The cache then holds exactly the scanned users whose non-nil id is the `friend_id` of some scanned `Friend` |
| `DynamoDBController.RefreshNoFriendsFallsThrough` | final/AWSChat/AWSChat/DynamoDBController.swift:31-70 | A nil Friend result calls `completion(nil)` first and the run continues. It traps if the User page holds a `User` with an id, and otherwise calls `completion(nil)` a second time |
| `DynamoDBController.NoFriendsWithIdentifiedUserTraps` | final/AWSChat/AWSChat/DynamoDBController.swift:59-64 | Concrete case: no Friend result, then a one-user page whose user has an id, traps on the forced unwrap |
| `DynamoDBController.RefreshEmptyPageTraps` | final/AWSChat/AWSChat/DynamoDBController.swift:57 | An empty Friend page traps before any completion, with the cache untouched. An empty User page traps after the cache was cleared |
| `DynamoDBController.RefreshCacheStates` | final/AWSChat/AWSChat/DynamoDBController.swift:18-77 | Which cache each input leaves. A trap or error while resolving the ids keeps the old cache. After the ids resolve, a failed or empty-handed User scan, a nil id list or a trapping User loop leave the cleared cache. A resolved list and a User page the loop runs through leave the cleared cache plus that page's users whose id is in the resolved list |
| `DynamoDBController.RefreshExample` | final/AWSChat/AWSChat/DynamoDBController.swift:57-67 | Friend rows naming u2 and u3 plus a User page holding u2, u3 and u4 leave exactly [u2, u3] in the cache, after a single nil completion |
| `DynamoDBController.RefreshIsIdempotent` | final/AWSChat/AWSChat/DynamoDBController.swift:18-77 | Refreshing twice from the same scan results leaves the same cache as refreshing once |
| `DynamoDBController.RetrieveUser` | final/AWSChat/AWSChat/DynamoDBController.swift:128-144 | Exactly one of error and user is set. A load error is passed on. The user is set if and only if the result is a `User` object. Any other load result gives the code-200 "Unknown Error" |
| `DynamoDBController.RetrieveUserConflatesMissingRecord` | final/AWSChat/AWSChat/DynamoDBController.swift:134-141 | A nil load result and an object of another class give the same reply: the code-200 error with no user |
| `DynamoDBController.RefreshFriendListGuarded` | final/AWSChat/AWSChat/DynamoDBController.swift:18-77 | Corrected refresh: exactly one completion and never a trap; its result and cache are those `RefreshGuarded` gives |
| `DynamoDBController.RefreshGuardedAgreesWithRefresh` | final/AWSChat/AWSChat/DynamoDBController.swift:31-34 | If the original run does not trap, the corrected run's one completion is the original's first completion, and both leave the same cache |
| `DynamoDBController.RefreshGuardedEmptyPages` | final/AWSChat/AWSChat/DynamoDBController.swift:105 | In the corrected refresh an empty Friend page means no friends, an empty User page adds no one, and neither traps |
| `DynamoDBController.RefreshGuardedNoFriends` | final/AWSChat/AWSChat/DynamoDBController.swift:31-34 | In the corrected refresh a nil Friend result completes once, without error, and leaves the cache cleared |

## Left out

- The DynamoDB object mapper calls are not modelled as calls. These are
  `scan`, `load`, `AWSTask.continueWith`, and the scan-expression setup at
  DynamoDBController.swift:37-40, 83-88 and 124-126. Their results are
  parameters. The `user_id = :val` filter runs in the service, so the owner
  id is never used by the modelled code and is not a parameter.
- Only the items of the one page the mapper hands back
  (`paginatedOutput.items`) are read. No further pages are fetched.
- Asynchrony is left out. One refresh is one sequential method, so
  overlapping refreshes on the shared cache are not modelled.
- The `sharedInstance` singletons are left out. The `ChatManager` is passed
  in explicitly. `DynamoDBController` has no state, so its operations are
  module-level members.
- `NSError` keeps only its domain, code and string `userInfo` entries. The
  `as? NSError` casts always succeed in Swift, so they are not modelled.
- The `User` and `Friend` classes are not part of this model. They are
  records with optional ids, and their other attributes are kept opaque.
- Ids are compared code point by code point (`in` on `seq<char>`). Swift's
  `contains` at DynamoDBController.swift:64 uses `String ==`, which also
  equates canonically equivalent strings (a precomposed "é" and "e" followed
  by a combining accent). Ids that are canonically equivalent but encoded
  differently are out of scope: for them the app caches a user the model
  leaves out.
- A trap is modelled as the end of the run. The process crash that follows
  is not modelled.

## Findings

| source | as written | input that shows it | evidently intended | confidence | as-written member | corrected member |
|---|---|---|---|---|---|---|
| final/AWSChat/AWSChat/DynamoDBController.swift:105 | the Friend loop ranges over `0...(count - 1)` | the Friend scan returns a page with no items | an empty page resolves to an empty id list | not executed | DynamoDBController.RefreshEmptyPageTraps | DynamoDBController.RefreshGuardedEmptyPages |
| final/AWSChat/AWSChat/DynamoDBController.swift:57 | the User loop ranges over `0...(count - 1)` | ids resolve, and the User scan returns a page with no items | an empty page appends no one, then `completion(nil)` | not executed | DynamoDBController.RefreshEmptyPageTraps | DynamoDBController.RefreshGuardedEmptyPages |
| final/AWSChat/AWSChat/DynamoDBController.swift:31-34 | `completion(nil)` for "no friends" has no `return` after it | the Friend scan result is nil, and the User page holds a `User` with an id | return after the one `completion(nil)` | not executed | DynamoDBController.NoFriendsWithIdentifiedUserTraps | DynamoDBController.RefreshGuardedNoFriends |
| final/AWSChat/AWSChat/DynamoDBController.swift:31-34 | `completion(nil)` for "no friends" has no `return` after it | the Friend scan result is nil, and the User page is non-empty with no `User` that has an id | `completion` is called once | not executed | DynamoDBController.RefreshNoFriendsFallsThrough | DynamoDBController.RefreshGuardedAgreesWithRefresh |
