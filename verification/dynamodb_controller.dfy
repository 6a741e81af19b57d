/**
 * The in-memory logic of `DynamoDBController`: what each continuation does
 * with the result of its DynamoDB call. Each asynchronous call is replaced by
 * the value its task settles with (a `ScanTask` or `LoadTask` parameter), and
 * each continuation by the code that follows it, so one refresh is one
 * sequential method. Calls to a `completion` handler are recorded, in order,
 * as the values they are given.
 */
module DynamoDBController {
  import opened Wrappers
  import opened Records
  import opened Selection
  import opened Chat

  // ---------------------------------------------------------------------
  // Friend-id resolution (retrieveFriendIds)
  // ---------------------------------------------------------------------

  /** The guard of the friend-id loop: the item is a `Friend` whose `friend_id` is not nil. */
  function FriendIdOf(item: Item): Option<string>
  {
    match item
    case FriendItem(friend) => friend.friendId
    case _ => None
  }

  /** The ids the friend-id loop appends for a page, in scan order. */
  function FriendIds(items: seq<Item>): seq<string>
  {
    Collect(items, FriendIdOf)
  }

  /** The two arguments `retrieveFriendIds` hands to its completion handler. */
  datatype IdsReply = IdsReply(error: Option<Error>, ids: Option<seq<string>>)

  /**
   * What `retrieveFriendIds` does with the result of the Friend scan: pass an
   * error on with a nil list; report a nil result as no error and a nil list
   * ("no friends"); trap on an empty page, where `0...(count - 1)` is an
   * invalid range; otherwise report the ids the loop gathered.
   */
  function ResolveFriendIds(scan: ScanTask): Exec<IdsReply>
  {
    match scan
    case ScanFailed(e) => Completed(IdsReply(Some(e), None))
    case ScanDone(None) => Completed(IdsReply(None, None))
    case ScanDone(Some(items)) =>
      if |items| == 0 then Trapped else Completed(IdsReply(None, Some(FriendIds(items))))
  }

  /** The continuation of `retrieveFriendIds`, with its loop over the scanned page. */
  method RetrieveFriendIds(scan: ScanTask) returns (run: Exec<IdsReply>)
    ensures run == ResolveFriendIds(scan)
  {
    var friendUserIds: seq<string> := [];
    match scan {
      case ScanFailed(e) =>
        return Completed(IdsReply(Some(e), None));
      case ScanDone(None) =>
        return Completed(IdsReply(None, None));
      case ScanDone(Some(items)) =>
        if |items| == 0 {
          return Trapped;
        }
        for index := 0 to |items|
          invariant friendUserIds == FriendIds(items[..index])
        {
          match FriendIdOf(items[index]) {
            case Some(friendUserId) =>
              friendUserIds := friendUserIds + [friendUserId];
            case None =>
          }
          assert items[..index + 1] == items[..index] + [items[index]];
          CollectAppend(items[..index], [items[index]], FriendIdOf);
        }
        assert items[..|items|] == items;
        return Completed(IdsReply(None, Some(friendUserIds)));
    }
  }

  /**
   * A friend id is resolved exactly when some scanned item is a `Friend`
   * carrying it, and there are never more ids than items.
   */
  lemma FriendIdsExactly(items: seq<Item>, id: string)
    ensures id in FriendIds(items) <==>
      exists j :: 0 <= j < |items| && items[j].FriendItem? && items[j].friend.friendId == Some(id)
    ensures |FriendIds(items)| <= |items|
  {
    CollectContains(items, FriendIdOf, id);
    forall j | 0 <= j < |items|
      ensures FriendIdOf(items[j]) == Some(id) <==> items[j].FriendItem? && items[j].friend.friendId == Some(id)
    {
    }
  }

  /**
   * The resolved ids keep scan order and duplicates: the k-th id is the
   * `friend_id` of the item at the k-th position of `p`, the positions
   * strictly increase, and every `Friend` with a non-nil `friend_id` is at
   * one of them.
   */
  lemma FriendIdsFollowScanOrder(items: seq<Item>)
    ensures var p := Positions(items, FriendIdOf);
      && |p| == |FriendIds(items)|
      && (forall k :: 0 <= k < |p| ==>
            p[k] < |items| && items[p[k]].FriendItem? && items[p[k]].friend.friendId == Some(FriendIds(items)[k]))
      && (forall k, l :: 0 <= k < l < |p| ==> p[k] < p[l])
      && (forall j :: 0 <= j < |items| && items[j].FriendItem? && items[j].friend.friendId.Some? ==> j in p)
  {
    var p := Positions(items, FriendIdOf);
    forall j | 0 <= j < |items| && items[j].FriendItem? && items[j].friend.friendId.Some? ensures j in p {
      assert FriendIdOf(items[j]).Some?;
    }
  }

  /** The four ways the continuation of `retrieveFriendIds` can end, spelled out. */
  lemma ResolveFriendIdsOutcomes(scan: ScanTask)
    ensures scan.ScanFailed? ==> ResolveFriendIds(scan) == Completed(IdsReply(Some(scan.error), None))
    ensures scan == ScanDone(None) ==> ResolveFriendIds(scan) == Completed(IdsReply(None, None))
    ensures scan == ScanDone(Some([])) ==> ResolveFriendIds(scan).Trapped?
    ensures scan.ScanDone? && scan.output.Some? && |scan.output.value| > 0 ==>
      && ResolveFriendIds(scan).Completed?
      && ResolveFriendIds(scan).value.error.None?
      && ResolveFriendIds(scan).value.ids.Some?
      && |ResolveFriendIds(scan).value.ids.value| <= |scan.output.value|
    ensures ResolveFriendIds(scan).Completed? ==>
      (ResolveFriendIds(scan).value.error.Some? ==> ResolveFriendIds(scan).value.ids.None?)
  {
  }

  // ---------------------------------------------------------------------
  // The user scan of refreshFriendList
  // ---------------------------------------------------------------------

  /** The guard of the user loop's first half: the item is a `User` whose `id` is not nil. */
  function UserIdOf(item: Item): Option<string>
  {
    match item
    case UserItem(user) => user.id
    case _ => None
  }

  /** The user the loop adds for an item, given the resolved ids: a `User` whose non-nil id is among them. */
  function FriendUserOf(item: Item, friendIds: seq<string>): Option<User>
  {
    match item
    case UserItem(user) =>
      if user.id.Some? && user.id.value in friendIds then Some(user) else None
    case _ => None
  }

  /** `FriendUserOf` with the resolved ids fixed, as a guard for `Collect`. */
  function FriendUserPick(friendIds: seq<string>): Item -> Option<User>
  {
    item => FriendUserOf(item, friendIds)
  }

  /** The users the loop appends to the cache for a page, in scan order. */
  function FriendUsers(items: seq<Item>, friendIds: seq<string>): seq<User>
  {
    Collect(items, FriendUserPick(friendIds))
  }

  /** Some scanned item is a `User` with a non-nil id. */
  predicate HasIdentifiedUser(items: seq<Item>)
  {
    exists j :: 0 <= j < |items| && UserIdOf(items[j]).Some?
  }

  /**
   * Whether the user loop traps: on an empty page the range `0...(count - 1)`
   * is invalid, and with a nil id list the forced unwrap
   * `friendUserIDArray!` fails at the first `User` with a non-nil id.
   */
  predicate UserLoopTraps(items: seq<Item>, friendIds: Option<seq<string>>)
  {
    |items| == 0 || (friendIds.None? && HasIdentifiedUser(items))
  }

  /**
   * The loop over the scanned User page: every `User` with a non-nil id that
   * the resolved list contains is added to the cache, in scan order. Nothing
   * is added before a trap, so a trap leaves the cache as it found it.
   */
  method ScanUsersIntoCache(chatManager: ChatManager, items: seq<Item>, friendIds: Option<seq<string>>)
    returns (trapped: bool)
    modifies chatManager
    ensures trapped == UserLoopTraps(items, friendIds)
    ensures !trapped && friendIds.Some? ==>
      chatManager.friendList == AppendedAll(old(chatManager.friendList), FriendUsers(items, friendIds.value))
    ensures trapped || friendIds.None? ==> chatManager.friendList == old(chatManager.friendList)
  {
    if |items| == 0 {
      return true;
    }
    AppendedAllNothing(chatManager.friendList);
    for index := 0 to |items|
      invariant forall j :: 0 <= j < index ==> friendIds.None? ==> UserIdOf(items[j]).None?
      invariant friendIds.Some? ==>
        chatManager.friendList == AppendedAll(old(chatManager.friendList), FriendUsers(items[..index], friendIds.value))
      invariant friendIds.None? ==> chatManager.friendList == old(chatManager.friendList)
    {
      var item := items[index];
      if item.UserItem? && item.user.id.Some? && friendIds.None? {
        assert UserIdOf(items[index]).Some?;
        return true;
      }
      if friendIds.Some? {
        var ids := friendIds.value;
        ghost var before := FriendUsers(items[..index], ids);
        assert items[..index + 1] == items[..index] + [item];
        assert [item][1..] == [];
        assert FriendUserPick(ids)(item) == FriendUserOf(item, ids);
        CollectAppend(items[..index], [item], FriendUserPick(ids));
        if item.UserItem? && item.user.id.Some? && item.user.id.value in ids {
          assert FriendUsers(items[..index + 1], ids) == before + [item.user];
          AppendedAllSnoc(old(chatManager.friendList), before, item.user);
          chatManager.AddFriend(item.user);
        } else {
          assert FriendUsers(items[..index + 1], ids) == before + [];
          assert before + [] == before;
        }
      }
    }
    assert items[..|items|] == items;
    return false;
  }

  /**
   * A scanned user reaches the cache exactly when it is a `User` of the page
   * with a non-nil id contained in the resolved list.
   */
  lemma FriendUsersExactly(items: seq<Item>, friendIds: seq<string>, user: User)
    ensures user in FriendUsers(items, friendIds) <==>
      exists j :: 0 <= j < |items| && items[j] == UserItem(user) && user.id.Some? && user.id.value in friendIds
    ensures |FriendUsers(items, friendIds)| <= |items|
  {
    CollectContains(items, FriendUserPick(friendIds), user);
    forall j | 0 <= j < |items|
      ensures FriendUserPick(friendIds)(items[j]) == Some(user) <==>
        items[j] == UserItem(user) && user.id.Some? && user.id.value in friendIds
    {
    }
  }

  /**
   * Only which ids were resolved matters, not their order or how often they
   * occur: duplicate resolved ids do not duplicate users.
   */
  lemma FriendUsersIgnoreDuplicateIds(items: seq<Item>, friendIds: seq<string>, friendIds': seq<string>)
    requires forall id :: id in friendIds <==> id in friendIds'
    ensures FriendUsers(items, friendIds) == FriendUsers(items, friendIds')
  {
    forall j | 0 <= j < |items|
      ensures FriendUserPick(friendIds)(items[j]) == FriendUserPick(friendIds')(items[j])
    {
    }
    CollectCongruent(items, FriendUserPick(friendIds), FriendUserPick(friendIds'));
  }

  /**
   * The cached users keep scan order: the k-th is the `User` at the k-th
   * position of `p`, the positions strictly increase, and every `User` of
   * the page whose non-nil id is resolved is at one of them.
   */
  lemma FriendUsersFollowScanOrder(items: seq<Item>, friendIds: seq<string>)
    ensures var p := Positions(items, FriendUserPick(friendIds));
      && |p| == |FriendUsers(items, friendIds)|
      && (forall k :: 0 <= k < |p| ==> p[k] < |items| && items[p[k]] == UserItem(FriendUsers(items, friendIds)[k]))
      && (forall k, l :: 0 <= k < l < |p| ==> p[k] < p[l])
      && (forall j ::
            0 <= j < |items| && items[j].UserItem? && items[j].user.id.Some? && items[j].user.id.value in friendIds
            ==> j in p)
  {
    var p := Positions(items, FriendUserPick(friendIds));
    var users := FriendUsers(items, friendIds);
    forall k | 0 <= k < |p| ensures items[p[k]] == UserItem(users[k]) {
      assert FriendUserPick(friendIds)(items[p[k]]) == Some(users[k]);
    }
    forall j | 0 <= j < |items| && items[j].UserItem? && items[j].user.id.Some? && items[j].user.id.value in friendIds
      ensures j in p
    {
      assert FriendUserPick(friendIds)(items[j]).Some?;
    }
  }

  // ---------------------------------------------------------------------
  // refreshFriendList, as written
  // ---------------------------------------------------------------------

  /**
   * One run of `refreshFriendList`: the values passed to `completion`, in
   * order, whether the run ended in a trap, and the cache afterwards.
   */
  datatype RefreshRun = RefreshRun(completions: seq<Option<Error>>, trapped: bool, cache: Option<seq<User>>)

  /**
   * What `refreshFriendList` does, given how its two scans settle and the
   * cache it starts from. A failed resolution reports the error and stops.
   * Otherwise the cache is cleared; a nil id list calls `completion(nil)`
   * WITHOUT returning; then the User scan's error, or a made-up error for a
   * nil result, is reported, or the loop runs and `completion(nil)` follows.
   */
  function Refresh(cache: Option<seq<User>>, friendScan: ScanTask, userScan: ScanTask): RefreshRun
  {
    match ResolveFriendIds(friendScan)
    case Trapped => RefreshRun([], true, cache)
    case Completed(reply) =>
      if reply.error.Some? then RefreshRun([reply.error], false, cache)
      else
        var cleared := Cleared(cache);
        var early: seq<Option<Error>> := if reply.ids.None? then [None] else [];
        match userScan
        case ScanFailed(e) => RefreshRun(early + [Some(e)], false, cleared)
        case ScanDone(None) => RefreshRun(early + [Some(UnknownError)], false, cleared)
        case ScanDone(Some(items)) =>
          if UserLoopTraps(items, reply.ids) then RefreshRun(early, true, cleared)
          else if reply.ids.None? then RefreshRun(early + [None], false, cleared)
          else RefreshRun([None], false, AppendedAll(cleared, FriendUsers(items, reply.ids.value)))
  }

  /** `refreshFriendList` with its two continuations run back to back against the given cache. */
  method RefreshFriendList(chatManager: ChatManager, friendScan: ScanTask, userScan: ScanTask)
    returns (completions: seq<Option<Error>>, trapped: bool)
    modifies chatManager
    ensures RefreshRun(completions, trapped, chatManager.friendList)
         == Refresh(old(chatManager.friendList), friendScan, userScan)
  {
    completions, trapped := [], false;
    var resolved := RetrieveFriendIds(friendScan);
    if resolved.Trapped? {
      return [], true;
    }
    var reply := resolved.value;
    if reply.error.Some? {
      return [reply.error], false;
    }
    chatManager.ClearFriendList();
    if reply.ids.None? {
      // "user has no friends": the completion runs, and so does the rest
      completions := completions + [None];
    }
    match userScan {
      case ScanFailed(e) =>
        completions := completions + [Some(e)];
      case ScanDone(None) =>
        completions := completions + [Some(UnknownError)];
      case ScanDone(Some(items)) =>
        trapped := ScanUsersIntoCache(chatManager, items, reply.ids);
        if !trapped {
          completions := completions + [None];
        }
    }
  }

  /** A failed friend scan is reported once, and the cache is left exactly as it was. */
  lemma RefreshKeepsCacheOnResolveError(cache: Option<seq<User>>, error: Error, userScan: ScanTask)
    ensures Refresh(cache, ScanFailed(error), userScan) == RefreshRun([Some(error)], false, cache)
  {
  }

  /**
   * Once the ids are resolved the cache is cleared before the User scan, so a
   * failed or empty-handed User scan ends with the error reported last and an
   * empty (or still nil) cache.
   */
  lemma RefreshClearsBeforeUserScan(cache: Option<seq<User>>, friendScan: ScanTask, userScan: ScanTask)
    requires ResolveFriendIds(friendScan).Completed? && ResolveFriendIds(friendScan).value.error.None?
    requires userScan.ScanFailed? || userScan == ScanDone(None)
    ensures var run := Refresh(cache, friendScan, userScan);
      && !run.trapped
      && run.cache == Cleared(cache)
      && run.completions != []
      && run.completions[|run.completions| - 1] == Some(if userScan.ScanFailed? then userScan.error else UnknownError)
  {
  }

  /**
   * After both scans return non-empty pages, the refresh completes once
   * without error and a non-nil cache holds exactly the scanned users whose
   * non-nil id was resolved from a `Friend` item.
   */
  lemma RefreshHydratesFriends(cache: Option<seq<User>>, friendItems: seq<Item>, userItems: seq<Item>, user: User)
    requires |friendItems| > 0 && |userItems| > 0 && cache.Some?
    ensures var run := Refresh(cache, ScanDone(Some(friendItems)), ScanDone(Some(userItems)));
      && run == RefreshRun([None], false, Some(FriendUsers(userItems, FriendIds(friendItems))))
      && (user in run.cache.value <==>
            exists j :: 0 <= j < |userItems| && userItems[j] == UserItem(user) && user.id.Some?
                     && exists i :: 0 <= i < |friendItems| && friendItems[i].FriendItem?
                                  && friendItems[i].friend.friendId == user.id)
  {
    var ids := FriendIds(friendItems);
    ClearThenAppendAll(cache, FriendUsers(userItems, ids));
    FriendUsersExactly(userItems, ids, user);
    if user.id.Some? {
      FriendIdsExactly(friendItems, user.id.value);
    }
  }

  /**
   * With no Friend result, `completion(nil)` fires and the refresh goes on:
   * it traps on the forced unwrap as soon as the User page holds a `User`
   * with an id, and otherwise calls `completion` a second time.
   */
  lemma RefreshNoFriendsFallsThrough(cache: Option<seq<User>>, userItems: seq<Item>)
    requires |userItems| > 0
    ensures var run := Refresh(cache, ScanDone(None), ScanDone(Some(userItems)));
      && run.completions[0] == None
      && run.cache == Cleared(cache)
      && (HasIdentifiedUser(userItems) ==> run.trapped && run.completions == [None])
      && (!HasIdentifiedUser(userItems) ==> !run.trapped && run.completions == [None, None])
  {
  }

  /** A concrete run of the fall-through: one `User` with an id crashes a refresh whose friend scan found nothing. */
  lemma NoFriendsWithIdentifiedUserTraps(cache: Option<seq<User>>, id: string)
    ensures Refresh(cache, ScanDone(None), ScanDone(Some([UserItem(User(Some(id), map[]))]))).trapped
  {
    var userItems := [UserItem(User(Some(id), map[]))];
    assert UserIdOf(userItems[0]).Some?;
    assert HasIdentifiedUser(userItems);
  }

  /** An empty page traps whichever scan returns it: before any completion, or after the cache was cleared. */
  lemma RefreshEmptyPageTraps(cache: Option<seq<User>>, friendScan: ScanTask, userScan: ScanTask)
    ensures friendScan == ScanDone(Some([])) ==> Refresh(cache, friendScan, userScan) == RefreshRun([], true, cache)
    ensures ResolveFriendIds(friendScan).Completed? && ResolveFriendIds(friendScan).value.error.None?
            && userScan == ScanDone(Some([])) ==>
              Refresh(cache, friendScan, userScan).trapped && Refresh(cache, friendScan, userScan).cache == Cleared(cache)
  {
  }

  /**
   * Which cache a run leaves behind, by input. A trap or error in the
   * resolution leaves the starting cache. Once the ids are resolved, a User
   * scan that fails or returns nothing, or a nil id list, or a User loop
   * that traps, leaves the cleared cache. A resolved list and a User page
   * the loop runs through leave the cleared cache followed by the users of
   * that page whose id is in the resolved list.
   */
  lemma RefreshCacheStates(cache: Option<seq<User>>, friendScan: ScanTask, userScan: ScanTask)
    ensures var resolved := ResolveFriendIds(friendScan);
      (resolved.Trapped? || resolved.value.error.Some?) ==>
        Refresh(cache, friendScan, userScan).cache == cache
    ensures var resolved := ResolveFriendIds(friendScan);
      resolved.Completed? && resolved.value.error.None?
      && (userScan.ScanFailed? || userScan.output.None? || resolved.value.ids.None?
          || UserLoopTraps(userScan.output.value, resolved.value.ids)) ==>
        Refresh(cache, friendScan, userScan).cache == Cleared(cache)
    ensures var resolved := ResolveFriendIds(friendScan);
      resolved.Completed? && resolved.value.error.None? && resolved.value.ids.Some?
      && userScan.ScanDone? && userScan.output.Some? && !UserLoopTraps(userScan.output.value, resolved.value.ids) ==>
        Refresh(cache, friendScan, userScan).cache
          == AppendedAll(Cleared(cache), FriendUsers(userScan.output.value, resolved.value.ids.value))
  {
  }

  /**
   * Two `Friend` rows of u1 name u2 and u3; the User table holds u2, u3 and
   * u4. A refresh leaves exactly u2 and u3 in the cache, in scan order.
   */
  lemma RefreshExample(u2: User, u3: User, u4: User)
    requires u2.id == Some("u2") && u3.id == Some("u3") && u4.id == Some("u4")
    ensures Refresh(
              Some([u4]),
              ScanDone(Some([FriendItem(Friend(Some("u1"), Some("u2"))), FriendItem(Friend(Some("u1"), Some("u3")))])),
              ScanDone(Some([UserItem(u2), UserItem(u3), UserItem(u4)])))
         == RefreshRun([None], false, Some([u2, u3]))
  {
    var friendItems := [FriendItem(Friend(Some("u1"), Some("u2"))), FriendItem(Friend(Some("u1"), Some("u3")))];
    var userItems := [UserItem(u2), UserItem(u3), UserItem(u4)];
    assert friendItems == [friendItems[0]] + [friendItems[1]];
    CollectAppend([friendItems[0]], [friendItems[1]], FriendIdOf);
    assert FriendIds(friendItems) == ["u2", "u3"];
    assert userItems == [userItems[0]] + [userItems[1]] + [userItems[2]];
    CollectAppend([userItems[0]] + [userItems[1]], [userItems[2]], FriendUserPick(["u2", "u3"]));
    CollectAppend([userItems[0]], [userItems[1]], FriendUserPick(["u2", "u3"]));
    assert FriendUsers(userItems, ["u2", "u3"]) == [u2, u3];
    ClearThenAppendAll(Some([u4]), [u2, u3]);
  }

  /** Refreshing twice from the same scan results leaves the same cache as refreshing once. */
  lemma RefreshIsIdempotent(cache: Option<seq<User>>, friendScan: ScanTask, userScan: ScanTask)
    ensures Refresh(Refresh(cache, friendScan, userScan).cache, friendScan, userScan).cache
         == Refresh(cache, friendScan, userScan).cache
  {
    var resolved := ResolveFriendIds(friendScan);
    if resolved.Completed? && resolved.value.error.None? {
      ClearIsIdempotent(cache);
      var once := Refresh(cache, friendScan, userScan).cache;
      assert once.Some? <==> cache.Some?;
    }
  }

  // ---------------------------------------------------------------------
  // retrieveUser
  // ---------------------------------------------------------------------

  /** The two arguments `retrieveUser` hands to its completion handler. */
  datatype UserReply = UserReply(error: Option<Error>, user: Option<User>)

  /**
   * The continuation of `retrieveUser`. Exactly one of the two arguments is
   * set: a load error is passed on unchanged, a loaded `User` is returned,
   * and anything else (a nil result, or an object of another class) becomes
   * the made-up code-200 error.
   */
  function RetrieveUser(load: LoadTask): (reply: UserReply)
    ensures reply.error.Some? <==> reply.user.None?
    ensures reply.user.Some? <==> load.LoadDone? && load.result.Some? && load.result.value.UserItem?
    ensures reply.user.Some? ==> load.result == Some(UserItem(reply.user.value))
    ensures load.LoadFailed? ==> reply.error == Some(load.error)
    ensures load.LoadDone? && reply.error.Some? ==> reply.error == Some(UnknownError)
  {
    match load
    case LoadFailed(e) => UserReply(Some(e), None)
    case LoadDone(Some(UserItem(user))) => UserReply(None, Some(user))
    case LoadDone(_) => UserReply(Some(UnknownError), None)
  }

  /** A missing record is not told apart from an object of the wrong class: both give the same generic error. */
  lemma RetrieveUserConflatesMissingRecord(className: string)
    ensures RetrieveUser(LoadDone(None)) == RetrieveUser(LoadDone(Some(OtherItem(className))))
    ensures RetrieveUser(LoadDone(None)) == UserReply(Some(UnknownError), None)
  {
  }

  // ---------------------------------------------------------------------
  // refreshFriendList, corrected
  // ---------------------------------------------------------------------

  /** One run of the corrected refresh: the single value passed to `completion`, and the cache afterwards. */
  datatype GuardedRun = GuardedRun(completion: Option<Error>, cache: Option<seq<User>>)

  /**
   * The refresh with both loops over `0..<count` (an empty page yields
   * nothing) and a `return` after the "no friends" `completion(nil)`.
   */
  function RefreshGuarded(cache: Option<seq<User>>, friendScan: ScanTask, userScan: ScanTask): GuardedRun
  {
    match friendScan
    case ScanFailed(e) => GuardedRun(Some(e), cache)
    case ScanDone(None) => GuardedRun(None, Cleared(cache))
    case ScanDone(Some(friendItems)) =>
      match userScan
      case ScanFailed(e) => GuardedRun(Some(e), Cleared(cache))
      case ScanDone(None) => GuardedRun(Some(UnknownError), Cleared(cache))
      case ScanDone(Some(userItems)) =>
        GuardedRun(None, AppendedAll(Cleared(cache), FriendUsers(userItems, FriendIds(friendItems))))
  }

  /** The corrected refresh, built from the same continuations behind the two guards. */
  method RefreshFriendListGuarded(chatManager: ChatManager, friendScan: ScanTask, userScan: ScanTask)
    returns (completion: Option<Error>)
    modifies chatManager
    ensures GuardedRun(completion, chatManager.friendList) == RefreshGuarded(old(chatManager.friendList), friendScan, userScan)
  {
    match friendScan {
      case ScanFailed(e) =>
        return Some(e);
      case ScanDone(None) =>
        chatManager.ClearFriendList();
        return None;
      case ScanDone(Some(friendItems)) =>
        var friendIds: seq<string> := [];
        if |friendItems| > 0 {
          var resolved := RetrieveFriendIds(friendScan);
          friendIds := resolved.value.ids.value;
        }
        chatManager.ClearFriendList();
        match userScan {
          case ScanFailed(e) =>
            completion := Some(e);
          case ScanDone(None) =>
            completion := Some(UnknownError);
          case ScanDone(Some(userItems)) =>
            if |userItems| > 0 {
              var trapped := ScanUsersIntoCache(chatManager, userItems, Some(friendIds));
              assert !trapped;
            } else {
              AppendedAllNothing(chatManager.friendList);
            }
            completion := None;
        }
    }
  }

  /**
   * Wherever the original refresh does not trap, the corrected run gives
   * the original's first completion and its cache; where the original also
   * completes only once, the two agree entirely.
   */
  lemma RefreshGuardedAgreesWithRefresh(cache: Option<seq<User>>, friendScan: ScanTask, userScan: ScanTask)
    ensures var run := Refresh(cache, friendScan, userScan);
      var fixed := RefreshGuarded(cache, friendScan, userScan);
      !run.trapped ==> run.completions != [] && fixed.completion == run.completions[0] && fixed.cache == run.cache
  {
    var run := Refresh(cache, friendScan, userScan);
    if friendScan == ScanDone(None) && userScan.ScanDone? && userScan.output.Some? && !run.trapped {
      AppendedAllNothing(Cleared(cache));
    }
  }

  /** An empty Friend page means no friends, and an empty User page adds no one; neither traps. */
  lemma RefreshGuardedEmptyPages(cache: Option<seq<User>>, friendScan: ScanTask, userScan: ScanTask)
    ensures friendScan == ScanDone(Some([])) && userScan.ScanDone? && userScan.output.Some? ==>
      RefreshGuarded(cache, friendScan, userScan) == GuardedRun(None, Cleared(cache))
    ensures friendScan.ScanDone? && friendScan.output.Some? && userScan == ScanDone(Some([])) ==>
      RefreshGuarded(cache, friendScan, userScan) == GuardedRun(None, Cleared(cache))
  {
    ClearThenAppendAll(cache, []);
    if friendScan == ScanDone(Some([])) && userScan.ScanDone? && userScan.output.Some? {
      var userItems := userScan.output.value;
      var users := FriendUsers(userItems, []);
      if users != [] {
        FriendUsersExactly(userItems, [], users[0]);
        assert false;
      }
    }
  }

  /** With no Friend result the corrected refresh completes once, without error, and leaves the cache cleared. */
  lemma RefreshGuardedNoFriends(cache: Option<seq<User>>, userScan: ScanTask)
    ensures RefreshGuarded(cache, ScanDone(None), userScan) == GuardedRun(None, Cleared(cache))
  {
  }
}
