/**
 * The friend-list cache (`ChatManager`). Its one field, `friendList`, is an
 * optional array of users; both mutators reach it through optional chaining
 * (`friendList?.removeAll()`, `friendList?.append(user)`), so they do nothing
 * at all while the field is nil.
 */
module Chat {
  import opened Wrappers
  import opened Records

  /** The list after `friendList?.removeAll()`. */
  function Cleared(list: Option<seq<User>>): Option<seq<User>>
  {
    match list
    case None => None
    case Some(_) => Some([])
  }

  /** The list after `friendList?.append(user)`. */
  function Appended(list: Option<seq<User>>, user: User): Option<seq<User>>
  {
    match list
    case None => None
    case Some(users) => Some(users + [user])
  }

  /** The list after `friendList?.append(u)` for each `u` of `added`, in order. */
  function AppendedAll(list: Option<seq<User>>, added: seq<User>): Option<seq<User>>
  {
    match list
    case None => None
    case Some(users) => Some(users + added)
  }

  class ChatManager {
    var friendList: Option<seq<User>>

    /** A new manager holds an empty, non-nil list. */
    constructor ()
      ensures friendList == Some([])
    {
      friendList := Some([]);
    }

    method ClearFriendList()
      modifies this
      ensures friendList == Cleared(old(friendList))
    {
      if friendList.Some? {
        friendList := Some([]);
      }
    }

    method AddFriend(user: User)
      modifies this
      ensures friendList == Appended(old(friendList), user)
    {
      if friendList.Some? {
        friendList := Some(friendList.value + [user]);
      }
    }
  }

  /** Clearing empties a non-nil list, leaves a nil list nil, and clearing twice is clearing once. */
  lemma ClearIsIdempotent(list: Option<seq<User>>)
    ensures list.Some? ==> Cleared(list) == Some([])
    ensures list.None? ==> Cleared(list).None?
    ensures Cleared(Cleared(list)) == Cleared(list)
  {
  }

  /** Appending to a non-nil list grows it by one at the end and keeps the old users as its prefix; a nil list stays nil. */
  lemma AddFriendExtends(list: Option<seq<User>>, user: User)
    ensures list.None? ==> Appended(list, user).None?
    ensures list.Some? ==>
              && Appended(list, user).Some?
              && |Appended(list, user).value| == |list.value| + 1
              && Appended(list, user).value[..|list.value|] == list.value
              && Appended(list, user).value[|list.value|] == user
  {
  }

  /** Appending one more user after a batch is appending the longer batch. */
  lemma AppendedAllSnoc(list: Option<seq<User>>, added: seq<User>, user: User)
    ensures AppendedAll(list, added + [user]) == Appended(AppendedAll(list, added), user)
  {
    if list.Some? {
      assert list.value + (added + [user]) == (list.value + added) + [user];
    }
  }

  /** Appending an empty batch changes nothing. */
  lemma AppendedAllNothing(list: Option<seq<User>>)
    ensures AppendedAll(list, []) == list
  {
    if list.Some? {
      assert list.value + [] == list.value;
    }
  }

  /** After a clear, appending a batch leaves exactly that batch in a non-nil list, and nothing in a nil one. */
  lemma ClearThenAppendAll(list: Option<seq<User>>, added: seq<User>)
    ensures list.Some? ==> AppendedAll(Cleared(list), added) == Some(added)
    ensures list.None? ==> AppendedAll(Cleared(list), added).None?
  {
    if list.Some? {
      assert [] + added == added;
    }
  }
}
