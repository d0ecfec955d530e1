/**
 * The admin conversation of bot.py: one chat's `chat_data["current_state"]`
 * slot (bot.py:79-81), the triggers `add_user` and `remove_user`
 * (bot.py:240-278), the id input handler `handle_user_id_input`
 * (bot.py:281-290), its processing `process_user_id` (bot.py:293-326) and
 * `cancel` (bot.py:329-336). The allowed-users file is a `UserStore`.
 *
 * The admin check of `handle_buttons` is not part of these handlers: the
 * triggers run for whoever reaches them, so none of them requires it.
 */
module Conversation {
  import opened Wrappers
  import opened Decimal
  import opened Access

  /** `States.AWAIT_USER_ID_ADD` (1) and `States.AWAIT_USER_ID_REMOVE` (2). */
  datatype AwaitState = AwaitUserIdAdd | AwaitUserIdRemove

  /** A handler's return value: a state to wait in, or `ConversationHandler.END`. */
  datatype Next = Await(state: AwaitState) | End

  /** A handler's completion: it returned, or it raised before returning. */
  datatype HandlerResult = Returned(next: Next) | Raised

  /** The texts the handlers reply with. */
  datatype Reply =
    | UserListPrompt(users: seq<int>)  // the current list (or "list is empty"), then "enter the user ID"
    | InvalidId
    | AlreadyExists
    | Added(userId: int)
    | Removed(userId: int)
    | NotFound
    | UnknownState

  /**
   * The effect of one input: the new state slot, the user data written to
   * the file (None when nothing is saved), the return value and the reply.
   */
  datatype Outcome = Outcome(state: Option<AwaitState>, saved: Option<UserData>, next: Next, reply: Reply)

  /** The user data the next `load_users` sees after `o`, starting from `u`. */
  function After(u: UserData, o: Outcome): UserData
  {
    o.saved.GetOr(u)
  }

  /**
   * process_user_id for a parsed id, from the state slot and the loaded user
   * data: an await state always ends the flow and clears the slot; adding
   * saves only a new id, removing only a present one; with no state the list
   * is untouched.
   */
  function ProcessSpec(state: Option<AwaitState>, u: UserData, userId: int): (o: Outcome)
    ensures state.Some? ==> o.state == None && o.next == End
    ensures state.None? ==> o == Outcome(None, None, End, UnknownState)
    ensures o.saved.Some? ==> o.saved.value.adminId == u.adminId
    ensures state == Some(AwaitUserIdAdd) ==>
      && (o.saved.Some? <==> userId !in u.allowedUsers)
      && multiset(After(u, o).allowedUsers) == multiset(u.allowedUsers) + (if userId in u.allowedUsers then multiset{} else multiset{userId})
      && o.reply == (if userId in u.allowedUsers then AlreadyExists else Added(userId))
    ensures state == Some(AwaitUserIdAdd) && userId !in u.allowedUsers ==>
      After(u, o).allowedUsers == u.allowedUsers + [userId]
    ensures state == Some(AwaitUserIdRemove) ==>
      && (o.saved.Some? <==> userId in u.allowedUsers)
      && multiset(After(u, o).allowedUsers) == multiset(u.allowedUsers) - multiset{userId}
      && o.reply == (if userId in u.allowedUsers then Removed(userId) else NotFound)
    ensures state == Some(AwaitUserIdRemove) && userId in u.allowedUsers ==>
      After(u, o).allowedUsers == RemoveFirst(u.allowedUsers, userId)
  {
    match state
    case Some(AwaitUserIdAdd) =>
      if userId in u.allowedUsers then Outcome(None, None, End, AlreadyExists)
      else Outcome(None, Some(u.(allowedUsers := u.allowedUsers + [userId])), End, Added(userId))
    case Some(AwaitUserIdRemove) =>
      if userId in u.allowedUsers then Outcome(None, Some(u.(allowedUsers := RemoveFirst(u.allowedUsers, userId))), End, Removed(userId))
      else Outcome(None, None, End, NotFound)
    case None => Outcome(None, None, End, UnknownState)
  }

  /** The value `chat_data.get("current_state", END)` returns. */
  function Resume(state: Option<AwaitState>): Next
  {
    match state
    case Some(s) => Await(s)
    case None => End
  }

  /**
   * handle_user_id_input: text that `int` rejects is answered with the
   * invalid-id text and changes nothing, the conversation staying where it
   * was; a number goes on to process_user_id.
   */
  function InputSpec(state: Option<AwaitState>, u: UserData, text: string): (o: Outcome)
    ensures ParseInt(text).None? ==> o == Outcome(state, None, Resume(state), InvalidId)
    ensures ParseInt(text).Some? ==> o == ProcessSpec(state, u, ParseInt(text).value)
  {
    match ParseInt(text)
    case None => Outcome(state, None, Resume(state), InvalidId)
    case Some(userId) => ProcessSpec(state, u, userId)
  }

  /**
   * Adding never creates a duplicate: the id occurs once if it was absent and
   * as often as before otherwise, every other id as often as before, and the
   * id is admitted afterwards.
   */
  lemma AddNeverDuplicates(u: UserData, userId: int)
    ensures var a := After(u, ProcessSpec(Some(AwaitUserIdAdd), u, userId)).allowedUsers;
      && multiset(a)[userId] == (if userId in u.allowedUsers then multiset(u.allowedUsers)[userId] else 1)
      && (forall x :: x != userId ==> multiset(a)[x] == multiset(u.allowedUsers)[x])
      && (NoDup(u.allowedUsers) ==> NoDup(a))
    ensures Admits(After(u, ProcessSpec(Some(AwaitUserIdAdd), u, userId)), userId)
  {
    if userId !in u.allowedUsers {
      assert multiset(u.allowedUsers)[userId] == 0;
      if NoDup(u.allowedUsers) {
        AppendAbsent(u.allowedUsers, userId);
      }
    }
  }

  /** A second add of the same id reports that it exists and saves nothing. */
  lemma SecondAddIsNoop(u: UserData, userId: int)
    ensures var u1 := After(u, ProcessSpec(Some(AwaitUserIdAdd), u, userId));
      ProcessSpec(Some(AwaitUserIdAdd), u1, userId) == Outcome(None, None, End, AlreadyExists)
  {
    var u1 := After(u, ProcessSpec(Some(AwaitUserIdAdd), u, userId));
    AddNeverDuplicates(u, userId);
    assert userId in u1.allowedUsers;
  }

  /**
   * Removing from a list without duplicates revokes access: afterwards the
   * id is admitted only if it is the admin's, and the list stays free of
   * duplicates.
   */
  lemma RemoveRevokesAccess(u: UserData, userId: int)
    requires NoDup(u.allowedUsers)
    ensures var a := After(u, ProcessSpec(Some(AwaitUserIdRemove), u, userId));
      && NoDup(a.allowedUsers)
      && (Admits(a, userId) <==> userId == u.adminId)
  {
    if userId in u.allowedUsers {
      RemoveFirstFromDistinct(u.allowedUsers, userId);
    }
  }

  /**
   * With a duplicated id in the file (possible only by editing it by hand),
   * one removal leaves the user admitted: `list.remove` takes out the first
   * copy only.
   */
  lemma RemoveLeavesSecondCopy(u: UserData, userId: int)
    requires multiset(u.allowedUsers)[userId] >= 2
    ensures Admits(After(u, ProcessSpec(Some(AwaitUserIdRemove), u, userId)), userId)
  {
    assert userId in u.allowedUsers;
    var a := After(u, ProcessSpec(Some(AwaitUserIdRemove), u, userId)).allowedUsers;
    assert multiset(a)[userId] >= 1;
  }

  /** The add flow from the add state, parsing the id from the message text. */
  lemma AddFlowByText(u: UserData, userId: int)
    requires userId !in u.allowedUsers
    ensures InputSpec(Some(AwaitUserIdAdd), u, ShowInt(userId)) ==
      Outcome(None, Some(u.(allowedUsers := u.allowedUsers + [userId])), End, Added(userId))
  {
    ParseShowInt(userId);
  }

  // --------------------------------------------------------------- mutable state

  /** One chat's `context.chat_data`, reduced to its `current_state` slot. */
  class ChatData {
    var currentState: Option<AwaitState>

    constructor ()
      ensures currentState == None
    {
      currentState := None;
    }
  }

  /** The allowed-users file, with the configured admin id used when it has none. */
  class UserStore {
    const configAdmin: int
    var file: UsersFile

    constructor (configAdmin: int, file: UsersFile)
      ensures this.configAdmin == configAdmin && this.file == file
    {
      this.configAdmin := configAdmin;
      this.file := file;
    }

    /** load_users. */
    function Load(): UserData
      reads this
    {
      LoadUsers(configAdmin, file)
    }

    /** save_users, whose write errors are only logged, so it is modelled as always writing. */
    method Save(u: UserData)
      modifies this
      ensures file == SaveUsers(u)
      ensures Load() == u
    {
      file := SaveUsers(u);
      LoadAfterSave(configAdmin, u);
    }
  }

  /** add_user: overwrites the slot with the add state, lists the users, leaves the file alone. */
  method AddUser(chat: ChatData, store: UserStore) returns (next: Next, reply: Reply)
    modifies chat
    ensures chat.currentState == Some(AwaitUserIdAdd) && next == Await(AwaitUserIdAdd)
    ensures reply == UserListPrompt(store.Load().allowedUsers)
  {
    chat.currentState := Some(AwaitUserIdAdd);
    var u := store.Load();
    reply := UserListPrompt(u.allowedUsers);
    next := Await(AwaitUserIdAdd);
  }

  /** remove_user: overwrites the slot with the remove state, lists the users, leaves the file alone. */
  method RemoveUser(chat: ChatData, store: UserStore) returns (next: Next, reply: Reply)
    modifies chat
    ensures chat.currentState == Some(AwaitUserIdRemove) && next == Await(AwaitUserIdRemove)
    ensures reply == UserListPrompt(store.Load().allowedUsers)
  {
    chat.currentState := Some(AwaitUserIdRemove);
    var u := store.Load();
    reply := UserListPrompt(u.allowedUsers);
    next := Await(AwaitUserIdRemove);
  }

  /** process_user_id: loads the users, edits and saves the list as `ProcessSpec` says, clears the slot. */
  method ProcessUserId(chat: ChatData, store: UserStore, userId: int) returns (next: Next, reply: Reply)
    modifies chat, store
    ensures var o := ProcessSpec(old(chat.currentState), old(store.Load()), userId);
      && chat.currentState == o.state && next == o.next && reply == o.reply
      && store.file == (if o.saved.Some? then SaveUsers(o.saved.value) else old(store.file))
      && store.Load() == After(old(store.Load()), o)
  {
    var u := store.Load();
    match chat.currentState {
      case Some(AwaitUserIdAdd) =>
        if userId in u.allowedUsers {
          reply := AlreadyExists;
        } else {
          store.Save(u.(allowedUsers := u.allowedUsers + [userId]));
          reply := Added(userId);
        }
        chat.currentState := None;
        next := End;
      case Some(AwaitUserIdRemove) =>
        if userId in u.allowedUsers {
          store.Save(u.(allowedUsers := RemoveFirst(u.allowedUsers, userId)));
          reply := Removed(userId);
        } else {
          reply := NotFound;
        }
        chat.currentState := None;
        next := End;
      case None =>
        reply := UnknownState;
        next := End;
    }
  }

  /** handle_user_id_input: parses the text with `int`, then processes the id or re-prompts. */
  method HandleUserIdInput(chat: ChatData, store: UserStore, text: string) returns (next: Next, reply: Reply)
    modifies chat, store
    ensures var o := InputSpec(old(chat.currentState), old(store.Load()), text);
      && chat.currentState == o.state && next == o.next && reply == o.reply
      && store.file == (if o.saved.Some? then SaveUsers(o.saved.value) else old(store.file))
  {
    var parsed := ParseInt(text);
    if parsed.None? {
      reply := InvalidId;
      next := Resume(chat.currentState);
    } else {
      next, reply := ProcessUserId(chat, store, parsed.value);
    }
  }

  /**
   * cancel as written: the slot is cleared, then the reply refers to the
   * undefined name `keyboard`, so the handler raises `NameError` and never
   * returns `END`.
   */
  method CancelAsWritten(chat: ChatData) returns (result: HandlerResult)
    modifies chat
    ensures chat.currentState == None
    ensures result == Raised
  {
    if chat.currentState.Some? {
      chat.currentState := None;
    }
    result := Raised;
  }

  /** cancel as intended: the slot is cleared from any state and the conversation ends. */
  method Cancel(chat: ChatData) returns (result: HandlerResult)
    modifies chat
    ensures chat.currentState == None
    ensures result == Returned(End)
  {
    if chat.currentState.Some? {
      chat.currentState := None;
    }
    result := Returned(End);
  }

  /**
   * After the failed cancel the conversation is still waiting for an id, but
   * the slot is empty: whatever is sent next is answered "unknown state" or
   * "invalid ID", the conversation ends, and nothing is saved.
   */
  lemma InputAfterFailedCancel(u: UserData, text: string)
    ensures var o := InputSpec(None, u, text);
      && o.state == None && o.saved == None && o.next == End
      && (o.reply == UnknownState || o.reply == InvalidId)
  {
  }
}
