# budget-bot core, modelled in Dafny

budget-bot is a Telegram bot that answers with three totals (income,
consumption, cash) read from a Google spreadsheet, and lets an administrator
manage the list of users allowed to ask. This project models the parts of
`bot.py` with real state and proves what they guarantee:

- **the cell cache** (`value_cache.dfy`, module `ValueCache`): one entry
  `{sheet, pos, value}` per metric key, all unset at start. `init_cache`
  locates each key's cell once at startup: it stores the cell to the right of
  the key's search phrase. `update_cache` re-reads the located cells on every
  tick. `get_result` renders one reply line per key from the cache alone. The
  spreadsheet client is injected as pure functions: a `Spreadsheet` for
  startup and a `Reader` for each tick.
- **the access list** (`access.dfy`, module `Access`): the record
  `load_users` returns, with its fallback to the configured admin and an
  empty list, the `check_access` test, and the two list edits: append, and
  `list.remove` of the first occurrence.
- **the admin conversation** (`conversation.dfy`, module `Conversation`):
  each chat has a `current_state` slot, and the handlers `add_user`,
  `remove_user`, `handle_user_id_input`, `process_user_id` and `cancel`
  work on that slot and on the allowed-users file. Pure transition functions
  (`ProcessSpec`, `InputSpec`) state each step. The imperative handlers over
  the `ChatData` and `UserStore` objects are proved to implement them.
- **`int()` on the message text** (`decimal.dfy`, module `Decimal`): strip
  surrounding whitespace, then an optional sign and ASCII digits. It is proved
  against the decimal rendering `ShowInt`.
- `config.dfy` holds the three keys in declaration order, with their sheet
  names, search phrases and titles, and the placeholder `Н/Д`.
  `wrappers.dfy` holds `Option`.

Where the code's behaviour might surprise, the model follows the code:
- `init_cache` does not skip keys that are already located. It runs once at
  startup, and a second run would overwrite them.
- A cell read that raises inside `update_cache` ends the whole tick. Later
  keys keep their old values, so failures are not isolated per key.
- A failed `save_users` is only logged, never reported to the admin.
- `allowed_users` is a list, not a set.
- An id sent with no pending state gets the reply "unknown state".
- `cancel` raises instead of acknowledging (see Findings).

## Model

| member | source | states |
|---|---|---|
| ValueCache.Cache.constructor | bot.py:85-87 | every key's entry starts with sheet, pos and value all unset |
| ValueCache.Resolve | bot.py:169-187 | a key's update is complete (sheet, the cell right of the found phrase, the value read there) or absent. It is absent exactly when no such entry exists, i.e. a lookup, search or read raised. It is the only entry that fits |
| ValueCache.Cache.InitCache | bot.py:164-190 | with no spreadsheet nothing changes. Otherwise each key independently becomes its resolved entry or keeps its old one, and coherence is preserved |
| ValueCache.InitAsWritten | bot.py:169-190 | the loop that stops at the first failing key: each entry is unchanged or is its key's resolved entry, and keys outside the pass are untouched |
| ValueCache.InitAsWrittenAt | bot.py:169-190 | under that loop, the j-th key is located exactly when it and every key before it resolve; otherwise it is untouched |
| ValueCache.MissingIncomePhraseStopsLaterKeys | bot.py:184-190 | with only the income phrase missing, consumption could be located but that loop leaves it unresolved |
| ValueCache.Cache.InitCacheAsWritten | bot.py:164-190 | with no spreadsheet nothing changes; otherwise the cache becomes `InitAsWritten` over the keys in order, and stays coherent |
| ValueCache.Refresh | bot.py:193-202 | a tick never changes any sheet or pos. Each entry is unchanged or holds the value the reader returned at its own position. Keys outside the pass are untouched |
| ValueCache.RefreshAt | bot.py:196-202 | the j-th key takes the fresh value exactly when it is located and no read up to and including its own raised. Otherwise it keeps its old entry, because one failed read aborts the rest of the tick |
| ValueCache.Ticks | bot.py:193-202 | over any number of ticks, locations never change and a key that was never located keeps its all-unset entry |
| ValueCache.Cache.UpdateCache | bot.py:193-202 | one tick updates the cache as `Refresh` over the keys in order and keeps it coherent |
| ValueCache.Cache.GetResult | bot.py:225-234 | the reply has one line per key, in configuration order, reading `Всего {title}: {value}`. An unlocated key shows `Н/Д`. The cache is only read. When no value holds a line break, splitting the text gives those lines back |
| ValueCache.SplitJoin | bot.py:234 | splitting the `"\n"`-joined lines gives the lines back when none holds a line break |
| ValueCache.LineIsOneLine | bot.py:227-232 | a rendered line holds no line break when the cached value holds none |
| Decimal.ParseInt | bot.py:285 | a number is returned exactly when the stripped text is one or more ASCII digits, optionally after a sign. A negative result comes from a leading minus |
| Decimal.ParseShowInt | bot.py:285 | parsing the decimal rendering of any integer gives that integer back |
| Decimal.ParseIgnoresPadding | bot.py:285 | surrounding whitespace does not change what `int` returns |
| Access.LoadUsers | bot.py:103-117 | a missing or unusable file yields the configured admin and an empty list. A stored file's missing fields default the same way |
| Access.LoadAfterSave | bot.py:120-126 | the next load returns exactly what was saved |
| Access.CheckAccess | bot.py:129-139 | access is granted iff the caller is the admin or in the list. A denial carries the caller's own id |
| Access.FallbackAdmitsOnlyAdmin | bot.py:105-107 | without a usable file only the configured admin is admitted |
| Access.FirstIndex | bot.py:316 | the index removed is an occurrence of the id with none before it |
| Access.RemoveFirst | bot.py:316 | `list.remove` deletes exactly the first occurrence: the multiset loses one copy, the order of the rest is kept |
| Access.RemoveFirstFromDistinct | bot.py:315-318 | removing from a list without duplicates leaves none behind and no copy of the id |
| Access.AppendAbsent | bot.py:304-308 | appending an absent id keeps a list free of duplicates |
| Conversation.ProcessSpec | bot.py:293-326 | in an await state the slot is cleared and END returned whatever the list did. An add saves only an absent id, appended once. A remove saves only a present id, one copy fewer. With no state the reply is "unknown state" and nothing is saved. The admin id is never changed |
| Conversation.InputSpec | bot.py:281-290 | text `int` rejects gets "invalid ID", keeps the slot, saves nothing and returns the pending state. A number is processed as `ProcessSpec` |
| Conversation.AddNeverDuplicates | bot.py:303-309 | after an add the id occurs once if it was absent, or as often as before. Other ids are unchanged, a duplicate-free list stays so, and the id is admitted |
| Conversation.SecondAddIsNoop | bot.py:303-305 | repeating an add reports "already exists" and saves nothing |
| Conversation.RemoveRevokesAccess | bot.py:314-318 | removing from a duplicate-free list denies the id afterwards unless it is the admin, and keeps the list duplicate-free |
| Conversation.RemoveLeavesSecondCopy | bot.py:316 | whenever the list holds the id at least twice, one removal leaves that user admitted |
| Conversation.AddFlowByText | bot.py:281-309 | in the add state, the text of an absent id appends it, saves, replies "added" and ends |
| Conversation.UserStore.Save | bot.py:120-126 | the file holds the saved data, and the next load returns it |
| Conversation.AddUser | bot.py:240-258 | the slot is overwritten with the add state, which is returned. The reply lists the current users. The file is untouched |
| Conversation.RemoveUser | bot.py:261-278 | the slot is overwritten with the remove state, which is returned. The reply lists the current users. The file is untouched |
| Conversation.ProcessUserId | bot.py:293-326 | slot, return value, reply and file change exactly as `ProcessSpec` says for the loaded users |
| Conversation.HandleUserIdInput | bot.py:281-290 | slot, return value, reply and file change exactly as `InputSpec` says |
| Conversation.CancelAsWritten | bot.py:329-336 | the slot is cleared from any state, then the handler raises and never returns END. The file is untouched |
| Conversation.Cancel | bot.py:329-336 | the slot is cleared from any state and END is returned. The file is untouched |
| Conversation.InputAfterFailedCancel | bot.py:281-290 | after the failed cancel, the next text gets "unknown state" or "invalid ID", ends the conversation and saves nothing |

## Left out

- Telegram transport is not modelled: message delivery, reply keyboards and
  `create_keyboard` (bot.py:90-100). The same goes for the handler
  registration in `main` (bot.py:377-433) and `handle_buttons`' routing,
  including its admin-only gate (bot.py:359-374). Replies are a `Reply`
  datatype rather than their exact texts. The exception is the totals reply,
  which is rendered exactly.
- The users listing in the `add_user`/`remove_user` prompt is represented by
  the list itself, not by its emoji-decorated text.
- The Google Sheets client is not modelled: credentials, `open_by_key` and
  gspread's search semantics such as case-insensitive matching. They are the
  injected `Spreadsheet` and `Reader` functions. A failed connection is
  `None`.
- JSON reading and writing is not modelled. The file is a `UsersFile` value,
  and conversion errors of `int(u)` count as an unusable file. JSON entries
  given as numeric strings are taken as their ints.
- Conversation.UserStore.Save: write errors are not modelled, because
  `save_users` only logs them. The save always succeeds.
- The job-queue schedule is not modelled: the interval, the 10-second first
  delay and the logging setup (bot.py:339-356). A tick is one `UpdateCache`
  call, and `Ticks` is a sequence of them.
- Concurrency is not modelled. The handlers are asynchronous and share the
  cache and the file without locks, and interleavings are not modelled.
- Environment-driven configuration is not modelled (bot.py:22-59). The admin
  id is a parameter (`configAdmin`).
- ValueCache.Cache.InitCache: assumes the installed gspread defines
  `exceptions.CellNotFound`, so that the clause at bot.py:184 can be
  evaluated and each key's failure is caught on its own. With a gspread that
  lacks it, the loop stops at the first failing key; that reading is
  `InitCacheAsWritten` (see Findings).
- Decimal.ParseInt: omits `_` digit separators, non-ASCII decimal digits and
  non-ASCII whitespace, which Python's `int` also accepts.
- The numeric values of the states (1, 2) and of `ConversationHandler.END`
  are represented by the `AwaitState` and `Next` datatypes.

## Findings

| source | as written | input that shows it | evidently intended | confidence | as-written member | corrected member |
|---|---|---|---|---|---|---|
| bot.py:329-336 | `cancel` deletes the state, then passes the undefined name `keyboard` to `reply_text`, so it raises `NameError` and never returns `END`; the framework's conversation stays in its await state while the slot is empty | the `/cancel` command in a chat waiting for an id | acknowledge the cancellation and return `END` | high, not executed | Conversation.CancelAsWritten | Conversation.Cancel |
| bot.py:169-190 | with a gspread that has no `exceptions.CellNotFound` (its `find` returns `None` instead of raising), any per-key failure makes the `except gspread.exceptions.CellNotFound` clause itself raise `AttributeError`; the outer handler catches it and the later keys are never located (`MissingIncomePhraseStopsLaterKeys`) | the `income` phrase missing from its sheet while the other two phrases exist | a missing phrase or a failed call for one key leaves the others to be located | medium, not executed; depends on the gspread version installed, which is not part of this model | ValueCache.Cache.InitCacheAsWritten | ValueCache.Cache.InitCache |
