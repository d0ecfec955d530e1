/**
 * The access list of bot.py: the record `load_users` returns (bot.py:103-117),
 * what `save_users` writes (bot.py:120-126), the `check_access` test
 * (bot.py:129-139), and the two list edits `process_user_id` performs on
 * `allowed_users`: append at the end and `list.remove` of the first
 * occurrence. `allowed_users` is a list, so it is a `seq<int>` here.
 */
module Access {
  import opened Wrappers

  datatype UserData = UserData(adminId: int, allowedUsers: seq<int>)

  /**
   * The allowed-users file as `load_users` meets it: absent, unusable (any
   * exception while reading, decoding or converting it), or a JSON object
   * whose two keys may each be missing.
   */
  datatype UsersFile = Missing | Corrupt | Stored(adminId: Option<int>, allowedUsers: Option<seq<int>>)

  /**
   * load_users: a missing or unusable file gives the configured admin and an
   * empty list; a stored file gives its fields, each defaulting the same way.
   */
  function LoadUsers(configAdmin: int, f: UsersFile): (u: UserData)
    ensures !f.Stored? ==> u == UserData(configAdmin, [])
    ensures f.Stored? && f.adminId.None? ==> u.adminId == configAdmin
    ensures f.Stored? && f.allowedUsers.None? ==> u.allowedUsers == []
  {
    match f
    case Stored(a, us) => UserData(a.GetOr(configAdmin), us.GetOr([]))
    case _ => UserData(configAdmin, [])
  }

  /** save_users: the file now holds both fields of `u`. */
  function SaveUsers(u: UserData): UsersFile
  {
    Stored(Some(u.adminId), Some(u.allowedUsers))
  }

  /** What was saved is what the next load returns, whatever the configured admin. */
  lemma LoadAfterSave(configAdmin: int, u: UserData)
    ensures LoadUsers(configAdmin, SaveUsers(u)) == u
  {
  }

  /** The admission test of check_access. */
  predicate Admits(u: UserData, userId: int)
  {
    userId == u.adminId || userId in u.allowedUsers
  }

  /** check_access's outcome; a denial echoes the caller's id in `TEXTS["access_denied"]`. */
  datatype Verdict = Granted | Denied(userId: int)

  /**
   * check_access: reads the file afresh and grants exactly the admin and the
   * listed users; everyone else is denied with their own id.
   */
  function CheckAccess(configAdmin: int, f: UsersFile, userId: int): (v: Verdict)
    ensures v.Granted? <==> Admits(LoadUsers(configAdmin, f), userId)
    ensures v.Denied? ==> v.userId == userId
  {
    var u := LoadUsers(configAdmin, f);
    if userId != u.adminId && userId !in u.allowedUsers then Denied(userId) else Granted
  }

  /** Without a usable file only the configured admin gets in. */
  lemma FallbackAdmitsOnlyAdmin(configAdmin: int, f: UsersFile, userId: int)
    requires f.Missing? || f.Corrupt?
    ensures CheckAccess(configAdmin, f, userId).Granted? <==> userId == configAdmin
  {
  }

  /** The index `list.remove` deletes: the first occurrence of `x`. */
  function FirstIndex(xs: seq<int>, x: int): (i: nat)
    requires x in xs
    ensures i < |xs| && xs[i] == x && x !in xs[..i]
  {
    if xs[0] == x then 0
    else
      var i := FirstIndex(xs[1..], x);
      assert xs[..i + 1] == [xs[0]] + xs[1..][..i];
      i + 1
  }

  /** Python's `xs.remove(x)` for an `x` that is present. */
  function RemoveFirst(xs: seq<int>, x: int): (r: seq<int>)
    requires x in xs
    ensures r == xs[..FirstIndex(xs, x)] + xs[FirstIndex(xs, x) + 1..]
    ensures multiset(r) == multiset(xs) - multiset{x}
  {
    var i := FirstIndex(xs, x);
    assert xs == xs[..i] + [x] + xs[i + 1..];
    xs[..i] + xs[i + 1..]
  }

  /** Removing from a list without duplicates leaves no copy behind. */
  lemma RemoveFirstFromDistinct(xs: seq<int>, x: int)
    requires x in xs && NoDup(xs)
    ensures NoDup(RemoveFirst(xs, x))
    ensures x !in RemoveFirst(xs, x)
  {
    var i := FirstIndex(xs, x);
    var r := RemoveFirst(xs, x);
    forall j | 0 <= j < |r|
      ensures r[j] == if j < i then xs[j] else xs[j + 1]
    {
    }
  }

  /** Appending an absent element keeps a list free of duplicates. */
  lemma AppendAbsent(xs: seq<int>, x: int)
    requires NoDup(xs) && x !in xs
    ensures NoDup(xs + [x])
  {
  }
}
