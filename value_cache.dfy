/**
 * The cell cache of bot.py: one entry `{sheet, pos, value}` per metric key,
 * all unset at start (bot.py:85-87); `InitCache` locates each key's cell once
 * (init_cache, bot.py:164-190), `UpdateCache` re-reads the located cells on
 * every tick (update_cache, bot.py:193-202), and `GetResult` renders the
 * reply from the cached values only (get_result, bot.py:219-237).
 *
 * The spreadsheet client is injected: a `Spreadsheet` value for the startup
 * connection and a `Reader` for the cell reads of one refresh tick.
 */
module ValueCache {
  import opened Wrappers
  import opened Config

  /** A cell position, (row, column), as gspread numbers them. */
  datatype Pos = Pos(row: int, col: int)

  /** A worksheet handle, identified by its name. */
  type Sheet = string

  /** What a spreadsheet call raised: gspread's `CellNotFound`, or any other exception. */
  datatype Error = CellNotFound | Failure

  datatype Result<T> = Ok(value: T) | Err(error: Error)

  /** The opened spreadsheet: worksheet lookup by name, case-insensitive phrase search, cell read. */
  datatype Spreadsheet = Spreadsheet(
    worksheet: string -> Result<Sheet>,
    find: (Sheet, string) -> Result<Pos>,
    cell: (Sheet, Pos) -> Result<Option<string>>)

  /** The cell reads available to one refresh tick. */
  type Reader = (Sheet, Pos) -> Result<Option<string>>

  /** One cache entry; a read cell may be empty, so `value` is optional even when located. */
  datatype Entry = Entry(sheet: Option<Sheet>, pos: Option<Pos>, value: Option<string>)
  {
    /** update_cache's test `pos and sheet`. */
    predicate Resolved()
    {
      sheet.Some? && pos.Some?
    }

    /** Sheet and position are set together, and there is no value without them. */
    predicate Coherent()
    {
      sheet.Some? == pos.Some? && (pos.None? ==> value.None?)
    }
  }

  const Unresolved: Entry := Entry(None, None, None)

  type Entries = map<MetricKey, Entry>

  /** Every metric key has an entry. */
  predicate Total(es: Entries)
  {
    forall k: MetricKey :: k in es
  }

  predicate AllCoherent(es: Entries)
    requires Total(es)
  {
    forall k: MetricKey :: es[k].Coherent()
  }

  // ---------------------------------------------------------------- resolution

  /**
   * `e` is a located entry for `k` whose position is the cell to the right of
   * where `k`'s search phrase was found, on `k`'s worksheet, and whose value
   * is what that cell holds.
   */
  predicate RightOfPhrase(ss: Spreadsheet, k: MetricKey, e: Entry)
  {
    && e.sheet.Some? && e.pos.Some?
    && ss.worksheet(SheetName(k)) == Ok(e.sheet.value)
    && ss.find(e.sheet.value, SearchPhrase(k)) == Ok(Pos(e.pos.value.row, e.pos.value.col - 1))
    && ss.cell(e.sheet.value, e.pos.value) == Ok(e.value)
  }

  /**
   * The update init_cache applies for `k`, or None when the worksheet lookup,
   * the search (`CellNotFound` included) or the read raised; the update dict
   * is complete before it is applied, so a failure applies nothing.
   */
  function Resolve(ss: Spreadsheet, k: MetricKey): (r: Option<Entry>)
    ensures r.Some? ==> r.value.Resolved() && r.value.Coherent() && RightOfPhrase(ss, k, r.value)
    ensures r.Some? ==> forall e :: RightOfPhrase(ss, k, e) ==> e == r.value
    ensures r.None? ==> forall e :: !RightOfPhrase(ss, k, e)
  {
    match ss.worksheet(SheetName(k))
    case Err(_) => None
    case Ok(ws) =>
      match ss.find(ws, SearchPhrase(k))
      case Err(_) => None
      case Ok(c) =>
        var p := Pos(c.row, c.col + 1);
        match ss.cell(ws, p)
        case Err(_) => None
        case Ok(v) => Some(Entry(Some(ws), Some(p), v))
  }

  /** The contents of `cell_cache` at start: every key unresolved. */
  function InitialEntries(): (es: Entries)
    ensures Total(es) && forall k: MetricKey :: es[k] == Unresolved
  {
    var m := map[Income := Unresolved, Consumption := Unresolved, Cash := Unresolved];
    AllKeysUnresolved(m);
    m
  }

  lemma AllKeysUnresolved(m: Entries)
    requires Income in m && Consumption in m && Cash in m
    requires m[Income] == m[Consumption] == m[Cash] == Unresolved
    ensures Total(m) && forall k: MetricKey :: m[k] == Unresolved
  {
    forall k: MetricKey
      ensures k in m && m[k] == Unresolved
    {
      match k
      case Income =>
      case Consumption =>
      case Cash =>
    }
  }

  /**
   * init_cache's loop when the installed gspread has no
   * `exceptions.CellNotFound`: then every per-key failure makes the
   * `except gspread.exceptions.CellNotFound` clause itself raise, the outer
   * handler catches that, and the keys after the first failing one are never
   * tried.
   */
  function InitAsWritten(es: Entries, ks: seq<MetricKey>, ss: Spreadsheet): (r: Entries)
    requires Total(es)
    ensures Total(r)
    ensures forall k: MetricKey :: r[k] == es[k] || Resolve(ss, k) == Some(r[k])
    ensures forall k: MetricKey :: k !in ks ==> r[k] == es[k]
    decreases |ks|
  {
    if ks == [] then es
    else
      match Resolve(ss, ks[0])
      case None => es
      case Some(e) => InitAsWritten(es[ks[0] := e], ks[1..], ss)
  }

  /** Each of the first `n` keys of `ks` resolves. */
  predicate ResolvesThrough(ss: Spreadsheet, ks: seq<MetricKey>, n: nat)
    requires n <= |ks|
  {
    forall i :: 0 <= i < n ==> Resolve(ss, ks[i]).Some?
  }

  /**
   * The exact effect of that loop on the `j`-th key: it is located exactly
   * when it and every key before it resolve; otherwise it is untouched.
   */
  lemma {:induction false} InitAsWrittenAt(es: Entries, ks: seq<MetricKey>, ss: Spreadsheet, j: nat)
    requires Total(es) && NoDup(ks) && j < |ks|
    ensures InitAsWritten(es, ks, ss)[ks[j]] ==
      if ResolvesThrough(ss, ks, j + 1) then Resolve(ss, ks[j]).value else es[ks[j]]
  {
    var rest := ks[1..];
    assert NoDup(rest);
    assert forall i :: 0 <= i < |rest| ==> rest[i] == ks[i + 1];
    match Resolve(ss, ks[0])
    case None =>
    case Some(e) =>
      var es' := es[ks[0] := e];
      if j == 0 {
        assert ks[0] !in rest;
      } else {
        InitAsWrittenAt(es', rest, ss, j - 1);
        assert ResolvesThrough(ss, rest, j) <==> ResolvesThrough(ss, ks, j + 1);
      }
  }

  /** A spreadsheet in which only the income phrase is missing. */
  function IncomePhraseMissing(): Spreadsheet
  {
    Spreadsheet(
      name => Ok(name),
      (sheet, phrase) => if phrase == SearchPhrase(Income) then Err(CellNotFound) else Ok(Pos(1, 1)),
      (sheet, p) => Ok(Some("0")))
  }

  /**
   * With only the income phrase missing, the consumption cell can be located,
   * yet the loop that stops at the first failure leaves it unresolved.
   */
  lemma MissingIncomePhraseStopsLaterKeys()
    ensures Resolve(IncomePhraseMissing(), Consumption).Some?
    ensures InitAsWritten(InitialEntries(), Keys, IncomePhraseMissing())[Consumption] == Unresolved
  {
    var ss := IncomePhraseMissing();
    assert SearchPhrase(Consumption)[6] != SearchPhrase(Income)[6];
    InitAsWrittenAt(InitialEntries(), Keys, ss, 1);
    assert Resolve(ss, Keys[0]).None?;
  }

  // ------------------------------------------------------------------- refresh

  /** Reading `e`'s cell raises during a tick. */
  predicate ReadFails(e: Entry, read: Reader)
  {
    e.Resolved() && read(e.sheet.value, e.pos.value).Err?
  }

  /**
   * The entries after one update_cache pass over `ks`: each located entry gets
   * the value read at its position; the first read that raises ends the pass,
   * so later keys keep what they had.
   */
  function Refresh(es: Entries, ks: seq<MetricKey>, read: Reader): (r: Entries)
    requires Total(es)
    ensures Total(r)
    ensures forall k: MetricKey :: r[k].sheet == es[k].sheet && r[k].pos == es[k].pos
    ensures forall k: MetricKey :: r[k] == es[k] || (es[k].Resolved() && read(es[k].sheet.value, es[k].pos.value) == Ok(r[k].value))
    ensures forall k: MetricKey :: k !in ks ==> r[k] == es[k]
    decreases |ks|
  {
    if ks == [] then es
    else
      var e := es[ks[0]];
      if e.pos.Some? && e.sheet.Some? then
        match read(e.sheet.value, e.pos.value)
        case Err(_) => es
        case Ok(v) => Refresh(es[ks[0] := e.(value := v)], ks[1..], read)
      else
        Refresh(es, ks[1..], read)
  }

  /** No read for the first `n` keys of `ks` raises. */
  predicate NoFailureBefore(es: Entries, ks: seq<MetricKey>, read: Reader, n: nat)
    requires Total(es) && n <= |ks|
  {
    forall i :: 0 <= i < n ==> !ReadFails(es[ks[i]], read)
  }

  /**
   * The exact effect of a pass on the `j`-th key: it takes the value read at
   * its position exactly when it is located and no read up to and including
   * its own raised; otherwise it is untouched.
   */
  lemma {:induction false} RefreshAt(es: Entries, ks: seq<MetricKey>, read: Reader, j: nat)
    requires Total(es) && NoDup(ks) && j < |ks|
    ensures var e := es[ks[j]];
      Refresh(es, ks, read)[ks[j]] ==
        if e.Resolved() && NoFailureBefore(es, ks, read, j + 1)
        then e.(value := read(e.sheet.value, e.pos.value).value)
        else e
  {
    var e0 := es[ks[0]];
    var rest := ks[1..];
    assert NoDup(rest);
    assert forall i :: 0 <= i < |rest| ==> rest[i] == ks[i + 1];
    if e0.pos.Some? && e0.sheet.Some? {
      match read(e0.sheet.value, e0.pos.value)
      case Err(_) =>
        assert ReadFails(es[ks[0]], read);
      case Ok(v) =>
        var es' := es[ks[0] := e0.(value := v)];
        if j == 0 {
          assert ks[0] !in rest;
        } else {
          RefreshAt(es', rest, read, j - 1);
          assert forall i :: 0 <= i < |rest| ==> es'[rest[i]] == es[ks[i + 1]];
          assert NoFailureBefore(es', rest, read, j) <==> NoFailureBefore(es, ks, read, j + 1) by {
            assert !ReadFails(es[ks[0]], read);
          }
        }
    } else {
      if j == 0 {
        assert ks[0] !in rest;
      } else {
        RefreshAt(es, rest, read, j - 1);
        assert NoFailureBefore(es, rest, read, j) <==> NoFailureBefore(es, ks, read, j + 1) by {
          assert !ReadFails(es[ks[0]], read);
        }
      }
    }
  }

  /** The entries after a sequence of refresh ticks, one reader per tick. */
  function Ticks(es: Entries, readers: seq<Reader>): (r: Entries)
    requires Total(es)
    ensures Total(r)
    ensures forall k: MetricKey :: r[k].sheet == es[k].sheet && r[k].pos == es[k].pos
    ensures forall k: MetricKey :: !es[k].Resolved() ==> r[k] == es[k]
    decreases |readers|
  {
    if readers == [] then es else Ticks(Refresh(es, Keys, readers[0]), readers[1..])
  }

  // --------------------------------------------------------------------- reply

  /** `value or TEXTS["na_value"]`: an absent or empty value shows the placeholder. */
  function Shown(v: Option<string>): (s: string)
    ensures s != ""
  {
    if v.Some? && v.value != "" then v.value else NaValue
  }

  /** `TEXTS["response_template"]` filled with `k`'s title and the shown value. */
  function Line(k: MetricKey, v: Option<string>): string
  {
    "Всего " + Title(k) + ": " + Shown(v)
  }

  /** Python's `"\n".join(ls)`. */
  function JoinLines(ls: seq<string>): string
  {
    if ls == [] then ""
    else if |ls| == 1 then ls[0]
    else ls[0] + "\n" + JoinLines(ls[1..])
  }

  /** Python's `s.split("\n")`, the reading a chat client gives the reply. */
  function SplitLines(s: string): (r: seq<string>)
    ensures |r| >= 1
  {
    if s == [] then [""]
    else
      var rest := SplitLines(s[1..]);
      if s[0] == '\n' then [""] + rest else [[s[0]] + rest[0]] + rest[1..]
  }

  lemma {:induction false} SplitPrefix(a: string, t: string)
    requires '\n' !in a
    ensures SplitLines(a + t) == [a + SplitLines(t)[0]] + SplitLines(t)[1..]
  {
    if a != [] {
      assert (a + t)[0] == a[0];
      assert (a + t)[1..] == a[1..] + t;
      SplitPrefix(a[1..], t);
      assert [a[0]] + (a[1..] + SplitLines(t)[0]) == a + SplitLines(t)[0];
    } else {
      var r := SplitLines(t);
      assert a + t == t && a + r[0] == r[0];
      assert [r[0]] + r[1..] == r;
    }
  }

  /** Splitting joined lines that contain no line break gives the lines back. */
  lemma {:induction false} SplitJoin(ls: seq<string>)
    requires ls != []
    requires forall i :: 0 <= i < |ls| ==> '\n' !in ls[i]
    ensures SplitLines(JoinLines(ls)) == ls
  {
    if |ls| == 1 {
      SplitPrefix(ls[0], "");
      assert ls[0] + "" == ls[0];
    } else {
      SplitJoin(ls[1..]);
      var t := "\n" + JoinLines(ls[1..]);
      assert ls[0] + "\n" + JoinLines(ls[1..]) == ls[0] + t;
      SplitPrefix(ls[0], t);
      assert t[1..] == JoinLines(ls[1..]);
      assert SplitLines(t) == [""] + ls[1..];
      assert ls[0] + "" == ls[0];
    }
  }

  predicate NoLineBreak(v: Option<string>)
  {
    v.None? || '\n' !in v.value
  }

  lemma LineIsOneLine(k: MetricKey, v: Option<string>)
    requires NoLineBreak(v)
    ensures '\n' !in Line(k, v)
  {
    var s := Shown(v);
    assert '\n' !in s by {
      if s == NaValue { assert forall i :: 0 <= i < |NaValue| ==> NaValue[i] != '\n'; }
    }
    var head := "Всего " + Title(k) + ": ";
    assert forall i :: 0 <= i < |head| ==> head[i] != '\n' by {
      match k
      case Income =>
      case Consumption =>
      case Cash =>
    }
    assert Line(k, v) == head + s;
  }

  // --------------------------------------------------------------------- cache

  /** The global `cell_cache`. */
  class Cache {
    var entries: Entries

    ghost predicate Valid()
      reads this
    {
      Total(entries) && AllCoherent(entries)
    }

    /** Every key starts with sheet, pos and value all unset. */
    constructor ()
      ensures Valid()
      ensures forall k: MetricKey :: entries[k] == Unresolved
    {
      entries := InitialEntries();
    }

    /**
     * init_cache: with no connection nothing changes; otherwise each key in
     * turn is either fully located (sheet, the cell right of the phrase, its
     * value) or left exactly as it was, independently of the other keys.
     */
    method InitCache(conn: Option<Spreadsheet>)
      requires Valid()
      modifies this
      ensures Valid()
      ensures conn.None? ==> entries == old(entries)
      ensures conn.Some? ==> forall k: MetricKey :: entries[k] == Resolve(conn.value, k).GetOr(old(entries)[k])
    {
      if conn.None? {
        return;
      }
      var ss := conn.value;
      for i := 0 to |Keys|
        invariant Valid()
        invariant forall j :: 0 <= j < i ==> entries[Keys[j]] == Resolve(ss, Keys[j]).GetOr(old(entries)[Keys[j]])
        invariant forall j :: i <= j < |Keys| ==> entries[Keys[j]] == old(entries)[Keys[j]]
      {
        var k := Keys[i];
        var ws := ss.worksheet(SheetName(k));
        if ws.Ok? {
          var cell := ss.find(ws.value, SearchPhrase(k));
          if cell.Ok? {
            var p := Pos(cell.value.row, cell.value.col + 1);
            var v := ss.cell(ws.value, p);
            if v.Ok? {
              entries := entries[k := Entry(Some(ws.value), Some(p), v.value)];
            }
          }
        }
      }
      forall k: MetricKey
        ensures entries[k] == Resolve(ss, k).GetOr(old(entries)[k])
      {
        assert Keys[IndexOf(k)] == k;
      }
    }

    /**
     * init_cache as written, with a gspread that lacks `CellNotFound`: the
     * keys are located in order until the first one whose lookup, search or
     * read raises, and the rest are left as they were.
     */
    method InitCacheAsWritten(conn: Option<Spreadsheet>)
      requires Valid()
      modifies this
      ensures Valid()
      ensures conn.None? ==> entries == old(entries)
      ensures conn.Some? ==> entries == InitAsWritten(old(entries), Keys, conn.value)
    {
      if conn.None? {
        return;
      }
      var ss := conn.value;
      var i := 0;
      while i < |Keys|
        invariant 0 <= i <= |Keys|
        invariant Valid()
        invariant InitAsWritten(entries, Keys[i..], ss) == InitAsWritten(old(entries), Keys, ss)
      {
        var k := Keys[i];
        assert Keys[i..][0] == k && Keys[i..][1..] == Keys[i + 1..];
        var ws := ss.worksheet(SheetName(k));
        if ws.Err? {
          assert Resolve(ss, k).None?;
          break;
        }
        var cell := ss.find(ws.value, SearchPhrase(k));
        if cell.Err? {
          assert Resolve(ss, k).None?;
          break;
        }
        var p := Pos(cell.value.row, cell.value.col + 1);
        var v := ss.cell(ws.value, p);
        if v.Err? {
          assert Resolve(ss, k).None?;
          break;
        }
        var e := Entry(Some(ws.value), Some(p), v.value);
        assert Resolve(ss, k) == Some(e);
        entries := entries[k := e];
        i := i + 1;
      }
    }

    /** update_cache: one refresh tick, reading located cells in key order until a read raises. */
    method UpdateCache(read: Reader)
      requires Valid()
      modifies this
      ensures Valid()
      ensures entries == Refresh(old(entries), Keys, read)
    {
      var i := 0;
      while i < |Keys|
        invariant 0 <= i <= |Keys|
        invariant Valid()
        invariant Refresh(entries, Keys[i..], read) == Refresh(old(entries), Keys, read)
      {
        var k := Keys[i];
        var e := entries[k];
        if e.pos.Some? && e.sheet.Some? {
          var v := read(e.sheet.value, e.pos.value);
          if v.Err? {
            break;
          }
          entries := entries[k := e.(value := v.value)];
        }
        i := i + 1;
      }
    }

    /**
     * get_result's reply: one line per key in configuration order, the
     * placeholder for a key that is not located, and, when no cached value
     * holds a line break, exactly those lines once the text is split.
     */
    method GetResult() returns (lines: seq<string>, text: string)
      requires Valid()
      ensures |lines| == |Keys|
      ensures forall i :: 0 <= i < |Keys| ==> lines[i] == Line(Keys[i], entries[Keys[i]].value)
      ensures forall i :: 0 <= i < |Keys| && !entries[Keys[i]].Resolved() ==>
        lines[i] == "Всего " + Title(Keys[i]) + ": " + NaValue
      ensures text == JoinLines(lines)
      ensures (forall k: MetricKey :: NoLineBreak(entries[k].value)) ==> SplitLines(text) == lines
    {
      lines := [];
      for i := 0 to |Keys|
        invariant |lines| == i
        invariant forall j :: 0 <= j < i ==> lines[j] == Line(Keys[j], entries[Keys[j]].value)
      {
        var k := Keys[i];
        lines := lines + [Line(k, entries[k].value)];
      }
      text := JoinLines(lines);
      if forall k: MetricKey :: NoLineBreak(entries[k].value) {
        forall i | 0 <= i < |lines|
          ensures '\n' !in lines[i]
        {
          LineIsOneLine(Keys[i], entries[Keys[i]].value);
        }
        SplitJoin(lines);
      }
    }
  }
}
