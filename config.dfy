/**
 * The fixed configuration of the bot (class `Config` in bot.py): the three
 * metric keys in declaration order, the worksheet, search phrase and title of
 * each, and the interface texts the core uses. The environment-driven settings
 * (tokens, file paths, refresh interval, admin id) are not constants here; the
 * admin id is passed to the operations that need it.
 */
module Config {

  /** A key of `SHEET_CONFIG`. */
  datatype MetricKey = Income | Consumption | Cash

  /** The keys in the order `SHEET_CONFIG` declares them (and iterates them). */
  const Keys: seq<MetricKey> := [Income, Consumption, Cash]

  function SheetName(k: MetricKey): string
  {
    match k
    case Income => "Лист1"
    case Consumption => "Лист2"
    case Cash => "Лист3"
  }

  function SearchPhrase(k: MetricKey): string
  {
    match k
    case Income => "Всего доходы"
    case Consumption => "Всего расходы"
    case Cash => "Всего в кассе"
  }

  function Title(k: MetricKey): string
  {
    match k
    case Income => "доходы"
    case Consumption => "расходы"
    case Cash => "в кассе"
  }

  /** `TEXTS["na_value"]`: shown for a total that has no value. */
  const NaValue: string := "Н/Д"

  /** The position of a key in `Keys`. */
  function IndexOf(k: MetricKey): (i: nat)
    ensures i < |Keys| && Keys[i] == k
  {
    match k
    case Income => 0
    case Consumption => 1
    case Cash => 2
  }
}
