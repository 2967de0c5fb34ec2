/**
 * The records the hydration tracker keeps: one logged sip and the whole
 * application state that is cached between visits.
 */
module Types {

  /** A value that may be absent, as an optional field of a parsed record is. */
  datatype Option<+T> = None | Some(value: T) {

    /** The wrapped value, or `default` when there is none. */
    function GetOr(default: T): T {
      match this
      case Some(v) => v
      case None => default
    }
  }

  /**
   * One logged drink. `id` and `timestamp` come from the wall clock at the
   * moment of logging and are treated as opaque values; `amount` is in
   * millilitres; `caption` is the drink's display label.
   */
  datatype SipRecord = SipRecord(
    id: string,
    amount: real,
    timestamp: string,
    caption: string,
    icon: string,
    category: string)

  /**
   * The application state. `currentAmount` and `goal` are in litres,
   * `history` is newest first, and `lastUpdate` is an epoch time in
   * milliseconds. `lastUpdate` is optional because the built-in initial
   * state has none and a record saved by an older version may lack it.
   */
  datatype AppState = AppState(
    currentAmount: real,
    goal: real,
    streak: int,
    mood: string,
    history: seq<SipRecord>,
    lastUpdate: Option<int>)

  /** What reading the local cache produced: nothing (or an empty string), text that does not parse, or a record. */
  datatype Saved = NoRecord | Unparsable | Parsed(record: AppState)

  function Min(a: int, b: int): int {
    if a <= b then a else b
  }
}
