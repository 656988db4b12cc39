/** The browser's key-value store as the pages use it: one JSON-encoded list
    per key. Serialisation is abstracted: a slot either holds a list of
    records, is missing, or holds text that does not parse to a list. */
module Storage {
  import opened Wrappers

  /** What `localStorage.getItem(key)` yields, after `JSON.parse`.
      `Missing` covers both an absent key and the empty string: every reader
      tests the text for truthiness first. */
  datatype Slot<T> = Missing | Holds(items: seq<T>) | Unparsable

  /** The records of one type, by key. */
  type Store<T> = map<string, Slot<T>>

  datatype StorageError = ParseError(key: string)

  /** `getItem(key)`: a key that was never written is missing. */
  function Lookup<T>(st: Store<T>, key: string): Slot<T> {
    if key in st then st[key] else Missing
  }

  /** `JSON.parse(getItem(key) || '[]')`: a missing slot reads as the empty
      list; unparsable text throws. */
  function ReadList<T>(st: Store<T>, key: string): (r: Result<seq<T>, StorageError>)
    ensures r.Failure? <==> Lookup(st, key).Unparsable?
    ensures r.Failure? ==> r.error == ParseError(key)
    ensures Lookup(st, key).Missing? ==> r == Success([])
    ensures Lookup(st, key).Holds? ==> r == Success(Lookup(st, key).items)
  {
    match Lookup(st, key)
    case Missing => Success([])
    case Holds(items) => Success(items)
    case Unparsable => Failure(ParseError(key))
  }

  /** The submit handlers' read, `push`, write-back sequence: the record goes
      to the end of the list stored under `key` and every other key is left
      alone. If the stored text does not parse, the handler throws before
      writing anything. */
  function Push<T>(st: Store<T>, key: string, item: T): (r: Result<Store<T>, StorageError>)
    ensures r.Failure? <==> Lookup(st, key).Unparsable?
    ensures r.Failure? ==> r.error == ParseError(key)
    ensures r.Success? ==> Lookup(r.value, key) == Holds(ReadList(st, key).value + [item])
    ensures r.Success? ==> forall k :: k != key ==> Lookup(r.value, k) == Lookup(st, k)
  {
    match ReadList(st, key)
    case Success(items) => Success(st[key := Holds(items + [item])])
    case Failure(e) => Failure(e)
  }

  /** A key that was never written ends up holding exactly the pushed record. */
  lemma PushOntoMissing<T>(st: Store<T>, key: string, item: T)
    requires key !in st
    ensures Push(st, key, item).Success?
    ensures Lookup(Push(st, key, item).value, key) == Holds([item])
  {
  }

  /** Pushing grows the stored list by exactly one record and keeps the older
      records first, in order. */
  lemma PushKeepsEarlierRecords<T>(st: Store<T>, key: string, item: T)
    requires Lookup(st, key).Holds?
    ensures Push(st, key, item).Success?
    ensures var after := Lookup(Push(st, key, item).value, key).items;
            |after| == |Lookup(st, key).items| + 1 &&
            after[..|after| - 1] == Lookup(st, key).items &&
            after[|after| - 1] == item
  {
    var after := Lookup(Push(st, key, item).value, key).items;
    assert after == Lookup(st, key).items + [item];
  }
}
