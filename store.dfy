/**
 * The persisted side of a collection: one JSON document holding an array of
 * records. Reading the file and decoding the JSON are outside the model; what
 * remains is whether the document yields an array, and the index range check
 * every index-addressed handler performs against the freshly loaded array.
 */
module Store {
  import opened Wrappers

  /** The state of a collection's backing file, as a read-and-parse would see it. */
  datatype Document<T> =
    | Records(items: seq<T>)  // the file parses to a JSON array of records
    | Unreadable              // reading the file fails (missing, no permission)
    | Malformed               // the file is read but does not parse as a JSON array

  /** The failures a handler reports (HTTP 500 for all but InvalidIndex, which is 400). */
  datatype StoreError =
    | ReadFailed     // "Failed to read ..."
    | InvalidFormat  // "Invalid ... format"
    | InvalidIndex   // "Invalid message index" / "Invalid product index"
    | WriteFailed    // "Failed to write ..."

  /** Read and decode the backing document. */
  function Load<T>(d: Document<T>): (r: Result<seq<T>, StoreError>)
    ensures r.Success? <==> d.Records?
    ensures r.Success? ==> r.value == d.items
    ensures d.Unreadable? ==> r == Failure(ReadFailed)
    ensures d.Malformed? ==> r == Failure(InvalidFormat)
  {
    match d
    case Records(items) => Success(items)
    case Unreadable => Failure(ReadFailed)
    case Malformed => Failure(InvalidFormat)
  }

  /**
   * `isNaN(idx) || idx < 0 || idx >= length` rejects; `None` stands for NaN.
   * On success the index is returned as a position inside the array.
   */
  function CheckIndex(idx: Option<int>, length: nat): (r: Result<nat, StoreError>)
    ensures r.Success? <==> idx.Some? && 0 <= idx.value < length
    ensures r.Success? ==> r.value == idx.value && r.value < length
    ensures r.Failure? ==> r.error == InvalidIndex
  {
    if idx.None? || idx.value < 0 || idx.value >= length then Failure(InvalidIndex)
    else Success(idx.value)
  }
}
