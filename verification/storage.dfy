/**
 The persisted shape of the update log: one row per document id in the
 `workspace` object store, each row an ordered list of timestamped Yjs update
 fragments, plus the failure an IndexedDB operation can end with.
 */
module Storage {
  import Text

  newtype byte = x: int | 0 <= x < 256

  /** A Yjs binary update or state vector (a `Uint8Array`). */
  type Bytes = seq<byte>

  /** The document guid that keys a row. */
  type DocId = string

  /** One stored fragment: `{ timestamp, update }`. */
  datatype UpdateMessage = UpdateMessage(timestamp: int, update: Bytes)

  /** The `workspace` object store: guid to the row's `updates` list. A missing key is a missing row. */
  type Store = map<DocId, seq<UpdateMessage>>

  /** The two Yjs primitives the provider calls, left uninterpreted:
      `mergeUpdates(updates)` and `diffUpdate(update, stateVector)`. */
  datatype Crdt = Crdt(merge: seq<Bytes> -> Bytes, diff: (Bytes, Bytes) -> Bytes)

  /** A value caught by the provider's `catch (err)`; `message` is absent when the thrown value has none. */
  datatype DbError = DbError(message: Option<string>)

  datatype Option<T> = None | Some(value: T)

  /** Outcome of an adapter call: it resolves with a value or rejects with the rethrown error. */
  datatype Result<T> = Ok(value: T) | Thrown(error: DbError)

  /** The text the provider looks for in a caught error's message. */
  const ClosingText: string := "The database connection is closing."

  /** `err.message?.includes('The database connection is closing.')`: the one failure the adapter swallows. */
  predicate IsConnectionClosing(e: DbError)
  {
    e.message.Some? && Text.Includes(e.message.value, ClosingText)
  }

  /** `s.map(f)`: `f` applied to every element, in order. */
  function MapSeq<A, B>(s: seq<A>, f: A -> B): (r: seq<B>)
    ensures |r| == |s|
    ensures forall i :: 0 <= i < |s| ==> r[i] == f(s[i])
  {
    seq(|s|, i requires 0 <= i < |s| => f(s[i]))
  }

  /** The payloads of a row in stored order: `updates.map(({ update }) => update)`. */
  function Payloads(rows: seq<UpdateMessage>): seq<Bytes>
  {
    MapSeq(rows, (m: UpdateMessage) => m.update)
  }

  /** Reading the payloads distributes over concatenating rows. */
  lemma PayloadsAppend(a: seq<UpdateMessage>, b: seq<UpdateMessage>)
    ensures Payloads(a + b) == Payloads(a) + Payloads(b)
  {
  }

  /** An error whose message embeds the closing text anywhere is swallowed;
      one without a message, or with a message that nowhere contains the closing text, is not. */
  lemma {:induction false} ClosingClassification(message: string, prefix: string, suffix: string)
    ensures IsConnectionClosing(DbError(Some(message))) <==> exists i :: Text.OccursAt(message, ClosingText, i)
    ensures IsConnectionClosing(DbError(Some(prefix + ClosingText + suffix)))
    ensures !IsConnectionClosing(DbError(None))
    ensures !IsConnectionClosing(DbError(Some("QuotaExceededError")))
  {
    Text.IncludesIff(message, ClosingText);
    Text.IncludesInfix(prefix, ClosingText, suffix);
    Text.IncludesIff("QuotaExceededError", ClosingText);
  }
}
