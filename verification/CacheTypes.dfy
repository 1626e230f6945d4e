/** Values shared by every layer of the model: keys, cached entries, journal records, lifecycle. */
module CacheTypes {
  type byte = x: int | 0 <= x < 256

  type Key = seq<byte>
  type Value = seq<byte>

  datatype Option<+T> = None | Some(value: T)

  datatype Error =
    | NotFound | IoError | CorruptData | VersionMismatch | UnflushedDirtyData | CacheDisabled | InvalidArgument
    | ServiceStopping | RecoveryNotComplete | RecoveryFailure

  datatype Result<+T> = Ok(value: T) | Err(error: Error)

  /** Where an entry stands with respect to the backing store. */
  datatype DirtyState = Clean | Dirty | FlushInProgress

  /** A cached entry; its key is the key it is stored under. */
  datatype Entry = Entry(value: Value, version: nat, state: DirtyState)

  /** The records the engine appends to its write-ahead journal. */
  datatype Record =
    | Upsert(key: Key, value: Value, version: nat)
    | FlushIntent(key: Key, version: nat)
    | FlushComplete(key: Key, version: nat)
    | Invalidate(key: Key, version: nat)

  function ValueOf(r: Record): Value {
    if r.Upsert? then r.value else []
  }

  /** The longest key or value a record decoder accepts, and the longest frame journal replay reads. */
  const MAX_RECORD_FIELD: nat := 64 * 1024 * 1024
  const MAX_PAYLOAD: nat := 256 * 1024 * 1024

  /** Bytes of an encoded record besides its key and value. */
  const RECORD_OVERHEAD: nat := 24

  /** Appends check no length. Replay decodes a record only if both lengths are within the limit. */
  predicate Small(r: Record) {
    |r.key| <= MAX_RECORD_FIELD && |ValueOf(r)| <= MAX_RECORD_FIELD
  }

  /** Replay reads past the frame of a record only if its payload is within the limit. */
  predicate Framable(r: Record) {
    RECORD_OVERHEAD + |r.key| + |ValueOf(r)| <= MAX_PAYLOAD
  }

  predicate AllSmall(records: seq<Record>) {
    forall i | 0 <= i < |records| :: Small(records[i])
  }

  datatype Lifecycle = NotReady | Ready | Stopping | Stopped | RecoveryFailed

  type Cache = map<Key, Entry>

  /** Values larger than this are not trusted when read back from the store. */
  const MAX_VALUE_BYTES: nat := 64 * 1024 * 1024

  /** Flushes one call of capacity relief attempts at most. */
  const MAX_FLUSH_ATTEMPTS: nat := 64

  /** The version guard: a commit is stale unless it is strictly newer, or refreshes a read-fill. */
  predicate Stale(version: nat, resident: nat) {
    version <= resident && !(version == 0 && resident == 0)
  }

  /** The in-memory effect of an insert or update, before any eviction. */
  function Commit(cache: Cache, key: Key, entry: Entry): Cache {
    if key in cache && Stale(entry.version, cache[key].version) then cache else cache[key := entry]
  }

  /** The last section of a flush: only the claimed entry, if still resident, changes state. */
  function Settle(cache: Cache, key: Key, version: nat, state: DirtyState): Cache {
    if key in cache && cache[key].version == version && cache[key].state == FlushInProgress
    then cache[key := cache[key].(state := state)]
    else cache
  }

  predicate Unflushed(cache: Cache, key: Key) {
    key in cache && cache[key].state != Clean
  }

  function At<T>(m: map<Key, T>, k: Key): Option<T> {
    if k in m then Some(m[k]) else None
  }
}
