// Result types shared by every module, and the errors of the typed store.
module Wrappers {
  datatype Option<+T> = None | Some(value: T)

  datatype Result<+T, +E> = Ok(value: T) | Err(error: E)

  // The errors a table operation can report.
  datatype TypedStoreError =
    | RocksDBError(message: string)
    | SerializationError(message: string)
    | CrossDBBatch

  type StoreResult<+T> = Result<T, TypedStoreError>

  function Lookup<K, V>(m: map<K, V>, k: K): Option<V> {
    if k in m then Some(m[k]) else None
  }
}
