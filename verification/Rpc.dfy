/** The calls of the key/value service and their answers (rpc.go). */
module Rpc {

  datatype Option<+T> = None | Some(value: T)

  datatype Err = OK | ErrNoKey | ErrVersion | ErrMaybe

  datatype Call<V> = Get(key: string) | Put(key: string, value: V, version: nat)

  /** A Get is answered by the value and its version, or by an error; a Put by an error alone. */
  datatype Answer<V> = Found(value: V, version: nat) | Status(err: Err)

  /** A stored value and its version. */
  datatype Entry<V> = Entry(value: V, version: nat)
}
