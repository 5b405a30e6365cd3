/** `KVServer`: a map of versioned values with conditional writes (server.go). */
module KvServer {
  import opened Rpc

  type Table<V> = map<string, Entry<V>>

  function VersionOf<V>(m: Table<V>, key: string): nat
  {
    if key in m then m[key].version else 0
  }

  /** The server's answer to a call. */
  function Reply<V>(m: Table<V>, call: Call<V>): Answer<V>
  {
    match call
    case Get(key) =>
      if key in m then Found(m[key].value, m[key].version) else Status(ErrNoKey)
    case Put(key, value, version) =>
      if key in m then Status(if version == m[key].version then OK else ErrVersion)
      else Status(if version == 0 then OK else ErrNoKey)
  }

  /** The server's table after a call. */
  function Serve<V>(m: Table<V>, call: Call<V>): Table<V>
  {
    if call.Put? && Reply(m, call) == Status(OK)
    then m[call.key := Entry(call.value, VersionOf(m, call.key) + 1)]
    else m
  }

  class KVServer<V> {
    var m: Table<V>

    constructor ()
      ensures m == map[]
    {
      m := map[];
    }

    method Get(key: string) returns (reply: Answer<V>)
      ensures reply == Reply(m, Call.Get(key))
      ensures reply == if key in m then Found(m[key].value, m[key].version) else Status(ErrNoKey)
    {
      if key !in m {
        return Status(ErrNoKey);
      }
      return Found(m[key].value, m[key].version);
    }

    method Put(key: string, value: V, version: nat) returns (reply: Answer<V>)
      modifies this
      ensures reply == Reply(old(m), Call.Put(key, value, version))
      ensures m == Serve(old(m), Call.Put(key, value, version))
      ensures reply == Status(OK) <==> version == if key in old(m) then old(m)[key].version else 0
      ensures reply == Status(ErrVersion) <==> key in old(m) && version != old(m)[key].version
      ensures reply == Status(ErrNoKey) <==> key !in old(m) && version != 0
      ensures m == if reply == Status(OK) then old(m)[key := Entry(value, version + 1)] else old(m)
    {
      if key in m {
        var v := m[key];
        if version != v.version {
          return Status(ErrVersion);
        }
        m := m[key := Entry(value, v.version + 1)];
      } else {
        if version != 0 {
          return Status(ErrNoKey);
        }
        m := m[key := Entry(value, 1)];
      }
      return Status(OK);
    }
  }
}
