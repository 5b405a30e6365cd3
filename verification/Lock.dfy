/** The lock over a clerk (lock.go): what `MakeLock`, `Acquire` and `Release` do between their clerk calls. */
module Lock {
  import opened Rpc

  /** Where a lock user is. `New`, `MkPut`, `Free`, `TryPut` and `Held` are between clerk calls; the
      others wait for the call named. */
  datatype Pc = New | MkGet | MkPut | MkPutting | Free | TryGet | TryPut | TryPutting | Held | Releasing

  /** A lock user: its program counter and its `lk.version`. */
  datatype Local = Local(pc: Pc, version: nat)

  /** The clerk call that a lock user makes next, if it is inside the lock code. */
  function NextCall(key: string, x: Local): Option<Call<string>>
  {
    match x.pc
    case New => Some(Get(key))
    case MkPut => Some(Put(key, "0", x.version))
    case Free => Some(Get(key))
    case TryPut => Some(Put(key, "1", x.version))
    case Held => Some(Put(key, "0", x.version))
    case _ => None
  }

  function Calling(x: Local): Local
    requires NextCall("", x).Some?
  {
    x.(pc := match x.pc
      case New => MkGet
      case MkPut => MkPutting
      case Free => TryGet
      case TryPut => TryPutting
      case Held => Releasing)
  }

  predicate Waiting(x: Local)
  {
    x.pc == MkGet || x.pc == MkPutting || x.pc == TryGet || x.pc == TryPutting || x.pc == Releasing
  }

  /** The call that a waiting lock user waits for. */
  function Awaited(key: string, x: Local): Call<string>
    requires Waiting(x)
  {
    match x.pc
    case MkGet => Get(key)
    case MkPutting => Put(key, "0", x.version)
    case TryGet => Get(key)
    case TryPutting => Put(key, "1", x.version)
    case Releasing => Put(key, "0", x.version)
  }

  /** What the lock user does with the answer. */
  function Resume(x: Local, a: Answer<string>): Local
    requires Waiting(x)
  {
    match x.pc
    case MkGet => if a == Status(ErrNoKey) then x.(pc := MkPut, version := 0) else x.(pc := Free, version := 0)
    case MkPutting => Local(Free, if a == Status(OK) then x.version + 1 else x.version)
    case TryGet => if a.Found? && a.value != "1" then Local(TryPut, a.version) else x.(pc := Free)
    case TryPutting => if a == Status(OK) then Local(Held, x.version + 1) else x.(pc := Free)
    case Releasing => Local(Free, x.version + 1)
  }

  /** The lock object. Every method is given the answers that its clerk calls get. */
  class LockObject {
    const lockKey: string
    var version: nat

    constructor (key: string, got: Answer<string>, put: Answer<string>)
      ensures lockKey == key
      ensures version == (var x := Resume(Local(MkGet, 0), got);
                          if x.pc == MkPut then Resume(Local(MkPutting, x.version), put) else x).version
      ensures version == if got == Status(ErrNoKey) && put == Status(OK) then 1 else 0
    {
      lockKey := key;
      version := 0;
      new;
      if got == Status(ErrNoKey) {
        if put == Status(OK) {
          version := version + 1;
        }
      }
    }

    /** `asked` is the Put it makes, if it makes one. */
    method TryAcquire(got: Answer<string>, put: Answer<string>) returns (ok: bool, asked: Option<Call<string>>)
      modifies this
      ensures var x := Resume(Local(TryGet, old(version)), got);
              if x.pc == TryPut
              then && asked == NextCall(lockKey, x)
                   && Local(if ok then Held else Free, version) == Resume(Calling(x), put)
              else !ok && asked == None && version == old(version)
      ensures asked == if got.Found? && got.value != "1" then Some(Put(lockKey, "1", got.version)) else None
      ensures ok <==> asked.Some? && put == Status(OK)
      ensures version == if asked.None? then old(version) else if ok then got.version + 1 else got.version
    {
      ok, asked := false, None;
      if !got.Found? { return; }
      if got.value == "1" { return; }
      version := got.version;
      asked := Some(Put(lockKey, "1", version));
      if put == Status(OK) {
        version := version + 1;
        ok := true;
      }
    }

    /** Tries again with one pair of answers after the other, until an attempt succeeds. */
    method Acquire(answers: seq<(Answer<string>, Answer<string>)>) returns (ok: bool, used: nat)
      modifies this
      ensures used <= |answers|
      ensures ok ==> used > 0 && answers[used - 1].0.Found? && answers[used - 1].0.value != "1"
                     && answers[used - 1].1 == Status(OK) && version == answers[used - 1].0.version + 1
      ensures !ok ==> used == |answers|
      ensures forall k :: 0 <= k < (if ok then used - 1 else used) ==>
                !(answers[k].0.Found? && answers[k].0.value != "1" && answers[k].1 == Status(OK))
    {
      ok, used := false, 0;
      while !ok && used < |answers|
        invariant used <= |answers|
        invariant ok ==> used > 0 && answers[used - 1].0.Found? && answers[used - 1].0.value != "1"
                         && answers[used - 1].1 == Status(OK) && version == answers[used - 1].0.version + 1
        invariant forall k :: 0 <= k < (if ok then used - 1 else used) ==>
                    !(answers[k].0.Found? && answers[k].0.value != "1" && answers[k].1 == Status(OK))
        decreases |answers| - used
      {
        var asked;
        ok, asked := TryAcquire(answers[used].0, answers[used].1);
        used := used + 1;
      }
    }

    method Release(put: Answer<string>) returns (asked: Call<string>)
      modifies this
      ensures Some(asked) == NextCall(lockKey, Local(Held, old(version)))
      ensures Local(Free, version) == Resume(Local(Releasing, old(version)), put)
      ensures asked == Put(lockKey, "0", old(version)) && version == old(version) + 1
    {
      asked := Put(lockKey, "0", version);
      version := version + 1;
    }
  }
}
