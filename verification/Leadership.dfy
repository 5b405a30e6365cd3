/** The controllers' leadership lock (shardctrler/lock/lock.go): a controller stores its id under the lock
    key, and after ErrMaybe reads the key again to find out whether it did. */
module Leadership {
  import opened Rpc

  /** Where a controller is; `ver` is the version it read before its Put. */
  datatype Pc =
    | Idle | AcqGet | AcqPut(ver: nat) | AcqPutting(ver: nat) | AcqCheck(ver: nat) | AcqChecking(ver: nat)
    | Leading | RelGet | RelPut(ver: nat) | RelPutting(ver: nat)

  /** A controller: its program counter and its `lk.ver`. */
  datatype Local = Local(pc: Pc, lkVer: nat)

  function NextCall(key: string, id: string, u: Local): Option<Call<string>>
  {
    match u.pc
    case Idle => Some(Get(key))
    case AcqPut(ver) => Some(Put(key, id, ver))
    case AcqCheck(_) => Some(Get(key))
    case Leading => Some(Get(key))
    case RelPut(ver) => Some(Put(key, "", ver))
    case _ => None
  }

  function Calling(u: Local): Local
    requires NextCall("", "", u).Some?
  {
    u.(pc := match u.pc
      case Idle => AcqGet
      case AcqPut(ver) => AcqPutting(ver)
      case AcqCheck(ver) => AcqChecking(ver)
      case Leading => RelGet
      case RelPut(ver) => RelPutting(ver))
  }

  predicate Waiting(pc: Pc)
  {
    pc.AcqGet? || pc.AcqPutting? || pc.AcqChecking? || pc.RelGet? || pc.RelPutting?
  }

  function Resume(id: string, u: Local, a: Answer<string>): Local
  {
    match u.pc
    case AcqGet => u.(pc := if a.Found? && a.value == "" then AcqPut(a.version) else Idle)
    case AcqPutting(ver) =>
      if a == Status(OK) then Local(Leading, ver + 1)
      else u.(pc := if a == Status(ErrMaybe) then AcqCheck(ver) else Idle)
    case AcqChecking(_) =>
      if a.Found? && a.value == id then Local(Leading, a.version) else u.(pc := Idle)
    case RelGet => u.(pc := RelPut(if a.Found? then a.version else 0))
    case RelPutting(_) => u.(pc := Idle)
    case _ => u
  }

  /** The answers one round of the acquire loop gets: to its Get, to its Put, and to the Get after ErrMaybe. */
  datatype Round = Round(got: Answer<string>, put: Answer<string>, check: Answer<string>)

  /** What one round makes of a controller that starts it. */
  function AfterRound(id: string, u: Local, r: Round): Local
  {
    var u1 := Resume(id, u.(pc := AcqGet), r.got);
    if !u1.pc.AcqPut? then u1 else
    var u2 := Resume(id, Calling(u1), r.put);
    if !u2.pc.AcqCheck? then u2 else
    Resume(id, Calling(u2), r.check)
  }

  /** A round succeeds: the lock was free, and the Put was applied or its id is found stored afterwards. */
  predicate Wins(id: string, r: Round)
  {
    && r.got.Found? && r.got.value == ""
    && (r.put == Status(OK) || (r.put == Status(ErrMaybe) && r.check.Found? && r.check.value == id))
  }

  /** The lock object. Its methods are given the answers that their clerk calls get. */
  class LeaderLock {
    const l: string
    const id: string
    var ver: nat

    constructor (key: string, id: string)
      ensures l == key && this.id == id && ver == 0
    {
      l, this.id, ver := key, id, 0;
    }

    /** Rounds until one succeeds: then `ver` is what that round made it, and before that it is untouched. */
    method AcquireLeadership(rounds: seq<Round>) returns (leading: bool, used: nat)
      modifies this
      ensures used <= |rounds| && (!leading ==> used == |rounds| && ver == old(ver))
      ensures leading ==> used > 0 && AfterRound(id, Local(Idle, old(ver)), rounds[used - 1]) == Local(Leading, ver)
      ensures forall k :: 0 <= k < (if leading then used - 1 else used) ==>
                AfterRound(id, Local(Idle, old(ver)), rounds[k]) == Local(Idle, old(ver)) && !Wins(id, rounds[k])
      ensures leading ==>
                && used > 0 && Wins(id, rounds[used - 1])
                && ver == (var r := rounds[used - 1]; if r.put == Status(OK) then r.got.version + 1 else r.check.version)
    {
      leading, used := false, 0;
      while used < |rounds|
        invariant used <= |rounds| && ver == old(ver)
        invariant forall k :: 0 <= k < used ==>
                    AfterRound(id, Local(Idle, old(ver)), rounds[k]) == Local(Idle, old(ver)) && !Wins(id, rounds[k])
      {
        var r := rounds[used];
        used := used + 1;
        if r.got.Found? {
          if r.got.value == "" {
            if r.put == Status(OK) {
              ver := r.got.version + 1;
              return true, used;
            } else if r.put == Status(ErrMaybe) {
              if r.check.Found? {
                if r.check.value == id {
                  ver := r.check.version;
                  return true, used;
                }
              }
            }
          }
        }
      }
    }

    /** `asked` is the Put it makes. */
    method ReleaseLeadership(got: Answer<string>, put: Answer<string>) returns (res: Answer<string>, asked: Call<string>)
      ensures Some(asked) == NextCall(l, id, Resume(id, Local(RelGet, ver), got))
      ensures asked == Put(l, "", if got.Found? then got.version else 0)
      ensures res == if put == Status(ErrMaybe) then Status(OK) else put
    {
      var v := if got.Found? then got.version else 0;
      asked := Put(l, "", v);
      if put == Status(OK) || put == Status(ErrMaybe) {
        return Status(OK), asked;
      } else {
        return put, asked;
      }
    }
  }
}
