/** The device lock server: two dictionaries, leases that expire, and holders that die.
    Time, the scan of devices, process liveness, new ids and the shuffle are inputs. */
module Locks {
  import opened Wrappers

  datatype Info = Info(lockId: string, device: string, pid: Option<int>, acquiredAt: real, lastHeartbeat: real, expiresAt: real)

  datatype Table = Table(locks: map<string, Info>, deviceLocks: map<string, string>)

  datatype Answer = Granted(info: Info) | NoDevices | DeviceNotFound | AllLocked

  datatype Renewal = Renewed | PidRequired | NoSuchLock

  datatype Request =
    | Acquire(device: Option<string>, devices: seq<string>, order: seq<string>, pid: Option<int>, newId: string)
    | Release(lockId: string)
    | Heartbeat(lockId: string, beatPid: Option<int>)
    | ListDevices(shown: seq<string>)

  /** A request at a moment, with the processes alive then. */
  datatype Moment = Moment(request: Request, now: real, alive: set<int>)

  // ----- the transitions -----

  predicate Live(i: Info, now: real, alive: set<int>) {
    i.expiresAt > now && (i.pid.Some? ==> i.pid.value in alive)
  }

  function Drop(t: Table, id: string): Table {
    if id in t.locks then Table(t.locks - {id}, t.deviceLocks - {t.locks[id].device}) else t
  }

  function Reaped(t: Table, now: real, alive: set<int>): Table {
    Table(map l | l in t.locks && Live(t.locks[l], now, alive) :: t.locks[l],
          map d | d in t.deviceLocks && !(exists l :: l in t.locks && !Live(t.locks[l], now, alive) && t.locks[l].device == d)
            :: t.deviceLocks[d])
  }

  predicate Pinned(device: Option<string>) { device.Some? && device.value != "" && device.value != "any" }

  function Targets(device: Option<string>, devices: seq<string>, order: seq<string>): seq<string> {
    if !Pinned(device) then order else if device.value in devices then [device.value] else []
  }

  function FirstFree(deviceLocks: map<string, string>, targets: seq<string>): Option<string> {
    if targets == [] then None
    else if targets[0] !in deviceLocks then Some(targets[0])
    else FirstFree(deviceLocks, targets[1..])
  }

  function NewInfo(id: string, device: string, pid: Option<int>, now: real, ttl: real): Info {
    Info(id, device, pid, now, now, now + ttl)
  }

  function Inserted(t: Table, i: Info): Table {
    Table(t.locks[i.lockId := i], t.deviceLocks[i.device := i.lockId])
  }

  function AcquireStep(t: Table, r: Request, now: real, alive: set<int>, ttl: real): (Table, Answer)
    requires r.Acquire?
  {
    var t' := Reaped(t, now, alive);
    if r.devices == [] then (t', NoDevices)
    else
      var targets := Targets(r.device, r.devices, r.order);
      if Pinned(r.device) && targets == [] then (t', DeviceNotFound)
      else
        var dev := FirstFree(t'.deviceLocks, targets);
        if dev.None? then (t', AllLocked)
        else var i := NewInfo(r.newId, dev.value, r.pid, now, ttl); (Inserted(t', i), Granted(i))
  }

  function HeartbeatStep(t: Table, id: string, pid: Option<int>, now: real, ttl: real): (Table, Renewal) {
    if id !in t.locks then (t, NoSuchLock)
    else if pid.None? then (t, PidRequired)
    else (t.(locks := t.locks[id := t.locks[id].(lastHeartbeat := now, expiresAt := now + ttl, pid := pid)]), Renewed)
  }

  function Next(t: Table, m: Moment, ttl: real): Table {
    match m.request
    case Acquire(_, _, _, _, _) => AcquireStep(t, m.request, m.now, m.alive, ttl).0
    case Release(id) => Drop(t, id)
    case Heartbeat(id, pid) => HeartbeatStep(t, id, pid, m.now, ttl).0
    case ListDevices(_) => Reaped(t, m.now, m.alive)
  }

  function Run(t: Table, ms: seq<Moment>, ttl: real): Table
    decreases |ms|
  {
    if ms == [] then t else Run(Next(t, ms[0], ttl), ms[1..], ttl)
  }

  // ----- the manager -----

  class LockManager {
    const ttl: real
    var locks: map<string, Info>
    var deviceLocks: map<string, string>

    function State(): Table
      reads this
    {
      Table(locks, deviceLocks)
    }

    constructor (ttl: real)
      ensures this.ttl == ttl && State() == Table(map[], map[])
    {
      this.ttl, locks, deviceLocks := ttl, map[], map[];
    }

    /** First collects what to remove, then removes it. What goes, from both tables, is
        exactly what has expired or was recorded for a process that is dead. */
    method ReapExpired(now: real, alive: set<int>)
      modifies this
      ensures State() == Reaped(old(State()), now, alive)
      ensures forall l | l in old(locks) ::
        l !in locks <==> old(locks)[l].expiresAt <= now || (old(locks)[l].pid.Some? && old(locks)[l].pid.value !in alive)
      ensures forall l | l in locks :: l in old(locks) && locks[l] == old(locks)[l]
      ensures forall d | d in old(deviceLocks) ::
        d !in deviceLocks <==> exists l :: l in old(locks) && l !in locks && old(locks)[l].device == d
      ensures forall d | d in deviceLocks :: d in old(deviceLocks) && deviceLocks[d] == old(deviceLocks)[d]
    {
      var start := locks;
      var toRemove: set<string> := {};
      var unseen := locks.Keys;
      while unseen != {}
        invariant unseen <= start.Keys
        invariant toRemove == set l | l in start && l !in unseen && !Live(start[l], now, alive)
        invariant State() == old(State())
      {
        var lid :| lid in unseen;
        var info := locks[lid];
        if info.expiresAt <= now {
          toRemove := toRemove + {lid};
        } else if info.pid.Some? && info.pid.value !in alive {
          toRemove := toRemove + {lid};
        }
        unseen := unseen - {lid};
      }
      ghost var devices := deviceLocks;
      ghost var all := toRemove;
      while toRemove != {}
        invariant toRemove <= all <= start.Keys
        invariant locks == start - (all - toRemove)
        invariant deviceLocks == devices - (set l | l in all - toRemove :: start[l].device)
      {
        var lid :| lid in toRemove;
        var info := locks[lid];
        assert (set l | l in all - (toRemove - {lid}) :: start[l].device)
            == (set l | l in all - toRemove :: start[l].device) + {info.device};
        locks := locks - {lid};
        deviceLocks := deviceLocks - {info.device};
        toRemove := toRemove - {lid};
      }
      ReapedExactly(old(State()), now, alive);
    }

    method AcquireLock(device: Option<string>, devices: seq<string>, order: seq<string>, pid: Option<int>, newId: string,
                       now: real, alive: set<int>)
      returns (r: Answer)
      modifies this
      ensures (State(), r) == AcquireStep(old(State()), Acquire(device, devices, order, pid, newId), now, alive, ttl)
    {
      ReapExpired(now, alive);
      if devices == [] {
        return NoDevices;
      }
      var targets;
      if Pinned(device) {
        targets := if device.value in devices then [device.value] else [];
        if targets == [] {
          return DeviceNotFound;
        }
      } else {
        targets := order;
      }
      for n := 0 to |targets|
        invariant State() == Reaped(old(State()), now, alive)
        invariant FirstFree(deviceLocks, targets[n..]) == FirstFree(deviceLocks, targets)
      {
        assert targets[n..][1..] == targets[n + 1..];
        var dev := targets[n];
        if dev !in deviceLocks {
          var info := NewInfo(newId, dev, pid, now, ttl);
          locks := locks[newId := info];
          deviceLocks := deviceLocks[dev := newId];
          return Granted(info);
        }
      }
      return AllLocked;
    }

    method ReleaseLock(lockId: string) returns (r: bool)
      modifies this
      ensures r == (lockId in old(locks)) && State() == Drop(old(State()), lockId)
      ensures locks == old(locks) - {lockId}
      ensures deviceLocks == if r then old(deviceLocks) - {old(locks)[lockId].device} else old(deviceLocks)
    {
      if lockId in locks {
        var info := locks[lockId];
        locks := locks - {lockId};
        deviceLocks := deviceLocks - {info.device};
        return true;
      }
      return false;
    }

    method Beat(lockId: string, pid: Option<int>, now: real) returns (r: Renewal)
      modifies this
      ensures (State(), r) == HeartbeatStep(old(State()), lockId, pid, now, ttl)
      ensures r == (if lockId !in old(locks) then NoSuchLock else if pid.None? then PidRequired else Renewed)
      ensures deviceLocks == old(deviceLocks) && locks.Keys == old(locks).Keys
      ensures forall l | l in locks && (l != lockId || r != Renewed) :: locks[l] == old(locks)[l]
      ensures r == Renewed ==>
        var was, i := old(locks)[lockId], locks[lockId];
        && i.expiresAt == now + ttl && i.lastHeartbeat == now && i.pid == pid
        && i.lockId == was.lockId && i.device == was.device && i.acquiredAt == was.acquiredAt
    {
      if lockId !in locks {
        return NoSuchLock;
      }
      if pid.None? {
        return PidRequired;
      }
      locks := locks[lockId := locks[lockId].(lastHeartbeat := now, expiresAt := now + ttl, pid := pid)];
      return Renewed;
    }

    /** Which of the devices are locked, and by which lock. */
    method ListLocked(devices: seq<string>, now: real, alive: set<int>) returns (r: seq<Option<Info>>)
      modifies this
      ensures State() == Reaped(old(State()), now, alive)
      ensures |r| == |devices|
      ensures forall n | 0 <= n < |devices| ::
        r[n] == if devices[n] in deviceLocks && deviceLocks[devices[n]] in locks then Some(locks[deviceLocks[devices[n]]]) else None
    {
      ReapExpired(now, alive);
      r := [];
      for n := 0 to |devices|
        invariant State() == Reaped(old(State()), now, alive) && |r| == n
        invariant forall k | 0 <= k < n ::
          r[k] == if devices[k] in deviceLocks && deviceLocks[devices[k]] in locks then Some(locks[deviceLocks[devices[k]]]) else None
      {
        var dev := devices[n];
        if dev in deviceLocks && deviceLocks[dev] in locks {
          r := r + [Some(locks[deviceLocks[dev]])];
        } else {
          r := r + [None];
        }
      }
    }
  }

  // ----- what is reaped, and what is granted -----

  /** A lock is reaped if and only if it has expired or its recorded process is dead, and a
      device loses its entry if and only if a lock on it is reaped. */
  lemma ReapedExactly(t: Table, now: real, alive: set<int>)
    ensures var t' := Reaped(t, now, alive);
      && (forall l | l in t.locks ::
            l !in t'.locks <==> t.locks[l].expiresAt <= now || (t.locks[l].pid.Some? && t.locks[l].pid.value !in alive))
      && (forall l | l in t'.locks :: l in t.locks && t'.locks[l] == t.locks[l])
      && (forall d | d in t.deviceLocks :: d !in t'.deviceLocks <==> exists l :: l in t.locks && l !in t'.locks && t.locks[l].device == d)
      && (forall d | d in t'.deviceLocks :: d in t.deviceLocks && t'.deviceLocks[d] == t.deviceLocks[d])
  {
    var t' := Reaped(t, now, alive);
    forall d | d in t.deviceLocks
      ensures d !in t'.deviceLocks <==> exists l :: l in t.locks && l !in t'.locks && t.locks[l].device == d
    {
      if d !in t'.deviceLocks {
        var l :| l in t.locks && !Live(t.locks[l], now, alive) && t.locks[l].device == d;
        assert l !in t'.locks;
      }
      if l :| l in t.locks && l !in t'.locks && t.locks[l].device == d {
        assert !Live(t.locks[l], now, alive);
      }
    }
  }

  /** Some lock that has not expired, of a process that is not known dead, is on the device. */
  ghost predicate Occupied(t: Table, d: string, now: real, alive: set<int>) {
    exists l :: l in t.locks && t.locks[l].device == d && t.locks[l].expiresAt > now
                && (t.locks[l].pid.None? || t.locks[l].pid.value in alive)
  }

  lemma FreedIffUnoccupied(t: Table, now: real, alive: set<int>, d: string)
    requires Inverse(t)
    ensures d in Reaped(t, now, alive).deviceLocks <==> Occupied(t, d, now, alive)
  {
    ReapedExactly(t, now, alive);
    var t' := Reaped(t, now, alive);
    if d in t'.deviceLocks {
      var l := t.deviceLocks[d];
      assert l in t.locks && t.locks[l].device == d && l in t'.locks;
    }
    if Occupied(t, d, now, alive) {
      var l :| l in t.locks && t.locks[l].device == d && t.locks[l].expiresAt > now
               && (t.locks[l].pid.None? || t.locks[l].pid.value in alive);
      assert d in t.deviceLocks && t.deviceLocks[d] == l && l in t'.locks;
    }
  }

  /** The answer to a request for a lock. All are locked if and only if every target is
      occupied; else the first target that is not is granted, for ttl from now. */
  lemma AcquireMeans(t: Table, r: Request, now: real, alive: set<int>, ttl: real)
    requires Inverse(t) && r.Acquire?
    ensures var pinned := r.device.Some? && r.device.value != "" && r.device.value != "any";
            var targets := if pinned then [r.device.value] else r.order;
            var (t', a) := AcquireStep(t, r, now, alive, ttl);
            && (a == NoDevices <==> r.devices == [])
            && (a == DeviceNotFound <==> r.devices != [] && pinned && r.device.value !in r.devices)
            && (a == AllLocked <==> r.devices != [] && (pinned ==> r.device.value in r.devices)
                                    && forall d | d in targets :: Occupied(t, d, now, alive))
            && (a.Granted? ==>
                  && (exists n :: 0 <= n < |targets| && targets[n] == a.info.device && !Occupied(t, targets[n], now, alive)
                                  && forall k | 0 <= k < n :: Occupied(t, targets[k], now, alive))
                  && a.info == Info(r.newId, a.info.device, r.pid, now, now, now + ttl)
                  && t' == Table(Reaped(t, now, alive).locks[r.newId := a.info],
                                 Reaped(t, now, alive).deviceLocks[a.info.device := r.newId]))
            && (!a.Granted? ==> t' == Reaped(t, now, alive))
  {
    hide Reaped, Occupied, Inverse;
    var reaped := Reaped(t, now, alive);
    forall d ensures d in reaped.deviceLocks <==> Occupied(t, d, now, alive) {
      FreedIffUnoccupied(t, now, alive, d);
    }
    var targets := Targets(r.device, r.devices, r.order);
    FirstFreeIsFree(reaped.deviceLocks, targets);
    FirstFreeIsFirst(reaped.deviceLocks, targets);
    if FirstFree(reaped.deviceLocks, targets).Some? {
      var n :| 0 <= n < |targets| && targets[n] == FirstFree(reaped.deviceLocks, targets).value
               && forall k | 0 <= k < n :: targets[k] in reaped.deviceLocks;
      assert forall k | 0 <= k < n :: Occupied(t, targets[k], now, alive);
    }
  }

  lemma {:induction false} FirstFreeIsFirst(deviceLocks: map<string, string>, targets: seq<string>)
    ensures var d := FirstFree(deviceLocks, targets);
            d.Some? ==> exists n :: 0 <= n < |targets| && targets[n] == d.value && forall k | 0 <= k < n :: targets[k] in deviceLocks
    decreases |targets|
  {
    if targets != [] && targets[0] in deviceLocks {
      FirstFreeIsFirst(deviceLocks, targets[1..]);
      var d := FirstFree(deviceLocks, targets[1..]);
      if d.Some? {
        var n :| 0 <= n < |targets[1..]| && targets[1..][n] == d.value && forall k | 0 <= k < n :: targets[1..][k] in deviceLocks;
        assert targets[n + 1] == d.value;
        forall k | 0 <= k < n + 1
          ensures targets[k] in deviceLocks
        {
          assert k > 0 ==> targets[k] == targets[1..][k - 1];
        }
      }
    }
  }

  // ----- the two dictionaries stay mutually inverse -----

  ghost predicate Inverse(t: Table) {
    && (forall l | l in t.locks :: t.locks[l].device in t.deviceLocks && t.deviceLocks[t.locks[l].device] == l)
    && (forall d | d in t.deviceLocks :: t.deviceLocks[d] in t.locks && t.locks[t.deviceLocks[d]].device == d)
  }

  lemma OneLockPerDevice(t: Table, a: string, b: string)
    requires Inverse(t) && a in t.locks && b in t.locks && t.locks[a].device == t.locks[b].device
    ensures a == b
  {
  }

  lemma ReapedInverse(t: Table, now: real, alive: set<int>)
    requires Inverse(t)
    ensures Inverse(Reaped(t, now, alive))
  {
    var t' := Reaped(t, now, alive);
    forall l | l in t'.locks
      ensures t'.locks[l].device in t'.deviceLocks && t'.deviceLocks[t'.locks[l].device] == l
    {
    }
    forall d | d in t'.deviceLocks
      ensures t'.deviceLocks[d] in t'.locks && t'.locks[t'.deviceLocks[d]].device == d
    {
      assert t.deviceLocks[d] in t.locks;
    }
  }

  lemma {:induction false} FirstFreeIsFree(deviceLocks: map<string, string>, targets: seq<string>)
    ensures var d := FirstFree(deviceLocks, targets);
            if d.Some? then d.value in targets && d.value !in deviceLocks
            else forall x | x in targets :: x in deviceLocks
    decreases |targets|
  {
    if targets != [] {
      FirstFreeIsFree(deviceLocks, targets[1..]);
      assert targets == [targets[0]] + targets[1..];
    }
  }

  /** Inserting a lock on a free device keeps the dictionaries inverse exactly when its id
      is not in use. */
  lemma InsertedInverse(t: Table, i: Info)
    requires Inverse(t) && i.device !in t.deviceLocks
    ensures Inverse(Inserted(t, i)) <==> i.lockId !in t.locks
  {
    var t' := Inserted(t, i);
    if i.lockId in t.locks {
      var d := t.locks[i.lockId].device;
      assert d in t'.deviceLocks && t'.deviceLocks[d] == i.lockId && t'.locks[i.lockId].device == i.device;
    } else {
      forall d | d in t'.deviceLocks
        ensures t'.deviceLocks[d] in t'.locks && t'.locks[t'.deviceLocks[d]].device == d
      {
      }
    }
  }

  /** The id drawn for a grant is not the id of a lock that is still held. */
  predicate FreshId(t: Table, m: Moment) {
    m.request.Acquire? ==> m.request.newId !in t.locks
  }

  lemma NextInverse(t: Table, m: Moment, ttl: real)
    requires Inverse(t) && FreshId(t, m)
    ensures Inverse(Next(t, m, ttl))
  {
    hide Reaped, Inserted;
    ReapedInverse(t, m.now, m.alive);
    match m.request {
      case Acquire(device, devices, order, pid, newId) =>
        var t' := Reaped(t, m.now, m.alive);
        ReapedOnly(t, m.now, m.alive);
        var targets := Targets(device, devices, order);
        FirstFreeIsFree(t'.deviceLocks, targets);
        var dev := FirstFree(t'.deviceLocks, targets);
        if dev.Some? {
          InsertedInverse(t', NewInfo(newId, dev.value, pid, m.now, ttl));
        }
      case Release(id) => DropInverse(t, id);
      case Heartbeat(id, pid) =>
      case ListDevices(_) =>
    }
  }

  lemma ReapedOnly(t: Table, now: real, alive: set<int>)
    ensures Reaped(t, now, alive).locks.Keys <= t.locks.Keys
  {
  }

  lemma DropInverse(t: Table, id: string)
    requires Inverse(t)
    ensures Inverse(Drop(t, id))
  {
    if id in t.locks {
      var t' := Drop(t, id);
      forall l | l in t'.locks
        ensures t'.locks[l].device in t'.deviceLocks && t'.deviceLocks[t'.locks[l].device] == l
      {
      }
    }
  }

  /** Every id is new when it is drawn, along a whole run. */
  predicate FreshIds(t: Table, ms: seq<Moment>, ttl: real)
    decreases |ms|
  {
    ms != [] ==> FreshId(t, ms[0]) && FreshIds(Next(t, ms[0], ttl), ms[1..], ttl)
  }

  lemma {:induction false} RunInverse(t: Table, ms: seq<Moment>, ttl: real)
    requires Inverse(t) && FreshIds(t, ms, ttl)
    ensures Inverse(Run(t, ms, ttl))
    decreases |ms|
  {
    hide Inverse, Next;
    if ms != [] {
      NextInverse(t, ms[0], ttl);
      RunInverse(Next(t, ms[0], ttl), ms[1..], ttl);
    }
  }

  // ----- a lock that is tended is kept -----

  predicate Beats(m: Moment, id: string) {
    m.request.Heartbeat? && m.request.lockId == id && m.request.beatPid.Some?
  }

  predicate Reaps(m: Moment) { m.request.Acquire? || m.request.ListDevices? }

  /** Not released, its recorded process alive at every reap, and every reap less than ttl
      after its last heartbeat. */
  predicate Tended(id: string, last: real, pid: Option<int>, ms: seq<Moment>, ttl: real)
    decreases |ms|
  {
    ms != [] ==>
      var m := ms[0];
      && !(m.request.Release? && m.request.lockId == id)
      && (Reaps(m) ==> m.now < last + ttl && (pid.Some? ==> pid.value in m.alive))
      && if Beats(m, id) then Tended(id, m.now, m.request.beatPid, ms[1..], ttl)
         else Tended(id, last, pid, ms[1..], ttl)
  }

  predicate Holds(t: Table, id: string, device: string, last: real, pid: Option<int>, ttl: real) {
    && id in t.locks && t.locks[id].device == device && t.locks[id].pid == pid
    && t.locks[id].lastHeartbeat == last && t.locks[id].expiresAt == last + ttl
  }

  lemma StepHolds(t: Table, m: Moment, id: string, device: string, last: real, pid: Option<int>, ttl: real)
    requires FreshId(t, m) && Holds(t, id, device, last, pid, ttl)
    requires !(m.request.Release? && m.request.lockId == id)
    requires Reaps(m) ==> m.now < last + ttl && (pid.Some? ==> pid.value in m.alive)
    ensures if Beats(m, id) then Holds(Next(t, m, ttl), id, device, m.now, m.request.beatPid, ttl)
            else Holds(Next(t, m, ttl), id, device, last, pid, ttl)
  {
    if Reaps(m) {
      assert Live(t.locks[id], m.now, m.alive);
      assert id in Reaped(t, m.now, m.alive).locks;
    }
  }

  /** Through any interleaving of requests a tended lock stays, with its device, and no
      other lock is ever on that device. */
  lemma {:induction false} TendedIsKept(t: Table, id: string, device: string, last: real, pid: Option<int>, ms: seq<Moment>, ttl: real)
    requires Inverse(t) && FreshIds(t, ms, ttl) && Holds(t, id, device, last, pid, ttl)
    requires Tended(id, last, pid, ms, ttl)
    ensures var end := Run(t, ms, ttl);
            && id in end.locks && end.locks[id].device == device
            && forall other | other in end.locks && end.locks[other].device == device :: other == id
    decreases |ms|
  {
    if ms == [] {
    } else {
      hide Next, Inverse;
      var m := ms[0];
      NextInverse(t, m, ttl);
      StepHolds(t, m, id, device, last, pid, ttl);
      if Beats(m, id) {
        TendedIsKept(Next(t, m, ttl), id, device, m.now, m.request.beatPid, ms[1..], ttl);
      } else {
        TendedIsKept(Next(t, m, ttl), id, device, last, pid, ms[1..], ttl);
      }
    }
  }

  /** At every point of the run, not only at its end. */
  lemma {:induction false} TendedPrefix(id: string, last: real, pid: Option<int>, ms: seq<Moment>, ttl: real, k: nat)
    requires k <= |ms| && Tended(id, last, pid, ms, ttl)
    ensures Tended(id, last, pid, ms[..k], ttl)
    decreases k
  {
    if k > 0 {
      assert ms[..k][1..] == ms[1..][..k - 1];
      if Beats(ms[0], id) {
        TendedPrefix(id, ms[0].now, ms[0].request.beatPid, ms[1..], ttl, k - 1);
      } else {
        TendedPrefix(id, last, pid, ms[1..], ttl, k - 1);
      }
    }
  }

  lemma {:induction false} FreshPrefix(t: Table, ms: seq<Moment>, ttl: real, k: nat)
    requires k <= |ms| && FreshIds(t, ms, ttl)
    ensures FreshIds(t, ms[..k], ttl)
    decreases k
  {
    hide Next, FreshId;
    if k > 0 {
      assert ms[..k][1..] == ms[1..][..k - 1];
      FreshPrefix(Next(t, ms[0], ttl), ms[1..], ttl, k - 1);
    }
  }

  // ----- regular heartbeats tend a lock -----

  predicate Monotone(ms: seq<Moment>, from: real)
    decreases |ms|
  {
    ms != [] ==> from <= ms[0].now && Monotone(ms[1..], ms[0].now)
  }

  /** Every reap is less than ttl after some earlier heartbeat of the lock, or after `last`. */
  ghost predicate Regular(id: string, last: real, ms: seq<Moment>, ttl: real) {
    forall j | 0 <= j < |ms| && Reaps(ms[j]) ::
      ms[j].now < last + ttl || exists i :: 0 <= i < j && Beats(ms[i], id) && ms[j].now < ms[i].now + ttl
  }

  /** The processes that tend the lock are alive at every reap. */
  predicate PidsAlive(id: string, pid: Option<int>, ms: seq<Moment>)
    decreases |ms|
  {
    ms != [] ==>
      && (Reaps(ms[0]) && pid.Some? ==> pid.value in ms[0].alive)
      && PidsAlive(id, if Beats(ms[0], id) then ms[0].request.beatPid else pid, ms[1..])
  }

  /** With time running forward, heartbeats less than ttl apart tend the lock. */
  lemma {:induction false} RegularIsTended(id: string, last: real, from: real, pid: Option<int>, ms: seq<Moment>, ttl: real)
    requires last <= from && Monotone(ms, from)
    requires Regular(id, last, ms, ttl) && PidsAlive(id, pid, ms)
    requires forall m | m in ms :: !(m.request.Release? && m.request.lockId == id)
    ensures Tended(id, last, pid, ms, ttl)
    decreases |ms|
  {
    if ms != [] {
      var m, rest := ms[0], ms[1..];
      var last' := if Beats(m, id) then m.now else last;
      assert forall x | x in rest :: x in ms;
      forall j | 0 <= j < |rest| && Reaps(rest[j])
        ensures rest[j].now < last' + ttl || exists i :: 0 <= i < j && Beats(rest[i], id) && rest[j].now < rest[i].now + ttl
      {
        assert rest[j] == ms[j + 1];
        if !(ms[j + 1].now < last + ttl) {
          var i :| 0 <= i < j + 1 && Beats(ms[i], id) && ms[j + 1].now < ms[i].now + ttl;
          if i > 0 {
            assert rest[i - 1] == ms[i];
          }
        }
      }
      RegularIsTended(id, last', m.now, if Beats(m, id) then m.request.beatPid else pid, rest, ttl);
    }
  }

  /** At every point of every run on which the lock is regularly tended, the lock holds
      its device and nobody else does. */
  lemma HeldThroughout(t: Table, id: string, device: string, last: real, from: real, pid: Option<int>, ms: seq<Moment>, ttl: real, k: nat)
    requires Inverse(t) && FreshIds(t, ms, ttl) && Holds(t, id, device, last, pid, ttl)
    requires last <= from && Monotone(ms, from) && Regular(id, last, ms, ttl) && PidsAlive(id, pid, ms)
    requires forall m | m in ms :: !(m.request.Release? && m.request.lockId == id)
    requires k <= |ms|
    ensures var then_ := Run(t, ms[..k], ttl);
            && id in then_.locks && then_.locks[id].device == device
            && forall other | other in then_.locks && then_.locks[other].device == device :: other == id
  {
    hide Inverse, FreshIds, Tended, Run, Regular, Monotone, PidsAlive;
    RegularIsTended(id, last, from, pid, ms, ttl);
    TendedPrefix(id, last, pid, ms, ttl, k);
    FreshPrefix(t, ms, ttl, k);
    TendedIsKept(t, id, device, last, pid, ms[..k], ttl);
  }

  // ----- a lock that is not tended goes -----

  /** Without another heartbeat, a lock is gone from the first reap at or past its expiry on. */
  lemma {:induction false} AbandonedGoes(t: Table, id: string, expiry: real, ms: seq<Moment>, ttl: real)
    requires id in t.locks ==> t.locks[id].expiresAt == expiry
    requires forall m | m in ms :: !Beats(m, id) && (m.request.Acquire? ==> m.request.newId != id)
    requires id !in t.locks || exists m :: m in ms && Reaps(m) && m.now >= expiry
    ensures id !in Run(t, ms, ttl).locks
    decreases |ms|
  {
    hide Next;
    if ms != [] {
      assert ms[0] in ms && forall m | m in ms[1..] :: m in ms;
      StepAbandons(t, id, ms[0], ttl);
      if id in Next(t, ms[0], ttl).locks {
        var m :| m in ms && Reaps(m) && m.now >= expiry;
        assert m != ms[0];
        assert m in ms[1..];
      }
      AbandonedGoes(Next(t, ms[0], ttl), id, expiry, ms[1..], ttl);
    }
  }

  lemma StepAbandons(t: Table, id: string, m: Moment, ttl: real)
    requires !Beats(m, id) && (m.request.Acquire? ==> m.request.newId != id)
    ensures var t' := Next(t, m, ttl);
            && (id in t'.locks ==> id in t.locks && t'.locks[id] == t.locks[id])
            && (id in t'.locks && Reaps(m) ==> m.now < t.locks[id].expiresAt)
  {
    hide Reaped;
    ReapedExactly(t, m.now, m.alive);
  }
}
