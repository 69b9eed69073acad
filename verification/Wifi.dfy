/** The WiFi state machine and the two loops that drive it. Whether an attempt succeeds is
    decided by an arbitrary sequence of outcomes. */
module Wifi {
  import opened Wrappers
  import opened Floats

  const U32_COUNT: nat := 0x1_0000_0000
  const U64_MAX: nat := 0xFFFF_FFFF_FFFF_FFFF

  type U32 = x: int | 0 <= x < 0x1_0000_0000

  datatype State = Unconfigured | Connecting(ssidIndex: nat) | Connected | Backoff | Portal

  datatype Action = TryConnect(ssidIndex: nat) | StartPortal | StopPortal | WaitBackoff(ms: U64) | Idle

  datatype Event = ConnectSuccess | ConnectFailed | ConnectionLost | BackoffComplete | SavedSsidFound(ssidIndex: nat)

  datatype Config = Config(maxRotations: U32, initialBackoffMs: U64, maxBackoffMs: U64)

  /** The fields of the machine as one value. */
  datatype View = View(state: State, numCreds: nat, rotation: U32)

  // ----- backoff -----

  function Pow2(k: nat): nat { if k == 0 then 1 else 2 * Pow2(k - 1) }

  function SaturatingMul(a: U64, b: nat): U64 { if a as int * b > U64_MAX then U64_MAX else a * b }

  function BackoffFor(c: Config, rotation: U32): U64 {
    var ms := SaturatingMul(c.initialBackoffMs, Pow2(if rotation < 16 then rotation else 16));
    if ms < c.maxBackoffMs then ms else c.maxBackoffMs
  }

  function Min(a: nat, b: nat): nat { if a < b then a else b }

  lemma {:induction false} Pow2Grows(j: nat, k: nat)
    requires j <= k
    ensures 1 <= Pow2(j) <= Pow2(k)
    decreases k
  {
    if j < k {
      Pow2Grows(j, k - 1);
    } else if k > 0 {
      Pow2Grows(j - 1, k - 1);
    }
  }

  /** Saturation is never seen: each delay is min(initial * 2^min(r, 16), max), and later
      rotations never wait less. */
  lemma BackoffFormula(c: Config, r: U32, s: U32)
    requires r <= s
    ensures BackoffFor(c, r) == Min(c.initialBackoffMs * Pow2(Min(r, 16)), c.maxBackoffMs)
    ensures BackoffFor(c, r) <= BackoffFor(c, s) <= c.maxBackoffMs
  {
    var j, k := Min(r, 16), Min(s, 16);
    Pow2Grows(j, k);
    ProductGrows(c.initialBackoffMs, Pow2(j), Pow2(k));
  }

  lemma ProductGrows(a: nat, x: nat, y: nat)
    requires x <= y
    ensures a * x <= a * y
  {
  }

  // ----- one event -----

  function RotationDone(c: Config, v: View): (View, Action) {
    var r := (v.rotation + 1) % U32_COUNT;
    if r >= c.maxRotations then (v.(state := Portal, rotation := r), StartPortal)
    else (v.(state := Backoff, rotation := r), WaitBackoff(BackoffFor(c, r)))
  }

  function Step(c: Config, v: View, e: Event): (View, Action) {
    match (v.state, e)
    case (Connecting(_), ConnectSuccess) => (v.(state := Connected), Idle)
    case (Connecting(i), ConnectFailed) =>
      if i + 1 < v.numCreds then (v.(state := Connecting(i + 1)), TryConnect(i + 1)) else RotationDone(c, v)
    case (Connected, ConnectionLost) => (v.(state := Connecting(0), rotation := 0), TryConnect(0))
    case (Backoff, BackoffComplete) => (v.(state := Connecting(0)), TryConnect(0))
    case (Portal, SavedSsidFound(i)) => (v.(state := Connecting(i)), TryConnect(i))
    case (Unconfigured, SavedSsidFound(i)) => (v.(state := Connecting(i)), TryConnect(i))
    case _ => (v, Idle)
  }

  /** An attempt is only ever under way on a credential that exists. */
  predicate InRange(v: View) {
    && (v.state.Connecting? ==> v.state.ssidIndex < v.numCreds)
    && (v.state.Connected? || v.state.Backoff? ==> v.numCreds > 0)
  }

  /** Every event keeps the index in range, except a found SSID that is out of range: that
      one is taken as it is, in exactly the two states that listen for it. */
  lemma StepInRange(c: Config, v: View, e: Event)
    requires InRange(v)
    ensures InRange(Step(c, v, e).0) <==>
            !(e.SavedSsidFound? && (v.state.Portal? || v.state.Unconfigured?) && e.ssidIndex >= v.numCreds)
    ensures Step(c, v, e).1.TryConnect? ==> Step(c, v, e).0.state == Connecting(Step(c, v, e).1.ssidIndex)
    ensures Step(c, v, e).0.numCreds == v.numCreds
  {
  }

  /** Which events a machine in this state listens to. */
  predicate Listens(s: State, e: Event) {
    match e
    case ConnectSuccess => s.Connecting?
    case ConnectFailed => s.Connecting?
    case ConnectionLost => s == Connected
    case BackoffComplete => s == Backoff
    case SavedSsidFound(_) => s == Portal || s == Unconfigured
  }

  /** Exactly the other events leave the machine as it was, and then nothing is to be done. A
      found network is tried, whichever it is, and a success leaves nothing to do. */
  lemma IgnoredIffDeaf(c: Config, v: View, e: Event)
    ensures Step(c, v, e).0 == v <==> !Listens(v.state, e)
    ensures !Listens(v.state, e) ==> Step(c, v, e).1 == Idle
    ensures Listens(v.state, e) ==> (Step(c, v, e).1 == Idle <==> e == ConnectSuccess)
    ensures Listens(v.state, e) ==> (Step(c, v, e).0.state == Connected <==> e == ConnectSuccess)
    ensures Listens(v.state, e) && e.SavedSsidFound? ==> Step(c, v, e).1 == TryConnect(e.ssidIndex)
  {
  }

  class WifiSm {
    var state: State
    var numCreds: nat
    const config: Config
    var rotation: U32

    function Fields(): View
      reads this
    {
      View(state, numCreds, rotation)
    }

    constructor (numCreds: nat, config: Config)
      ensures this.config == config && InRange(Fields())
      ensures Fields() == View(if numCreds == 0 then Unconfigured else Connecting(0), numCreds, 0)
    {
      state := if numCreds == 0 then Unconfigured else Connecting(0);
      this.numCreds, this.config, rotation := numCreds, config, 0;
    }

    function InitialAction(): (a: Action)
      reads this
      ensures a.TryConnect? <==> state.Connecting?
      ensures a.TryConnect? ==> a.ssidIndex == state.ssidIndex
      ensures a.StartPortal? <==> state.Unconfigured?
    {
      match state
      case Unconfigured => StartPortal
      case Connecting(i) => TryConnect(i)
      case _ => Idle
    }

    method HandleEvent(event: Event) returns (action: Action)
      modifies this
      ensures (Fields(), action) == Step(config, old(Fields()), event)
    {
      match (state, event) {
        case (Connecting(_), ConnectSuccess) =>
          state := Connected;
          return Idle;
        case (Connecting(i), ConnectFailed) =>
          var next := i + 1;
          if next < numCreds {
            state := Connecting(next);
            return TryConnect(next);
          }
          action := StartBackoffOrPortal();
        case (Connected, ConnectionLost) =>
          rotation, state := 0, Connecting(0);
          return TryConnect(0);
        case (Backoff, BackoffComplete) =>
          state := Connecting(0);
          return TryConnect(0);
        case (Portal, SavedSsidFound(i)) =>
          state := Connecting(i);
          return TryConnect(i);
        case (Unconfigured, SavedSsidFound(i)) =>
          state := Connecting(i);
          return TryConnect(i);
        case _ => return Idle;
      }
    }

    method StartBackoffOrPortal() returns (action: Action)
      modifies this`rotation, this`state
      ensures (Fields(), action) == RotationDone(config, old(Fields()))
    {
      rotation := (rotation + 1) % U32_COUNT;
      if rotation >= config.maxRotations {
        state := Portal;
        return StartPortal;
      }
      var ms := BackoffFor(config, rotation);
      state := Backoff;
      return WaitBackoff(ms);
    }

    /** A new list of credentials: a start index past its end is pulled back into it. */
    method CredentialsUpdated(creds: nat, startIndex: nat) returns (action: Action)
      modifies this
      ensures InRange(Fields()) && numCreds == creds && rotation == 0
      ensures if creds == 0 then action == StartPortal && state == Unconfigured
              else action.TryConnect? && state == Connecting(action.ssidIndex)
                   && action.ssidIndex == Min(startIndex, creds - 1)
    {
      numCreds, rotation := creds, 0;
      if creds == 0 {
        state := Unconfigured;
        return StartPortal;
      }
      var idx := Min(startIndex, creds - 1);
      state := Connecting(idx);
      return TryConnect(idx);
    }

    method PortalConnectSucceeded() returns (action: Action)
      modifies this`state
      ensures state == Connected && action == StopPortal
    {
      state := Connected;
      return StopPortal;
    }
  }

  // ----- the initial loop -----

  /** What a run of the initial loop does, in order. */
  datatype Deed = Attempt(ssidIndex: nat) | Slept(ms: U64) | Joined | PortalUp

  /** How many more rotations can end before the portal opens. */
  function RoundsLeft(c: Config, v: View): nat {
    if !v.state.Connecting? && !v.state.Backoff? then 0
    else if v.rotation + 1 == U32_COUNT then c.maxRotations + 1
    else if v.rotation < c.maxRotations then c.maxRotations - v.rotation
    else 1
  }

  function Rank(v: View): nat {
    match v.state
    case Backoff => v.numCreds + 2
    case Connecting(i) => if i < v.numCreds then v.numCreds - i + 1 else 1
    case _ => 0
  }

  /** The run from a given state, with outcome `k` deciding the next attempt. */
  function Course(c: Config, v: View, outcomes: nat -> bool, k: nat): (View, seq<Deed>)
    decreases RoundsLeft(c, v), Rank(v)
  {
    match v.state
    case Connected => (v, [Joined])
    case Portal => (v, [PortalUp])
    case Unconfigured => (v, [PortalUp])
    case Connecting(i) =>
      var next := Step(c, v, if outcomes(k) then ConnectSuccess else ConnectFailed).0;
      var (end, deeds) := Course(c, next, outcomes, k + 1);
      (end, [Attempt(i)] + deeds)
    case Backoff =>
      var (end, deeds) := Course(c, Step(c, v, BackoffComplete).0, outcomes, k);
      (end, [Slept(BackoffFor(c, v.rotation))] + deeds)
  }

  /** What the machine is fed while it connects brings it closer to an end. */
  lemma Closer(c: Config, v: View, e: Event)
    requires InRange(v)
    requires if v.state.Connecting? then e == ConnectSuccess || e == ConnectFailed else v.state.Backoff? && e == BackoffComplete
    ensures var next := Step(c, v, e).0;
            && InRange(next) && next.numCreds == v.numCreds
            && (RoundsLeft(c, next) < RoundsLeft(c, v) ||
                (RoundsLeft(c, next) == RoundsLeft(c, v) && Rank(next) < Rank(v)))
  {
  }

  lemma CourseStep(c: Config, v: View, outcomes: nat -> bool, k: nat, deeds: seq<Deed>)
    ensures v.state.Connecting? ==>
      var rest := Course(c, Step(c, v, if outcomes(k) then ConnectSuccess else ConnectFailed).0, outcomes, k + 1);
      && Course(c, v, outcomes, k).0 == rest.0
      && deeds + Course(c, v, outcomes, k).1 == deeds + [Attempt(v.state.ssidIndex)] + rest.1
    ensures v.state.Backoff? ==>
      var rest := Course(c, Step(c, v, BackoffComplete).0, outcomes, k);
      && Course(c, v, outcomes, k).0 == rest.0
      && deeds + Course(c, v, outcomes, k).1 == deeds + [Slept(BackoffFor(c, v.rotation))] + rest.1
    ensures !v.state.Connecting? && !v.state.Backoff? ==>
      Course(c, v, outcomes, k) == (v, [if v.state.Connected? then Joined else PortalUp])
  {
    hide Step, BackoffFor;
  }

  /** Drives the machine until it is connected or the portal is up. It ends for every
      sequence of outcomes and never indexes outside the credentials. */
  method DriveInitialConnect(sm: WifiSm, creds: seq<(string, string)>, outcomes: nat -> bool, apStarts: bool, wasActive: bool)
    returns (apActive: bool, deeds: seq<Deed>, ghost tried: seq<(string, string)>)
    requires InRange(sm.Fields()) && |creds| == sm.numCreds
    modifies sm
    ensures (sm.Fields(), deeds) == Course(sm.config, old(sm.Fields()), outcomes, 0)
    ensures sm.state.Connected? || sm.state.Portal? || sm.state.Unconfigured?
    ensures apActive == (wasActive || (apStarts && !sm.state.Connected?))
    ensures forall pair | pair in tried :: pair in creds
  {
    hide BackoffFor, Step, RoundsLeft, Rank, Course;
    apActive, deeds, tried := wasActive, [], [];
    var k := 0;
    ghost var start := sm.Fields();
    while true
      invariant InRange(sm.Fields()) && sm.numCreds == |creds| && apActive == wasActive
      invariant var all, rest := Course(sm.config, start, outcomes, 0), Course(sm.config, sm.Fields(), outcomes, k);
                all.0 == rest.0 && all.1 == deeds + rest.1
      invariant forall pair | pair in tried :: pair in creds
      decreases RoundsLeft(sm.config, sm.Fields()), Rank(sm.Fields())
    {
      CourseStep(sm.config, sm.Fields(), outcomes, k, deeds);
      match sm.state {
        case Connected =>
          deeds := deeds + [Joined];
          return;
        case Portal =>
          apActive := apActive || apStarts;
          deeds := deeds + [PortalUp];
          return;
        case Unconfigured =>
          apActive := apActive || apStarts;
          deeds := deeds + [PortalUp];
          return;
        case Connecting(idx) =>
          tried := tried + [creds[idx]];
          deeds := deeds + [Attempt(idx)];
          var event := if outcomes(k) then ConnectSuccess else ConnectFailed;
          k := k + 1;
          Closer(sm.config, sm.Fields(), event);
          var _ := sm.HandleEvent(event);
        case Backoff =>
          Closer(sm.config, sm.Fields(), BackoffComplete);
          deeds := deeds + [Slept(BackoffFor(sm.config, sm.rotation))];
          var _ := sm.HandleEvent(BackoffComplete);
      }
    }
  }

  // ----- when every attempt fails -----

  function AttemptsFrom(i: nat, n: nat): seq<Deed>
    requires i <= n
    decreases n - i
  {
    if i == n then [] else [Attempt(i)] + AttemptsFrom(i + 1, n)
  }

  /** All credentials in order, once per rotation, with one pause between rotations. */
  function AllFail(c: Config, n: nat, r: nat): seq<Deed>
    requires r < U32_COUNT
    decreases c.maxRotations - r
  {
    AttemptsFrom(0, n) +
    if r + 1 >= c.maxRotations then [PortalUp] else [Slept(BackoffFor(c, r + 1))] + AllFail(c, n, r + 1)
  }

  function Never(): nat -> bool { (_: nat) => false }

  lemma {:induction false} RotationFails(c: Config, n: nat, r: U32, i: nat, k: nat)
    requires i < n && (r < c.maxRotations || r == 0)
    ensures var tail := AttemptsFrom(i, n) +
                        (if r + 1 >= c.maxRotations then [PortalUp] else [Slept(BackoffFor(c, r + 1))] + AllFail(c, n, r + 1));
            Course(c, View(Connecting(i), n, r), Never(), k) ==
            (View(Portal, n, (if c.maxRotations > 1 then c.maxRotations else 1)), tail)
    decreases c.maxRotations - r, n - i
  {
    hide BackoffFor;
    var v := View(Connecting(i), n, r);
    assert Never()(k) == false;
    var last := if r + 1 >= c.maxRotations then [PortalUp] else [Slept(BackoffFor(c, r + 1))] + AllFail(c, n, r + 1);
    assert AttemptsFrom(i, n) + last == [Attempt(i)] + (AttemptsFrom(i + 1, n) + last);
    if i + 1 < n {
      RotationFails(c, n, r, i + 1, k + 1);
    } else {
      assert AttemptsFrom(i + 1, n) == [] && [] + last == last;
      assert (r + 1) % U32_COUNT == r + 1 by { WrapNever(c, r); }
      var next := Step(c, v, ConnectFailed).0;
      assert next == RotationDone(c, v).0;
      assert Course(c, v, Never(), k).1 == [Attempt(i)] + Course(c, next, Never(), k + 1).1;
      if r + 1 < c.maxRotations {
        RotationFails(c, n, r + 1, 0, k + 1);
        var again := View(Connecting(0), n, r + 1);
        assert next == View(Backoff, n, r + 1) && Step(c, next, BackoffComplete).0 == again;
        assert Course(c, next, Never(), k + 1).1 == [Slept(BackoffFor(c, r + 1))] + Course(c, again, Never(), k + 1).1;
      }
    }
  }

  lemma WrapNever(c: Config, r: U32)
    requires r < c.maxRotations || r == 0
    ensures (r + 1) % U32_COUNT == r + 1
  {
    assert r + 1 < U32_COUNT;
  }

  /** With credentials and no luck: every credential in order, max(1, maxRotations) times,
      one pause between rotations, and the portal at the end. */
  lemma NoLuck(c: Config, n: nat)
    requires n > 0
    ensures var (end, deeds) := Course(c, View(Connecting(0), n, 0), Never(), 0);
            end.state == Portal && deeds == AllFail(c, n, 0)
  {
    RotationFails(c, n, 0, 0, 0);
  }

  function CountAttempts(deeds: seq<Deed>): nat {
    if deeds == [] then 0 else (if deeds[0].Attempt? then 1 else 0) + CountAttempts(deeds[1..])
  }

  function CountSleeps(deeds: seq<Deed>): nat {
    if deeds == [] then 0 else (if deeds[0].Slept? then 1 else 0) + CountSleeps(deeds[1..])
  }

  lemma {:induction false} CountAppend(a: seq<Deed>, b: seq<Deed>)
    ensures CountAttempts(a + b) == CountAttempts(a) + CountAttempts(b)
    ensures CountSleeps(a + b) == CountSleeps(a) + CountSleeps(b)
    decreases |a|
  {
    if a == [] {
      assert a + b == b;
    } else {
      assert (a + b)[1..] == a[1..] + b;
      CountAppend(a[1..], b);
    }
  }

  lemma {:induction false} CountRotation(i: nat, n: nat)
    requires i <= n
    ensures CountAttempts(AttemptsFrom(i, n)) == n - i && CountSleeps(AttemptsFrom(i, n)) == 0
    decreases n - i
  {
    if i < n {
      CountRotation(i + 1, n);
      assert AttemptsFrom(i, n)[1..] == AttemptsFrom(i + 1, n);
    }
  }

  lemma {:induction false} AllFailCounts(c: Config, n: nat, r: U32)
    requires r < c.maxRotations || r == 0
    ensures var rounds := if r < c.maxRotations then c.maxRotations - r else 1;
            CountAttempts(AllFail(c, n, r)) == n * rounds && CountSleeps(AllFail(c, n, r)) == rounds - 1
    decreases c.maxRotations - r
  {
    hide BackoffFor;
    CountRotation(0, n);
    if r + 1 >= c.maxRotations {
      CountAppend(AttemptsFrom(0, n), [PortalUp]);
      assert [PortalUp][1..] == [];
    } else {
      var sleep, rest := [Slept(BackoffFor(c, r + 1))], AllFail(c, n, r + 1);
      AllFailCounts(c, n, r + 1);
      CountAppend(AttemptsFrom(0, n), sleep + rest);
      CountAppend(sleep, rest);
      assert sleep[1..] == [];
      Distribute(n, c.maxRotations - r - 1);
    }
  }

  lemma Distribute(n: nat, k: nat)
    ensures n + n * k == n * (k + 1)
  {
  }

  /** Whatever the outcomes, the attempts follow the course of all failures up to the first
      success, where the run ends connected. */
  lemma {:induction false} FollowsUntilJoined(c: Config, v: View, outcomes: nat -> bool, k: nat)
    ensures var (end, deeds) := Course(c, v, outcomes, k);
            var (end', all) := Course(c, v, Never(), k);
            if end.state.Connected? then deeds != [] && deeds[|deeds| - 1] == Joined && deeds[..|deeds| - 1] <= all
            else end == end' && deeds == all
    decreases RoundsLeft(c, v), Rank(v)
  {
    hide BackoffFor;
    match v.state {
      case Connecting(i) =>
        assert Never()(k) == false;
        if outcomes(k) {
          var next := Step(c, v, ConnectSuccess).0;
          assert Course(c, next, outcomes, k + 1) == (next, [Joined]);
          assert ([Attempt(i)] + [Joined])[..1] == [Attempt(i)];
        } else {
          var next := Step(c, v, ConnectFailed).0;
          FollowsUntilJoined(c, next, outcomes, k + 1);
          var deeds := Course(c, next, outcomes, k + 1).1;
          assert deeds != [] ==> ([Attempt(i)] + deeds)[..|deeds|] == [Attempt(i)] + deeds[..|deeds| - 1];
        }
      case Backoff =>
        var next := Step(c, v, BackoffComplete).0;
        FollowsUntilJoined(c, next, outcomes, k);
        var sleep, deeds := [Slept(BackoffFor(c, v.rotation))], Course(c, next, outcomes, k).1;
        assert deeds != [] ==> (sleep + deeds)[..|deeds|] == sleep + deeds[..|deeds| - 1];
      case _ =>
    }
  }

  // ----- the reconnect loop -----

  datatype Mode = Normal | PortalMode

  /** What the reconnect loop leaves behind besides the machine. */
  datatype Surroundings = Surroundings(apActive: bool, dns: bool, mode: Mode, deadlineMs: Option<U64>)

  function Settled(s: Surroundings, a: Action, apStarts: bool, apStops: bool): Surroundings {
    match a
    case StartPortal => if !s.apActive && apStarts then s.(apActive := true, dns := true, mode := PortalMode) else s
    case StopPortal => s.(dns := false, mode := Normal, apActive := s.apActive && !apStops)
    case WaitBackoff(ms) => s.(deadlineMs := Some(ms))
    case _ => s
  }

  /** The machine after the attempts of one rotation, the action that ended them, and the
      indices tried. */
  function Reconnect(c: Config, v: View, a: Action, creds: nat, outcomes: nat -> bool, k: nat): (View, Action, seq<nat>)
    decreases if a.TryConnect? then 1 + Rank(v) else 0
  {
    if !a.TryConnect? || a.ssidIndex >= creds then (v, a, [])
    else
      var (v', a') := Step(c, v, if outcomes(k) then ConnectSuccess else ConnectFailed);
      var (end, last, tried) := Reconnect(c, v', a', creds, outcomes, k + 1);
      (end, last, [a.ssidIndex] + tried)
  }

  /** The credentials at some indices. */
  ghost predicate Picked(creds: seq<(string, string)>, indices: seq<nat>, tried: seq<(string, string)>) {
    |tried| == |indices| && forall i | 0 <= i < |indices| :: indices[i] < |creds| && tried[i] == creds[indices[i]]
  }

  /** Ends for every action, every machine and every sequence of outcomes, and checks each
      index before using it. */
  method HandleReconnectAction(sm: WifiSm, creds: seq<(string, string)>, first: Action, outcomes: nat -> bool,
                               before: Surroundings, apStarts: bool, apStops: bool)
    returns (after: Surroundings, ghost tried: seq<(string, string)>)
    modifies sm
    ensures var (v, a, indices) := Reconnect(sm.config, old(sm.Fields()), first, |creds|, outcomes, 0);
            && sm.Fields() == v && after == Settled(before, a, apStarts, apStops)
            && Picked(creds, indices, tried)
    ensures first.StopPortal? ==>
      after == Surroundings(before.apActive && !apStops, false, Normal, before.deadlineMs) && sm.Fields() == old(sm.Fields())
  {
    hide BackoffFor, Step;
    after, tried := before, [];
    var action, k := first, 0;
    ghost var indices: seq<nat> := [];
    while true
      invariant var all, rest := Reconnect(sm.config, old(sm.Fields()), first, |creds|, outcomes, 0),
                                 Reconnect(sm.config, sm.Fields(), action, |creds|, outcomes, k);
                all.0 == rest.0 && all.1 == rest.1 && all.2 == indices + rest.2
      invariant after == before && Picked(creds, indices, tried)
      invariant first.StopPortal? ==> action == first && sm.Fields() == old(sm.Fields())
      decreases if action.TryConnect? then 1 + Rank(sm.Fields()) else 0
    {
      match action {
        case TryConnect(i) =>
          if i >= |creds| {
            break;
          }
          var event := if outcomes(k) then ConnectSuccess else ConnectFailed;
          NextAttempt(sm.config, sm.Fields(), event);
          tried, indices := tried + [creds[i]], indices + [i];
          k := k + 1;
          action := sm.HandleEvent(event);
        case StartPortal =>
          if !after.apActive && apStarts {
            after := after.(apActive := true, dns := true, mode := PortalMode);
          }
          break;
        case StopPortal =>
          after := after.(dns := false);
          if after.apActive && apStops {
            after := after.(apActive := false);
          }
          after := after.(mode := Normal);
          break;
        case WaitBackoff(ms) =>
          after := after.(deadlineMs := Some(ms));
          break;
        case Idle => break;
      }
    }
  }

  lemma NextAttempt(c: Config, v: View, e: Event)
    requires e == ConnectSuccess || e == ConnectFailed
    ensures Step(c, v, e).1.TryConnect? ==> Rank(Step(c, v, e).0) < Rank(v)
  {
  }

  function Upto(i: nat, j: nat): seq<nat>
    requires i <= j
    decreases j - i
  {
    if i == j then [] else [i] + Upto(i + 1, j)
  }

  /** How many of the next `m` attempts fail before one succeeds. */
  function Failures(outcomes: nat -> bool, k: nat, m: nat): nat
    decreases m
  {
    if m == 0 || outcomes(k) then 0 else 1 + Failures(outcomes, k + 1, m - 1)
  }

  lemma {:induction false} FailuresAre(outcomes: nat -> bool, k: nat, m: nat)
    ensures var f := Failures(outcomes, k, m);
            f <= m && (f < m ==> outcomes(k + f)) && forall j | k <= j < k + f :: !outcomes(j)
    decreases m
  {
    if m > 0 && !outcomes(k) {
      FailuresAre(outcomes, k + 1, m - 1);
    }
  }

  /** Attempts from credential `i` on: in order up to the first success, where the machine is
      connected and nothing is left to do; or all of them, and the rotation is over. */
  lemma {:induction false} ReconnectRuns(c: Config, n: nat, r: U32, i: nat, outcomes: nat -> bool, k: nat)
    requires i < n
    ensures var f := Failures(outcomes, k, n - i);
            Reconnect(c, View(Connecting(i), n, r), TryConnect(i), n, outcomes, k) ==
            if f < n - i then (View(Connected, n, r), Idle, Upto(i, i + f + 1))
            else var (v, a) := RotationDone(c, View(Connecting(n - 1), n, r)); (v, a, Upto(i, n))
    decreases n - i
  {
    hide BackoffFor, RotationDone;
    FailuresAre(outcomes, k, n - i);
    var v := View(Connecting(i), n, r);
    assert Upto(i + 1, i + 1) == [] && [i] + [] == [i];
    if outcomes(k) {
      assert Reconnect(c, View(Connected, n, r), Idle, n, outcomes, k + 1) == (View(Connected, n, r), Idle, []);
    } else if i + 1 < n {
      ReconnectRuns(c, n, r, i + 1, outcomes, k + 1);
    } else {
      DoneRotating(c, v);
      var (v', a') := RotationDone(c, v);
      assert Reconnect(c, v', a', n, outcomes, k + 1) == (v', a', []);
    }
  }

  lemma DoneRotating(c: Config, v: View)
    ensures !RotationDone(c, v).1.TryConnect?
  {
  }

  lemma {:induction false} UptoAt(i: nat, j: nat)
    requires i <= j
    ensures |Upto(i, j)| == j - i && forall k | 0 <= k < j - i :: Upto(i, j)[k] == i + k
    decreases j - i
  {
    if i < j {
      UptoAt(i + 1, j);
    }
  }

  /** What the main loop does when the connection is gone: the credentials are tried from the
      first one on, up to the first that connects. If none does, one pause is set up, of twice
      the initial delay up to the limit, or the portal opens if one rotation is all there is. */
  method ConnectionGone(sm: WifiSm, creds: seq<(string, string)>, outcomes: nat -> bool, before: Surroundings, apStarts: bool, apStops: bool)
    returns (after: Surroundings, ghost tried: seq<(string, string)>)
    requires sm.state == Connected && sm.numCreds == |creds| > 0
    modifies sm
    ensures sm.numCreds == |creds|
    ensures
      || (exists s :: 0 <= s < |creds| && outcomes(s) && (forall j | 0 <= j < s :: !outcomes(j))
                      && tried == creds[..s + 1] && sm.state == Connected && sm.rotation == 0 && after == before)
      || ((forall j | 0 <= j < |creds| :: !outcomes(j)) && tried == creds && sm.rotation == 1 &&
          if sm.config.maxRotations <= 1 then
            && sm.state == Portal
            && after == if before.apActive || !apStarts then before else Surroundings(true, true, PortalMode, before.deadlineMs)
          else
            && sm.state == Backoff
            && after == before.(deadlineMs := Some(Min(sm.config.initialBackoffMs * 2, sm.config.maxBackoffMs))))
  {
    hide BackoffFor, Reconnect, RotationDone, Upto, Failures;
    ghost var c, n := sm.config, |creds|;
    var action := sm.HandleEvent(ConnectionLost);
    assert sm.Fields() == View(Connecting(0), n, 0) && action == TryConnect(0);
    ReconnectRuns(c, n, 0, 0, outcomes, 0);
    after, tried := HandleReconnectAction(sm, creds, action, outcomes, before, apStarts, apStops);
    FailuresAre(outcomes, 0, n);
    ghost var f := Failures(outcomes, 0, n);
    if f < n {
      UptoAt(0, f + 1);
      assert tried == creds[..f + 1];
    } else {
      UptoAt(0, n);
      assert tried == creds;
      FirstPause(c, n - 1);
    }
  }

  lemma FirstPause(c: Config, n: nat)
    ensures RotationDone(c, View(Connecting(n), n + 1, 0)) ==
            if c.maxRotations <= 1 then (View(Portal, n + 1, 1), StartPortal)
            else (View(Backoff, n + 1, 1), WaitBackoff(Min(c.initialBackoffMs * 2, c.maxBackoffMs)))
  {
    hide BackoffFor;
    BackoffFormula(c, 1, 1);
    assert Pow2(Min(1, 16)) == 2 * Pow2(0) == 2;
  }

  /** Losing a connection and failing everywhere: one pause is set up after the first
      rotation, or the portal opens if only one rotation is allowed. */
  lemma ReconnectFails(c: Config, n: nat, r: U32, i: nat, k: nat)
    requires i < n
    ensures var (v, a, tried) := Reconnect(c, View(Connecting(i), n, r), TryConnect(i), n, Never(), k);
            (v, a) == RotationDone(c, View(Connecting(n - 1), n, r)) && tried == Upto(i, n)
  {
    hide RotationDone, Reconnect, Upto, Failures;
    ReconnectRuns(c, n, r, i, Never(), k);
    FailuresAre(Never(), k, n - i);
  }
}
