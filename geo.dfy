/** `lsw/main_geo.py` as it runs: the signal flag object, the module
    globals updated by the two device callbacks, and `main`. Each method's
    contract ties the new state to the functions of `GeoSpec`, where the
    correction rule and the start-up and shutdown order are proved. */
module Geo {
  import opened Wrappers
  import opened Utils
  import opened GeoSpec

  /** Set by SIGINT and SIGTERM; `main` polls it. */
  class GracefulKiller {
    var killNow: bool

    constructor ()
      ensures !killNow
    {
      killNow := false;
    }

    /** The signal handler: whatever the signal, the flag is set, and
        setting it again changes nothing. */
    method ExitGracefully(signum: int)
      modifies this
      ensures killNow
    {
      killNow := true;
    }
  }

  /** The module globals `r_sun`, `f_pos`, `f_ori` and the commands sent
      to the stepper and the two bricklets. */
  class Station {
    /** How the position row is built (see `GeoSpec.RowFormat`). */
    const format: RowFormat
    var target: Option<real>
    var positions: seq<PositionRow>
    var orientations: seq<OrientationRow>
    var trace: seq<Command>

    ghost function State(): StationState
      reads this
    {
      StationState(target, positions, orientations, trace)
    }

    constructor (format: RowFormat)
      ensures State() == StationState(None, [], [], []) && this.format == format
    {
      this.format := format;
      target := None;
      positions := [];
      orientations := [];
      trace := [];
    }

    method Send(c: Command)
      modifies this
      ensures State() == old(State()).(trace := old(trace) + [c])
    {
      trace := trace + [c];
    }

    /** The start-up target of line 110: the normalised solar azimuth of
        the first coordinates; `lnle2ll` raises on an unknown letter. */
    method SetInitialTarget(r: Reading, num: Numerics) returns (err: Option<LookupError>)
      modifies this
      ensures var ll := LnLe2LL(r.latitude, r.ns, r.longitude, r.ew);
        && (ll.Failure? ==> err == Some(ll.error) && State() == old(State()))
        && (ll.Success? ==>
              && err == None
              && State() == old(State()).(target := Some(NormalizeAngle(num.azimuth(r.time, ll.value.0, ll.value.1, Altitude(r))))))
    {
      var ll := LnLe2LL(r.latitude, r.ns, r.longitude, r.ew);
      if ll.Failure? {
        return Some(ll.error);
      }
      var saa := num.azimuth(r.time, ll.value.0, ll.value.1, Altitude(r));
      target := Some(NormalizeAngle(saa));
      err := None;
    }

    /** `get_solar_azimuth`'s loop (lines 56-58): one second's wait per
        status poll without a fix; `None` when the polls run out first. */
    method WaitForFix(statuses: seq<bool>) returns (fix: Option<nat>)
      modifies this
      ensures fix == FirstFix(statuses)
      ensures State() == old(State()).(trace := old(trace) + FixWait(if fix.Some? then fix.value else |statuses|))
    {
      var i := 0;
      while i < |statuses| && !statuses[i]
        invariant 0 <= i <= |statuses|
        invariant forall j :: 0 <= j < i ==> !statuses[j]
        invariant State() == old(State()).(trace := old(trace) + FixWait(i))
      {
        Send(Sleep(1000));
        assert FixWait(i + 1) == FixWait(i) + [Sleep(1000)];
        i := i + 1;
      }
      fix := if i == |statuses| then None else Some(i);
    }

    /** Lines 125-133: both callbacks off, the final coordinates written,
        then stop, fast ramp-down, 0.4 s and power off; when that last
        `cb_coordinates` raises, `main` ends after disarming. */
    method Finish(last: Reading, num: Numerics) returns (outcome: Outcome)
      modifies this
      ensures Session(outcome, State()) == GeoSpec.Finish(old(State()), last, num, format)
    {
      Send(SetQuaternionCallbackConfiguration(0, false));
      Send(SetCoordinatesCallbackPeriod(0));
      var err := OnCoordinates(last, num);
      if err.Some? {
        return FlushFailed(err.value);
      }
      Send(Stop);
      Send(SetSpeedRamping(500, 5000));
      Send(Sleep(400));
      Send(Disable);
      outcome := Stopped;
    }

    /** `cb_coordinates`; `err` is what it raises. */
    method OnCoordinates(r: Reading, num: Numerics) returns (err: Option<CallbackError>)
      modifies this
      ensures (State(), err) == GeoSpec.OnCoordinates(old(State()), r, num, format)
    {
      var ll := LnLe2LL(r.latitude, r.ns, r.longitude, r.ew);
      if ll.Failure? {
        return Some(KeyErrorRaised(ll.error));
      }
      var saa := num.azimuth(r.time, ll.value.0, ll.value.1, Altitude(r));
      target := Some(NormalizeAngle(saa));
      if format.FloatAltitude? {
        return Some(TypeErrorRaised);
      }
      positions := positions + [PositionRow(r.time, ll.value.0, ll.value.1, Altitude(r))];
      err := None;
    }

    /** `cb_quaternion`. */
    method OnQuaternion(w: int, x: int, y: int, z: int, now: string, num: Numerics)
      modifies this
      ensures State() == GeoSpec.OnQuaternion(old(State()), w, x, y, z, now, num)
    {
      if target.None? {
        return;
      }
      var q := TfqToSpq(w, x, y, z);
      var error := num.yawError(q, target.value);
      if error > ThresholdDegrees || error < -ThresholdDegrees {
        trace := trace + [SetSteps(StepCount(error))];
      }
      orientations := orientations + [OrientationRow(now, num.mount(q))];
    }
  }

  /** `main`: configure the stepper, wait for a GPS fix, aim at the sun,
      enable the motor and arm the callbacks, handle events until a signal,
      then disarm, write the last position and shut the motor down. The
      status polls, readings and events are what the devices, the clock
      and the operating system would deliver; `format` says how the
      position row is built. */
  method RunStation(statuses: seq<bool>, first: Reading, events: seq<Event>, last: Reading, num: Numerics, format: RowFormat)
    returns (session: Session)
    ensures session == Run(statuses, first, events, last, num, format)
  {
    var killer := new GracefulKiller();
    var station := new Station(format);
    station.Send(SetMotorCurrent(1580));
    station.Send(SetStepConfiguration(1, false));
    station.Send(SetMaxVelocity(1000));
    station.Send(SetSpeedRamping(500, 2000));
    assert station.trace == Configuration();

    var fix := station.WaitForFix(statuses);
    if fix.None? {
      return Session(NoFix, StationState(station.target, station.positions, station.orientations, station.trace));
    }
    var err := station.SetInitialTarget(first, num);
    if err.Some? {
      return Session(StartFailed(err.value), StationState(station.target, station.positions, station.orientations, station.trace));
    }
    ghost var fixed := station.State();
    station.Send(Enable);
    station.Send(SetCoordinatesCallbackPeriod(60000));
    station.Send(SetQuaternionCallbackConfiguration(400, false));
    assert station.trace == fixed.trace + [Enable] + Arming();
    ghost var enabled := station.State();
    ghost var looped := EventLoop(enabled, events, num, format);
    assert Run(statuses, first, events, last, num, format)
        == if !looped.1 then Session(Running, looped.0) else GeoSpec.Finish(looped.0, last, num, format);

    HandleEvents(killer, station, events, num);
    if !killer.killNow {
      return Session(Running, StationState(station.target, station.positions, station.orientations, station.trace));
    }
    var outcome := station.Finish(last, num);
    session := Session(outcome, StationState(station.target, station.positions, station.orientations, station.trace));
  }

  /** Lines 123-124 with the callbacks running beside them: each event is
      handled in order until a signal sets the flag. */
  method HandleEvents(killer: GracefulKiller, station: Station, events: seq<Event>, num: Numerics)
    requires !killer.killNow
    modifies killer, station
    ensures (station.State(), killer.killNow) == EventLoop(old(station.State()), events, num, station.format)
  {
    var k := 0;
    assert events[0..] == events;
    while k < |events| && !killer.killNow
      invariant 0 <= k <= |events|
      invariant !killer.killNow ==> EventLoop(station.State(), events[k..], num, station.format) == EventLoop(old(station.State()), events, num, station.format)
      invariant killer.killNow ==> EventLoop(old(station.State()), events, num, station.format) == (station.State(), true)
    {
      assert events[k..][1..] == events[k + 1..];
      match events[k] {
        case SignalEvent(signum) =>
          killer.ExitGracefully(signum);
        case CoordinatesEvent(r) =>
          var _ := station.OnCoordinates(r, num);
        case QuaternionEvent(w, x, y, z, now) =>
          station.OnQuaternion(w, x, y, z, now, num);
      }
      k := k + 1;
    }
  }
}
