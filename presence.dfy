/**
 * The per-device presence state machine that consume_probe and
 * check_for_departure drive (control/views/probes.py). The guards of the
 * WifiInfo transitions (arrival window, withdrawal and departure thresholds)
 * are not part of this model: each guarded transition takes its verdict as
 * a parameter and either moves to its target state or raises its error.
 */
module Presence {
  import opened Wrappers
  import opened Users

  datatype State = Initial | PotentialArrival | Arrival | PotentialDeparture | Departure

  /** The errors a guarded transition raises instead of moving. */
  datatype TransitionError =
    | ArrivalThresholdExceeded
    | WithdrawalThresholdNotReached
    | DepartureThresholdNotReached

  /** The verdicts of the three guards for one probe. */
  datatype Guards = Guards(arrivalInWindow: bool, withdrawalReached: bool, departureReached: bool)

  /** A device whose state the probe handling advances in place. */
  class WifiInfo {
    var mac: string
    var state: State
    var student: Option<Student>

    constructor (mac: string, student: Option<Student>)
      ensures this.mac == mac && this.student == student && state == Initial
    {
      this.mac := mac;
      this.student := student;
      state := Initial;
    }

    method InitialProbeDetected()
      requires state == Initial
      modifies this
      ensures state == PotentialArrival && student == old(student) && mac == old(mac)
    {
      state := PotentialArrival;
    }

    method ArrivalThreshold(inWindow: bool) returns (err: Option<TransitionError>)
      requires state == PotentialArrival
      modifies this
      ensures inWindow ==> err.None? && state == Arrival
      ensures !inWindow ==> err == Some(ArrivalThresholdExceeded) && state == old(state)
      ensures student == old(student) && mac == old(mac)
    {
      if inWindow {
        state := Arrival;
        err := None;
      } else {
        err := Some(ArrivalThresholdExceeded);
      }
    }

    method WithdrawalThreshold()
      requires state == PotentialArrival
      modifies this
      ensures state == Initial && student == old(student) && mac == old(mac)
    {
      state := Initial;
    }

    method WithoutProbesRecently(reached: bool) returns (err: Option<TransitionError>)
      requires state == Arrival
      modifies this
      ensures reached ==> err.None? && state == PotentialDeparture
      ensures !reached ==> err == Some(WithdrawalThresholdNotReached) && state == old(state)
      ensures student == old(student) && mac == old(mac)
    {
      if reached {
        state := PotentialDeparture;
        err := None;
      } else {
        err := Some(WithdrawalThresholdNotReached);
      }
    }

    method DepartureThreshold(reached: bool) returns (err: Option<TransitionError>)
      requires state == PotentialDeparture
      modifies this
      ensures reached ==> err.None? && state == Departure
      ensures !reached ==> err == Some(DepartureThresholdNotReached) && state == old(state)
      ensures student == old(student) && mac == old(mac)
    {
      if reached {
        state := Departure;
        err := None;
      } else {
        err := Some(DepartureThresholdNotReached);
      }
    }

    method ProbeDetected()
      requires state == PotentialDeparture
      modifies this
      ensures state == Arrival && student == old(student) && mac == old(mac)
    {
      state := Arrival;
    }

    method ToInitial()
      requires state == Departure
      modifies this
      ensures state == Initial && student == old(student) && mac == old(mac)
    {
      state := Initial;
    }
  }

  // ---------------------------------------------------------------------
  // The dispatch of consume_probe, as a pure function of the state

  /** The state after one probe, and whether it signals an arrival or a departure. */
  datatype Outcome = Outcome(next: State, arrived: bool, departed: bool)

  /**
   * consume_probe's dispatch: each state tries its transition and, where the
   * guard raises, takes the alternate transition; a device that reaches
   * DEPARTURE records the departure and is reset to INITIAL.
   */
  function Step(s: State, g: Guards): (o: Outcome)
    ensures o.next != Departure
    ensures o.arrived <==> s == PotentialArrival && g.arrivalInWindow
    ensures o.departed <==> s == Departure || (s == PotentialDeparture && g.departureReached)
    ensures o.departed ==> o.next == Initial
    ensures s == PotentialArrival && !g.arrivalInWindow ==> o.next == Initial
    ensures s == PotentialDeparture && !g.departureReached ==> o.next == Arrival
  {
    var next :=
      match s
      case Initial => PotentialArrival
      case PotentialArrival => if g.arrivalInWindow then Arrival else Initial
      case Arrival => if g.withdrawalReached then PotentialDeparture else Arrival
      case PotentialDeparture => if g.departureReached then Departure else Arrival
      case Departure => Departure;
    if next == Departure then Outcome(Initial, false, true)
    else Outcome(next, s == PotentialArrival && next == Arrival, false)
  }

  /** check_for_departure on one device: linked devices in ARRIVAL whose withdrawal threshold is reached. */
  function Sweep(s: State, linked: bool, reached: bool): State {
    if s == Arrival && linked && reached then PotentialDeparture else s
  }

  /** Running the sweep a second time, with no new probe in between, changes nothing. */
  lemma SweepIdempotent(s: State, linked: bool, reached: bool)
    ensures Sweep(Sweep(s, linked, reached), linked, reached) == Sweep(s, linked, reached)
    ensures Sweep(s, linked, reached) != Departure || s == Departure
  {
  }

  // ---------------------------------------------------------------------
  // Arrival and departure signals over a run of probes and sweeps

  datatype Input = Sighting(guards: Guards) | SweepTick(linked: bool, reached: bool)

  datatype Event = Arrived | Departed

  function Apply(s: State, i: Input): Outcome {
    match i
    case Sighting(g) => Step(s, g)
    case SweepTick(linked, reached) => Outcome(Sweep(s, linked, reached), false, false)
  }

  function Signals(o: Outcome): seq<Event> {
    (if o.arrived then [Arrived] else []) + (if o.departed then [Departed] else [])
  }

  /** The signals a run of inputs raises, in order. */
  function Events(s: State, inputs: seq<Input>): seq<Event>
    decreases inputs
  {
    if inputs == [] then []
    else
      var o := Apply(s, inputs[0]);
      Signals(o) + Events(o.next, inputs[1..])
  }

  /** The state a run of inputs ends in. */
  function Final(s: State, inputs: seq<Input>): State
    decreases inputs
  {
    if inputs == [] then s else Final(Apply(s, inputs[0]).next, inputs[1..])
  }

  /** A device counts as present from its arrival until its departure is recorded. */
  predicate Present(s: State) {
    s == Arrival || s == PotentialDeparture || s == Departure
  }

  /** Signals alternate, beginning with a departure exactly when the device is present. */
  predicate Alternating(evs: seq<Event>, present: bool) {
    evs == [] || (evs[0] == (if present then Departed else Arrived) && Alternating(evs[1..], !present))
  }

  /** One input signals an arrival only for an absent device and a departure only for a present one. */
  lemma ApplyPresence(s: State, i: Input)
    ensures var o := Apply(s, i);
      && !(o.arrived && o.departed)
      && (o.arrived ==> !Present(s) && Present(o.next))
      && (o.departed ==> Present(s) && !Present(o.next))
      && (!o.arrived && !o.departed ==> Present(o.next) == Present(s))
  {
  }

  /**
   * Over any run of probes and sweeps, arrivals and departures alternate: no
   * second arrival is signalled before a departure, and no departure without
   * an arrival, unless the device started present.
   */
  lemma {:induction false} EventsAlternate(s: State, inputs: seq<Input>)
    ensures Alternating(Events(s, inputs), Present(s))
    decreases inputs
  {
    if inputs != [] {
      var o := Apply(s, inputs[0]);
      ApplyPresence(s, inputs[0]);
      EventsAlternate(o.next, inputs[1..]);
      var rest := Events(o.next, inputs[1..]);
      if o.arrived || o.departed {
        assert Signals(o) + rest == [Signals(o)[0]] + rest;
        assert (Signals(o) + rest)[1..] == rest;
      } else {
        assert Signals(o) + rest == rest;
      }
    }
  }

  /** Between inputs, the device is never left in DEPARTURE. */
  lemma {:induction false} NeverLeftDeparted(s: State, inputs: seq<Input>)
    requires s != Departure
    ensures Final(s, inputs) != Departure
    decreases inputs
  {
    if inputs != [] {
      NeverLeftDeparted(Apply(s, inputs[0]).next, inputs[1..]);
    }
  }

  /** Two sightings, the second within the arrival window, signal exactly one arrival. */
  lemma CloseSightingsArrive(first: Guards, second: Guards)
    requires second.arrivalInWindow
    ensures Events(Initial, [Sighting(first), Sighting(second)]) == [Arrived]
    ensures Final(Initial, [Sighting(first), Sighting(second)]) == Arrival
  {
    var inputs := [Sighting(first), Sighting(second)];
    assert inputs[1..] == [Sighting(second)];
    assert Apply(Initial, inputs[0]) == Outcome(PotentialArrival, false, false);
    assert Apply(PotentialArrival, Sighting(second)) == Outcome(Arrival, true, false);
    assert Events(PotentialArrival, [Sighting(second)]) == [Arrived] + Events(Arrival, []);
    assert Final(PotentialArrival, [Sighting(second)]) == Final(Arrival, []);
  }

  /** Two sightings, the second outside the arrival window, return the device to INITIAL with no signal. */
  lemma DistantSightingsReset(first: Guards, second: Guards)
    requires !second.arrivalInWindow
    ensures Events(Initial, [Sighting(first), Sighting(second)]) == []
    ensures Final(Initial, [Sighting(first), Sighting(second)]) == Initial
  {
    var inputs := [Sighting(first), Sighting(second)];
    assert inputs[1..] == [Sighting(second)];
    assert Apply(Initial, inputs[0]) == Outcome(PotentialArrival, false, false);
    assert Apply(PotentialArrival, Sighting(second)) == Outcome(Initial, false, false);
    assert Events(PotentialArrival, [Sighting(second)]) == [] + Events(Initial, []);
    assert Final(PotentialArrival, [Sighting(second)]) == Final(Initial, []);
  }

  // ---------------------------------------------------------------------
  // check_for_departure

  /**
   * The sweep over all devices: those in ARRIVAL with a linked student try
   * without_probes_recently, and a WithdrawalThresholdNotReached error leaves
   * them as they were. `reached[i]` is the guard's verdict for `devices[i]`.
   */
  method CheckForDeparture(devices: seq<WifiInfo>, reached: seq<bool>)
    requires |reached| == |devices|
    requires forall i, j :: 0 <= i < j < |devices| ==> devices[i] != devices[j]
    modifies set d | d in devices
    ensures forall i :: 0 <= i < |devices| ==>
              devices[i].state == Sweep(old(devices[i].state), old(devices[i].student).Some?, reached[i])
    ensures forall i :: 0 <= i < |devices| ==> devices[i].student == old(devices[i].student)
    ensures forall i :: 0 <= i < |devices| ==> devices[i].mac == old(devices[i].mac)
  {
    for i := 0 to |devices|
      invariant forall k :: 0 <= k < i ==>
                  devices[k].state == Sweep(old(devices[k].state), old(devices[k].student).Some?, reached[k])
      invariant forall k :: i <= k < |devices| ==> devices[k].state == old(devices[k].state)
      invariant forall k :: 0 <= k < |devices| ==> devices[k].student == old(devices[k].student)
      invariant forall k :: 0 <= k < |devices| ==> devices[k].mac == old(devices[k].mac)
    {
      var device := devices[i];
      if device.state == Arrival && device.student.Some? {
        var err := device.WithoutProbesRecently(reached[i]);
      }
    }
  }
}
