/** The PI controller `ACEObj` of code/core.py: it integrates the measured
    area control error and outputs the auxiliary generation setpoint
    `Raw = -(Kp*ACEc + Ki*Integral)`. */
module Ace {

  /** Sum of the measurements, in the order they were applied. */
  function Sum(xs: seq<real>): real {
    if xs == [] then 0.0 else Sum(xs[..|xs| - 1]) + xs[|xs| - 1]
  }

  /** The four attributes of an `ACEObj`. */
  datatype AceState = AceState(kp: real, ki: real, integral: real, raw: real)

  /** `ACEObj(Kp, Ki, Integral)`: no proportional term before the first
      measurement. */
  function Init(kp: real, ki: real, integral: real): AceState {
    AceState(kp, ki, integral, -(ki * integral))
  }

  /** One call of `update(ACEc)`: the integral first, then the output. */
  function Step(s: AceState, ace: real): AceState {
    var integral := s.integral + ace;
    s.(integral := integral, raw := -(s.kp * ace + s.ki * integral))
  }

  /** The state after `update` was called with each of `aces` in turn. */
  function Replay(s: AceState, aces: seq<real>): AceState {
    if aces == [] then s else Step(Replay(s, aces[..|aces| - 1]), aces[|aces| - 1])
  }

  /** Replaying one more measurement is one more `update`. */
  lemma ReplayAppend(s: AceState, aces: seq<real>, ace: real)
    ensures Replay(s, aces + [ace]) == Step(Replay(s, aces), ace)
  {
    assert (aces + [ace])[..|aces|] == aces;
  }

  /** Closed form of the recurrence: after measurements `a1..an` the integral
      is the initial one plus their sum, the output is
      `-(Kp*an + Ki*Integral)` (or `-(Ki*I0)` before any), and the gains never
      change. */
  lemma {:induction false} ReplayClosedForm(kp: real, ki: real, i0: real, aces: seq<real>)
    ensures Replay(Init(kp, ki, i0), aces).kp == kp
    ensures Replay(Init(kp, ki, i0), aces).ki == ki
    ensures Replay(Init(kp, ki, i0), aces).integral == i0 + Sum(aces)
    ensures Replay(Init(kp, ki, i0), aces).raw
         == if aces == [] then -(ki * i0) else -(kp * aces[|aces| - 1] + ki * (i0 + Sum(aces)))
  {
    if aces != [] {
      ReplayClosedForm(kp, ki, i0, aces[..|aces| - 1]);
    }
  }

  /** Every intermediate output: the i-th update produces
      `-(Kp*a_i + Ki*(I0 + a_1 + ... + a_i))`. */
  lemma OutputAfterEachUpdate(kp: real, ki: real, i0: real, aces: seq<real>, i: nat)
    requires i < |aces|
    ensures Replay(Init(kp, ki, i0), aces[..i + 1]).raw == -(kp * aces[i] + ki * (i0 + Sum(aces[..i + 1])))
  {
    ReplayClosedForm(kp, ki, i0, aces[..i + 1]);
    assert aces[..i + 1][i] == aces[i];
  }

  class AceObj {
    var Kp: real
    var Ki: real
    var Integral: real
    var Raw: real

    /** The integral the object was created with, and the measurements it
        has been updated with so far. */
    ghost var I0: real
    ghost var Inputs: seq<real>

    function State(): AceState
      reads this
    {
      AceState(Kp, Ki, Integral, Raw)
    }

    ghost predicate Valid()
      reads this
    {
      State() == Replay(Init(Kp, Ki, I0), Inputs)
    }

    constructor (kp: real, ki: real, integral: real)
      ensures Valid() && I0 == integral && Inputs == []
      ensures State() == Init(kp, ki, integral)
    {
      Kp := kp;
      Ki := ki;
      Integral := integral;
      Raw := -(ki * integral);
      I0 := integral;
      Inputs := [];
    }

    method Update(ace: real) returns (ok: bool)
      requires Valid()
      modifies this
      ensures Valid() && I0 == old(I0) && Inputs == old(Inputs) + [ace]
      ensures State() == Step(old(State()), ace)
      ensures Integral == old(Integral) + ace && Raw == -(Kp * ace + Ki * Integral)
      ensures ok
    {
      ghost var before := State();
      ReplayAppend(Init(Kp, Ki, I0), Inputs, ace);
      var integral := Integral + ace;
      var raw := -(Kp * ace + Ki * integral);
      assert AceState(Kp, Ki, integral, raw) == Step(before, ace);
      Integral, Raw := integral, raw;
      Inputs := Inputs + [ace];
      ok := true;
    }
  }
}
