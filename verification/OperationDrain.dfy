/** The drain of one generation of connections: operations run until closing begins, resources close after the last. */
module OperationDrain {

  /**
    Where a close stands: not asked for; waiting for running operations; about to close the
    resources; closing them; done.
   */
  datatype Phase = Accepting | Waiting | Idle | Releasing | Released

  /** `releases` counts how often the resources were closed. */
  datatype Drain = Drain(active: nat, phase: Phase, releases: nat)

  const NEW_DRAIN := Drain(0, Accepting, 0)

  predicate Closing(d: Drain) {
    !d.phase.Accepting?
  }

  /** Refused once closing has begun. */
  function Begin(d: Drain): Drain {
    if Closing(d) then d else d.(active := d.active + 1)
  }

  /** The last operation to finish wakes a waiting close. */
  function Finish(d: Drain): Drain
    requires d.active > 0
  {
    d.(active := d.active - 1, phase := if d.active == 1 && d.phase.Waiting? then Idle else d.phase)
  }

  function Close(d: Drain): Drain {
    if Closing(d) then d else d.(phase := if d.active == 0 then Idle else Waiting)
  }

  function Release(d: Drain): Drain
    requires d.phase.Idle?
  {
    d.(phase := Releasing, releases := d.releases + 1)
  }

  function Complete(d: Drain): Drain
    requires d.phase.Releasing?
  {
    d.(phase := Released)
  }

  /** A close waits exactly while operations run, and resources are closed once, when none is running. */
  predicate Sound(d: Drain) {
    && (d.phase.Waiting? ==> d.active > 0)
    && (d.phase.Idle? || d.phase.Releasing? || d.phase.Released? ==> d.active == 0)
    && d.releases == if d.phase.Releasing? || d.phase.Released? then 1 else 0
  }

  /** The drain as the program keeps it: a counter, two flags and a waiter. */
  class OperationDrain {
    var active: nat
    var closing: bool
    /** A close was asked for, and its promise exists. */
    var closeRequested: bool
    /** That promise waits for a call to the idle resolver. */
    var resolveIdle: bool
    var releasing: bool
    var released: bool
    var releases: nat

    ghost predicate Valid()
      reads this
    {
      && closing == closeRequested
      && (resolveIdle ==> closeRequested && !releasing && !released) && !(releasing && released)
      && (releasing || released ==> closeRequested)
      && Sound(State())
    }

    ghost function State(): Drain
      reads this
    {
      Drain(active,
            if !closeRequested then Accepting else if resolveIdle then Waiting
            else if released then Released else if releasing then Releasing else Idle,
            releases)
    }

    constructor ()
      ensures Valid() && State() == NEW_DRAIN
    {
      active, closing, closeRequested, resolveIdle, releasing, released, releases := 0, false, false, false, false, false, 0;
    }

    /** False when closing has begun. */
    method Run() returns (started: bool)
      requires Valid()
      modifies this
      ensures Valid() && State() == Begin(old(State())) && started == !Closing(old(State()))
    {
      if closing {
        return false;
      }
      active := active + 1;
      started := true;
    }

    method FinishOperation()
      requires Valid() && active > 0
      modifies this
      ensures Valid() && State() == Finish(old(State()))
    {
      active := active - 1;
      if active == 0 {
        resolveIdle := false;
      }
    }

    method RequestClose()
      requires Valid()
      modifies this
      ensures Valid() && State() == Close(old(State()))
    {
      closing := true;
      if !closeRequested {
        closeRequested := true;
        if active != 0 {
          resolveIdle := true;
        }
      }
    }

    /** The continuation of the idle promise. */
    method CloseResources()
      requires Valid() && State().phase.Idle?
      modifies this
      ensures Valid() && State() == Release(old(State()))
    {
      releasing := true;
      releases := releases + 1;
    }

    method ResourcesClosed()
      requires Valid() && State().phase.Releasing?
      modifies this
      ensures Valid() && State() == Complete(old(State()))
    {
      releasing, released := false, true;
    }
  }
}
