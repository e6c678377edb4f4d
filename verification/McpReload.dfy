/**
  The reloadable manager of MCP connections as a state machine: each step is what runs between two
  awaits, and steps of reloads, closes and operations interleave freely.
 */
module McpReload {
  import opened Prelude
  import D = OperationDrain

  /** The tools of one prepared set of connections, and its drain. */
  datatype Generation = Generation(tools: seq<string>, drain: D.Drain)

  /** `Settling`: the reload is over and its promise is about to be forgotten. */
  datatype ReloadPhase = NoReload | Preparing | Discarding(generation: nat) | Settling

  datatype ClosePhase = NotClosed | AwaitingReload | ClosingCurrent | AwaitingRetired | Closed

  datatype Manager = Manager(
    gens: seq<Generation>,
    gateway: seq<string>,
    current: nat,
    closed: bool,
    reload: ReloadPhase,
    close: ClosePhase,
    retired: seq<nat>)

  datatype Step =
    | Reload
    | PrepareThrows
    | Prepared(tools: seq<string>, failed: bool, swapThrows: bool)
    | Discarded
    | Settled
    | Close
    | ResumeClose
    | CurrentClosed
    | RetiredClosed
    | BeginOperation(g: nat)
    | FinishOperation(g: nat)
    | Release(g: nat)
    | Complete(g: nat)

  predicate Enabled(m: Manager, step: Step) {
    match step
    case PrepareThrows => m.reload.Preparing?
    case Prepared(_, _, _) => m.reload.Preparing?
    case Discarded =>
      m.reload.Discarding? && m.reload.generation < |m.gens| && m.gens[m.reload.generation].drain.phase.Released?
    case Settled => m.reload.Settling?
    case ResumeClose => m.close.AwaitingReload? && m.reload.NoReload?
    case CurrentClosed => m.close.ClosingCurrent? && m.current < |m.gens| && m.gens[m.current].drain.phase.Released?
    case RetiredClosed =>
      m.close.AwaitingRetired?
      && forall i :: 0 <= i < |m.retired| ==> m.retired[i] < |m.gens| && m.gens[m.retired[i]].drain.phase.Released?
    case BeginOperation(g) => g < |m.gens|
    case FinishOperation(g) => g < |m.gens| && m.gens[g].drain.active > 0
    case Release(g) => g < |m.gens| && m.gens[g].drain.phase.Idle?
    case Complete(g) => g < |m.gens| && m.gens[g].drain.phase.Releasing?
    case _ => true
  }

  function SetDrain(gens: seq<Generation>, g: nat, d: D.Drain): (r: seq<Generation>)
    requires g < |gens|
    ensures |r| == |gens|
  {
    gens[g := gens[g].(drain := d)]
  }

  function CloseGeneration(gens: seq<Generation>, g: nat): (r: seq<Generation>)
    requires g < |gens|
    ensures |r| == |gens|
  {
    SetDrain(gens, g, D.Close(gens[g].drain))
  }

  /** The first generation is in place: its tools are in the gateway. */
  function Connected(tools: seq<string>): Manager {
    Manager([Generation(tools, D.NEW_DRAIN)], tools, 0, false, NoReload, NotClosed, [])
  }

  /** The gateway loses the tools, and the current generation begins to close. */
  function StartClosing(m: Manager): Manager
    requires m.current < |m.gens|
  {
    m.(gateway := [], gens := CloseGeneration(m.gens, m.current), close := ClosingCurrent)
  }

  /** The prepared generation replaces the current one, or is closed again. */
  function Swap(m: Manager, tools: seq<string>, failed: bool, swapThrows: bool): Manager
    requires m.current < |m.gens|
  {
    var gens := m.gens + [Generation(tools, D.NEW_DRAIN)];
    var g := |m.gens|;
    if failed || m.closed || swapThrows then m.(gens := CloseGeneration(gens, g), reload := Discarding(g))
    else
      m.(gateway := tools, gens := CloseGeneration(gens, m.current), current := g,
         retired := m.retired + [m.current], reload := Settling)
  }

  function Next(m: Manager, step: Step): Manager
    requires Enabled(m, step) && m.current < |m.gens|
  {
    match step
    case Reload => if m.closed || !m.reload.NoReload? then m else m.(reload := Preparing)
    case PrepareThrows => m.(reload := Settling)
    case Prepared(tools, failed, swapThrows) => Swap(m, tools, failed, swapThrows)
    case Discarded => m.(reload := Settling)
    case Settled => m.(reload := NoReload)
    case Close =>
      if !m.close.NotClosed? then m
      else
        var n := m.(closed := true);
        if m.reload.NoReload? then StartClosing(n) else n.(close := AwaitingReload)
    case ResumeClose => StartClosing(m)
    case CurrentClosed => m.(close := AwaitingRetired)
    case RetiredClosed => m.(close := Closed)
    case BeginOperation(g) => m.(gens := SetDrain(m.gens, g, D.Begin(m.gens[g].drain)))
    case FinishOperation(g) => m.(gens := SetDrain(m.gens, g, D.Finish(m.gens[g].drain)))
    case Release(g) => m.(gens := SetDrain(m.gens, g, D.Release(m.gens[g].drain)))
    case Complete(g) => m.(gens := SetDrain(m.gens, g, D.Complete(m.gens[g].drain)))
  }

  // ---------------------------------------------------------------- invariant

  /** The gateway stops offering tools at this point of a close. */
  predicate Cleared(m: Manager) {
    m.close.ClosingCurrent? || m.close.AwaitingRetired? || m.close.Closed?
  }

  /** The current generation is the one the gateway offers, until a close clears it. */
  predicate Offers(m: Manager) {
    m.current < |m.gens| && m.gateway == if Cleared(m) then [] else m.gens[m.current].tools
  }

  ghost predicate SoundDrains(gens: seq<Generation>) {
    forall g :: 0 <= g < |gens| ==> D.Sound(gens[g].drain)
  }

  /** The current generation accepts operations until a close has begun with it; every other one is closing. */
  ghost predicate OnlyCurrentAccepts(m: Manager) {
    forall g :: 0 <= g < |m.gens| ==> (D.Closing(m.gens[g].drain) <==> g != m.current || Cleared(m))
  }

  /** Every generation but the current one was retired, is being discarded, or has been closed. */
  ghost predicate AllAccountedFor(m: Manager) {
    && (forall i :: 0 <= i < |m.retired| ==> m.retired[i] < |m.gens|)
    && (m.reload.Discarding? ==> m.reload.generation < |m.gens| && m.reload.generation != m.current)
    && forall g :: 0 <= g < |m.gens| ==>
         g == m.current || g in m.retired || m.reload == Discarding(g) || m.gens[g].drain.phase.Released?
  }

  predicate ClosesInOrder(m: Manager) {
    && (m.closed <==> !m.close.NotClosed?)
    && (Cleared(m) ==> m.reload.NoReload?)
    && (m.close.AwaitingRetired? || m.close.Closed? ==> m.current < |m.gens| && m.gens[m.current].drain.phase.Released?)
  }

  ghost predicate AllReleasedWhenClosed(m: Manager) {
    m.close.Closed? ==> forall g :: 0 <= g < |m.gens| ==> m.gens[g].drain.phase.Released?
  }

  ghost predicate Invariant(m: Manager) {
    Offers(m) && SoundDrains(m.gens) && OnlyCurrentAccepts(m) && AllAccountedFor(m) && ClosesInOrder(m) && AllReleasedWhenClosed(m)
  }

  lemma ConnectedKeeps(tools: seq<string>)
    ensures Invariant(Connected(tools))
  {
  }

  lemma DrainStepKeeps(m: Manager, g: nat, d: D.Drain)
    requires Invariant(m) && g < |m.gens| && D.Sound(d)
    requires D.Closing(d) == D.Closing(m.gens[g].drain) && (m.gens[g].drain.phase.Released? ==> d.phase.Released?)
    ensures Invariant(m.(gens := SetDrain(m.gens, g, d)))
  {
  }

  lemma StartClosingKeeps(m: Manager)
    requires Invariant(m) && !Cleared(m) && m.reload.NoReload?
    ensures Invariant(StartClosing(m.(closed := true)))
  {
  }

  lemma SwapKeeps(m: Manager, tools: seq<string>, failed: bool, swapThrows: bool)
    requires Invariant(m) && m.reload.Preparing?
    ensures Invariant(Swap(m, tools, failed, swapThrows))
  {
    var n := Swap(m, tools, failed, swapThrows);
    if !(failed || m.closed || swapThrows) {
      assert n.retired[|m.retired|] == m.current;
      forall g | 0 <= g < |n.gens| ensures
        g == n.current || g in n.retired || n.reload == Discarding(g) || n.gens[g].drain.phase.Released?
      {
        if g in m.retired {
          var i :| 0 <= i < |m.retired| && m.retired[i] == g;
          assert n.retired[i] == g;
        }
      }
    }
  }

  lemma NextKeeps(m: Manager, step: Step)
    requires Invariant(m) && Enabled(m, step)
    ensures Invariant(Next(m, step))
  {
    match step
    case Prepared(tools, failed, swapThrows) => SwapKeeps(m, tools, failed, swapThrows);
    case Close =>
      if m.close.NotClosed? && m.reload.NoReload? { StartClosingKeeps(m); }
    case ResumeClose => StartClosingKeeps(m);
    case BeginOperation(g) => DrainStepKeeps(m, g, D.Begin(m.gens[g].drain));
    case FinishOperation(g) => DrainStepKeeps(m, g, D.Finish(m.gens[g].drain));
    case Release(g) => DrainStepKeeps(m, g, D.Release(m.gens[g].drain));
    case Complete(g) => DrainStepKeeps(m, g, D.Complete(m.gens[g].drain));
    case _ =>
  }

  ghost predicate IsRun(m: Manager, steps: seq<Step>)
    requires m.current < |m.gens|
    decreases |steps|
  {
    steps != [] ==>
      Enabled(m, steps[0]) && Next(m, steps[0]).current < |Next(m, steps[0]).gens| && IsRun(Next(m, steps[0]), steps[1..])
  }

  function Run(m: Manager, steps: seq<Step>): Manager
    requires m.current < |m.gens| && IsRun(m, steps)
    decreases |steps|
  {
    if steps == [] then m else Run(Next(m, steps[0]), steps[1..])
  }

  /**
    At every point of every interleaving the gateway offers the tools of the current generation,
    or none once a close has cleared them; connections are closed at most once each, and only when
    none of their operations runs; and when the close is complete every generation ever prepared
    has been closed.
   */
  lemma {:induction false} RunKeeps(m: Manager, steps: seq<Step>)
    requires Invariant(m) && IsRun(m, steps)
    ensures Invariant(Run(m, steps))
    decreases |steps|
  {
    if steps != [] {
      NextKeeps(m, steps[0]);
      RunKeeps(Next(m, steps[0]), steps[1..]);
    }
  }

  // ---------------------------------------------------------------- what reloads do over a run

  /** A reload that fails, for whatever reason, leaves the current generation and its tools in place. */
  lemma FailedReloadChangesNothing(m: Manager, tools: seq<string>, failed: bool, swapThrows: bool)
    requires Invariant(m) && m.reload.Preparing? && (failed || swapThrows || m.closed)
    ensures var n := Next(m, Prepared(tools, failed, swapThrows));
            n.current == m.current && n.gateway == m.gateway && n.gens[..|m.gens|] == m.gens && n.retired == m.retired
            && n.reload == Discarding(|m.gens|) && D.Closing(n.gens[|m.gens|].drain)
  {
  }

  /** A reload that succeeds swaps the tools in one step and leaves running operations of the old generation alone. */
  lemma ReloadSwaps(m: Manager, tools: seq<string>)
    requires Invariant(m) && m.reload.Preparing? && !m.closed
    ensures var n := Next(m, Prepared(tools, false, false));
            n.gateway == tools && n.gens[n.current].tools == tools && n.gens[n.current].drain == D.NEW_DRAIN
            && n.gens[m.current].drain.active == m.gens[m.current].drain.active
            && D.Closing(n.gens[m.current].drain) && n.retired == m.retired + [m.current]
  {
  }

  /** The swap goes through: nothing failed, and no close was asked for meanwhile. */
  predicate Succeeds(m: Manager, step: Step) {
    step.Prepared? && !step.failed && !step.swapThrows && !m.closed
  }

  /** The tools of the last reload of the run that succeeded. */
  function LastSwapped(m: Manager, steps: seq<Step>): Option<seq<string>>
    requires m.current < |m.gens| && IsRun(m, steps)
    decreases |steps|
  {
    if steps == [] then None
    else
      var later := LastSwapped(Next(m, steps[0]), steps[1..]);
      if later.Some? then later else if Succeeds(m, steps[0]) then Some(steps[0].tools) else None
  }

  lemma CurrentAfter(m: Manager, step: Step)
    requires Invariant(m) && Enabled(m, step)
    ensures var n := Next(m, step);
            n.current < |n.gens|
            && n.gens[n.current].tools == if Succeeds(m, step) then step.tools else m.gens[m.current].tools
  {
    if Succeeds(m, step) {
      ReloadSwaps(m, step.tools);
    } else if step.Prepared? {
      FailedReloadChangesNothing(m, step.tools, step.failed, step.swapThrows);
    }
  }

  /**
    After every run, whatever failed in it, the current generation is that of the last reload that
    succeeded, or the one at the start; and its tools are what the gateway offers.
   */
  lemma {:induction false} GatewayOffersLastSwap(m: Manager, steps: seq<Step>)
    requires Invariant(m) && IsRun(m, steps)
    ensures var n, swapped := Run(m, steps), LastSwapped(m, steps);
            var tools := if swapped.Some? then swapped.value else m.gens[m.current].tools;
            n.current < |n.gens| && n.gens[n.current].tools == tools && n.gateway == if Cleared(n) then [] else tools
    decreases |steps|
  {
    if steps != [] {
      NextKeeps(m, steps[0]);
      CurrentAfter(m, steps[0]);
      GatewayOffersLastSwap(Next(m, steps[0]), steps[1..]);
    }
  }

  /** How many operations of generation `g` finish in the run. */
  function Finished(steps: seq<Step>, g: nat): nat {
    if steps == [] then 0 else (if steps[0] == FinishOperation(g) then 1 else 0) + Finished(steps[1..], g)
  }

  lemma ClosingStep(m: Manager, step: Step, g: nat)
    requires Invariant(m) && Enabled(m, step) && g < |m.gens| && D.Closing(m.gens[g].drain)
    ensures var n := Next(m, step);
            g < |n.gens| && D.Closing(n.gens[g].drain)
            && m.gens[g].drain.active == n.gens[g].drain.active + if step == FinishOperation(g) then 1 else 0
  {
  }

  /**
    Over every run a generation that is closing, because a reload replaced or discarded it or by a
    close, accepts no operation; those that run finish one by one, and its connections are not
    closed before the last has.
   */
  lemma {:induction false} OperationsRunToTheirEnd(m: Manager, steps: seq<Step>, g: nat)
    requires Invariant(m) && IsRun(m, steps) && g < |m.gens| && D.Closing(m.gens[g].drain)
    ensures var n := Run(m, steps);
            g < |n.gens| && D.Closing(n.gens[g].drain)
            && m.gens[g].drain.active == n.gens[g].drain.active + Finished(steps, g)
            && (n.gens[g].drain.releases > 0 ==> Finished(steps, g) == m.gens[g].drain.active)
    decreases |steps|
  {
    if steps != [] {
      NextKeeps(m, steps[0]);
      ClosingStep(m, steps[0], g);
      OperationsRunToTheirEnd(Next(m, steps[0]), steps[1..], g);
    }
  }

  /** No operation starts on a generation that is closing. */
  lemma NoOperationAfterClosing(m: Manager, g: nat)
    requires Invariant(m) && g < |m.gens|
    ensures (Next(m, BeginOperation(g)).gens[g].drain.active == m.gens[g].drain.active + 1) <==> g == m.current && !Cleared(m)
    ensures !(g == m.current && !Cleared(m)) ==> Next(m, BeginOperation(g)) == m
  {
    assert m.gens[g := m.gens[g]] == m.gens;
  }

  /** Once closing has begun, no step makes a generation accept again, and none adds a running operation. */
  lemma ClosingIsFinal(m: Manager, step: Step, g: nat)
    requires Invariant(m) && Enabled(m, step) && g < |m.gens| && D.Closing(m.gens[g].drain)
    ensures var n := Next(m, step);
            g < |n.gens| && D.Closing(n.gens[g].drain) && n.gens[g].drain.active <= m.gens[g].drain.active
  {
  }

  // ---------------------------------------------------------------- a close completes

  /** The steps a close and a failed reload take by themselves. */
  predicate IsOwn(step: Step) {
    step.Discarded? || step.Settled? || step.ResumeClose? || step.CurrentClosed? || step.RetiredClosed? || step.Release? || step.Complete?
  }

  /**
    A close under way is never stuck: unless it is complete, an operation is running, a reload is
    being prepared, or some step of its own can be taken.
   */
  lemma CloseIsNeverStuck(m: Manager) returns (step: Step)
    requires Invariant(m) && m.closed && !m.close.Closed?
    requires !m.reload.Preparing? && forall g :: 0 <= g < |m.gens| ==> m.gens[g].drain.active == 0
    ensures Enabled(m, step) && IsOwn(step)
  {
    if g :| 0 <= g < |m.gens| && m.gens[g].drain.phase.Idle? {
      return Release(g);
    }
    if g :| 0 <= g < |m.gens| && m.gens[g].drain.phase.Releasing? {
      return Complete(g);
    }
    assert forall g :: 0 <= g < |m.gens| && D.Closing(m.gens[g].drain) ==> m.gens[g].drain.phase.Released?;
    match m.reload {
      case Discarding(g) => return Discarded;
      case Settling => return Settled;
      case NoReload =>
        match m.close {
          case AwaitingReload => return ResumeClose;
          case ClosingCurrent => return CurrentClosed;
          case AwaitingRetired => return RetiredClosed;
        }
    }
  }

  /** How many of those steps are left at most. */
  function StepsLeft(m: Manager): nat {
    DrainsLeft(m.gens)
    + (match m.reload case NoReload => 0 case Settling => 1 case Discarding(_) => 2 case Preparing => 3)
    + (match m.close case NotClosed => 4 case AwaitingReload => 3 case ClosingCurrent => 2 case AwaitingRetired => 1 case Closed => 0)
  }

  function DrainLeft(d: D.Drain): nat {
    match d.phase
    case Accepting => 3
    case Waiting => 3
    case Idle => 2
    case Releasing => 1
    case Released => 0
  }

  function DrainsLeft(gens: seq<Generation>): nat {
    if gens == [] then 0 else DrainLeft(gens[0].drain) + DrainsLeft(gens[1..])
  }

  lemma {:induction false} OneDrainLess(gens: seq<Generation>, g: nat, d: D.Drain)
    requires g < |gens|
    ensures DrainsLeft(SetDrain(gens, g, d)) == DrainsLeft(gens) - DrainLeft(gens[g].drain) + DrainLeft(d)
  {
    var r := SetDrain(gens, g, d);
    if g > 0 {
      OneDrainLess(gens[1..], g - 1, d);
      assert r[1..] == SetDrain(gens[1..], g - 1, d);
    }
  }

  /** Each such step brings a close nearer: with CloseIsNeverStuck, it completes once nothing runs or prepares. */
  lemma OwnStepsRunOut(m: Manager, step: Step)
    requires Invariant(m) && Enabled(m, step) && IsOwn(step)
    ensures StepsLeft(Next(m, step)) < StepsLeft(m)
  {
    match step
    case Release(g) => OneDrainLess(m.gens, g, D.Release(m.gens[g].drain));
    case Complete(g) => OneDrainLess(m.gens, g, D.Complete(m.gens[g].drain));
    case ResumeClose => OneDrainLess(m.gens, m.current, D.Close(m.gens[m.current].drain));
    case _ =>
  }

  // ---------------------------------------------------------------- the life of one reload

  function AwaitsBefore(r: ReloadPhase): nat {
    match r
    case Preparing => 3
    case Discarding(_) => 2
    case Settling => 1
    case NoReload => 0
  }

  predicate EndsPreparation(step: Step) {
    step.PrepareThrows? || step.Prepared?
  }

  /**
    A reload under way is joined by all others until its promise is forgotten, which only its own
    last step does; preparation ends at once, however it ends; and nothing but its own steps moves it.
   */
  lemma ReloadRunsItsCourse(m: Manager, step: Step)
    requires Invariant(m) && Enabled(m, step) && !m.reload.NoReload?
    ensures step.Reload? ==> Next(m, step) == m
    ensures Next(m, step).reload.NoReload? <==> step.Settled?
    ensures if EndsPreparation(step) || step.Discarded? || step.Settled?
            then AwaitsBefore(Next(m, step).reload) < AwaitsBefore(m.reload)
            else Next(m, step).reload == m.reload
    ensures Next(m, step).reload.Discarding? && !m.reload.Discarding?
            <==> step.Prepared? && (step.failed || m.closed || step.swapThrows)
  {
  }

  /** So a reload is joined, and only ever comes nearer its end, over every run in which it is not settled. */
  lemma {:induction false} ReloadIsJoined(m: Manager, steps: seq<Step>)
    requires Invariant(m) && IsRun(m, steps) && !m.reload.NoReload? && Settled !in steps
    ensures Invariant(Run(m, steps)) && Next(Run(m, steps), Reload) == Run(m, steps)
    ensures 0 < AwaitsBefore(Run(m, steps).reload) <= AwaitsBefore(m.reload)
    ensures m.reload.Preparing? && (exists step :: step in steps && EndsPreparation(step)) ==> !Run(m, steps).reload.Preparing?
    decreases |steps|
  {
    if steps != [] {
      NextKeeps(m, steps[0]);
      ReloadRunsItsCourse(m, steps[0]);
      ReloadIsJoined(Next(m, steps[0]), steps[1..]);
      if exists step :: step in steps && EndsPreparation(step) {
        var step :| step in steps && EndsPreparation(step);
        assert step == steps[0] || step in steps[1..];
      }
    }
  }
}
