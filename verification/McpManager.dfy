/** The reloadable manager as the program keeps it: variables of one closure, and one drain object a generation. */
module McpManager {
  import opened Prelude
  import opened McpReload
  import D = OperationDrain

  class ReloadableMcpManager {
    var drains: seq<D.OperationDrain>
    var tools: seq<seq<string>>
    /** The MCP tools the gateway offers. */
    var gateway: seq<string>
    var current: nat
    var closed: bool
    var reloadPhase: ReloadPhase
    var closePhase: ClosePhase
    var retired: seq<nat>

    ghost predicate Valid()
      reads this, drains
    {
      && |tools| == |drains| && current < |drains| && Distinct(drains)
      && forall i :: 0 <= i < |drains| ==> drains[i].Valid()
    }

    ghost function Generations(): (gens: seq<Generation>)
      requires |tools| == |drains|
      reads this`tools, this`drains, drains
      ensures |gens| == |drains|
    {
      var ts, ds := tools, drains;
      seq(|ds|, i requires 0 <= i < |ds| == |ts| reads ds => Generation(ts[i], ds[i].State()))
    }

    ghost function State(): Manager
      requires |tools| == |drains|
      reads this, drains
    {
      Manager(Generations(), gateway, current, closed, reloadPhase, closePhase, retired)
    }

    constructor (first: seq<string>)
      ensures Valid() && fresh(drains) && State() == Connected(first) && Invariant(State())
    {
      var drain := new D.OperationDrain();
      drains, tools, gateway, current := [drain], [first], first, 0;
      closed, reloadPhase, closePhase, retired := false, NoReload, NotClosed, [];
      new;
      assert Generations() == [Generation(first, D.NEW_DRAIN)];
      ConnectedKeeps(first);
    }

    method CloseDrain(g: nat)
      requires Valid() && g < |drains|
      modifies drains[g]
      ensures Valid() && Generations() == CloseGeneration(old(Generations()), g)
    {
      drains[g].RequestClose();
    }

    /** False when the manager is closed; a reload under way is joined. */
    method StartReload() returns (accepted: bool)
      requires Valid()
      modifies this`reloadPhase
      ensures Valid() && State() == Next(old(State()), Reload) && accepted == !closed
    {
      if closed {
        return false;
      }
      if reloadPhase.NoReload? {
        reloadPhase := Preparing;
      }
      accepted := true;
    }

    /** The new generation has been connected; `failed` and `swapThrows` tell what goes wrong with it. */
    method FinishPreparing(definitions: seq<string>, failed: bool, swapThrows: bool)
      requires Valid() && reloadPhase.Preparing?
      modifies this, drains
      ensures Valid() && fresh(drains[|drains| - 1]) && drains[..|drains| - 1] == old(drains)
      ensures State() == Next(old(State()), Prepared(definitions, failed, swapThrows))
    {
      var g := AddGeneration(definitions);
      if failed || closed || swapThrows {
        CloseDrain(g);
        reloadPhase := Discarding(g);
      } else {
        SwapIn(g, definitions);
      }
    }

    method SwapIn(g: nat, definitions: seq<string>)
      requires Valid() && g < |drains|
      modifies this, drains
      ensures Valid() && drains == old(drains)
      ensures State() == old(State()).(gateway := definitions, gens := CloseGeneration(old(State()).gens, old(current)),
                                       current := g, retired := old(retired) + [old(current)], reload := Settling)
    {
      gateway := definitions;
      var previous := current;
      current := g;
      CloseDrain(previous);
      retired := retired + [previous];
      reloadPhase := Settling;
    }

    method AddGeneration(definitions: seq<string>) returns (g: nat)
      requires Valid()
      modifies this`drains, this`tools
      ensures Valid() && g == old(|drains|) && |drains| == g + 1 && drains[..g] == old(drains) && fresh(drains[g])
      ensures Generations() == old(Generations()) + [Generation(definitions, D.NEW_DRAIN)]
    {
      g := |drains|;
      var drain := new D.OperationDrain();
      drains, tools := drains + [drain], tools + [definitions];
    }

    /** The first part of a close; a second call joins the first. */
    method StartClose()
      requires Valid()
      modifies this, drains
      ensures Valid() && drains == old(drains) && State() == Next(old(State()), Close)
    {
      if !closePhase.NotClosed? {
        return;
      }
      closed := true;
      if reloadPhase.NoReload? {
        ClearAndClose();
      } else {
        closePhase := AwaitingReload;
      }
    }

    /** Once a reload under way has ended. */
    method ClearAndClose()
      requires Valid()
      modifies this, drains
      ensures Valid() && drains == old(drains) && State() == StartClosing(old(State()))
    {
      gateway := [];
      CloseDrain(current);
      closePhase := ClosingCurrent;
    }

    /** An operation on the current generation; false when it is closing. */
    method RunOnCurrent() returns (started: bool)
      requires Valid()
      modifies drains
      ensures Valid() && State() == Next(old(State()), BeginOperation(current))
      ensures old(Invariant(State())) ==> started == !Cleared(old(State()))
    {
      started := drains[current].Run();
    }

    method FinishOn(g: nat)
      requires Valid() && g < |drains| && drains[g].active > 0
      modifies drains
      ensures Valid() && State() == Next(old(State()), FinishOperation(g))
    {
      drains[g].FinishOperation();
    }
  }
}
