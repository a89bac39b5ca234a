/**
 The process lifecycle the action's background task drives, in the order it
 drives it. The refresh goes through the blocking runner, which starts the
 process and waits for it to exit before returning; a make call goes through
 the streaming runner, which starts the process and returns at once (the
 wait happens on a detached reader thread the task never joins).
 */
module Schedule {
  import opened Planner

  /** A lifecycle step of the plan's `index`-th invocation, as seen by the task. */
  datatype ProcessEvent = Spawned(index: nat) | Exited(index: nat)

  /** The steps the task takes for the `i`-th invocation. */
  function StepEvents(i: nat, inv: Invocation): (r: seq<ProcessEvent>)
    ensures |r| == (if inv.DepsGraphCall? then 2 else 1)
    ensures r[0] == Spawned(i)
    ensures Exited(i) in r <==> inv.DepsGraphCall?
    ensures forall p :: 0 <= p < |r| ==> r[p].index == i
  {
    match inv
    case DepsGraphCall(_, _) => [Spawned(i), Exited(i)]
    case MakeCall(_, _, _) => [Spawned(i)]
  }

  /** The steps the task takes for a whole plan, in order: every invocation
      is spawned, and only refreshes are ever awaited. */
  function Events(plan: seq<Invocation>): (r: seq<ProcessEvent>)
    ensures |plan| <= |r| <= 2 * |plan|
    ensures forall p :: 0 <= p < |r| ==> r[p].index < |plan|
    ensures forall i :: 0 <= i < |plan| ==> Spawned(i) in r
    ensures forall p :: 0 <= p < |r| && r[p].Exited? ==> plan[r[p].index].DepsGraphCall?
    decreases |plan|
  {
    if |plan| == 0 then []
    else
      var init := plan[..|plan| - 1];
      assert forall i :: 0 <= i < |init| ==> init[i] == plan[i];
      Events(init) + StepEvents(|plan| - 1, plan[|plan| - 1])
  }

  /** A plan made of a refresh first exactly when `chain` holds and only make
      calls after it spawns its invocations in order, and awaits only the
      opening refresh, before spawning anything else. */
  lemma {:induction false} EventsShape(plan: seq<Invocation>, chain: bool)
    requires RefreshThenMakes(plan, chain)
    ensures var off := if chain then 1 else 0;
            var s := Events(plan);
            && |s| == |plan| + off
            && (chain ==> s[0] == Spawned(0) && s[1] == Exited(0))
            && forall p :: 2 * off <= p < |s| ==> s[p] == Spawned(p - off)
    decreases |plan|
  {
    var n := |plan|;
    if n > 1 {
      var init := plan[..n - 1];
      assert forall k :: 0 <= k < |init| ==> init[k] == plan[k];
      EventsShape(init, chain);
      assert plan[n - 1].MakeCall?;
    } else if n == 1 && !chain {
      assert plan[0].MakeCall?;
    }
  }

  /** In chain mode the refresh is spawned first and has exited before the
      first make call is spawned; then every make call is spawned in plan
      order and none is awaited. Without chain mode only spawns occur. */
  lemma DepsGraphAwaitedBeforeMakes(event: ActionEvent, dialog: DialogOutcome, home: string)
    ensures var plan := Plan(event, dialog, home);
            var chain := Proceeds(event, dialog) && IsChainMake(event.presentationText);
            var off := if chain then 1 else 0;
            var s := Events(plan);
            && RefreshThenMakes(plan, chain)
            && |s| == |plan| + off
            && (chain ==> s[0] == Spawned(0) && s[1] == Exited(0))
            && (forall p :: 2 * off <= p < |s| ==> s[p] == Spawned(p - off))
  {
    var plan := Plan(event, dialog, home);
    var chain := Proceeds(event, dialog) && IsChainMake(event.presentationText);
    PlanAfterRefreshIsMakes(event, dialog, home);
    EventsShape(plan, chain);
  }
}
