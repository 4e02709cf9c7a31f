/** Progression of governance assets through the catalog's publication workflow:
    a table of the action out of each state, a recursive chain of actions up to
    a final action, and the module run that buckets assets by state and moves
    each bucket. */
module IgcWorkflow {
  import opened Wrappers
  import opened Text
  import opened Lists
  import opened RestModel
  import IgcRest
  import opened IgcClient

  /** The progressive action ([0]) and regressive action ([1]) out of each state. */
  const StateActions: map<string, seq<string>> := map[
    "DRAFT" := ["request", "discard"],
    "WAITING_APPROVAL" := ["approve", "return"],
    "APPROVED" := ["publish", "return"]
  ]

  /** The state an action leads to; `None` for the terminal ones. */
  const ActionTargets: map<string, Option<string>> := map[
    "request" := Some("WAITING_APPROVAL"),
    "approve" := Some("APPROVED"),
    "return" := Some("DRAFT"),
    "discard" := None,
    "publish" := None
  ]

  const ProgressiveActions: seq<string> := ["request", "approve", "publish"]

  predicate IsProgressive(a: string) { a in ProgressiveActions }
  predicate IsRegressive(a: string) { a == "return" || a == "discard" }

  /** The action to take from `state` on the way to `finalAction`. */
  function GetNextAction(finalAction: string, state: string): (r: Result<string>)
    ensures r.Err? <==> (IsProgressive(finalAction) || IsRegressive(finalAction)) && state !in StateActions
    ensures !IsProgressive(finalAction) && !IsRegressive(finalAction) ==> r == Ok(finalAction)
  {
    if finalAction in ["request", "approve", "publish"] then
      if state in StateActions then Ok(StateActions[state][0]) else Err("KeyError: " + state)
    else if finalAction in ["return", "discard"] then
      if state in StateActions then Ok(StateActions[state][1]) else Err("KeyError: " + state)
    else Ok(finalAction)
  }

  /** The next action from a workflow state always exists, keeps the direction of
      the final action, and leaves the state. */
  lemma {:induction false} NextActionLeaves(finalAction: string, state: string)
    requires IsProgressive(finalAction) || IsRegressive(finalAction)
    requires state in StateActions
    ensures GetNextAction(finalAction, state).Ok?
    ensures var a := GetNextAction(finalAction, state).value;
      && a in ActionTargets && ActionTargets[a] != Some(state)
      && (IsProgressive(finalAction) ==> IsProgressive(a))
      && (IsRegressive(finalAction) ==> IsRegressive(a))
  {
  }

  /** An action that leads on leads to a workflow state, from which there is
      always a next action. */
  lemma {:induction false} TargetIsState(action: string, finalAction: string)
    requires action in ActionTargets && ActionTargets[action].Some?
    ensures ActionTargets[action].value in StateActions
    ensures GetNextAction(finalAction, ActionTargets[action].value).Ok?
  {
  }

  /** Position of a state along the progressive path. */
  function Rank(state: string): nat
  {
    if state == "DRAFT" then 0 else if state == "WAITING_APPROVAL" then 1 else 2
  }

  /** The most actions a chain started consistently from `state` can still take. */
  function Steps(state: string, finalAction: string): nat
  {
    if state !in StateActions then 0
    else if IsProgressive(finalAction) then 3 - Rank(state)
    else if IsRegressive(finalAction) then (if state == "DRAFT" then 1 else 2)
    else 0
  }

  /** The chain's action is the one `getNextAction` picks for its state. */
  predicate Consistent(state: string, action: string, finalAction: string)
  {
    GetNextAction(finalAction, state) == Ok(action)
  }

  /** A consistent step that leads on to another state brings the chain closer
      to its end. */
  lemma {:induction false} StepsDecrease(state: string, action: string, finalAction: string)
    ensures Consistent(state, action, finalAction) && action in ActionTargets && ActionTargets[action].Some?
            && ActionTargets[action] != Some(state) && action != finalAction
            ==> Steps(ActionTargets[action].value, finalAction) < Steps(state, finalAction)
  {
  }

  /** The actions a chain attempts, the states it enters, and whether it ended
      on an unknown action (a KeyError). */
  datatype Chain = Chain(steps: seq<string>, entered: seq<string>, crashed: bool)

  /** `moveToNextState`: take `action` unless it would stay in `state`, then go on
      towards `finalAction` until a terminal state or the final action. */
  function ChainFrom(state: string, action: string, finalAction: string): (c: Chain)
    ensures |c.entered| <= |c.steps|
    decreases if Consistent(state, action, finalAction) then 0 else 1, Steps(state, finalAction)
  {
    if action !in ActionTargets then Chain([], [], true)
    else
      var newState := ActionTargets[action];
      if newState == Some(state) then Chain([], [], false)
      else if newState.None? || action == finalAction then
        Chain([action], if newState.Some? then [newState.value] else [], false)
      else
        var next := GetNextAction(finalAction, newState.value);
        if next.Err? then Chain([action], [newState.value], true)
        else
          StepsDecrease(state, action, finalAction);
          var rest := ChainFrom(newState.value, next.value, finalAction);
          Chain([action] + rest.steps, [newState.value] + rest.entered, rest.crashed)
  }

  /** A chain started as `getNextAction` picks never fails, takes at most as many
      actions as `Steps` allows, and enters only states closer to the end. */
  lemma {:induction false} ChainBounded(state: string, action: string, finalAction: string)
    requires IsProgressive(finalAction) || IsRegressive(finalAction)
    requires state in StateActions && Consistent(state, action, finalAction)
    ensures var c := ChainFrom(state, action, finalAction);
      && !c.crashed && 1 <= |c.steps| <= Steps(state, finalAction) <= 3
      && (forall s :: s in c.entered ==> s in StateActions && Steps(s, finalAction) < Steps(state, finalAction))
    decreases Steps(state, finalAction)
  {
    NextActionLeaves(finalAction, state);
    var newState := ActionTargets[action];
    if newState.Some? && action != finalAction {
      StepsDecrease(state, action, finalAction);
      NextActionLeaves(finalAction, newState.value);
      ChainBounded(newState.value, GetNextAction(finalAction, newState.value).value, finalAction);
    }
  }

  /** No state is entered twice, and the starting state is never re-entered. */
  lemma {:induction false} ChainNoRevisit(state: string, action: string, finalAction: string)
    requires IsProgressive(finalAction) || IsRegressive(finalAction)
    requires state in StateActions && Consistent(state, action, finalAction)
    ensures var c := ChainFrom(state, action, finalAction);
      state !in c.entered && forall i, j :: 0 <= i < j < |c.entered| ==> c.entered[i] != c.entered[j]
    decreases Steps(state, finalAction)
  {
    ChainBounded(state, action, finalAction);
    NextActionLeaves(finalAction, state);
    var newState := ActionTargets[action];
    if newState.Some? && action != finalAction {
      StepsDecrease(state, action, finalAction);
      NextActionLeaves(finalAction, newState.value);
      var next := GetNextAction(finalAction, newState.value).value;
      ChainNoRevisit(newState.value, next, finalAction);
      ChainBounded(newState.value, next, finalAction);
      var rest := ChainFrom(newState.value, next, finalAction);
      forall i, j | 0 <= i < j < |rest.entered| + 1
        ensures ([newState.value] + rest.entered)[i] != ([newState.value] + rest.entered)[j]
      {
        if i == 0 {
          assert rest.entered[j - 1] in rest.entered;
        }
      }
    }
  }

  /** The chain stops exactly at a terminal action or at the final action: every
      earlier action leads to a state and is not the final one. */
  lemma {:induction false} ChainStops(state: string, action: string, finalAction: string)
    requires IsProgressive(finalAction) || IsRegressive(finalAction)
    requires state in StateActions && Consistent(state, action, finalAction)
    ensures var c := ChainFrom(state, action, finalAction);
      && |c.steps| >= 1
      && (var last := c.steps[|c.steps| - 1]; last in ActionTargets && (last == finalAction || ActionTargets[last].None?))
      && forall i :: 0 <= i < |c.steps| - 1 ==>
           c.steps[i] in ActionTargets && ActionTargets[c.steps[i]].Some? && c.steps[i] != finalAction
    decreases Steps(state, finalAction)
  {
    NextActionLeaves(finalAction, state);
    var newState := ActionTargets[action];
    if newState.Some? && action != finalAction {
      StepsDecrease(state, action, finalAction);
      NextActionLeaves(finalAction, newState.value);
      var next := GetNextAction(finalAction, newState.value).value;
      ChainStops(newState.value, next, finalAction);
      var rest := ChainFrom(newState.value, next, finalAction);
      assert ChainFrom(state, action, finalAction).steps == [action] + rest.steps;
    }
  }

  /** Index of a progressive action along the path. */
  function ProgressIndex(a: string): nat
  {
    if a == "request" then 0 else if a == "approve" then 1 else 2
  }

  /** With a progressive final action the chain runs along the progressive path
      from the state's own action to the final action, or on to `publish` when
      the final action lies behind the state (overshoot). */
  lemma {:induction false} ProgressiveChain(state: string, finalAction: string)
    requires state in StateActions && IsProgressive(finalAction)
    ensures var c := ChainFrom(state, StateActions[state][0], finalAction);
      var stop := if ProgressIndex(finalAction) >= Rank(state) then ProgressIndex(finalAction) + 1 else 3;
      !c.crashed && c.steps == ProgressiveActions[Rank(state)..stop]
  {
    var c3 := ChainFrom("APPROVED", "publish", finalAction);
    assert !c3.crashed && c3.steps == ["publish"];
    var c2 := ChainFrom("WAITING_APPROVAL", "approve", finalAction);
    if finalAction != "approve" {
      assert GetNextAction(finalAction, "APPROVED") == Ok("publish");
    }
    assert !c2.crashed && c2.steps == (if finalAction == "approve" then ["approve"] else ["approve", "publish"]);
    if state == "DRAFT" {
      var c1 := ChainFrom("DRAFT", "request", finalAction);
      if finalAction != "request" {
        assert GetNextAction(finalAction, "WAITING_APPROVAL") == Ok("approve");
        assert c1.steps == ["request"] + c2.steps;
      }
    }
  }

  /** With a regressive final action the chain is `discard` from DRAFT, and
      otherwise `return`, followed by `discard` when that is the final action. */
  lemma {:induction false} RegressiveChain(state: string, finalAction: string)
    requires state in StateActions && IsRegressive(finalAction)
    ensures var c := ChainFrom(state, StateActions[state][1], finalAction);
      && !c.crashed
      && c.steps == if state == "DRAFT" then ["discard"] else if finalAction == "return" then ["return"] else ["return", "discard"]
  {
  }

  // ---------------------------------------------------------------------------
  // Recording the attempted actions

  /** An entry of `workflow_actions` or `workflow_failed`. */
  datatype ActionRecord = ActionRecord(items: seq<string>, action: string)

  /** The records of the chain's actions whose outcome on the backend is `succeeded`. */
  function Recorded(b: Backend, steps: seq<string>, rids: seq<string>, comment: string, succeeded: bool): (r: seq<ActionRecord>)
    ensures |r| <= |steps|
  {
    if steps == [] then [] else Attempt(b, steps[0], rids, comment, succeeded) + Recorded(b, steps[1..], rids, comment, succeeded)
  }

  /** The record of one attempted action, in the list its outcome selects. */
  function Attempt(b: Backend, a: string, rids: seq<string>, comment: string, succeeded: bool): seq<ActionRecord>
  {
    if b.workflowAction(rids, Lower(a), comment) == succeeded then [ActionRecord(rids, a)] else []
  }

  lemma {:induction false} RecordedCons(b: Backend, a: string, rest: seq<string>, rids: seq<string>, comment: string)
    ensures Recorded(b, [a] + rest, rids, comment, true) == Attempt(b, a, rids, comment, true) + Recorded(b, rest, rids, comment, true)
    ensures Recorded(b, [a] + rest, rids, comment, false) == Attempt(b, a, rids, comment, false) + Recorded(b, rest, rids, comment, false)
  {
    assert ([a] + rest)[1..] == rest;
  }

  /** Each attempted action is recorded exactly once: as a success or as a failure. */
  lemma {:induction false} RecordedOnce(b: Backend, steps: seq<string>, rids: seq<string>, comment: string)
    ensures |Recorded(b, steps, rids, comment, true)| + |Recorded(b, steps, rids, comment, false)| == |steps|
  {
    if steps != [] {
      RecordedOnce(b, steps[1..], rids, comment);
    }
  }

  /** The assets of a workflow query, bucketed by their current state. */
  datatype Buckets = Buckets(draft: seq<string>, waiting: seq<string>, approved: seq<string>)
  {
    function Get(state: string): Option<seq<string>>
    {
      if state == "DRAFT" then Some(draft)
      else if state == "WAITING_APPROVAL" then Some(waiting)
      else if state == "APPROVED" then Some(approved)
      else None
    }
  }

  /** The first element of an asset's `workflow_current_state`, when it names a state. */
  function StateOf(item: Asset): (r: Option<string>)
    ensures r.Some? ==> r.value in StateActions
  {
    match GetProp(item.props, "workflow_current_state")
    case Some(StrList(states)) =>
      if |states| > 0 && states[0] in StateActions then Some(states[0]) else None
    case _ => None
  }

  /** Every asset has an id and a state (otherwise bucketing raises). */
  predicate Bucketable(items: seq<Asset>)
  {
    forall i :: 0 <= i < |items| ==> items[i].id.Some? && StateOf(items[i]).Some?
  }

  /** The ids of the assets in `state`, in query order. */
  function IdsIn(items: seq<Asset>, state: string): (r: seq<string>)
    ensures |r| <= |items|
  {
    if items == [] then []
    else
      var last := items[|items| - 1];
      IdsIn(items[..|items| - 1], state) + (if StateOf(last) == Some(state) && last.id.Some? then [last.id.value] else [])
  }

  /** The three buckets partition the assets. */
  lemma {:induction false} BucketsPartition(items: seq<Asset>)
    requires Bucketable(items)
    ensures |IdsIn(items, "DRAFT")| + |IdsIn(items, "WAITING_APPROVAL")| + |IdsIn(items, "APPROVED")| == |items|
  {
    if items != [] {
      var init := items[..|items| - 1];
      assert Bucketable(init) by {
        forall i | 0 <= i < |init| ensures init[i].id.Some? && StateOf(init[i]).Some? {
          assert init[i] == items[i];
        }
      }
      BucketsPartition(init);
      assert StateOf(items[|items| - 1]).Some?;
    }
  }

  /** An id lands in a bucket exactly when some asset with that id is in that state. */
  lemma {:induction false} IdsInMembership(items: seq<Asset>, state: string, rid: string)
    ensures rid in IdsIn(items, state) <==> exists i :: 0 <= i < |items| && items[i].id == Some(rid) && StateOf(items[i]) == Some(state)
  {
    if rid in IdsIn(items, state) {
      IdsInSound(items, state, rid);
    }
    if exists i :: 0 <= i < |items| && items[i].id == Some(rid) && StateOf(items[i]) == Some(state) {
      var i :| 0 <= i < |items| && items[i].id == Some(rid) && StateOf(items[i]) == Some(state);
      IdsInComplete(items, state, i);
    }
  }

  /** Every id in a bucket comes from an asset in that state. */
  lemma {:induction false} IdsInSound(items: seq<Asset>, state: string, rid: string)
    requires rid in IdsIn(items, state)
    ensures exists i :: 0 <= i < |items| && items[i].id == Some(rid) && StateOf(items[i]) == Some(state)
  {
    var n := |items| - 1;
    var init := items[..n];
    IdsInSnoc(items, n, state);
    assert items[..n + 1] == items;
    if rid in IdsIn(init, state) {
      IdsInSound(init, state, rid);
      var i :| 0 <= i < |init| && init[i].id == Some(rid) && StateOf(init[i]) == Some(state);
      assert items[i] == init[i];
    } else {
      assert items[n].id == Some(rid) && StateOf(items[n]) == Some(state);
    }
  }

  /** The id of every asset in a state is in that state's bucket. */
  lemma {:induction false} IdsInComplete(items: seq<Asset>, state: string, i: nat)
    requires i < |items| && items[i].id.Some? && StateOf(items[i]) == Some(state)
    ensures items[i].id.value in IdsIn(items, state)
  {
    var n := |items| - 1;
    IdsInSnoc(items, n, state);
    assert items[..n + 1] == items;
    if i < n {
      var init := items[..n];
      assert init[i] == items[i];
      IdsInComplete(init, state, i);
    }
  }

  /** The bucket of a state after one more asset. */
  lemma {:induction false} IdsInSnoc(items: seq<Asset>, i: nat, state: string)
    requires i < |items|
    ensures IdsIn(items[..i + 1], state) ==
      IdsIn(items[..i], state) + (if StateOf(items[i]) == Some(state) && items[i].id.Some? then [items[i].id.value] else [])
  {
    assert items[..i + 1][..i] == items[..i];
  }

  /** The assets met so far stay bucketable when one more has an id and a state. */
  lemma {:induction false} BucketableSnoc(items: seq<Asset>, i: nat)
    requires i < |items| && Bucketable(items[..i]) && items[i].id.Some? && StateOf(items[i]).Some?
    ensures Bucketable(items[..i + 1])
  {
    var front := items[..i + 1];
    forall j | 0 <= j < |front|
      ensures front[j].id.Some? && StateOf(front[j]).Some?
    {
      if j < i {
        assert front[j] == items[..i][j];
      }
    }
  }

  /** `assets_by_state`, filled by one pass over the query results. */
  method BucketByState(items: seq<Asset>) returns (r: Result<Buckets>)
    ensures r.Ok? <==> Bucketable(items)
    ensures r.Ok? ==> r.value == Buckets(IdsIn(items, "DRAFT"), IdsIn(items, "WAITING_APPROVAL"), IdsIn(items, "APPROVED"))
  {
    var draft, waiting, approved := [], [], [];
    for i := 0 to |items|
      invariant Bucketable(items[..i])
      invariant draft == IdsIn(items[..i], "DRAFT")
      invariant waiting == IdsIn(items[..i], "WAITING_APPROVAL")
      invariant approved == IdsIn(items[..i], "APPROVED")
    {
      var item := items[i];
      var state := StateOf(item);
      if state.None? || item.id.None? {
        assert !(items[i].id.Some? && StateOf(items[i]).Some?);
        return Err("KeyError: workflow_current_state or _id");
      }
      BucketableSnoc(items, i);
      IdsInSnoc(items, i, "DRAFT");
      IdsInSnoc(items, i, "WAITING_APPROVAL");
      IdsInSnoc(items, i, "APPROVED");
      var rid := item.id.value;
      if state.value == "DRAFT" {
        draft := draft + [rid];
      } else if state.value == "WAITING_APPROVAL" {
        waiting := waiting + [rid];
      } else {
        approved := approved + [rid];
      }
    }
    assert items[..|items|] == items;
    r := Ok(Buckets(draft, waiting, approved));
  }

  // ---------------------------------------------------------------------------
  // The module run

  /** One `moveToNextState` call of the run: a bucket and the state it starts from. */
  datatype Move = Move(rids: seq<string>, state: string)

  function IfAny(rids: seq<string>, state: string): seq<Move>
  {
    if |rids| > 0 then [Move(rids, state)] else []
  }

  /** The moves of ALL mode: each non-empty bucket from its own state, in workflow order. */
  function AllModeMoves(bk: Buckets): seq<Move>
  {
    IfAny(bk.draft, "DRAFT") + IfAny(bk.waiting, "WAITING_APPROVAL") + IfAny(bk.approved, "APPROVED")
  }

  /** ALL mode as written: the APPROVED call is guarded by the APPROVED bucket but
      passes the WAITING_APPROVAL bucket. */
  function AllModeMovesAsWritten(bk: Buckets): seq<Move>
  {
    IfAny(bk.draft, "DRAFT") + IfAny(bk.waiting, "WAITING_APPROVAL")
    + (if |bk.approved| > 0 then [Move(bk.waiting, "APPROVED")] else [])
  }

  /** Every ALL-mode move acts on the whole bucket of its state, every non-empty
      bucket is moved, and the states follow the workflow order. */
  lemma {:induction false} AllModeMovesOwnBuckets(bk: Buckets)
    ensures forall m :: m in AllModeMoves(bk) ==> m.rids != [] && bk.Get(m.state) == Some(m.rids)
    ensures forall s :: s in StateActions && bk.Get(s).value != [] ==> Move(bk.Get(s).value, s) in AllModeMoves(bk)
    ensures forall i, j :: 0 <= i < j < |AllModeMoves(bk)| ==> Rank(AllModeMoves(bk)[i].state) < Rank(AllModeMoves(bk)[j].state)
  {
  }

  /** An asset waiting only in APPROVED is handed to the APPROVED call as written
      as an empty list, so it is never published. */
  lemma {:induction false} ApprovedBucketMisrouted()
    ensures AllModeMovesAsWritten(Buckets([], [], ["a1"])) == [Move([], "APPROVED")]
    ensures AllModeMoves(Buckets([], [], ["a1"])) == [Move(["a1"], "APPROVED")]
  {
  }

  /** The moves of a run from `fromState`: one move of that state's bucket even
      when empty, or the ALL-mode moves; an unknown state raises. */
  function Moves(bk: Buckets, fromState: string): (r: Result<seq<Move>>)
    ensures r.Err? <==> fromState != "ALL" && fromState !in StateActions
    ensures fromState in StateActions ==> r == Ok([Move(bk.Get(fromState).value, fromState)])
  {
    if fromState != "ALL" then
      match bk.Get(fromState)
      case None => Err("KeyError: " + fromState)
      case Some(rids) => Ok([Move(rids, fromState)])
    else Ok(AllModeMoves(bk))
  }

  /** What a sequence of moves records, and whether one of them raised. */
  datatype Progress = Progress(actions: seq<ActionRecord>, failed: seq<ActionRecord>, crashed: bool)

  /** `p` then `q`, unless `p` raised. */
  function Then(p: Progress, q: Progress): Progress
  {
    if p.crashed then p else Progress(p.actions + q.actions, p.failed + q.failed, q.crashed)
  }

  function MoveProgress(b: Backend, m: Move, finalAction: string, comment: string): Progress
  {
    match GetNextAction(finalAction, m.state)
    case Err(_) => Progress([], [], true)
    case Ok(a) =>
      var c := ChainFrom(m.state, a, finalAction);
      Progress(Recorded(b, c.steps, m.rids, comment, true), Recorded(b, c.steps, m.rids, comment, false), c.crashed)
  }

  function Perform(b: Backend, moves: seq<Move>, finalAction: string, comment: string): Progress
  {
    if moves == [] then Progress([], [], false)
    else Then(MoveProgress(b, moves[0], finalAction, comment), Perform(b, moves[1..], finalAction, comment))
  }

  lemma {:induction false} PerformOne(b: Backend, moves: seq<Move>, finalAction: string, comment: string)
    requires |moves| == 1
    ensures Perform(b, moves, finalAction, comment) == MoveProgress(b, moves[0], finalAction, comment)
  {
    assert moves[1..] == [];
  }

  lemma {:induction false} ThenAssoc(p: Progress, q: Progress, r: Progress)
    ensures Then(Then(p, q), r) == Then(p, Then(q, r))
  {
  }

  lemma {:induction false} PerformAppend(b: Backend, xs: seq<Move>, ys: seq<Move>, finalAction: string, comment: string)
    ensures Perform(b, xs + ys, finalAction, comment) == Then(Perform(b, xs, finalAction, comment), Perform(b, ys, finalAction, comment))
  {
    if xs == [] {
      assert xs + ys == ys;
    } else {
      var head := MoveProgress(b, xs[0], finalAction, comment);
      assert (xs + ys)[0] == xs[0];
      assert (xs + ys)[1..] == xs[1..] + ys;
      PerformAppend(b, xs[1..], ys, finalAction, comment);
      ThenAssoc(head, Perform(b, xs[1..], finalAction, comment), Perform(b, ys, finalAction, comment));
    }
  }

  /** With a known final action, a run records every chain of every move, and the
      successes and failures together are as many as the actions attempted. */
  lemma {:induction false} PerformRecordsAll(b: Backend, moves: seq<Move>, finalAction: string, comment: string)
    requires IsProgressive(finalAction) || IsRegressive(finalAction)
    requires forall m :: m in moves ==> m.state in StateActions
    ensures var p := Perform(b, moves, finalAction, comment);
      && !p.crashed
      && |p.actions| + |p.failed| == TotalSteps(moves, finalAction)
      && TotalSteps(moves, finalAction) <= 3 * |moves|
  {
    if moves != [] {
      var m := moves[0];
      NextActionLeaves(finalAction, m.state);
      var a := GetNextAction(finalAction, m.state).value;
      ChainBounded(m.state, a, finalAction);
      RecordedOnce(b, ChainFrom(m.state, a, finalAction).steps, m.rids, comment);
      PerformRecordsAll(b, moves[1..], finalAction, comment);
    }
  }

  /** The number of actions the moves attempt. */
  function TotalSteps(moves: seq<Move>, finalAction: string): nat
  {
    if moves == [] then 0
    else
      var n := match GetNextAction(finalAction, moves[0].state)
        case Err(_) => 0
        case Ok(a) => |ChainFrom(moves[0].state, a, finalAction).steps|;
      n + TotalSteps(moves[1..], finalAction)
  }

  /** The condition on the current state: any state, or the upper-cased one. */
  function StateCondition(fromState: string): Condition
  {
    if fromState == "ALL" then IsNull("workflow_current_state", true)
    else Compare("workflow_current_state", "=", VStr(Upper(fromState)))
  }

  /** The draft-mode query for the assets to move; user conditions are nested in
      one group after the state condition. */
  function WorkflowQuery(assetType: string, fromState: string, conditions: seq<Condition>, conditionJoin: string, batch: int): (q: Query)
    ensures q.workflowMode == Some("draft") && q.types == [assetType] && q.pageSize == batch
    ensures q.properties == ["name", "workflow_current_state"]
    ensures q.where.Some? && q.where.value.operator == "and"
    ensures |q.where.value.conditions| == (if conditions == [] then 1 else 2)
    ensures q.where.value.conditions[0] == StateCondition(fromState)
    ensures conditions != [] ==> q.where.value.conditions[1] == Group(conditions, Lower(conditionJoin))
  {
    var conds := [StateCondition(fromState)] + (if |conditions| > 0 then [Group(conditions, Lower(conditionJoin))] else []);
    Query(["name", "workflow_current_state"], [assetType], Some(Where(conds, "and")), batch, Some("draft"))
  }

  /** What the client's workflow probe answers. */
  function WorkflowEnabled(b: Backend): bool
  {
    b.search(IgcRest.WorkflowCheck).Answered? && b.search(IgcRest.WorkflowCheck).numTotal > 0
  }

  /** How a run ends. */
  datatype RunOutcome = WorkflowDisabled | QueryFailed | Crashed(msg: string) | Completed

  /** One run of the workflow module over a client session. */
  class WorkflowRun {
    const igc: RestIGC
    var workflowEnabled: bool
    var assetCount: nat
    var assets: seq<Asset>
    var actions: seq<ActionRecord>
    var failed: seq<ActionRecord>

    constructor (igc: RestIGC)
      ensures this.igc == igc
      ensures !workflowEnabled && assetCount == 0 && assets == [] && actions == [] && failed == []
    {
      this.igc := igc;
      workflowEnabled := false;
      assetCount := 0;
      assets := [];
      actions := [];
      failed := [];
    }

    /** `moveToNextState`: attempt the action (unless it keeps the state), record
        it, and continue towards the final action. */
    method MoveToNextState(rids: seq<string>, state: string, action: string, finalAction: string, comment: string)
      returns (ok: bool)
      modifies this`actions, this`failed
      ensures ok == !ChainFrom(state, action, finalAction).crashed
      ensures actions == old(actions) + Recorded(igc.backend, ChainFrom(state, action, finalAction).steps, rids, comment, true)
      ensures failed == old(failed) + Recorded(igc.backend, ChainFrom(state, action, finalAction).steps, rids, comment, false)
      decreases if Consistent(state, action, finalAction) then 0 else 1, Steps(state, finalAction)
    {
      if action !in ActionTargets {
        assert ChainFrom(state, action, finalAction).steps == [];
        return false;
      }
      var newState := ActionTargets[action];
      ok := true;
      if newState == Some(state) {
        assert ChainFrom(state, action, finalAction).steps == [];
      } else {
        ghost var b := igc.backend;
        var done := igc.TakeWorkflowAction(rids, action, comment);
        if done {
          actions := actions + [ActionRecord(rids, action)];
        } else {
          failed := failed + [ActionRecord(rids, action)];
        }
        assert actions == old(actions) + Attempt(b, action, rids, comment, true);
        assert failed == old(failed) + Attempt(b, action, rids, comment, false);
        ghost var rest: seq<string> := [];
        if newState.Some? && action != finalAction {
          TargetIsState(action, finalAction);
          var next := GetNextAction(finalAction, newState.value);
          StepsDecrease(state, action, finalAction);
          rest := ChainFrom(newState.value, next.value, finalAction).steps;
          assert ChainFrom(state, action, finalAction).steps == [action] + rest;
          ghost var mid, midFailed := actions, failed;
          ok := MoveToNextState(rids, newState.value, next.value, finalAction, comment);
          assert actions == old(actions) + Attempt(b, action, rids, comment, true) + Recorded(b, rest, rids, comment, true);
          assert failed == old(failed) + Attempt(b, action, rids, comment, false) + Recorded(b, rest, rids, comment, false);
        } else {
          assert ChainFrom(state, action, finalAction).steps == [action] + rest;
          assert Recorded(b, rest, rids, comment, true) == [] && Recorded(b, rest, rids, comment, false) == [];
          assert actions == old(actions) + Attempt(b, action, rids, comment, true) + Recorded(b, rest, rids, comment, true);
          assert failed == old(failed) + Attempt(b, action, rids, comment, false) + Recorded(b, rest, rids, comment, false);
        }
        RecordedCons(b, action, rest, rids, comment);
        SeqAssoc(old(actions), Attempt(b, action, rids, comment, true), Recorded(b, rest, rids, comment, true));
        SeqAssoc(old(failed), Attempt(b, action, rids, comment, false), Recorded(b, rest, rids, comment, false));
      }
    }

    /** `getNextAction` for the bucket's state, then the chain from there. */
    method MoveBucket(m: Move, finalAction: string, comment: string) returns (ok: bool)
      modifies this`actions, this`failed
      ensures ok == !MoveProgress(igc.backend, m, finalAction, comment).crashed
      ensures actions == old(actions) + MoveProgress(igc.backend, m, finalAction, comment).actions
      ensures failed == old(failed) + MoveProgress(igc.backend, m, finalAction, comment).failed
    {
      var next := GetNextAction(finalAction, m.state);
      if next.Err? {
        return false;
      }
      ok := MoveToNextState(m.rids, m.state, next.value, finalAction, comment);
    }

    /** ALL mode: each non-empty bucket from its own state, stopping at a failure. */
    method MoveAll(bk: Buckets, finalAction: string, comment: string) returns (ok: bool)
      modifies this`actions, this`failed
      ensures ok == !Perform(igc.backend, AllModeMoves(bk), finalAction, comment).crashed
      ensures actions == old(actions) + Perform(igc.backend, AllModeMoves(bk), finalAction, comment).actions
      ensures failed == old(failed) + Perform(igc.backend, AllModeMoves(bk), finalAction, comment).failed
    {
      ghost var b := igc.backend;
      var draft, waiting, approved := IfAny(bk.draft, "DRAFT"), IfAny(bk.waiting, "WAITING_APPROVAL"), IfAny(bk.approved, "APPROVED");
      ghost var p1, p2, p3 := Perform(b, draft, finalAction, comment), Perform(b, waiting, finalAction, comment), Perform(b, approved, finalAction, comment);
      ok := MoveSome(draft, finalAction, comment);
      assert actions == old(actions) + p1.actions && failed == old(failed) + p1.failed && ok == !p1.crashed;
      ghost var mid, midFailed := actions, failed;
      if ok {
        ok := MoveSome(waiting, finalAction, comment);
        SeqAssoc(old(actions), p1.actions, p2.actions);
        SeqAssoc(old(failed), p1.failed, p2.failed);
      }
      ghost var p12 := Then(p1, p2);
      assert actions == old(actions) + p12.actions && failed == old(failed) + p12.failed && ok == !p12.crashed;
      if ok {
        ok := MoveSome(approved, finalAction, comment);
        SeqAssoc(old(actions), p12.actions, p3.actions);
        SeqAssoc(old(failed), p12.failed, p3.failed);
      }
      PerformAppend(b, draft, waiting, finalAction, comment);
      PerformAppend(b, draft + waiting, approved, finalAction, comment);
    }

    /** At most one move (a non-empty bucket's). */
    method MoveSome(moves: seq<Move>, finalAction: string, comment: string) returns (ok: bool)
      requires |moves| <= 1
      modifies this`actions, this`failed
      ensures ok == !Perform(igc.backend, moves, finalAction, comment).crashed
      ensures actions == old(actions) + Perform(igc.backend, moves, finalAction, comment).actions
      ensures failed == old(failed) + Perform(igc.backend, moves, finalAction, comment).failed
    {
      ok := true;
      if moves != [] {
        ok := MoveBucket(moves[0], finalAction, comment);
        PerformOne(igc.backend, moves, finalAction, comment);
      }
    }

    /** The module's main flow: probe the workflow, query the assets, bucket them
        by state, and move the buckets (see `Moves`). */
    method Run(assetType: string, fromState: string, finalAction: string, comment: string,
               conditions: seq<Condition>, conditionJoin: string, batch: int) returns (outcome: RunOutcome)
      modifies this, igc`queries
      ensures workflowEnabled == WorkflowEnabled(igc.backend)
      ensures !workflowEnabled ==> outcome == WorkflowDisabled && actions == old(actions) && failed == old(failed)
                                    && assetCount == old(assetCount) && assets == old(assets)
                                    && igc.queries == old(igc.queries) + [IgcRest.WorkflowCheck]
      ensures workflowEnabled ==> igc.queries == old(igc.queries) + [IgcRest.WorkflowCheck, WorkflowQuery(assetType, fromState, conditions, conditionJoin, batch)]
      ensures var answer := IgcRest.Collect(igc.backend.search(WorkflowQuery(assetType, fromState, conditions, conditionJoin, batch)));
        workflowEnabled && answer.None? ==> && outcome == QueryFailed && actions == old(actions) && failed == old(failed)
                                            && assetCount == old(assetCount) && assets == old(assets)
      ensures var answer := IgcRest.Collect(igc.backend.search(WorkflowQuery(assetType, fromState, conditions, conditionJoin, batch)));
        workflowEnabled && answer.Some? ==> assets == answer.value && assetCount == |answer.value|
      ensures var answer := IgcRest.Collect(igc.backend.search(WorkflowQuery(assetType, fromState, conditions, conditionJoin, batch)));
        workflowEnabled && answer.Some? && !Bucketable(answer.value) ==> outcome.Crashed? && actions == old(actions) && failed == old(failed)
      ensures var answer := IgcRest.Collect(igc.backend.search(WorkflowQuery(assetType, fromState, conditions, conditionJoin, batch)));
        workflowEnabled && answer.Some? && Bucketable(answer.value) ==>
          var bk := Buckets(IdsIn(answer.value, "DRAFT"), IdsIn(answer.value, "WAITING_APPROVAL"), IdsIn(answer.value, "APPROVED"));
          match Moves(bk, fromState)
          case Err(_) => outcome.Crashed? && actions == old(actions) && failed == old(failed)
          case Ok(moves) =>
            var p := Perform(igc.backend, moves, finalAction, comment);
            && actions == old(actions) + p.actions && failed == old(failed) + p.failed
            && (outcome == Completed <==> !p.crashed)
    {
      var enabled := igc.IsWorkflowEnabled();
      workflowEnabled := enabled;
      if !enabled {
        return WorkflowDisabled;
      }
      var q := WorkflowQuery(assetType, fromState, conditions, conditionJoin, batch);
      var answer := igc.Search(q);
      if answer.None? {
        return QueryFailed;
      }
      assetCount := |answer.value|;
      assets := answer.value;
      var bucketed := BucketByState(answer.value);
      if bucketed.Err? {
        return Crashed(bucketed.msg);
      }
      var bk := bucketed.value;
      var ok := true;
      if fromState != "ALL" {
        var rids := bk.Get(fromState);
        if rids.None? {
          return Crashed("KeyError: " + fromState);
        }
        ok := MoveSome([Move(rids.value, fromState)], finalAction, comment);
      } else {
        ok := MoveAll(bk, finalAction, comment);
      }
      outcome := if ok then Completed else Crashed("KeyError: unknown workflow action");
    }
  }
}
