/** Tracker, queue, runner and handlers as they are programmed, over shared goal objects: every operation takes the
    step the state machine says (internal/goal_fulfillment/tracker.go, internal/processor/processor.go:102-189,
    internal/goal_fulfillment/goal_fulfillment.go:35-107, internal/apiserver/server.go:363-526). */
module Lifecycle {
  import opened Options
  import opened Goals
  import opened Prioritizing
  import opened GoalSystem

  class Tracker {
    var goals: map<string, Goal>

    constructor ()
      ensures goals == map[]
    {
      goals := map[];
    }

    /** Track a goal under its id, replacing what was there; `ok` also says whether it could be persisted. */
    method TrackGoal(goal: Goal, saved: bool) returns (ok: bool)
      modifies this
      ensures goals == if goal.id == "" then old(goals) else old(goals)[goal.id := goal]
      ensures ok <==> goal.id != "" && saved
    {
      if goal.id == "" {
        return false;
      }
      goals := goals[goal.id := goal];
      ok := saved;
    }

    /** Move a tracked goal along the table. A failure to persist is reported but does not undo the move. */
    method UpdateGoalState(id: string, to: GoalState) returns (ok: bool)
      modifies if id in goals then {goals[id]} else {}
      ensures id in goals ==> (goals[id].Now() ==
        if old(ValidTransition(goals[id].state, to)) then Moved(old(goals[id].Now()), to) else old(goals[id].Now()))
      ensures ok ==> id in goals && old(ValidTransition(goals[id].state, to))
    {
      if id !in goals {
        return false;
      }
      var goal := goals[id];
      if !ValidTransition(goal.state, to) {
        return false;
      }
      goal.MoveTo(to);
      ok := *;
    }

    method DeleteGoal(id: string) returns (ok: bool)
      modifies this
      ensures goals == old(goals) - {id}
      ensures ok ==> id in old(goals)
    {
      if id !in goals {
        assert goals - {id} == goals;
        return false;
      }
      goals := goals - {id};
      ok := *;
    }
  }

  class Processor {
    const tracker: Tracker
    const queue: Prioritizer
    var running: Option<Goal>   // the goal RunNext is working on
    var tasks: seq<Task>        // the handlers under way
    ghost var known: set<Goal>

    ghost function View(): Sys
      reads this, tracker, queue, known
    {
      Sys(tracker.goals, queue.goals, running, tasks, Cells(known))
    }

    ghost predicate Valid()
      reads this, tracker, queue, known
    {
      Sane(View())
    }

    constructor ()
      ensures Valid() && fresh(tracker) && fresh(queue) && View() == Sys(map[], [], None, [], map[])
      ensures known == {} && Inv(View())
    {
      tracker := new Tracker();
      queue := new Prioritizer();
      running, tasks, known := None, [], {};
    }

    // -------------------------------------------------------------- single effects

    /** A new goal object, tracked under its id. */
    method Adopt(id: string, createdAt: int, state: GoalState) returns (goal: Goal)
      requires id != ""
      modifies this`known, tracker
      ensures fresh(goal) && known == old(known) + {goal} && goal.id == id && goal.createdAt == createdAt
      ensures goal !in old(View()).cells
      ensures View() == Put(old(View()), goal, NewCell(state)).(tracked := old(tracker.goals)[id := goal])
    {
      ghost var was := Cells(known);
      hide NewCell, Moved;
      goal := new Goal(id, createdAt, state);
      var _ := tracker.TrackGoal(goal, true);
      CellsOfNew(was, known, goal);
      known := known + {goal};
    }

    /** What the refiner writes into a goal, and the tracking of the goal. */
    method Write(goal: Goal, state: GoalState, question: string)
      requires goal in known && goal.id != ""
      modifies goal, tracker
      ensures View() == Put(old(View()), goal, Moved(old(goal.Now()), state).(question := question))
                        .(tracked := old(tracker.goals)[goal.id := goal])
    {
      ghost var was := Cells(known);
      hide Moved;
      goal.MoveTo(state);
      goal.Ask(question);
      CellsOfChange(was, known, goal);
      var _ := tracker.TrackGoal(goal, true);
    }

    /** A goal's question has been answered. */
    method Clear(goal: Goal)
      requires goal in known
      modifies goal
      ensures View() == Put(old(View()), goal, old(goal.Now()).(question := ""))
    {
      ghost var was := Cells(known);
      goal.Ask("");
      CellsOfChange(was, known, goal);
    }

    /** An agent is started on a goal. */
    method StartOn(goal: Goal)
      requires goal in known
      modifies this`running, goal
      ensures View() == Put(old(View()), goal, Started(old(goal.Now()))).(running := Some(goal))
    {
      ghost var was := Cells(known);
      hide Started;
      goal.Start();
      CellsOfChange(was, known, goal);
      running := Some(goal);
    }

    /** The goal joins the queue, which is sorted by what is Active now. */
    method Enqueue(goal: Goal)
      requires goal in known && forall g | g in queue.goals :: g in known
      modifies queue
      ensures View() == old(View()).(queue := SortedBy(ActiveIn(old(View())), old(queue.goals) + [goal]))
    {
      hide SortedBy, ActiveIn, ActiveAmong;
      SortSame(View(), queue.goals, goal);
      queue.Enqueue(goal);
    }

    /** The first Active goal leaves the queue. */
    method Pop() returns (goal: Goal?)
      requires forall g | g in queue.goals :: g in known
      modifies queue
      ensures var s := old(View()); var k := FirstActive(ActiveIn(s), s.queue);
        && View() == s.(queue := Without(s.queue, k))
        && (k == |s.queue| ==> goal == null && View() == s)
        && (k < |s.queue| ==> goal == s.queue[k] && goal in known)
    {
      ghost var s := View();
      FirstSame(s, s.queue);
      ghost var k := FirstActive(ActiveIn(s), s.queue);
      assert k < |s.queue| ==> s.queue[k] in s.queue;
      assert k == |s.queue| ==> Without(s.queue, k) == s.queue;
      hide FirstActive, ActiveIn, ActiveAmong, Without;
      goal := queue.Next();
    }

    /** What comes of a refinement. */
    method WriteOutcome(goal: Goal, outcome: Refinement, saved: bool) returns (ghost n: Option<Goal>)
      requires goal in known && goal.id != ""
      modifies this`tasks, this`known, tracker, goal
      ensures known >= old(known) && fresh(known - old(known))
      ensures outcome.Rewritten? ==>
        n.Some? && n.value !in old(View()).cells && n.value.id == goal.id && n.value.createdAt == goal.createdAt
      ensures View() == Refined(old(View()), goal, outcome, saved, n)
    {
      n := None;
      hide Moved, NewCell;
      match outcome {
        case Failed =>
          tasks := tasks + [ToQueue(goal)];
        case Clarify(question) =>
          Write(goal, Refining, question);
          if !saved {
            tasks := tasks + [ToQueue(goal)];
          }
        case Accepted =>
          Write(goal, Active, "");
          tasks := tasks + [ToQueue(goal)];
        case Rewritten =>
          var rewritten := Adopt(goal.id, goal.createdAt, Active);
          n := Some(rewritten);
          tasks := tasks + [ToQueue(if saved then rewritten else goal)];
      }
    }

    /** Tracker.UpdateGoalState, seen from here. */
    method UpdateState(id: string, to: GoalState)
      requires Valid()
      modifies known
      ensures View() == Update(old(View()), id, to)
    {
      hide Moved, ValidTransition;
      ghost var was := Cells(known);
      if id in tracker.goals {
        ghost var goal := tracker.goals[id];
        assert goal in View().cells;
        var _ := tracker.UpdateGoalState(id, to);
        CellsOfChange(was, known, goal);
      }
    }

    // -------------------------------------------------------------- the operations

    /** A new goal, in Refining; unless it is a draft, a handler goes on to refine it. */
    method Submit(id: string, createdAt: int, draft: bool)
      requires Valid()
      modifies this, tracker
      ensures Valid() && known >= old(known) && fresh(known - old(known))
      ensures Step(old(View()), Command.Submit(id, createdAt, draft), View())
    {
      if id == "" || id in tracker.goals {
        return;
      }
      ghost var s := View();
      hide Sane, Step, NewCell;
      var goal := Adopt(id, createdAt, Refining);
      if !draft {
        tasks := tasks + [ToRefine(goal)];
      }
      SubmitIsStep(s, goal, draft, View());
    }

    /** Answer a goal's pending question; a handler goes on to refine it again. */
    method Answer(id: string, saved: bool)
      requires Valid()
      modifies this`tasks, tracker, known
      ensures Valid() && Step(old(View()), Command.Answer(id, saved), View())
    {
      ghost var s := View();
      if id !in tracker.goals {
        NoAnswer(s, id, saved);
        return;
      }
      var goal := tracker.goals[id];
      assert goal in s.cells && goal.id == id;
      if goal.question == "" {
        NoAnswer(s, id, saved);
        return;
      }
      hide Sane, Step, After;
      Answered(goal, saved);
      AnswerIsStep(s, id, saved, View());
    }

    method Answered(goal: Goal, saved: bool)
      requires goal in known && goal.id != "" && goal.id in tracker.goals && tracker.goals[goal.id] == goal
      modifies this`tasks, tracker, goal
      ensures View() == Put(old(View()), goal, old(goal.Now()).(question := ""))
                        .(tasks := if saved then old(tasks) + [ToRefine(goal)] else old(tasks))
    {
      Clear(goal);
      var ok := tracker.TrackGoal(goal, saved);
      assert tracker.goals == old(tracker.goals);
      if ok {
        tasks := tasks + [ToRefine(goal)];
      }
    }

    /** Run a tracked goal: a handler has looked it up and goes on to queue it. */
    method Run(id: string)
      requires Valid()
      modifies this`tasks
      ensures Valid() && Step(old(View()), Command.Run(id), View())
    {
      ghost var s := View();
      RunIsStep(s, id);
      hide Sane, Step;
      if id in tracker.goals {
        tasks := tasks + [ToQueue(tracker.goals[id])];
      }
    }

    /** A refinement ends: its outcome is written, and the handler goes on with the goal it has then. */
    method EndRefine(k: nat, outcome: Refinement, saved: bool)
      requires Valid()
      modifies this, tracker, known
      ensures Valid() && known >= old(known) && fresh(known - old(known))
      ensures Step(old(View()), Command.EndRefine(k, outcome, saved), View())
    {
      ghost var s := View();
      if k >= |tasks| || !tasks[k].ToRefine? {
        return;
      }
      var goal := tasks[k].goal;
      assert tasks[k] in s.tasks && goal in s.cells && goal.id != "";
      tasks := Without(tasks, k);
      assert View() == Drop(s, k);
      hide Sane, Step, Refined, Drop;
      ghost var n := WriteOutcome(goal, outcome, saved);
      RefineIsStep(s, k, outcome, saved, n, View());
    }

    /** The first half of Processor.QueueGoal: a goal that is not Active is activated if the table allows. */
    method QueueGoal(goal: Goal)
      requires Valid() && goal in known
      modifies this`tasks, known
      ensures View() == Activated(old(View()), goal)
    {
      ghost var s := View();
      UpdateIsSane(s, goal.id, Active);
      hide Sane, Update;
      assert goal in s.cells && s.cells[goal] == goal.Now();
      if goal.state != Active {
        UpdateState(goal.id, Active);
      }
      tasks := tasks + [ToEnqueue(goal)];
    }

    /** A handler begins to queue the goal it holds. */
    method Activate(k: nat)
      requires Valid()
      modifies this`tasks, known
      ensures Valid() && Step(old(View()), Command.Activate(k), View())
    {
      ghost var s := View();
      ActivateIsStep(s, k);
      if k < |tasks| && tasks[k].ToQueue? {
        var goal := tasks[k].goal;
        DropCounts(s, k, goal);
        assert goal in s.cells;
        tasks := Without(tasks, k);
        assert View() == Drop(s, k);
        hide Sane, Step, Activated, Pointers;
        QueueGoal(goal);
      }
    }

    /** The second half: the goal joins the queue in any case. */
    method EndQueue(k: nat)
      requires Valid()
      modifies this`tasks, queue
      ensures Valid() && Step(old(View()), Command.EndQueue(k), View())
    {
      ghost var s := View();
      QueueIsStep(s, k);
      if k < |tasks| && tasks[k].ToEnqueue? {
        var goal := tasks[k].goal;
        assert goal in s.cells;
        tasks := Without(tasks, k);
        assert View() == Drop(s, k);
        hide Sane, Step, SortedBy, ActiveIn;
        Enqueue(goal);
      }
    }

    /** A goal is no longer tracked; queue, runner and handlers may still hold it. */
    method Delete(id: string)
      requires Valid()
      modifies tracker
      ensures Valid() && Step(old(View()), Command.Delete(id), View())
    {
      var _ := tracker.DeleteGoal(id);
    }

    /** The first half of RunNext: pop a goal and start an agent on it, unless one is at work. */
    method Begin()
      requires Valid()
      modifies this`running, queue, known
      ensures Valid() && Step(old(View()), Command.Begin, View())
    {
      ghost var s := View();
      BeginIsStep(s);
      if running.Some? {
        return;
      }
      BegunIs(s);
      hide Begun, Step, Sane, ActiveIn, Started, FirstActive, Without;
      var goal := Pop();
      if goal != null {
        StartOn(goal);
      }
    }

    /** The second half: the agent ended, and the goal is Done or Blocked if the table allows. */
    method Finish(success: bool)
      requires Valid()
      modifies this`running, known
      ensures Valid() && Step(old(View()), Command.Finish(success), View())
    {
      ghost var s, was := View(), Cells(known);
      FinishIsStep(s, success);
      if running.None? {
        return;
      }
      var goal := running.value;
      assert goal in s.cells;
      goal.Stop();
      CellsOfChange(was, known, goal);
      running := None;
      assert View() == Put(s, goal, s.cells[goal].(busy := false)).(running := None);
      StoppedIsSane(s);
      hide Sane, Step, Update;
      UpdateState(goal.id, if success then Done else Blocked);
    }
  }

  ghost function Cells(known: set<Goal>): map<Goal, Cell>
    reads known
  {
    map g | g in known :: g.Now()
  }

  lemma CellsOfNew(was: map<Goal, Cell>, known: set<Goal>, goal: Goal)
    requires goal !in known && was.Keys == known && forall g | g in known :: g.Now() == was[g]
    ensures Cells(known + {goal}) == was[goal := goal.Now()]
  {
  }

  lemma CellsOfChange(was: map<Goal, Cell>, known: set<Goal>, goal: Goal)
    requires goal in known && was.Keys == known && forall g | g in known && g != goal :: g.Now() == was[g]
    ensures Cells(known) == was[goal := goal.Now()]
  {
  }

  // ---------------------------------------------------------------- the effects are steps

  lemma SubmitIsStep(s: Sys, n: Goal, draft: bool, s': Sys)
    requires Sane(s) && n !in s.cells && n.id != "" && n.id !in s.tracked
    requires s' == s.(tracked := s.tracked[n.id := n], cells := s.cells[n := NewCell(Refining)],
                      tasks := if draft then s.tasks else s.tasks + [ToRefine(n)])
    ensures Sane(s') && Step(s, Command.Submit(n.id, n.createdAt, draft), s')
  {
    var t := Put(s, n, NewCell(Refining)).(tracked := s.tracked[n.id := n]);
    NewIsSane(s, n, Refining);
    AddCounts(t, ToRefine(n), n);
    hide NewCell, Sane, Pointers;
  }

  lemma NoAnswer(s: Sys, id: string, saved: bool)
    requires Sane(s) && (id in s.tracked ==> s.cells[s.tracked[id]].question == "")
    ensures Step(s, Command.Answer(id, saved), s)
  {
  }

  lemma AnswerIsStep(s: Sys, id: string, saved: bool, s': Sys)
    requires Sane(s) && id in s.tracked && s.cells[s.tracked[id]].question != "" && id != ""
    requires var g := s.tracked[id];
      s' == Put(s, g, s.cells[g].(question := "")).(tasks := if saved then s.tasks + [ToRefine(g)] else s.tasks)
    ensures Sane(s') && Step(s, Command.Answer(id, saved), s')
  {
  }

  lemma RunIsStep(s: Sys, id: string)
    requires Sane(s)
    ensures var s' := After(s, Command.Run(id), None); Sane(s') && Step(s, Command.Run(id), s')
  {
  }

  lemma RefineIsStep(s: Sys, k: nat, o: Refinement, saved: bool, n: Option<Goal>, s': Sys)
    requires Sane(s) && CanRefine(s, k, o, n) && s.tasks[k].goal in s.cells
    requires o.Rewritten? ==> n.value.createdAt == s.tasks[k].goal.createdAt
    requires s' == Refined(Drop(s, k), s.tasks[k].goal, o, saved, n)
    ensures Sane(s') && Step(s, Command.EndRefine(k, o, saved), s')
  {
    RefinedIsSane(s, k, o, saved, n);
    hide Sane, Moved;
  }

  lemma ActivateIsStep(s: Sys, k: nat)
    requires Sane(s)
    ensures var s' := After(s, Command.Activate(k), None); Sane(s') && Step(s, Command.Activate(k), s')
  {
    if k < |s.tasks| && s.tasks[k].ToQueue? {
      DropCounts(s, k, s.tasks[k].goal);
      ActivatedEffect(Drop(s, k), s.tasks[k].goal, s.tasks[k].goal);
      hide Sane, Activated, Pointers;
    }
  }

  lemma QueueIsStep(s: Sys, k: nat)
    requires Sane(s)
    ensures var s' := After(s, Command.EndQueue(k), None); Sane(s') && Step(s, Command.EndQueue(k), s')
  {
    if k < |s.tasks| && s.tasks[k].ToEnqueue? {
      DropCounts(s, k, s.tasks[k].goal);
      QueuedEffect(Drop(s, k), s.tasks[k].goal, s.tasks[k].goal);
      hide Sane, Queued, Pointers;
    }
  }

  lemma BeginIsStep(s: Sys)
    requires Sane(s)
    ensures Sane(Begun(s)) && Step(s, Command.Begin, Begun(s))
  {
    if Begun(s) != s {
      BegunEffect(s, s.queue[FirstActive(ActiveIn(s), s.queue)]);
      hide Begun, Sane;
    }
  }

  lemma StoppedIsSane(s: Sys)
    requires Sane(s) && s.running.Some?
    ensures var g := s.running.value; Sane(Put(s, g, s.cells[g].(busy := false)).(running := None))
  {
  }

  lemma FinishIsStep(s: Sys, success: bool)
    requires Sane(s)
    ensures Sane(Finished(s, success)) && Step(s, Command.Finish(success), Finished(s, success))
  {
    if s.running.Some? {
      StoppedIsSane(s);
      var g := s.running.value;
      UpdateIsSane(Put(s, g, s.cells[g].(busy := false)).(running := None), g.id, if success then Done else Blocked);
      hide Sane, Update;
    }
  }

  lemma BegunIs(s: Sys)
    requires Sane(s) && s.running.None?
    ensures var k := FirstActive(ActiveIn(s), s.queue);
      && (k == |s.queue| ==> Begun(s) == s)
      && (k < |s.queue| ==>
            var g := s.queue[k];
            && g in s.cells
            && Begun(s) == Put(s, g, Started(s.cells[g])).(queue := Without(s.queue, k), running := Some(g)))
  {
    var k := FirstActive(ActiveIn(s), s.queue);
    assert k < |s.queue| ==> s.queue[k] in s.queue;
  }

  /** The queue is sorted by the states of its own goals. */
  lemma SortSame(s: Sys, gs: seq<Goal>, x: Goal)
    requires forall g | g in gs :: g in s.cells && s.cells[g] == g.Now()
    requires x in s.cells && s.cells[x] == x.Now()
    ensures SortedBy(ActiveAmong(gs + [x]), gs + [x]) == SortedBy(ActiveIn(s), gs + [x])
  {
    var all := gs + [x];
    assert forall g | g in all :: g in gs || g == x;
    SortedBySame(ActiveAmong(all), ActiveIn(s), all);
  }

  lemma FirstSame(s: Sys, gs: seq<Goal>)
    requires forall g | g in gs :: g in s.cells && s.cells[g] == g.Now()
    ensures FirstActive(ActiveAmong(gs), gs) == FirstActive(ActiveIn(s), gs)
  {
    FirstActiveIs(ActiveIn(s), gs, FirstActive(ActiveAmong(gs), gs));
  }

  // ---------------------------------------------------------------- runs

  /** Any script of commands takes exactly the steps of the state machine, one for one. */
  method Drive(p: Processor, script: seq<Command>) returns (ghost states: seq<Sys>)
    requires p.Valid()
    modifies p, p.tracker, p.queue, p.known
    ensures p.Valid() && IsRun(states, script) && states[0] == old(p.View()) && states[|script|] == p.View()
  {
    states := [p.View()];
    for i := 0 to |script|
      invariant p.Valid() && p.known >= old(p.known) && fresh(p.known - old(p.known))
      invariant |states| == i + 1 && states[0] == old(p.View()) && states[i] == p.View()
      invariant IsRun(states, script[..i])
    {
      ghost var s := p.View();
      Perform(p, script[i]);
      RunAppended(states, script, i, p.View());
      states := states + [p.View()];
    }
    assert script[..|script|] == script;
  }

  method Perform(p: Processor, c: Command)
    requires p.Valid()
    modifies p, p.tracker, p.queue, p.known
    ensures p.Valid() && p.known >= old(p.known) && fresh(p.known - old(p.known))
    ensures Step(old(p.View()), c, p.View())
  {
    hide Step, Sane;
    match c
    case Submit(id, createdAt, draft) => p.Submit(id, createdAt, draft);
    case Answer(id, saved) => p.Answer(id, saved);
    case Run(id) => p.Run(id);
    case EndRefine(k, outcome, saved) => p.EndRefine(k, outcome, saved);
    case Activate(k) => p.Activate(k);
    case EndQueue(k) => p.EndQueue(k);
    case Delete(id) => p.Delete(id);
    case Begin => p.Begin();
    case Finish(success) => p.Finish(success);
  }

  lemma RunAppended(states: seq<Sys>, script: seq<Command>, i: nat, s: Sys)
    requires i < |script| && IsRun(states, script[..i]) && Sane(states[i]) && Step(states[i], script[i], s)
    ensures IsRun(states + [s], script[..i + 1])
  {
    hide Step, Sane;
    var more, done := states + [s], script[..i + 1];
    forall j | 0 <= j < |done| ensures StepAt(more, done, j) {
      if j < i {
        assert StepAt(states, script[..i], j);
      }
    }
  }
}
