/** The life of goals as a state machine: tracker, queue, runner and the HTTP handlers under way
    (internal/goal_fulfillment/tracker.go, goal_fulfillment.go, refiner.go:69-137, internal/processor/processor.go,
    internal/apiserver/server.go:363-526).

    A handler holds a goal by pointer across a model call, and QueueGoal activates a goal before it enqueues it: these
    are tasks that end some time after they began, whatever happened to the goal in between. */
module GoalSystem {
  import opened Options
  import opened Goals
  import opened Prioritizing

  /** A handler's work still to come: writing what the refiner says of a goal, queueing a goal, or only the second
      half of that. */
  datatype Task = ToRefine(goal: Goal) | ToQueue(goal: Goal) | ToEnqueue(goal: Goal)

  /** How refining a goal can end. */
  datatype Refinement =
    | Failed
    | Clarify(question: string)   // the refiner asks back
    | Accepted                    // the goal itself becomes Active
    | Rewritten                   // a new goal object takes over the id

  datatype Sys = Sys(
    tracked: map<string, Goal>, queue: seq<Goal>, running: Option<Goal>, tasks: seq<Task>, cells: map<Goal, Cell>)

  datatype Command =
    | Submit(id: string, createdAt: int, draft: bool)
    | Answer(id: string, saved: bool)
    | Run(id: string)
    | EndRefine(k: nat, outcome: Refinement, saved: bool)
    | Activate(k: nat)
    | EndQueue(k: nat)
    | Delete(id: string)
    | Begin
    | Finish(success: bool)

  // ---------------------------------------------------------------- the steps

  /** Everything points to goals that exist, and the busy goal is the one the runner is at work on. */
  ghost predicate Sane(s: Sys) {
    && (forall id | id in s.tracked :: s.tracked[id] in s.cells && s.tracked[id].id == id)
    && (forall g | g in s.queue :: g in s.cells)
    && (forall t | t in s.tasks :: t.goal in s.cells)
    && (s.running.Some? ==> s.running.value in s.cells)
    && (forall g | g in s.cells :: g.id != "" && (s.cells[g].busy <==> s.running == Some(g)))
  }

  ghost function ActiveIn(s: Sys): set<Goal> {
    set g | g in s.cells && s.cells[g].state == Active
  }

  ghost function Put(s: Sys, g: Goal, c: Cell): Sys {
    s.(cells := s.cells[g := c])
  }

  ghost function Add(s: Sys, t: Task): Sys {
    s.(tasks := s.tasks + [t])
  }

  ghost function Drop(s: Sys, k: nat): Sys {
    s.(tasks := Without(s.tasks, k))
  }

  /** Tracker.UpdateGoalState */
  ghost function Update(s: Sys, id: string, to: GoalState): Sys
    requires Sane(s)
  {
    if id in s.tracked && ValidTransition(s.cells[s.tracked[id]].state, to)
    then Put(s, s.tracked[id], Moved(s.cells[s.tracked[id]], to))
    else s
  }

  /** The first half of Processor.QueueGoal: a goal that is not Active activates the one tracked under its id. */
  ghost function Activated(s: Sys, g: Goal): Sys
    requires Sane(s) && g in s.cells
  {
    Add(if s.cells[g].state == Active then s else Update(s, g.id, Active), ToEnqueue(g))
  }

  /** The second half: Prioritizer.Enqueue. */
  ghost function Queued(s: Sys, g: Goal): Sys {
    s.(queue := SortedBy(ActiveIn(s), s.queue + [g]))
  }

  /** What the refiner's answer does, and what the handler then goes on with. `saved` says whether the tracker
      could write its file: if not, the handler takes it for a failure, after the fact. */
  ghost function Refined(s: Sys, g: Goal, o: Refinement, saved: bool, n: Option<Goal>): Sys
    requires g in s.cells
  {
    match o
    case Failed => Add(s, ToQueue(g))
    case Clarify(q) =>
      var t := Put(s, g, Moved(s.cells[g], Refining).(question := q)).(tracked := s.tracked[g.id := g]);
      if saved then t else Add(t, ToQueue(g))
    case Accepted =>
      Add(Put(s, g, Moved(s.cells[g], Active).(question := "")).(tracked := s.tracked[g.id := g]), ToQueue(g))
    case Rewritten =>
      if n.None? then s
      else
        var t := Put(s, n.value, NewCell(Active)).(tracked := s.tracked[g.id := n.value]);
        Add(t, ToQueue(if saved then n.value else g))
  }

  /** Processor.RunNext up to and including the start of the agent, whoever calls it. */
  ghost function Popped(s: Sys): Sys {
    var k := FirstActive(ActiveIn(s), s.queue);
    if k == |s.queue| then s
    else
      var g := s.queue[k];
      if g in s.cells then Put(s, g, Started(s.cells[g])).(queue := Without(s.queue, k)) else s
  }

  /** The one runner calls it when it is done with the last goal. */
  ghost function Begun(s: Sys): Sys {
    var k := FirstActive(ActiveIn(s), s.queue);
    if s.running.Some? || k == |s.queue| then s else Popped(s).(running := Some(s.queue[k]))
  }

  /** The rest of Processor.RunNext. */
  ghost function Finished(s: Sys, success: bool): Sys
    requires Sane(s)
  {
    match s.running
    case None => s
    case Some(g) =>
      Update(Put(s, g, s.cells[g].(busy := false)).(running := None), g.id, if success then Done else Blocked)
  }

  /** The state after a command; `n` is the new goal object of a command that makes one. Commands that do not
      apply change nothing: the handlers answer them with an error. */
  ghost function After(s: Sys, c: Command, n: Option<Goal>): Sys
    requires Sane(s)
  {
    match c
    case Submit(id, _, draft) =>
      if id == "" || id in s.tracked || n.None? then s
      else
        var t := Put(s, n.value, NewCell(Refining)).(tracked := s.tracked[id := n.value]);
        if draft then t else Add(t, ToRefine(n.value))
    case Answer(id, saved) =>
      if id in s.tracked && s.cells[s.tracked[id]].question != "" then
        var g := s.tracked[id];
        var t := Put(s, g, s.cells[g].(question := ""));
        if saved then Add(t, ToRefine(g)) else t
      else s
    case Run(id) => if id in s.tracked then Add(s, ToQueue(s.tracked[id])) else s
    case EndRefine(k, o, saved) =>
      if k < |s.tasks| && s.tasks[k].ToRefine? then Refined(Drop(s, k), s.tasks[k].goal, o, saved, n) else s
    case Activate(k) =>
      if k < |s.tasks| && s.tasks[k].ToQueue? then
        WithoutIsRest(s.tasks, k);
        Activated(Drop(s, k), s.tasks[k].goal)
      else s
    case EndQueue(k) => if k < |s.tasks| && s.tasks[k].ToEnqueue? then Queued(Drop(s, k), s.tasks[k].goal) else s
    case Delete(id) => s.(tracked := s.tracked - {id})
    case Begin => Begun(s)
    case Finish(success) => Finished(s, success)
  }

  /** The id and creation time of the goal object a command makes, if it makes one. */
  ghost function Creates(s: Sys, c: Command): Option<(string, int)> {
    match c
    case Submit(id, createdAt, _) => if id == "" || id in s.tracked then None else Some((id, createdAt))
    case EndRefine(k, Rewritten, _) =>
      if k < |s.tasks| && s.tasks[k].ToRefine? then Some((s.tasks[k].goal.id, s.tasks[k].goal.createdAt)) else None
    case _ => None
  }

  ghost predicate Step(s: Sys, c: Command, s': Sys)
    requires Sane(s)
  {
    match Creates(s, c)
    case None => s' == After(s, c, None)
    case Some((id, createdAt)) =>
      && id in s'.tracked
      && var n := s'.tracked[id];
         n !in s.cells && n.id == id && n.createdAt == createdAt && s' == After(s, c, Some(n))
  }

  // ---------------------------------------------------------------- what has to hold of a goal

  ghost predicate Tracked(s: Sys, g: Goal) {
    g.id in s.tracked && s.tracked[g.id] == g
  }

  ghost function TaskGoals(tasks: seq<Task>): seq<Goal> {
    seq(|tasks|, i requires 0 <= i < |tasks| => tasks[i].goal)
  }

  /** The places from which a goal can still reach the runner: its copies in the queue and the handlers holding it. */
  ghost function Pointers(s: Sys, g: Goal): nat {
    multiset(s.queue)[g] + multiset(TaskGoals(s.tasks))[g]
  }

  /** A goal is never executed twice within one stay in Active, nor more often than it entered Active. A waiting
      Active goal has not been executed in its stay as long as it is tracked; if it is not, nothing will move it out
      of Active, and at most one execution may come of it. */
  ghost predicate GoodCell(c: Cell, tracked: bool, pointers: nat) {
    && c.runs <= c.entries
    && (c.state == Active ==> c.stay <= 1 && c.runs + 1 <= c.entries + c.stay)
    && (c.state == Active && c.busy ==> c.stay == 1)
    && (c.state == Active && tracked && !c.busy ==> c.stay == 0)
    && (c.state == Active && !tracked ==> pointers + c.stay <= 1)
  }

  ghost predicate Good(s: Sys, g: Goal)
    requires g in s.cells
  {
    GoodCell(s.cells[g], Tracked(s, g), Pointers(s, g))
  }

  ghost predicate Inv(s: Sys) {
    Sane(s) && forall g | g in s.cells :: Good(s, g)
  }

  // ---------------------------------------------------------------- pieces of steps

  lemma DropCounts(s: Sys, k: nat, g: Goal)
    requires k < |s.tasks|
    ensures Pointers(Drop(s, k), g) == Pointers(s, g) - (if s.tasks[k].goal == g then 1 else 0)
    ensures Sane(s) ==> Sane(Drop(s, k))
    ensures Tracked(Drop(s, k), g) == Tracked(s, g)
  {
    WithoutIsRest(s.tasks, k);
    WithoutIsRest(TaskGoals(s.tasks), k);
    assert TaskGoals(Without(s.tasks, k)) == Without(TaskGoals(s.tasks), k);
  }

  lemma AddCounts(s: Sys, t: Task, g: Goal)
    ensures Pointers(Add(s, t), g) == Pointers(s, g) + (if t.goal == g then 1 else 0)
    ensures Sane(s) && t.goal in s.cells ==> Sane(Add(s, t))
    ensures Tracked(Add(s, t), g) == Tracked(s, g)
  {
    assert TaskGoals(s.tasks + [t]) == TaskGoals(s.tasks) + [t.goal];
  }

  lemma SortCounts(s: Sys, active: set<Goal>, x: Goal, g: Goal)
    ensures multiset(SortedBy(active, s.queue + [x]))[g] == multiset(s.queue)[g] + (if x == g then 1 else 0)
    ensures g in SortedBy(active, s.queue + [x]) <==> g in s.queue || g == x
  {
    SortedByIsStable(active, s.queue + [x]);
    var out := SortedBy(active, s.queue + [x]);
    assert g in out <==> g in multiset(out);
    assert g in s.queue + [x] <==> g in multiset(s.queue + [x]);
  }

  lemma UpdateIsSane(s: Sys, id: string, to: GoalState)
    requires Sane(s)
    ensures Sane(Update(s, id, to))
  {
  }

  lemma SortIsSane(s: Sys, active: set<Goal>, x: Goal)
    requires Sane(s) && x in s.cells
    ensures Sane(s.(queue := SortedBy(active, s.queue + [x])))
  {
    var q := SortedBy(active, s.queue + [x]);
    forall i | 0 <= i < |q| ensures q[i] in s.cells {
      SortCounts(s, active, x, q[i]);
    }
    hide SortedBy;
  }

  lemma ActivatedEffect(s: Sys, g: Goal, x: Goal)
    requires Sane(s) && g in s.cells
    ensures var u := if s.cells[g].state == Active then s else Update(s, g.id, Active);
      && Sane(Activated(s, g)) && Activated(s, g).cells == u.cells && Activated(s, g).tracked == s.tracked
      && Activated(s, g).queue == s.queue && Activated(s, g).running == s.running
      && Pointers(Activated(s, g), x) == Pointers(s, x) + (if g == x then 1 else 0)
  {
    var u := if s.cells[g].state == Active then s else Update(s, g.id, Active);
    UpdateIsSane(s, g.id, Active);
    assert u.queue == s.queue && u.tasks == s.tasks && u.tracked == s.tracked && u.running == s.running;
    SamePointers(s, u, x);
    AddCounts(u, ToEnqueue(g), x);
    assert g in u.cells;
    hide Sane, Update, Pointers;
  }

  lemma QueuedEffect(s: Sys, g: Goal, x: Goal)
    requires Sane(s) && g in s.cells
    ensures Sane(Queued(s, g)) && Queued(s, g).cells == s.cells && Queued(s, g).tracked == s.tracked
    ensures Pointers(Queued(s, g), x) == Pointers(s, x) + (if g == x then 1 else 0)
  {
    SortCounts(s, ActiveIn(s), g, x);
    SortIsSane(s, ActiveIn(s), g);
    hide Sane, SortedBy;
  }

  lemma BegunEffect(s: Sys, x: Goal)
    requires Sane(s) && Begun(s) != s
    ensures var g := s.queue[FirstActive(ActiveIn(s), s.queue)];
      && Sane(Begun(s)) && s.running == None && g in s.queue && s.cells[g].state == Active
      && Begun(s).cells == s.cells[g := Started(s.cells[g])] && Begun(s).tracked == s.tracked
      && Pointers(Begun(s), x) == Pointers(s, x) - (if g == x then 1 else 0)
  {
    WithoutIsRest(s.queue, FirstActive(ActiveIn(s), s.queue));
  }

  // ---------------------------------------------------------------- exactly when a step keeps the invariant

  ghost predicate IsRefine(s: Sys, c: Command) {
    c.EndRefine? && c.k < |s.tasks| && s.tasks[c.k].ToRefine?
  }

  /** The goal object that a command takes out of the tracker. */
  ghost function Displaced(s: Sys, c: Command): Option<Goal> {
    if c.Delete? then (if c.id in s.tracked then Some(s.tracked[c.id]) else None)
    else if IsRefine(s, c) && !c.outcome.Failed? then
      var g := s.tasks[c.k].goal;
      if g.id in s.tracked && (c.outcome.Rewritten? || s.tracked[g.id] != g) then Some(s.tracked[g.id]) else None
    else None
  }

  /** How many executions of `h` are under way or can still come, once the command has been carried out. */
  ghost function HeldAfter(s: Sys, c: Command, h: Goal): int {
    Pointers(s, h) + (if s.running == Some(h) then 1 else 0)
    - (if IsRefine(s, c) && c.outcome.Rewritten? && c.saved && s.tasks[c.k].goal == h then 1 else 0)
  }

  /** A command may take an Active goal out of the tracker if at most one execution of it is under way or to come. */
  ghost predicate Guard(s: Sys, c: Command) {
    var d := Displaced(s, c);
    d.Some? && d.value in s.cells && s.cells[d.value].state == Active ==> HeldAfter(s, c, d.value) <= 1
  }

  lemma SubmitKeepsAt(s: Sys, n: Goal, draft: bool, g: Goal)
    requires Inv(s) && n !in s.cells && n.id !in s.tracked && (g in s.cells || g == n)
    ensures var t := Put(s, n, NewCell(Refining)).(tracked := s.tracked[n.id := n]);
      Good(if draft then t else Add(t, ToRefine(n)), g)
  {
    var t := Put(s, n, NewCell(Refining)).(tracked := s.tracked[n.id := n]);
    NotHeld(s, n);
    AddCounts(t, ToRefine(n), g);
    assert Pointers(t, g) == Pointers(s, g);
    hide Pointers, Add;
    assert g in s.cells ==> Good(s, g);
  }

  lemma NewIsSane(s: Sys, n: Goal, state: GoalState)
    requires Sane(s) && n !in s.cells && n.id != ""
    ensures Sane(Put(s, n, NewCell(state)).(tracked := s.tracked[n.id := n]))
  {
  }

  lemma SubmitKeeps(s: Sys, c: Command, s': Sys)
    requires Inv(s) && c.Submit? && Step(s, c, s')
    ensures Inv(s')
  {
    if Creates(s, c).Some? {
      var n := s'.tracked[c.id];
      var t := Put(s, n, NewCell(Refining)).(tracked := s.tracked[n.id := n]);
      NewIsSane(s, n, Refining);
      AddCounts(t, ToRefine(n), n);
      hide Sane, Good, NewCell;
      forall g | g in s'.cells ensures Good(s', g) {
        SubmitKeepsAt(s, n, c.draft, g);
      }
    }
  }

  /** A goal that does not exist is held nowhere. */
  lemma NotHeld(s: Sys, n: Goal)
    requires Sane(s) && n !in s.cells
    ensures Pointers(s, n) == 0
    ensures forall g | g in s.cells :: Tracked(s, g) ==> g != n
  {
    assert n !in TaskGoals(s.tasks) by {
      forall i | 0 <= i < |s.tasks| ensures TaskGoals(s.tasks)[i] != n {
        assert s.tasks[i] in s.tasks;
      }
    }
    assert n !in multiset(s.queue) && n !in multiset(TaskGoals(s.tasks));
  }

  lemma AnswerKeeps(s: Sys, id: string, saved: bool)
    requires Inv(s)
    ensures Inv(After(s, Answer(id, saved), None))
  {
    if id in s.tracked {
      var g0 := s.tracked[id];
      var t := Put(s, g0, s.cells[g0].(question := ""));
      assert Sane(t);
      AddCounts(t, ToRefine(g0), g0);
      forall g | g in s.cells ensures Good(t, g) && Good(Add(t, ToRefine(g0)), g) {
        AnswerKeepsAt(s, g0, g);
      }
      hide Sane, Good;
    }
  }

  lemma AnswerKeepsAt(s: Sys, g0: Goal, g: Goal)
    requires Inv(s) && g0 in s.cells && Tracked(s, g0) && g in s.cells
    ensures var t := Put(s, g0, s.cells[g0].(question := "")); Good(t, g) && Good(Add(t, ToRefine(g0)), g)
  {
    var t := Put(s, g0, s.cells[g0].(question := ""));
    AddCounts(t, ToRefine(g0), g);
    SamePointers(s, t, g);
    assert Good(s, g);
    hide Pointers, Add;
  }

  lemma RunKeeps(s: Sys, id: string)
    requires Inv(s)
    ensures Inv(After(s, Run(id), None))
  {
    if id in s.tracked {
      forall g | g in s.cells ensures Good(After(s, Run(id), None), g) {
        AddCounts(s, ToQueue(s.tracked[id]), g);
        assert Good(s, g);
      }
      AddCounts(s, ToQueue(s.tracked[id]), s.tracked[id]);
    }
  }

  /** Queueing a goal that is not Active activates the goal tracked under its id, if the table allows. */
  lemma ActivatedCell(s: Sys, g: Goal, x: Goal)
    requires Sane(s) && g in s.cells && x in s.cells
    ensures var moves := s.cells[g].state != Active && x.id == g.id && Tracked(s, x)
                         && ValidTransition(s.cells[x].state, Active);
      && x in Activated(s, g).cells
      && Activated(s, g).cells[x] == if moves then Moved(s.cells[x], Active) else s.cells[x]
  {
    ActivatedEffect(s, g, x);
    hide Activated, Pointers, ValidTransition, Moved;
  }

  lemma ActivateKeepsAt(s: Sys, k: nat, g: Goal)
    requires Inv(s) && k < |s.tasks| && s.tasks[k].goal in s.cells && g in s.cells && Sane(Drop(s, k))
    ensures g in Activated(Drop(s, k), s.tasks[k].goal).cells && Good(Activated(Drop(s, k), s.tasks[k].goal), g)
  {
    DropCounts(s, k, g);
    ActivatedCell(Drop(s, k), s.tasks[k].goal, g);
    ActivatedEffect(Drop(s, k), s.tasks[k].goal, g);
    SameTracked(s, Activated(Drop(s, k), s.tasks[k].goal), g);
    assert Good(s, g) && Drop(s, k).cells == s.cells;
    hide Activated, Pointers, Sane, Update, Tracked, ValidTransition, Drop;
  }

  lemma ActivateKeeps(s: Sys, k: nat)
    requires Inv(s)
    ensures Inv(After(s, Activate(k), None))
  {
    if k < |s.tasks| && s.tasks[k].ToQueue? {
      var g0 := s.tasks[k].goal;
      DropCounts(s, k, g0);
      ActivatedEffect(Drop(s, k), g0, g0);
      hide Sane, Activated, Good;
      forall g | g in Activated(Drop(s, k), g0).cells ensures Good(Activated(Drop(s, k), g0), g) {
        ActivateKeepsAt(s, k, g);
      }
    }
  }

  lemma QueueKeeps(s: Sys, k: nat)
    requires Inv(s)
    ensures Inv(After(s, EndQueue(k), None))
  {
    if k < |s.tasks| && s.tasks[k].ToEnqueue? {
      var g0 := s.tasks[k].goal;
      DropCounts(s, k, g0);
      QueuedEffect(Drop(s, k), g0, g0);
      hide Sane, Queued, Pointers;
      forall g | g in Queued(Drop(s, k), g0).cells ensures Good(Queued(Drop(s, k), g0), g) {
        DropCounts(s, k, g);
        QueuedEffect(Drop(s, k), g0, g);
        SameTracked(s, Queued(Drop(s, k), g0), g);
        assert Good(s, g);
      }
    }
  }

  lemma BeginKeeps(s: Sys)
    requires Inv(s)
    ensures Inv(Begun(s))
  {
    if Begun(s) != s {
      var g0 := s.queue[FirstActive(ActiveIn(s), s.queue)];
      BegunEffect(s, g0);
      HeldInQueue(s, g0);
      forall g | g in Begun(s).cells ensures Good(Begun(s), g) {
        BegunEffect(s, g);
        assert Good(s, g);
        hide Begun, Pointers;
      }
    }
  }

  lemma HeldInQueue(s: Sys, g: Goal)
    requires g in s.queue
    ensures Pointers(s, g) >= 1
  {
    assert g in multiset(s.queue);
  }

  /** The goal at work is at rest again, and the goal tracked under its id has moved on if it was Active. */
  lemma FinishedEffect(s: Sys, success: bool, g: Goal)
    requires Sane(s) && s.running.Some? && g in s.cells
    ensures var s', g0, to := Finished(s, success), s.running.value, if success then Done else Blocked;
      && g in s'.cells && s'.tracked == s.tracked && s'.queue == s.queue && s'.tasks == s.tasks
      && var c := if g == g0 then s.cells[g].(busy := false) else s.cells[g];
         s'.cells[g] == if g.id == g0.id && Tracked(s, g) && c.state == Active then c.(state := to) else c
  {
    TerminalStates(s.cells[g].state);
    hide ValidTransition;
  }

  lemma FinishKeepsAt(s: Sys, success: bool, g: Goal)
    requires Inv(s) && s.running.Some? && g in s.cells
    ensures g in Finished(s, success).cells && Good(Finished(s, success), g)
  {
    assert Good(s, g);
    FinishedEffect(s, success, g);
    SamePointers(s, Finished(s, success), g);
    assert s.cells[g].busy <==> s.running == Some(g);
    hide Pointers, Finished, Sane;
  }

  lemma SamePointers(s: Sys, s': Sys, g: Goal)
    requires s'.queue == s.queue && s'.tasks == s.tasks
    ensures Pointers(s', g) == Pointers(s, g)
  {
  }

  lemma FinishKeeps(s: Sys, success: bool)
    requires Inv(s)
    ensures Inv(Finished(s, success))
  {
    if s.running.Some? {
      var g0 := s.running.value;
      var t := Put(s, g0, s.cells[g0].(busy := false)).(running := None);
      UpdateIsSane(t, g0.id, if success then Done else Blocked);
      hide Sane, Good, ValidTransition;
      forall g | g in Finished(s, success).cells ensures Good(Finished(s, success), g) {
        FinishKeepsAt(s, success, g);
      }
    }
  }

  lemma DeleteKeepsIff(s: Sys, id: string)
    requires Inv(s)
    ensures Inv(After(s, Delete(id), None)) <==> Guard(s, Delete(id))
  {
    var s' := After(s, Delete(id), None);
    forall g | g in s.cells && !(id in s.tracked && s.tracked[id] == g) ensures Good(s', g) {
      assert Good(s, g);
    }
    if id in s.tracked {
      assert Good(s, s.tracked[id]);
    }
  }

  /** What the refiner's answer makes of the goal it was asked about. */
  ghost function RefinedCell(c: Cell, o: Refinement): Cell {
    match o
    case Clarify(q) => Moved(c, Refining).(question := q)
    case Accepted => Moved(c, Active).(question := "")
    case _ => c
  }

  ghost predicate CanRefine(s: Sys, k: nat, o: Refinement, n: Option<Goal>) {
    && k < |s.tasks| && s.tasks[k].ToRefine?
    && (o.Rewritten? ==> n.Some? && n.value !in s.cells && n.value.id == s.tasks[k].goal.id)
  }

  /** Pointers once a refinement has ended. */
  lemma RefinedPointers(s: Sys, k: nat, o: Refinement, saved: bool, n: Option<Goal>, x: Goal)
    requires Sane(s) && CanRefine(s, k, o, n)
    ensures var g := s.tasks[k].goal;
      g in s.cells &&
      Pointers(Refined(Drop(s, k), g, o, saved, n), x) == Pointers(s, x) - (if x == g then 1 else 0) +
        (if o.Clarify? && saved then 0
         else if o.Rewritten? && saved then if x == n.value then 1 else 0
         else if x == g then 1 else 0)
  {
    var g, r := s.tasks[k].goal, Drop(s, k);
    assert g in s.cells;
    DropCounts(s, k, x);
    var w := if o.Rewritten? && saved then n.value else g;
    var t := Refined(r, g, o, saved, n).(tasks := r.tasks);
    SamePointers(r, t, x);
    AddCounts(t, ToQueue(w), x);
    if !(o.Clarify? && saved) {
      assert Refined(r, g, o, saved, n) == Add(t, ToQueue(w));
    }
    hide Pointers, Sane, Moved;
  }

  /** Cells, tracking and pointers once a refinement has ended. */
  lemma RefinedEffect(s: Sys, k: nat, o: Refinement, saved: bool, n: Option<Goal>, x: Goal)
    requires Sane(s) && CanRefine(s, k, o, n)
    ensures var g := s.tasks[k].goal;
      && g in s.cells && g.id != ""
      && var s' := Refined(Drop(s, k), g, o, saved, n);
         && (x in s'.cells <==> x in s.cells || (o.Rewritten? && x == n.value))
         && (x in s.cells ==> s'.cells[x] == if x == g then RefinedCell(s.cells[x], o) else s.cells[x])
         && (o.Rewritten? ==> s'.cells[n.value] == NewCell(Active))
         && (Tracked(s', x) <==>
               if o.Failed? || x.id != g.id then Tracked(s, x) else x == if o.Rewritten? then n.value else g)
         && Pointers(s', x) == Pointers(s, x) - (if x == g then 1 else 0) +
              (if o.Clarify? && saved then 0
               else if o.Rewritten? && saved then if x == n.value then 1 else 0
               else if x == g then 1 else 0)
  {
    RefinedPointers(s, k, o, saved, n, x);
    hide Pointers, Without, Moved, NewCell;
  }

  lemma HeldByTask(s: Sys, k: nat)
    requires k < |s.tasks|
    ensures Pointers(s, s.tasks[k].goal) >= 1
  {
    assert TaskGoals(s.tasks)[k] in multiset(TaskGoals(s.tasks));
  }

  lemma RefineKeepsNew(s: Sys, k: nat, o: Refinement, saved: bool, n: Option<Goal>)
    requires Inv(s) && CanRefine(s, k, o, n) && o.Rewritten?
    ensures var g := s.tasks[k].goal;
      && g in s.cells && Displaced(s, EndRefine(k, o, saved)) != n
      && var s' := Refined(Drop(s, k), g, o, saved, n); n.value in s'.cells && Good(s', n.value)
  {
    RefinedEffect(s, k, o, saved, n, n.value);
    NotHeld(s, n.value);
    hide Pointers, Refined;
  }

  /** The goal that was refined: now tracked, or replaced by its rewritten version. */
  lemma RefineKeepsSelf(s: Sys, k: nat, o: Refinement, saved: bool, n: Option<Goal>)
    requires Inv(s) && CanRefine(s, k, o, n)
    ensures var x, c := s.tasks[k].goal, EndRefine(k, o, saved);
      && x in s.cells
      && var s' := Refined(Drop(s, k), x, o, saved, n);
         && x in s'.cells
         && (Displaced(s, c) != Some(x) ==> Good(s', x))
         && (Displaced(s, c) == Some(x) ==> (Good(s', x) <==> Guard(s, c)))
  {
    var x := s.tasks[k].goal;
    RefinedEffect(s, k, o, saved, n, x);
    HeldByTask(s, k);
    assert Good(s, x) && (s.cells[x].busy <==> s.running == Some(x));
    hide Pointers, Refined, Sane;
  }

  lemma RefineKeepsOther(s: Sys, k: nat, o: Refinement, saved: bool, n: Option<Goal>, x: Goal)
    requires Inv(s) && CanRefine(s, k, o, n) && x in s.cells && x != s.tasks[k].goal
    ensures var g, c := s.tasks[k].goal, EndRefine(k, o, saved);
      && g in s.cells
      && var s' := Refined(Drop(s, k), g, o, saved, n);
         && x in s'.cells
         && (Displaced(s, c) != Some(x) ==> Good(s', x))
         && (Displaced(s, c) == Some(x) ==> (Good(s', x) <==> Guard(s, c)))
  {
    RefinedEffect(s, k, o, saved, n, x);
    assert Good(s, x) && (s.cells[x].busy <==> s.running == Some(x));
    hide Pointers, Refined, Sane, RefinedCell;
  }

  /** Whatever goal the refinement does not take out of the tracker stays good, and that one exactly under the
      guard. */
  lemma RefineKeepsAt(s: Sys, k: nat, o: Refinement, saved: bool, n: Option<Goal>, x: Goal)
    requires Inv(s) && CanRefine(s, k, o, n)
    requires x in s.cells || (o.Rewritten? && x == n.value)
    ensures var g, c := s.tasks[k].goal, EndRefine(k, o, saved);
      && g in s.cells
      && var s' := Refined(Drop(s, k), g, o, saved, n);
         && x in s'.cells
         && (Displaced(s, c) != Some(x) ==> Good(s', x))
         && (Displaced(s, c) == Some(x) ==> (Good(s', x) <==> Guard(s, c)))
  {
    RefineKeepsSelf(s, k, o, saved, n);
    hide Good, Refined, Guard, Displaced, Inv;
    if x !in s.cells {
      RefineKeepsNew(s, k, o, saved, n);
    } else if x != s.tasks[k].goal {
      RefineKeepsOther(s, k, o, saved, n, x);
    }
  }

  lemma RefinedIsSane(s: Sys, k: nat, o: Refinement, saved: bool, n: Option<Goal>)
    requires Sane(s) && CanRefine(s, k, o, n)
    ensures var g := s.tasks[k].goal; g in s.cells && Sane(Refined(Drop(s, k), g, o, saved, n))
  {
    var g, r := s.tasks[k].goal, Drop(s, k);
    DropCounts(s, k, g);
    var w := if o.Rewritten? && saved then n.value else g;
    var t := Refined(r, g, o, saved, n).(tasks := r.tasks);
    assert Sane(t) by { WrittenIsSane(r, g, o, n, t); }
    AddCounts(t, ToQueue(w), w);
    hide Sane, Moved, Pointers;
    if !(o.Clarify? && saved) {
      assert Refined(r, g, o, saved, n) == Add(t, ToQueue(w));
    }
  }

  lemma WrittenIsSane(r: Sys, g: Goal, o: Refinement, n: Option<Goal>, t: Sys)
    requires Sane(r) && g in r.cells && (o.Rewritten? ==> n.Some? && n.value !in r.cells && n.value.id == g.id)
    requires t == match o
      case Failed => r
      case Rewritten => Put(r, n.value, NewCell(Active)).(tracked := r.tracked[g.id := n.value])
      case _ => Put(r, g, RefinedCell(r.cells[g], o)).(tracked := r.tracked[g.id := g])
    ensures Sane(t)
  {
  }

  lemma RefineKeepsIff(s: Sys, k: nat, o: Refinement, saved: bool, n: Option<Goal>)
    requires Inv(s) && CanRefine(s, k, o, n)
    ensures s.tasks[k].goal in s.cells
    ensures Inv(Refined(Drop(s, k), s.tasks[k].goal, o, saved, n)) <==> Guard(s, EndRefine(k, o, saved))
  {
    var g, c := s.tasks[k].goal, EndRefine(k, o, saved);
    RefinedIsSane(s, k, o, saved, n);
    var s' := Refined(Drop(s, k), g, o, saved, n);
    RefinedEffect(s, k, o, saved, n, g);
    assert Displaced(s, c).Some? ==> Displaced(s, c).value in s.cells;
    if Displaced(s, c).Some? {
      RefineKeepsAt(s, k, o, saved, n, Displaced(s, c).value);
    }
    hide Refined, Sane, Good, Guard, Displaced;
    forall x | x in s'.cells
      ensures Displaced(s, c) != Some(x) ==> Good(s', x)
      ensures Displaced(s, c) == Some(x) ==> (Good(s', x) <==> Guard(s, c))
    {
      RefinedEffect(s, k, o, saved, n, x);
      RefineKeepsAt(s, k, o, saved, n, x);
    }
    NoDisplacementNoGuard(s, c);
  }

  lemma NoDisplacementNoGuard(s: Sys, c: Command)
    ensures Displaced(s, c).None? ==> Guard(s, c)
  {
  }

  /** One step keeps the invariant exactly when it obeys the guard. */
  lemma StepKeepsIff(s: Sys, c: Command, s': Sys)
    requires Inv(s) && Step(s, c, s')
    ensures Inv(s') <==> Guard(s, c)
  {
    hide Inv, Good;
    match c
    case Submit(_, _, _) => SubmitKeeps(s, c, s');
    case Answer(id, saved) => AnswerKeeps(s, id, saved);
    case Run(id) => RunKeeps(s, id);
    case EndRefine(k, o, saved) =>
      if k < |s.tasks| && s.tasks[k].ToRefine? {
        RefineKeepsIff(s, k, o, saved, if o.Rewritten? then Some(s'.tracked[s.tasks[k].goal.id]) else None);
      }
    case Activate(k) => ActivateKeeps(s, k);
    case EndQueue(k) => QueueKeeps(s, k);
    case Delete(id) => DeleteKeepsIff(s, id);
    case Begin => BeginKeeps(s);
    case Finish(success) => FinishKeeps(s, success);
  }

  // ---------------------------------------------------------------- finished goals

  /** The table leads nowhere from a terminal state. */
  lemma UpdateKeepsTerminal(s: Sys, id: string, to: GoalState, g: Goal)
    requires Sane(s) && g in s.cells && Terminal(s.cells[g].state)
    ensures g in Update(s, id, to).cells && Update(s, id, to).cells[g] == s.cells[g]
  {
    TerminalStates(s.cells[g].state);
    hide ValidTransition;
  }

  lemma ActivateKeepsTerminal(s: Sys, k: nat, g: Goal)
    requires Sane(s) && k < |s.tasks| && s.tasks[k].goal in s.cells && g in s.cells && Terminal(s.cells[g].state)
    requires Sane(Drop(s, k))
    ensures var s' := Activated(Drop(s, k), s.tasks[k].goal); g in s'.cells && s'.cells[g] == s.cells[g]
  {
    ActivatedEffect(Drop(s, k), s.tasks[k].goal, g);
    UpdateKeepsTerminal(Drop(s, k), s.tasks[k].goal.id, Active, g);
    hide Activated, Update;
  }

  lemma RefineAndTerminal(s: Sys, k: nat, o: Refinement, saved: bool, n: Option<Goal>, g: Goal)
    requires Sane(s) && CanRefine(s, k, o, n) && g in s.cells && Terminal(s.cells[g].state)
    ensures s.tasks[k].goal in s.cells
    ensures var s' := Refined(Drop(s, k), s.tasks[k].goal, o, saved, n);
      && g in s'.cells && s'.cells[g].runs == s.cells[g].runs
      && (s'.cells[g].state == s.cells[g].state <==> !(s.tasks[k].goal == g && (o.Clarify? || o.Accepted?)))
      && (Tracked(s, g) ==> (Tracked(s', g) <==>
            o.Failed? || s.tasks[k].goal.id != g.id || (s.tasks[k].goal == g && !o.Rewritten?)))
  {
    RefinedEffect(s, k, o, saved, n, g);
    hide Refined, Pointers, Sane;
  }

  lemma BeginAndTerminal(s: Sys, g: Goal)
    requires Sane(s) && g in s.cells && Terminal(s.cells[g].state)
    ensures g in Begun(s).cells && Begun(s).cells[g] == s.cells[g]
  {
    if Begun(s) != s {
      BegunEffect(s, g);
      hide Begun;
    }
  }

  lemma FinishAndTerminal(s: Sys, success: bool, g: Goal)
    requires Sane(s) && g in s.cells && Terminal(s.cells[g].state)
    ensures var s' := Finished(s, success);
      g in s'.cells && s'.cells[g].state == s.cells[g].state && s'.cells[g].runs == s.cells[g].runs
  {
    if s.running.Some? {
      FinishedEffect(s, success, g);
      hide Finished;
    }
  }

  /** The refiner's answer is written into the goal itself. */
  ghost predicate WritesInto(s: Sys, c: Command, g: Goal) {
    IsRefine(s, c) && s.tasks[c.k].goal == g && (c.outcome.Clarify? || c.outcome.Accepted?)
  }

  /** A goal in a terminal state is changed by one thing only: the refiner writing its state. */
  lemma FinishedKeptIff(s: Sys, c: Command, s': Sys, g: Goal)
    requires Sane(s) && Step(s, c, s') && g in s.cells && Terminal(s.cells[g].state)
    ensures g in s'.cells
    ensures s'.cells[g].state == s.cells[g].state && s'.cells[g].runs == s.cells[g].runs <==> !WritesInto(s, c, g)
  {
    hide Refined, Activated, Begun, Finished, Pointers, Terminal;
    match c
    case EndRefine(k, o, saved) =>
      if IsRefine(s, c) {
        RefineAndTerminal(s, k, o, saved, if o.Rewritten? then Some(s'.tracked[s.tasks[k].goal.id]) else None, g);
      }
    case Activate(k) =>
      if k < |s.tasks| && s.tasks[k].ToQueue? {
        DropCounts(s, k, g);
        ActivateKeepsTerminal(s, k, g);
      }
    case Begin => BeginAndTerminal(s, g);
    case Finish(success) => FinishAndTerminal(s, success, g);
    case _ =>
  }

  /** Only a refinement takes a goal's id away from it, or a deletion. */
  lemma TrackedKept(s: Sys, c: Command, s': Sys, g: Goal)
    requires Sane(s) && Step(s, c, s') && g in s.cells && Tracked(s, g) && !IsRefine(s, c)
    ensures Tracked(s', g) <==> c != Delete(g.id)
  {
    hide Activated, Begun, Finished, Refined;
    match c
    case Activate(k) =>
      if k < |s.tasks| && s.tasks[k].ToQueue? {
        DropCounts(s, k, g);
        ActivatedEffect(Drop(s, k), s.tasks[k].goal, g);
        hide Sane, Pointers;
      }
    case Begin =>
      if Begun(s) != s {
        BegunEffect(s, g);
      }
    case Finish(success) => FinishTracks(s, success);
    case _ =>
  }

  lemma FinishTracks(s: Sys, success: bool)
    requires Sane(s)
    ensures Finished(s, success).tracked == s.tracked
  {
  }

  /** The goal tracked under an id stays finished unless the id is deleted or the refiner's answer for a goal of
      that id is written. */
  lemma FinishedIDKeptIff(s: Sys, c: Command, s': Sys, id: string)
    requires Sane(s) && Step(s, c, s') && id in s.tracked && Terminal(s.cells[s.tracked[id]].state)
    ensures Tracked(s', s.tracked[id]) && s'.cells[s.tracked[id]].state == s.cells[s.tracked[id]].state
      <==> c != Delete(id) && !(IsRefine(s, c) && s.tasks[c.k].goal.id == id && !c.outcome.Failed?)
  {
    var g := s.tracked[id];
    assert g.id == id && g in s.cells;
    FinishedKeptIff(s, c, s', g);
    if IsRefine(s, c) {
      RefineAndTerminal(s, c.k, c.outcome, c.saved,
        if c.outcome.Rewritten? then Some(s'.tracked[s.tasks[c.k].goal.id]) else None, g);
    } else {
      TrackedKept(s, c, s', g);
    }
    hide Refined, Activated, Begun, Finished, Pointers, Sane;
  }

  // ---------------------------------------------------------------- runs

  ghost predicate IsRun(states: seq<Sys>, script: seq<Command>) {
    && |states| == |script| + 1
    && forall i | 0 <= i < |script| :: StepAt(states, script, i)
  }

  ghost predicate StepAt(states: seq<Sys>, script: seq<Command>, i: nat)
    requires i < |script| && i + 1 < |states|
  {
    Sane(states[i]) && Step(states[i], script[i], states[i + 1])
  }

  /** In any interleaving of handlers and one runner whose commands obey the guard, no goal is executed twice
      within one stay in Active, nor more often than it entered Active. */
  lemma {:induction false} GuardedRunIsSafe(states: seq<Sys>, script: seq<Command>, i: nat)
    requires IsRun(states, script) && Inv(states[0]) && i <= |script|
    requires forall j | 0 <= j < i :: Guard(states[j], script[j])
    ensures Inv(states[i])
    ensures forall g | g in states[i].cells ::
      && states[i].cells[g].runs <= states[i].cells[g].entries
      && (states[i].cells[g].state == Active ==> states[i].cells[g].stay <= 1)
    decreases i
  {
    if i > 0 {
      GuardedRunIsSafe(states, script, i - 1);
      assert StepAt(states, script, i - 1);
      StepKeepsIff(states[i - 1], script[i - 1], states[i]);
      hide Step, Sane, Guard;
    }
    assert forall g | g in states[i].cells :: Good(states[i], g);
  }

  /** A goal that is Done or Cancelled stays so, and is not executed any more, as long as no answer of the refiner is
      written into it - whatever is run, deleted or rewritten. */
  lemma {:induction false} FinishedForever(states: seq<Sys>, script: seq<Command>, g: Goal, i: nat, j: nat)
    requires IsRun(states, script) && i <= j <= |script|
    requires g in states[i].cells && Terminal(states[i].cells[g].state)
    requires forall m | i <= m < j :: !WritesInto(states[m], script[m], g)
    ensures g in states[j].cells
    ensures states[j].cells[g].state == states[i].cells[g].state && states[j].cells[g].runs == states[i].cells[g].runs
    decreases j
  {
    if i < j {
      FinishedForever(states, script, g, i, j - 1);
      assert StepAt(states, script, j - 1) && !WritesInto(states[j - 1], script[j - 1], g);
      hide Step, Sane;
      FinishedKeptIff(states[j - 1], script[j - 1], states[j], g);
    }
  }

  // ---------------------------------------------------------------- the guard is needed

  /** No one asks for anything new: the handlers under way end, the refiner failing, and the runner works on. */
  ghost predicate Quiet(c: Command) {
    (c.EndRefine? && c.outcome.Failed?) || c.Activate? || c.EndQueue? || c.Begin? || c.Finish?
  }

  /** An Active goal that is not tracked and of which two executions are under way or to come. */
  ghost predicate Exposed(s: Sys, h: Goal) {
    && h in s.cells && s.cells[h].state == Active && !Tracked(s, h)
    && Pointers(s, h) + s.cells[h].stay >= 2
  }

  ghost function Effort(tasks: seq<Task>): nat {
    if tasks == [] then 0 else Effort(tasks[1..]) + EffortOf(tasks[0])
  }

  ghost function EffortOf(t: Task): nat {
    match t
    case ToRefine(_) => 3
    case ToQueue(_) => 2
    case ToEnqueue(_) => 1
  }

  lemma {:induction false} EffortAdds(a: seq<Task>, t: Task)
    ensures Effort(a + [t]) == Effort(a) + EffortOf(t)
    decreases |a|
  {
    if a == [] {
      assert a + [t] == [t];
    } else {
      assert (a + [t])[0] == a[0] && (a + [t])[1..] == a[1..] + [t];
      EffortAdds(a[1..], t);
    }
  }

  /** The next quiet command. */
  ghost function Next(s: Sys): Command {
    if s.tasks != [] then
      match s.tasks[0]
      case ToRefine(_) => EndRefine(0, Failed, true)
      case ToQueue(_) => Activate(0)
      case ToEnqueue(_) => EndQueue(0)
    else if s.running.Some? then Finish(true) else Begin
  }

  /** It brings the overrun closer and takes nothing back. */
  lemma QuietProgress(s: Sys, h: Goal) returns (s': Sys)
    requires Sane(s) && Exposed(s, h) && s.cells[h].stay < 2
    ensures Step(s, Next(s), s') && Sane(s') && Exposed(s', h) && Quiet(Next(s))
    ensures Effort(s'.tasks) < Effort(s.tasks)
      || (s.tasks == s'.tasks == [] && |s'.queue| < |s.queue|)
      || (s.tasks == s'.tasks == [] && s'.queue == s.queue && s.running.Some? && s'.running.None?)
  {
    s' := After(s, Next(s), None);
    hide Sane, Exposed, Begun, Finished, Pointers, Effort, After, Next, Step, Quiet;
    if s.tasks != [] {
      QuietTask(s, h);
    } else {
      AfterIdle(s);
      if s.running.Some? {
        QuietFinish(s, h);
      } else {
        QuietBegin(s, h);
      }
    }
  }

  lemma AfterIdle(s: Sys)
    requires Sane(s) && s.tasks == []
    ensures After(s, Next(s), None) == if s.running.Some? then Finished(s, true) else Begun(s)
    ensures Step(s, Next(s), After(s, Next(s), None)) && Quiet(Next(s))
  {
    hide Sane, Begun, Finished;
  }

  lemma AfterNextTask(s: Sys)
    requires Sane(s) && s.tasks != []
    ensures var g, r := s.tasks[0].goal, Drop(s, 0);
      && Sane(r) && g in r.cells && r.tasks == s.tasks[1..]
      && After(s, Next(s), None) == AfterTask(r, s.tasks[0])
      && Effort(s.tasks) == Effort(r.tasks) + EffortOf(s.tasks[0])
      && Creates(s, Next(s)).None? && Quiet(Next(s))
  {
    hide Activated, Queued, Pointers, Add, Tracked;
    DropCounts(s, 0, s.tasks[0].goal);
    DropFirst(s);
  }

  lemma DropFirst(s: Sys)
    requires s.tasks != []
    ensures Drop(s, 0).tasks == s.tasks[1..] && Drop(s, 0).cells == s.cells
    ensures Effort(s.tasks) == Effort(Drop(s, 0).tasks) + EffortOf(s.tasks[0])
  {
    assert s.tasks[..0] + s.tasks[1..] == s.tasks[1..];
  }

  ghost function AfterTask(r: Sys, t: Task): Sys
    requires Sane(r) && t.goal in r.cells
  {
    match t
    case ToRefine(g) => Add(r, ToQueue(g))
    case ToQueue(g) => Activated(r, g)
    case ToEnqueue(g) => Queued(r, g)
  }

  lemma QuietTask(s: Sys, h: Goal)
    requires Sane(s) && Exposed(s, h) && s.tasks != []
    ensures var s' := After(s, Next(s), None);
      Sane(s') && Exposed(s', h) && Effort(s'.tasks) < Effort(s.tasks) && Step(s, Next(s), s') && Quiet(Next(s))
  {
    var t, r := s.tasks[0], Drop(s, 0);
    AfterNextTask(s);
    DropCounts(s, 0, h);
    hide Sane, Pointers, Effort, Add, Activated, Queued, After, Drop, Tracked, Next, Creates;
    match t {
      case ToRefine(g) => QuietAdd(r, g, h);
      case ToQueue(g) => QuietActivate(r, g, h);
      case ToEnqueue(g) => QuietQueue(r, g, h);
    }
    assert r.cells == s.cells && r.tracked == s.tracked by { DropKeeps(s); }
    SameTracked(s, After(s, Next(s), None), h);
  }

  lemma DropKeeps(s: Sys)
    ensures Drop(s, 0).cells == s.cells && Drop(s, 0).tracked == s.tracked
  {
  }

  lemma SameTracked(s: Sys, s': Sys, h: Goal)
    requires s'.tracked == s.tracked
    ensures Tracked(s', h) == Tracked(s, h)
  {
  }

  lemma QuietAdd(r: Sys, g: Goal, h: Goal)
    requires Sane(r) && g in r.cells
    ensures var s' := Add(r, ToQueue(g));
      && Sane(s') && Effort(s'.tasks) == Effort(r.tasks) + 2 && s'.tracked == r.tracked && s'.cells == r.cells
      && Pointers(s', h) == Pointers(r, h) + (if g == h then 1 else 0)
  {
    AddCounts(r, ToQueue(g), h);
    EffortAdds(r.tasks, ToQueue(g));
    hide Sane, Pointers, Effort;
  }

  lemma QuietActivate(r: Sys, g: Goal, h: Goal)
    requires Sane(r) && g in r.cells && h in r.cells && !Tracked(r, h)
    ensures var s' := Activated(r, g);
      && Sane(s') && Effort(s'.tasks) == Effort(r.tasks) + 1 && s'.tracked == r.tracked
      && h in s'.cells && s'.cells[h] == r.cells[h]
      && Pointers(s', h) == Pointers(r, h) + (if g == h then 1 else 0)
  {
    ActivatedEffect(r, g, h);
    UpdateSparesUntracked(r, g.id, Active, h);
    EffortAdds(r.tasks, ToEnqueue(g));
    assert Activated(r, g).tasks == r.tasks + [ToEnqueue(g)];
    hide Activated, Update, Sane, Pointers, Effort;
  }

  lemma QuietQueue(r: Sys, g: Goal, h: Goal)
    requires Sane(r) && g in r.cells
    ensures var s' := Queued(r, g);
      && Sane(s') && s'.tasks == r.tasks && s'.tracked == r.tracked && s'.cells == r.cells
      && Pointers(s', h) == Pointers(r, h) + (if g == h then 1 else 0)
  {
    QueuedEffect(r, g, h);
    hide Sane, Pointers, SortedBy;
  }

  lemma UpdateSparesUntracked(s: Sys, id: string, to: GoalState, h: Goal)
    requires Sane(s) && h in s.cells && !Tracked(s, h)
    ensures h in Update(s, id, to).cells && Update(s, id, to).cells[h] == s.cells[h]
  {
  }

  lemma QuietFinish(s: Sys, h: Goal)
    requires Sane(s) && Exposed(s, h) && s.running.Some?
    ensures var s' := Finished(s, true);
      && Sane(s') && Exposed(s', h) && s'.running.None? && s'.queue == s.queue && s'.tasks == s.tasks
  {
    var g0 := s.running.value;
    FinishedEffect(s, true, h);
    FinishedEffect(s, true, g0);
    SamePointers(s, Finished(s, true), h);
    UpdateIsSane(Put(s, g0, s.cells[g0].(busy := false)).(running := None), g0.id, Done);
    hide Sane, Pointers, ValidTransition;
  }

  lemma QuietBegin(s: Sys, h: Goal)
    requires Sane(s) && Exposed(s, h) && s.cells[h].stay < 2 && s.running.None? && s.tasks == []
    ensures Sane(Begun(s)) && Exposed(Begun(s), h) && |Begun(s).queue| < |s.queue| && Begun(s).tasks == []
  {
    assert TaskGoals(s.tasks) == [];
    assert h in multiset(s.queue);
    assert h in s.queue && h in ActiveIn(s);
    var k := FirstActive(ActiveIn(s), s.queue);
    assert k < |s.queue| by {
      var i :| 0 <= i < |s.queue| && s.queue[i] == h;
      assert s.queue[i] in ActiveIn(s);
    }
    assert s.queue[k] in s.cells;
    BegunEffect(s, h);
    hide Sane, Pointers, ActiveIn;
  }

  /** Once the guard has been broken, an overrun needs nobody's help: if the handlers under way end and the runner
      works on, the goal is executed twice within one stay. */
  lemma ExposedIsOverrun(s: Sys, h: Goal) returns (states: seq<Sys>, script: seq<Command>)
    requires Sane(s) && Exposed(s, h)
    ensures IsRun(states, script) && states[0] == s && forall c | c in script :: Quiet(c)
    ensures var last := states[|script|];
      h in last.cells && last.cells[h].state == Active && last.cells[h].stay >= 2
    decreases Effort(s.tasks), |s.queue|, if s.running.Some? then 1 else 0
  {
    if s.cells[h].stay >= 2 {
      states, script := [s], [];
    } else {
      var s' := QuietProgress(s, h);
      states, script := ExposedIsOverrun(s', h);
      RunPrepended(s, Next(s), states, script);
      states, script := [s] + states, [Next(s)] + script;
      hide IsRun, Exposed, Step, Sane, Quiet;
    }
  }

  lemma RunPrepended(s: Sys, c: Command, states: seq<Sys>, script: seq<Command>)
    requires IsRun(states, script) && Sane(s) && Step(s, c, states[0]) && Quiet(c)
    requires forall c | c in script :: Quiet(c)
    ensures IsRun([s] + states, [c] + script) && forall d | d in [c] + script :: Quiet(d)
  {
    hide Sane, Step, Quiet;
    forall i | 0 <= i < |script| + 1 ensures StepAt([s] + states, [c] + script, i) {
      if i > 0 {
        assert StepAt(states, script, i - 1);
      }
    }
  }

  lemma DeleteExposes(s: Sys, id: string)
    requires Inv(s) && !Guard(s, Delete(id))
    ensures id in s.tracked && Sane(After(s, Delete(id), None)) && Exposed(After(s, Delete(id), None), s.tracked[id])
  {
    var h := s.tracked[id];
    assert Good(s, h) && (s.cells[h].busy <==> s.running == Some(h));
    SamePointers(s, After(s, Delete(id), None), h);
    hide Pointers;
  }

  lemma RefineExposes(s: Sys, k: nat, o: Refinement, saved: bool, n: Option<Goal>)
    requires Inv(s) && CanRefine(s, k, o, n) && !Guard(s, EndRefine(k, o, saved))
    ensures s.tasks[k].goal in s.cells && s.tasks[k].goal.id in s.tracked
    ensures var s' := Refined(Drop(s, k), s.tasks[k].goal, o, saved, n);
      Sane(s') && Exposed(s', s.tracked[s.tasks[k].goal.id])
  {
    var h := Displaced(s, EndRefine(k, o, saved)).value;
    assert Good(s, h) && (s.cells[h].busy <==> s.running == Some(h));
    RefinedEffect(s, k, o, saved, n, h);
    RefinedIsSane(s, k, o, saved, n);
    hide Refined, Pointers, Sane, RefinedCell;
  }

  /** A command that breaks the guard leads to an overrun. */
  lemma GuardIsNeeded(s: Sys, c: Command, s': Sys) returns (h: Goal, states: seq<Sys>, script: seq<Command>)
    requires Inv(s) && Step(s, c, s') && !Guard(s, c)
    ensures IsRun(states, script) && states[0] == s' && forall c | c in script :: Quiet(c)
    ensures h in states[|script|].cells && states[|script|].cells[h].stay >= 2
  {
    hide Refined, Exposed, IsRun;
    if c.Delete? {
      DeleteExposes(s, c.id);
      h := s.tracked[c.id];
    } else {
      var n := if c.outcome.Rewritten? then Some(s'.tracked[s.tasks[c.k].goal.id]) else None;
      RefineExposes(s, c.k, c.outcome, c.saved, n);
      h := s.tracked[s.tasks[c.k].goal.id];
    }
    states, script := ExposedIsOverrun(s', h);
  }

  // ---------------------------------------------------------------- which goal runs next

  ghost predicate InOrder(s: Sys) {
    Ascending(ActiveIn(s), s.queue)
  }

  /** Order outlives a step that leaves the queue alone and turns no queued goal Active. */
  lemma OrderOutlives(s: Sys, s': Sys)
    requires Sane(s) && InOrder(s) && s'.queue == s.queue
    requires forall g | g in s.queue :: g in s'.cells && (s'.cells[g].state == Active ==> s.cells[g].state == Active)
    ensures InOrder(s')
  {
    AscendingUntilActivation(ActiveIn(s), ActiveIn(s'), s.queue);
  }

  /** The goal that a command makes Active, other than a new one. */
  ghost function WouldActivate(s: Sys, c: Command): Option<Goal>
    requires Sane(s)
  {
    if IsRefine(s, c) && c.outcome.Accepted? then Some(s.tasks[c.k].goal)
    else if c.Activate? && c.k < |s.tasks| && s.tasks[c.k].ToQueue? then
      var g := s.tasks[c.k].goal;
      if s.cells[g].state != Active && g.id in s.tracked && ValidTransition(s.cells[s.tracked[g.id]].state, Active)
      then Some(s.tracked[g.id]) else None
    else None
  }

  /** The goal that is made Active stands in the queue where it should, if it stands there. */
  ghost predicate OrderGuard(s: Sys, c: Command)
    requires Sane(s)
  {
    var v := WouldActivate(s, c);
    v.Some? ==> Ascending(ActiveIn(s) + {v.value}, s.queue)
  }

  /** Only the states of queued goals matter. */
  lemma OrderByQueue(s: Sys, s': Sys, v: Goal)
    requires Sane(s) && s'.queue == s.queue
    requires forall i | 0 <= i < |s.queue| :: s.queue[i] in ActiveIn(s') <==> s.queue[i] in ActiveIn(s) + {v}
    ensures InOrder(s') <==> Ascending(ActiveIn(s) + {v}, s.queue)
  {
    hide ActiveIn;
  }

  lemma AcceptOrders(s: Sys, k: nat, saved: bool)
    requires Sane(s) && CanRefine(s, k, Accepted, None)
    ensures s.tasks[k].goal in s.cells
    ensures InOrder(Refined(Drop(s, k), s.tasks[k].goal, Accepted, saved, None))
      <==> Ascending(ActiveIn(s) + {s.tasks[k].goal}, s.queue)
  {
    var g := s.tasks[k].goal;
    RefinedIsSane(s, k, Accepted, saved, None);
    var s' := Refined(Drop(s, k), g, Accepted, saved, None);
    assert s'.queue == s.queue;
    forall i | 0 <= i < |s.queue| ensures s.queue[i] in ActiveIn(s') <==> s.queue[i] in ActiveIn(s) + {g} {
      RefinedEffect(s, k, Accepted, saved, None, s.queue[i]);
      assert s.queue[i] in s.queue;
      hide Refined, Pointers, Tracked, Sane;
    }
    hide Refined, InOrder, Sane;
    OrderByQueue(s, s', g);
  }

  lemma ActivateOrders(s: Sys, k: nat, v: Goal)
    requires Sane(s) && WouldActivate(s, Activate(k)) == Some(v)
    ensures s.tasks[k].goal in s.cells && Sane(Drop(s, k))
    ensures InOrder(Activated(Drop(s, k), s.tasks[k].goal)) <==> Ascending(ActiveIn(s) + {v}, s.queue)
  {
    var g := s.tasks[k].goal;
    DropCounts(s, k, g);
    var s' := Activated(Drop(s, k), g);
    ActivatedEffect(Drop(s, k), g, g);
    forall i | 0 <= i < |s.queue| ensures s.queue[i] in ActiveIn(s') <==> s.queue[i] in ActiveIn(s) + {v} {
      assert s.queue[i] in s.queue;
      ActivatedCell(Drop(s, k), g, s.queue[i]);
      hide Activated, Pointers;
    }
    hide Activated, InOrder, Sane, Pointers;
    OrderByQueue(s, s', v);
  }

  lemma ActivateKeepsOrder(s: Sys, k: nat)
    requires Sane(s) && InOrder(s) && k < |s.tasks| && s.tasks[k].ToQueue? && WouldActivate(s, Activate(k)).None?
    ensures s.tasks[k].goal in s.cells && Sane(Drop(s, k)) && InOrder(Activated(Drop(s, k), s.tasks[k].goal))
  {
    var g := s.tasks[k].goal;
    DropCounts(s, k, g);
    var s' := Activated(Drop(s, k), g);
    ActivatedEffect(Drop(s, k), g, g);
    forall i | 0 <= i < |s.queue|
      ensures s.queue[i] in s'.cells
      ensures s'.cells[s.queue[i]].state == Active ==> s.cells[s.queue[i]].state == Active
    {
      assert s.queue[i] in s.queue;
      ActivatedCell(Drop(s, k), g, s.queue[i]);
      hide Activated, Pointers;
    }
    hide Activated, InOrder, Sane, Pointers;
    OrderOutlives(s, s');
  }

  lemma RefineKeepsOrder(s: Sys, k: nat, o: Refinement, saved: bool, n: Option<Goal>)
    requires Sane(s) && CanRefine(s, k, o, n) && InOrder(s) && !o.Accepted?
    ensures s.tasks[k].goal in s.cells && InOrder(Refined(Drop(s, k), s.tasks[k].goal, o, saved, n))
  {
    RefinedIsSane(s, k, o, saved, n);
    var s' := Refined(Drop(s, k), s.tasks[k].goal, o, saved, n);
    assert s'.queue == s.queue;
    forall i | 0 <= i < |s.queue|
      ensures s.queue[i] in s'.cells
      ensures s'.cells[s.queue[i]].state == Active ==> s.cells[s.queue[i]].state == Active
    {
      RefinedEffect(s, k, o, saved, n, s.queue[i]);
      assert s.queue[i] in s.queue;
      hide Refined;
    }
    hide Refined, InOrder;
    OrderOutlives(s, s');
  }

  lemma BeginKeepsOrder(s: Sys)
    requires Sane(s) && InOrder(s)
    ensures InOrder(Begun(s))
  {
    var k := FirstActive(ActiveIn(s), s.queue);
    if k < |s.queue| && s.running.None? {
      WithoutKeepsOrder(ActiveIn(s), s.queue, k);
      assert s.queue[k] in s.queue;
      assert ActiveIn(Begun(s)) == ActiveIn(s);
    }
  }

  lemma FinishKeepsOrder(s: Sys, success: bool)
    requires Sane(s) && InOrder(s)
    ensures InOrder(Finished(s, success))
  {
    if s.running.Some? {
      forall g | g in s.queue
        ensures g in Finished(s, success).cells
        ensures Finished(s, success).cells[g].state == Active ==> s.cells[g].state == Active
      {
        FinishedEffect(s, success, g);
      }
      assert Finished(s, success).queue == s.queue;
      hide Finished, InOrder;
      OrderOutlives(s, Finished(s, success));
    }
  }

  lemma RefineOrderIff(s: Sys, c: Command, s': Sys)
    requires Sane(s) && InOrder(s) && Step(s, c, s') && IsRefine(s, c)
    ensures InOrder(s') <==> OrderGuard(s, c)
  {
    hide InOrder, Refined;
    if c.outcome.Accepted? {
      AcceptOrders(s, c.k, c.saved);
    } else {
      var n := if c.outcome.Rewritten? then Some(s'.tracked[s.tasks[c.k].goal.id]) else None;
      RefineKeepsOrder(s, c.k, c.outcome, c.saved, n);
    }
  }

  lemma ActivateOrderIff(s: Sys, c: Command, s': Sys)
    requires Sane(s) && InOrder(s) && Step(s, c, s') && c.Activate? && c.k < |s.tasks| && s.tasks[c.k].ToQueue?
    ensures InOrder(s') <==> OrderGuard(s, c)
  {
    hide InOrder, Activated, WouldActivate;
    if WouldActivate(s, c).None? {
      ActivateKeepsOrder(s, c.k);
    } else {
      ActivateOrders(s, c.k, WouldActivate(s, c).value);
    }
  }

  lemma OtherKeepsOrder(s: Sys, c: Command, s': Sys)
    requires Sane(s) && InOrder(s) && Step(s, c, s') && !IsRefine(s, c)
    requires !(c.Activate? && c.k < |s.tasks| && s.tasks[c.k].ToQueue?)
    ensures InOrder(s')
  {
    hide InOrder, Refined, Activated, Queued, Begun, Finished;
    match c
    case EndQueue(k) =>
      if k < |s.tasks| && s.tasks[k].ToEnqueue? {
        QueueSorts(Drop(s, k), s.tasks[k].goal);
      }
    case Begin => BeginKeepsOrder(s);
    case Finish(success) => FinishKeepsOrder(s, success);
    case _ => OrderOutlives(s, s');
  }

  /** The queue keeps its Active goals in order of creation exactly when no command makes a goal Active that stands
      in the queue behind an Active one created later, or before one created earlier. */
  lemma OrderKeptIff(s: Sys, c: Command, s': Sys)
    requires Sane(s) && InOrder(s) && Step(s, c, s')
    ensures InOrder(s') <==> OrderGuard(s, c)
  {
    hide InOrder, Step, Sane, Ascending;
    if IsRefine(s, c) {
      RefineOrderIff(s, c, s');
    } else if c.Activate? && c.k < |s.tasks| && s.tasks[c.k].ToQueue? {
      ActivateOrderIff(s, c, s');
    } else {
      OtherKeepsOrder(s, c, s');
    }
  }

  /** It happens: a queued goal that the refiner had asked back about is accepted in the end, while a goal created
      later stands before it. */
  lemma AcceptedOutOfOrder(s: Sys, c: Command, s': Sys, i: nat, j: nat)
    requires Sane(s) && InOrder(s) && Step(s, c, s') && IsRefine(s, c) && c.outcome.Accepted?
    requires i < j < |s.queue| && s.queue[i] in ActiveIn(s) && s.queue[j] == s.tasks[c.k].goal
    requires s.queue[j].createdAt < s.queue[i].createdAt
    ensures !InOrder(s')
  {
    OrderKeptIff(s, c, s');
    hide InOrder, Step, Sane, ActiveIn;
    assert s.queue[j] in ActiveIn(s) + {s.queue[j]} && s.queue[i] in ActiveIn(s) + {s.queue[j]};
  }

  /** Enqueueing puts the queue in order, whatever it was before. */
  lemma QueueSorts(s: Sys, g: Goal)
    ensures InOrder(Queued(s, g))
  {
    SortedByIsStable(ActiveIn(s), s.queue + [g]);
    SortedIsAscending(ActiveIn(s), SortedBy(ActiveIn(s), s.queue + [g]));
    assert ActiveIn(Queued(s, g)) == ActiveIn(s);
    hide SortedBy, ActiveIn;
  }

  /** Over any run the queue is in order from the last time a goal was enqueued on, as long as no command breaks the
      guard. */
  lemma {:induction false} OrderOverRun(states: seq<Sys>, script: seq<Command>, i: nat, j: nat)
    requires IsRun(states, script) && i <= j <= |script|
    requires InOrder(states[i]) || (i > 0 && Enqueues(states[i - 1], script[i - 1]))
    requires forall m | i <= m < j :: Sane(states[m]) && OrderGuard(states[m], script[m])
    ensures InOrder(states[j])
    decreases j
  {
    hide Step, Sane, InOrder, OrderGuard;
    if i < j {
      OrderOverRun(states, script, i, j - 1);
      assert StepAt(states, script, j - 1) && OrderGuard(states[j - 1], script[j - 1]);
      OrderKeptIff(states[j - 1], script[j - 1], states[j]);
    } else if i > 0 && Enqueues(states[i - 1], script[i - 1]) {
      assert StepAt(states, script, i - 1);
      EnqueueSorts(states[i - 1], script[i - 1], states[i]);
    }
  }

  ghost predicate Enqueues(s: Sys, c: Command) {
    c.EndQueue? && c.k < |s.tasks| && s.tasks[c.k].ToEnqueue?
  }

  lemma EnqueueSorts(s: Sys, c: Command, s': Sys)
    requires Sane(s) && Step(s, c, s') && Enqueues(s, c)
    ensures InOrder(s')
  {
    QueueSorts(Drop(s, c.k), s.tasks[c.k].goal);
    hide Queued, InOrder;
  }

  /** The runner takes the earliest created of the Active goals in the queue. */
  lemma EarliestRuns(s: Sys, x: Goal)
    requires Sane(s) && InOrder(s) && s.running.None? && x in s.queue && s.cells[x].state == Active
    ensures var g := s.queue[FirstActive(ActiveIn(s), s.queue)];
      Begun(s).running == Some(g) && g.createdAt <= x.createdAt
  {
    FirstIsEarliest(ActiveIn(s), s.queue, x);
    assert s.queue[FirstActive(ActiveIn(s), s.queue)] in s.queue;
  }
}
