/** Runs of the goal system that show why its guards are there. Each begins with an empty tracker and concerns one
    goal. */
module GoalWitnesses {
  import opened Options
  import opened Goals
  import opened Prioritizing
  import opened GoalSystem

  ghost const EMPTY := Sys(map[], [], None, [], map[])

  /** One goal, queued `n` times. */
  ghost function One(g: Goal, tracked: bool, n: nat, running: bool, tasks: seq<Task>, c: Cell): Sys {
    Sys(if tracked then map[g.id := g] else map[], Copies(g, n), if running then Some(g) else None, tasks, map[g := c])
  }

  function Copies(g: Goal, n: nat): seq<Goal> {
    seq(n, _ => g)
  }

  /** All tasks concern the goal, and it is busy when it is run. */
  ghost predicate Fine(g: Goal, running: bool, tasks: seq<Task>, c: Cell) {
    g.id != "" && (c.busy <==> running) && forall t | t in tasks :: t.goal == g
  }

  /** The goal as it is between executions. */
  ghost function Rested(state: GoalState, question: string, entries: nat, runs: nat): Cell {
    Cell(state, question, entries, runs, if entries == 1 then runs else 0, false)
  }

  lemma OneIsSane(g: Goal, tracked: bool, n: nat, running: bool, tasks: seq<Task>, c: Cell)
    requires Fine(g, running, tasks, c)
    ensures Sane(One(g, tracked, n, running, tasks, c))
  {
  }

  lemma OneSubmit(g: Goal, draft: bool)
    requires g.id != ""
    ensures Sane(EMPTY) && Step(EMPTY, Submit(g.id, g.createdAt, draft),
      One(g, true, 0, false, if draft then [] else [ToRefine(g)], NewCell(Refining)))
  {
    assert EMPTY.tasks + [ToRefine(g)] == [ToRefine(g)] && Copies(g, 0) == [];
  }

  lemma OneRun(g: Goal, n: nat, running: bool, tasks: seq<Task>, c: Cell)
    requires Fine(g, running, tasks, c)
    ensures var s := One(g, true, n, running, tasks, c);
      Sane(s) && Step(s, Run(g.id), One(g, true, n, running, tasks + [ToQueue(g)], c))
  {
    OneIsSane(g, true, n, running, tasks, c);
  }

  lemma {:induction false} SortedCopies(active: set<Goal>, g: Goal, n: nat)
    ensures SortedBy(active, Copies(g, n)) == Copies(g, n)
  {
    if n > 0 {
      var gs, front := Copies(g, n), Copies(g, n - 1);
      SortedCopies(active, g, n - 1);
      assert gs[..n - 1] == front;
      assert !Before(active, g, g);
      assert InsertionPoint(active, front, g) == n - 1;
      assert front[..n - 1] == front && front[n - 1..] == [] && gs == front + [g] + [];
    }
  }

  lemma OneActivate(g: Goal, tracked: bool, n: nat, running: bool, tasks: seq<Task>, k: nat, c: Cell)
    requires Fine(g, running, tasks, c) && k < |tasks| && tasks[k] == ToQueue(g)
    ensures var s := One(g, tracked, n, running, tasks, c);
      var c' := if tracked && ValidTransition(c.state, Active) then Moved(c, Active) else c;
      Sane(s) && Step(s, Activate(k), One(g, tracked, n, running, Without(tasks, k) + [ToEnqueue(g)], c'))
  {
    var s := One(g, tracked, n, running, tasks, c);
    OneIsSane(g, tracked, n, running, tasks, c);
    DropCounts(s, k, g);
    hide Sane, Pointers, Activated;
    assert Drop(s, k) == One(g, tracked, n, running, Without(tasks, k), c);
    OneActivated(g, tracked, n, running, Without(tasks, k), c);
    hide Drop, One;
  }

  lemma OneActivated(g: Goal, tracked: bool, n: nat, running: bool, tasks: seq<Task>, c: Cell)
    requires Sane(One(g, tracked, n, running, tasks, c))
    ensures var c' := if tracked && ValidTransition(c.state, Active) then Moved(c, Active) else c;
      Activated(One(g, tracked, n, running, tasks, c), g) == One(g, tracked, n, running, tasks + [ToEnqueue(g)], c')
  {
    hide Sane, ValidTransition, Moved;
    TerminalStates(c.state);
    assert map[g := c][g := Moved(c, Active)] == map[g := Moved(c, Active)];
  }

  lemma OneQueue(g: Goal, tracked: bool, n: nat, running: bool, tasks: seq<Task>, k: nat, c: Cell)
    requires Fine(g, running, tasks, c) && k < |tasks| && tasks[k] == ToEnqueue(g)
    ensures var s := One(g, tracked, n, running, tasks, c);
      Sane(s) && Step(s, EndQueue(k), One(g, tracked, n + 1, running, Without(tasks, k), c))
  {
    var s := One(g, tracked, n, running, tasks, c);
    OneIsSane(g, tracked, n, running, tasks, c);
    hide Sane;
    assert Drop(s, k) == One(g, tracked, n, running, Without(tasks, k), c);
    assert Copies(g, n) + [g] == Copies(g, n + 1);
    SortedCopies(ActiveIn(Drop(s, k)), g, n + 1);
    hide SortedBy, ActiveIn;
  }

  lemma OneDelete(g: Goal, n: nat, running: bool, tasks: seq<Task>, c: Cell)
    requires Fine(g, running, tasks, c)
    ensures var s := One(g, true, n, running, tasks, c);
      Sane(s) && Step(s, Delete(g.id), One(g, false, n, running, tasks, c))
  {
    OneIsSane(g, true, n, running, tasks, c);
    assert map[g.id := g] - {g.id} == map[];
  }

  lemma OneBegin(g: Goal, tracked: bool, n: nat, tasks: seq<Task>, c: Cell)
    requires Fine(g, false, tasks, c) && c.state == Active && n > 0
    ensures var s := One(g, tracked, n, false, tasks, c);
      Sane(s) && Begun(s) == One(g, tracked, n - 1, true, tasks, Started(c)) && Step(s, Begin, Begun(s))
  {
    var s := One(g, tracked, n, false, tasks, c);
    OneIsSane(g, tracked, n, false, tasks, c);
    FirstActiveIs(ActiveIn(s), s.queue, 0);
    assert Without(Copies(g, n), 0) == Copies(g, n - 1);
    assert map[g := c][g := Started(c)] == map[g := Started(c)];
  }

  lemma OneFinish(g: Goal, tracked: bool, n: nat, tasks: seq<Task>, c: Cell)
    requires Fine(g, true, tasks, c) && c.state == Active
    ensures var s := One(g, tracked, n, true, tasks, c); var c' := c.(busy := false);
      && Sane(s)
      && Step(s, Finish(true), One(g, tracked, n, false, tasks, if tracked then c'.(state := Done) else c'))
  {
    OneIsSane(g, tracked, n, true, tasks, c);
    TerminalStates(c.state);
    var c' := c.(busy := false);
    assert map[g := c][g := c'] == map[g := c'];
    assert map[g := c'][g := c'.(state := Done)] == map[g := c'.(state := Done)];
    hide ValidTransition;
  }

  lemma OneAnswer(g: Goal, n: nat, running: bool, tasks: seq<Task>, c: Cell)
    requires Fine(g, running, tasks, c) && c.question != ""
    ensures var s := One(g, true, n, running, tasks, c);
      && Sane(s)
      && Step(s, Answer(g.id, true), One(g, true, n, running, tasks + [ToRefine(g)], c.(question := "")))
  {
    OneIsSane(g, true, n, running, tasks, c);
    assert map[g := c][g := c.(question := "")] == map[g := c.(question := "")];
  }

  /** The refiner asks back, or accepts the goal as it is. */
  lemma OneRefine(g: Goal, n: nat, running: bool, tasks: seq<Task>, k: nat, c: Cell, o: Refinement)
    requires Fine(g, running, tasks, c) && k < |tasks| && tasks[k] == ToRefine(g) && (o.Clarify? || o.Accepted?)
    ensures var s := One(g, true, n, running, tasks, c); var rest := Without(tasks, k);
      && Sane(s) && Guard(s, EndRefine(k, o, true))
      && Step(s, EndRefine(k, o, true),
           One(g, true, n, running, if o.Clarify? then rest else rest + [ToQueue(g)], RefinedCell(c, o)))
  {
    OneIsSane(g, true, n, running, tasks, c);
    assert map[g := c][g := RefinedCell(c, o)] == map[g := RefinedCell(c, o)];
    assert map[g.id := g][g.id := g] == map[g.id := g];
    hide Moved;
  }


  /** A run of the script from the empty system to `last`, obeying the guard throughout if `guarded`. */
  ghost predicate Leads(states: seq<Sys>, script: seq<Command>, last: Sys, guarded: bool) {
    && IsRun(states, script) && states[0] == EMPTY && states[|script|] == last
    && (guarded ==> forall i | 0 <= i < |script| :: Guard(states[i], script[i]))
  }

  /** Without a deletion or a refinement that displaces an Active goal, nothing breaks the guard. */
  lemma OthersObeyTheGuard(s: Sys, c: Command)
    requires !c.Delete? && !c.EndRefine?
    ensures Guard(s, c)
  {
  }

  lemma LeadsOn(states: seq<Sys>, script: seq<Command>, s: Sys, guarded: bool, c: Command, s': Sys)
    requires Leads(states, script, s, guarded) && Sane(s) && Step(s, c, s')
    requires guarded && (c.Delete? || c.EndRefine?) ==> Guard(s, c)
    ensures Leads(states + [s'], script + [c], s', guarded)
  {
    if guarded && !c.Delete? && !c.EndRefine? {
      OthersObeyTheGuard(s, c);
    }
    hide Sane, Step, Guard;
    var more, all := states + [s'], script + [c];
    forall i | 0 <= i < |all| ensures StepAt(more, all, i) && (guarded ==> Guard(more[i], all[i])) {
      if i < |script| {
        assert StepAt(states, script, i);
      }
    }
  }

  lemma LeadsIs(states: seq<Sys>, script: seq<Command>, last: Sys, guarded: bool)
    requires Leads(states, script, last, guarded)
    ensures IsRun(states, script) && states[0] == EMPTY && states[|script|] == last
    ensures guarded ==> forall i | 0 <= i < |script| :: Guard(states[i], script[i])
  {
  }

  lemma TaskLists(a: Task, b: Task)
    ensures [] + [a] == [a] && [a] + [b] == [a, b]
    ensures Without([a, b], 0) == [b] && Without([a, b], 1) == [a] && Without([a], 0) == []
  {
  }

  lemma OneHas(g: Goal, tracked: bool, n: nat, running: bool, tasks: seq<Task>, c: Cell)
    ensures var s := One(g, tracked, n, running, tasks, c); g in s.cells && s.cells[g] == c && Tracked(s, g) == tracked
  {
  }

  lemma EmptyLeads(guarded: bool)
    ensures Leads([EMPTY], [], EMPTY, guarded)
  {
  }

  lemma RunsUntilQueuedTwice(g: Goal, guarded: bool) returns (states: seq<Sys>, script: seq<Command>)
    requires g.id != ""
    ensures Leads(states, script, One(g, true, 2, false, [], Rested(Active, "", 1, 0)), guarded) && |states| == 8
    ensures script == [Submit(g.id, g.createdAt, true), Run(g.id), Run(g.id), Activate(0), Activate(0), EndQueue(0),
                       EndQueue(0)]
  {
    hide Sane, Step, ValidTransition, Begun, Without, Copies, One, Leads, Tracked, IsRun, Guard;
    var q, e, c0, c1 := ToQueue(g), ToEnqueue(g), Rested(Refining, "", 0, 0), Rested(Active, "", 1, 0);
    var s1, s2, s3, s4 := One(g, true, 0, false, [], c0), One(g, true, 0, false, [q], c0),
      One(g, true, 0, false, [q, q], c0), One(g, true, 0, false, [q, e], c1);
    var s5, s6, twice := One(g, true, 0, false, [e, e], c1), One(g, true, 1, false, [e], c1),
      One(g, true, 2, false, [], c1);
    TaskLists(q, q);
    TaskLists(q, e);
    TaskLists(e, e);
    TerminalStates(Refining);
    assert NewCell(Refining) == c0 && Moved(c0, Active) == c1;
    hide NewCell, Moved;
    assert Sane(EMPTY) && Step(EMPTY, Submit(g.id, g.createdAt, true), s1) by { OneSubmit(g, true); }
    assert Sane(s1) && Step(s1, Run(g.id), s2) by { OneRun(g, 0, false, [], c0); }
    assert Sane(s2) && Step(s2, Run(g.id), s3) by { OneRun(g, 0, false, [q], c0); }
    assert Sane(s3) && Step(s3, Activate(0), s4) by { OneActivate(g, true, 0, false, [q, q], 0, c0); }
    assert Sane(s4) && Step(s4, Activate(0), s5) by {
      TerminalStates(Active); OneActivate(g, true, 0, false, [q, e], 0, c1);
    }
    assert Sane(s5) && Step(s5, EndQueue(0), s6) by { OneQueue(g, true, 0, false, [e, e], 0, c1); }
    assert Sane(s6) && Step(s6, EndQueue(0), twice) by { OneQueue(g, true, 1, false, [e], 0, c1); }
    EmptyLeads(guarded);
    states, script := [EMPTY], [];
    LeadsOn(states, script, EMPTY, guarded, Submit(g.id, g.createdAt, true), s1);
    states, script := states + [s1], script + [Submit(g.id, g.createdAt, true)];
    LeadsOn(states, script, s1, guarded, Run(g.id), s2);
    states, script := states + [s2], script + [Run(g.id)];
    LeadsOn(states, script, s2, guarded, Run(g.id), s3);
    states, script := states + [s3], script + [Run(g.id)];
    LeadsOn(states, script, s3, guarded, Activate(0), s4);
    states, script := states + [s4], script + [Activate(0)];
    LeadsOn(states, script, s4, guarded, Activate(0), s5);
    states, script := states + [s5], script + [Activate(0)];
    LeadsOn(states, script, s5, guarded, EndQueue(0), s6);
    states, script := states + [s6], script + [EndQueue(0)];
    LeadsOn(states, script, s6, guarded, EndQueue(0), twice);
    states, script := states + [twice], script + [EndQueue(0)];
  }

  /** A goal run twice over, deleted, and drained by the runner: nothing moves it out of Active, and it is executed
      twice within one stay. */
  lemma DeletedGoalRunsTwice(g: Goal) returns (states: seq<Sys>, script: seq<Command>)
    requires g.id != ""
    ensures IsRun(states, script) && states[0] == EMPTY
    ensures script == [Submit(g.id, g.createdAt, true), Run(g.id), Run(g.id), Activate(0), Activate(0), EndQueue(0),
                       EndQueue(0), Delete(g.id), Begin, Finish(true), Begin]
    ensures var last := states[11]; g in last.cells && last.cells[g].stay == 2 > last.cells[g].entries == 1
  {
    hide Sane, Step, ValidTransition, Begun, Without, Copies, One, Leads, Tracked, IsRun, Guard;
    var c1, c2 := Rested(Active, "", 1, 0), Rested(Active, "", 1, 1);
    var twice, s8, s9, s10 := One(g, true, 2, false, [], c1), One(g, false, 2, false, [], c1),
      One(g, false, 1, true, [], Started(c1)), One(g, false, 1, false, [], c2);
    var last := One(g, false, 0, true, [], Started(c2));
    assert Started(c1).(busy := false) == c2;
    assert Sane(twice) && Step(twice, Delete(g.id), s8) by { OneDelete(g, 2, false, [], c1); }
    assert Sane(s8) && Step(s8, Begin, s9) by { OneBegin(g, false, 2, [], c1); }
    assert Sane(s9) && Step(s9, Finish(true), s10) by { OneFinish(g, false, 1, [], Started(c1)); }
    assert Sane(s10) && Step(s10, Begin, last) by { OneBegin(g, false, 1, [], c2); }
    states, script := RunsUntilQueuedTwice(g, false);
    LeadsOn(states, script, twice, false, Delete(g.id), s8);
    states, script := states + [s8], script + [Delete(g.id)];
    LeadsOn(states, script, s8, false, Begin, s9);
    states, script := states + [s9], script + [Begin];
    LeadsOn(states, script, s9, false, Finish(true), s10);
    states, script := states + [s10], script + [Finish(true)];
    LeadsOn(states, script, s10, false, Begin, last);
    states, script := states + [last], script + [Begin];
    LeadsIs(states, script, last, false);
    OneHas(g, false, 0, true, [], Started(c2));
  }

  /** Why there has to be one runner: while it is at work on a goal that is queued once more, another call of RunNext
      would execute the goal again, within one stay. No command breaks the guard. */
  lemma TwoRunnersOverrun(g: Goal) returns (states: seq<Sys>, script: seq<Command>)
    requires g.id != ""
    ensures IsRun(states, script) && states[0] == EMPTY
    ensures forall i | 0 <= i < |script| :: Guard(states[i], script[i])
    ensures script == [Submit(g.id, g.createdAt, true), Run(g.id), Run(g.id), Activate(0), Activate(0), EndQueue(0),
                       EndQueue(0), Begin]
    ensures states[8].running == Some(g)
    ensures var again := Popped(states[8]).cells; g in again && again[g].stay == 2 > again[g].entries == 1
  {
    hide Sane, Step, ValidTransition, Begun, Without, Copies, One, Leads, Tracked, IsRun, Guard;
    hide Popped;
    var c1 := Rested(Active, "", 1, 0);
    var twice, last := One(g, true, 2, false, [], c1), One(g, true, 1, true, [], Started(c1));
    assert Sane(twice) && Step(twice, Begin, last) by { OneBegin(g, true, 2, [], c1); }
    states, script := RunsUntilQueuedTwice(g, true);
    LeadsOn(states, script, twice, true, Begin, last);
    states, script := states + [last], script + [Begin];
    LeadsIs(states, script, last, true);
    OnePopped(g, true, 1, true, [], Started(c1));
  }

  lemma OnePopped(g: Goal, tracked: bool, n: nat, running: bool, tasks: seq<Task>, c: Cell)
    requires c.state == Active && n > 0
    ensures var s := One(g, tracked, n, running, tasks, c);
      s.running == (if running then Some(g) else None) && g in Popped(s).cells && Popped(s).cells[g] == Started(c)
  {
    var s := One(g, tracked, n, running, tasks, c);
    FirstActiveIs(ActiveIn(s), s.queue, 0);
  }

  lemma RunsToDoneWithQuestion(g: Goal, question: string) returns (states: seq<Sys>, script: seq<Command>)
    requires g.id != "" && question != ""
    ensures var done := One(g, true, 0, false, [], Rested(Done, question, 1, 1));
      Leads(states, script, done, true) && |states| == 8 && states[7] == done
    ensures script == [Submit(g.id, g.createdAt, false), EndRefine(0, Clarify(question), true), Run(g.id), Activate(0),
                       EndQueue(0), Begin, Finish(true)]
  {
    hide Sane, Step, ValidTransition, Begun, Without, Copies, One, Leads, Tracked, IsRun, Guard;
    var q, e, r, c0 := ToQueue(g), ToEnqueue(g), ToRefine(g), Rested(Refining, "", 0, 0);
    var c1, c2, c3 := Rested(Refining, question, 0, 0), Rested(Active, question, 1, 0), Rested(Done, question, 1, 1);
    var s1, s2, s3, s4 := One(g, true, 0, false, [r], c0), One(g, true, 0, false, [], c1),
      One(g, true, 0, false, [q], c1), One(g, true, 0, false, [e], c2);
    var s5, s6, done := One(g, true, 1, false, [], c2), One(g, true, 0, true, [], Started(c2)),
      One(g, true, 0, false, [], c3);
    TaskLists(q, e);
    TaskLists(r, e);
    TaskLists(e, e);
    TerminalStates(Refining);
    assert NewCell(Refining) == c0 && RefinedCell(c0, Clarify(question)) == c1 && Moved(c1, Active) == c2;
    assert Started(c2).(busy := false).(state := Done) == c3;
    hide NewCell, Moved, RefinedCell;
    var ask := EndRefine(0, Clarify(question), true);
    assert Sane(EMPTY) && Step(EMPTY, Submit(g.id, g.createdAt, false), s1) by { OneSubmit(g, false); }
    assert Sane(s1) && Step(s1, ask, s2) && Guard(s1, ask) by {
      OneRefine(g, 0, false, [r], 0, c0, Clarify(question));
    }
    assert Sane(s2) && Step(s2, Run(g.id), s3) by { OneRun(g, 0, false, [], c1); }
    assert Sane(s3) && Step(s3, Activate(0), s4) by { OneActivate(g, true, 0, false, [q], 0, c1); }
    assert Sane(s4) && Step(s4, EndQueue(0), s5) by { OneQueue(g, true, 0, false, [e], 0, c2); }
    assert Sane(s5) && Step(s5, Begin, s6) by { OneBegin(g, true, 1, [], c2); }
    assert Sane(s6) && Step(s6, Finish(true), done) by { OneFinish(g, true, 0, [], Started(c2)); }
    EmptyLeads(true);
    states, script := [EMPTY], [];
    LeadsOn(states, script, EMPTY, true, Submit(g.id, g.createdAt, false), s1);
    states, script := states + [s1], script + [Submit(g.id, g.createdAt, false)];
    LeadsOn(states, script, s1, true, ask, s2);
    states, script := states + [s2], script + [ask];
    LeadsOn(states, script, s2, true, Run(g.id), s3);
    states, script := states + [s3], script + [Run(g.id)];
    LeadsOn(states, script, s3, true, Activate(0), s4);
    states, script := states + [s4], script + [Activate(0)];
    LeadsOn(states, script, s4, true, EndQueue(0), s5);
    states, script := states + [s5], script + [EndQueue(0)];
    LeadsOn(states, script, s5, true, Begin, s6);
    states, script := states + [s6], script + [Begin];
    LeadsOn(states, script, s6, true, Finish(true), done);
    states, script := states + [done], script + [Finish(true)];
  }

  /** A question asked before the goal was run and answered after it is done: the goal leaves Done, enters Active
      anew and is executed again. No command breaks the guard. */
  lemma AnsweredGoalRunsAfterDone(g: Goal, question: string) returns (states: seq<Sys>, script: seq<Command>)
    requires g.id != "" && question != ""
    ensures IsRun(states, script) && states[0] == EMPTY
    ensures forall i | 0 <= i < |script| :: Guard(states[i], script[i])
    ensures script == [Submit(g.id, g.createdAt, false), EndRefine(0, Clarify(question), true), Run(g.id), Activate(0),
                       EndQueue(0), Begin, Finish(true), Answer(g.id, true), EndRefine(0, Accepted, true), Activate(0),
                       EndQueue(0), Begin]
    ensures var done := states[7]; g in done.cells && Tracked(done, g) && done.cells[g].state == Done
    ensures var last := states[12].cells; g in last && last[g].state == Active && last[g].runs == last[g].entries == 2
  {
    hide Sane, Step, ValidTransition, Begun, Without, Copies, One, Leads, Tracked, IsRun, Guard;
    var q, e, r, c3 := ToQueue(g), ToEnqueue(g), ToRefine(g), Rested(Done, question, 1, 1);
    var c4, c5 := Rested(Done, "", 1, 1), Rested(Active, "", 2, 1);
    var done, s8, s9, s10 := One(g, true, 0, false, [], c3), One(g, true, 0, false, [r], c4),
      One(g, true, 0, false, [q], c5), One(g, true, 0, false, [e], c5);
    var s11, last := One(g, true, 1, false, [], c5), One(g, true, 0, true, [], Started(c5));
    TaskLists(q, e);
    TaskLists(r, e);
    TaskLists(e, e);
    assert c3.(question := "") == c4 && RefinedCell(c4, Accepted) == c5;
    hide RefinedCell;
    assert Sane(done) && Step(done, Answer(g.id, true), s8) by { OneAnswer(g, 0, false, [], c3); }
    assert Sane(s8) && Step(s8, EndRefine(0, Accepted, true), s9) && Guard(s8, EndRefine(0, Accepted, true)) by {
      OneRefine(g, 0, false, [r], 0, c4, Accepted);
    }
    assert Sane(s9) && Step(s9, Activate(0), s10) by {
      TerminalStates(Active); OneActivate(g, true, 0, false, [q], 0, c5);
    }
    assert Sane(s10) && Step(s10, EndQueue(0), s11) by { OneQueue(g, true, 0, false, [e], 0, c5); }
    assert Sane(s11) && Step(s11, Begin, last) by { OneBegin(g, true, 1, [], c5); }
    states, script := RunsToDoneWithQuestion(g, question);
    LeadsOn(states, script, done, true, Answer(g.id, true), s8);
    states, script := states + [s8], script + [Answer(g.id, true)];
    LeadsOn(states, script, s8, true, EndRefine(0, Accepted, true), s9);
    states, script := states + [s9], script + [EndRefine(0, Accepted, true)];
    LeadsOn(states, script, s9, true, Activate(0), s10);
    states, script := states + [s10], script + [Activate(0)];
    LeadsOn(states, script, s10, true, EndQueue(0), s11);
    states, script := states + [s11], script + [EndQueue(0)];
    LeadsOn(states, script, s11, true, Begin, last);
    states, script := states + [last], script + [Begin];
    LeadsIs(states, script, last, true);
    OneHas(g, true, 0, true, [], Started(c5));
    OneHas(g, true, 0, false, [], c3);
  }

  lemma RunsToDoneWhileRefined(g: Goal) returns (states: seq<Sys>, script: seq<Command>)
    requires g.id != ""
    ensures var done := One(g, true, 0, false, [ToRefine(g)], Rested(Done, "", 1, 1));
      Leads(states, script, done, true) && |states| == 7 && states[6] == done
    ensures script == [Submit(g.id, g.createdAt, false), Run(g.id), Activate(1), EndQueue(1), Begin, Finish(true)]
  {
    hide Sane, Step, ValidTransition, Begun, Without, Copies, One, Leads, Tracked, IsRun, Guard;
    var q, e, r, c0 := ToQueue(g), ToEnqueue(g), ToRefine(g), Rested(Refining, "", 0, 0);
    var c1, c2 := Rested(Active, "", 1, 0), Rested(Done, "", 1, 1);
    var s1, s2, s3, s4 := One(g, true, 0, false, [r], c0), One(g, true, 0, false, [r, q], c0),
      One(g, true, 0, false, [r, e], c1), One(g, true, 1, false, [r], c1);
    var s5, done := One(g, true, 0, true, [r], Started(c1)), One(g, true, 0, false, [r], c2);
    TaskLists(r, q);
    TaskLists(r, e);
    TerminalStates(Refining);
    assert NewCell(Refining) == c0 && Moved(c0, Active) == c1 && Started(c1).(busy := false).(state := Done) == c2;
    hide NewCell, Moved;
    assert Sane(EMPTY) && Step(EMPTY, Submit(g.id, g.createdAt, false), s1) by { OneSubmit(g, false); }
    assert Sane(s1) && Step(s1, Run(g.id), s2) by { OneRun(g, 0, false, [r], c0); }
    assert Sane(s2) && Step(s2, Activate(1), s3) by { OneActivate(g, true, 0, false, [r, q], 1, c0); }
    assert Sane(s3) && Step(s3, EndQueue(1), s4) by { OneQueue(g, true, 0, false, [r, e], 1, c1); }
    assert Sane(s4) && Step(s4, Begin, s5) by { OneBegin(g, true, 1, [r], c1); }
    assert Sane(s5) && Step(s5, Finish(true), done) by { OneFinish(g, true, 0, [r], Started(c1)); }
    EmptyLeads(true);
    states, script := [EMPTY], [];
    LeadsOn(states, script, EMPTY, true, Submit(g.id, g.createdAt, false), s1);
    states, script := states + [s1], script + [Submit(g.id, g.createdAt, false)];
    LeadsOn(states, script, s1, true, Run(g.id), s2);
    states, script := states + [s2], script + [Run(g.id)];
    LeadsOn(states, script, s2, true, Activate(1), s3);
    states, script := states + [s3], script + [Activate(1)];
    LeadsOn(states, script, s3, true, EndQueue(1), s4);
    states, script := states + [s4], script + [EndQueue(1)];
    LeadsOn(states, script, s4, true, Begin, s5);
    states, script := states + [s5], script + [Begin];
    LeadsOn(states, script, s5, true, Finish(true), done);
    states, script := states + [done], script + [Finish(true)];
  }

  /** A goal run while the refiner is still at work on it: the refiner's answer comes when the goal is done, and the
      handler queues it again. No command breaks the guard. */
  lemma LateRefinementRunsAgain(g: Goal) returns (states: seq<Sys>, script: seq<Command>)
    requires g.id != ""
    ensures IsRun(states, script) && states[0] == EMPTY
    ensures forall i | 0 <= i < |script| :: Guard(states[i], script[i])
    ensures script == [Submit(g.id, g.createdAt, false), Run(g.id), Activate(1), EndQueue(1), Begin, Finish(true),
                       EndRefine(0, Accepted, true), Activate(0), EndQueue(0), Begin]
    ensures var done := states[6]; g in done.cells && Tracked(done, g) && done.cells[g].state == Done
    ensures var last := states[10].cells; g in last && last[g].state == Active && last[g].runs == last[g].entries == 2
  {
    hide Sane, Step, ValidTransition, Begun, Without, Copies, One, Leads, Tracked, IsRun, Guard;
    var q, e, r, c2, c3 := ToQueue(g), ToEnqueue(g), ToRefine(g), Rested(Done, "", 1, 1), Rested(Active, "", 2, 1);
    var done, s7, s8, s9 := One(g, true, 0, false, [r], c2), One(g, true, 0, false, [q], c3),
      One(g, true, 0, false, [e], c3), One(g, true, 1, false, [], c3);
    var last := One(g, true, 0, true, [], Started(c3));
    TaskLists(q, e);
    TaskLists(r, e);
    TaskLists(e, e);
    assert RefinedCell(c2, Accepted) == c3;
    hide RefinedCell;
    assert Sane(done) && Step(done, EndRefine(0, Accepted, true), s7) && Guard(done, EndRefine(0, Accepted, true)) by {
      OneRefine(g, 0, false, [r], 0, c2, Accepted);
    }
    assert Sane(s7) && Step(s7, Activate(0), s8) by {
      TerminalStates(Active); OneActivate(g, true, 0, false, [q], 0, c3);
    }
    assert Sane(s8) && Step(s8, EndQueue(0), s9) by { OneQueue(g, true, 0, false, [e], 0, c3); }
    assert Sane(s9) && Step(s9, Begin, last) by { OneBegin(g, true, 1, [], c3); }
    states, script := RunsToDoneWhileRefined(g);
    LeadsOn(states, script, done, true, EndRefine(0, Accepted, true), s7);
    states, script := states + [s7], script + [EndRefine(0, Accepted, true)];
    LeadsOn(states, script, s7, true, Activate(0), s8);
    states, script := states + [s8], script + [Activate(0)];
    LeadsOn(states, script, s8, true, EndQueue(0), s9);
    states, script := states + [s9], script + [EndQueue(0)];
    LeadsOn(states, script, s9, true, Begin, last);
    states, script := states + [last], script + [Begin];
    LeadsIs(states, script, last, true);
    OneHas(g, true, 0, true, [], Started(c3));
    OneHas(g, true, 0, false, [r], c2);
  }
}
