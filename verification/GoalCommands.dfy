/** What each command of the goal system does, field by field, to a caller who sees only the state before and after
    (internal/apiserver/server.go:363-526, internal/goal_fulfillment/goal_fulfillment.go:36-107,
    internal/processor/processor.go:102-189). */
module GoalCommands {
  import opened Options
  import opened Goals
  import opened Prioritizing
  import opened GoalSystem

  /** A new id is tracked under a new goal in Refining, which is refined at once unless it is a draft; a known or
      empty id changes nothing. */
  lemma SubmitTakes(s: Sys, id: string, createdAt: int, draft: bool, s': Sys)
    requires Sane(s) && Step(s, Submit(id, createdAt, draft), s')
    ensures id == "" || id in s.tracked ==> s' == s
    ensures id != "" && id !in s.tracked ==>
      && id in s'.tracked
      && var n := s'.tracked[id];
         && n !in s.cells && n.id == id && n.createdAt == createdAt
         && s'.tracked == s.tracked[id := n] && s'.queue == s.queue && s'.running == s.running
         && s'.cells == s.cells[n := Cell(Refining, "", 0, 0, 0, false)]
         && s'.tasks == if draft then s.tasks else s.tasks + [ToRefine(n)]
  {
  }

  /** Exactly a tracked goal with a pending question can be answered, whatever its state: the question is gone, and
      the goal is refined anew once the tracker has saved it. */
  lemma AnswerTakes(s: Sys, id: string, saved: bool, s': Sys)
    requires Sane(s) && Step(s, Answer(id, saved), s')
    ensures !(id in s.tracked && s.cells[s.tracked[id]].question != "") ==> s' == s
    ensures id in s.tracked && s.cells[s.tracked[id]].question != "" ==>
      var g := s.tracked[id];
      && s'.tracked == s.tracked && s'.queue == s.queue && s'.running == s.running
      && s'.cells == s.cells[g := s.cells[g].(question := "")]
      && s'.tasks == if saved then s.tasks + [ToRefine(g)] else s.tasks
  {
  }

  /** A tracked goal can be run in any state; anything else changes nothing. */
  lemma RunTakes(s: Sys, id: string, s': Sys)
    requires Sane(s) && Step(s, Run(id), s')
    ensures id !in s.tracked ==> s' == s
    ensures id in s.tracked ==>
      && s'.tasks == s.tasks + [ToQueue(s.tracked[id])]
      && s'.tracked == s.tracked && s'.queue == s.queue && s'.running == s.running && s'.cells == s.cells
  {
  }

  /** Only the tracker forgets a deleted goal. */
  lemma DeleteTakes(s: Sys, id: string, s': Sys)
    requires Sane(s) && Step(s, Delete(id), s')
    ensures id !in s'.tracked && forall x | x != id :: x in s'.tracked <==> x in s.tracked
    ensures forall x | x in s'.tracked :: s'.tracked[x] == s.tracked[x]
    ensures s'.tasks == s.tasks && s'.queue == s.queue && s'.running == s.running && s'.cells == s.cells
  {
  }

  /** The refiner's answer. A failure leaves the goal alone and goes on to queue it. A question puts it back into
      Refining and is remembered. A goal that is accepted becomes Active and is queued; a rewritten one becomes a new
      Active goal of the same id and age, which is queued in its place if the tracker could save it. In each but the
      first case the goal is tracked under its id, whatever was before. */
  lemma EndRefineTakes(s: Sys, k: nat, o: Refinement, saved: bool, s': Sys)
    requires Sane(s) && Step(s, EndRefine(k, o, saved), s')
    ensures !(k < |s.tasks| && s.tasks[k].ToRefine?) ==> s' == s
    ensures k < |s.tasks| && s.tasks[k].ToRefine? ==>
      var g, rest := s.tasks[k].goal, s.tasks[..k] + s.tasks[k + 1..];
      && g in s.cells && s'.queue == s.queue && s'.running == s.running
      && match o {
           case Failed => s'.tasks == rest + [ToQueue(g)] && s'.tracked == s.tracked && s'.cells == s.cells
           case Clarify(q) =>
             && s'.tasks == (if saved then rest else rest + [ToQueue(g)]) && s'.tracked == s.tracked[g.id := g]
             && s'.cells == s.cells[g := s.cells[g].(state := Refining, question := q)]
           case Accepted =>
             && s'.tasks == rest + [ToQueue(g)] && s'.tracked == s.tracked[g.id := g]
             && s'.cells == s.cells[g := Entered(s.cells[g]).(question := "")]
           case Rewritten =>
             && g.id in s'.tracked
             && var n := s'.tracked[g.id];
                && n !in s.cells && n.id == g.id && n.createdAt == g.createdAt
                && s'.tasks == rest + [ToQueue(if saved then n else g)] && s'.tracked == s.tracked[g.id := n]
                && s'.cells == s.cells[n := Cell(Active, "", 1, 0, 0, false)]
         }
  {
    assert k < |s.tasks| && s.tasks[k].ToRefine? ==> s.tasks[k] in s.tasks;
  }

  /** A goal once it is Active: a new entry, unless it was Active before. */
  ghost function Entered(c: Cell): Cell {
    if c.state == Active then c
    else Cell(Active, c.question, c.entries + 1, c.runs, if c.busy then 1 else 0, c.busy)
  }

  /** Queueing a goal begins with activating the goal tracked under its id, if the goal itself is not Active and that
      one is in Refining or Blocked. */
  lemma ActivateTakes(s: Sys, k: nat, s': Sys)
    requires Sane(s) && Step(s, Activate(k), s')
    ensures !(k < |s.tasks| && s.tasks[k].ToQueue?) ==> s' == s
    ensures k < |s.tasks| && s.tasks[k].ToQueue? ==>
      var g := s.tasks[k].goal;
      && g in s.cells && s'.tasks == s.tasks[..k] + s.tasks[k + 1..] + [ToEnqueue(g)]
      && s'.tracked == s.tracked && s'.queue == s.queue && s'.running == s.running
      && s'.cells ==
           if s.cells[g].state != Active && g.id in s.tracked
              && (s.cells[s.tracked[g.id]].state == Refining || s.cells[s.tracked[g.id]].state == Blocked)
           then s.cells[s.tracked[g.id] := Entered(s.cells[s.tracked[g.id]])] else s.cells
  {
    if k < |s.tasks| && s.tasks[k].ToQueue? {
      var g := s.tasks[k].goal;
      assert s.tasks[k] in s.tasks;
      if g.id in s.tracked {
        TerminalStates(s.cells[s.tracked[g.id]].state);
      }
      hide ValidTransition;
    }
  }

  /** It ends with one more copy of the goal in the queue, which is in order then. */
  lemma EndQueueTakes(s: Sys, k: nat, s': Sys)
    requires Sane(s) && Step(s, EndQueue(k), s')
    ensures !(k < |s.tasks| && s.tasks[k].ToEnqueue?) ==> s' == s
    ensures k < |s.tasks| && s.tasks[k].ToEnqueue? ==>
      && s'.tasks == s.tasks[..k] + s.tasks[k + 1..]
      && multiset(s'.queue) == multiset(s.queue) + multiset{s.tasks[k].goal} && InOrder(s')
      && s'.tracked == s.tracked && s'.running == s.running && s'.cells == s.cells
  {
    if k < |s.tasks| && s.tasks[k].ToEnqueue? {
      var g := s.tasks[k].goal;
      QueueSorts(Drop(s, k), g);
      SortedByIsStable(ActiveIn(s), s.queue + [g]);
      assert ActiveIn(Drop(s, k)) == ActiveIn(s);
      hide SortedBy, InOrder, ActiveIn;
    }
  }

  /** The runner takes up work exactly when it has none and some queued goal is Active: the first such goal leaves the
      queue and an agent is started on it. */
  lemma BeginTakes(s: Sys, s': Sys)
    requires Sane(s) && Step(s, Begin, s')
    ensures s.running.Some? || (forall g | g in s.queue :: s.cells[g].state != Active) ==> s' == s
    ensures s.running.None? && (exists g | g in s.queue :: s.cells[g].state == Active) ==>
      exists k :: 0 <= k < |s.queue| && Takes(s, k, s')
  {
    var k := FirstActive(ActiveIn(s), s.queue);
    forall i | 0 <= i < |s.queue| ensures s.queue[i] in ActiveIn(s) <==> s.cells[s.queue[i]].state == Active {
      assert s.queue[i] in s.queue;
    }
    if k < |s.queue| && s.running.None? {
      assert Takes(s, k, s');
    }
  }

  /** The goal at `k` is the first Active one in the queue and is now executed. */
  ghost predicate Takes(s: Sys, k: nat, s': Sys)
    requires k < |s.queue|
  {
    var g := s.queue[k];
    && g in s.cells && s.cells[g].state == Active
    && (forall i | 0 <= i < k :: s.queue[i] in s.cells && s.cells[s.queue[i]].state != Active)
    && s'.queue == s.queue[..k] + s.queue[k + 1..] && s'.running == Some(g)
    && s'.cells == s.cells[g := s.cells[g].(runs := s.cells[g].runs + 1, stay := s.cells[g].stay + 1, busy := true)]
    && s'.tracked == s.tracked && s'.tasks == s.tasks
  }

  /** When the agent is done, its goal is at rest, and the goal tracked under that id is Done or Blocked if it was
      Active. */
  lemma FinishTakes(s: Sys, success: bool, s': Sys)
    requires Sane(s) && Step(s, Finish(success), s')
    ensures s.running.None? ==> s' == s
    ensures s.running.Some? ==>
      var g := s.running.value;
      && g in s.cells && s'.running.None? && s'.queue == s.queue && s'.tasks == s.tasks && s'.tracked == s.tracked
      && var rested := s.cells[g := s.cells[g].(busy := false)];
         s'.cells ==
           if g.id in s.tracked && rested[s.tracked[g.id]].state == Active
           then rested[s.tracked[g.id] := rested[s.tracked[g.id]].(state := if success then Done else Blocked)]
           else rested
  {
    if s.running.Some? && s.running.value.id in s.tracked {
      TerminalStates(s.cells[s.tracked[s.running.value.id]].state);
    }
    hide ValidTransition;
  }
}
