/** Goals and their lifecycle table (internal/types/types.go:12-48, internal/goal_fulfillment/tracker.go:115-134). */
module Goals {

  datatype GoalState = Refining | Active | Done | Blocked | Cancelled

  /** What a goal holds at one moment. The last four fields are bookkeeping of the model, read by no operation of
      the program: how often the goal entered Active, how often an agent was started on it, how many of those
      executions fall into its current stay in Active, and whether one is under way. */
  datatype Cell = Cell(state: GoalState, question: string, entries: nat, runs: nat, stay: nat, busy: bool)

  /** A goal is shared by pointer between tracker, queue, handlers and runner. */
  class Goal {
    const id: string
    const createdAt: int
    var state: GoalState
    var question: string
    ghost var entries: nat
    ghost var runs: nat
    ghost var stay: nat
    ghost var busy: bool

    ghost function Now(): Cell
      reads this
    {
      Cell(state, question, entries, runs, stay, busy)
    }

    constructor (id: string, createdAt: int, state: GoalState)
      ensures this.id == id && this.createdAt == createdAt && Now() == NewCell(state)
    {
      this.id, this.createdAt, this.state, question := id, createdAt, state, "";
      entries, runs, stay, busy := if state == Active then 1 else 0, 0, 0, false;
    }

    method MoveTo(s: GoalState)
      modifies this
      ensures Now() == Moved(old(Now()), s)
    {
      if s == Active && state != Active {
        entries, stay := entries + 1, if busy then 1 else 0;
      }
      state := s;
    }

    method Ask(q: string)
      modifies this`question
      ensures Now() == old(Now()).(question := q)
    {
      question := q;
    }

    ghost method Start()
      modifies this`runs, this`stay, this`busy
      ensures Now() == Started(old(Now()))
    {
      runs, stay, busy := runs + 1, stay + 1, true;
    }

    ghost method Stop()
      modifies this`busy
      ensures Now() == old(Now()).(busy := false)
    {
      busy := false;
    }
  }

  /** A change of state. An execution under way counts for the stay that begins. */
  ghost function Moved(c: Cell, s: GoalState): Cell {
    if s == Active && c.state != Active then c.(state := s, entries := c.entries + 1, stay := if c.busy then 1 else 0)
    else c.(state := s)
  }

  ghost function NewCell(s: GoalState): Cell {
    Moved(Cell(Refining, "", 0, 0, 0, false), s)
  }

  /** An agent is started. */
  ghost function Started(c: Cell): Cell {
    c.(runs := c.runs + 1, stay := c.stay + 1, busy := true)
  }

  /** The transitions out of each state. */
  const TRANSITIONS: map<GoalState, seq<GoalState>> := map[
    Refining := [Active, Cancelled],
    Active := [Done, Blocked, Cancelled, Refining],
    Blocked := [Active, Cancelled],
    Done := [],
    Cancelled := []
  ]

  predicate ValidTransition(from: GoalState, to: GoalState) {
    from in TRANSITIONS && to in TRANSITIONS[from]
  }

  predicate Terminal(s: GoalState) {
    s == Done || s == Cancelled
  }

  /** Done and Cancelled are exactly the states without a way out, and the only ways to run again are from
      Refining and Blocked. */
  lemma TerminalStates(s: GoalState)
    ensures Terminal(s) <==> forall t :: !ValidTransition(s, t)
    ensures ValidTransition(s, Active) <==> s == Refining || s == Blocked
    ensures ValidTransition(s, Done) <==> s == Active
    ensures ValidTransition(s, Blocked) <==> s == Active
    ensures ValidTransition(s, Refining) <==> s == Active
    ensures ValidTransition(s, Cancelled) <==> s != Done && s != Cancelled
    ensures Terminal(s) <==> s == Done || s == Cancelled
  {
    if !Terminal(s) {
      assert ValidTransition(s, Cancelled);
    }
  }
}

/** The priority queue of goal pointers (internal/processor/prioritizer.go). What it is sorted by is the set of the
    goals that are Active at the time. */
module Prioritizing {
  import opened Goals

  /** The comparison of `sort`: Active goals first, then the earlier created. */
  predicate Before(active: set<Goal>, a: Goal, b: Goal) {
    if (a in active) != (b in active) then a in active else a.createdAt < b.createdAt
  }

  ghost predicate Sorted(active: set<Goal>, gs: seq<Goal>) {
    forall i, j {:trigger Before(active, gs[j], gs[i])} | 0 <= i < j < |gs| :: !Before(active, gs[j], gs[i])
  }

  /** Neither comes before the other. */
  ghost predicate Tied(active: set<Goal>, a: Goal, b: Goal) {
    !Before(active, a, b) && !Before(active, b, a)
  }

  /** The goals of `gs` tied with `g`, in queue order. */
  ghost function Ties(active: set<Goal>, gs: seq<Goal>, g: Goal): seq<Goal> {
    if gs == [] then []
    else
      var n := |gs| - 1;
      Ties(active, gs[..n], g) + (if Tied(active, gs[n], g) then [gs[n]] else [])
  }

  /** `out` is `gs` sorted, ties keeping their order. */
  ghost predicate StableSort(active: set<Goal>, gs: seq<Goal>, out: seq<Goal>) {
    && Sorted(active, out)
    && multiset(out) == multiset(gs)
    && forall g | g in gs :: Ties(active, out, g) == Ties(active, gs, g)
  }

  lemma {:induction false} TiesConcat(active: set<Goal>, a: seq<Goal>, b: seq<Goal>, g: Goal)
    ensures Ties(active, a + b, g) == Ties(active, a, g) + Ties(active, b, g)
    decreases |b|
  {
    if b == [] {
      assert a + b == a;
    } else {
      var n := |b| - 1;
      assert (a + b)[..|a + b| - 1] == a + b[..n];
      TiesConcat(active, a, b[..n], g);
    }
  }

  lemma {:induction false} NoTies(active: set<Goal>, a: seq<Goal>, g: Goal)
    requires forall x | x in a :: !Tied(active, x, g)
    ensures Ties(active, a, g) == []
    decreases |a|
  {
    if a != [] {
      NoTies(active, a[..|a| - 1], g);
    }
  }

  /** Moving a goal in front of goals it comes before changes no group of ties. */
  lemma TiesInsert(active: set<Goal>, a: seq<Goal>, b: seq<Goal>, x: Goal, g: Goal)
    requires forall y | y in b :: Before(active, x, y)
    ensures Ties(active, a + [x] + b, g) == Ties(active, a + b + [x], g)
  {
    TiesConcat(active, a + [x], b, g);
    TiesConcat(active, a, [x], g);
    TiesConcat(active, a + b, [x], g);
    TiesConcat(active, a, b, g);
    if Tied(active, x, g) {
      NoTies(active, b, g);
    } else {
      assert Ties(active, [x], g) == [];
    }
  }

  /** Where the next goal goes: after the last one it does not come before. */
  function InsertionPoint(active: set<Goal>, front: seq<Goal>, x: Goal): (k: nat)
    ensures k <= |front|
    ensures forall y | y in front[k..] :: Before(active, x, y)
    ensures k > 0 ==> !Before(active, x, front[k - 1])
  {
    var n := |front| - 1;
    if front == [] || !Before(active, x, front[n]) then |front|
    else
      assert front == front[..n] + [front[n]];
      InsertionPoint(active, front[..n], x)
  }

  function Inserted(active: set<Goal>, front: seq<Goal>, x: Goal): seq<Goal> {
    var k := InsertionPoint(active, front, x);
    front[..k] + [x] + front[k..]
  }

  /** The queue as `sort` leaves it. */
  function SortedBy(active: set<Goal>, gs: seq<Goal>): seq<Goal> {
    if gs == [] then []
    else
      var n := |gs| - 1;
      Inserted(active, SortedBy(active, gs[..n]), gs[n])
  }

  lemma InsertionIsStable(active: set<Goal>, gs: seq<Goal>, a: seq<Goal>, b: seq<Goal>, x: Goal)
    requires StableSort(active, gs, a + b)
    requires a != [] ==> !Before(active, x, a[|a| - 1])
    requires forall y | y in b :: Before(active, x, y)
    ensures StableSort(active, gs + [x], a + [x] + b)
  {
    var out := a + [x] + b;
    forall i, j | 0 <= i < j < |out| ensures !Before(active, out[j], out[i]) {
      if j < |a| {
        assert (a + b)[i] == out[i] && (a + b)[j] == out[j];
      } else if j == |a| {
        if i < |a| - 1 {
          assert (a + b)[i] == a[i] && (a + b)[|a| - 1] == a[|a| - 1];
          assert !Before(active, a[|a| - 1], a[i]);
        }
      } else if i == |a| {
        assert out[j] in b;
      } else {
        var i' := if i < |a| then i else i - 1;
        assert (a + b)[i'] == out[i] && (a + b)[j - 1] == out[j];
      }
    }
    forall g | g in gs + [x] ensures Ties(active, out, g) == Ties(active, gs + [x], g) {
      TiesInsert(active, a, b, x, g);
      TiesConcat(active, a + b, [x], g);
      TiesConcat(active, gs, [x], g);
      if g !in gs {
        SameTies(active, gs, a + b, g);
      }
    }
  }

  /** Equal groups for the elements mean equal groups for any goal. */
  lemma SameTies(active: set<Goal>, gs: seq<Goal>, out: seq<Goal>, g: Goal)
    requires StableSort(active, gs, out)
    ensures Ties(active, out, g) == Ties(active, gs, g)
  {
    assert forall y :: y in multiset(gs) <==> y in multiset(out);
    if y :| y in gs && Tied(active, y, g) {
      TiesOfTied(active, gs, y, g);
      TiesOfTied(active, out, y, g);
    } else {
      assert forall y | y in out :: y in multiset(out);
      NoTies(active, gs, g);
      NoTies(active, out, g);
    }
  }

  lemma {:induction false} TiesOfTied(active: set<Goal>, gs: seq<Goal>, y: Goal, g: Goal)
    requires Tied(active, y, g)
    ensures Ties(active, gs, y) == Ties(active, gs, g)
    decreases |gs|
  {
    if gs != [] {
      TiesOfTied(active, gs[..|gs| - 1], y, g);
    }
  }

  lemma InsertedIsStable(active: set<Goal>, gs: seq<Goal>, front: seq<Goal>, x: Goal)
    requires StableSort(active, gs, front)
    ensures StableSort(active, gs + [x], Inserted(active, front, x))
  {
    var k := InsertionPoint(active, front, x);
    hide StableSort, Before, InsertionPoint;
    assert front == front[..k] + front[k..];
    InsertionIsStable(active, gs, front[..k], front[k..], x);
  }

  lemma EmptyIsSorted(active: set<Goal>)
    ensures StableSort(active, [], [])
  {
  }

  /** It is the stable sort. */
  lemma {:induction false} SortedByIsStable(active: set<Goal>, gs: seq<Goal>)
    ensures StableSort(active, gs, SortedBy(active, gs))
    decreases |gs|
  {
    hide StableSort, Inserted;
    if gs == [] {
      EmptyIsSorted(active);
    } else {
      var n := |gs| - 1;
      SortedByIsStable(active, gs[..n]);
      InsertedIsStable(active, gs[..n], SortedBy(active, gs[..n]), gs[n]);
      assert gs == gs[..n] + [gs[n]];
    }
  }

  /** Sorting puts the Active goals first, and the goals of either kind in order of creation. */
  lemma SortedByActiveFirst(active: set<Goal>, gs: seq<Goal>, i: nat, j: nat)
    requires i < j < |SortedBy(active, gs)|
    ensures var a, b := SortedBy(active, gs)[i], SortedBy(active, gs)[j];
      && (b in active ==> a in active)
      && ((a in active <==> b in active) ==> a.createdAt <= b.createdAt)
  {
    SortedByIsStable(active, gs);
    assert !Before(active, SortedBy(active, gs)[j], SortedBy(active, gs)[i]);
  }

  lemma LastAreTied(active: set<Goal>, a: seq<Goal>, b: seq<Goal>)
    requires Sorted(active, a) && Sorted(active, b) && multiset(a) == multiset(b) && a != [] && b != []
    ensures Tied(active, a[|a| - 1], b[|b| - 1])
  {
    var x, y := a[|a| - 1], b[|b| - 1];
    assert x in multiset(b) && y in multiset(a);
    var i :| 0 <= i < |b| && b[i] == x;
    var j :| 0 <= j < |a| && a[j] == y;
    assert i < |b| - 1 ==> !Before(active, b[|b| - 1], b[i]);
    assert j < |a| - 1 ==> !Before(active, a[|a| - 1], a[j]);
  }

  lemma LastAreSame(active: set<Goal>, a: seq<Goal>, b: seq<Goal>)
    requires Sorted(active, a) && Sorted(active, b) && multiset(a) == multiset(b) && a != [] && |a| == |b|
    requires forall g | g in a :: Ties(active, a, g) == Ties(active, b, g)
    ensures a[|a| - 1] == b[|b| - 1]
  {
    LastAreTied(active, a, b);
    var x, y := a[|a| - 1], b[|b| - 1];
    var p, q := Ties(active, a, x), Ties(active, b, x);
    assert x in a && p == q;
    assert p[|p| - 1] == x && q[|q| - 1] == y;
  }

  /** A queue has one stable sort, whatever algorithm finds it. */
  lemma {:induction false} StableSortUnique(active: set<Goal>, a: seq<Goal>, b: seq<Goal>)
    requires Sorted(active, a) && Sorted(active, b) && multiset(a) == multiset(b)
    requires forall g | g in a :: Ties(active, a, g) == Ties(active, b, g)
    ensures a == b
    decreases |a|
  {
    assert |a| == |multiset(a)| == |multiset(b)| == |b|;
    if a != [] {
      LastAreSame(active, a, b);
      var n := |a| - 1;
      var x, a', b' := a[n], a[..n], b[..n];
      SortedFront(active, a);
      SortedFront(active, b);
      hide Tied, Sorted, Ties;
      SameFrontElements(a', b', x);
      assert a == a' + [x] && b == b' + [x];
      forall g | g in a' ensures Ties(active, a', g) == Ties(active, b', g) {
        assert g in a;
        SameTiesInFront(active, a', b', x, g);
      }
      StableSortUnique(active, a', b');
    }
  }

  /** A queue that is in order already stays as it is, so that equals never change places. */
  lemma SortedStays(active: set<Goal>, gs: seq<Goal>)
    requires forall i, j | 0 <= i < j < |gs| :: gs[j] in active ==> gs[i] in active
    requires forall i, j | 0 <= i < j < |gs| ::
      (gs[i] in active <==> gs[j] in active) ==> gs[i].createdAt <= gs[j].createdAt
    ensures SortedBy(active, gs) == gs
  {
    SortedByIsStable(active, gs);
    assert Sorted(active, gs);
    hide SortedBy, Sorted, Ties, Before;
    forall g | g in SortedBy(active, gs) ensures Ties(active, SortedBy(active, gs), g) == Ties(active, gs, g) {
      assert g in multiset(gs);
    }
    StableSortUnique(active, SortedBy(active, gs), gs);
  }

  lemma SameFrontElements<T>(a: seq<T>, b: seq<T>, x: T)
    ensures multiset(a + [x]) == multiset(b + [x]) ==> multiset(a) == multiset(b)
  {
    assert multiset(a) == multiset(a + [x]) - multiset{x} && multiset(b) == multiset(b + [x]) - multiset{x};
  }

  lemma SameTiesInFront(active: set<Goal>, a: seq<Goal>, b: seq<Goal>, x: Goal, g: Goal)
    requires Ties(active, a + [x], g) == Ties(active, b + [x], g)
    ensures Ties(active, a, g) == Ties(active, b, g)
  {
    TiesConcat(active, a, [x], g);
    TiesConcat(active, b, [x], g);
    hide Ties;
    SameFront(Ties(active, a, g), Ties(active, b, g), Ties(active, [x], g));
  }

  lemma SameFront<T>(p: seq<T>, q: seq<T>, s: seq<T>)
    requires p + s == q + s
    ensures p == q
  {
    assert |p + s| == |p| + |s| && |q + s| == |q| + |s|;
    assert p == (p + s)[..|p|] && q == (q + s)[..|q|];
  }

  lemma SortedFront(active: set<Goal>, a: seq<Goal>)
    requires Sorted(active, a) && a != []
    ensures Sorted(active, a[..|a| - 1])
  {
    var b := a[..|a| - 1];
    forall i, j | 0 <= i < j < |b| ensures !Before(active, b[j], b[i]) {
      assert !Before(active, a[j], a[i]);
    }
  }

  /** Sorting looks at no state but those of the queued goals. */
  lemma {:induction false} SortedBySame(active: set<Goal>, active': set<Goal>, gs: seq<Goal>)
    requires forall g | g in gs :: g in active <==> g in active'
    ensures SortedBy(active, gs) == SortedBy(active', gs)
    decreases |gs|
  {
    if gs != [] {
      var n := |gs| - 1;
      SortedBySame(active, active', gs[..n]);
      var front := SortedBy(active, gs[..n]);
      SortedByIsStable(active, gs[..n]);
      assert forall g | g in front :: g in multiset(front);
      assert forall g | g in front :: g in gs[..n];
      hide SortedBy, StableSort;
      InsertionPointSame(active, active', front, gs[n]);
    }
  }

  lemma {:induction false} InsertionPointSame(active: set<Goal>, active': set<Goal>, front: seq<Goal>, x: Goal)
    requires x in active <==> x in active'
    requires forall g | g in front :: g in active <==> g in active'
    ensures InsertionPoint(active, front, x) == InsertionPoint(active', front, x)
    decreases |front|
  {
    if front != [] {
      InsertionPointSame(active, active', front[..|front| - 1], x);
    }
  }

  // ---------------------------------------------------------------- order of creation

  /** The Active goals stand in order of creation. */
  ghost predicate Ascending(active: set<Goal>, gs: seq<Goal>) {
    forall i, j | 0 <= i < j < |gs| && gs[i] in active && gs[j] in active :: gs[i].createdAt <= gs[j].createdAt
  }

  lemma SortedIsAscending(active: set<Goal>, gs: seq<Goal>)
    requires Sorted(active, gs)
    ensures Ascending(active, gs)
  {
    forall i, j | 0 <= i < j < |gs| && gs[i] in active && gs[j] in active ensures gs[i].createdAt <= gs[j].createdAt {
      assert !Before(active, gs[j], gs[i]);
    }
  }

  /** The order of the Active goals outlives any change of states elsewhere, as long as no queued goal turns
      Active. */
  lemma AscendingUntilActivation(active: set<Goal>, active': set<Goal>, gs: seq<Goal>)
    requires Ascending(active, gs) && forall g | g in gs && g in active' :: g in active
    ensures Ascending(active', gs)
  {
  }

  /** The index of the first Active goal, or the length of the queue. */
  function FirstActive(active: set<Goal>, gs: seq<Goal>): (k: nat)
    ensures k <= |gs| && forall i | 0 <= i < k :: gs[i] !in active
    ensures k < |gs| ==> gs[k] in active
  {
    if gs == [] || gs[0] in active then 0 else FirstActive(active, gs[1..]) + 1
  }

  lemma FirstActiveIs(active: set<Goal>, gs: seq<Goal>, k: nat)
    requires k <= |gs| && (forall i | 0 <= i < k :: gs[i] !in active) && (k < |gs| ==> gs[k] in active)
    ensures FirstActive(active, gs) == k
  {
  }

  function FirstNamed(gs: seq<Goal>, goalID: string): (k: nat)
    ensures k <= |gs| && forall i | 0 <= i < k :: gs[i].id != goalID
    ensures k < |gs| ==> gs[k].id == goalID
  {
    if gs == [] || gs[0].id == goalID then 0 else FirstNamed(gs[1..], goalID) + 1
  }

  lemma FirstNamedIs(gs: seq<Goal>, goalID: string, k: nat)
    requires k <= |gs| && (forall i | 0 <= i < k :: gs[i].id != goalID) && (k < |gs| ==> gs[k].id == goalID)
    ensures FirstNamed(gs, goalID) == k
  {
  }

  /** A queue without its element `k`, or all of it. */
  function Without<T>(gs: seq<T>, k: nat): seq<T> {
    if k < |gs| then gs[..k] + gs[k + 1..] else gs
  }

  lemma WithoutIsRest<T>(gs: seq<T>, k: nat)
    requires k < |gs|
    ensures multiset(gs) == multiset(Without(gs, k)) + multiset{gs[k]}
    ensures forall x | x in Without(gs, k) :: x in gs
    ensures forall x | x in gs :: x == gs[k] || x in Without(gs, k)
  {
    assert gs == gs[..k] + [gs[k]] + gs[k + 1..];
  }

  lemma WithoutKeepsOrder(active: set<Goal>, gs: seq<Goal>, k: nat)
    requires Ascending(active, gs)
    ensures Ascending(active, Without(gs, k))
  {
  }

  /** In an ascending queue the first Active goal is the earliest created. */
  lemma FirstIsEarliest(active: set<Goal>, gs: seq<Goal>, x: Goal)
    requires Ascending(active, gs) && x in gs && x in active
    ensures FirstActive(active, gs) < |gs| && gs[FirstActive(active, gs)].createdAt <= x.createdAt
  {
    var j :| 0 <= j < |gs| && gs[j] == x;
    assert FirstActive(active, gs) <= j;
  }

  ghost function ActiveAmong(gs: seq<Goal>): set<Goal>
    reads gs
  {
    set g | g in gs && g.state == Active
  }

  class Prioritizer {
    var goals: seq<Goal>

    constructor ()
      ensures goals == []
    {
      goals := [];
    }

    /** Add a goal and re-sort. */
    method Enqueue(goal: Goal?)
      modifies this
      ensures goals == if goal == null then old(goals)
                       else SortedBy(ActiveAmong(old(goals) + [goal]), old(goals) + [goal])
    {
      if goal == null {
        return;
      }
      goals := goals + [goal];
      Sort();
    }

    /** sort.SliceStable, as an insertion sort. */
    method Sort()
      modifies this
      ensures goals == SortedBy(ActiveAmong(old(goals)), old(goals))
    {
      var active := set g | g in goals && g.state == Active;
      ghost var before := goals;
      var done: seq<Goal> := [];
      assert before[..0] == [];
      for i := 0 to |goals|
        invariant goals == before && active == ActiveAmong(before)
        invariant done == SortedBy(active, before[..i])
      {
        assert before[..i + 1][..i] == before[..i];
        done := Inserted(active, done, goals[i]);
      }
      assert before[..|before|] == before;
      goals := done;
    }

    /** Pop the first Active goal. */
    method Next() returns (g: Goal?)
      modifies this
      ensures var k := FirstActive(ActiveAmong(old(goals)), old(goals));
        && goals == Without(old(goals), k)
        && (k == |old(goals)| ==> g == null)
        && (k < |old(goals)| ==> g == old(goals)[k])
    {
      ghost var active, before := ActiveAmong(goals), goals;
      for i := 0 to |goals|
        invariant goals == before && active == ActiveAmong(before)
        invariant forall j | 0 <= j < i :: goals[j] !in active
      {
        if goals[i].state == Active {
          FirstActiveIs(active, goals, i);
          g := goals[i];
          goals := goals[..i] + goals[i + 1..];
          return;
        }
      }
      FirstActiveIs(active, goals, |goals|);
      g := null;
    }

    /** Drop the first goal with this id, if there is one. */
    method Remove(goalID: string)
      modifies this
      ensures goals == Without(old(goals), FirstNamed(old(goals), goalID))
    {
      for i := 0 to |goals|
        invariant goals == old(goals)
        invariant forall j | 0 <= j < i :: goals[j].id != goalID
      {
        if goals[i].id == goalID {
          FirstNamedIs(goals, goalID, i);
          goals := goals[..i] + goals[i + 1..];
          return;
        }
      }
      FirstNamedIs(goals, goalID, |goals|);
    }
  }
}
