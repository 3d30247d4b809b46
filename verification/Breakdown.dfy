/** Breaking goals down into sub-goals (internal/goal_fulfillment/breakdown.go:48-153). */
module Breakdown {
  import opened Options

  datatype SubGoal = SubGoal(id: string, description: string, dependsOn: seq<string>)

  /** A goal and what the model answers when asked to break it down, all the way down. */
  datatype Tree = Node(goal: SubGoal, reply: Reply)
  datatype Reply = Failed | Kids(kids: seq<Tree>)

  /** The model found nothing to break down: it returned no sub-goal, or the goal itself. */
  predicate IsAtomic(t: Tree) {
    t.reply.Kids? && (t.reply.kids == [] || (|t.reply.kids| == 1 && t.reply.kids[0].goal.id == t.goal.id))
  }

  // ---------------------------------------------------------------- what a breakdown should list

  /** The proper descendants of a goal down to `depth`, each before its own descendants. */
  ghost function PreOrder(t: Tree, depth: int): seq<SubGoal>
    decreases t, 1
  {
    if depth <= 0 || t.reply.Failed? || IsAtomic(t) then [] else PreOrderAll(t.reply.kids, depth - 1)
  }

  ghost function PreOrderAll(kids: seq<Tree>, depth: int): seq<SubGoal>
    decreases kids, 0
  {
    if kids == [] then []
    else
      var n := |kids| - 1;
      PreOrderAll(kids[..n], depth) + [kids[n].goal] + PreOrder(kids[n], depth)
  }

  ghost function Wanted(t: Tree, depth: int): seq<SubGoal> {
    if depth <= 0 || t.reply.Failed? || IsAtomic(t) then [t.goal] else PreOrder(t, depth)
  }

  /** The model is asked about some goal and fails. */
  ghost predicate Fails(t: Tree, depth: int)
    decreases t
  {
    depth > 0 && (t.reply.Failed? || (!IsAtomic(t) && exists kid | kid in t.reply.kids :: Fails(kid, depth - 1)))
  }

  /** No goal below the root has a descendant of its own id. */
  ghost predicate Clean(t: Tree, depth: int)
    decreases t
  {
    depth <= 0 || t.reply.Failed? || IsAtomic(t) ||
    forall kid | kid in t.reply.kids ::
      Clean(kid, depth - 1) && forall g | g in PreOrder(kid, depth - 1) :: g.id != kid.goal.id
  }

  // ---------------------------------------------------------------- what the code lists

  /** The goals of `deeper` whose id is not `id`. */
  function Without(deeper: seq<SubGoal>, id: string): seq<SubGoal> {
    if deeper == [] then []
    else
      var n := |deeper| - 1;
      Without(deeper[..n], id) + (if deeper[n].id != id then [deeper[n]] else [])
  }

  function Expand(t: Tree, depth: int): Option<seq<SubGoal>>
    decreases t, 1
  {
    if depth <= 0 then Some([t.goal])
    else if t.reply.Failed? then None
    else if IsAtomic(t) then Some([t.goal])
    else ExpandAll(t.reply.kids, depth - 1)
  }

  function ExpandAll(kids: seq<Tree>, depth: int): Option<seq<SubGoal>>
    decreases kids, 0
  {
    if kids == [] then Some([])
    else
      var n := |kids| - 1;
      match ExpandAll(kids[..n], depth)
      case None => None
      case Some(before) =>
        match Expand(kids[n], depth)
        case None => None
        case Some(deeper) => Some(before + [kids[n].goal] + Without(deeper, kids[n].goal.id))
  }

  /** BreakdownRecursive: recursion, appending to one list and dropping goals that repeat the sub-goal's id. */
  method BreakdownRecursive(t: Tree, maxDepth: int) returns (r: Option<seq<SubGoal>>)
    ensures r == Expand(t, maxDepth)
    decreases t
  {
    if maxDepth <= 0 {
      return Some([t.goal]);
    }
    if t.reply.Failed? {
      return None;
    }
    var subGoals := t.reply.kids;
    if |subGoals| == 0 || (|subGoals| == 1 && subGoals[0].goal.id == t.goal.id) {
      return Some([t.goal]);
    }
    var allGoals: seq<SubGoal> := [];
    for i := 0 to |subGoals|
      invariant ExpandAll(subGoals[..i], maxDepth - 1) == Some(allGoals)
    {
      var sg := subGoals[i];
      assert subGoals[..i + 1][..i] == subGoals[..i];
      allGoals := allGoals + [sg.goal];
      var d := BreakdownRecursive(sg, maxDepth - 1);
      if d.None? {
        NoneStays(subGoals, maxDepth - 1, i + 1);
        return None;
      }
      allGoals := AppendOthers(allGoals, d.value, sg.goal.id);
    }
    assert subGoals[..|subGoals|] == subGoals;
    r := Some(allGoals);
  }

  /** Its inner loop. */
  method AppendOthers(goals: seq<SubGoal>, deeper: seq<SubGoal>, id: string) returns (allGoals: seq<SubGoal>)
    ensures allGoals == goals + Without(deeper, id)
  {
    allGoals := goals;
    for j := 0 to |deeper|
      invariant allGoals == goals + Without(deeper[..j], id)
    {
      assert deeper[..j + 1][..j] == deeper[..j];
      if deeper[j].id != id {
        allGoals := allGoals + [deeper[j]];
      }
    }
    assert deeper[..|deeper|] == deeper;
  }

  lemma {:induction false} NoneStays(kids: seq<Tree>, depth: int, i: nat)
    requires i <= |kids| && ExpandAll(kids[..i], depth) == None
    ensures ExpandAll(kids, depth) == None
    decreases |kids|
  {
    if i < |kids| {
      assert kids[..|kids| - 1][..i] == kids[..i];
      NoneStays(kids[..|kids| - 1], depth, i);
    } else {
      assert kids[..i] == kids;
    }
  }

  // ---------------------------------------------------------------- they agree, and exactly when

  lemma {:induction false} WithoutShrinks(deeper: seq<SubGoal>, id: string)
    ensures |Without(deeper, id)| <= |deeper|
    ensures Without(deeper, id) == deeper <==> forall g | g in deeper :: g.id != id
    ensures |Without(deeper, id)| == |deeper| <==> Without(deeper, id) == deeper
    decreases |deeper|
  {
    if deeper != [] {
      var n := |deeper| - 1;
      WithoutShrinks(deeper[..n], id);
      assert deeper == deeper[..n] + [deeper[n]];
      if Without(deeper, id) == deeper {
        assert Without(deeper[..n], id) == deeper[..n];
      }
    }
  }

  /** A failure of any goal asked about fails the whole breakdown; nothing else does. */
  lemma {:induction false} ExpandFailsIff(t: Tree, depth: int)
    ensures Expand(t, depth).None? <==> Fails(t, depth)
    decreases t, 1
  {
    if depth > 0 && t.reply.Kids? && !IsAtomic(t) {
      ExpandAllFailsIff(t.reply.kids, depth - 1);
    }
  }

  lemma {:induction false} ExpandAllFailsIff(kids: seq<Tree>, depth: int)
    ensures ExpandAll(kids, depth).None? <==> exists kid | kid in kids :: Fails(kid, depth)
    decreases kids, 0
  {
    if kids != [] {
      var n := |kids| - 1;
      assert kids == kids[..n] + [kids[n]];
      ExpandAllFailsIff(kids[..n], depth);
      ExpandFailsIff(kids[n], depth);
    }
  }

  /** The list is never longer than the pre-order, and equals it exactly when no goal below the root has a
      descendant of its own id. */
  lemma {:induction false} ExpandIsPreOrderIff(t: Tree, depth: int)
    requires !Fails(t, depth)
    ensures Expand(t, depth).Some? && |Expand(t, depth).value| <= |Wanted(t, depth)|
    ensures Expand(t, depth).value == Wanted(t, depth) <==> Clean(t, depth)
    ensures |Expand(t, depth).value| == |Wanted(t, depth)| <==> Clean(t, depth)
    decreases t, 1
  {
    if depth > 0 && !IsAtomic(t) {
      ExpandAllIsPreOrderIff(t.reply.kids, depth - 1);
    }
  }

  ghost predicate KidClean(kid: Tree, depth: int) {
    Clean(kid, depth) && forall g | g in PreOrder(kid, depth) :: g.id != kid.goal.id
  }

  lemma {:induction false} ExpandAllIsPreOrderIff(kids: seq<Tree>, depth: int)
    requires forall kid | kid in kids :: !Fails(kid, depth)
    ensures var r, want := ExpandAll(kids, depth), PreOrderAll(kids, depth);
      && r.Some? && |r.value| <= |want|
      && (r.value == want <==> forall kid | kid in kids :: KidClean(kid, depth))
      && (|r.value| == |want| <==> forall kid | kid in kids :: KidClean(kid, depth))
    decreases kids, 0
  {
    if kids != [] {
      var n := |kids| - 1;
      var kid := kids[n];
      assert kids == kids[..n] + [kid];
      ExpandAllIsPreOrderIff(kids[..n], depth);
      KidContribution(kid, depth);
      var a, b := ExpandAll(kids[..n], depth).value, PreOrderAll(kids[..n], depth);
      var x, y := Without(Expand(kid, depth).value, kid.goal.id), PreOrder(kid, depth);
      SameParts(a, b, kid.goal, x, y);
    }
  }

  /** What one sub-goal adds beside itself. */
  lemma {:induction false} KidContribution(kid: Tree, depth: int)
    requires !Fails(kid, depth)
    ensures Expand(kid, depth).Some?
    ensures var x, y := Without(Expand(kid, depth).value, kid.goal.id), PreOrder(kid, depth);
      |x| <= |y| && (x == y <==> KidClean(kid, depth)) && (|x| == |y| <==> KidClean(kid, depth))
    decreases kid, 2
  {
    ExpandIsPreOrderIff(kid, depth);
    var r := Expand(kid, depth).value;
    WithoutShrinks(r, kid.goal.id);
    if depth <= 0 || IsAtomic(kid) {
      assert r == [kid.goal] && r[..0] == [] && Without(r, kid.goal.id) == [];
    }
  }

  lemma SameParts<T>(a: seq<T>, b: seq<T>, g: T, x: seq<T>, y: seq<T>)
    requires |a| <= |b| && |x| <= |y|
    requires (|a| == |b| <==> a == b) && (|x| == |y| <==> x == y)
    ensures |a + [g] + x| <= |b + [g] + y|
    ensures a + [g] + x == b + [g] + y <==> a == b && x == y
    ensures |a + [g] + x| == |b + [g] + y| <==> a == b && x == y
  {
    if a + [g] + x == b + [g] + y {
      assert |a + [g] + x| == |b + [g] + y|;
    }
  }

  lemma ListsOfTwo(x: Tree, y: Tree, depth: int)
    ensures PreOrderAll([x], depth) == [x.goal] + PreOrder(x, depth)
    ensures PreOrderAll([x, y], depth) == [x.goal] + PreOrder(x, depth) + [y.goal] + PreOrder(y, depth)
    ensures Expand(x, depth).Some? ==>
      ExpandAll([x], depth) == Some([x.goal] + Without(Expand(x, depth).value, x.goal.id))
    ensures Expand(x, depth).Some? && Expand(y, depth).Some? ==>
      ExpandAll([x, y], depth) == Some([x.goal] + Without(Expand(x, depth).value, x.goal.id)
                                       + [y.goal] + Without(Expand(y, depth).value, y.goal.id))
  {
    assert [x][..0] == [] && [x, y][..1] == [x];
    assert PreOrderAll([], depth) == [] && ExpandAll([], depth) == Some([]);
    assert [] + [x.goal] == [x.goal];
  }

  lemma ListsOfKid(a: SubGoal, again: SubGoal, c: SubGoal)
    requires again.id == a.id != c.id
    ensures var kid := Node(a, Kids([Node(again, Kids([])), Node(c, Kids([]))]));
      && !Fails(kid, 1) && PreOrder(kid, 1) == [again, c] && Expand(kid, 1) == Some([again, c])
      && Without([again, c], a.id) == [c]
  {
    var leaf, leaf' := Node(again, Kids([])), Node(c, Kids([]));
    ListsOfTwo(leaf, leaf', 0);
    assert Without([again, c], a.id) == [c] && Without([again], again.id) == [] && Without([c], c.id) == [] by {
      assert [again, c][..1] == [again] && [again][..0] == [] && [c][..0] == [];
    }
    assert [again] + [] + [c] + [] == [again, c];
  }

  /** A goal whose id its parent has: it is a goal of its own, but missing from the list. */
  lemma RepeatedIDIsDropped(root: SubGoal, a: SubGoal, again: SubGoal, c: SubGoal)
    requires again.id == a.id != c.id && a.id != root.id
    ensures var t := Node(root, Kids([Node(a, Kids([Node(again, Kids([])), Node(c, Kids([]))]))]));
      !Fails(t, 2) && !Clean(t, 2) && Wanted(t, 2) == [a, again, c] && Expand(t, 2) == Some([a, c])
  {
    var kid := Node(a, Kids([Node(again, Kids([])), Node(c, Kids([]))]));
    var t := Node(root, Kids([kid]));
    ListsOfKid(a, again, c);
    ListsOfTwo(kid, kid, 1);
    hide PreOrder, ExpandAll, PreOrderAll, Without;
    ExpandOne(t, kid);
    assert kid.goal == a && Expand(kid, 1).value == [again, c];
    assert [a] + [c] == [a, c] && [a] + [again, c] == [a, again, c];
    ExpandIsPreOrderIff(t, 2);
  }

  lemma ExpandOne(t: Tree, kid: Tree)
    requires t.reply == Kids([kid]) && kid.goal.id != t.goal.id
    ensures Expand(t, 2) == ExpandAll([kid], 1) && PreOrder(t, 2) == PreOrderAll([kid], 1)
    ensures Fails(t, 2) <==> Fails(kid, 1)
    ensures Wanted(t, 2) == PreOrder(t, 2)
  {
    assert kid in [kid];
    hide ExpandAll, PreOrderAll;
  }

  // ---------------------------------------------------------------- how many goals there can be

  /** b + b^2 + ... + b^depth */
  function Geometric(b: nat, depth: nat): nat {
    if depth == 0 then 0 else b * (1 + Geometric(b, depth - 1))
  }

  ghost predicate Branching(t: Tree, b: nat) {
    t.reply.Kids? ==> |t.reply.kids| <= b && forall kid | kid in t.reply.kids :: Branching(kid, b)
  }

  /** A goal the model leaves as it is - it names no sub-goal, or only the goal itself - is listed alone, whatever the
      model would say about the goal it returned. A goal is listed alone at the depth limit too, and any other goal is
      replaced by its sub-goals, each followed by what comes of it. */
  lemma ExpandIs(t: Tree, depth: int)
    ensures depth <= 0 ==> Expand(t, depth) == Some([t.goal])
    ensures depth > 0 && t.reply.Failed? ==> Expand(t, depth) == None
    ensures depth > 0 && t.reply == Kids([]) ==> Expand(t, depth) == Some([t.goal])
    ensures forall g, r | t.reply == Kids([Node(g, r)]) && depth > 0 ::
      Expand(t, depth) == if g.id == t.goal.id then Some([t.goal]) else ExpandAll([Node(g, r)], depth - 1)
    ensures depth > 0 && t.reply.Kids? && |t.reply.kids| > 1 ==> Expand(t, depth) == ExpandAll(t.reply.kids, depth - 1)
  {
    hide ExpandAll;
  }

  /** With at most `b` sub-goals a goal, at most b + b^2 + ... + b^depth goals are listed, unless the root is
      atomic and listed itself. */
  lemma ListIsBounded(t: Tree, depth: nat, b: nat)
    requires Branching(t, b) && !Fails(t, depth) && depth > 0 && !IsAtomic(t)
    ensures Expand(t, depth).Some? && |Expand(t, depth).value| <= Geometric(b, depth)
  {
    ExpandIsPreOrderIff(t, depth);
    PreOrderIsBounded(t, depth, b);
  }

  lemma {:induction false} PreOrderIsBounded(t: Tree, depth: nat, b: nat)
    requires Branching(t, b)
    ensures |PreOrder(t, depth)| <= Geometric(b, depth)
    decreases t, 1
  {
    if depth > 0 && t.reply.Kids? && !IsAtomic(t) {
      PreOrderAllIsBounded(t.reply.kids, depth - 1, b);
      Multiply(|t.reply.kids|, b, 1 + Geometric(b, depth - 1));
    }
  }

  lemma Multiply(x: nat, y: nat, z: nat)
    requires x <= y
    ensures x * z <= y * z
  {
  }

  lemma OneMore(n: nat, z: nat)
    ensures (n + 1) * z == n * z + z
  {
  }

  lemma {:induction false} PreOrderAllIsBounded(kids: seq<Tree>, depth: nat, b: nat)
    requires forall kid | kid in kids :: Branching(kid, b)
    ensures |PreOrderAll(kids, depth)| <= |kids| * (1 + Geometric(b, depth))
    decreases kids, 0
  {
    if kids != [] {
      var n, z := |kids| - 1, 1 + Geometric(b, depth);
      PreOrderAllIsBounded(kids[..n], depth, b);
      PreOrderIsBounded(kids[n], depth, b);
      hide PreOrder, Geometric, Branching;
      OneMore(n, z);
    }
  }

  // ---------------------------------------------------------------- validation

  ghost predicate Known(goals: seq<SubGoal>, id: string) {
    exists j :: 0 <= j < |goals| && goals[j].id == id
  }

  /** What is asked of the i-th goal of a list. */
  ghost predicate Acceptable(goals: seq<SubGoal>, i: nat)
    requires i < |goals|
  {
    && goals[i].id != ""
    && (forall j | 0 <= j < i :: goals[j].id != goals[i].id)
    && goals[i].description != ""
    && forall dep | dep in goals[i].dependsOn :: Known(goals, dep)
  }

  ghost predicate Accepted(goals: seq<SubGoal>) {
    forall i | 0 <= i < |goals| :: Acceptable(goals, i)
  }

  /** What that comes to for the list. */
  lemma AcceptedIs(goals: seq<SubGoal>)
    ensures Accepted(goals) <==>
      && (forall g | g in goals :: g.id != "" && g.description != "")
      && (forall i, j | 0 <= i < j < |goals| :: goals[i].id != goals[j].id)
      && (forall g, dep | g in goals && dep in g.dependsOn :: exists h :: h in goals && h.id == dep)
  {
    forall id ensures Known(goals, id) <==> exists h :: h in goals && h.id == id {
      if j :| 0 <= j < |goals| && goals[j].id == id {
        assert goals[j] in goals;
      }
    }
    hide Known;
    if Accepted(goals) {
      forall g | g in goals
        ensures g.id != "" && g.description != "" && forall dep | dep in g.dependsOn :: Known(goals, dep)
      {
        var i :| 0 <= i < |goals| && goals[i] == g;
        assert Acceptable(goals, i);
      }
      forall i, j | 0 <= i < j < |goals| ensures goals[i].id != goals[j].id {
        assert Acceptable(goals, j);
      }
    }
  }

  /** Accepts exactly the lists with non-empty distinct ids, non-empty descriptions and dependencies inside the
      list, and otherwise stops at the first goal that breaks a rule. */
  method ValidateSubGoals(goals: seq<SubGoal>) returns (ok: bool, at: nat)
    ensures ok <==> Accepted(goals)
    ensures !ok ==> at < |goals| && !Acceptable(goals, at) && forall i | 0 <= i < at :: Acceptable(goals, i)
  {
    var seen: set<string> := {};
    for i := 0 to |goals|
      invariant forall j | 0 <= j < i :: Acceptable(goals, j)
      invariant forall id :: id in seen <==> exists j :: 0 <= j < i && goals[j].id == id
    {
      var g := goals[i];
      if g.id == "" || g.id in seen {
        assert !Acceptable(goals, i);
        return false, i;
      }
      seen := seen + {g.id};
      if g.description == "" {
        assert !Acceptable(goals, i);
        return false, i;
      }
      for d := 0 to |g.dependsOn|
        invariant forall dep | dep in g.dependsOn[..d] :: Known(goals, dep)
      {
        var dep := g.dependsOn[d];
        assert g.dependsOn[..d + 1] == g.dependsOn[..d] + [dep];
        var found := dep in seen;
        if !found {
          found := Find(goals, dep);
        }
        if !found {
          assert dep in goals[i].dependsOn && !Acceptable(goals, i);
          return false, i;
        }
      }
      assert g.dependsOn[..|g.dependsOn|] == g.dependsOn;
    }
    return true, |goals|;
  }

  method Find(goals: seq<SubGoal>, id: string) returns (found: bool)
    ensures found <==> Known(goals, id)
  {
    for j := 0 to |goals|
      invariant forall i | 0 <= i < j :: goals[i].id != id
    {
      if goals[j].id == id {
        return true;
      }
    }
    return false;
  }

  // ---------------------------------------------------------------- cycles

  /** Each goal of the path waits for the next. */
  ghost predicate IsPath(goals: seq<SubGoal>, path: seq<SubGoal>) {
    && (forall g | g in path :: g in goals)
    && forall i | 0 <= i < |path| - 1 :: WaitsFor(path[i], path[i + 1])
  }

  predicate WaitsFor(g: SubGoal, h: SubGoal) {
    h.id in g.dependsOn
  }

  /** No goal waits for itself, directly or through others. */
  ghost predicate Acyclic(goals: seq<SubGoal>) {
    forall path | IsPath(goals, path) && |path| > 1 :: path[0] != path[|path| - 1]
  }

  /** Every goal waits for goals before it only. */
  ghost predicate Backward(gs: seq<SubGoal>) {
    forall i | 0 <= i < |gs| :: Ready(gs[..i], gs[i])
  }

  /** Everything the goal waits for is among `placed`. */
  ghost predicate Ready(placed: seq<SubGoal>, g: SubGoal) {
    forall dep | dep in g.dependsOn :: Known(placed, dep)
  }

  ghost predicate OwnIDs(goals: seq<SubGoal>) {
    forall i, j | 0 <= i < j < |goals| :: goals[i].id != goals[j].id
  }

  lemma AcceptedHaveOwnIDs(goals: seq<SubGoal>)
    requires Accepted(goals)
    ensures OwnIDs(goals)
  {
    forall i, j | 0 <= i < j < |goals| ensures goals[i].id != goals[j].id {
      assert Acceptable(goals, j);
    }
  }

  lemma OneEach(goals: seq<SubGoal>, g: SubGoal)
    requires OwnIDs(goals) && g in goals
    ensures multiset(goals)[g] == 1
  {
    var i :| 0 <= i < |goals| && goals[i] == g;
    assert goals == goals[..i] + [g] + goals[i + 1..];
    assert g !in goals[..i] && g !in goals[i + 1..];
  }

  lemma SameGoals(goals: seq<SubGoal>, gs: seq<SubGoal>)
    requires OwnIDs(goals) && OwnIDs(gs) && forall g :: g in goals <==> g in gs
    ensures multiset(goals) == multiset(gs)
  {
    forall g ensures multiset(goals)[g] == multiset(gs)[g] {
      if g in goals {
        OneEach(goals, g);
        OneEach(gs, g);
      } else {
        assert g !in multiset(goals) && g !in multiset(gs);
      }
    }
  }

  lemma ReorderedHaveOwnIDs(goals: seq<SubGoal>, gs: seq<SubGoal>)
    requires OwnIDs(goals) && multiset(gs) == multiset(goals)
    ensures OwnIDs(gs)
  {
    forall i, j | 0 <= i < j < |gs| ensures gs[i].id != gs[j].id {
      assert gs[i] in multiset(goals) && gs[j] in multiset(goals);
      if gs[i] == gs[j] {
        assert gs == gs[..i] + [gs[i]] + gs[i + 1..];
        assert gs[i + 1..][j - i - 1] == gs[i];
        assert multiset(gs)[gs[i]] >= 2;
        OneEach(goals, gs[i]);
      }
    }
  }

  /** Along a path the goals stand ever further to the front. */
  lemma {:induction false} PathFalls(gs: seq<SubGoal>, path: seq<SubGoal>, a: nat, b: nat)
    requires Backward(gs) && OwnIDs(gs) && IsPath(gs, path) && |path| > 1
    requires a < |gs| && b < |gs| && gs[a] == path[0] && gs[b] == path[|path| - 1]
    ensures b < a
    decreases |path|
  {
    var n := |path| - 2;
    assert path[n] in path && WaitsFor(path[n], path[n + 1]);
    var m :| 0 <= m < |gs| && gs[m] == path[n];
    assert Ready(gs[..m], gs[m]) && Known(gs[..m], gs[b].id);
    var j :| 0 <= j < m && gs[..m][j].id == gs[b].id;
    assert j == b;
    if n > 0 {
      PathFalls(gs, path[..n + 1], a, m);
    }
  }

  lemma BackwardIsAcyclic(goals: seq<SubGoal>, gs: seq<SubGoal>)
    requires OwnIDs(goals) && multiset(gs) == multiset(goals) && Backward(gs)
    ensures Acyclic(goals)
  {
    ReorderedHaveOwnIDs(goals, gs);
    forall path | IsPath(goals, path) && |path| > 1 ensures path[0] != path[|path| - 1] {
      forall g | g in path ensures g in gs {
        assert g in multiset(goals);
      }
      assert path[0] in path;
      var a :| 0 <= a < |gs| && gs[a] == path[0];
      if path[0] == path[|path| - 1] {
        PathFalls(gs, path, a, a);
      }
    }
  }

  lemma {:induction false} NoMoreThan(path: seq<SubGoal>, goals: seq<SubGoal>)
    requires forall g | g in path :: g in goals
    requires forall i, j | 0 <= i < j < |path| :: path[i] != path[j]
    ensures |path| <= |goals|
    decreases |path|
  {
    if path != [] {
      var n := |path| - 1;
      assert path[n] in path;
      var k :| 0 <= k < |goals| && goals[k] == path[n];
      var rest := goals[..k] + goals[k + 1..];
      forall g | g in path[..n] ensures g in rest {
        var i :| 0 <= i < n && path[i] == g;
        assert g in goals && g != goals[k];
        assert goals == goals[..k] + [goals[k]] + goals[k + 1..];
      }
      NoMoreThan(path[..n], rest);
    }
  }

  /** From a goal that is not placed, following what is missing leads to one that is ready. */
  lemma FindReady(goals: seq<SubGoal>, placed: seq<SubGoal>, path: seq<SubGoal>) returns (g: SubGoal)
    requires Accepted(goals) && Acyclic(goals) && IsPath(goals, path) && path != []
    requires forall i, j | 0 <= i < j < |path| :: path[i] != path[j]
    requires forall h | h in path :: h !in placed
    ensures g in goals && g !in placed && Ready(placed, g)
    decreases |goals| - |path|
  {
    NoMoreThan(path, goals);
    var n := |path| - 1;
    g := path[n];
    assert g in path;
    if !Ready(placed, g) {
      var dep :| dep in g.dependsOn && !Known(placed, dep);
      var k :| 0 <= k < |goals| && goals[k] == g;
      assert Acceptable(goals, k) && Known(goals, dep);
      var j :| 0 <= j < |goals| && goals[j].id == dep;
      var more := path + [goals[j]];
      PathGrows(goals, path, goals[j]);
      forall i | 0 <= i < |path| ensures path[i] != goals[j] {
        PathTail(goals, more, i);
        assert more[i..][0] == path[i] && more[i..][|more| - i - 1] == goals[j];
      }
      NoMoreThan(more, goals);
      g := FindReady(goals, placed, more);
    }
  }

  lemma PathGrows(goals: seq<SubGoal>, path: seq<SubGoal>, h: SubGoal)
    requires IsPath(goals, path) && path != [] && h in goals && WaitsFor(path[|path| - 1], h)
    ensures IsPath(goals, path + [h])
  {
  }

  lemma PathTail(goals: seq<SubGoal>, path: seq<SubGoal>, i: nat)
    requires IsPath(goals, path) && i < |path|
    ensures IsPath(goals, path[i..])
  {
    forall k | 0 <= k < |path[i..]| - 1 ensures WaitsFor(path[i..][k], path[i..][k + 1]) {
      assert WaitsFor(path[i + k], path[i + k + 1]);
    }
  }

  lemma PlacedGrows(placed: seq<SubGoal>, g: SubGoal)
    requires Backward(placed) && Ready(placed, g)
    ensures Backward(placed + [g])
  {
    var more := placed + [g];
    forall i | 0 <= i < |more| ensures Ready(more[..i], more[i]) {
      assert more[..i] == placed[..i];
      assert i < |placed| ==> Ready(placed[..i], placed[i]);
      assert placed[..|placed|] == placed;
    }
  }

  /** Placing one ready goal after the other orders them all. */
  lemma PlaceAll(goals: seq<SubGoal>, placed: seq<SubGoal>) returns (gs: seq<SubGoal>)
    requires Accepted(goals) && Acyclic(goals) && OwnIDs(goals)
    requires Backward(placed) && OwnIDs(placed) && forall g | g in placed :: g in goals
    ensures multiset(gs) == multiset(goals) && Backward(gs)
    decreases |goals| - |placed|
  {
    NoMoreThan(placed, goals);
    hide Backward, Accepted, Acyclic, Ready;
    if g0 :| g0 in goals && g0 !in placed {
      var g := FindReady(goals, placed, [g0]);
      PlacedGrows(placed, g);
      OneMorePlaced(goals, placed, g);
      NoMoreThan(placed + [g], goals);
      gs := PlaceAll(goals, placed + [g]);
    } else {
      gs := placed;
      SameGoals(goals, gs);
    }
  }

  lemma OneMorePlaced(goals: seq<SubGoal>, placed: seq<SubGoal>, g: SubGoal)
    requires OwnIDs(goals) && OwnIDs(placed) && (forall h | h in placed :: h in goals) && g in goals && g !in placed
    ensures OwnIDs(placed + [g]) && forall h | h in placed + [g] :: h in goals
  {
    forall i | 0 <= i < |placed| ensures placed[i].id != g.id {
      assert placed[i] in placed;
      var j :| 0 <= j < |goals| && goals[j] == placed[i];
      var k :| 0 <= k < |goals| && goals[k] == g;
    }
  }

  /** An accepted list is free of cycles exactly when its goals can be put in an order in which each depends on
      earlier ones only. */
  lemma AcyclicIff(goals: seq<SubGoal>)
    requires Accepted(goals)
    ensures Acyclic(goals) <==> exists gs :: multiset(gs) == multiset(goals) && Backward(gs)
  {
    AcceptedHaveOwnIDs(goals);
    hide Backward, Accepted, Acyclic, OwnIDs;
    if Acyclic(goals) {
      NothingPlaced();
      var gs := PlaceAll(goals, []);
    }
    if gs :| multiset(gs) == multiset(goals) && Backward(gs) {
      BackwardIsAcyclic(goals, gs);
    }
  }

  lemma NothingPlaced()
    ensures Backward([]) && OwnIDs([])
  {
  }

  /** Nothing is said about cycles: any two goals that wait for each other are accepted. */
  lemma CyclesAreAcceptable(a: SubGoal, b: SubGoal)
    requires a.id != "" && b.id != "" && a.id != b.id && a.description != "" && b.description != ""
    requires a.dependsOn == [b.id] && b.dependsOn == [a.id]
    ensures Accepted([a, b]) && !Acyclic([a, b])
  {
    var goals, path := [a, b], [a, b, a];
    assert goals[0] == a && goals[1] == b && Known(goals, a.id) && Known(goals, b.id);
    assert WaitsFor(a, b) && WaitsFor(b, a);
    assert IsPath(goals, path) && path[0] == path[2];
  }
}
