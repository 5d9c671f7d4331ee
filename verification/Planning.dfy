/** The planning loop: pick the cheapest assignment over the whole menu, place it, and plan again with what is left. */
module Planning {
  import opened Wrappers
  import opened Assignment
  import opened Sorting
  import opened Placement
  import opened Menus
  import opened Seeding

  // ---- From a path to groups ----

  /** Batch k of the menu goes to the worker that the path names for it. */
  function GroupsOf(workers: seq<Worker>, menu: Menu, path: seq<nat>): Groups
    requires |path| == |menu| && forall k | 0 <= k < |path| :: path[k] < |workers|
  {
    if menu == [] then map[]
    else
      var k := |menu| - 1;
      GroupsOf(workers, menu[..k], path[..k])[workers[path[k]].id := menu[k]]
  }

  /** The path gives every batch of the menu to a worker of its own that may run it. */
  ghost predicate Serves(p: Planner, workers: seq<Worker>, menu: Menu, path: seq<nat>) {
    && Names(workers, menu, path)
    && (forall i, j | 0 <= i < j < |path| :: path[i] != path[j])
    && forall k | 0 <= k < |menu| :: p.MayRun(workers[path[k]], menu[k])
  }

  predicate Names(workers: seq<Worker>, menu: Menu, path: seq<nat>) {
    |path| == |menu| && forall k | 0 <= k < |path| :: path[k] < |workers|
  }

  /** The table of prices allows exactly the ways of serving the menu. */
  lemma ServesExactly(p: Planner, workers: seq<Worker>, menu: Menu, path: seq<nat>)
    ensures Serves(p, workers, menu, path) <==> |path| == |menu| && Feasible(p.PriceTable(workers, menu), |workers|, path)
  {
    var table: seq<seq<Cost>> := p.PriceTable(workers, menu);
    if |path| == |menu| {
      forall k | 0 <= k < |path| && path[k] < |workers|
        ensures path[k] < |table[k]| && (table[k][path[k]].Allowed? <==> p.MayRun(workers[path[k]], menu[k]))
      {
        assert table[k][path[k]] == p.Price(workers[path[k]], menu[k]);
      }
    }
  }

  function Sum(xs: seq<real>): real {
    if xs == [] then 0.0 else Sum(xs[..|xs| - 1]) + xs[|xs| - 1]
  }

  /** What each batch is predicted to cost on its worker. */
  function Costs(p: Planner, workers: seq<Worker>, menu: Menu, path: seq<nat>): (costs: seq<real>)
    requires Names(workers, menu, path)
  {
    seq(|menu|, k requires 0 <= k < |menu| => p.predict(workers[path[k]], Count(menu[k])).cost)
  }

  /** How long each batch is predicted to compute on its worker. */
  function Computes(p: Planner, workers: seq<Worker>, menu: Menu, path: seq<nat>): (times: seq<real>)
    requires Names(workers, menu, path)
  {
    seq(|menu|, k requires 0 <= k < |menu| => p.predict(workers[path[k]], Count(menu[k])).compute)
  }

  function Values(rows: seq<seq<Cost>>, workers: nat, path: seq<nat>): (values: seq<real>)
    requires Feasible(rows, workers, path)
  {
    seq(|path|, k requires 0 <= k < |path| => rows[k][path[k]].value)
  }

  lemma {:induction false} PathCostIsSum(rows: seq<seq<Cost>>, workers: nat, path: seq<nat>)
    requires Feasible(rows, workers, path)
    ensures PathCost(rows, workers, path) == Sum(Values(rows, workers, path))
  {
    if path != [] {
      var shorter := path[..|path| - 1];
      PathCostIsSum(rows, workers, shorter);
      assert Values(rows, workers, path)[..|path| - 1] == Values(rows, workers, shorter);
    }
  }

  function Scaled(weight: real, xs: seq<real>): (ys: seq<real>)
    ensures |ys| == |xs|
  {
    seq(|xs|, k requires 0 <= k < |xs| => weight * xs[k])
  }

  lemma {:induction false} ScaledSum(weight: real, xs: seq<real>)
    ensures Sum(Scaled(weight, xs)) == weight * Sum(xs)
  {
    if xs != [] {
      var k := |xs| - 1;
      ScaledSum(weight, xs[..k]);
      forall i | 0 <= i < k ensures Scaled(weight, xs)[..k][i] == Scaled(weight, xs[..k])[i] {
        assert xs[..k][i] == xs[i];
      }
      assert Scaled(weight, xs)[..k] == Scaled(weight, xs[..k]);
    }
  }

  lemma {:induction false} AddedSum(xs: seq<real>, ys: seq<real>, all: seq<real>)
    requires |xs| == |ys| == |all| && forall k | 0 <= k < |all| :: all[k] == xs[k] + ys[k]
    ensures Sum(all) == Sum(xs) + Sum(ys)
  {
    if all != [] {
      var k := |all| - 1;
      AddedSum(xs[..k], ys[..k], all[..k]);
    }
  }

  lemma ValueWeighed(p: Planner, workers: seq<Worker>, menu: Menu, path: seq<nat>, k: nat)
    requires Names(workers, menu, path) && Feasible(p.PriceTable(workers, menu), |workers|, path) && k < |menu|
    ensures Values(p.PriceTable(workers, menu), |workers|, path)[k]
            == Costs(p, workers, menu, path)[k] + Scaled(p.weight, Computes(p, workers, menu, path))[k]
  {
    assert p.PriceTable(workers, menu)[k] == p.PriceRow(workers, menu[k]);
  }

  lemma ValuesWeighed(p: Planner, workers: seq<Worker>, menu: Menu, path: seq<nat>)
    requires Names(workers, menu, path) && Feasible(p.PriceTable(workers, menu), |workers|, path)
    ensures Sum(Values(p.PriceTable(workers, menu), |workers|, path))
            == Sum(Costs(p, workers, menu, path)) + Sum(Scaled(p.weight, Computes(p, workers, menu, path)))
  {
    var costs, times := Costs(p, workers, menu, path), Scaled(p.weight, Computes(p, workers, menu, path));
    var values := Values(p.PriceTable(workers, menu), |workers|, path);
    forall k | 0 <= k < |menu| ensures values[k] == costs[k] + times[k] {
      ValueWeighed(p, workers, menu, path, k);
    }
    AddedSum(costs, times, values);
  }

  /** What one way of serving a menu is compared by. */
  function Total(p: Planner, workers: seq<Worker>, menu: Menu, path: seq<nat>): real
    requires Names(workers, menu, path)
  {
    Sum(Costs(p, workers, menu, path)) + Sum(Scaled(p.weight, Computes(p, workers, menu, path)))
  }

  /** The sum of all predicted costs, and the weight times the sum of all predicted times. */
  lemma TotalIsPredicted(p: Planner, workers: seq<Worker>, menu: Menu, path: seq<nat>)
    requires Names(workers, menu, path)
    ensures Total(p, workers, menu, path) == Sum(Costs(p, workers, menu, path)) + p.weight * Sum(Computes(p, workers, menu, path))
  {
    ScaledSum(p.weight, Computes(p, workers, menu, path));
  }

  /** The prices on a path of the table add up to that total. */
  lemma PricesAreTotal(p: Planner, workers: seq<Worker>, menu: Menu, path: seq<nat>)
    requires Names(workers, menu, path) && Feasible(p.PriceTable(workers, menu), |workers|, path)
    ensures PathCost(p.PriceTable(workers, menu), |workers|, path) == Total(p, workers, menu, path)
  {
    PathCostIsSum(p.PriceTable(workers, menu), |workers|, path);
    ValuesWeighed(p, workers, menu, path);
  }

  /** Who holds what: worker ids and batches of the groups are exactly those the path pairs. */
  ghost predicate Pairs(workers: seq<Worker>, menu: Menu, path: seq<nat>, groups: Groups)
    requires |path| == |menu| && forall k | 0 <= k < |path| :: path[k] < |workers|
  {
    && (forall k | 0 <= k < |menu| :: workers[path[k]].id in groups && groups[workers[path[k]].id] == menu[k])
    && forall id | id in groups :: exists k | 0 <= k < |menu| :: workers[path[k]].id == id
  }

  lemma {:induction false} GroupsPair(workers: seq<Worker>, menu: Menu, path: seq<nat>)
    requires DistinctIds(workers) && |path| == |menu| && (forall k | 0 <= k < |path| :: path[k] < |workers|)
    requires forall i, j | 0 <= i < j < |path| :: path[i] != path[j]
    ensures Pairs(workers, menu, path, GroupsOf(workers, menu, path))
  {
    if menu != [] {
      var k := |menu| - 1;
      var m, q, all := menu[..k], path[..k], GroupsOf(workers, menu, path);
      GroupsPair(workers, m, q);
      var some := GroupsOf(workers, m, q);
      forall i | 0 <= i < |menu| ensures workers[path[i]].id in all && all[workers[path[i]].id] == menu[i] {
        if i < k {
          assert q[i] == path[i] && m[i] == menu[i];
          assert workers[q[i]].id in some && some[workers[q[i]].id] == m[i];
          assert workers[path[i]].id != workers[path[k]].id by {
            assert if path[i] < path[k] then true else path[k] < path[i];
          }
        }
      }
      forall id | id in all ensures exists i | 0 <= i < |menu| :: workers[path[i]].id == id {
        if id in some {
          var i :| 0 <= i < |m| && workers[q[i]].id == id;
          assert workers[path[i]].id == id;
        }
      }
    }
  }

  /** Every group is a nonempty batch of candidates that its worker may run, and no slot is in two groups. */
  ghost predicate ValidGroups(p: Planner, candidates: Batch, workers: seq<Worker>, groups: Groups) {
    && (forall id | id in groups :: RunsOn(p, candidates, workers, id, groups[id]))
    && forall a, b, s | a in groups && b in groups && s in groups[a] && s in groups[b] :: a == b
  }

  ghost predicate RunsOn(p: Planner, candidates: Batch, workers: seq<Worker>, id: int, b: Batch) {
    && b != [] && NoDup(b) && (forall s | s in b :: s in candidates)
    && exists w | w in workers :: w.id == id && p.MayRun(w, b)
  }

  lemma {:induction false} FlattenHolds(menu: Menu, k: nat)
    requires k < |menu| && NoDup(Flatten(menu))
    ensures NoDup(menu[k]) && forall s | s in menu[k] :: s in Flatten(menu)
  {
    var n := |menu| - 1;
    NoDupSplit(Flatten(menu[..n]), menu[n]);
    if k < n {
      FlattenHolds(menu[..n], k);
    }
  }

  lemma {:induction false} FlattenFinds(menu: Menu, s: Slot)
    requires s in Flatten(menu)
    ensures exists k | 0 <= k < |menu| :: s in menu[k]
  {
    var n := |menu| - 1;
    if s !in menu[n] {
      FlattenFinds(menu[..n], s);
      var k :| 0 <= k < n && s in menu[..n][k];
      assert s in menu[k];
    }
  }

  lemma {:induction false} FlattenApart(menu: Menu, j: nat, k: nat, s: Slot)
    requires j < k < |menu| && NoDup(Flatten(menu)) && s in menu[j]
    ensures s !in menu[k]
  {
    var n := |menu| - 1;
    NoDupSplit(Flatten(menu[..n]), menu[n]);
    if k < n {
      FlattenApart(menu[..n], j, k, s);
    } else {
      FlattenHolds(menu[..n], j);
    }
  }

  /** Serving a partition of distinct candidates yields valid groups that hold exactly those candidates. */
  lemma ServedGroups(p: Planner, candidates: Batch, workers: seq<Worker>, menu: Menu, path: seq<nat>)
    requires DistinctIds(workers) && Serves(p, workers, menu, path)
    requires NoDup(Flatten(menu)) && (forall s | s in Flatten(menu) :: s in candidates)
    requires forall k | 0 <= k < |menu| :: menu[k] != []
    ensures ValidGroups(p, candidates, workers, GroupsOf(workers, menu, path))
    ensures forall s :: s in Flatten(menu) <==> Placed(GroupsOf(workers, menu, path), s)
  {
    var groups := GroupsOf(workers, menu, path);
    GroupsPair(workers, menu, path);
    forall id | id in groups ensures RunsOn(p, candidates, workers, id, groups[id]) {
      var k :| 0 <= k < |menu| && workers[path[k]].id == id;
      ServedBatch(p, candidates, workers, menu, path, k);
    }
    PairsApart(workers, menu, path, groups);
    forall s ensures s in Flatten(menu) <==> Placed(groups, s) {
      PairsPlace(workers, menu, path, groups, s);
    }
  }

  lemma ServedBatch(p: Planner, candidates: Batch, workers: seq<Worker>, menu: Menu, path: seq<nat>, k: nat)
    requires Serves(p, workers, menu, path) && k < |menu| && menu[k] != []
    requires NoDup(Flatten(menu)) && (forall s | s in Flatten(menu) :: s in candidates)
    ensures RunsOn(p, candidates, workers, workers[path[k]].id, menu[k])
  {
    FlattenHolds(menu, k);
  }

  lemma PairsApart(workers: seq<Worker>, menu: Menu, path: seq<nat>, groups: Groups)
    requires |path| == |menu| && (forall k | 0 <= k < |path| :: path[k] < |workers|)
    requires Pairs(workers, menu, path, groups) && NoDup(Flatten(menu))
    ensures forall a, b, s | a in groups && b in groups && s in groups[a] && s in groups[b] :: a == b
  {
    forall a, b, s | a in groups && b in groups && s in groups[a] && s in groups[b] ensures a == b {
      var i :| 0 <= i < |menu| && workers[path[i]].id == a;
      var j :| 0 <= j < |menu| && workers[path[j]].id == b;
      if i < j { FlattenApart(menu, i, j, s); } else if j < i { FlattenApart(menu, j, i, s); }
    }
  }

  lemma PairsPlace(workers: seq<Worker>, menu: Menu, path: seq<nat>, groups: Groups, s: Slot)
    requires |path| == |menu| && (forall k | 0 <= k < |path| :: path[k] < |workers|)
    requires Pairs(workers, menu, path, groups) && NoDup(Flatten(menu))
    ensures s in Flatten(menu) <==> Placed(groups, s)
  {
    if s in Flatten(menu) {
      FlattenFinds(menu, s);
      var k :| 0 <= k < |menu| && s in menu[k];
      assert workers[path[k]].id in groups;
    }
    if Placed(groups, s) {
      var id :| id in groups && s in groups[id];
      var k :| 0 <= k < |menu| && workers[path[k]].id == id;
      FlattenHolds(menu, k);
    }
  }

  ghost predicate Placed(groups: Groups, s: Slot) {
    exists id | id in groups :: s in groups[id]
  }

  // ---- The cheapest menu entry ----

  predicate ListLess(a: seq<seq<int>>, b: seq<seq<int>>) {
    b != [] && (a == [] || LexLess(a[0], b[0]) || (a[0] == b[0] && ListLess(a[1..], b[1..])))
  }

  lemma {:induction false} ListTransitive(a: seq<seq<int>>, b: seq<seq<int>>, c: seq<seq<int>>)
    requires ListLess(a, b) && ListLess(b, c)
    ensures ListLess(a, c)
  {
    if a != [] {
      if LexLess(a[0], b[0]) && LexLess(b[0], c[0]) {
        LexTransitive(a[0], b[0], c[0]);
      } else if a[0] == b[0] == c[0] && ListLess(a[1..], b[1..]) && ListLess(b[1..], c[1..]) {
        ListTransitive(a[1..], b[1..], c[1..]);
      }
    }
  }

  lemma {:induction false} ListIrreflexive(a: seq<seq<int>>)
    ensures !ListLess(a, a)
  {
    if a != [] {
      LexStrict(a[0], a[0]);
      ListIrreflexive(a[1..]);
    }
  }

  /** Groups as a list of worker ids with their batches, by increasing id when the workers are. */
  function Listing(workers: seq<Worker>, groups: Groups): seq<seq<int>> {
    if workers == [] then []
    else (if workers[0].id in groups then [[workers[0].id] + groups[workers[0].id]] else []) + Listing(workers[1..], groups)
  }

  datatype Choice = Choice(menu: Menu, path: seq<nat>, cost: real, groups: Groups)

  predicate Better(workers: seq<Worker>, a: Choice, b: Choice) {
    a.cost < b.cost || (a.cost == b.cost && ListLess(Listing(workers, a.groups), Listing(workers, b.groups)))
  }

  ghost predicate IsChoice(p: Planner, workers: seq<Worker>, c: Choice) {
    && Serves(p, workers, c.menu, c.path) && c.cost == Total(p, workers, c.menu, c.path)
    && c.groups == GroupsOf(workers, c.menu, c.path)
  }

  /** The choice is the cheapest for its own menu entry, the least by path among equals. */
  ghost predicate Wins(p: Planner, workers: seq<Worker>, c: Choice) {
    && IsChoice(p, workers, c)
    && forall q | Serves(p, workers, c.menu, q) :: StateLeq(State(c.cost, c.path), State(Total(p, workers, c.menu, q), q))
  }

  lemma WinnerUnique(p: Planner, workers: seq<Worker>, a: Choice, b: Choice)
    requires Wins(p, workers, a) && Wins(p, workers, b) && a.menu == b.menu
    ensures a == b
  {
    LexStrict(a.path, b.path);
  }

  ghost function Below(n: nat): (r: set<nat>)
    ensures |r| == n && forall i: nat :: i in r <==> i < n
  {
    if n == 0 then {} else Below(n - 1) + {n - 1}
  }

  /** Distinct workers below n are at most n. */
  lemma Pigeonhole(path: seq<nat>, n: nat)
    requires (forall k | 0 <= k < |path| :: path[k] < n) && forall i, j | 0 <= i < j < |path| :: path[i] != path[j]
    ensures |path| <= n
  {
    UsedSize(path);
    assert Below(n) == Used(path) + (Below(n) - Used(path));
  }

  lemma {:induction false} UsedSize(path: seq<nat>)
    requires forall i, j | 0 <= i < j < |path| :: path[i] != path[j]
    ensures |Used(path)| == |path|
  {
    if path != [] {
      var n := |path| - 1;
      UsedSize(path[..n]);
      assert path == path[..n] + [path[n]];
      assert Used(path) == Used(path[..n]) + {path[n]};
    }
  }

  /** The best choice is a real one from the menus. */
  ghost predicate Chosen(p: Planner, workers: seq<Worker>, menus: seq<Menu>, best: Option<Choice>) {
    best.Some? ==> IsChoice(p, workers, best.value) && best.value.menu in menus
  }

  /** The best choice wins its own entry, and no winner of another entry is cheaper or has lesser groups at its cost. */
  ghost predicate Unbeaten(p: Planner, workers: seq<Worker>, menus: seq<Menu>, best: Option<Choice>) {
    && (best.Some? ==> Wins(p, workers, best.value))
    && forall c | Wins(p, workers, c) && c.menu in menus :: best.Some? && !Better(workers, c, best.value)
  }

  /** No way to serve any entry is cheaper, and there is a choice when any entry can be served. */
  ghost predicate Cheap(p: Planner, workers: seq<Worker>, menus: seq<Menu>, best: Option<Choice>) {
    forall m, q | m in menus && Serves(p, workers, m, q) :: best.Some? && best.value.cost <= Total(p, workers, m, q)
  }

  ghost predicate BestOf(p: Planner, workers: seq<Worker>, menus: seq<Menu>, best: Option<Choice>) {
    && Chosen(p, workers, menus, best)
    && (|workers| <= EXACT_WORKERS ==> Unbeaten(p, workers, menus, best) && Cheap(p, workers, menus, best))
  }

  function Pick(workers: seq<Worker>, last: Option<Choice>, c: Choice): Option<Choice> {
    if last.None? || Better(workers, c, last.value) then Some(c) else last
  }

  /** The cheapest way to serve one menu entry, if there is any. */
  method Evaluate(p: Planner, workers: seq<Worker>, m: Menu) returns (c: Option<Choice>)
    ensures c.Some? ==> IsChoice(p, workers, c.value) && c.value.menu == m
    ensures |workers| <= EXACT_WORKERS && c.Some? ==> Wins(p, workers, c.value)
    ensures |workers| <= EXACT_WORKERS && c.None? ==> forall q :: !Serves(p, workers, m, q)
  {
    if |m| > |workers| {
      forall q ensures !Serves(p, workers, m, q) {
        if Serves(p, workers, m, q) { NoRoom(p, workers, m, q); }
      }
      return None;
    }
    var state := Assign(p.PriceTable(workers, m), |workers|);
    forall q
      ensures Serves(p, workers, m, q) <==> |q| == |m| && Feasible(p.PriceTable(workers, m), |workers|, q)
      ensures Serves(p, workers, m, q) ==> PathCost(p.PriceTable(workers, m), |workers|, q) == Total(p, workers, m, q)
    {
      ServesExactly(p, workers, m, q);
      if Serves(p, workers, m, q) { PricesAreTotal(p, workers, m, q); }
    }
    if state.None? { return None; }
    var path := state.value.path;
    c := Some(Choice(m, path, state.value.cost, GroupsOf(workers, m, path)));
  }

  lemma NoRoom(p: Planner, workers: seq<Worker>, m: Menu, q: seq<nat>)
    requires Serves(p, workers, m, q)
    ensures |m| <= |workers|
  {
    Pigeonhole(q, |workers|);
  }

  /** The menu loop of Planner::once. */
  method ChooseBest(p: Planner, workers: seq<Worker>, menus: seq<Menu>) returns (best: Option<Choice>)
    ensures BestOf(p, workers, menus, best)
  {
    best := None;
    var seen: set<Menu> := {};
    for i := 0 to |menus|
      invariant seen == set m | m in menus[..i]
      invariant BestOf(p, workers, menus[..i], best)
    {
      var m := menus[i];
      assert menus[..i + 1] == menus[..i] + [m];
      if m !in seen {
        seen := seen + {m};
        var c := Evaluate(p, workers, m);
        NextMenu(p, workers, menus[..i], m, best, c);
        if c.Some? {
          best := Pick(workers, best, c.value);
        }
      }
    }
    assert menus[..|menus|] == menus;
  }

  lemma NextMenu(p: Planner, workers: seq<Worker>, menus: seq<Menu>, m: Menu, best: Option<Choice>, c: Option<Choice>)
    requires BestOf(p, workers, menus, best)
    requires c.Some? ==> IsChoice(p, workers, c.value) && c.value.menu == m
    requires |workers| <= EXACT_WORKERS && c.Some? ==> Wins(p, workers, c.value)
    requires |workers| <= EXACT_WORKERS && c.None? ==> forall q :: !Serves(p, workers, m, q)
    ensures BestOf(p, workers, menus + [m], if c.Some? then Pick(workers, best, c.value) else best)
  {
    if |workers| <= EXACT_WORKERS {
      if c.Some? {
        PickUnbeaten(p, workers, menus, best, c.value);
        PickCheap(p, workers, menus, best, c.value);
      } else {
        forall d | Wins(p, workers, d) && d.menu in menus + [m] ensures d.menu in menus {
          assert Serves(p, workers, d.menu, d.path);
        }
      }
    }
  }

  lemma PickUnbeaten(p: Planner, workers: seq<Worker>, menus: seq<Menu>, best: Option<Choice>, c: Choice)
    requires Unbeaten(p, workers, menus, best) && Wins(p, workers, c)
    ensures Unbeaten(p, workers, menus + [c.menu], Pick(workers, best, c))
  {
    var next := Pick(workers, best, c);
    forall d | Wins(p, workers, d) && d.menu in menus + [c.menu] ensures !Better(workers, d, next.value) {
      if d.menu == c.menu {
        WinnerUnique(p, workers, c, d);
        NotBetterThanItself(workers, c);
      } else {
        assert d.menu in menus && best.Some? && !Better(workers, d, best.value);
        if next == Some(c) && Better(workers, d, c) {
          BetterTransitive(workers, d, c, best.value);
        }
      }
    }
  }

  lemma PickCheap(p: Planner, workers: seq<Worker>, menus: seq<Menu>, best: Option<Choice>, c: Choice)
    requires Cheap(p, workers, menus, best) && Wins(p, workers, c)
    ensures Cheap(p, workers, menus + [c.menu], Pick(workers, best, c))
  {
    forall m, q | m in menus + [c.menu] && Serves(p, workers, m, q)
      ensures Pick(workers, best, c).value.cost <= Total(p, workers, m, q)
    {
      if m == c.menu {
        assert c.cost <= Total(p, workers, m, q);
      }
    }
  }

  lemma NotBetterThanItself(workers: seq<Worker>, c: Choice)
    ensures !Better(workers, c, c)
  {
    ListIrreflexive(Listing(workers, c.groups));
  }

  lemma BetterTransitive(workers: seq<Worker>, a: Choice, b: Choice, c: Choice)
    requires Better(workers, a, b) && Better(workers, b, c)
    ensures Better(workers, a, c)
  {
    if a.cost == b.cost == c.cost {
      ListTransitive(Listing(workers, a.groups), Listing(workers, b.groups), Listing(workers, c.groups));
    }
  }

  // ---- One planning call ----

  function ById(workers: seq<Worker>): (r: seq<Worker>)
    ensures multiset(r) == multiset(workers)
  {
    StableSort(workers, (a: Worker, b: Worker) => a.id < b.id)
  }

  function ByFree(p: Planner, workers: seq<Worker>): (r: seq<Worker>)
    ensures multiset(r) == multiset(workers) && |r| == |workers|
  {
    var r := StableSort(workers, (a: Worker, b: Worker) => p.free(a) < p.free(b) || (p.free(a) == p.free(b) && a.id < b.id));
    assert |r| == |multiset(r)| == |multiset(workers)|;
    r
  }

  /** The worker that is free first comes first; of two free at once, the one with the lesser id. */
  lemma FreeFirst(p: Planner, workers: seq<Worker>, i: nat, j: nat)
    requires i < j < |workers|
    ensures var a, b := ByFree(p, workers)[i], ByFree(p, workers)[j];
            p.free(a) < p.free(b) || (p.free(a) == p.free(b) && a.id <= b.id)
  {
    var before := (a: Worker, b: Worker) => p.free(a) < p.free(b) || (p.free(a) == p.free(b) && a.id < b.id);
    var sorted := StableSort(workers, before);
    assert ByKey(before) by {
      forall a: Worker, b: Worker | Before(before, a, b) ensures !Before(before, b, a) {}
      forall a: Worker, b: Worker, c: Worker | !Before(before, b, a) && !Before(before, c, b) ensures !Before(before, c, a) {}
    }
    StableSortOrdered(workers, before);
    assert sorted == ByFree(p, workers) && |sorted| == |workers|;
    assert !Before(before, sorted[j], sorted[i]);
  }

  lemma {:induction false} DistinctIdsNoDup(workers: seq<Worker>)
    requires DistinctIds(workers)
    ensures NoDup(workers)
  {
    if workers != [] {
      var n := |workers| - 1;
      DistinctIdsNoDup(workers[..n]);
      assert workers == workers[..n] + [workers[n]];
      NoDupSplit(workers[..n], [workers[n]]);
    }
  }

  lemma SameWorkers(a: seq<Worker>, b: seq<Worker>)
    requires multiset(a) == multiset(b) && DistinctIds(a)
    ensures DistinctIds(b) && forall w :: w in a <==> w in b
  {
    forall w ensures w in a <==> w in b {
      assert w in a <==> w in multiset(a);
      assert w in b <==> w in multiset(b);
    }
    DistinctIdsNoDup(a);
    forall w | w in b ensures multiset(b)[w] == 1 { assert w in a; }
    forall i, j | 0 <= i < j < |b| ensures b[i].id != b[j].id {
      NoDupAt(b, i, j);
      assert b[i] in b && b[j] in b;
      var x :| 0 <= x < |a| && a[x] == b[i];
      var y :| 0 <= y < |a| && a[y] == b[j];
      assert x < y || y < x;
    }
  }

  /** The menu of one call: the seed's own batches and every entry cut from the slots it admitted. */
  ghost predicate Offered(p: Planner, workers: seq<Worker>, seed: seq<Seat>, m: Menu) {
    workers != [] && (m == Batches(seed) || Entry(p, workers, Flatten(Batches(seed)), m))
  }

  /** Every offered menu is a partition of the admitted slots into nonempty batches. */
  lemma OfferedPartitions(p: Planner, candidates: Batch, workers: seq<Worker>, from: seq<Worker>, seed: seq<Seat>, m: Menu)
    requires Offered(p, workers, seed, m) && Seated(p, candidates, from, seed)
    ensures NoDup(Flatten(m)) && (forall s :: s in Flatten(m) <==> s in Flatten(Batches(seed)))
    ensures forall k | 0 <= k < |m| :: m[k] != []
  {
    var admitted := Flatten(Batches(seed));
    if m != Batches(seed) {
      EntryPartitions(p, workers, admitted, m);
      SameElements(Flatten(m), admitted);
    } else {
      forall k | 0 <= k < |m| ensures m[k] != [] { assert m[k] == seed[k].batch; }
    }
  }

  ghost predicate CanServe(p: Planner, workers: seq<Worker>, seed: seq<Seat>) {
    exists m, q :: Offered(p, workers, seed, m) && Serves(p, workers, m, q)
  }

  /** The groups serve an offered menu; with up to eight workers no way to serve any offered menu has a smaller total. */
  ghost predicate Least(p: Planner, workers: seq<Worker>, seed: seq<Seat>, best: Groups) {
    exists c: Choice | IsChoice(p, workers, c) ::
      && Offered(p, workers, seed, c.menu) && c.groups == best
      && (|workers| <= EXACT_WORKERS ==>
            forall m, q | Offered(p, workers, seed, m) && Serves(p, workers, m, q) :: c.cost <= Total(p, workers, m, q))
  }

  /** Without a weight the groups have the least sum of predicted costs. */
  lemma LeastWithoutWeight(p: Planner, workers: seq<Worker>, seed: seq<Seat>, best: Groups)
    requires Least(p, workers, seed, best) && p.weight == 0.0 && |workers| <= EXACT_WORKERS
    ensures exists menu, path | Serves(p, workers, menu, path) ::
              && Offered(p, workers, seed, menu) && GroupsOf(workers, menu, path) == best
              && forall m, q | Offered(p, workers, seed, m) && Serves(p, workers, m, q) ::
                   Sum(Costs(p, workers, menu, path)) <= Sum(Costs(p, workers, m, q))
  {
    var c: Choice :| IsChoice(p, workers, c) && Offered(p, workers, seed, c.menu) && c.groups == best
      && forall m, q | Offered(p, workers, seed, m) && Serves(p, workers, m, q) :: c.cost <= Total(p, workers, m, q);
    TotalWithoutWeight(p, workers, c.menu, c.path);
    forall m, q | Offered(p, workers, seed, m) && Serves(p, workers, m, q)
      ensures Sum(Costs(p, workers, c.menu, c.path)) <= Sum(Costs(p, workers, m, q))
    {
      TotalWithoutWeight(p, workers, m, q);
    }
  }

  lemma TotalWithoutWeight(p: Planner, workers: seq<Worker>, menu: Menu, path: seq<nat>)
    requires Names(workers, menu, path) && p.weight == 0.0
    ensures Total(p, workers, menu, path) == Sum(Costs(p, workers, menu, path))
  {
    TotalIsPredicted(p, workers, menu, path);
  }

  /** The groups are the seats that may run as they are. */
  ghost predicate Kept(p: Planner, seed: seq<Seat>, best: Groups) {
    && (forall k | 0 <= k < |seed| ::
          if p.MayRun(seed[k].worker, seed[k].batch)
          then seed[k].worker.id in best && best[seed[k].worker.id] == seed[k].batch
          else seed[k].worker.id !in best)
    && forall id | id in best :: exists k | 0 <= k < |seed| :: seed[k].worker.id == id
  }

  /** Either a cheapest menu entry is served and every admitted slot placed, or none can be and the seats that may run stay. */
  ghost predicate Answer(p: Planner, workers: seq<Worker>, seed: seq<Seat>, best: Groups) {
    || (Least(p, workers, seed, best) && forall s :: Placed(best, s) <==> s in Flatten(Batches(seed)))
    || (Kept(p, seed, best) && (|workers| <= EXACT_WORKERS ==> !CanServe(p, workers, seed)))
  }

  /** What one call answers, and from which seed. */
  ghost predicate Answered(p: Planner, candidates: Batch, workers: seq<Worker>, seed: seq<Seat>, best: Groups) {
    && workers != [] && Seated(p, candidates, workers, seed) && ValidGroups(p, candidates, workers, best)
    && SeatsInTurn(p, candidates, ByFree(p, ById(workers)), seed)
    && (seed == [] ==> best == map[] && forall w, s | w in workers && s in candidates :: !p.Fits(w, [s]))
    && (seed != [] ==> Answer(p, ById(workers), seed, best))
  }

  /** Planner::once. It answers nothing without a menu only when no candidate fits any worker by itself. */
  method Once(p: Planner, candidates: Batch, workers: seq<Worker>) returns (best: Groups, ghost seed: seq<Seat>)
    requires workers != [] && NoDup(candidates) && DistinctIds(workers)
    ensures Answered(p, candidates, workers, seed, best)
  {
    var byId := ById(workers);
    var ordered := ByFree(p, byId);
    SameWorkers(workers, byId);
    SameWorkers(byId, ordered);
    var seats := Seed(p, candidates, ordered);
    seed, best := seats, map[];
    if seats == [] { return; }
    var choice := ChooseOffered(p, candidates, byId, ordered, seats);
    if choice.Some? {
      best := choice.value.groups;
      ChoiceAnswers(p, candidates, byId, ordered, seats, choice.value);
    } else {
      best := KeepSeed(p, candidates, ordered, seats);
    }
    forall id | id in best ensures RunsOn(p, candidates, workers, id, best[id]) {}
  }

  /** Build the menu of a seed and choose from it. */
  method ChooseOffered(p: Planner, candidates: Batch, workers: seq<Worker>, from: seq<Worker>, seed: seq<Seat>)
    returns (choice: Option<Choice>)
    requires workers != [] && Seated(p, candidates, from, seed)
    ensures choice.Some? ==> IsChoice(p, workers, choice.value) && Offered(p, workers, seed, choice.value.menu)
    ensures |workers| <= EXACT_WORKERS ==>
              forall m, q | Offered(p, workers, seed, m) && Serves(p, workers, m, q) ::
                choice.Some? && choice.value.cost <= Total(p, workers, m, q)
  {
    var rest := Partitions(p, Flatten(Batches(seed)), workers);
    var menus := [Batches(seed)] + rest;
    choice := ChooseBest(p, workers, menus);
    assert forall m :: m in menus <==> Offered(p, workers, seed, m);
  }

  lemma ChoiceAnswers(p: Planner, candidates: Batch, workers: seq<Worker>, from: seq<Worker>, seed: seq<Seat>, c: Choice)
    requires DistinctIds(workers) && Seated(p, candidates, from, seed) && Offered(p, workers, seed, c.menu) && IsChoice(p, workers, c)
    requires |workers| <= EXACT_WORKERS ==>
               forall m, q | Offered(p, workers, seed, m) && Serves(p, workers, m, q) :: c.cost <= Total(p, workers, m, q)
    ensures ValidGroups(p, candidates, workers, c.groups) && Answer(p, workers, seed, c.groups)
  {
    OfferedPartitions(p, candidates, workers, from, seed, c.menu);
    ServedGroups(p, candidates, workers, c.menu, c.path);
  }

  /** The fallback of Planner::once. */
  method KeepSeed(p: Planner, candidates: Batch, workers: seq<Worker>, seed: seq<Seat>) returns (best: Groups)
    requires Seated(p, candidates, workers, seed)
    ensures Kept(p, seed, best) && ValidGroups(p, candidates, workers, best)
  {
    best := map[];
    for k := 0 to |seed|
      invariant Kept(p, seed[..k], best)
    {
      var ok := p.ComputeMayRun(seed[k].worker, seed[k].batch);
      KeptStep(p, seed, k, best);
      if ok {
        best := best[seed[k].worker.id := seed[k].batch];
      }
    }
    assert seed[..|seed|] == seed;
    KeptValid(p, candidates, workers, seed, best);
  }

  lemma KeptStep(p: Planner, seed: seq<Seat>, k: nat, best: Groups)
    requires k < |seed| && Kept(p, seed[..k], best)
    requires forall i, j | 0 <= i < j < |seed| :: seed[i].worker.id != seed[j].worker.id
    ensures Kept(p, seed[..k + 1],
                 if p.MayRun(seed[k].worker, seed[k].batch) then best[seed[k].worker.id := seed[k].batch] else best)
  {
    var before, after := seed[..k], seed[..k + 1];
    var next := if p.MayRun(seed[k].worker, seed[k].batch) then best[seed[k].worker.id := seed[k].batch] else best;
    assert after == before + [seed[k]];
    forall i | i in next ensures exists j | 0 <= j < |after| :: after[j].worker.id == i {
      if i in best {
        var j :| 0 <= j < |before| && before[j].worker.id == i;
        assert after[j].worker.id == i;
      } else {
        assert after[k].worker.id == i;
      }
    }
  }

  lemma KeptValid(p: Planner, candidates: Batch, workers: seq<Worker>, seed: seq<Seat>, best: Groups)
    requires Seated(p, candidates, workers, seed) && Kept(p, seed, best)
    ensures ValidGroups(p, candidates, workers, best)
  {
    forall id | id in best ensures RunsOn(p, candidates, workers, id, best[id]) {
      var k :| 0 <= k < |seed| && seed[k].worker.id == id;
      KeptRuns(p, candidates, workers, seed, best, k);
    }
    forall a, b, s | a in best && b in best && s in best[a] && s in best[b] ensures a == b {
      KeptApart(p, candidates, workers, seed, best, a, b, s);
    }
  }

  lemma KeptApart(p: Planner, candidates: Batch, workers: seq<Worker>, seed: seq<Seat>, best: Groups, a: int, b: int, s: Slot)
    requires Seated(p, candidates, workers, seed) && Kept(p, seed, best)
    requires a in best && b in best && s in best[a] && s in best[b]
    ensures a == b
  {
    var i :| 0 <= i < |seed| && seed[i].worker.id == a;
    var j :| 0 <= j < |seed| && seed[j].worker.id == b;
    KeptRuns(p, candidates, workers, seed, best, i);
    KeptRuns(p, candidates, workers, seed, best, j);
    if i != j { SeatsApart(seed, i, j, s); }
  }

  lemma KeptRuns(p: Planner, candidates: Batch, workers: seq<Worker>, seed: seq<Seat>, best: Groups, k: nat)
    requires Seated(p, candidates, workers, seed) && Kept(p, seed, best)
    requires k < |seed| && seed[k].worker.id in best
    ensures best[seed[k].worker.id] == seed[k].batch
    ensures RunsOn(p, candidates, workers, seed[k].worker.id, seed[k].batch)
  {
    FlattenHolds(Batches(seed), k);
    assert p.MayRun(seed[k].worker, seed[k].batch);
  }

  lemma SeatsApart(seed: seq<Seat>, i: nat, j: nat, s: Slot)
    requires i < |seed| && j < |seed| && i != j && NoDup(Flatten(Batches(seed)))
    ensures !(s in seed[i].batch && s in seed[j].batch)
  {
    var menu := Batches(seed);
    if s in menu[i] && i < j { FlattenApart(menu, i, j, s); }
    if s in menu[j] && j < i { FlattenApart(menu, j, i, s); }
  }

  // ---- The whole run ----

  /** Why the loop stopped with requests and workers left: none fits alone, or no menu can be served and no seat may run. */
  ghost predicate Stuck(p: Planner, rest: Batch, idle: seq<Worker>) {
    exists seed: seq<Seat> | Seated(p, rest, idle, seed) ::
      if seed == [] then forall w, s | w in idle && s in rest :: !p.Fits(w, [s])
      else
        && (forall k | 0 <= k < |seed| :: !p.MayRun(seed[k].worker, seed[k].batch))
        && (|idle| <= EXACT_WORKERS ==> !CanServe(p, ById(idle), seed))
  }

  function Slots(groups: Groups): (slots: set<Slot>)
    ensures forall s :: s in slots <==> Placed(groups, s)
  {
    set id, s | id in groups && s in groups[id] :: s
  }

  function Idle(workers: seq<Worker>, groups: Groups): (rest: seq<Worker>)
    ensures forall w :: w in rest <==> w in workers && w.id !in groups
    ensures DistinctIds(workers) ==> DistinctIds(rest)
  {
    if workers == [] then []
    else
      var n, w := |workers| - 1, workers[|workers| - 1];
      assert workers == workers[..n] + [w];
      var rest := Idle(workers[..n], groups);
      assert DistinctIds(workers) ==> forall v | v in rest :: v in workers[..n] && v.id != w.id;
      rest + if w.id in groups then [] else [w]
  }

  // ---- The rounds of a run ----

  function All(rounds: seq<Groups>): Groups {
    if rounds == [] then map[] else All(rounds[..|rounds| - 1]) + rounds[|rounds| - 1]
  }

  function WaitingAfter(candidates: Batch, rounds: seq<Groups>): Batch {
    if rounds == [] then candidates
    else Without(WaitingAfter(candidates, rounds[..|rounds| - 1]), Slots(rounds[|rounds| - 1]))
  }

  function FreeAfter(workers: seq<Worker>, rounds: seq<Groups>): seq<Worker> {
    if rounds == [] then workers else Idle(FreeAfter(workers, rounds[..|rounds| - 1]), rounds[|rounds| - 1])
  }

  /** Each round is one whole answer for the requests and the workers that the rounds before it have left. */
  ghost predicate Rounds(p: Planner, candidates: Batch, workers: seq<Worker>, rounds: seq<Groups>) {
    forall i | 0 <= i < |rounds| :: RoundAt(p, candidates, workers, rounds, i)
  }

  ghost predicate RoundAt(p: Planner, candidates: Batch, workers: seq<Worker>, rounds: seq<Groups>, i: nat)
    requires i < |rounds|
  {
    && rounds[i] != map[]
    && exists seed :: Answered(p, WaitingAfter(candidates, rounds[..i]), FreeAfter(workers, rounds[..i]), seed, rounds[i])
  }

  lemma RoundMore(p: Planner, candidates: Batch, workers: seq<Worker>, rounds: seq<Groups>, seed: seq<Seat>, selected: Groups)
    requires Rounds(p, candidates, workers, rounds) && selected != map[]
    requires Answered(p, WaitingAfter(candidates, rounds), FreeAfter(workers, rounds), seed, selected)
    ensures Rounds(p, candidates, workers, rounds + [selected]) && All(rounds + [selected]) == All(rounds) + selected
    ensures WaitingAfter(candidates, rounds + [selected]) == Without(WaitingAfter(candidates, rounds), Slots(selected))
    ensures FreeAfter(workers, rounds + [selected]) == Idle(FreeAfter(workers, rounds), selected)
  {
    var more := rounds + [selected];
    assert more[..|rounds|] == rounds;
    forall i | 0 <= i < |more| ensures RoundAt(p, candidates, workers, more, i) {
      if i < |rounds| {
        RoundKept(p, candidates, workers, rounds, more, i);
      }
    }
  }

  lemma RoundKept(p: Planner, candidates: Batch, workers: seq<Worker>, rounds: seq<Groups>, more: seq<Groups>, i: nat)
    requires i < |rounds| < |more| && more[..|rounds|] == rounds && RoundAt(p, candidates, workers, rounds, i)
    ensures RoundAt(p, candidates, workers, more, i)
  {
    assert more[..i] == rounds[..i] && more[i] == more[..|rounds|][i];
    var seed :| Answered(p, WaitingAfter(candidates, rounds[..i]), FreeAfter(workers, rounds[..i]), seed, rounds[i]);
    assert Answered(p, WaitingAfter(candidates, more[..i]), FreeAfter(workers, more[..i]), seed, more[i]);
  }

  /**
   * Planner::run. The run is round after round of whole answers, until nothing waits, no worker is free, or a call answers
   * nothing. No request goes to two workers and no worker gets two batches; every batch may run on its worker; and what is
   * left over is left for a reason.
   */
  method Run(p: Planner, candidates: Batch, workers: seq<Worker>)
    returns (all: Groups, ghost rest: Batch, ghost idle: seq<Worker>, ghost rounds: seq<Groups>)
    requires NoDup(candidates) && DistinctIds(workers)
    ensures ValidGroups(p, candidates, workers, all)
    ensures forall s | s in candidates :: s in rest <==> !Placed(all, s)
    ensures forall w | w in workers :: w in idle <==> w.id !in all
    ensures rest == [] || idle == [] || Stuck(p, rest, idle)
    ensures Rounds(p, candidates, workers, rounds) && all == All(rounds)
    ensures rest == WaitingAfter(candidates, rounds) && idle == FreeAfter(workers, rounds)
  {
    all := map[];
    var waiting, free := candidates, workers;
    rest, idle, rounds := waiting, free, [];
    while waiting != [] && free != []
      invariant NoDup(waiting) && DistinctIds(free) && ValidGroups(p, candidates, workers, all)
      invariant forall s :: s in waiting <==> s in candidates && !Placed(all, s)
      invariant forall w :: w in free <==> w in workers && w.id !in all
      invariant rest == waiting == WaitingAfter(candidates, rounds) && idle == free == FreeAfter(workers, rounds)
      invariant Rounds(p, candidates, workers, rounds) && all == All(rounds)
      decreases |waiting|
    {
      ghost var seed: seq<Seat>;
      var selected: Groups;
      selected, seed := Once(p, waiting, free);
      if selected == map[] {
        StuckNow(p, waiting, free, seed, selected);
        return;
      }
      RoundMore(p, candidates, workers, rounds, seed, selected);
      SomethingSelected(p, waiting, free, selected);
      WithoutShorter(waiting, Slots(selected));
      MergeGroups(p, candidates, workers, waiting, free, all, selected);
      all, rounds := all + selected, rounds + [selected];
      WithoutMembers(waiting, Slots(selected));
      WithoutNoDup(waiting, Slots(selected));
      waiting := Without(waiting, Slots(selected));
      free := Idle(free, selected);
      rest, idle := waiting, free;
    }
  }

  lemma StuckNow(p: Planner, waiting: Batch, free: seq<Worker>, seed: seq<Seat>, selected: Groups)
    requires Answered(p, waiting, free, seed, selected) && DistinctIds(free) && selected == map[]
    ensures Stuck(p, waiting, free)
  {
    if seed != [] { NothingSelected(p, waiting, free, seed, selected); }
  }

  lemma NothingSelected(p: Planner, waiting: Batch, free: seq<Worker>, seed: seq<Seat>, selected: Groups)
    requires Seated(p, waiting, free, seed) && seed != [] && DistinctIds(free)
    requires selected == map[] && Answer(p, ById(free), seed, selected)
    ensures Stuck(p, waiting, free)
  {
    SameWorkers(free, ById(free));
    assert |ById(free)| == |multiset(ById(free))| == |multiset(free)| == |free|;
    FlattenHolds(Batches(seed), 0);
    var s := seed[0].batch[0];
    assert s in Batches(seed)[0] && !Placed(selected, s);
  }

  lemma SomeGroup(groups: Groups)
    ensures groups == map[] || exists id :: id in groups
  {
    if forall id :: id !in groups {
      assert groups == map[];
    }
  }

  lemma SomethingSelected(p: Planner, waiting: Batch, free: seq<Worker>, selected: Groups)
    requires ValidGroups(p, waiting, free, selected) && selected != map[]
    ensures exists s :: s in waiting && Placed(selected, s)
  {
    SomeGroup(selected);
    var id :| id in selected;
    assert RunsOn(p, waiting, free, id, selected[id]);
    var s := selected[id][0];
    assert s in selected[id];
  }

  lemma MergeGroups(p: Planner, candidates: Batch, workers: seq<Worker>, waiting: Batch, free: seq<Worker>, all: Groups, selected: Groups)
    requires ValidGroups(p, candidates, workers, all) && ValidGroups(p, waiting, free, selected)
    requires forall s | s in waiting :: s in candidates && !Placed(all, s)
    requires forall w | w in free :: w in workers && w.id !in all
    ensures ValidGroups(p, candidates, workers, all + selected)
    ensures forall s :: Placed(all + selected, s) <==> Placed(all, s) || Placed(selected, s)
  {
    var both := all + selected;
    forall id | id in selected ensures id !in all && both[id] == selected[id] && forall s | s in selected[id] :: s in waiting {
      assert RunsOn(p, waiting, free, id, selected[id]);
    }
    forall id | id in both ensures RunsOn(p, candidates, workers, id, both[id]) {
      assert if id in selected then RunsOn(p, waiting, free, id, selected[id]) else RunsOn(p, candidates, workers, id, all[id]);
    }
    forall s ensures Placed(both, s) <==> Placed(all, s) || Placed(selected, s) {
      if Placed(all, s) {
        var id :| id in all && s in all[id];
        assert both[id] == all[id];
      }
    }
  }
}
