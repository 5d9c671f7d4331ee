/**
 * The bitmask dynamic program that assigns the batches of one partition to distinct workers.
 * A mask of used workers is the set of their indices; states are compared by cost, then by path.
 */
module Assignment {
  import opened Wrappers

  /** The cost of giving a batch to a worker, when it may take the batch at all. */
  datatype Cost = Forbidden | Allowed(value: real)

  /** The cheapest known way to place the first |path| batches; path[k] is the worker of batch k. */
  datatype State = State(cost: real, path: seq<nat>)

  const EXACT_WORKERS: nat := 8
  const BEAM_WIDTH: nat := 64

  // ---- The order on states ----

  predicate LexLess(a: seq<int>, b: seq<int>) {
    b != [] && (a == [] || a[0] < b[0] || (a[0] == b[0] && LexLess(a[1..], b[1..])))
  }

  lemma {:induction false} LexTransitive(a: seq<int>, b: seq<int>, c: seq<int>)
    requires LexLess(a, b) && LexLess(b, c)
    ensures LexLess(a, c)
  {
    if a != [] && a[0] == b[0] && b[0] == c[0] {
      LexTransitive(a[1..], b[1..], c[1..]);
    }
  }

  lemma {:induction false} LexTotal(a: seq<int>, b: seq<int>)
    ensures a == b || LexLess(a, b) || LexLess(b, a)
  {
    if a != [] && b != [] && a[0] == b[0] {
      LexTotal(a[1..], b[1..]);
      assert a[1..] == b[1..] ==> a == b;
    }
  }

  lemma {:induction false} LexStrict(a: seq<int>, b: seq<int>)
    ensures !(LexLess(a, b) && LexLess(b, a))
  {
    if a != [] && b != [] { LexStrict(a[1..], b[1..]); }
  }

  lemma LexNotLess(a: seq<int>, b: seq<int>, c: seq<int>)
    ensures !LexLess(b, a) && !LexLess(c, b) ==> !LexLess(c, a)
  {
    LexTotal(a, b);
    LexTotal(b, c);
    if LexLess(c, a) {
      if LexLess(a, b) { LexTransitive(c, a, b); } else if LexLess(b, c) { LexTransitive(b, c, a); }
    }
  }

  lemma {:induction false} LexAppend(a: seq<int>, b: seq<int>, x: int)
    requires LexLess(a, b) && |a| == |b|
    ensures LexLess(a + [x], b + [x])
  {
    if a[0] == b[0] {
      LexAppend(a[1..], b[1..], x);
      assert (a + [x])[1..] == a[1..] + [x] && (b + [x])[1..] == b[1..] + [x];
    }
  }

  predicate StateLess(a: State, b: State) {
    a.cost < b.cost || (a.cost == b.cost && LexLess(a.path, b.path))
  }

  predicate StateLeq(a: State, b: State) {
    a == b || StateLess(a, b)
  }

  lemma LeqTransitive(a: State, b: State, c: State)
    requires StateLeq(a, b) && StateLeq(b, c)
    ensures StateLeq(a, c)
  {
    if LexLess(a.path, b.path) && LexLess(b.path, c.path) {
      LexTransitive(a.path, b.path, c.path);
    }
  }

  lemma LeqTotal(a: State, b: State)
    ensures StateLeq(a, b) || StateLess(b, a)
  {
    LexTotal(a.path, b.path);
  }

  // ---- What an assignment is ----

  /** Distinct workers, each allowed to take its batch. */
  predicate Feasible(rows: seq<seq<Cost>>, workers: nat, path: seq<nat>) {
    && |path| <= |rows|
    && (forall j | 0 <= j < |path| :: path[j] < workers && path[j] < |rows[j]| && rows[j][path[j]].Allowed?)
    && forall i, j | 0 <= i < j < |path| :: path[i] != path[j]
  }

  function PathCost(rows: seq<seq<Cost>>, workers: nat, path: seq<nat>): real
    requires Feasible(rows, workers, path)
  {
    if path == [] then 0.0
    else
      var k := |path| - 1;
      PathCost(rows, workers, path[..k]) + rows[k][path[k]].value
  }

  function Used(path: seq<nat>): set<nat> {
    set x | x in path
  }

  function StateOf(rows: seq<seq<Cost>>, workers: nat, path: seq<nat>): State
    requires Feasible(rows, workers, path)
  {
    State(PathCost(rows, workers, path), path)
  }

  function Extended(s: State, row: seq<Cost>, i: nat): State
    requires i < |row| && row[i].Allowed?
  {
    State(s.cost + row[i].value, s.path + [i])
  }

  lemma ExtendedIsState(rows: seq<seq<Cost>>, workers: nat, path: seq<nat>, i: nat)
    requires Feasible(rows, workers, path) && |path| < |rows| && i < workers && i < |rows[|path|]|
    requires rows[|path|][i].Allowed? && i !in Used(path)
    ensures Feasible(rows, workers, path + [i]) && Used(path + [i]) == Used(path) + {i}
    ensures StateOf(rows, workers, path + [i]) == Extended(StateOf(rows, workers, path), rows[|path|], i)
  {
    var p := path + [i];
    assert p[..|path|] == path;
    forall a, b | 0 <= a < b < |p| ensures p[a] != p[b] {
      assert p[a] in Used(path);
    }
  }

  /** Extending by the same worker keeps the order of two ways to place the same number of batches. */
  lemma ExtendedMonotone(a: State, b: State, row: seq<Cost>, i: nat)
    requires i < |row| && row[i].Allowed? && |a.path| == |b.path| && StateLeq(a, b)
    ensures StateLeq(Extended(a, row, i), Extended(b, row, i))
  {
    if a.cost == b.cost && a != b {
      LexAppend(a.path, b.path, i);
    }
  }

  // ---- The dynamic program ----

  type Table = map<set<nat>, State>

  /** Every entry is a real way to place the first k batches on exactly the workers of its key. */
  ghost predicate Sound(rows: seq<seq<Cost>>, workers: nat, k: nat, states: Table) {
    forall mask | mask in states ::
      && |states[mask].path| == k && Feasible(rows, workers, states[mask].path)
      && Used(states[mask].path) == mask && states[mask] == StateOf(rows, workers, states[mask].path)
  }

  /** No way to place the first k batches beats the entry for the workers it uses. */
  ghost predicate Optimal(rows: seq<seq<Cost>>, workers: nat, k: nat, states: Table) {
    forall p | |p| == k && Feasible(rows, workers, p) ::
      Used(p) in states && StateLeq(states[Used(p)], StateOf(rows, workers, p))
  }

  /** A candidate entry is kept when its key is new or it beats the old one. */
  function Offer(table: Table, key: set<nat>, value: State): (r: Table)
    ensures key in r && StateLeq(r[key], value)
    ensures forall m | m in table :: m in r && StateLeq(r[m], table[m])
    ensures forall m | m in r :: (m in table && r[m] == table[m]) || (m == key && r[m] == value)
  {
    if key !in table then table[key := value]
    else
      LeqTotal(table[key], value);
      if StateLess(value, table[key]) then table[key := value] else table
  }

  predicate CanTake(row: seq<Cost>, mask: set<nat>, i: nat) {
    i < |row| && row[i].Allowed? && i !in mask
  }

  /** `next` answers every extension of the given mask by a worker below n. */
  ghost predicate Answered(states: Table, row: seq<Cost>, mask: set<nat>, n: nat, next: Table) {
    mask in states && forall i | 0 <= i < n && CanTake(row, mask, i) ::
      mask + {i} in next && StateLeq(next[mask + {i}], Extended(states[mask], row, i))
  }

  /** Extend one state by every worker it does not use yet. */
  method ExtendMask(rows: seq<seq<Cost>>, workers: nat, k: nat, states: Table, mask: set<nat>, before: Table) returns (next: Table)
    requires k < |rows| && |rows[k]| == workers && mask in states && Sound(rows, workers, k, states) && Sound(rows, workers, k + 1, before)
    ensures Sound(rows, workers, k + 1, next)
    ensures forall m | m in before :: m in next && StateLeq(next[m], before[m])
    ensures Answered(states, rows[k], mask, workers, next)
  {
    next := before;
    var row, state := rows[k], states[mask];
    for i := 0 to workers
      invariant Sound(rows, workers, k + 1, next)
      invariant forall m | m in before :: m in next && StateLeq(next[m], before[m])
      invariant Answered(states, row, mask, i, next)
    {
      if row[i].Allowed? && i !in mask {
        ghost var last := next;
        next := Offer(next, mask + {i}, Extended(state, row, i));
        OfferIsSound(rows, workers, k, states, mask, last, i);
        OfferKeeps(before, last, next);
        AnsweredKept(states, row, mask, i, last, next);
      }
    }
  }

  lemma OfferIsSound(rows: seq<seq<Cost>>, workers: nat, k: nat, states: Table, mask: set<nat>, table: Table, i: nat)
    requires k < |rows| && |rows[k]| == workers && mask in states && Sound(rows, workers, k, states) && Sound(rows, workers, k + 1, table)
    requires CanTake(rows[k], mask, i)
    ensures Sound(rows, workers, k + 1, Offer(table, mask + {i}, Extended(states[mask], rows[k], i)))
  {
    ExtendedIsState(rows, workers, states[mask].path, i);
  }

  lemma OfferKeeps(a: Table, b: Table, c: Table)
    requires forall m | m in a :: m in b && StateLeq(b[m], a[m])
    requires forall m | m in b :: m in c && StateLeq(c[m], b[m])
    ensures forall m | m in a :: m in c && StateLeq(c[m], a[m])
  {
    forall m | m in a ensures m in c && StateLeq(c[m], a[m]) {
      LeqTransitive(c[m], b[m], a[m]);
    }
  }

  lemma AnsweredKept(states: Table, row: seq<Cost>, mask: set<nat>, n: nat, b: Table, c: Table)
    requires Answered(states, row, mask, n, b)
    requires forall m | m in b :: m in c && StateLeq(c[m], b[m])
    ensures Answered(states, row, mask, n, c)
  {
    forall i | 0 <= i < n && CanTake(row, mask, i)
      ensures mask + {i} in c && StateLeq(c[mask + {i}], Extended(states[mask], row, i))
    {
      LeqTransitive(c[mask + {i}], b[mask + {i}], Extended(states[mask], row, i));
    }
  }

  /** Place one more batch, whatever the order in which the states are visited. */
  method PlaceBatch(rows: seq<seq<Cost>>, workers: nat, k: nat, states: Table) returns (next: Table)
    requires k < |rows| && |rows[k]| == workers && Sound(rows, workers, k, states)
    ensures Sound(rows, workers, k + 1, next)
    ensures Optimal(rows, workers, k, states) ==> Optimal(rows, workers, k + 1, next)
  {
    next := map[];
    var todo := states.Keys;
    while todo != {}
      invariant todo <= states.Keys && Sound(rows, workers, k + 1, next)
      invariant forall m | m in states && m !in todo :: Answered(states, rows[k], m, workers, next)
      decreases todo
    {
      var mask :| mask in todo;
      var last := next;
      next := ExtendMask(rows, workers, k, states, mask, last);
      forall m | m in states && m !in todo ensures Answered(states, rows[k], m, workers, next) {
        AnsweredKept(states, rows[k], m, workers, last, next);
      }
      todo := todo - {mask};
    }
    if Optimal(rows, workers, k, states) {
      forall p | |p| == k + 1 && Feasible(rows, workers, p)
        ensures Used(p) in next && StateLeq(next[Used(p)], StateOf(rows, workers, p))
      {
        LastStep(rows, workers, k, states, next, p);
      }
    }
  }

  /** Optimal substructure: the best way to place k batches on a set of workers extends to the best for k + 1. */
  lemma LastStep(rows: seq<seq<Cost>>, workers: nat, k: nat, states: Table, next: Table, p: seq<nat>)
    requires k < |rows| && |rows[k]| == workers && Sound(rows, workers, k, states) && Optimal(rows, workers, k, states)
    requires forall m | m in states :: Answered(states, rows[k], m, workers, next)
    requires |p| == k + 1 && Feasible(rows, workers, p)
    ensures Used(p) in next && StateLeq(next[Used(p)], StateOf(rows, workers, p))
  {
    var q, i := p[..k], p[k];
    assert p == q + [i];
    assert Feasible(rows, workers, q) && i !in Used(q);
    var mask := Used(q);
    ExtendedIsState(rows, workers, q, i);
    assert Answered(states, rows[k], mask, workers, next) && CanTake(rows[k], mask, i);
    ExtendedMonotone(states[mask], StateOf(rows, workers, q), rows[k], i);
    LeqTransitive(next[Used(p)], Extended(states[mask], rows[k], i), StateOf(rows, workers, p));
  }

  /** The least entry of a table. */
  method Cheapest(states: Table) returns (key: set<nat>)
    requires states != map[]
    ensures key in states && forall m | m in states :: StateLeq(states[key], states[m])
  {
    key :| key in states;
    var todo := states.Keys - {key};
    while todo != {}
      invariant key in states && key !in todo && todo <= states.Keys
      invariant forall m | m in states && m !in todo :: StateLeq(states[key], states[m])
      decreases todo
    {
      var m :| m in todo;
      todo := todo - {m};
      LeqTotal(states[key], states[m]);
      if StateLess(states[m], states[key]) {
        forall o | o in states && o !in todo ensures StateLeq(states[m], states[o]) {
          if o != m { LeqTransitive(states[m], states[key], states[o]); }
        }
        key := m;
      }
    }
  }

  /** With many workers only the 64 cheapest states survive a batch. */
  method Beam(states: Table) returns (kept: Table)
    requires |states| > BEAM_WIDTH
    ensures |kept| == BEAM_WIDTH
    ensures forall m | m in kept :: m in states && kept[m] == states[m]
    ensures forall m, o | m in kept && o in states && o !in kept :: StateLeq(states[m], states[o])
  {
    kept := map[];
    var rest := states;
    while |kept| < BEAM_WIDTH
      invariant |kept| <= BEAM_WIDTH && |kept| + |rest| == |states|
      invariant forall m | m in kept :: m in states && kept[m] == states[m] && m !in rest
      invariant forall m | m in states :: m in kept || m in rest
      invariant forall m | m in rest :: m in states && rest[m] == states[m]
      invariant forall m, o | m in kept && o in rest :: StateLeq(states[m], states[o])
      decreases BEAM_WIDTH - |kept|
    {
      var key := Cheapest(rest);
      kept := kept[key := rest[key]];
      assert (rest - {key}).Keys == rest.Keys - {key};
      rest := rest - {key};
    }
  }

  /**
   * The whole program for one partition. Up to eight workers it finds the cheapest injective assignment of the
   * batches to workers allowed to take them (the least by path among equals), and fails only if there is none;
   * beyond eight workers what it finds is still such an assignment, at the cost it reports.
   */
  method Assign(rows: seq<seq<Cost>>, workers: nat) returns (best: Option<State>)
    requires forall k | 0 <= k < |rows| :: |rows[k]| == workers
    ensures best.Some? ==>
              && |best.value.path| == |rows| && Feasible(rows, workers, best.value.path)
              && best.value == StateOf(rows, workers, best.value.path)
    ensures workers <= EXACT_WORKERS ==>
              forall p | |p| == |rows| && Feasible(rows, workers, p) ::
                best.Some? && StateLeq(best.value, StateOf(rows, workers, p))
  {
    var states: Table := map[{} := State(0.0, [])];
    assert Optimal(rows, workers, 0, states) by {
      forall p: seq<nat> | |p| == 0 ensures Used(p) == {} {}
    }
    for k := 0 to |rows|
      invariant Sound(rows, workers, k, states)
      invariant workers <= EXACT_WORKERS ==> Optimal(rows, workers, k, states)
    {
      var next := PlaceBatch(rows, workers, k, states);
      if workers > EXACT_WORKERS && |next| > BEAM_WIDTH {
        next := Beam(next);
      }
      states := next;
    }
    if states == map[] { return None; }
    var key := Cheapest(states);
    best := Some(states[key]);
    forall p | workers <= EXACT_WORKERS && |p| == |rows| && Feasible(rows, workers, p)
      ensures StateLeq(best.value, StateOf(rows, workers, p))
    {
      LeqTransitive(states[key], states[Used(p)], StateOf(rows, workers, p));
    }
  }
}
