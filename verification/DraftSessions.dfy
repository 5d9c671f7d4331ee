/** Draft sessions: a whole transaction is checked on simulated lengths before anything runs, and then it runs. */
module DraftSessions {
  import opened Sorting

  datatype Key = Key(id: string, epoch: nat)

  datatype Session = Session(row: int, length: nat)

  datatype Prefill = Prefill(key: Key, tokens: nat)

  datatype Decode = Decode(key: Key, expected: nat)

  datatype Crop = Crop(key: Key, expected: nat, target: nat)

  datatype Limits = Limits(rows: nat, maxBatch: nat, maxTokens: nat, capacity: nat)

  type Lengths = map<Key, nat>

  /** One session's length fence, and the length it gets. */
  datatype Step = Step(key: Key, expected: nat, next: nat)

  datatype Group = Crops(crops: seq<Crop>) | Decodes(decodes: seq<Decode>) | Prefills(prefills: seq<Prefill>) {
    function Steps(): (r: seq<Step>)
      ensures |r| == if Crops? then |crops| else if Decodes? then |decodes| else |prefills|
    {
      match this
      case Crops(items) => seq(|items|, i requires 0 <= i < |items| => Step(items[i].key, items[i].expected, items[i].target))
      case Decodes(items) => seq(|items|, i requires 0 <= i < |items| => Step(items[i].key, items[i].expected, items[i].expected + 1))
      case Prefills(items) => seq(|items|, i requires 0 <= i < |items| => Step(items[i].key, 0, items[i].tokens))
    }

    /** How many input tokens the forward pass of the group takes; a crop runs none. */
    function Tokens(): nat {
      match this
      case Crops(_) => 0
      case Decodes(items) => |items|
      case Prefills(items) => Sum(items, |items|)
    }

    function NewRows(): nat { if Prefills? then |prefills| else 0 }
  }

  function Sum(items: seq<Prefill>, n: nat): nat
    requires n <= |items|
  {
    if n == 0 then 0 else Sum(items, n - 1) + items[n - 1].tokens
  }

  predicate Distinct(steps: seq<Step>) {
    forall i, j | 0 <= i < j < |steps| :: steps[i].key != steps[j].key
  }

  /** Whether a step meets the session that it names, or the absence of one. */
  predicate StepOk(lim: Limits, gone: seq<Key>, s: Lengths, g: Group, t: Step) {
    && t.key !in gone && t.next <= lim.capacity
    && (g.Crops? ==> t.next <= t.expected) && (g.Prefills? ==> t.next > 0)
    && if g.Prefills? then t.key !in s else t.key in s && s[t.key] == t.expected
  }

  /** Everything that one group must meet but the row count. */
  predicate Allowed(lim: Limits, gone: seq<Key>, s: Lengths, g: Group) {
    && g.Steps() != [] && Distinct(g.Steps()) && |g.Steps()| <= lim.maxBatch && g.Tokens() <= lim.maxTokens
    && forall t | t in g.Steps() :: StepOk(lim, gone, s, g, t)
  }

  function After(s: Lengths, steps: seq<Step>): Lengths {
    if steps == [] then s
    else var n := |steps| - 1; After(s, steps[..n])[steps[n].key := steps[n].next]
  }

  lemma {:induction false} AfterKeys(s: Lengths, steps: seq<Step>)
    ensures forall k :: k in After(s, steps) <==> k in s || exists i | 0 <= i < |steps| :: steps[i].key == k
  {
    if steps != [] {
      var n := |steps| - 1;
      AfterKeys(s, steps[..n]);
      assert steps == steps[..n] + [steps[n]];
      forall k ensures k in After(s, steps) <==> k in s || exists i | 0 <= i < |steps| :: steps[i].key == k {
        if k == steps[n].key {
        } else if i :| 0 <= i < |steps| && steps[i].key == k {
          assert steps[..n][i].key == k;
        }
      }
    }
  }

  lemma {:induction false} AfterAt(s: Lengths, steps: seq<Step>, i: nat)
    requires Distinct(steps) && i < |steps|
    ensures steps[i].key in After(s, steps) && After(s, steps)[steps[i].key] == steps[i].next
  {
    var n := |steps| - 1;
    if i < n {
      assert Distinct(steps[..n]) && steps[..n][i] == steps[i];
      AfterAt(s, steps[..n], i);
    }
  }

  /** What executing groups one after another does, each with its own check. */
  datatype View = View(lengths: Lengths, free: nat)

  ghost predicate Runs(lim: Limits, gone: seq<Key>, v: View, groups: seq<Group>) {
    forall i | 0 <= i < |groups| :: AllowedAt(lim, gone, v.lengths, groups, i) && RowsAt(v, groups, i)
  }

  predicate RowsAt(v: View, groups: seq<Group>, i: nat)
    requires i < |groups|
  {
    NewRows(groups[..i + 1]) <= v.free
  }

  predicate AllowedAt(lim: Limits, gone: seq<Key>, s: Lengths, groups: seq<Group>, i: nat)
    requires i < |groups|
  {
    Allowed(lim, gone, LengthsAfter(s, groups[..i]), groups[i])
  }

  function LengthsAfter(s: Lengths, groups: seq<Group>): Lengths {
    if groups == [] then s
    else var n := |groups| - 1; After(LengthsAfter(s, groups[..n]), groups[n].Steps())
  }

  function NewRows(groups: seq<Group>): nat {
    if groups == [] then 0 else NewRows(groups[..|groups| - 1]) + groups[|groups| - 1].NewRows()
  }

  /** What the simulation decides: the groups in turn, on lengths only. */
  ghost predicate Simulated(lim: Limits, gone: seq<Key>, s: Lengths, groups: seq<Group>) {
    forall i | 0 <= i < |groups| :: AllowedAt(lim, gone, s, groups, i)
  }

  /** One row count before the new sessions decides what counting at every group would. */
  lemma RowsAtOnce(lim: Limits, gone: seq<Key>, v: View, groups: seq<Group>)
    ensures Runs(lim, gone, v, groups) <==> Simulated(lim, gone, v.lengths, groups) && NewRows(groups) <= v.free
  {
    if NewRows(groups) <= v.free {
      forall i | 0 <= i < |groups| ensures RowsAt(v, groups, i) { NewRowsGrow(groups, i + 1); }
    }
    if groups != [] && Runs(lim, gone, v, groups) {
      var n := |groups| - 1;
      assert groups[..n + 1] == groups && RowsAt(v, groups, n);
    }
  }

  lemma {:induction false} NewRowsGrow(groups: seq<Group>, i: nat)
    requires i <= |groups|
    ensures NewRows(groups[..i]) <= NewRows(groups)
  {
    var n := |groups| - 1;
    if i <= n {
      assert groups[..n][..i] == groups[..i];
      NewRowsGrow(groups[..n], i);
    } else {
      assert groups[..i] == groups;
    }
  }

  lemma {:induction false} BothAfter(s: Lengths, a: seq<Group>, b: seq<Group>)
    ensures LengthsAfter(s, a + b) == LengthsAfter(LengthsAfter(s, a), b)
    ensures NewRows(a + b) == NewRows(a) + NewRows(b)
  {
    if b == [] {
      assert a + b == a;
    } else {
      var n := |b| - 1;
      BothAfter(s, a, b[..n]);
      assert (a + b)[..|a + b| - 1] == a + b[..n];
    }
  }

  lemma SimulatedBoth(lim: Limits, gone: seq<Key>, s: Lengths, a: seq<Group>, b: seq<Group>)
    ensures Simulated(lim, gone, s, a + b) <==> Simulated(lim, gone, s, a) && Simulated(lim, gone, LengthsAfter(s, a), b)
  {
    var all, mid := a + b, LengthsAfter(s, a);
    forall i | 0 <= i < |a| ensures AllowedAt(lim, gone, s, all, i) == AllowedAt(lim, gone, s, a, i) {
      assert all[..i] == a[..i];
    }
    forall i | 0 <= i < |b| ensures AllowedAt(lim, gone, s, all, |a| + i) == AllowedAt(lim, gone, mid, b, i) {
      assert all[..|a| + i] == a + b[..i];
      BothAfter(s, a, b[..i]);
    }
    forall i | |a| <= i < |all| ensures AllowedAt(lim, gone, s, all, i) == AllowedAt(lim, gone, mid, b, i - |a|) {
      assert all[..i] == a + b[..i - |a|];
      BothAfter(s, a, b[..i - |a|]);
    }
  }

  lemma {:induction false} NoNewRows(groups: seq<Group>)
    requires forall g | g in groups :: !g.Prefills?
    ensures NewRows(groups) == 0
  {
    if groups != [] { NoNewRows(groups[..|groups| - 1]); }
  }

  /** Crops and decodes bring no session and end none. */
  lemma {:induction false} LiveKeepsKeys(lim: Limits, gone: seq<Key>, s: Lengths, groups: seq<Group>)
    requires Simulated(lim, gone, s, groups) && forall g | g in groups :: !g.Prefills?
    ensures LengthsAfter(s, groups).Keys == s.Keys
  {
    if groups != [] {
      var n := |groups| - 1;
      assert groups == groups[..n] + [groups[n]];
      SimulatedBoth(lim, gone, s, groups[..n], [groups[n]]);
      LiveKeepsKeys(lim, gone, s, groups[..n]);
      var before, steps := LengthsAfter(s, groups[..n]), groups[n].Steps();
      assert AllowedAt(lim, gone, s, groups, n);
      AfterKeys(before, steps);
      forall i | 0 <= i < |steps| ensures steps[i].key in before { assert steps[i] in steps; }
    }
  }

  lemma {:induction false} SameKeysAfter(s: Lengths, t: Lengths, groups: seq<Group>)
    requires s.Keys == t.Keys
    ensures LengthsAfter(s, groups).Keys == LengthsAfter(t, groups).Keys
  {
    if groups != [] {
      var n := |groups| - 1;
      SameKeysAfter(s, t, groups[..n]);
      AfterKeys(LengthsAfter(s, groups[..n]), groups[n].Steps());
      AfterKeys(LengthsAfter(t, groups[..n]), groups[n].Steps());
    }
  }

  /** Whether new sessions are allowed depends on which keys are live and not on their lengths. */
  lemma PrefillsAnywhere(lim: Limits, gone: seq<Key>, s: Lengths, t: Lengths, groups: seq<Group>)
    requires s.Keys == t.Keys && forall g | g in groups :: g.Prefills?
    ensures Simulated(lim, gone, s, groups) <==> Simulated(lim, gone, t, groups)
  {
    forall i | 0 <= i < |groups| ensures AllowedAt(lim, gone, s, groups, i) == AllowedAt(lim, gone, t, groups, i) {
      SameKeysAfter(s, t, groups[..i]);
      SameAllowed(lim, gone, LengthsAfter(s, groups[..i]), LengthsAfter(t, groups[..i]), groups[i]);
    }
  }

  lemma SameAllowed(lim: Limits, gone: seq<Key>, s: Lengths, t: Lengths, g: Group)
    requires s.Keys == t.Keys && g.Prefills?
    ensures Allowed(lim, gone, s, g) == Allowed(lim, gone, t, g)
  {
    forall x | x in g.Steps() ensures StepOk(lim, gone, s, g, x) == StepOk(lim, gone, t, g, x) {
      assert x.key in s.Keys <==> x.key in t.Keys;
    }
  }

  // ---- The loops ----

  /** The checks of one group. */
  method Check(lim: Limits, gone: seq<Key>, s: Lengths, g: Group) returns (ok: bool)
    ensures ok == Allowed(lim, gone, s, g)
  {
    var steps := g.Steps();
    if steps == [] || |steps| > lim.maxBatch || g.Tokens() > lim.maxTokens { return false; }
    var seen: set<Key> := {};
    for i := 0 to |steps|
      invariant seen == set j | 0 <= j < i :: steps[j].key
      invariant forall j | 0 <= j < i :: StepOk(lim, gone, s, g, steps[j])
      invariant forall j, k | 0 <= j < k < i :: steps[j].key != steps[k].key
    {
      if steps[i].key in seen || !StepOk(lim, gone, s, g, steps[i]) { return false; }
      seen := seen + {steps[i].key};
    }
    ok := true;
  }

  method Advance(s: Lengths, steps: seq<Step>) returns (now: Lengths)
    ensures now == After(s, steps)
  {
    now := s;
    for i := 0 to |steps|
      invariant now == After(s, steps[..i])
    {
      assert steps[..i + 1][..i] == steps[..i];
      now := now[steps[i].key := steps[i].next];
    }
    assert steps[..|steps|] == steps;
  }

  method Simulate(lim: Limits, gone: seq<Key>, s: Lengths, groups: seq<Group>) returns (ok: bool, now: Lengths)
    ensures ok == Simulated(lim, gone, s, groups)
    ensures ok ==> now == LengthsAfter(s, groups)
  {
    now := s;
    for i := 0 to |groups|
      invariant SimulatedTo(lim, gone, s, groups, i, now)
    {
      ok, now := SimulateOne(lim, gone, s, groups, i, now);
      if !ok { return; }
    }
    Whole(s, groups);
    ok := true;
  }

  lemma Whole(s: Lengths, groups: seq<Group>)
    ensures LengthsAfter(s, groups[..|groups|]) == LengthsAfter(s, groups)
  {
    assert groups[..|groups|] == groups;
  }

  /** The first n groups were allowed in their turn, and these are the lengths after them. */
  ghost predicate SimulatedTo(lim: Limits, gone: seq<Key>, s: Lengths, groups: seq<Group>, n: nat, now: Lengths) {
    n <= |groups| && now == LengthsAfter(s, groups[..n]) && forall i | 0 <= i < n :: AllowedAt(lim, gone, s, groups, i)
  }

  method SimulateOne(lim: Limits, gone: seq<Key>, ghost s: Lengths, groups: seq<Group>, i: nat, now: Lengths) returns (ok: bool, next: Lengths)
    requires i < |groups| && SimulatedTo(lim, gone, s, groups, i, now)
    ensures ok ==> SimulatedTo(lim, gone, s, groups, i + 1, next)
    ensures !ok ==> !Simulated(lim, gone, s, groups)
  {
    OneMore(s, groups, i);
    ok := Check(lim, gone, now, groups[i]);
    assert ok == AllowedAt(lim, gone, s, groups, i);
    next := Advance(now, groups[i].Steps());
  }

  /** Rows of the sessions and free rows are all rows, each once. */
  ghost predicate RowsOk(rows: nat, free: seq<int>, sessions: map<Key, Session>) {
    && NoDup(free) && |free| + |sessions| == rows && (forall r | r in free :: 0 <= r < rows)
    && (forall k | k in sessions :: 0 <= sessions[k].row < rows && sessions[k].row !in free)
    && forall j, k | j in sessions && k in sessions && j != k :: sessions[j].row != sessions[k].row
  }

  function LengthsOf(sessions: map<Key, Session>): Lengths {
    map k | k in sessions :: sessions[k].length
  }

  class Adapter {
    const lim: Limits
    const replay: nat
    var sessions: map<Key, Session>
    var free: seq<int>
    var released: seq<Key>

    ghost predicate Valid()
      reads this
    {
      && RowsOk(lim.rows, free, sessions) && replay > 0 && NoDup(released) && |released| <= replay
      && (forall k | k in sessions :: k !in released && sessions[k].length <= lim.capacity)
    }

    ghost function Now(): View
      reads this
    {
      View(LengthsOf(sessions), |free|)
    }

    constructor (lim: Limits, replay: nat)
      requires replay > 0
      ensures Valid() && this.lim == lim && this.replay == replay && sessions == map[] && |free| == lim.rows && released == []
    {
      this.lim, this.replay := lim, replay;
      sessions, released := map[], [];
      free := seq(lim.rows, i requires 0 <= i < lim.rows => lim.rows - 1 - i);
      new;
      NoDupByIndex(free);
    }

    /** preflight_batch: crops, then decodes, then new sessions, all on simulated lengths. */
    method Preflight(crops: seq<seq<Crop>>, decodes: seq<seq<Decode>>, prefills: seq<seq<Prefill>>) returns (ok: bool)
      ensures ok <==> Plan(crops, decodes, prefills) != [] && Runs(lim, released, Now(), Plan(crops, decodes, prefills))
    {
      var live, news := LiveGroups(crops, decodes), PrefillGroups(prefills);
      ghost var all := live + news;
      RowsAtOnce(lim, released, Now(), all);
      SimulatedBoth(lim, released, Now().lengths, live, news);
      BothAfter(Now().lengths, live, news);
      NoNewRows(live);
      if live + news == [] { return false; }
      var now: Lengths;
      ok, now := Simulate(lim, released, LengthsOf(sessions), live);
      if !ok || NewRows(news) > |free| { return false; }
      ok, now := Simulate(lim, released, now, news);
    }

    /** decode_batch and crop_batch on live sessions. */
    method RunLive(g: Group) returns (ok: bool)
      requires Valid() && !g.Prefills?
      modifies `sessions
      ensures Valid() && ok == old(Allowed(lim, released, LengthsOf(sessions), g))
      ensures LengthsOf(sessions) == if ok then After(old(LengthsOf(sessions)), g.Steps()) else old(LengthsOf(sessions))
      ensures sessions.Keys == old(sessions.Keys) && forall k | k in sessions :: sessions[k].row == old(sessions)[k].row
    {
      ok := Check(lim, released, LengthsOf(sessions), g);
      if ok { SetLengths(g.Steps(), g); }
    }

    method SetLengths(steps: seq<Step>, ghost g: Group)
      requires Valid() && Distinct(steps) && !g.Prefills? && forall t | t in steps :: StepOk(lim, released, LengthsOf(sessions), g, t)
      modifies `sessions
      ensures Valid() && LengthsOf(sessions) == After(old(LengthsOf(sessions)), steps)
      ensures sessions.Keys == old(sessions.Keys) && forall k | k in sessions :: sessions[k].row == old(sessions)[k].row
    {
      ghost var start := LengthsOf(sessions);
      for i := 0 to |steps|
        invariant Valid() && LengthsOf(sessions) == After(start, steps[..i])
        invariant sessions.Keys == old(sessions.Keys) && forall k | k in sessions :: sessions[k].row == old(sessions)[k].row
      {
        assert steps[..i + 1][..i] == steps[..i] && StepOk(lim, released, start, g, steps[i]);
        SetLength(steps[i].key, steps[i].next);
      }
      assert steps[..|steps|] == steps;
    }

    method SetLength(k: Key, length: nat)
      requires Valid() && k in sessions && length <= lim.capacity
      modifies `sessions
      ensures Valid() && LengthsOf(sessions) == old(LengthsOf(sessions))[k := length]
      ensures sessions.Keys == old(sessions.Keys) && forall j | j in sessions :: sessions[j].row == old(sessions)[j].row
    {
      assert LengthsOf(sessions[k := Session(sessions[k].row, length)]) == LengthsOf(sessions)[k := length];
      assert sessions[k := Session(sessions[k].row, length)].Keys == sessions.Keys;
      sessions := sessions[k := Session(sessions[k].row, length)];
    }

    /** prefill_batch: each new session takes the row last freed. */
    method RunPrefill(items: seq<Prefill>) returns (ok: bool)
      requires Valid()
      modifies `sessions, `free
      ensures Valid() && ok == old(Allowed(lim, released, LengthsOf(sessions), Prefills(items)) && |items| <= |free|)
      ensures !ok ==> sessions == old(sessions) && free == old(free)
      ensures ok ==> LengthsOf(sessions) == After(old(LengthsOf(sessions)), Prefills(items).Steps()) && |free| == old(|free|) - |items|
    {
      ok := Check(lim, released, LengthsOf(sessions), Prefills(items));
      if !ok || |items| > |free| { return false; }
      OpenAll(items, Prefills(items).Steps());
    }

    method OpenAll(items: seq<Prefill>, ghost steps: seq<Step>)
      requires Valid() && Distinct(steps) && |items| <= |free| && |steps| == |items|
      requires forall i | 0 <= i < |items| :: steps[i].key == items[i].key && steps[i].next == items[i].tokens
      requires forall t | t in steps :: StepOk(lim, released, LengthsOf(sessions), Prefills(items), t)
      modifies `sessions, `free
      ensures Valid() && LengthsOf(sessions) == After(old(LengthsOf(sessions)), steps) && |free| == old(|free|) - |items|
    {
      ghost var start := LengthsOf(sessions);
      for i := 0 to |items|
        invariant Valid() && LengthsOf(sessions) == After(start, steps[..i]) && |free| == old(|free|) - i
      {
        assert StepOk(lim, released, start, Prefills(items), steps[i]);
        NewKey(start, steps, i);
        Open(items[i]);
      }
      assert steps[..|steps|] == steps;
    }

    method Open(item: Prefill)
      requires Valid() && free != [] && item.key !in sessions && item.key !in released && item.tokens <= lim.capacity
      modifies `sessions, `free
      ensures Valid() && LengthsOf(sessions) == old(LengthsOf(sessions))[item.key := item.tokens] && |free| == old(|free|) - 1
    {
      TakeRow(lim.rows, free, sessions, item.key, item.tokens);
      assert LengthsOf(sessions[item.key := Session(free[|free| - 1], item.tokens)]) == LengthsOf(sessions)[item.key := item.tokens];
      sessions, free := sessions[item.key := Session(free[|free| - 1], item.tokens)], free[..|free| - 1];
    }

    /** One group, with the check of its own call. */
    method RunGroup(g: Group) returns (ok: bool)
      requires Valid()
      modifies `sessions, `free
      ensures Valid() && ok == old(Allowed(lim, released, LengthsOf(sessions), g) && g.NewRows() <= |free|)
      ensures Now() == if ok then old(View(After(LengthsOf(sessions), g.Steps()), |free| - g.NewRows())) else old(Now())
    {
      if g.Prefills? { ok := RunPrefill(g.prefills); } else { ok := RunLive(g); }
    }

    /** Preflight first and the groups after it: everything happens, or nothing does. No group is refused half way. */
    method Transaction(crops: seq<seq<Crop>>, decodes: seq<seq<Decode>>, prefills: seq<seq<Prefill>>) returns (ok: bool)
      requires Valid()
      modifies `sessions, `free
      ensures Valid()
      ensures ok <==> Plan(crops, decodes, prefills) != [] && old(Runs(lim, released, Now(), Plan(crops, decodes, prefills)))
      ensures !ok ==> sessions == old(sessions) && free == old(free)
      ensures ok ==>
                var groups := Plan(crops, decodes, prefills);
                Now().lengths == LengthsAfter(old(Now()).lengths, groups) && Now().free + NewRows(groups) == old(Now()).free
      ensures ok ==> Finally(old(Now()).lengths, crops, decodes, prefills, Now().lengths)
    {
      ok := Preflight(crops, decodes, prefills);
      if !ok { return; }
      RowsAtOnce(lim, released, Now(), Plan(crops, decodes, prefills));
      PlanFinally(lim, released, Now().lengths, crops, decodes, prefills);
      RunAll(Plan(crops, decodes, prefills));
    }

    /** Groups that pass as a run are executed one by one, and none is refused. */
    method RunAll(groups: seq<Group>)
      requires Valid() && Runs(lim, released, Now(), groups)
      modifies `sessions, `free
      ensures Valid() && Now().lengths == LengthsAfter(old(Now()).lengths, groups) && Now().free + NewRows(groups) == old(Now()).free
    {
      ghost var start := Now();
      for i := 0 to |groups|
        invariant Valid() && NewRows(groups[..i]) <= start.free
        invariant Now() == View(LengthsAfter(start.lengths, groups[..i]), start.free - NewRows(groups[..i]))
      {
        assert AllowedAt(lim, released, start.lengths, groups, i) && RowsAt(start, groups, i);
        OneMore(start.lengths, groups, i);
        var done := RunGroup(groups[i]);
        assert done;
      }
      assert groups[..|groups|] == groups;
    }

    /** release_batch: a replay of a whole release is accepted and changes nothing. */
    method Release(keys: seq<Key>) returns (ok: bool)
      requires Valid()
      modifies `sessions, `free, `released
      ensures Valid()
      ensures ok <==> keys != [] && NoDup(keys) && old((forall k | k in keys :: k in released) || forall k | k in keys :: k in sessions)
      ensures !ok || old(forall k | k in keys :: k in released) ==> sessions == old(sessions) && free == old(free) && released == old(released)
      ensures ok && old(exists k :: k in keys && k in sessions) ==>
                && (forall k :: k in sessions <==> k in old(sessions) && k !in keys) && (forall k | k in sessions :: sessions[k] == old(sessions)[k])
                && |free| == old(|free|) + |keys| && released == Newest(old(released) + keys, replay)
    {
      if keys == [] { return false; }
      var distinct := CheckDistinct(keys);
      if !distinct { return false; }
      if forall k | k in keys :: k in released { return true; }
      if exists k | k in keys :: k !in sessions { return false; }
      ReleasedNoDup(released, keys, replay);
      CloseAll(keys);
      released := Newest(released + keys, replay);
      ok := true;
    }

    method CloseAll(keys: seq<Key>)
      requires RowsOk(lim.rows, free, sessions) && NoDup(keys) && forall k | k in keys :: k in sessions
      modifies `sessions, `free
      ensures RowsOk(lim.rows, free, sessions) && |free| == old(|free|) + |keys|
      ensures Closed(old(sessions), sessions, keys)
    {
      for i := 0 to |keys|
        invariant RowsOk(lim.rows, free, sessions) && |free| == old(|free|) + i && Closed(old(sessions), sessions, keys[..i])
      {
        FirstHere(keys, i);
        ClosedMore(old(sessions), sessions, keys, i);
        Close(keys[i]);
      }
      WholeKeys(keys);
    }

    method Close(k: Key)
      requires RowsOk(lim.rows, free, sessions) && k in sessions
      modifies `sessions, `free
      ensures RowsOk(lim.rows, free, sessions) && sessions == old(sessions) - {k} && |free| == old(|free|) + 1
    {
      GiveRow(lim.rows, free, sessions, k);
      free, sessions := free + [sessions[k].row], sessions - {k};
    }

    method CheckDistinct(keys: seq<Key>) returns (ok: bool)
      ensures ok == NoDup(keys)
    {
      for i := 0 to |keys|
        invariant NoDup(keys[..i])
      {
        assert keys == keys[..i + 1] + keys[i + 1..] && keys[..i + 1] == keys[..i] + [keys[i]];
        NoDupSplit(keys[..i + 1], keys[i + 1..]);
        NoDupSplit(keys[..i], [keys[i]]);
        if keys[i] in keys[..i] {
          assert keys[i] in [keys[i]];
          return false;
        }
      }
      assert keys[..|keys|] == keys;
      ok := true;
    }
  }

  /** A release is remembered for its replay exactly when it is no larger than the memory for replays. */
  method ReleaseTwice(a: Adapter, keys: seq<Key>) returns (once: bool, twice: bool)
    requires a.Valid() && keys != [] && NoDup(keys) && forall k | k in keys :: k in a.sessions
    modifies a
    ensures a.Valid() && once && (twice <==> |keys| <= a.replay)
    ensures |a.free| == old(|a.free|) + |keys|
  {
    assert keys[0] in keys && keys[0] in a.sessions && keys[0] !in a.released;
    once := a.Release(keys);
    NewestHolds(old(a.released), keys, a.replay);
    assert forall k | k in keys :: k !in a.sessions;
    twice := a.Release(keys);
  }

  // ---- The plan of a transaction ----

  function LiveGroups(crops: seq<seq<Crop>>, decodes: seq<seq<Decode>>): (groups: seq<Group>)
    ensures forall g | g in groups :: !g.Prefills?
  {
    seq(|crops|, i requires 0 <= i < |crops| => Crops(crops[i])) + seq(|decodes|, i requires 0 <= i < |decodes| => Decodes(decodes[i]))
  }

  function PrefillGroups(prefills: seq<seq<Prefill>>): (groups: seq<Group>)
    ensures forall g | g in groups :: g.Prefills?
  {
    seq(|prefills|, i requires 0 <= i < |prefills| => Prefills(prefills[i]))
  }

  function Plan(crops: seq<seq<Crop>>, decodes: seq<seq<Decode>>, prefills: seq<seq<Prefill>>): seq<Group> {
    LiveGroups(crops, decodes) + PrefillGroups(prefills)
  }

  /** The last n of the keys, as the memory for replays keeps them. */
  function Newest(keys: seq<Key>, n: nat): seq<Key> {
    if |keys| <= n then keys else keys[|keys| - n..]
  }

  // ---- The lengths that a transaction leaves ----

  predicate DecodesKey(items: seq<Decode>, k: Key) { exists i | 0 <= i < |items| :: items[i].key == k }

  /** How many of the decode groups name the session: each makes it one token longer. */
  function TimesDecoded(decodes: seq<seq<Decode>>, k: Key): nat {
    if decodes == [] then 0
    else TimesDecoded(decodes[..|decodes| - 1], k) + if DecodesKey(decodes[|decodes| - 1], k) then 1 else 0
  }

  /** The length is where the last crop of the session cut it; uncropped it is what it was. */
  ghost predicate CroppedTo(crops: seq<seq<Crop>>, k: Key, before: nat, length: nat) {
    if exists g, i :: CropsKey(crops, g, i, k) then exists g, i :: LastCrop(crops, g, i, k) && length == crops[g][i].target
    else length == before
  }

  predicate CropsKey(crops: seq<seq<Crop>>, g: int, i: int, k: Key) { 0 <= g < |crops| && 0 <= i < |crops[g]| && crops[g][i].key == k }

  predicate LastCrop(crops: seq<seq<Crop>>, g: int, i: int, k: Key) {
    CropsKey(crops, g, i, k) && forall h | g < h < |crops| :: forall j | 0 <= j < |crops[h]| :: crops[h][j].key != k
  }

  predicate PrefillsKey(prefills: seq<seq<Prefill>>, g: int, i: int, k: Key) {
    0 <= g < |prefills| && 0 <= i < |prefills[g]| && prefills[g][i].key == k
  }

  ghost predicate OpensKey(prefills: seq<seq<Prefill>>, k: Key) { exists g, i :: PrefillsKey(prefills, g, i, k) }

  /** Live sessions are cropped and then lengthened; new ones have the length of their prompt; there are no others. */
  ghost predicate Finally(s: Lengths, crops: seq<seq<Crop>>, decodes: seq<seq<Decode>>, prefills: seq<seq<Prefill>>, t: Lengths) {
    && (forall k :: k in t <==> k in s || OpensKey(prefills, k))
    && (forall k | k in s :: Lengthened(s, crops, decodes, k, t))
    && forall g, i, k | PrefillsKey(prefills, g, i, k) :: k !in s && k in t && t[k] == prefills[g][i].tokens
  }

  function CropGroups(crops: seq<seq<Crop>>): seq<Group> {
    seq(|crops|, i requires 0 <= i < |crops| => Crops(crops[i]))
  }

  function DecodeGroups(decodes: seq<seq<Decode>>): seq<Group> {
    seq(|decodes|, i requires 0 <= i < |decodes| => Decodes(decodes[i]))
  }

  lemma {:induction false} AfterElse(s: Lengths, steps: seq<Step>, k: Key)
    requires forall i | 0 <= i < |steps| :: steps[i].key != k
    ensures k in After(s, steps) <==> k in s
    ensures k in s ==> After(s, steps)[k] == s[k]
  {
    if steps != [] { AfterElse(s, steps[..|steps| - 1], k); }
  }

  /** The last of some groups is allowed after the others. */
  lemma LastAllowed(lim: Limits, gone: seq<Key>, s: Lengths, groups: seq<Group>)
    requires groups != [] && Simulated(lim, gone, s, groups)
    ensures var n := |groups| - 1;
            && Simulated(lim, gone, s, groups[..n]) && Allowed(lim, gone, LengthsAfter(s, groups[..n]), groups[n])
            && forall i | 0 <= i < |groups[n].Steps()| :: StepOk(lim, gone, LengthsAfter(s, groups[..n]), groups[n], groups[n].Steps()[i])
  {
    var n := |groups| - 1;
    assert groups == groups[..n] + [groups[n]];
    SimulatedBoth(lim, gone, s, groups[..n], [groups[n]]);
    assert AllowedAt(lim, gone, s, groups, n);
    var steps := groups[n].Steps();
    forall i | 0 <= i < |steps| ensures StepOk(lim, gone, LengthsAfter(s, groups[..n]), groups[n], steps[i]) {
      assert steps[i] in steps;
    }
  }

  lemma {:induction false} CropsCut(lim: Limits, gone: seq<Key>, s: Lengths, crops: seq<seq<Crop>>, k: Key)
    requires Simulated(lim, gone, s, CropGroups(crops)) && k in s
    ensures k in LengthsAfter(s, CropGroups(crops)) && CroppedTo(crops, k, s[k], LengthsAfter(s, CropGroups(crops))[k])
  {
    if crops != [] {
      var n, groups := |crops| - 1, CropGroups(crops);
      LastAllowed(lim, gone, s, groups);
      assert groups[..n] == CropGroups(crops[..n]) && crops == crops[..n] + [crops[n]];
      CropsCut(lim, gone, s, crops[..n], k);
      CutMore(s[k], LengthsAfter(s, groups[..n]), crops[..n], crops[n], k);
    }
  }

  lemma CutMore(before: nat, t: Lengths, fewer: seq<seq<Crop>>, last: seq<Crop>, k: Key)
    requires k in t && CroppedTo(fewer, k, before, t[k]) && Distinct(Crops(last).Steps())
    ensures k in After(t, Crops(last).Steps()) && CroppedTo(fewer + [last], k, before, After(t, Crops(last).Steps())[k])
  {
    var steps, crops := Crops(last).Steps(), fewer + [last];
    if i :| 0 <= i < |last| && last[i].key == k {
      AfterAt(t, steps, i);
      assert steps[i].key == k && LastCrop(crops, |fewer|, i, k);
    } else {
      AfterElse(t, steps, k);
      CropsBefore(fewer, last, k, before, t[k]);
    }
  }

  /** A last group without the session does not matter for where the session is cut. */
  lemma CropsBefore(fewer: seq<seq<Crop>>, last: seq<Crop>, k: Key, before: nat, length: nat)
    requires CroppedTo(fewer, k, before, length) && forall i | 0 <= i < |last| :: last[i].key != k
    ensures CroppedTo(fewer + [last], k, before, length)
  {
    var crops := fewer + [last];
    assert forall g, i :: CropsKey(crops, g, i, k) <==> CropsKey(fewer, g, i, k);
    forall g, i | LastCrop(fewer, g, i, k) ensures LastCrop(crops, g, i, k) && crops[g][i] == fewer[g][i] {
      assert CropsKey(fewer, g, i, k);
    }
  }

  lemma {:induction false} DecodesLengthen(lim: Limits, gone: seq<Key>, s: Lengths, decodes: seq<seq<Decode>>, k: Key)
    requires Simulated(lim, gone, s, DecodeGroups(decodes)) && k in s
    ensures k in LengthsAfter(s, DecodeGroups(decodes))
    ensures LengthsAfter(s, DecodeGroups(decodes))[k] == s[k] + TimesDecoded(decodes, k)
  {
    if decodes != [] {
      var n, groups := |decodes| - 1, DecodeGroups(decodes);
      LastAllowed(lim, gone, s, groups);
      assert groups[..n] == DecodeGroups(decodes[..n]);
      DecodesLengthen(lim, gone, s, decodes[..n], k);
      OneLonger(lim, gone, LengthsAfter(s, groups[..n]), decodes[n], k);
    }
  }

  /** A decode makes the sessions that it names one token longer. */
  lemma OneLonger(lim: Limits, gone: seq<Key>, t: Lengths, items: seq<Decode>, k: Key)
    requires Allowed(lim, gone, t, Decodes(items)) && k in t
    ensures k in After(t, Decodes(items).Steps())
    ensures After(t, Decodes(items).Steps())[k] == t[k] + if DecodesKey(items, k) then 1 else 0
  {
    var g := Decodes(items);
    var steps := g.Steps();
    if i :| 0 <= i < |items| && items[i].key == k {
      AfterAt(t, steps, i);
      assert steps[i] in steps && StepOk(lim, gone, t, g, steps[i]);
    } else {
      AfterElse(t, steps, k);
    }
  }

  /** New sessions are the named ones, each with the tokens of its prompt; the live ones stay as they are. */
  ghost predicate Opened(s: Lengths, prefills: seq<seq<Prefill>>, t: Lengths) {
    && (forall k :: k in t <==> k in s || OpensKey(prefills, k))
    && (forall k | k in s :: k in t && t[k] == s[k])
    && forall g, i, k | PrefillsKey(prefills, g, i, k) :: k !in s && k in t && t[k] == prefills[g][i].tokens
  }

  lemma {:induction false} PrefillsOpen(lim: Limits, gone: seq<Key>, s: Lengths, prefills: seq<seq<Prefill>>)
    requires Simulated(lim, gone, s, PrefillGroups(prefills))
    ensures Opened(s, prefills, LengthsAfter(s, PrefillGroups(prefills)))
  {
    if prefills != [] {
      var n, groups := |prefills| - 1, PrefillGroups(prefills);
      LastAllowed(lim, gone, s, groups);
      assert groups[..n] == PrefillGroups(prefills[..n]);
      PrefillsOpen(lim, gone, s, prefills[..n]);
      OpenedMore(lim, gone, s, prefills, LengthsAfter(s, groups[..n]));
    }
  }

  lemma OpenedMore(lim: Limits, gone: seq<Key>, s: Lengths, prefills: seq<seq<Prefill>>, t: Lengths)
    requires prefills != [] && Opened(s, prefills[..|prefills| - 1], t) && Allowed(lim, gone, t, Prefills(prefills[|prefills| - 1]))
    ensures Opened(s, prefills, After(t, Prefills(prefills[|prefills| - 1]).Steps()))
  {
    var n, fewer := |prefills| - 1, prefills[..|prefills| - 1];
    var g := Prefills(prefills[n]);
    var steps, now := g.Steps(), After(t, g.Steps());
    AfterKeys(t, steps);
    forall k | k in t ensures now[k] == t[k] {
      forall i | 0 <= i < |steps| ensures steps[i].key != k { assert steps[i] in steps && StepOk(lim, gone, t, g, steps[i]); }
      AfterElse(t, steps, k);
    }
    forall h, i, k | PrefillsKey(prefills, h, i, k) ensures k !in s && k in now && now[k] == prefills[h][i].tokens {
      if h < n {
        assert PrefillsKey(fewer, h, i, k);
      } else {
        AfterAt(t, steps, i);
        assert steps[i] in steps && StepOk(lim, gone, t, g, steps[i]);
      }
    }
    forall k ensures k in now <==> k in s || OpensKey(prefills, k) {
      if k in t && k !in s {
        assert OpensKey(fewer, k);
        var h, i :| PrefillsKey(fewer, h, i, k);
        assert PrefillsKey(prefills, h, i, k);
      } else if i :| 0 <= i < |steps| && steps[i].key == k {
        assert PrefillsKey(prefills, n, i, k);
      }
    }
  }

  /** A plan that passes cuts, then lengthens, then opens sessions, and nothing else. */
  lemma PlanFinally(lim: Limits, gone: seq<Key>, s: Lengths, crops: seq<seq<Crop>>, decodes: seq<seq<Decode>>, prefills: seq<seq<Prefill>>)
    requires Simulated(lim, gone, s, Plan(crops, decodes, prefills))
    ensures Finally(s, crops, decodes, prefills, LengthsAfter(s, Plan(crops, decodes, prefills)))
  {
    var a, b, c := CropGroups(crops), DecodeGroups(decodes), PrefillGroups(prefills);
    assert Plan(crops, decodes, prefills) == a + b + c;
    SimulatedBoth(lim, gone, s, a + b, c);
    SimulatedBoth(lim, gone, s, a, b);
    BothAfter(s, a + b, c);
    BothAfter(s, a, b);
    LiveFinally(lim, gone, s, crops, decodes);
    LiveKeepsKeys(lim, gone, s, a + b);
    PrefillsOpen(lim, gone, LengthsAfter(s, a + b), prefills);
    OpenedFinally(s, crops, decodes, prefills, LengthsAfter(s, a + b), LengthsAfter(s, a + b + c));
  }

  ghost predicate Lengthened(s: Lengths, crops: seq<seq<Crop>>, decodes: seq<seq<Decode>>, k: Key, t: Lengths) {
    k in s && k in t && TimesDecoded(decodes, k) <= t[k] && CroppedTo(crops, k, s[k], t[k] - TimesDecoded(decodes, k))
  }

  lemma LiveFinally(lim: Limits, gone: seq<Key>, s: Lengths, crops: seq<seq<Crop>>, decodes: seq<seq<Decode>>)
    requires Simulated(lim, gone, s, CropGroups(crops)) && Simulated(lim, gone, LengthsAfter(s, CropGroups(crops)), DecodeGroups(decodes))
    ensures forall k | k in s :: Lengthened(s, crops, decodes, k, LengthsAfter(s, CropGroups(crops) + DecodeGroups(decodes)))
  {
    BothAfter(s, CropGroups(crops), DecodeGroups(decodes));
    forall k | k in s ensures Lengthened(s, crops, decodes, k, LengthsAfter(s, CropGroups(crops) + DecodeGroups(decodes))) {
      CropsCut(lim, gone, s, crops, k);
      DecodesLengthen(lim, gone, LengthsAfter(s, CropGroups(crops)), decodes, k);
    }
  }

  lemma OpenedFinally(s: Lengths, crops: seq<seq<Crop>>, decodes: seq<seq<Decode>>, prefills: seq<seq<Prefill>>, live: Lengths, t: Lengths)
    requires live.Keys == s.Keys && Opened(live, prefills, t) && forall k | k in s :: Lengthened(s, crops, decodes, k, live)
    ensures Finally(s, crops, decodes, prefills, t)
  {
    assert forall k :: k in live <==> k in live.Keys;
    forall k | k in s ensures Lengthened(s, crops, decodes, k, t) {
      assert Lengthened(s, crops, decodes, k, live);
    }
  }

  // ---- Small facts ----

  lemma OneMore(s: Lengths, groups: seq<Group>, i: nat)
    requires i < |groups|
    ensures NewRows(groups[..i + 1]) == NewRows(groups[..i]) + groups[i].NewRows()
    ensures LengthsAfter(s, groups[..i + 1]) == After(LengthsAfter(s, groups[..i]), groups[i].Steps())
  {
    assert groups[..i + 1][..i] == groups[..i];
  }

  lemma NewKey(s: Lengths, steps: seq<Step>, i: nat)
    requires Distinct(steps) && i < |steps| && steps[i].key !in s
    ensures steps[i].key !in After(s, steps[..i])
    ensures After(s, steps[..i + 1]) == After(s, steps[..i])[steps[i].key := steps[i].next]
  {
    assert steps[..i + 1][..i] == steps[..i];
    AfterKeys(s, steps[..i]);
  }

  lemma NoDupByIndex(s: seq<int>)
    requires forall i, j | 0 <= i < j < |s| :: s[i] != s[j]
    ensures NoDup(s)
  {
    if s != [] {
      var n := |s| - 1;
      NoDupByIndex(s[..n]);
      assert s == s[..n] + [s[n]];
      NoDupSplit(s[..n], [s[n]]);
    }
  }

  lemma TakeRow(rows: nat, free: seq<int>, sessions: map<Key, Session>, k: Key, length: nat)
    requires RowsOk(rows, free, sessions) && free != [] && k !in sessions
    ensures RowsOk(rows, free[..|free| - 1], sessions[k := Session(free[|free| - 1], length)])
  {
    var n := |free| - 1;
    NoDupPop(free);
    var now := sessions[k := Session(free[n], length)];
    assert now.Keys == sessions.Keys + {k} && |now| == |now.Keys|;
  }

  lemma GiveRow(rows: nat, free: seq<int>, sessions: map<Key, Session>, k: Key)
    requires RowsOk(rows, free, sessions) && k in sessions
    ensures RowsOk(rows, free + [sessions[k].row], sessions - {k})
  {
    NoDupSplit(free, [sessions[k].row]);
    assert (sessions - {k}).Keys == sessions.Keys - {k};
  }

  /** The sessions of these keys are gone and the others are as before. */
  ghost predicate Closed(before: map<Key, Session>, now: map<Key, Session>, keys: seq<Key>) {
    (forall k :: k in now <==> k in before && k !in keys) && forall k | k in now :: now[k] == before[k]
  }

  lemma ClosedMore(before: map<Key, Session>, now: map<Key, Session>, keys: seq<Key>, i: nat)
    requires i < |keys| && Closed(before, now, keys[..i]) && keys[i] in before && keys[i] !in keys[..i]
    ensures keys[i] in now && Closed(before, now - {keys[i]}, keys[..i + 1])
  {
    assert keys[..i + 1] == keys[..i] + [keys[i]];
  }

  lemma WholeKeys(keys: seq<Key>)
    ensures keys[..|keys|] == keys
  {
  }

  lemma FirstHere(keys: seq<Key>, i: nat)
    requires NoDup(keys) && i < |keys|
    ensures keys[i] !in keys[..i]
  {
    forall j | 0 <= j < i ensures keys[j] != keys[i] { NoDupAt(keys, j, i); }
  }

  lemma ReleasedNoDup(released: seq<Key>, keys: seq<Key>, n: nat)
    requires NoDup(released) && NoDup(keys) && forall k | k in keys :: k !in released
    ensures NoDup(Newest(released + keys, n)) && |Newest(released + keys, n)| <= n
    ensures forall k | k in Newest(released + keys, n) :: k in released || k in keys
  {
    var all := released + keys;
    NoDupSplit(released, keys);
    if |all| > n {
      assert all == all[..|all| - n] + all[|all| - n..];
      NoDupSplit(all[..|all| - n], all[|all| - n..]);
    }
  }

  lemma NewestHolds(released: seq<Key>, keys: seq<Key>, n: nat)
    requires NoDup(keys) && keys != [] && (forall k | k in keys :: k !in released) && n > 0
    ensures (forall k | k in keys :: k in Newest(released + keys, n)) <==> |keys| <= n
  {
    var all := released + keys;
    var kept := Newest(all, n);
    if |keys| <= n {
      forall k | k in keys ensures k in kept {
        var i :| 0 <= i < |keys| && keys[i] == k;
        assert kept[|kept| - |keys| + i] == k;
      }
    } else {
      forall j | 0 <= j < n ensures kept[j] != keys[0] {
        assert kept[j] == keys[|keys| - n + j];
        NoDupAt(keys, 0, |keys| - n + j);
      }
      assert keys[0] in keys;
    }
  }
}
