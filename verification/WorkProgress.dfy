/** Sending WORKs to workers whose queues may be full: frozen WORKs are sent again unchanged, in consecutive numbers. */
module WorkProgress {
  import opened Wrappers
  import opened WorkLedger

  datatype Plan = Plan(worker: nat, bank: nat, rows: seq<Row>)

  /** A plan, and its WORK once it is frozen. */
  datatype Item = Item(work: Option<Work>, plan: Plan)

  function PlanOf(work: Work): Plan { Plan(work.worker, work.bank, work.rows) }

  function Plans(works: seq<Work>): seq<Plan> { seq(|works|, i requires 0 <= i < |works| => PlanOf(works[i])) }

  /** The plans of one worker in a queue, in order. */
  function Waiting(q: seq<Item>, w: nat): seq<Plan> {
    if q == [] then [] else IfFor(q[0], w) + Waiting(q[1..], w)
  }

  function IfFor(item: Item, w: nat): seq<Plan> { if item.plan.worker == w then [item.plan] else [] }

  lemma {:induction false} WaitingSplit(a: seq<Item>, b: seq<Item>, w: nat)
    ensures Waiting(a + b, w) == Waiting(a, w) + Waiting(b, w)
  {
    if a == [] {
      assert a + b == b;
    } else {
      var q := a + b;
      assert q[0] == a[0] && q[1..] == a[1..] + b;
      WaitingSplit(a[1..], b, w);
      Regroup(IfFor(a[0], w), Waiting(a[1..], w), Waiting(b, w));
    }
  }

  predicate Absent(q: seq<Item>, w: nat) { forall i | 0 <= i < |q| :: q[i].plan.worker != w }

  lemma {:induction false} AbsentWaits(q: seq<Item>, w: nat)
    requires Absent(q, w)
    ensures Waiting(q, w) == []
  {
    if q != [] { AbsentWaits(q[1..], w); }
  }

  /** Taking the first item of a worker out of a queue takes its plan off the front of what waits for that worker. */
  lemma WaitingTaken(a: seq<Item>, item: Item, b: seq<Item>, w: nat)
    requires Absent(a, item.plan.worker)
    ensures Waiting(a + [item] + b, w) == IfFor(item, w) + Waiting(a + b, w)
  {
    WaitingSplit(a + [item], b, w);
    WaitingSplit(a, [item], w);
    WaitingSplit(a, b, w);
    OneWaits(item, w);
    if w == item.plan.worker { AbsentWaits(a, w); }
    Forward(Waiting(a, w), IfFor(item, w), Waiting(b, w));
  }

  lemma Forward<T>(a: seq<T>, b: seq<T>, c: seq<T>)
    requires a == [] || b == []
    ensures a + b + c == b + (a + c)
  {
  }

  lemma OneWaits(item: Item, w: nat)
    ensures Waiting([item], w) == IfFor(item, w)
  {
    assert [item][1..] == [];
  }

  // ---- Queues ----

  /** A frozen WORK says what its plan says, and carries its worker's next number and a new epoch of its bank. */
  predicate FrozenOk(draft: bool, work: Work, plan: Plan, sequences: map<nat, nat>, banks: map<(nat, nat), nat>) {
    && PlanOf(work) == plan && work.draft == draft && work.worker in sequences && work.number == sequences[work.worker]
    && (work.worker, work.bank) in banks && work.bankEpoch > banks[(work.worker, work.bank)]
  }

  predicate ItemOk(roles: map<nat, bool>, draft: bool, item: Item, sequences: map<nat, nat>, banks: map<(nat, nat), nat>) {
    && item.plan.worker in roles && roles[item.plan.worker] == draft && item.plan.bank < 2
    && (item.work.Some? ==> FrozenOk(draft, item.work.value, item.plan, sequences, banks))
  }

  /** Only the first item of a worker can be frozen. */
  ghost predicate QueueOk(roles: map<nat, bool>, draft: bool, q: seq<Item>, sequences: map<nat, nat>, banks: map<(nat, nat), nat>) {
    forall i | 0 <= i < |q| :: ItemOk(roles, draft, q[i], sequences, banks) && (q[i].work.Some? ==> Absent(q[..i], q[i].plan.worker))
  }

  lemma SentQueue(roles: map<nat, bool>, draft: bool, a: seq<Item>, item: Item, b: seq<Item>,
                  sequences: map<nat, nat>, banks: map<(nat, nat), nat>, work: Work)
    requires QueueOk(roles, draft, a + [item] + b, sequences, banks) && Absent(a, item.plan.worker)
    requires work.worker == item.plan.worker && work.worker in sequences
    ensures QueueOk(roles, draft, a + b, sequences[work.worker := work.number + 1], banks[(work.worker, work.bank) := work.bankEpoch])
  {
    var q, rest := a + [item] + b, a + b;
    forall i | 0 <= i < |rest|
      ensures ItemOk(roles, draft, rest[i], sequences[work.worker := work.number + 1], banks[(work.worker, work.bank) := work.bankEpoch])
      ensures rest[i].work.Some? ==> Absent(rest[..i], rest[i].plan.worker)
    {
      var j := if i < |a| then i else i + 1;
      assert rest[i] == q[j];
      assert ItemOk(roles, draft, q[j], sequences, banks);
      if rest[i].work.Some? {
        assert Absent(q[..j], q[j].plan.worker);
        if i >= |a| { assert q[..j][|a|] == item; }
        forall k | 0 <= k < i ensures rest[..i][k].plan.worker != rest[i].plan.worker {
          assert rest[..i][k] == q[..j][if k < |a| then k else k + 1];
        }
      }
    }
  }

  lemma OtherQueue(roles: map<nat, bool>, draft: bool, q: seq<Item>, sequences: map<nat, nat>, banks: map<(nat, nat), nat>, work: Work)
    requires QueueOk(roles, draft, q, sequences, banks) && work.worker in roles && roles[work.worker] != draft
    ensures QueueOk(roles, draft, q, sequences[work.worker := work.number + 1], banks[(work.worker, work.bank) := work.bankEpoch])
  {
    forall i | 0 <= i < |q|
      ensures ItemOk(roles, draft, q[i], sequences[work.worker := work.number + 1], banks[(work.worker, work.bank) := work.bankEpoch])
    {
      assert ItemOk(roles, draft, q[i], sequences, banks);
    }
  }

  lemma FrozenQueue(roles: map<nat, bool>, draft: bool, a: seq<Item>, item: Item, b: seq<Item>,
                    sequences: map<nat, nat>, banks: map<(nat, nat), nat>, work: Work)
    requires QueueOk(roles, draft, a + [item] + b, sequences, banks) && Absent(a, item.plan.worker)
    requires FrozenOk(draft, work, item.plan, sequences, banks)
    ensures QueueOk(roles, draft, a + [Item(Some(work), item.plan)] + b, sequences, banks)
    ensures forall w :: Waiting(a + [Item(Some(work), item.plan)] + b, w) == Waiting(a + [item] + b, w)
  {
    var q, now := a + [item] + b, a + [Item(Some(work), item.plan)] + b;
    forall i | 0 <= i < |now|
      ensures ItemOk(roles, draft, now[i], sequences, banks) && (now[i].work.Some? ==> Absent(now[..i], now[i].plan.worker))
    {
      assert ItemOk(roles, draft, q[i], sequences, banks) && now[i].plan == q[i].plan;
      if i == |a| {
        assert now[..i] == a;
      } else if now[i].work.Some? {
        assert Absent(q[..i], q[i].plan.worker);
        forall k | 0 <= k < i ensures now[..i][k].plan.worker != now[i].plan.worker {
          assert now[..i][k].plan == q[..i][k].plan;
        }
      }
    }
    forall w ensures Waiting(now, w) == Waiting(q, w) {
      WaitingTaken(a, item, b, w);
      WaitingTaken(a, Item(Some(work), item.plan), b, w);
    }
  }

  // ---- What the workers receive ----

  /** A worker has received the numbers from one on, and the epochs of each of its banks rise. */
  ghost predicate Numbered(works: seq<Work>, w: nat, sequences: map<nat, nat>, banks: map<(nat, nat), nat>) {
    && w in sequences && |works| + 1 == sequences[w]
    && (forall i | 0 <= i < |works| :: works[i].worker == w && works[i].number == i + 1)
    && (forall i | 0 <= i < |works| :: (w, works[i].bank) in banks && works[i].bankEpoch <= banks[(w, works[i].bank)])
    && forall i, j | 0 <= i < j < |works| && works[i].bank == works[j].bank :: works[i].bankEpoch < works[j].bankEpoch
  }

  ghost predicate AllNumbered(received: map<nat, seq<Work>>, sequences: map<nat, nat>, banks: map<(nat, nat), nat>) {
    received.Keys == sequences.Keys && forall w | w in received :: Numbered(received[w], w, sequences, banks)
  }

  lemma SentNumbered(received: map<nat, seq<Work>>, sequences: map<nat, nat>, banks: map<(nat, nat), nat>, work: Work)
    requires AllNumbered(received, sequences, banks) && work.worker in sequences && work.number == sequences[work.worker]
    requires (work.worker, work.bank) in banks && work.bankEpoch > banks[(work.worker, work.bank)]
    ensures AllNumbered(received[work.worker := received[work.worker] + [work]], sequences[work.worker := work.number + 1],
                        banks[(work.worker, work.bank) := work.bankEpoch])
  {
    var now := received[work.worker := received[work.worker] + [work]];
    forall w | w in now
      ensures Numbered(now[w], w, sequences[work.worker := work.number + 1], banks[(work.worker, work.bank) := work.bankEpoch])
    {
      assert Numbered(received[w], w, sequences, banks);
    }
  }

  // ---- Authorizations to come ----

  /** The rows of a plan are not authorized yet, and none is in it twice. */
  predicate PlanFree(index: map<Index, Key>, draft: bool, plan: Plan) {
    && (forall a | 0 <= a < |plan.rows| :: RowIndex(draft, plan.rows[a]) !in index)
    && forall a, b | 0 <= a < b < |plan.rows| :: RowIndex(draft, plan.rows[a]) != RowIndex(draft, plan.rows[b])
  }

  predicate PlansApart(draft: bool, p: Plan, r: Plan) {
    forall a, b | 0 <= a < |p.rows| && 0 <= b < |r.rows| :: RowIndex(draft, p.rows[a]) != RowIndex(draft, r.rows[b])
  }

  /** No row of a queue is authorized already, or twice in it. */
  predicate ClashFree(index: map<Index, Key>, draft: bool, q: seq<Item>) {
    && (forall i | 0 <= i < |q| :: PlanFree(index, draft, q[i].plan))
    && forall i, j | 0 <= i < j < |q| :: PlansApart(draft, q[i].plan, q[j].plan)
  }

  lemma SentClashFree(index: map<Index, Key>, now: map<Index, Key>, draft: bool, a: seq<Item>, item: Item, b: seq<Item>, work: Work)
    requires ClashFree(index, draft, a + [item] + b) && work.draft == draft && work.rows == item.plan.rows
    ensures Unclaimed(index, work)
    ensures (forall x :: x in now <==> x in index || IsRow(work, x)) ==> ClashFree(now, draft, a + b)
  {
    var q, rest := a + [item] + b, a + b;
    var n := |a|;
    assert q[n] == item && PlanFree(index, draft, item.plan);
    forall i, j | 0 <= i < j < |work.rows| ensures IndexOf(work, i) != IndexOf(work, j) {}
    if forall x :: x in now <==> x in index || IsRow(work, x) {
      forall i | 0 <= i < |rest| ensures PlanFree(now, draft, rest[i].plan) {
        var k := if i < n then i else i + 1;
        assert rest[i] == q[k] && PlanFree(index, draft, q[k].plan);
        if k < n { assert PlansApart(draft, q[k].plan, q[n].plan); } else { assert PlansApart(draft, q[n].plan, q[k].plan); }
        forall c | 0 <= c < |rest[i].plan.rows| ensures RowIndex(draft, rest[i].plan.rows[c]) !in now {}
      }
      forall i, j | 0 <= i < j < |rest| ensures PlansApart(draft, rest[i].plan, rest[j].plan) {
        assert rest[i] == q[if i < n then i else i + 1] && rest[j] == q[if j < n then j else j + 1];
      }
    }
  }

  function Fresh(plans: seq<Plan>): seq<Item> { seq(|plans|, i requires 0 <= i < |plans| => Item(None, plans[i])) }

  predicate PlansOk(roles: map<nat, bool>, draft: bool, plans: seq<Plan>) {
    forall i | 0 <= i < |plans| :: plans[i].worker in roles && roles[plans[i].worker] == draft && plans[i].bank < 2
  }

  /** Each worker's plans in order: those it has received and then those that wait for it. */
  function LineOf(received: map<nat, seq<Work>>, q: seq<Item>): map<nat, seq<Plan>> {
    map w | w in received :: Plans(received[w]) + Waiting(q, w)
  }

  /** How many WORKs each worker has, issued or waiting to be sent. */
  function LoadOf(live: map<nat, set<nat>>, q: seq<Item>): map<nat, nat> {
    map w | w in live :: |live[w]| + |Waiting(q, w)|
  }

  ghost predicate Grown(received: map<nat, seq<Work>>, received': map<nat, seq<Work>>) {
    received.Keys == received'.Keys && forall w | w in received :: received[w] <= received'[w]
  }

  /** From one queue to the next a worker's plans keep their order and number: the front goes to the worker, the rest waits. */
  ghost predicate Kept(received: map<nat, seq<Work>>, q: seq<Item>, live: map<nat, set<nat>>,
                       received': map<nat, seq<Work>>, q': seq<Item>, live': map<nat, set<nat>>) {
    Grown(received, received') && LineOf(received, q) == LineOf(received', q') && LoadOf(live, q) == LoadOf(live', q')
  }

  lemma KeptOn(a: map<nat, seq<Work>>, p: seq<Item>, k: map<nat, set<nat>>, b: map<nat, seq<Work>>, q: seq<Item>, l: map<nat, set<nat>>,
               c: map<nat, seq<Work>>, r: seq<Item>, m: map<nat, set<nat>>)
    requires Kept(a, p, k, b, q, l) && Kept(b, q, l, c, r, m)
    ensures Kept(a, p, k, c, r, m)
  {
  }

  lemma SameWaiting(received: map<nat, seq<Work>>, live: map<nat, set<nat>>, q: seq<Item>, q': seq<Item>)
    requires forall w :: Waiting(q, w) == Waiting(q', w)
    ensures Kept(received, q, live, received, q', live)
  {
  }

  /** A WORK has gone to its worker, and is one more that is live there. */
  predicate Moved(work: Work, received: map<nat, seq<Work>>, now: map<nat, seq<Work>>, live: map<nat, set<nat>>, live': map<nat, set<nat>>) {
    && work.worker in received && received.Keys == live.Keys == live'.Keys
    && now == received[work.worker := received[work.worker] + [work]]
    && |live'[work.worker]| == |live[work.worker]| + 1 && forall w | w in live && w != work.worker :: live'[w] == live[w]
  }

  lemma SentKept(received: map<nat, seq<Work>>, a: seq<Item>, item: Item, b: seq<Item>, live: map<nat, set<nat>>, work: Work,
                 now: map<nat, seq<Work>>, live': map<nat, set<nat>>)
    requires Moved(work, received, now, live, live') && PlanOf(work) == item.plan && Absent(a, item.plan.worker)
    ensures Kept(received, a + [item] + b, live, now, a + b, live')
  {
    var q, rest := a + [item] + b, a + b;
    forall w | w in received
      ensures Plans(received[w]) + Waiting(q, w) == Plans(now[w]) + Waiting(rest, w)
      ensures |live[w]| + |Waiting(q, w)| == |live'[w]| + |Waiting(rest, w)|
    {
      SentFor(received[w], work, a, item, b, w);
    }
    SameLine(received, q, now, rest);
    SameLoad(live, q, live', rest);
  }

  lemma SentFor(works: seq<Work>, work: Work, a: seq<Item>, item: Item, b: seq<Item>, w: nat)
    requires PlanOf(work) == item.plan && Absent(a, item.plan.worker)
    ensures Plans(works) + Waiting(a + [item] + b, w) == Plans(if w == work.worker then works + [work] else works) + Waiting(a + b, w)
    ensures |Waiting(a + [item] + b, w)| == |Waiting(a + b, w)| + if w == work.worker then 1 else 0
  {
    var before, after := Waiting(a + [item] + b, w), Waiting(a + b, w);
    WaitingTaken(a, item, b, w);
    if w == work.worker {
      assert before == [PlanOf(work)] + after;
      LineTaken(works, work, after);
    } else {
      assert before == after;
    }
  }

  lemma SameLine(received: map<nat, seq<Work>>, q: seq<Item>, received': map<nat, seq<Work>>, q': seq<Item>)
    requires received.Keys == received'.Keys
    requires forall w | w in received :: Plans(received[w]) + Waiting(q, w) == Plans(received'[w]) + Waiting(q', w)
    ensures LineOf(received, q) == LineOf(received', q')
  {
    assert LineOf(received, q).Keys == LineOf(received', q').Keys;
  }

  lemma SameLoad(live: map<nat, set<nat>>, q: seq<Item>, live': map<nat, set<nat>>, q': seq<Item>)
    requires live.Keys == live'.Keys && forall w | w in live :: |live[w]| + |Waiting(q, w)| == |live'[w]| + |Waiting(q', w)|
    ensures LoadOf(live, q) == LoadOf(live', q')
  {
    assert LoadOf(live, q).Keys == LoadOf(live', q').Keys;
  }

  lemma LineTaken(works: seq<Work>, work: Work, rest: seq<Plan>)
    ensures Plans(works) + ([PlanOf(work)] + rest) == Plans(works + [work]) + rest
  {
    assert Plans(works + [work]) == Plans(works) + [PlanOf(work)];
  }

  /** Each frozen WORK of a queue is still waiting as it was, or is the next that its worker received. */
  ghost predicate Resent(items: seq<Item>, received: map<nat, seq<Work>>, out: seq<Item>, received': map<nat, seq<Work>>) {
    forall i | 0 <= i < |items| && items[i].work.Some? :: items[i] in out || ReceivedNext(items[i].work.value, received, received')
  }

  predicate ReceivedNext(work: Work, received: map<nat, seq<Work>>, received': map<nat, seq<Work>>) {
    && work.worker in received && work.worker in received'
    && |received'[work.worker]| > |received[work.worker]| && received'[work.worker][|received[work.worker]|] == work
  }

  datatype Answer = Sent | Full | Refused

  class WorkProgress {
    const ledger: WorkLedger
    /** Which workers are draft workers. */
    const roles: map<nat, bool>
    var pending: map<bool, seq<Item>>
    /** What the queue of each worker has accepted. */
    var received: map<nat, seq<Work>>

    ghost predicate Valid()
      reads this, ledger
    {
      && ledger.Valid() && roles.Keys == ledger.sequences.Keys && pending.Keys == {false, true}
      && AllNumbered(received, ledger.sequences, ledger.bankEpochs)
      && QueueOk(roles, false, pending[false], ledger.sequences, ledger.bankEpochs)
      && QueueOk(roles, true, pending[true], ledger.sequences, ledger.bankEpochs)
    }

    /** No worker has more than four WORKs, counting those that are issued and those that wait to be sent. */
    ghost predicate Bounded()
      reads this, ledger
    {
      BothFewer(ledger.live, pending)
    }

    constructor (ledger: WorkLedger, roles: map<nat, bool>)
      requires ledger.Valid() && roles.Keys == ledger.sequences.Keys && forall w | w in ledger.sequences :: ledger.sequences[w] == 1
      ensures Valid() && this.ledger == ledger && this.roles == roles
      ensures pending == map[false := [], true := []] && forall w | w in received :: received[w] == []
    {
      this.ledger, this.roles := ledger, roles;
      pending := map[false := [], true := []];
      received := map w | w in roles :: [];
    }

    /** build: the next number of the worker, and an epoch past every one that was sent or published for the bank. */
    method Build(draft: bool, plan: Plan, published: map<(nat, nat), nat>) returns (work: Work)
      requires ledger.Valid() && plan.worker in ledger.sequences && plan.bank < 2
      ensures FrozenOk(draft, work, plan, ledger.sequences, ledger.bankEpochs)
      ensures (plan.worker, plan.bank) in published ==> work.bankEpoch > published[(plan.worker, plan.bank)]
      ensures || work.bankEpoch == ledger.bankEpochs[(plan.worker, plan.bank)] + 1
              || ((plan.worker, plan.bank) in published && work.bankEpoch == published[(plan.worker, plan.bank)] + 1)
    {
      var bank := (plan.worker, plan.bank);
      var last := ledger.bankEpochs[bank];
      var epoch := if bank in published && published[bank] > last then published[bank] + 1 else last + 1;
      work := Work(plan.worker, ledger.generations[plan.worker], ledger.sequences[plan.worker], draft, plan.bank, epoch, plan.rows);
    }

    /** dispatch_work: a full queue changes nothing; otherwise the worker receives the WORK and the ledger registers it. */
    method Dispatch(work: Work, full: bool) returns (r: Answer)
      requires ledger.Valid() && work.worker in ledger.sequences && work.number == ledger.sequences[work.worker] && work.bank < 2
      requires work.bankEpoch > ledger.bankEpochs[(work.worker, work.bank)] && received.Keys == ledger.live.Keys
      modifies `received, ledger`records, ledger`index, ledger`live, ledger`sequences, ledger`bankEpochs
      ensures r.Full? <==> full
      ensures r.Full? ==> received == old(received) && ledger.sequences == old(ledger.sequences) && ledger.bankEpochs == old(ledger.bankEpochs)
                          && ledger.index == old(ledger.index) && ledger.live == old(ledger.live)
      ensures !r.Refused? ==> ledger.Valid()
      ensures r.Refused? ==> !Unclaimed(old(ledger.index), work)
      ensures r.Sent? ==>
                && Moved(work, old(received), received, old(ledger.live), ledger.live)
                && ledger.sequences == old(ledger.sequences)[work.worker := work.number + 1]
                && ledger.bankEpochs == old(ledger.bankEpochs)[(work.worker, work.bank) := work.bankEpoch]
                && forall x :: x in ledger.index <==> x in old(ledger.index) || IsRow(work, x)
    {
      if full { return Full; }
      received := received[work.worker := received[work.worker] + [work]];
      var ok := ledger.Sent(work);
      if !ok { return Refused; }
      r := Sent;
    }

    /** In the middle of a pass over one queue: the ledger, the numbers and the other queue are in order. */
    ghost predicate Steady(draft: bool)
      reads this, ledger
    {
      && ledger.Valid() && roles.Keys == ledger.sequences.Keys && pending.Keys == {false, true}
      && AllNumbered(received, ledger.sequences, ledger.bankEpochs)
      && QueueOk(roles, !draft, pending[!draft], ledger.sequences, ledger.bankEpochs)
    }

    /** Freeze an item that is not frozen yet. */
    method Freeze(draft: bool, item: Item, published: map<(nat, nat), nat>) returns (work: Work)
      requires ledger.Valid() && roles.Keys == ledger.sequences.Keys && ItemOk(roles, draft, item, ledger.sequences, ledger.bankEpochs)
      ensures FrozenOk(draft, work, item.plan, ledger.sequences, ledger.bankEpochs) && (item.work.Some? ==> work == item.work.value)
    {
      if item.work.Some? { work := item.work.value; } else { work := Build(draft, item.plan, published); }
    }

    /** Send a frozen WORK that is the first of its worker in the queue. */
    method Send(draft: bool, ghost out: seq<Item>, item: Item, ghost rest: seq<Item>, work: Work, full: bool) returns (r: Answer)
      requires Steady(draft) && QueueOk(roles, draft, out + [item] + rest, ledger.sequences, ledger.bankEpochs) && Absent(out, work.worker)
      requires FrozenOk(draft, work, item.plan, ledger.sequences, ledger.bankEpochs) && work.worker in roles && roles[work.worker] == draft && work.bank < 2
      modifies `received, ledger`records, ledger`index, ledger`live, ledger`sequences, ledger`bankEpochs
      ensures (r.Full? <==> full)
      ensures r.Full? ==> received == old(received) && ledger.index == old(ledger.index) && ledger.live == old(ledger.live)
      ensures r.Full? ==> ledger.sequences == old(ledger.sequences) && ledger.bankEpochs == old(ledger.bankEpochs)
      ensures !r.Refused? ==> Steady(draft)
      ensures r.Sent? ==> Moved(work, old(received), received, old(ledger.live), ledger.live)
      ensures r.Sent? ==> QueueOk(roles, draft, out + rest, ledger.sequences, ledger.bankEpochs)
      ensures r.Sent? ==> Kept(old(received), out + [item] + rest, old(ledger.live), received, out + rest, ledger.live)
      ensures r.Sent? && ClashFree(old(ledger.index), draft, out + [item] + rest) ==> ClashFree(ledger.index, draft, out + rest)
      ensures r.Refused? ==> !ClashFree(old(ledger.index), draft, out + [item] + rest)
    {
      ghost var index, live, was := ledger.index, ledger.live, received;
      SentQueue(roles, draft, out, item, rest, ledger.sequences, ledger.bankEpochs, work);
      r := Transfer(draft, work, full);
      if r.Sent? {
        SentKept(was, out, item, rest, live, work, received, ledger.live);
      }
      if !r.Full? && ClashFree(index, draft, out + [item] + rest) {
        SentClashFree(index, ledger.index, draft, out, item, rest, work);
      }
    }

    /** Dispatch, with the other queue in order throughout. */
    method Transfer(draft: bool, work: Work, full: bool) returns (r: Answer)
      requires Steady(draft) && work.worker in roles && roles[work.worker] == draft && work.number == ledger.sequences[work.worker] && work.bank < 2
      requires work.bankEpoch > ledger.bankEpochs[(work.worker, work.bank)]
      modifies `received, ledger`records, ledger`index, ledger`live, ledger`sequences, ledger`bankEpochs
      ensures (r.Full? <==> full)
      ensures r.Full? ==> received == old(received) && ledger.index == old(ledger.index) && ledger.live == old(ledger.live)
      ensures r.Full? ==> ledger.sequences == old(ledger.sequences) && ledger.bankEpochs == old(ledger.bankEpochs)
      ensures !r.Refused? ==> Steady(draft)
      ensures r.Refused? ==> !Unclaimed(old(ledger.index), work)
      ensures r.Sent? ==> Moved(work, old(received), received, old(ledger.live), ledger.live)
      ensures r.Sent? ==> ledger.sequences == old(ledger.sequences)[work.worker := work.number + 1]
      ensures r.Sent? ==> ledger.bankEpochs == old(ledger.bankEpochs)[(work.worker, work.bank) := work.bankEpoch]
      ensures r.Sent? ==> forall x :: x in ledger.index <==> x in old(ledger.index) || IsRow(work, x)
    {
      OtherQueue(roles, !draft, pending[!draft], ledger.sequences, ledger.bankEpochs, work);
      SentNumbered(received, ledger.sequences, ledger.bankEpochs, work);
      r := Dispatch(work, full);
    }

    /** One item of a worker that has not blocked: frozen if it is not, and sent, or kept when the worker's queue is full. */
    method Turn(draft: bool, out: seq<Item>, item: Item, ghost rest: seq<Item>, published: map<(nat, nat), nat>, full: bool)
      returns (r: Answer, work: Work, out': seq<Item>)
      requires Steady(draft) && QueueOk(roles, draft, out + [item] + rest, ledger.sequences, ledger.bankEpochs) && Absent(out, item.plan.worker)
      modifies `received, ledger`records, ledger`index, ledger`live, ledger`sequences, ledger`bankEpochs
      ensures work.worker == item.plan.worker && (item.work.Some? ==> work == item.work.value)
      ensures out' == (if r.Full? then out + [Item(Some(work), item.plan)] else out) && (r.Full? <==> full)
      ensures r.Full? ==> received == old(received)
      ensures r.Sent? ==> work.worker in old(received) && received == old(received)[work.worker := old(received)[work.worker] + [work]]
      ensures !r.Refused? ==> Steady(draft) && QueueOk(roles, draft, out' + rest, ledger.sequences, ledger.bankEpochs)
      ensures !r.Refused? ==> Kept(old(received), out + [item] + rest, old(ledger.live), received, out' + rest, ledger.live)
      ensures ClashFree(old(ledger.index), draft, out + [item] + rest) ==> !r.Refused? && ClashFree(ledger.index, draft, out' + rest)
    {
      FirstOk(roles, draft, out, item, rest, ledger.sequences, ledger.bankEpochs);
      work := Freeze(draft, item, published);
      r := Send(draft, out, item, rest, work, full);
      out' := out;
      if r.Full? {
        FrozenQueue(roles, draft, out, item, rest, ledger.sequences, ledger.bankEpochs, work);
        FrozenClash(ledger.index, draft, out, item, rest, work);
        SameWaiting(received, ledger.live, out + [item] + rest, out + [Item(Some(work), item.plan)] + rest);
        out' := out + [Item(Some(work), item.plan)];
      }
    }

    /**
     * Send a queue. A worker whose queue is full keeps this WORK, frozen, and all that waits behind it. For each worker
     * the plans sent are the first of its plans, in order.
     */
    method Pass(draft: bool, items: seq<Item>, published: map<(nat, nat), nat>, full: nat -> bool) returns (ok: bool, out: seq<Item>)
      requires Steady(draft) && QueueOk(roles, draft, items, ledger.sequences, ledger.bankEpochs)
      modifies `received, ledger`records, ledger`index, ledger`live, ledger`sequences, ledger`bankEpochs
      ensures ok ==> Steady(draft) && QueueOk(roles, draft, out, ledger.sequences, ledger.bankEpochs)
      ensures ok ==> Kept(old(received), items, old(ledger.live), received, out, ledger.live)
      ensures ok ==> Resent(items, old(received), out, received) && WaitsFromFull(items, full, out)
      ensures ClashFree(old(ledger.index), draft, items) ==> ok && ClashFree(ledger.index, draft, out)
    {
      var blocked := {};
      out := [];
      ghost var queue := items;
      assert FrozenFirst(items);
      for i := 0 to |items|
        invariant queue == out + items[i..] && QueueOk(roles, draft, queue, ledger.sequences, ledger.bankEpochs)
        invariant Steady(draft) && Kept(old(received), items, old(ledger.live), received, queue, ledger.live)
        invariant Passing(items, i, old(received), out, received, blocked) && Held(items, full, i, out, blocked)
        invariant ClashFree(old(ledger.index), draft, items) ==> ClashFree(ledger.index, draft, queue)
      {
        ghost var before, was, live, held, blocking := queue, received, ledger.live, out, blocked;
        ok, out, blocked, queue := PassOne(draft, items, i, out, blocked, published, full(i), old(received), queue);
        if !ok { return; }
        HeldMore(items, full, i, held, blocking, out, blocked);
        KeptOn(old(received), items, old(ledger.live), was, before, live, received, queue, ledger.live);
      }
      PassingEnds(items, old(received), out, received, blocked);
      HeldInAll(items, full, out, blocked);
      ok := true;
    }

    /** One item of a pass. A blocked worker's item waits, and a worker whose queue is full blocks. */
    method PassOne(draft: bool, items: seq<Item>, i: nat, out: seq<Item>, blocked: set<nat>, published: map<(nat, nat), nat>, full: bool,
                   ghost start: map<nat, seq<Work>>, ghost queue: seq<Item>)
      returns (ok: bool, out': seq<Item>, blocked': set<nat>, ghost queue': seq<Item>)
      requires i < |items| && queue == out + items[i..]
      requires Steady(draft) && QueueOk(roles, draft, queue, ledger.sequences, ledger.bankEpochs)
      requires Passing(items, i, start, out, received, blocked) && FrozenFirst(items)
      modifies `received, ledger`records, ledger`index, ledger`live, ledger`sequences, ledger`bankEpochs
      ensures queue' == out' + items[i + 1..]
      ensures ok ==> Steady(draft) && QueueOk(roles, draft, queue', ledger.sequences, ledger.bankEpochs)
      ensures ok ==> Kept(old(received), queue, old(ledger.live), received, queue', ledger.live)
      ensures ok ==> Passing(items, i + 1, start, out', received, blocked')
      ensures ok ==> HeldBack(items[i].plan, items[i].plan.worker in blocked || full, out, blocked, out', blocked')
      ensures ClashFree(old(ledger.index), draft, queue) ==> ok && ClashFree(ledger.index, draft, queue')
    {
      Around(out, items, i);
      if items[i].plan.worker in blocked {
        PassingBlocked(items, i, start, out, received, blocked);
        return true, out + [items[i]], blocked, queue;
      }
      ghost var was := received;
      var r, work;
      r, work, out' := Turn(draft, out, items[i], items[i + 1..], published, full);
      ok, blocked', queue' := !r.Refused?, blocked, out' + items[i + 1..];
      if r.Full? {
        PassingFull(items, i, start, out, received, blocked, work);
        blocked' := blocked + {work.worker};
      } else if r.Sent? {
        PassingSent(items, i, start, out, was, blocked, work);
      }
    }

    /**
     * One phase of a step: send what is pending, or else new plans. Nothing is lost, repeated or overtaken: for each
     * worker, what it has received and then what waits for it is the same list of plans before and after. Each frozen
     * WORK is still there unchanged, or is the next that its worker received.
     */
    method Advance(draft: bool, plans: seq<Plan>, published: map<(nat, nat), nat>, full: nat -> bool) returns (ok: bool)
      requires Valid() && PlansOk(roles, draft, plans)
      modifies this, ledger`records, ledger`index, ledger`live, ledger`sequences, ledger`bankEpochs
      ensures ok ==> Valid() && pending[!draft] == old(pending)[!draft]
      ensures ok ==> Kept(old(received), ToSend(old(pending), draft, plans), old(ledger.live), received, pending[draft], ledger.live)
      ensures ok ==> Resent(ToSend(old(pending), draft, plans), old(received), pending[draft], received)
      ensures ok ==> WaitsFromFull(ToSend(old(pending), draft, plans), full, pending[draft])
      ensures ok && old(Bounded()) && Offered(old(ledger.live), plans) ==> Bounded()
      ensures ClashFree(old(ledger.index), draft, ToSend(old(pending), draft, plans)) ==> ok && ClashFree(ledger.index, draft, pending[draft])
    {
      var items := ToSend(pending, draft, plans);
      ghost var live, before, was := ledger.live, pending, received;
      FreshOk(roles, draft, plans, ledger.sequences, ledger.bankEpochs);
      QueueIn(roles, draft, items, ledger.sequences, ledger.bankEpochs);
      QueueIn(roles, !draft, pending[!draft], ledger.sequences, ledger.bankEpochs);
      ok := Round(draft, items, published, full);
      if ok {
        BoundKept(roles, draft, before, plans, live, was, pending, ledger.live, received);
      }
    }

    method Round(draft: bool, items: seq<Item>, published: map<(nat, nat), nat>, full: nat -> bool) returns (ok: bool)
      requires Valid() && QueueOk(roles, draft, items, ledger.sequences, ledger.bankEpochs)
      modifies this, ledger`records, ledger`index, ledger`live, ledger`sequences, ledger`bankEpochs
      ensures ok ==> Valid() && pending[!draft] == old(pending)[!draft]
      ensures ok ==> Kept(old(received), items, old(ledger.live), received, pending[draft], ledger.live)
      ensures ok ==> Resent(items, old(received), pending[draft], received) && WaitsFromFull(items, full, pending[draft])
      ensures ClashFree(old(ledger.index), draft, items) ==> ok && ClashFree(ledger.index, draft, pending[draft])
    {
      var out;
      ok, out := Pass(draft, items, published, full);
      if ok { Put(draft, out); }
    }

    method Put(draft: bool, out: seq<Item>)
      requires Steady(draft) && QueueOk(roles, draft, out, ledger.sequences, ledger.bankEpochs)
      modifies `pending
      ensures Valid() && pending == old(pending)[draft := out]
    {
      pending := pending[draft := out];
    }

    /** Refreshing the ledger between phases disturbs no queue, and only frees room. */
    method Refresh(facts: Facts)
      requires Valid()
      modifies ledger`records, ledger`index, ledger`live, ledger`events
      ensures Valid() && ledger.records == Refreshed(facts, old(ledger.records)) && (old(Bounded()) ==> Bounded())
    {
      ghost var live := ledger.live;
      ledger.Refresh(facts);
      if BothFewer(live, pending) {
        LessLive(live, ledger.live, pending[false]);
        LessLive(live, ledger.live, pending[true]);
      }
    }
  }

  lemma LessLive(live: map<nat, set<nat>>, live': map<nat, set<nat>>, q: seq<Item>)
    requires FewerThanFive(live, q) && forall w | w in live' :: w in live && live'[w] <= live[w]
    ensures FewerThanFive(live', q)
  {
    forall w | w in live' ensures |live'[w]| + |Waiting(q, w)| <= 4 {
      assert live[w] == live'[w] + (live[w] - live'[w]);
    }
  }

  /** What is pending, or else new plans. */
  function ToSend(pending: map<bool, seq<Item>>, draft: bool, plans: seq<Plan>): seq<Item>
    requires draft in pending
  {
    if pending[draft] == [] then Fresh(plans) else pending[draft]
  }

  lemma BoundKept(roles: map<nat, bool>, draft: bool, pending: map<bool, seq<Item>>, plans: seq<Plan>, live: map<nat, set<nat>>, received: map<nat, seq<Work>>,
                  pending': map<bool, seq<Item>>, live': map<nat, set<nat>>, received': map<nat, seq<Work>>)
    requires pending.Keys == pending'.Keys == {false, true} && live.Keys <= roles.Keys && pending'[!draft] == pending[!draft]
    requires PlansIn(roles, draft, ToSend(pending, draft, plans)) && PlansIn(roles, !draft, pending[!draft])
    requires Kept(received, ToSend(pending, draft, plans), live, received', pending'[draft], live')
    ensures BothFewer(live, pending) && Offered(live, plans) ==> BothFewer(live', pending')
  {
    assert LoadOf(live, ToSend(pending, draft, plans)).Keys == live.Keys && LoadOf(live', pending'[draft]).Keys == live'.Keys;
    if BothFewer(live, pending) && Offered(live, plans) {
      StillBounded(roles, draft, live, ToSend(pending, draft, plans), pending[!draft], live', pending'[draft]);
    }
  }

  ghost predicate BothFewer(live: map<nat, set<nat>>, pending: map<bool, seq<Item>>) {
    pending.Keys == {false, true} && FewerThanFive(live, pending[false]) && FewerThanFive(live, pending[true])
  }

  /** The scheduler answers with at most one plan for a worker, and only for workers with fewer than four WORKs issued. */
  ghost predicate Offered(live: map<nat, set<nat>>, plans: seq<Plan>) {
    forall w | w in live :: |Waiting(Fresh(plans), w)| <= if |live[w]| < 4 then 1 else 0
  }

  lemma FreshOk(roles: map<nat, bool>, draft: bool, plans: seq<Plan>, sequences: map<nat, nat>, banks: map<(nat, nat), nat>)
    requires PlansOk(roles, draft, plans)
    ensures QueueOk(roles, draft, Fresh(plans), sequences, banks)
  {
  }

  lemma {:induction false} OthersWait(roles: map<nat, bool>, draft: bool, q: seq<Item>, w: nat)
    requires w in roles && roles[w] != draft && forall i | 0 <= i < |q| :: q[i].plan.worker in roles && roles[q[i].plan.worker] == draft
    ensures Waiting(q, w) == []
  {
    AbsentWaits(q, w);
  }

  lemma StillBounded(roles: map<nat, bool>, draft: bool, live: map<nat, set<nat>>, items: seq<Item>, other: seq<Item>, live': map<nat, set<nat>>, out: seq<Item>)
    requires FewerThanFive(live, items) && FewerThanFive(live, other) && live.Keys == live'.Keys <= roles.Keys
    requires LoadOf(live, items) == LoadOf(live', out)
    requires PlansIn(roles, !draft, other) && PlansIn(roles, draft, items)
    ensures FewerThanFive(live', out) && FewerThanFive(live', other)
  {
    forall w | w in live' ensures |live'[w]| + |Waiting(out, w)| <= 4 && |live'[w]| + |Waiting(other, w)| <= 4 {
      assert LoadOf(live, items)[w] == LoadOf(live', out)[w];
      if roles[w] == draft {
        OthersWait(roles, !draft, other, w);
      } else {
        OthersWait(roles, draft, items, w);
      }
    }
  }

  lemma QueueIn(roles: map<nat, bool>, draft: bool, q: seq<Item>, sequences: map<nat, nat>, banks: map<(nat, nat), nat>)
    requires QueueOk(roles, draft, q, sequences, banks)
    ensures PlansIn(roles, draft, q)
  {
    forall i | 0 <= i < |q| ensures q[i].plan.worker in roles && roles[q[i].plan.worker] == draft {
      assert ItemOk(roles, draft, q[i], sequences, banks);
    }
  }

  ghost predicate PlansIn(roles: map<nat, bool>, draft: bool, q: seq<Item>) {
    forall i | 0 <= i < |q| :: q[i].plan.worker in roles && roles[q[i].plan.worker] == draft
  }

  ghost predicate FewerThanFive(live: map<nat, set<nat>>, q: seq<Item>) {
    forall w | w in live :: |live[w]| + |Waiting(q, w)| <= 4
  }

  ghost predicate FrozenFirst(q: seq<Item>) {
    forall i | 0 <= i < |q| && q[i].work.Some? :: Absent(q[..i], q[i].plan.worker)
  }

  /** Where a worker's queue is first found full among the first n items; n if it never is. */
  ghost function FirstFull(items: seq<Item>, full: nat -> bool, w: nat, n: nat): (k: nat)
    requires n <= |items|
    ensures k <= n && (k < n ==> items[k].plan.worker == w && full(k))
    ensures forall j | 0 <= j < k && items[j].plan.worker == w :: !full(j)
  {
    if n == 0 then 0
    else
      var k := FirstFull(items, full, w, n - 1);
      if k == n - 1 && !(items[k].plan.worker == w && full(k)) then n else k
  }

  /** Exactly the plans from a worker's first full answer on still wait for it. */
  ghost predicate WaitsFromFull(items: seq<Item>, full: nat -> bool, q: seq<Item>) {
    forall w :: FromFull(items, full, q, w)
  }

  ghost predicate FromFull(items: seq<Item>, full: nat -> bool, q: seq<Item>, w: nat) {
    Waiting(q, w) == Waiting(items[FirstFull(items, full, w, |items|)..], w)
  }

  /** A worker whose queue always has room gets everything, however full the queues of the others are. */
  lemma RoomMeansSent(items: seq<Item>, full: nat -> bool, q: seq<Item>, w: nat)
    requires WaitsFromFull(items, full, q) && forall i | 0 <= i < |items| && items[i].plan.worker == w :: !full(i)
    ensures Waiting(q, w) == []
  {
    assert FromFull(items, full, q, w);
  }

  /** Half-way through: who blocks, and what waits for each worker. */
  ghost predicate Held(items: seq<Item>, full: nat -> bool, i: nat, out: seq<Item>, blocked: set<nat>)
    requires i <= |items|
  {
    forall w :: HeldFor(items, full, i, out, blocked, w)
  }

  ghost predicate HeldFor(items: seq<Item>, full: nat -> bool, i: nat, out: seq<Item>, blocked: set<nat>, w: nat)
    requires i <= |items|
  {
    && (w in blocked <==> FirstFull(items, full, w, i) < i)
    && Waiting(out, w) == Waiting(items[FirstFull(items, full, w, i)..i], w)
  }

  /** A plan is held back exactly in these cases, and then its worker blocks. */
  predicate HeldBack(plan: Plan, back: bool, out: seq<Item>, blocked: set<nat>, out': seq<Item>, blocked': set<nat>) {
    if back then |out'| == |out| + 1 && out' == out + [out'[|out|]] && out'[|out|].plan == plan && blocked' == blocked + {plan.worker}
    else out' == out && blocked' == blocked
  }

  lemma HeldMore(items: seq<Item>, full: nat -> bool, i: nat, out: seq<Item>, blocked: set<nat>, out': seq<Item>, blocked': set<nat>)
    requires i < |items| && Held(items, full, i, out, blocked)
    requires HeldBack(items[i].plan, items[i].plan.worker in blocked || full(i), out, blocked, out', blocked')
    ensures Held(items, full, i + 1, out', blocked')
  {
    var next := i + 1;
    forall w ensures HeldFor(items, full, next, out', blocked', w) {
      assert HeldFor(items, full, i, out, blocked, w);
      HeldMoreFor(items, full, i, out, blocked, out', blocked', w);
    }
  }

  lemma HeldMoreFor(items: seq<Item>, full: nat -> bool, i: nat, out: seq<Item>, blocked: set<nat>, out': seq<Item>, blocked': set<nat>, w: nat)
    requires i < |items| && HeldFor(items, full, i, out, blocked, w)
    requires HeldBack(items[i].plan, items[i].plan.worker in blocked || full(i), out, blocked, out', blocked')
    ensures HeldFor(items, full, i + 1, out', blocked', w)
  {
    var k, next := FirstFull(items, full, w, i), FirstFull(items, full, w, i + 1);
    assert items[k..i + 1] == items[k..i] + [items[i]];
    WaitingSplit(items[k..i], [items[i]], w);
    OneWaits(items[i], w);
    if out' != out {
      WaitingSplit(out, [out'[|out|]], w);
      OneWaits(out'[|out|], w);
    }
  }

  lemma HeldInAll(items: seq<Item>, full: nat -> bool, out: seq<Item>, blocked: set<nat>)
    requires Held(items, full, |items|, out, blocked)
    ensures WaitsFromFull(items, full, out)
  {
    forall w ensures FromFull(items, full, out, w) {
      assert HeldFor(items, full, |items|, out, blocked, w);
      assert items[FirstFull(items, full, w, |items|)..|items|] == items[FirstFull(items, full, w, |items|)..];
    }
  }

  /** Half-way through a queue: which workers block, what is sent again, and that nothing else has been received. */
  ghost predicate Passing(items: seq<Item>, i: nat, received: map<nat, seq<Work>>, out: seq<Item>, received': map<nat, seq<Work>>, blocked: set<nat>)
    requires i <= |items|
  {
    && Resent(items[..i], received, out, received') && received.Keys == received'.Keys
    && (forall w | w in received && Absent(items[..i], w) :: received'[w] == received[w])
    && forall w :: w in blocked <==> !Absent(out, w)
  }

  lemma PassingEnds(items: seq<Item>, received: map<nat, seq<Work>>, out: seq<Item>, received': map<nat, seq<Work>>, blocked: set<nat>)
    requires Passing(items, |items|, received, out, received', blocked)
    ensures Resent(items, received, out, received') && out + items[|items|..] == out
  {
    assert items[..|items|] == items;
  }

  lemma PassingBlocked(items: seq<Item>, i: nat, received: map<nat, seq<Work>>, out: seq<Item>, received': map<nat, seq<Work>>, blocked: set<nat>)
    requires i < |items| && Passing(items, i, received, out, received', blocked) && items[i].plan.worker in blocked
    ensures Passing(items, i + 1, received, out + [items[i]], received', blocked)
  {
    Around(out, items, i);
    StillResent(items, i, received, out, received', out + [items[i]], received');
  }

  lemma PassingFull(items: seq<Item>, i: nat, received: map<nat, seq<Work>>, out: seq<Item>, received': map<nat, seq<Work>>, blocked: set<nat>, work: Work)
    requires i < |items| && Passing(items, i, received, out, received', blocked)
    requires work.worker == items[i].plan.worker && (items[i].work.Some? ==> items[i].work.value == work)
    ensures Passing(items, i + 1, received, out + [Item(Some(work), items[i].plan)], received', blocked + {work.worker})
  {
    Around(out, items, i);
    StillResent(items, i, received, out, received', out + [Item(Some(work), items[i].plan)], received');
  }

  lemma PassingSent(items: seq<Item>, i: nat, received: map<nat, seq<Work>>, out: seq<Item>, received': map<nat, seq<Work>>, blocked: set<nat>, work: Work)
    requires i < |items| && Passing(items, i, received, out, received', blocked) && FrozenFirst(items)
    requires work.worker == items[i].plan.worker && (items[i].work.Some? ==> items[i].work.value == work) && work.worker in received'
    ensures Passing(items, i + 1, received, out, received'[work.worker := received'[work.worker] + [work]], blocked)
  {
    Around(out, items, i);
    StillResent(items, i, received, out, received', out, received'[work.worker := received'[work.worker] + [work]]);
  }

  lemma StillResent(items: seq<Item>, i: nat, received: map<nat, seq<Work>>, out: seq<Item>, now: map<nat, seq<Work>>, more: seq<Item>, later: map<nat, seq<Work>>)
    requires i < |items| && Resent(items[..i], received, out, now) && now.Keys == later.Keys && forall w | w in now :: now[w] <= later[w]
    requires items[i].work.Some? ==> items[i] in more || ReceivedNext(items[i].work.value, received, later)
    requires forall x | x in out :: x in more
    ensures Resent(items[..i + 1], received, more, later)
  {
    forall j | 0 <= j < i + 1 && items[..i + 1][j].work.Some? ensures items[j] in more || ReceivedNext(items[j].work.value, received, later) {
      if j < i {
        assert items[..i][j] == items[j];
      }
    }
  }

  lemma Around(out: seq<Item>, items: seq<Item>, i: nat)
    requires i < |items|
    ensures out + items[i..] == out + [items[i]] + items[i + 1..] && items[..i + 1] == items[..i] + [items[i]]
    ensures forall w :: Absent(items[..i + 1], w) <==> Absent(items[..i], w) && items[i].plan.worker != w
    ensures forall item: Item, w :: Absent(out + [item], w) <==> Absent(out, w) && item.plan.worker != w
  {
    forall w ensures Absent(items[..i + 1], w) <==> Absent(items[..i], w) && items[i].plan.worker != w { AbsentMore(items[..i], items[i], w); }
    forall item: Item, w ensures Absent(out + [item], w) <==> Absent(out, w) && item.plan.worker != w { AbsentMore(out, item, w); }
  }

  lemma AbsentMore(q: seq<Item>, item: Item, w: nat)
    ensures Absent(q + [item], w) <==> Absent(q, w) && item.plan.worker != w
  {
    var more := q + [item];
    assert more[|q|] == item && forall i | 0 <= i < |q| :: more[i] == q[i];
  }

  lemma FirstOk(roles: map<nat, bool>, draft: bool, out: seq<Item>, item: Item, rest: seq<Item>, sequences: map<nat, nat>, banks: map<(nat, nat), nat>)
    requires QueueOk(roles, draft, out + [item] + rest, sequences, banks)
    ensures ItemOk(roles, draft, item, sequences, banks)
  {
    assert (out + [item] + rest)[|out|] == item;
  }

  lemma FrozenClash(index: map<Index, Key>, draft: bool, a: seq<Item>, item: Item, b: seq<Item>, work: Work)
    ensures ClashFree(index, draft, a + [item] + b) ==> ClashFree(index, draft, a + [Item(Some(work), item.plan)] + b)
  {
    var q, now := a + [item] + b, a + [Item(Some(work), item.plan)] + b;
    assert |q| == |now| && forall i | 0 <= i < |q| :: now[i].plan == q[i].plan;
    if ClashFree(index, draft, q) {
      forall i | 0 <= i < |now| ensures PlanFree(index, draft, now[i].plan) { assert PlanFree(index, draft, q[i].plan); }
      forall i, j | 0 <= i < j < |now| ensures PlansApart(draft, now[i].plan, now[j].plan) { assert PlansApart(draft, q[i].plan, q[j].plan); }
    }
  }
}
