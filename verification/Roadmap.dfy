/** The research roadmap: ranking, greedy queues under nested budgets, and over-researched categories. */
module Roadmap {
  import opened Reals
  import opened Dicts
  import opened Sums

  datatype Ranked = Ranked(id: string, category: string, priority: real, actionable: bool, runtime: real)

  // ---- the cost of an experiment ----

  /** Minutes an experiment is estimated to take. */
  function Runtime(frequency: real, features: nat, assets: nat, ml: bool): (r: real)
    requires frequency >= 0.0
    ensures r >= 5.0
    ensures var breadth := if assets > 1 then assets else 1;
            var minutes := (1.0 + 4.0 * frequency) * (5 + features) as real * (3 + breadth) as real;
            3.0 * r == if ml then 4.0 * minutes else minutes
  {
    var breadth := if assets > 1 then assets else 1;
    var f, n, a := 1.0 + 4.0 * frequency, 1.0 + features as real / 5.0, 1.0 + breadth as real / 3.0;
    GrowingProduct(f, n);
    GrowingProduct(f * n, a);
    var r := 5.0 * (f * n * a);
    if ml then 4.0 * r else r
  }

  lemma GrowingProduct(x: real, y: real)
    requires x >= 1.0 && y >= 1.0
    ensures x * y >= 1.0
  {
    var r := NonNegativeProduct(x - 1.0, y - 1.0);
  }

  // ---- ranking ----

  /** Behind every hypothesis of the same or a higher priority. */
  function Place(rs: seq<Ranked>, r: Ranked): (k: nat)
    ensures k <= |rs|
    ensures k > 0 ==> rs[k - 1].priority >= r.priority
    ensures forall i :: k <= i < |rs| ==> rs[i].priority < r.priority
  {
    if |rs| == 0 || rs[|rs| - 1].priority >= r.priority then |rs| else Place(rs[..|rs| - 1], r)
  }

  /** A stable sort, highest priority first. */
  function ByPriority(rs: seq<Ranked>): seq<Ranked> {
    if |rs| == 0 then []
    else
      var front, last := ByPriority(rs[..|rs| - 1]), rs[|rs| - 1];
      var k := Place(front, last);
      front[..k] + [last] + front[k..]
  }

  predicate Descending(rs: seq<Ranked>) {
    forall i, j :: 0 <= i < j < |rs| ==> rs[i].priority >= rs[j].priority
  }

  lemma {:induction false} ByPriorityDescends(rs: seq<Ranked>)
    ensures Descending(ByPriority(rs))
  {
    hide Place;
    if |rs| > 0 {
      var front, last := ByPriority(rs[..|rs| - 1]), rs[|rs| - 1];
      ByPriorityDescends(rs[..|rs| - 1]);
      InsertDescends(front, Place(front, last), last);
    }
  }

  lemma InsertDescends(s: seq<Ranked>, k: nat, r: Ranked)
    requires Descending(s) && k <= |s|
    requires forall i :: 0 <= i < k ==> s[i].priority >= r.priority
    requires forall i :: k <= i < |s| ==> r.priority >= s[i].priority
    ensures Descending(s[..k] + [r] + s[k..])
  {
    var t := s[..k] + [r] + s[k..];
    forall i, j | 0 <= i < j < |t| ensures t[i].priority >= t[j].priority {
      var x := if i < k then i else i - 1;
      var y := if j < k then j else j - 1;
      if i != k && j != k { assert s[x].priority >= s[y].priority; }
    }
  }

  lemma {:induction false} ByPriorityKeeps(rs: seq<Ranked>)
    ensures multiset(ByPriority(rs)) == multiset(rs)
  {
    hide Place;
    if |rs| > 0 {
      var front, last := rs[..|rs| - 1], rs[|rs| - 1];
      ByPriorityKeeps(front);
      AppendKeeps(rs, front, last);
      InsertKeeps(ByPriority(front), Place(ByPriority(front), last), last);
    }
  }

  lemma AppendKeeps(rs: seq<Ranked>, front: seq<Ranked>, last: Ranked)
    requires |rs| > 0 && front == rs[..|rs| - 1] && last == rs[|rs| - 1]
    ensures multiset(rs) == multiset(front) + multiset{last}
  {
    assert rs == front + [last];
  }

  lemma InsertKeeps(s: seq<Ranked>, k: nat, r: Ranked)
    requires k <= |s|
    ensures multiset(s[..k] + [r] + s[k..]) == multiset(s) + multiset{r}
  {
    assert s == s[..k] + s[k..];
  }

  function Actionable(rs: seq<Ranked>): (a: seq<Ranked>)
    ensures forall r :: r in a <==> r in rs && r.actionable
  {
    if |rs| == 0 then []
    else
      var last := rs[|rs| - 1];
      assert rs == rs[..|rs| - 1] + [last];
      Actionable(rs[..|rs| - 1]) + if last.actionable then [last] else []
  }

  /** The hypotheses of one priority, in order. */
  function Tied(rs: seq<Ranked>, priority: real): seq<Ranked> {
    if |rs| == 0 then []
    else
      var last := rs[|rs| - 1];
      Tied(rs[..|rs| - 1], priority) + if last.priority == priority then [last] else []
  }

  lemma {:induction false} TiedConcat(a: seq<Ranked>, b: seq<Ranked>, priority: real)
    ensures Tied(a + b, priority) == Tied(a, priority) + Tied(b, priority)
  {
    if |b| == 0 {
      assert a + b == a;
    } else {
      assert (a + b)[..|a + b| - 1] == a + b[..|b| - 1];
      TiedConcat(a, b[..|b| - 1], priority);
    }
  }

  lemma {:induction false} NoneTied(rs: seq<Ranked>, priority: real)
    requires forall i :: 0 <= i < |rs| ==> rs[i].priority != priority
    ensures Tied(rs, priority) == []
  {
    if |rs| > 0 { NoneTied(rs[..|rs| - 1], priority); }
  }

  lemma InsertTied(s: seq<Ranked>, k: nat, r: Ranked, priority: real)
    requires k <= |s| && forall i :: k <= i < |s| ==> s[i].priority < r.priority
    ensures Tied(s[..k] + [r] + s[k..], priority) == Tied(s, priority) + Tied([r], priority)
  {
    hide Tied;
    assert s == s[..k] + s[k..];
    TiedConcat(s[..k], s[k..], priority);
    TiedConcat(s[..k] + [r], s[k..], priority);
    TiedConcat(s[..k], [r], priority);
    if r.priority == priority { NoneTied(s[k..], priority); } else { NoneTied([r], priority); }
  }

  /** The ranking is stable: hypotheses of one priority keep their order. */
  lemma {:induction false} ByPriorityStable(rs: seq<Ranked>, priority: real)
    ensures Tied(ByPriority(rs), priority) == Tied(rs, priority)
  {
    hide Place, Tied;
    if |rs| > 0 {
      var front, last := rs[..|rs| - 1], rs[|rs| - 1];
      ByPriorityStable(front, priority);
      InsertTied(ByPriority(front), Place(ByPriority(front), last), last, priority);
      assert rs == front + [last];
      TiedConcat(front, [last], priority);
    }
  }

  lemma {:induction false} ActionableConcat(a: seq<Ranked>, b: seq<Ranked>)
    ensures Actionable(a + b) == Actionable(a) + Actionable(b)
  {
    if |b| == 0 {
      assert a + b == a;
    } else {
      assert (a + b)[..|a + b| - 1] == a + b[..|b| - 1];
      ActionableConcat(a, b[..|b| - 1]);
    }
  }

  lemma {:induction false} TiedActionable(rs: seq<Ranked>, priority: real)
    ensures Tied(Actionable(rs), priority) == Actionable(Tied(rs, priority))
  {
    if |rs| > 0 {
      var front, last := rs[..|rs| - 1], rs[|rs| - 1];
      TiedActionable(front, priority);
      TiedConcat(Actionable(front), if last.actionable then [last] else [], priority);
      ActionableConcat(Tied(front, priority), if last.priority == priority then [last] else []);
      OneActionable(last, priority);
    }
  }

  lemma OneActionable(r: Ranked, priority: real)
    ensures Tied(if r.actionable then [r] else [], priority)
         == Actionable(if r.priority == priority then [r] else [])
  {
    assert [r][..0] == [];
  }

  /** An actionable hypothesis is listed as often as it is there, and no other is. */
  lemma {:induction false} ActionableEach(rs: seq<Ranked>, r: Ranked)
    ensures multiset(Actionable(rs))[r] == if r.actionable then multiset(rs)[r] else 0
  {
    if |rs| > 0 {
      var front, last := rs[..|rs| - 1], rs[|rs| - 1];
      ActionableEach(front, r);
      AppendKeeps(rs, front, last);
      assert multiset(Actionable(front) + [last]) == multiset(Actionable(front)) + multiset{last};
    }
  }

  /** The list that queues are packed from: every actionable hypothesis, as often as it is there, from the highest
      priority down, those of one priority in their given order. */
  lemma RankedList(scored: seq<Ranked>, r: Ranked, priority: real)
    ensures var list := Actionable(ByPriority(scored));
            && Descending(list)
            && multiset(list)[r] == (if r.actionable then multiset(scored)[r] else 0)
            && Tied(list, priority) == Actionable(Tied(scored, priority))
  {
    hide ByPriority, Actionable, Tied, Descending;
    ByPriorityDescends(scored);
    ActionableDescends(ByPriority(scored));
    ByPriorityKeeps(scored);
    ActionableEach(ByPriority(scored), r);
    ByPriorityStable(scored, priority);
    TiedActionable(ByPriority(scored), priority);
  }

  lemma {:induction false} ActionableDescends(rs: seq<Ranked>)
    requires Descending(rs)
    ensures Descending(Actionable(rs))
  {
    if |rs| > 0 {
      var front, last := rs[..|rs| - 1], rs[|rs| - 1];
      ActionableDescends(front);
      forall i | 0 <= i < |Actionable(front)| ensures Actionable(front)[i].priority >= last.priority {
        var r := Actionable(front)[i];
        assert r in Actionable(front);
        var k :| 0 <= k < |front| && front[k] == r;
        assert rs[k].priority >= rs[|rs| - 1].priority;
      }
    }
  }

  // ---- packing a queue ----

  function Load(rs: seq<Ranked>): real {
    if |rs| == 0 then 0.0 else Load(rs[..|rs| - 1]) + rs[|rs| - 1].runtime
  }

  /** The first k hypotheses are a queue for the budget: they fit, or are just the head; no longer prefix
      fits. An empty list has the empty queue. */
  predicate Queue(rs: seq<Ranked>, budget: real, k: nat) {
    && k <= |rs| && (k == 0 ==> |rs| == 0)
    && (k > 1 ==> Load(rs[..k]) <= budget)
    && forall j :: k < j <= |rs| ==> Load(rs[..j]) > budget
  }

  predicate Costly(rs: seq<Ranked>) {
    forall r :: r in rs ==> r.runtime >= 0.0
  }

  lemma LoadStep(rs: seq<Ranked>, k: nat)
    requires k < |rs|
    ensures Load(rs[..k + 1]) == Load(rs[..k]) + rs[k].runtime
  {
    assert rs[..k + 1][..k] == rs[..k];
  }

  lemma {:induction false} LoadGrows(rs: seq<Ranked>, i: nat, j: nat)
    requires Costly(rs) && i <= j <= |rs|
    ensures Load(rs[..i]) <= Load(rs[..j])
    decreases j
  {
    if i < j {
      LoadGrows(rs, i, j - 1);
      LoadStep(rs, j - 1);
      assert rs[j - 1] in rs;
    }
  }

  /** Take hypotheses in order until the next one would overrun the budget; the head is always taken. */
  method Pack(rs: seq<Ranked>, budget: real) returns (picked: seq<Ranked>, spent: real)
    requires Costly(rs)
    ensures picked <= rs && spent == Load(picked) && Queue(rs, budget, |picked|)
  {
    picked, spent := [], 0.0;
    for i := 0 to |rs|
      invariant picked == rs[..i] && spent == Load(picked)
      invariant i > 1 ==> spent <= budget
    {
      LoadStep(rs, i);
      if spent + rs[i].runtime > budget && |picked| > 0 {
        forall j | i < j <= |rs| ensures Load(rs[..j]) > budget {
          LoadGrows(rs, i + 1, j);
        }
        return;
      }
      picked := picked + [rs[i]];
      spent := spent + rs[i].runtime;
    }
    assert rs[..|rs|] == rs;
  }

  /** A budget settles its queue. */
  lemma QueueUnique(rs: seq<Ranked>, budget: real, i: nat, j: nat)
    requires Costly(rs) && Queue(rs, budget, i) && Queue(rs, budget, j)
    ensures i == j
  {
    QueuesNest(rs, budget, budget, i, j);
    QueuesNest(rs, budget, budget, j, i);
  }

  /** A larger budget has the longer queue. */
  lemma QueuesNest(rs: seq<Ranked>, small: real, large: real, i: nat, j: nat)
    requires Costly(rs) && small <= large && Queue(rs, small, i) && Queue(rs, large, j)
    ensures i <= j
  {
    var needed := Load(rs[..i]);
  }

  lemma {:induction false} LoadAtLeast(rs: seq<Ranked>, least: real)
    requires forall r :: r in rs ==> r.runtime >= least
    ensures Load(rs) >= |rs| as real * least
  {
    if |rs| > 0 { LoadAtLeast(rs[..|rs| - 1], least); }
  }

  const DAILY: real := 480.0
  const WEEKLY: real := 2400.0
  const MONTHLY: real := 9600.0
  const QUARTERLY: real := 1000000000.0

  datatype Queues = Queues(
    daily: seq<Ranked>, weekly: seq<Ranked>, monthly: seq<Ranked>, quarterly: seq<Ranked>, actionable: nat)

  /** The four queues: prefixes of one list, each within the next, no hypothesis left out while one of
      lower priority is taken, and at most 96 experiments a day. */
  method Plan(scored: seq<Ranked>) returns (q: Queues)
    requires forall r :: r in scored ==> r.runtime >= 5.0
    ensures var list := Actionable(ByPriority(scored));
            && q.actionable == |list|
            && q.daily <= q.weekly <= q.monthly <= q.quarterly <= list
            && Queue(list, DAILY, |q.daily|) && Queue(list, WEEKLY, |q.weekly|)
            && Queue(list, MONTHLY, |q.monthly|) && Queue(list, QUARTERLY, |q.quarterly|)
    ensures |q.daily| <= 96
  {
    hide Queue, ByPriority, Descending;
    var list := Actionable(ByPriority(scored));
    ListCosts(scored);
    var daily, d := Pack(list, DAILY);
    var weekly, w := Pack(list, WEEKLY);
    var monthly, m := Pack(list, MONTHLY);
    var quarterly, y := Pack(list, QUARTERLY);
    QueuesNest(list, DAILY, WEEKLY, |daily|, |weekly|);
    QueuesNest(list, WEEKLY, MONTHLY, |weekly|, |monthly|);
    QueuesNest(list, MONTHLY, QUARTERLY, |monthly|, |quarterly|);
    DayBound(list, |daily|);
    q := Queues(daily, weekly, monthly, quarterly, |list|);
  }

  /** What the four budgets are in five-minute experiments: as long as the list has that many, a day holds 96, a
      week 480, a month 1920 and a quarter 200 million. */
  lemma FiveMinuteQueues(list: seq<Ranked>, d: nat, w: nat, m: nat, q: nat)
    requires forall r :: r in list ==> r.runtime == 5.0
    requires Queue(list, DAILY, d) && Queue(list, WEEKLY, w) && Queue(list, MONTHLY, m) && Queue(list, QUARTERLY, q)
    ensures |list| >= 96 ==> d == 96
    ensures |list| >= 480 ==> w == 480
    ensures |list| >= 1920 ==> m == 1920
    ensures |list| >= 200000000 ==> q == 200000000
  {
    hide Queue;
    EvenQueue(list, DAILY, 96, d);
    EvenQueue(list, WEEKLY, 480, w);
    EvenQueue(list, MONTHLY, 1920, m);
    EvenQueue(list, QUARTERLY, 200000000, q);
  }

  lemma EvenQueue(list: seq<Ranked>, budget: real, n: nat, k: nat)
    requires (forall r :: r in list ==> r.runtime == 5.0) && Queue(list, budget, k)
    requires n > 0 && budget == 5.0 * n as real
    ensures |list| >= n ==> k == n
  {
    hide Load;
    if |list| >= n {
      EvenLoad(list[..n]);
      if k > 1 { EvenLoad(list[..k]); }
    }
  }

  lemma {:induction false} EvenLoad(rs: seq<Ranked>)
    requires forall r :: r in rs ==> r.runtime == 5.0
    ensures Load(rs) == 5.0 * |rs| as real
  {
    if |rs| > 0 { EvenLoad(rs[..|rs| - 1]); }
  }

  lemma ListCosts(scored: seq<Ranked>)
    requires forall r :: r in scored ==> r.runtime >= 5.0
    ensures forall r :: r in Actionable(ByPriority(scored)) ==> r.runtime >= 5.0
    ensures Costly(Actionable(ByPriority(scored)))
  {
    hide ByPriority;
    ByPriorityKeeps(scored);
    forall r | r in ByPriority(scored) ensures r in scored {
      assert r in multiset(ByPriority(scored));
    }
  }

  lemma DayBound(list: seq<Ranked>, k: nat)
    requires (forall r :: r in list ==> r.runtime >= 5.0) && Queue(list, DAILY, k)
    ensures k <= 96
  {
    if k > 1 {
      LoadAtLeast(list[..k], 5.0);
      assert k as real * 5.0 <= 480.0;
    }
  }

  /** Whatever is queued has at least the priority of every actionable hypothesis left out. */
  lemma NothingBetterLeftOut(scored: seq<Ranked>, budget: real, k: nat, i: nat, j: nat)
    requires var list := Actionable(ByPriority(scored)); Queue(list, budget, k) && i < k <= j < |list|
    ensures var list := Actionable(ByPriority(scored)); list[i].priority >= list[j].priority
  {
    ByPriorityDescends(scored);
    ActionableDescends(ByPriority(scored));
  }

  // ---- over-researched categories ----

  function CountOf(e: (string, int)): real {
    e.1 as real
  }

  /** Hypotheses counted by category. */
  method CountCategories(categories: seq<string>) returns (counts: Dict<int>, total: nat)
    ensures Distinct(counts) && total == |categories|
    ensures forall i :: 0 <= i < |counts| ==> counts[i].1 > 0
    ensures forall c :: Get(counts, c, 0) == multiset(categories)[c]
    ensures SumOver(counts, CountOf) == total as real
  {
    hide Get, Put, IndexOf, SumOver;
    counts, total := [], 0;
    NothingCounted();
    for i := 0 to |categories|
      invariant Distinct(counts) && total == i
      invariant forall k :: 0 <= k < |counts| ==> counts[k].1 > 0
      invariant forall c :: Get(counts, c, 0) == multiset(categories[..i])[c]
      invariant SumOver(counts, CountOf) == total as real
    {
      var c := categories[i];
      assert categories[..i + 1] == categories[..i] + [c];
      CountOne(counts, c);
      var n := Get(counts, c, 0) + 1;
      var more := Put(counts, c, n);
      forall x ensures Get(more, x, 0) == multiset(categories[..i + 1])[x] {
        GetPut(counts, c, n, x, 0);
      }
      counts := more;
      total := total + 1;
    }
    assert categories[..|categories|] == categories;
  }

  lemma NothingCounted()
    ensures SumOver([], CountOf) == 0.0
    ensures forall c :: Get<int>([], c, 0) == 0
  {
  }

  lemma CountOne(counts: Dict<int>, c: string)
    requires Distinct(counts) && forall k :: 0 <= k < |counts| ==> counts[k].1 > 0
    ensures var more := Put(counts, c, Get(counts, c, 0) + 1);
            && Distinct(more) && (forall k :: 0 <= k < |more| ==> more[k].1 > 0)
            && SumOver(more, CountOf) == SumOver(counts, CountOf) + 1.0
  {
    var i := IndexOf(counts, c);
    if i < |counts| {
      SumUpdate(counts, i, (c, counts[i].1 + 1), CountOf);
    } else {
      SumAppend(counts, (c, 1), CountOf);
    }
  }

  /** Categories holding more than 30 percent of all hypotheses. */
  function OverResearched(counts: Dict<int>, total: nat): seq<(string, int)> {
    if |counts| == 0 then []
    else
      var rest, e := OverResearched(counts[1..], total), counts[0];
      if CountOf(e) / (if total > 1 then total else 1) as real > 0.3 then [e] + rest else rest
  }

  lemma ShareIff(n: int, d: int)
    requires d > 0
    ensures n as real / d as real > 0.3 <==> 10 * n > 3 * d
  {
    var q, x := n as real / d as real, d as real;
    assert q * x == n as real;
    if q > 0.3 { var r := PositiveProduct(q - 0.3, x); } else { var r := NonNegativeProduct(0.3 - q, x); }
  }

  /** A category is over-researched exactly when its count is more than three tenths of all hypotheses. */
  lemma {:induction false} OverResearchedIff(counts: Dict<int>, total: nat, e: (string, int))
    ensures e in OverResearched(counts, total) <==> e in counts && 10 * e.1 > 3 * (if total > 1 then total else 1)
  {
    if |counts| > 0 {
      OverResearchedIff(counts[1..], total, e);
      ShareIff(counts[0].1, if total > 1 then total else 1);
      HeadOrRest(counts, e);
    }
  }

  lemma HeadOrRest(counts: Dict<int>, e: (string, int))
    requires |counts| > 0
    ensures e in counts <==> e == counts[0] || e in counts[1..]
  {
  }

  lemma {:induction false} OverSum(counts: Dict<int>, total: nat)
    requires forall k :: 0 <= k < |counts| ==> counts[k].1 > 0
    ensures var over, scale := OverResearched(counts, total), (if total > 1 then total else 1) as real;
            && SumOver(over, CountOf) <= SumOver(counts, CountOf)
            && SumOver(over, CountOf) >= Times(0.3 * |over| as real, scale)
            && (|over| > 0 ==> SumOver(over, CountOf) > Times(0.3 * |over| as real, scale))
  {
    var over, scale := OverResearched(counts, total), (if total > 1 then total else 1) as real;
    if |counts| > 0 {
      var rest, e := OverResearched(counts[1..], total), counts[0];
      OverSum(counts[1..], total);
      if CountOf(e) / scale > 0.3 {
        ShareMeans(CountOf(e), scale);
        assert ([e] + rest)[1..] == rest;
        TimesAdds(0.3, 0.3 * |rest| as real, scale);
        assert 0.3 * |over| as real == 0.3 + 0.3 * |rest| as real;
      }
    }
  }

  lemma ShareMeans(x: real, d: real)
    requires d > 0.0 && x / d > 0.3
    ensures x > Times(0.3, d)
  {
    var q := x / d;
    assert q * d == x;
    var r := PositiveProduct(q - 0.3, d);
  }

  /** At most three categories can be over-researched at once, whatever the backlog. */
  lemma AtMostThree(counts: Dict<int>, total: nat)
    requires (forall k :: 0 <= k < |counts| ==> counts[k].1 > 0) && SumOver(counts, CountOf) == total as real
    ensures |OverResearched(counts, total)| <= 3
  {
    var n, scale := |OverResearched(counts, total)|, (if total > 1 then total else 1) as real;
    OverSum(counts, total);
    FourAreTooMany(n, scale);
  }

  lemma FourAreTooMany(n: nat, scale: real)
    requires scale > 0.0
    ensures n >= 4 ==> Times(0.3 * n as real, scale) > scale
  {
    if n >= 4 {
      var r := PositiveProduct(0.3 * n as real - 1.0, scale);
      assert Times(0.3 * n as real, scale) == r + scale;
    }
  }
}
