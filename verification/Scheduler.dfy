/** The node scheduler: the reconcile plan (`reconcile.go`) and one scheduling pass over the
    node's worker map (`node.go`). */
module Scheduler {
  import opened MarketModel
  import opened Sorting

  // ---- string order -----------------------------------------------------------------

  /** Lexicographic order, as used by `sort.Strings`. */
  predicate StrLe(a: string, b: string) {
    a == [] || (b != [] && (a[0] < b[0] || (a[0] == b[0] && StrLe(a[1..], b[1..]))))
  }

  lemma {:induction false} StrLeTotal(a: string, b: string)
    ensures StrLe(a, b) || StrLe(b, a)
  {
    if a != [] && b != [] && a[0] == b[0] {
      StrLeTotal(a[1..], b[1..]);
    }
  }

  lemma {:induction false} StrLeTransitive(a: string, b: string, c: string)
    requires StrLe(a, b) && StrLe(b, c)
    ensures StrLe(a, c)
  {
    if a != [] && a[0] == b[0] == c[0] {
      StrLeTransitive(a[1..], b[1..], c[1..]);
    }
  }

  /** The order is decided at the first difference: the shorter text or the smaller character
      comes first. */
  lemma {:induction false} StrLeAtFirstDifference(a: string, b: string, k: nat)
    requires k <= |a| && k <= |b| && a[..k] == b[..k]
    requires k < |a| && k < |b| ==> a[k] != b[k]
    ensures StrLe(a, b) <==> k == |a| || (k < |b| && a[k] < b[k])
    decreases k
  {
    if k > 0 {
      assert a[0] == a[..k][0] == b[..k][0] == b[0];
      assert a[1..][..k - 1] == a[..k][1..] == b[..k][1..] == b[1..][..k - 1];
      StrLeAtFirstDifference(a[1..], b[1..], k - 1);
    }
  }

  lemma StrLePreorder()
    ensures TotalPreorder(StrLe)
  {
    forall a, b ensures StrLe(a, b) || StrLe(b, a) { StrLeTotal(a, b); }
    forall a, b, c | StrLe(a, b) && StrLe(b, c) ensures StrLe(a, c) { StrLeTransitive(a, b, c); }
  }

  // ---- the plan ---------------------------------------------------------------------

  datatype Plan = Plan(toStart: seq<string>, toStop: seq<string>, startSlots: int)

  ghost predicate Lists(s: seq<string>, xs: set<string>) {
    Distinct(s) && Sorted(StrLe, s) && forall x :: x in s <==> x in xs
  }

  function Clamp(n: int, hi: int): int {
    if n < 0 then 0 else if n > hi then hi else n
  }

  /** Start candidates are the runnable groups not run here, stops the groups run here and no
      longer runnable, both in order; slots are what the kept groups leave free. */
  ghost predicate IsPlan(p: Plan, desired: set<string>, running: set<string>, maxGroups: int) {
    && Lists(p.toStart, desired - running)
    && Lists(p.toStop, running - desired)
    && p.startSlots == if maxGroups > 0 then Clamp(maxGroups - |running * desired|, |p.toStart|) else |p.toStart|
  }

  function ToSet(s: seq<string>): set<string> {
    set x | x in s
  }

  lemma {:induction false} DistinctSize(s: seq<string>)
    requires Distinct(s)
    ensures |ToSet(s)| == |s|
  {
    if s != [] {
      var front, last := s[..|s| - 1], s[|s| - 1];
      assert Distinct(front);
      DistinctSize(front);
      assert last !in front by {
        assert forall i :: 0 <= i < |front| ==> front[i] == s[i];
      }
      assert s == front + [last];
      assert ToSet(s) == ToSet(front) + {last};
    }
  }

  lemma SortLists(s: seq<string>, xs: set<string>)
    requires Distinct(s) && forall x :: x in s <==> x in xs
    ensures Lists(SortBy(StrLe, s), xs)
  {
    StrLePreorder();
    SortBySorts(StrLe, s);
    SameElements(SortBy(StrLe, s), s);
    DistinctKept(s, SortBy(StrLe, s));
  }

  /** `planReconcile`. `running` lists the keys of the worker map, so it has no repeats. */
  method PlanReconcile(desired: seq<string>, running: seq<string>, maxGroups: int) returns (plan: Plan)
    requires Distinct(running)
    ensures IsPlan(plan, ToSet(desired), ToSet(running), maxGroups)
  {
    var desiredSet := ToSet(desired);
    var runningSet := ToSet(running);
    var toStop: seq<string> := [];
    for i := 0 to |running|
      invariant Distinct(toStop)
      invariant forall x :: x in toStop <==> x in running[..i] && x !in desiredSet
    {
      if running[i] !in desiredSet {
        assert running[i] !in running[..i];
        toStop := toStop + [running[i]];
      }
    }
    assert running[..|running|] == running;
    DistinctSize(running);
    DistinctSize(toStop);
    assert ToSet(toStop) == runningSet - desiredSet;
    assert runningSet * desiredSet == runningSet - (runningSet - desiredSet);
    var kept := |runningSet| - |toStop|;

    var candidates: seq<string> := [];
    var todo := desiredSet;
    while todo != {}
      invariant todo <= desiredSet && Distinct(candidates)
      invariant forall x :: x in candidates <==> x in desiredSet - todo && x !in runningSet
      decreases |todo|
    {
      var id :| id in todo;
      todo := todo - {id};
      if id !in runningSet {
        candidates := candidates + [id];
      }
    }
    SortLists(candidates, desiredSet - runningSet);
    SortLists(toStop, runningSet - desiredSet);
    candidates := SortBy(StrLe, candidates);
    toStop := SortBy(StrLe, toStop);
    var available := |candidates|;
    if maxGroups > 0 {
      available := maxGroups - kept;
      if available < 0 {
        available := 0;
      }
    }
    if available > |candidates| {
      available := |candidates|;
    }
    plan := Plan(candidates, toStop, available);
  }

  // ---- weights ----------------------------------------------------------------------

  function GroupWeight(weight: int): int {
    if weight <= 0 then 1 else weight
  }

  /** The total weight of a worker map. */
  ghost function Weight(workers: map<string, int>): int {
    if workers == map[] then 0
    else var g :| g in workers; workers[g] + Weight(workers - {g})
  }

  lemma {:induction false} WeightWithout(workers: map<string, int>, g: string)
    requires g in workers
    ensures Weight(workers) == workers[g] + Weight(workers - {g})
    decreases |workers|
  {
    var h :| h in workers && Weight(workers) == workers[h] + Weight(workers - {h});
    if h != g {
      WeightWithout(workers - {h}, g);
      WeightWithout(workers - {g}, h);
      assert workers - {h} - {g} == workers - {g} - {h};
    }
  }

  lemma WeightWith(workers: map<string, int>, g: string, w: int)
    requires g !in workers
    ensures Weight(workers[g := w]) == Weight(workers) + w
    ensures |workers[g := w]| == |workers| + 1
  {
    WeightWithout(workers[g := w], g);
    assert workers[g := w] - {g} == workers;
  }

  predicate Positive(workers: map<string, int>) {
    forall g :: g in workers ==> workers[g] >= 1
  }

  /** Dropping workers frees weight and slots. */
  lemma WeightShrinks(workers: map<string, int>, gone: set<string>)
    requires Positive(workers)
    ensures 0 <= Weight(workers - gone) <= Weight(workers)
    ensures |workers - gone| <= |workers|
  {
    WeightOfRest(workers, gone);
    WeightIsNonNegative(workers - gone);
    FewerKeys((workers - gone).Keys, workers.Keys);
    assert |workers - gone| == |(workers - gone).Keys|;
  }

  lemma FewerKeys(a: set<string>, b: set<string>)
    requires a <= b
    ensures |a| <= |b|
  {
    assert b == a + (b - a);
  }

  lemma {:induction false} WeightOfRest(workers: map<string, int>, gone: set<string>)
    requires Positive(workers)
    ensures Weight(workers - gone) <= Weight(workers)
    decreases |gone|
  {
    if gone == {} {
      assert workers - gone == workers;
    } else {
      var g :| g in gone;
      var fewer, left := workers - {g}, gone - {g};
      WeightOfRest(fewer, left);
      assert fewer - left == workers - gone;
      WeightOfOneLess(workers, g);
    }
  }

  lemma WeightOfOneLess(workers: map<string, int>, g: string)
    requires Positive(workers)
    ensures Weight(workers - {g}) <= Weight(workers)
  {
    if g in workers {
      WeightWithout(workers, g);
    } else {
      assert workers - {g} == workers;
    }
  }

  lemma {:induction false} WeightIsNonNegative(workers: map<string, int>)
    requires Positive(workers)
    ensures 0 <= Weight(workers)
    decreases |workers|
  {
    if workers != map[] {
      var g :| g in workers;
      WeightIsNonNegative(workers - {g});
      WeightWithout(workers, g);
    }
  }

  // ---- one pass ---------------------------------------------------------------------

  datatype Config = Config(maxGroups: int, maxWeight: int)

  /** `withDefaults`: both limits are positive afterwards. */
  function WithDefaults(c: Config): Config {
    Config(if c.maxGroups <= 0 then 10 else c.maxGroups, if c.maxWeight <= 0 then 100 else c.maxWeight)
  }

  /** What the surroundings do in one pass: which workers have died, which groups are runnable
      with which configured weight (nothing when listing fails), and for which groups lease
      acquisition and input loading would succeed. */
  datatype Env = Env(dead: set<string>, listing: Option<map<string, int>>, startable: set<string>)

  /** The start loop: skip what would exceed the weight, stop when the slots are used up. The
      second result is the running `currentWeight`. */
  function StartAll(maxWeight: int, workers: map<string, int>, weight: int, candidates: seq<string>, slots: int,
                    listing: map<string, int>, startable: set<string>): (map<string, int>, int)
    requires forall g :: g in candidates ==> g in listing
    decreases |candidates|
  {
    if candidates == [] || slots <= 0 then (workers, weight)
    else
      var g, rest := candidates[0], candidates[1..];
      assert g in candidates;
      var w := GroupWeight(listing[g]);
      if weight + w > maxWeight || g !in startable
      then StartAll(maxWeight, workers, weight, rest, slots, listing, startable)
      else StartAll(maxWeight, workers[g := w], weight + w, rest, slots - 1, listing, startable)
  }

  /** `reconcileOnce`, given the plan it computed. */
  ghost function Pass(cfg: Config, workers: map<string, int>, env: Env, plan: Plan): map<string, int> {
    var live := workers - env.dead;
    if env.listing.None? || !IsPlan(plan, env.listing.value.Keys, live.Keys, cfg.maxGroups) then live
    else
      var kept := live - ToSet(plan.toStop);
      StartAll(cfg.maxWeight, kept, Weight(kept), plan.toStart, plan.startSlots, env.listing.value, env.startable).0
  }

  ghost predicate Safe(cfg: Config, workers: map<string, int>) {
    Positive(workers) && |workers| <= cfg.maxGroups && Weight(workers) <= cfg.maxWeight
  }

  /** A candidate is accounted for: started, not startable, or too heavy for what is left. */
  predicate Handled(maxWeight: int, g: string, listing: map<string, int>, startable: set<string>,
                    after: map<string, int>, weight: int)
    requires g in listing
  {
    g in after || g !in startable || weight + GroupWeight(listing[g]) > maxWeight
  }

  /** What the start loop guarantees about the map it leaves, whose total is `weight`. */
  ghost predicate LoopResult(maxWeight: int, workers: map<string, int>, candidates: seq<string>, slots: int,
                             listing: map<string, int>, startable: set<string>, after: map<string, int>, weight: int)
    requires forall g :: g in candidates ==> g in listing
  {
    && Positive(after) && weight <= maxWeight
    && |workers| <= |after| <= |workers| + (if slots < 0 then 0 else slots)
    && |after| <= |workers| + |candidates|
    && (|after| == |workers| + |candidates| ==> forall g :: g in candidates ==> g in after)
    && workers.Keys <= after.Keys
    && (|after| < |workers| + slots ==>
          forall g :: g in candidates ==> Handled(maxWeight, g, listing, startable, after, weight))
  }

  lemma {:induction false} StartAllBounds(maxWeight: int, workers: map<string, int>, weight: int,
                                          candidates: seq<string>, slots: int, listing: map<string, int>,
                                          startable: set<string>)
    requires forall g :: g in candidates ==> g in listing && g !in workers
    requires Distinct(candidates) && Positive(workers) && weight <= maxWeight
    ensures var (after, total) := StartAll(maxWeight, workers, weight, candidates, slots, listing, startable);
      LoopResult(maxWeight, workers, candidates, slots, listing, startable, after, total) && weight <= total
    decreases |candidates|
  {
    if candidates != [] && slots > 0 {
      var g, rest := candidates[0], candidates[1..];
      HeadIsNew(candidates);
      var w := GroupWeight(listing[g]);
      var starts := weight + w <= maxWeight && g in startable;
      var more, sum, left := if starts then workers[g := w] else workers, if starts then weight + w else weight,
                             if starts then slots - 1 else slots;
      assert candidates == [g] + rest;
      StartAllBounds(maxWeight, more, sum, rest, left, listing, startable);
      var (after, total) := StartAll(maxWeight, more, sum, rest, left, listing, startable);
      OneMoreCandidate(maxWeight, workers, more, g, rest, slots, listing, startable, after, total);
    }
  }

  /** `total` is a measure of worker maps that grows by a worker's weight when it is added. */
  ghost predicate Additive(total: map<string, int> -> int) {
    forall m: map<string, int>, g, w {:trigger m[g := w]} :: g !in m ==> total(m[g := w]) == total(m) + w
  }

  lemma WeightIsAdditive()
    ensures Additive(Weight)
  {
    forall m: map<string, int>, g, w {:trigger m[g := w]} | g !in m
      ensures Weight(m[g := w]) == Weight(m) + w
    {
      WeightWith(m, g, w);
    }
  }

  /** The running weight is the weight of the map. */
  lemma {:induction false} StartAllWeight(total: map<string, int> -> int, maxWeight: int, workers: map<string, int>,
                                          weight: int, candidates: seq<string>, slots: int,
                                          listing: map<string, int>, startable: set<string>)
    requires Additive(total) && weight == total(workers) && Distinct(candidates)
    requires forall g :: g in candidates ==> g in listing && g !in workers
    ensures var (after, sum) := StartAll(maxWeight, workers, weight, candidates, slots, listing, startable);
      sum == total(after)
    decreases |candidates|
  {
    if candidates != [] && slots > 0 {
      var g, rest := candidates[0], candidates[1..];
      HeadIsNew(candidates);
      var w := GroupWeight(listing[g]);
      if weight + w > maxWeight || g !in startable {
        StartAllWeight(total, maxWeight, workers, weight, rest, slots, listing, startable);
      } else {
        StartAllWeight(total, maxWeight, workers[g := w], weight + w, rest, slots - 1, listing, startable);
      }
    }
  }

  lemma HeadIsNew(candidates: seq<string>)
    requires Distinct(candidates) && candidates != []
    ensures candidates[0] !in candidates[1..] && Distinct(candidates[1..])
    ensures candidates == [candidates[0]] + candidates[1..]
  {
    assert forall i :: 0 <= i < |candidates| - 1 ==> candidates[1..][i] == candidates[i + 1];
  }

  /** The loop's guarantee for the rest extends over the candidate just decided. */
  lemma OneMoreCandidate(maxWeight: int, workers: map<string, int>, more: map<string, int>, g: string,
                         rest: seq<string>, slots: int, listing: map<string, int>, startable: set<string>,
                         after: map<string, int>, weight: int)
    requires slots > 0 && g in listing && (forall x :: x in rest ==> x in listing)
    requires |more| == |workers| + (if g in more then 1 else 0) && workers.Keys <= more.Keys
    requires LoopResult(maxWeight, more, rest, if g in more then slots - 1 else slots, listing, startable, after,
                        weight)
    requires g !in more ==> g !in startable || weight + GroupWeight(listing[g]) > maxWeight
    ensures LoopResult(maxWeight, workers, [g] + rest, slots, listing, startable, after, weight)
  {
    assert forall x :: x in [g] + rest <==> x == g || x in rest;
  }

  /** The pass, when it has a listing: what it starts from and what it guarantees. */
  lemma PassResult(cfg: Config, workers: map<string, int>, env: Env, plan: Plan)
    requires Safe(cfg, workers) && env.listing.Some?
    requires IsPlan(plan, env.listing.value.Keys, (workers - env.dead).Keys, cfg.maxGroups)
    ensures forall g :: g in plan.toStart ==> g in env.listing.value && g !in workers - env.dead
    ensures var live := workers - env.dead;
      var after := Pass(cfg, workers, env, plan);
      && |live - ToSet(plan.toStop)| == |live.Keys * env.listing.value.Keys| <= cfg.maxGroups
      && LoopResult(cfg.maxWeight, live - ToSet(plan.toStop), plan.toStart, plan.startSlots,
                    env.listing.value, env.startable, after, Weight(after))
  {
    var live := workers - env.dead;
    WeightShrinks(workers, env.dead);
    KeptSize(live, plan, env.listing.value, cfg.maxGroups);
    WeightShrinks(live, ToSet(plan.toStop));
    var kept := live - ToSet(plan.toStop);
    StartAllBounds(cfg.maxWeight, kept, Weight(kept), plan.toStart, plan.startSlots, env.listing.value, env.startable);
    WeightIsAdditive();
    StartAllWeight(Weight, cfg.maxWeight, kept, Weight(kept), plan.toStart, plan.startSlots, env.listing.value,
                   env.startable);
  }

  /** One pass keeps the node within both limits. */
  lemma PassKeepsSafe(cfg: Config, workers: map<string, int>, env: Env, plan: Plan)
    requires Safe(cfg, workers) && cfg.maxGroups > 0
    ensures Safe(cfg, Pass(cfg, workers, env, plan))
  {
    if env.listing.Some? && IsPlan(plan, env.listing.value.Keys, (workers - env.dead).Keys, cfg.maxGroups) {
      PassResult(cfg, workers, env, plan);
    } else {
      WeightShrinks(workers, env.dead);
    }
  }

  lemma KeptSize(live: map<string, int>, plan: Plan, listing: map<string, int>, maxGroups: int)
    requires IsPlan(plan, listing.Keys, live.Keys, maxGroups)
    ensures |live - ToSet(plan.toStop)| == |live.Keys * listing.Keys|
    ensures forall g :: g in plan.toStart ==> g in listing && g !in live
  {
    assert (live - ToSet(plan.toStop)).Keys == live.Keys * listing.Keys;
  }

  ghost function Passes(cfg: Config, workers: map<string, int>, envs: seq<Env>, plans: seq<Plan>): map<string, int>
    requires |envs| == |plans|
  {
    if envs == [] then workers
    else Pass(cfg, Passes(cfg, workers, envs[..|envs| - 1], plans[..|plans| - 1]), envs[|envs| - 1], plans[|plans| - 1])
  }

  /** Capacity is never exceeded: across every sequence of passes, with any refusals, load
      failures, pruned workers and changing runnable groups and weights. */
  lemma {:induction false} NeverOverCapacity(cfg: Config, envs: seq<Env>, plans: seq<Plan>)
    requires |envs| == |plans| && cfg.maxGroups > 0 && cfg.maxWeight > 0
    ensures Safe(cfg, Passes(cfg, map[], envs, plans))
  {
    if envs != [] {
      var n := |envs| - 1;
      NeverOverCapacity(cfg, envs[..n], plans[..n]);
      PassKeepsSafe(cfg, Passes(cfg, map[], envs[..n], plans[..n]), envs[n], plans[n]);
    }
  }

  /** Work conservation: if a slot is still free after a pass, every runnable group that this
      node does not run could not be started in this pass, or would still exceed the weight. */
  lemma PassIsWorkConserving(cfg: Config, workers: map<string, int>, env: Env, plan: Plan, g: string)
    requires Safe(cfg, workers)
    ensures FreeSlot(cfg, workers, env, plan) && g in env.listing.value && g !in Pass(cfg, workers, env, plan) ==>
      || g !in env.startable
      || Weight(Pass(cfg, workers, env, plan)) + (if env.listing.value[g] < 1 then 1 else env.listing.value[g])
         > cfg.maxWeight
  {
    var live, after := workers - env.dead, Pass(cfg, workers, env, plan);
    if FreeSlot(cfg, workers, env, plan) && g in env.listing.value && g !in after {
      PassResult(cfg, workers, env, plan);
      assert g in live ==> g in live - ToSet(plan.toStop);
      assert g in plan.toStart;
      assert Handled(cfg.maxWeight, g, env.listing.value, env.startable, after, Weight(after));
    }
  }

  /** The pass had a listing and a plan for it, and left a slot free. */
  ghost predicate FreeSlot(cfg: Config, workers: map<string, int>, env: Env, plan: Plan) {
    && cfg.maxGroups > 0 && env.listing.Some?
    && IsPlan(plan, env.listing.value.Keys, (workers - env.dead).Keys, cfg.maxGroups)
    && |Pass(cfg, workers, env, plan)| < cfg.maxGroups
  }

  // ---- which groups run -------------------------------------------------------------

  /** The workers given are kept as they are, and every new one is a startable candidate with
      the weight the listing has for it, at least 1. */
  ghost predicate AddsStartable(workers: map<string, int>, candidates: seq<string>, listing: map<string, int>,
                                startable: set<string>, after: map<string, int>)
    requires forall g :: g in candidates ==> g in listing
  {
    && (forall g :: g in workers ==> g in after && after[g] == workers[g])
    && (forall g :: g in after && g !in workers ==> g in candidates && g in startable)
    && (forall g :: g in after && g !in workers ==> after[g] == if listing[g] < 1 then 1 else listing[g])
  }

  lemma {:induction false} StartAllAdds(maxWeight: int, workers: map<string, int>, weight: int,
                                        candidates: seq<string>, slots: int, listing: map<string, int>,
                                        startable: set<string>)
    requires forall g :: g in candidates ==> g in listing && g !in workers
    requires Distinct(candidates)
    ensures AddsStartable(workers, candidates, listing, startable,
                          StartAll(maxWeight, workers, weight, candidates, slots, listing, startable).0)
    decreases |candidates|
  {
    if candidates != [] && slots > 0 {
      var g, rest := candidates[0], candidates[1..];
      HeadIsNew(candidates);
      var w := GroupWeight(listing[g]);
      if weight + w > maxWeight || g !in startable {
        StartAllAdds(maxWeight, workers, weight, rest, slots, listing, startable);
      } else {
        StartAllAdds(maxWeight, workers[g := w], weight + w, rest, slots - 1, listing, startable);
      }
    }
  }

  /** After a pass with a listing exactly these run: every live listed group, unchanged, and
      startable listed groups that were not live, each with its listed weight, at least 1. */
  lemma PassRuns(cfg: Config, workers: map<string, int>, env: Env, plan: Plan, g: string)
    requires env.listing.Some?
    requires IsPlan(plan, env.listing.value.Keys, (workers - env.dead).Keys, cfg.maxGroups)
    ensures var listing, after := env.listing.value, Pass(cfg, workers, env, plan);
      && (g in after ==> g in listing)
      && (g in workers && g !in env.dead && g in listing ==> g in after && after[g] == workers[g])
      && (g in after && (g !in workers || g in env.dead) ==>
            g in env.startable && after[g] == if listing[g] < 1 then 1 else listing[g])
  {
    var live := workers - env.dead;
    KeptSize(live, plan, env.listing.value, cfg.maxGroups);
    var kept := live - ToSet(plan.toStop);
    StartAllAdds(cfg.maxWeight, kept, Weight(kept), plan.toStart, plan.startSlots, env.listing.value, env.startable);
    RunsAfter(live, env.listing.value, env.startable, plan, Pass(cfg, workers, env, plan), g);
  }

  lemma RunsAfter(live: map<string, int>, listing: map<string, int>, startable: set<string>, plan: Plan,
                  after: map<string, int>, g: string)
    requires Lists(plan.toStart, listing.Keys - live.Keys) && Lists(plan.toStop, live.Keys - listing.Keys)
    requires AddsStartable(live - ToSet(plan.toStop), plan.toStart, listing, startable, after)
    ensures g in after ==> g in listing
    ensures g in live && g in listing ==> g in after && after[g] == live[g]
    ensures g in after && g !in live ==> g in startable && after[g] == if listing[g] < 1 then 1 else listing[g]
  {
    assert g in live && g in listing ==> g in live - ToSet(plan.toStop);
    assert g in live && g !in listing ==> g in plan.toStop;
  }

  /** What the loop starts fits on top of the weight it began with. */
  lemma {:induction false} StartedFits(maxWeight: int, workers: map<string, int>, weight: int,
                                       candidates: seq<string>, slots: int, listing: map<string, int>,
                                       startable: set<string>, g: string)
    requires forall x :: x in candidates ==> x in listing && x !in workers
    requires Distinct(candidates) && g !in workers
    requires g in StartAll(maxWeight, workers, weight, candidates, slots, listing, startable).0
    ensures slots > 0 && g in candidates && weight + (if listing[g] < 1 then 1 else listing[g]) <= maxWeight
    decreases |candidates|
  {
    if candidates != [] && slots > 0 {
      var h, rest := candidates[0], candidates[1..];
      HeadIsNew(candidates);
      var w := GroupWeight(listing[h]);
      if weight + w > maxWeight || h !in startable {
        StartedFits(maxWeight, workers, weight, rest, slots, listing, startable, g);
      } else if g != h {
        StartedFits(maxWeight, workers[h := w], weight + w, rest, slots - 1, listing, startable, g);
      }
    }
  }

  /** A candidate is passed over for a later one only if it is heavier or cannot be started. */
  lemma {:induction false} EarlierGoesFirst(maxWeight: int, workers: map<string, int>, weight: int,
                                            candidates: seq<string>, slots: int, listing: map<string, int>,
                                            startable: set<string>, i: nat, j: nat)
    requires forall g :: g in candidates ==> g in listing && g !in workers
    requires Distinct(candidates) && i < j < |candidates|
    requires candidates[i] in startable && listing[candidates[i]] <= listing[candidates[j]]
    requires candidates[j] in StartAll(maxWeight, workers, weight, candidates, slots, listing, startable).0
    ensures candidates[i] in StartAll(maxWeight, workers, weight, candidates, slots, listing, startable).0
    decreases |candidates|
  {
    var g, rest := candidates[0], candidates[1..];
    HeadIsNew(candidates);
    StartedFits(maxWeight, workers, weight, candidates, slots, listing, startable, candidates[j]);
    var w := GroupWeight(listing[g]);
    if weight + w > maxWeight || g !in startable {
      EarlierGoesFirst(maxWeight, workers, weight, rest, slots, listing, startable, i - 1, j - 1);
    } else if i > 0 {
      EarlierGoesFirst(maxWeight, workers[g := w], weight + w, rest, slots - 1, listing, startable, i - 1, j - 1);
    } else {
      StartAllAdds(maxWeight, workers[g := w], weight + w, rest, slots - 1, listing, startable);
    }
  }

  /** Among runnable groups that do not run, one that sorts earlier is not passed over for a
      later one unless it is heavier or cannot be started. */
  lemma PassPrefersEarlier(cfg: Config, workers: map<string, int>, env: Env, plan: Plan, g: string, h: string)
    requires env.listing.Some?
    requires IsPlan(plan, env.listing.value.Keys, (workers - env.dead).Keys, cfg.maxGroups)
    requires g in env.listing.value && h in env.listing.value && g !in workers - env.dead && h !in workers - env.dead
    requires !StrLe(h, g) && g in env.startable && env.listing.value[g] <= env.listing.value[h]
    requires h in Pass(cfg, workers, env, plan)
    ensures g in Pass(cfg, workers, env, plan)
  {
    var live := workers - env.dead;
    KeptSize(live, plan, env.listing.value, cfg.maxGroups);
    var kept := live - ToSet(plan.toStop);
    assert g in plan.toStart && h in plan.toStart;
    var i: nat :| i < |plan.toStart| && plan.toStart[i] == g;
    var j: nat :| j < |plan.toStart| && plan.toStart[j] == h;
    StrLeTotal(g, g);
    EarlierGoesFirst(cfg.maxWeight, kept, Weight(kept), plan.toStart, plan.startSlots, env.listing.value,
                     env.startable, i, j);
  }

  // ---- the node ---------------------------------------------------------------------

  /** A runtime node's worker map: group id to the weight of the group it was started with. */
  class Node {
    const cfg: Config
    var workers: map<string, int>

    ghost predicate Valid()
      reads this
    {
      cfg.maxGroups > 0 && cfg.maxWeight > 0 && Safe(cfg, workers)
    }

    constructor (c: Config)
      ensures Valid() && workers == map[]
      ensures cfg.maxGroups == if c.maxGroups > 0 then c.maxGroups else 10
      ensures cfg.maxWeight == if c.maxWeight > 0 then c.maxWeight else 100
    {
      cfg := WithDefaults(c);
      workers := map[];
    }

    /** `runningGroupIDs`: the keys, in whatever order the map iterates. */
    method RunningGroupIDs() returns (ids: seq<string>)
      ensures Distinct(ids) && ToSet(ids) == workers.Keys
    {
      ids := [];
      var todo := workers.Keys;
      while todo != {}
        invariant todo <= workers.Keys && Distinct(ids)
        invariant forall x :: x in ids <==> x in workers.Keys - todo
        decreases |todo|
      {
        var g :| g in todo;
        assert g !in ids;
        todo := todo - {g};
        ids := ids + [g];
      }
    }

    /** `capacity`: the total weight, summed worker by worker. */
    method CurrentWeight() returns (weight: int)
      ensures weight == Weight(workers)
    {
      weight := 0;
      var todo := workers;
      while todo != map[]
        invariant weight + Weight(todo) == Weight(workers)
        decreases |todo|
      {
        var g :| g in todo;
        WeightWithout(todo, g);
        weight := weight + todo[g];
        todo := todo - {g};
      }
    }

    /** `pruneDeadWorkers`: forget the workers that ended on their own. */
    method PruneDeadWorkers(dead: set<string>)
      modifies this
      ensures workers == old(workers) - dead
    {
      workers := workers - dead;
    }

    /** The stop loop of a pass. */
    method StopWorkers(toStop: seq<string>)
      modifies this
      ensures workers == old(workers) - ToSet(toStop)
    {
      for i := 0 to |toStop|
        invariant workers == old(workers) - ToSet(toStop[..i])
      {
        workers := workers - {toStop[i]};
        assert ToSet(toStop[..i + 1]) == ToSet(toStop[..i]) + {toStop[i]};
      }
      assert toStop[..|toStop|] == toStop;
    }

    /** `tryStartWorker`: succeeds when the lease is granted and the inputs load. */
    method TryStartWorker(g: string, weight: int, startable: bool) returns (ok: bool)
      modifies this
      ensures ok == startable
      ensures workers == if ok then old(workers)[g := weight] else old(workers)
    {
      if !startable {
        return false;
      }
      workers := workers[g := weight];
      return true;
    }

    /** The start loop of a pass. */
    method StartWorkers(toStart: seq<string>, startSlots: int, listing: map<string, int>, startable: set<string>)
      requires forall g :: g in toStart ==> g in listing
      modifies this
      ensures workers ==
        StartAll(cfg.maxWeight, old(workers), Weight(old(workers)), toStart, startSlots, listing, startable).0
    {
      var started := 0;
      var currentWeight := CurrentWeight();
      var i := 0;
      while i < |toStart| && started < startSlots
        invariant 0 <= i <= |toStart|
        invariant StartAll(cfg.maxWeight, old(workers), Weight(old(workers)), toStart, startSlots, listing, startable)
               == StartAll(cfg.maxWeight, workers, currentWeight, toStart[i..], startSlots - started, listing,
                           startable)
      {
        var g := toStart[i];
        assert toStart[i..][1..] == toStart[i + 1..] && toStart[i..][0] == g;
        i := i + 1;
        var weight := GroupWeight(listing[g]);
        if currentWeight + weight > cfg.maxWeight {
          continue;
        }
        var ok := TryStartWorker(g, weight, g in startable);
        if ok {
          started := started + 1;
          currentWeight := currentWeight + weight;
        }
      }
    }

    /** `reconcileOnce`: prune, plan, stop, start. */
    method ReconcileOnce(env: Env, desired: seq<string>) returns (ghost plan: Plan)
      requires Valid()
      requires env.listing.Some? ==> ToSet(desired) == env.listing.value.Keys
      modifies this
      ensures Valid()
      ensures env.listing.Some? ==>
        IsPlan(plan, env.listing.value.Keys, (old(workers) - env.dead).Keys, cfg.maxGroups)
      ensures workers == Pass(cfg, old(workers), env, plan)
    {
      plan := Plan([], [], 0);
      PassKeepsSafe(cfg, workers, env, plan);
      PruneDeadWorkers(env.dead);
      if env.listing.None? {
        return;
      }
      var running := RunningGroupIDs();
      var p := PlanReconcile(desired, running, cfg.maxGroups);
      plan := p;
      PassKeepsSafe(cfg, old(workers), env, plan);
      StopWorkers(p.toStop);
      StartWorkers(p.toStart, p.startSlots, env.listing.value, env.startable);
    }
  }
}
