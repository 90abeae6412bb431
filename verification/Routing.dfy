// Picking an Agent and model by tags and cost (apps/daemon/src/agent_routing.rs),
// and what a caller gets that keeps excluding the routes that failed.
//
// Tags are given by their normalised keys, and what a catalogue or the user's
// preferences say of one model by the fields of `Model`.
module AgentRouting {
  import opened Basics

  datatype Cost = VeryLow | Low | Medium | High | VeryHigh {
    function Rank(): nat {
      match this
      case VeryLow => 0
      case Low => 1
      case Medium => 2
      case High => 3
      case VeryHigh => 4
    }
  }

  /** `isAuto` for a model whose id or label has the word "auto"; `configured` when a profile names it. */
  datatype Model = Model(id: string, isAuto: bool, configured: bool, tags: set<string>, cost: Cost)

  /** `base` is the Agent without a model; `profiled` when any profile names the Agent. */
  datatype Agent = Agent(id: string, disabled: bool, ready: bool, needsCatalog: bool, profiled: bool,
                         base: Model, models: seq<Model>)

  datatype Route = Route(agent: string, model: Option<string>)

  datatype Candidate = Candidate(route: Route, tags: set<string>, cost: Cost)

  const UNPROFILED_LIMIT := 3

  // ----- Candidates -----

  predicate Eligible(a: Agent, m: Model) {
    !m.isAuto && (a.profiled ==> m.configured)
  }

  function EligibleModels(a: Agent, models: seq<Model>): (r: seq<Model>)
    ensures |r| <= |models| && forall m :: m in r <==> m in models && Eligible(a, m)
  {
    if models == [] then []
    else
      var n := |models| - 1;
      EligibleModels(a, models[..n]) + if Eligible(a, models[n]) then [models[n]] else []
  }

  function Offered(a: Agent): (r: seq<Model>)
    ensures forall m :: m in r ==> m in a.models && Eligible(a, m)
  {
    var eligible := EligibleModels(a, a.models);
    if a.profiled || |eligible| <= UNPROFILED_LIMIT then eligible else eligible[..UNPROFILED_LIMIT]
  }

  function CandidateOf(a: Agent, m: Model): Candidate {
    Candidate(Route(a.id, Some(m.id)), m.tags, m.cost)
  }

  /** What one Agent offers the router. */
  function CandidatesOf(a: Agent): (r: seq<Candidate>)
    ensures forall c :: c in r ==> c.route.agent == a.id
  {
    if a.disabled || !a.ready then []
    else if a.models == [] then
      if a.needsCatalog then [] else [Candidate(Route(a.id, None), a.base.tags, a.base.cost)]
    else
      var offered := Offered(a);
      seq(|offered|, i requires 0 <= i < |offered| => CandidateOf(a, offered[i]))
  }

  function Candidates(agents: seq<Agent>): seq<Candidate> {
    if agents == [] then [] else Candidates(agents[..|agents| - 1]) + CandidatesOf(agents[|agents| - 1])
  }

  // ----- The order -----

  /** Code points first to last, as strings are compared. */
  predicate Before(a: string, b: string) {
    b != [] && (a == [] || a[0] < b[0] || (a[0] == b[0] && Before(a[1..], b[1..])))
  }

  lemma {:induction false} BeforeTotal(a: string, b: string)
    ensures Before(a, b) || a == b || Before(b, a)
    ensures !(Before(a, b) && Before(b, a)) && !Before(a, a)
  {
    if a != [] && b != [] {
      BeforeTotal(a[1..], b[1..]);
      BeforeTotal(a[1..], a[1..]);
      assert a[1..] == b[1..] && a[0] == b[0] ==> a == b by {
        assert a == [a[0]] + a[1..] && b == [b[0]] + b[1..];
      }
    } else if a != [] {
      BeforeTotal(a[1..], a[1..]);
    }
  }

  lemma {:induction false} BeforeTransitive(a: string, b: string, c: string)
    requires Before(a, b) && Before(b, c)
    ensures Before(a, c)
  {
    if a != [] {
      if a[0] == b[0] && b[0] == c[0] {
        BeforeTransitive(a[1..], b[1..], c[1..]);
      }
    }
  }

  /** The order of words in a dictionary, by code points. */
  lemma {:induction false} BeforeMeans(a: string, b: string)
    ensures Before(a, b) <==> exists k :: FirstDifference(a, b, k)
  {
    if a != [] && b != [] && a[0] == b[0] {
      BeforeMeans(a[1..], b[1..]);
      assert a == [a[0]] + a[1..] && b == [b[0]] + b[1..];
      if Before(a[1..], b[1..]) {
        var k :| FirstDifference(a[1..], b[1..], k);
        assert FirstDifference(a, b, k + 1);
      }
      if k :| FirstDifference(a, b, k) {
        assert FirstDifference(a[1..], b[1..], k - 1);
      }
    } else {
      if Before(a, b) {
        assert FirstDifference(a, b, 0);
      }
    }
  }

  /** `a` and `b` agree up to `k`, where `a` ends or has the smaller character. */
  predicate FirstDifference(a: string, b: string, k: int) {
    && 0 <= k <= |a| && k < |b| && (forall i :: 0 <= i < k ==> a[i] == b[i])
    && (k == |a| || a[k] < b[k])
  }

  predicate ModelBefore(a: Option<string>, b: Option<string>) {
    b.Some? && (a.None? || Before(a.value, b.value))
  }

  /** Cheaper first; ties go by Agent id, then by model id. */
  predicate Cheaper(a: Candidate, b: Candidate) {
    || a.cost.Rank() < b.cost.Rank()
    || (a.cost == b.cost && (Before(a.route.agent, b.route.agent)
                             || (a.route.agent == b.route.agent && ModelBefore(a.route.model, b.route.model))))
  }

  /** From very low to very high; at the same cost by Agent, then by model, an Agent's own choice of model first. */
  lemma CheaperMeans(a: Candidate, b: Candidate, i: nat, j: nat)
    requires i < 5 && j < 5
    requires var costs := [VeryLow, Low, Medium, High, VeryHigh]; a.cost == costs[i] && b.cost == costs[j]
    ensures i < j ==> Cheaper(a, b)
    ensures i == j ==>
              (Cheaper(a, b)
               <==> || Before(a.route.agent, b.route.agent)
                    || (a.route.agent == b.route.agent && b.route.model.Some?
                        && (a.route.model.None? || Before(a.route.model.value, b.route.model.value))))
  {
  }

  lemma RankInjective(a: Cost, b: Cost)
    ensures a.Rank() == b.Rank() <==> a == b
  {
  }

  lemma CheaperTotal(a: Candidate, b: Candidate)
    ensures Cheaper(a, b) || Cheaper(b, a) || (a.route == b.route && a.cost == b.cost)
    ensures !(Cheaper(a, b) && Cheaper(b, a)) && !Cheaper(a, a)
  {
    BeforeTotal(a.route.agent, b.route.agent);
    BeforeTotal(a.route.agent, a.route.agent);
    if a.route.model.Some? && b.route.model.Some? {
      BeforeTotal(a.route.model.value, b.route.model.value);
    }
    if a.route.model.Some? {
      BeforeTotal(a.route.model.value, a.route.model.value);
    }
    RankInjective(a.cost, b.cost);
  }

  lemma CheaperTransitive(a: Candidate, b: Candidate, c: Candidate)
    requires Cheaper(a, b) && Cheaper(b, c)
    ensures Cheaper(a, c)
  {
    RankInjective(a.cost, b.cost);
    RankInjective(b.cost, c.cost);
    if Before(a.route.agent, b.route.agent) && Before(b.route.agent, c.route.agent) {
      BeforeTransitive(a.route.agent, b.route.agent, c.route.agent);
    }
    if ModelBefore(a.route.model, b.route.model) && ModelBefore(b.route.model, c.route.model) && a.route.model.Some? {
      BeforeTransitive(a.route.model.value, b.route.model.value, c.route.model.value);
    }
  }

  // ----- Selection -----

  predicate Matches(c: Candidate, required: set<string>, excluded: set<Route>) {
    c.route !in excluded && required <= c.tags
  }

  function Matching(candidates: seq<Candidate>, required: set<string>, excluded: set<Route>): (r: seq<Candidate>)
    ensures forall c :: c in r <==> c in candidates && Matches(c, required, excluded)
  {
    if candidates == [] then []
    else
      var n := |candidates| - 1;
      Matching(candidates[..n], required, excluded)
      + if Matches(candidates[n], required, excluded) then [candidates[n]] else []
  }

  /** The cheapest of `candidates`: the head of their stable sort. */
  function Cheapest(candidates: seq<Candidate>): (c: Candidate)
    requires candidates != []
    ensures c in candidates
  {
    var n := |candidates| - 1;
    if n == 0 then candidates[0]
    else
      var best := Cheapest(candidates[..n]);
      if Cheaper(candidates[n], best) then candidates[n] else best
  }

  lemma {:induction false} NothingCheaper(candidates: seq<Candidate>)
    requires candidates != []
    ensures forall c :: c in candidates ==> !Cheaper(c, Cheapest(candidates))
  {
    var n := |candidates| - 1;
    if n == 0 {
      CheaperTotal(candidates[0], candidates[0]);
    } else {
      NothingCheaper(candidates[..n]);
      var best := Cheapest(candidates[..n]);
      forall c | c in candidates ensures !Cheaper(c, Cheapest(candidates)) {
        if c in candidates[..n] {
          if Cheaper(candidates[n], best) && Cheaper(c, candidates[n]) {
            CheaperTransitive(c, candidates[n], best);
          }
        } else {
          CheaperTotal(candidates[n], candidates[n]);
        }
      }
    }
  }

  /** `select_tag_route_excluding`: None when nothing matches. */
  function Select(candidates: seq<Candidate>, required: set<string>, excluded: set<Route>): Option<Route> {
    var matching := Matching(candidates, required, excluded);
    if matching == [] then None else Some(Cheapest(matching).route)
  }

  // ----- Retrying with the failed routes excluded -----

  lemma {:induction false} ExcludingShrinks(candidates: seq<Candidate>, required: set<string>,
                                            excluded: set<Route>, r: Route)
    ensures |Matching(candidates, required, excluded + {r})| <= |Matching(candidates, required, excluded)|
    ensures (exists c :: c in Matching(candidates, required, excluded) && c.route == r) ==>
              |Matching(candidates, required, excluded + {r})| < |Matching(candidates, required, excluded)|
  {
    if candidates != [] {
      ExcludingShrinks(candidates[..|candidates| - 1], required, excluded, r);
    }
  }

  /** Every choice of a caller that excludes each route it was given, until there is none left. */
  function Attempts(candidates: seq<Candidate>, required: set<string>, excluded: set<Route>): (r: seq<Candidate>)
    decreases |Matching(candidates, required, excluded)|
  {
    var matching := Matching(candidates, required, excluded);
    if matching == [] then []
    else
      var c := Cheapest(matching);
      ExcludingShrinks(candidates, required, excluded, c.route);
      [c] + Attempts(candidates, required, excluded + {c.route})
  }

  ghost predicate DistinctRoutes(candidates: seq<Candidate>) {
    forall c, d :: c in candidates && d in candidates && c.route == d.route ==> c == d
  }

  ghost predicate InOrder(candidates: seq<Candidate>) {
    forall i, j :: 0 <= i < j < |candidates| ==> Cheaper(candidates[i], candidates[j])
  }

  /** The attempts are the matching candidates, each once, from cheapest to dearest. */
  lemma {:induction false} AttemptsAreAll(candidates: seq<Candidate>, required: set<string>, excluded: set<Route>)
    requires DistinctRoutes(candidates)
    ensures var a := Attempts(candidates, required, excluded);
            && (forall c :: c in a <==> c in candidates && Matches(c, required, excluded))
            && InOrder(a)
    decreases |Matching(candidates, required, excluded)|
  {
    var matching := Matching(candidates, required, excluded);
    if matching != [] {
      var c := Cheapest(matching);
      var more := excluded + {c.route};
      ExcludingShrinks(candidates, required, excluded, c.route);
      AttemptsAreAll(candidates, required, more);
      NothingCheaper(matching);
      var rest := Attempts(candidates, required, more);
      forall d | d in rest ensures Cheaper(c, d) {
        assert d in matching;
        CheaperTotal(c, d);
      }
      forall d | d in candidates && Matches(d, required, excluded) ensures d in [c] + rest {
        if d.route != c.route {
          assert Matches(d, required, more);
        }
      }
    }
  }

  /** After the last attempt nothing is left to choose. */
  lemma {:induction false} AttemptsExhaust(candidates: seq<Candidate>, required: set<string>, excluded: set<Route>)
    ensures var a := Attempts(candidates, required, excluded);
            Select(candidates, required, excluded + (set c | c in a :: c.route)) == None
    decreases |Matching(candidates, required, excluded)|
  {
    var matching := Matching(candidates, required, excluded);
    if matching == [] {
      assert excluded + (set c | c in Attempts(candidates, required, excluded) :: c.route) == excluded;
    } else {
      var c := Cheapest(matching);
      ExcludingShrinks(candidates, required, excluded, c.route);
      AttemptsExhaust(candidates, required, excluded + {c.route});
      var rest := Attempts(candidates, required, excluded + {c.route});
      assert excluded + {c.route} + (set d | d in rest :: d.route)
             == excluded + (set d | d in [c] + rest :: d.route);
    }
  }

  /** There is only one way to put candidates in order. */
  lemma {:induction false} OrderIsUnique(a: seq<Candidate>, b: seq<Candidate>)
    requires InOrder(a) && InOrder(b) && forall c :: c in a <==> c in b
    ensures a == b
  {
    assert b != [] ==> b[0] in b;
    if a != [] {
      assert a[0] in b && b[0] in a;
      HeadsAgree(a, b);
      forall c ensures c in a[1..] <==> c in b[1..] {
        InTail(a, c);
        InTail(b, c);
      }
      OrderIsUnique(a[1..], b[1..]);
      assert a == [a[0]] + a[1..] && b == [b[0]] + b[1..];
    }
  }

  lemma HeadsAgree(a: seq<Candidate>, b: seq<Candidate>)
    requires a != [] && b != [] && InOrder(a) && InOrder(b) && a[0] in b && b[0] in a
    ensures a[0] == b[0]
  {
    CheaperTotal(a[0], b[0]);
  }

  lemma InTail(a: seq<Candidate>, c: Candidate)
    requires a != [] && InOrder(a)
    ensures c in a[1..] <==> c in a && c != a[0]
  {
    CheaperTotal(a[0], a[0]);
    assert a == [a[0]] + a[1..];
  }

  // ----- The Agents behind the candidates -----

  ghost predicate DistinctAgents(agents: seq<Agent>) {
    forall a, b :: a in agents && b in agents && a.id == b.id ==> a == b
  }

  ghost predicate DistinctModels(a: Agent) {
    forall m, n :: m in a.models && n in a.models && m.id == n.id ==> m == n
  }

  lemma {:induction false} CandidatesCome(agents: seq<Agent>, c: Candidate)
    ensures c in Candidates(agents) <==> exists a :: a in agents && c in CandidatesOf(a)
  {
    hide CandidatesOf;
    if agents != [] {
      var n := |agents| - 1;
      CandidatesCome(agents[..n], c);
      forall a ensures a in agents <==> a in agents[..n] || a == agents[n] {
        LastIn(agents, a);
      }
      if c in Candidates(agents[..n]) {
        var a :| a in agents[..n] && c in CandidatesOf(a);
        assert a in agents;
      }
    }
  }

  // ----- What an Agent offers, stated on its catalogue -----

  /** Models before the `n`-th that are not "auto". */
  function Named(models: seq<Model>, n: nat): nat
    requires n <= |models|
  {
    if n == 0 then 0 else Named(models, n - 1) + if models[n - 1].isAuto then 0 else 1
  }

  /** A profiled Agent offers what its profiles name; any other its first three models, "auto" left out of both. */
  ghost predicate Offers(a: Agent, k: int) {
    && 0 <= k < |a.models| && !a.models[k].isAuto
    && if a.profiled then a.models[k].configured else Named(a.models, k) < 3
  }

  lemma EligibleAtEnd(a: Agent, n: nat)
    requires n < |a.models|
    ensures EligibleModels(a, a.models[..n + 1])
            == EligibleModels(a, a.models[..n]) + if Eligible(a, a.models[n]) then [a.models[n]] else []
  {
    assert a.models[..n + 1][..n] == a.models[..n];
  }

  lemma {:induction false} EligibleCount(a: Agent, n: nat)
    requires n <= |a.models| && !a.profiled
    ensures |EligibleModels(a, a.models[..n])| == Named(a.models, n)
  {
    hide EligibleModels;
    if n == 0 {
      NobodyEligible(a);
    } else {
      EligibleCount(a, n - 1);
      EligibleAtEnd(a, n - 1);
    }
  }

  lemma NobodyEligible(a: Agent)
    ensures EligibleModels(a, a.models[..0]) == []
  {
  }

  /** An eligible model stands at the place that those before it leave. */
  lemma {:induction false} EligiblePlace(a: Agent, n: nat, k: nat)
    requires k < n <= |a.models| && !a.profiled && !a.models[k].isAuto
    ensures var place, eligible := Named(a.models, k), EligibleModels(a, a.models[..n]);
            place < |eligible| && eligible[place] == a.models[k]
  {
    hide EligibleModels;
    EligibleAtEnd(a, n - 1);
    if k < n - 1 {
      EligiblePlace(a, n - 1, k);
    } else {
      EligibleCount(a, k);
    }
  }

  /** Each place among the eligible models is some model's. */
  lemma {:induction false} PlaceIsTaken(a: Agent, n: nat, i: nat) returns (k: nat)
    requires n <= |a.models| && !a.profiled && i < Named(a.models, n)
    ensures k < n && !a.models[k].isAuto && Named(a.models, k) == i
  {
    if i < Named(a.models, n - 1) {
      k := PlaceIsTaken(a, n - 1, i);
    } else {
      k := n - 1;
    }
  }

  lemma OfferedExactly(a: Agent, m: Model)
    ensures m in Offered(a) <==> exists k :: Offers(a, k) && a.models[k] == m
  {
    if a.profiled {
      if m in Offered(a) {
        var k :| 0 <= k < |a.models| && a.models[k] == m;
        assert Offers(a, k);
      }
    } else {
      var n := |a.models|;
      assert a.models[..n] == a.models;
      EligibleCount(a, n);
      var offered := Offered(a);
      if m in offered {
        var i :| 0 <= i < |offered| && offered[i] == m;
        var k := PlaceIsTaken(a, n, i);
        EligiblePlace(a, n, k);
        assert Offers(a, k) && a.models[k] == m;
      }
      if k :| Offers(a, k) && a.models[k] == m {
        EligiblePlace(a, n, k);
        assert offered[Named(a.models, k)] == m;
      }
    }
  }

  /** Who is a candidate: an Agent that is on and ready, with a model it offers, or alone if it has no catalogue. */
  lemma CandidateExactly(a: Agent, c: Candidate)
    ensures c in CandidatesOf(a)
            <==> && !a.disabled && a.ready
                 && if a.models == []
                    then !a.needsCatalog && c == Candidate(Route(a.id, None), a.base.tags, a.base.cost)
                    else exists k :: Offers(a, k)
                                     && c == Candidate(Route(a.id, Some(a.models[k].id)), a.models[k].tags, a.models[k].cost)
  {
    if !a.disabled && a.ready && a.models != [] {
      hide Offered, Offers;
      var offered := Offered(a);
      if c in CandidatesOf(a) {
        var i :| 0 <= i < |offered| && CandidateOf(a, offered[i]) == c;
        OfferedExactly(a, offered[i]);
      }
      if k :| Offers(a, k) && c == Candidate(Route(a.id, Some(a.models[k].id)), a.models[k].tags, a.models[k].cost) {
        OfferedExactly(a, a.models[k]);
        var i :| 0 <= i < |offered| && offered[i] == a.models[k];
        assert CandidatesOf(a)[i] == c;
      }
    }
  }

  lemma LastIn<T>(s: seq<T>, x: T)
    requires s != []
    ensures x in s <==> x in s[..|s| - 1] || x == s[|s| - 1]
  {
    assert s == s[..|s| - 1] + [s[|s| - 1]];
  }

  lemma OneAgentsRoutes(a: Agent, c: Candidate, d: Candidate)
    requires DistinctModels(a) && c in CandidatesOf(a) && d in CandidatesOf(a) && c.route == d.route
    ensures c == d
  {
  }

  lemma RoutesDistinct(agents: seq<Agent>)
    requires DistinctAgents(agents) && forall a :: a in agents ==> DistinctModels(a)
    ensures DistinctRoutes(Candidates(agents))
  {
    forall c, d | c in Candidates(agents) && d in Candidates(agents) && c.route == d.route ensures c == d {
      CandidatesCome(agents, c);
      CandidatesCome(agents, d);
      var a :| a in agents && c in CandidatesOf(a);
      var b :| b in agents && d in CandidatesOf(b);
      assert a.id == b.id;
      OneAgentsRoutes(a, c, d);
    }
  }

  /**
   * For distinct Agent ids and distinct model ids per catalogue: retrying with
   * the failed routes excluded tries every matching route exactly once, in
   * order of (cost, Agent, model), whatever order the Agents are listed in.
   */
  lemma RetriesAreFair(agents: seq<Agent>, shuffled: seq<Agent>, required: set<string>)
    requires DistinctAgents(agents) && forall a :: a in agents ==> DistinctModels(a)
    requires forall a :: a in agents <==> a in shuffled
    ensures var tried := Attempts(Candidates(agents), required, {});
            && tried == Attempts(Candidates(shuffled), required, {})
            && (forall c :: c in tried <==> c in Candidates(agents) && required <= c.tags)
            && InOrder(tried)
            && (forall i, j :: 0 <= i < j < |tried| ==> tried[i].route != tried[j].route)
  {
    RoutesDistinct(agents);
    RoutesDistinct(shuffled);
    AttemptsAreAll(Candidates(agents), required, {});
    AttemptsAreAll(Candidates(shuffled), required, {});
    forall c ensures c in Candidates(agents) <==> c in Candidates(shuffled) {
      CandidatesCome(agents, c);
      CandidatesCome(shuffled, c);
    }
    OrderIsUnique(Attempts(Candidates(agents), required, {}), Attempts(Candidates(shuffled), required, {}));
    var tried := Attempts(Candidates(agents), required, {});
    forall i, j | 0 <= i < j < |tried| ensures tried[i].route != tried[j].route {
      CheaperTotal(tried[i], tried[i]);
    }
  }

  // ----- The router as it runs -----

  method CollectCandidates(agents: seq<Agent>) returns (r: seq<Candidate>)
    ensures r == Candidates(agents)
  {
    r := [];
    for i := 0 to |agents|
      invariant r == Candidates(agents[..i])
    {
      r := r + CandidatesOf(agents[i]);
      assert agents[..i + 1][..i] == agents[..i];
    }
    assert agents[..|agents|] == agents;
  }

  /** What is left of the candidates after tags and exclusions. */
  method Retain(candidates: seq<Candidate>, required: set<string>, excluded: set<Route>) returns (r: seq<Candidate>)
    ensures r == Matching(candidates, required, excluded)
  {
    r := [];
    for i := 0 to |candidates|
      invariant r == Matching(candidates[..i], required, excluded)
    {
      assert candidates[..i + 1][..i] == candidates[..i];
      if Matches(candidates[i], required, excluded) {
        r := r + [candidates[i]];
      }
    }
    assert candidates[..|candidates|] == candidates;
  }

  /** The head of the stable sort by `Cheaper`. */
  method FirstInOrder(candidates: seq<Candidate>) returns (c: Candidate)
    requires candidates != []
    ensures c == Cheapest(candidates)
  {
    c := candidates[0];
    assert candidates[..1] == [c];
    for i := 1 to |candidates|
      invariant c == Cheapest(candidates[..i])
    {
      assert candidates[..i + 1][..i] == candidates[..i];
      if Cheaper(candidates[i], c) {
        c := candidates[i];
      }
    }
    assert candidates[..|candidates|] == candidates;
  }

  /** Retains what matches, and takes the cheapest. */
  method SelectRoute(agents: seq<Agent>, required: set<string>, excluded: set<Route>) returns (r: Option<Route>)
    ensures r == Select(Candidates(agents), required, excluded)
    ensures r.None? ==> forall c :: c in Candidates(agents) ==> c.route in excluded || !(required <= c.tags)
    ensures r.Some? ==>
              exists c :: c in Candidates(agents) && c.route == r.value && c.route !in excluded && required <= c.tags
                          && forall d :: d in Candidates(agents) && d.route !in excluded && required <= d.tags ==>
                                           !Cheaper(d, c)
  {
    hide Candidates, Cheaper, Matching, Cheapest;
    var candidates := CollectCandidates(agents);
    var matching := Retain(candidates, required, excluded);
    if matching == [] {
      NoneMatches(candidates, required, excluded);
      return None;
    }
    var c := FirstInOrder(matching);
    NothingCheaper(matching);
    r := Some(c.route);
  }

  lemma NoneMatches(candidates: seq<Candidate>, required: set<string>, excluded: set<Route>)
    requires Matching(candidates, required, excluded) == []
    ensures forall c :: c in candidates ==> !Matches(c, required, excluded)
  {
    forall c | c in candidates ensures !Matches(c, required, excluded) {
      assert c !in Matching(candidates, required, excluded);
    }
  }
}
