/**
 The models.dev price selection of controller/ratio_sync.go: of all providers that list a
 model, the cheapest non-zero input price is kept, with a tolerance that is not
 transitive. Finite prices are reals.
 */
module ModelsDev {
  import opened NameLists
  import opened PriceDiff
  import opened Wrappers

  /** A decoded float64. */
  datatype Float = Finite(r: real) | NaN | Infinite(negative: bool)

  datatype Cost = Cost(input: Option<Float>, output: Option<Float>, cacheRead: Option<Float>)

  datatype Candidate = Candidate(provider: string, input: real, output: Option<real>, cacheRead: Option<real>)

  /** isValidNonNegativeCost */
  predicate ValidCost(f: Float) {
    f.Finite? && f.r >= 0.0
  }

  /** buildModelsDevCandidate */
  function Build(provider: string, cost: Cost): (c: Option<Candidate>)
    ensures c.Some? <==>
      && cost.input.Some? && ValidCost(cost.input.value)
      && (cost.output.Some? ==>
          ValidCost(cost.output.value) && (cost.input.value.r == 0.0 ==> cost.output.value.r == 0.0))
    ensures c.Some? ==>
      && c.value.provider == provider && c.value.input >= 0.0 && Finite(c.value.input) == cost.input.value
      && (if cost.output.Some? then c.value.output.Some? && Finite(c.value.output.value) == cost.output.value
          else c.value.output.None?)
      && (if cost.cacheRead.Some? && ValidCost(cost.cacheRead.value)
          then c.value.cacheRead.Some? && Finite(c.value.cacheRead.value) == cost.cacheRead.value
          else c.value.cacheRead.None?)
  {
    if cost.input.None? || !ValidCost(cost.input.value) then None
    else if cost.output.Some? && !ValidCost(cost.output.value) then None
    else if cost.input.value.r == 0.0 && cost.output.Some? && cost.output.value.r > 0.0 then None
    else
      Some(Candidate(provider, cost.input.value.r,
                     if cost.output.Some? then Some(cost.output.value.r) else None,
                     if cost.cacheRead.Some? && ValidCost(cost.cacheRead.value) then Some(cost.cacheRead.value.r)
                     else None))
  }

  /** Go's string order */
  predicate Less(a: string, b: string)
    decreases |a|
  {
    b != "" && (a == "" || a[0] < b[0] || (a[0] == b[0] && Less(a[1..], b[1..])))
  }

  /** shouldReplaceModelsDevCandidate */
  predicate Replaces(current: Candidate, next: Candidate) {
    if (current.input > 0.0) != (next.input > 0.0) then next.input > 0.0
    else if next.input > 0.0 && !NearlyEqual(next.input, current.input) then next.input < current.input
    else Less(next.provider, current.provider)
  }

  // ---------------------------------------------------------------- sorting the providers

  lemma {:induction false} LessTotal(a: string, b: string)
    ensures Less(a, b) || Less(b, a) || a == b
    ensures !(Less(a, b) && Less(b, a)) && !Less(a, a)
  {
    if a != "" && b != "" && a[0] == b[0] {
      LessTotal(a[1..], b[1..]);
      assert a == [a[0]] + a[1..] && b == [b[0]] + b[1..];
    }
    if a != "" {
      LessSelf(a);
    }
  }

  lemma {:induction false} LessSelf(a: string)
    ensures !Less(a, a)
  {
    if a != "" {
      LessSelf(a[1..]);
    }
  }

  lemma {:induction false} LessTransitive(a: string, b: string, c: string)
    requires Less(a, b) && Less(b, c)
    ensures Less(a, c)
  {
    if a != "" && a[0] == b[0] == c[0] {
      LessTransitive(a[1..], b[1..], c[1..]);
    }
  }

  predicate Ascending(s: seq<string>) {
    forall i, j :: 0 <= i < j < |s| ==> Less(s[i], s[j])
  }

  /** A map's keys in ascending order. */
  predicate SortedKeys(s: seq<string>, keys: set<string>) {
    Ascending(s) && keys == Names(s)
  }

  /** sort.Strings, one insertion at a time */
  method SortStrings(order: seq<string>) returns (sorted: seq<string>)
    requires forall i, j :: 0 <= i < j < |order| ==> order[i] != order[j]
    ensures SortedKeys(sorted, Names(order))
  {
    sorted := [];
    for i := 0 to |order|
      invariant SortedKeys(sorted, Names(order[..i]))
    {
      assert order[i] !in order[..i];
      assert forall y :: y in sorted ==> y in Names(sorted);
      assert order[..i + 1] == order[..i] + [order[i]];
      sorted := InsertSorted(sorted, order[i]);
    }
    assert order[..|order|] == order;
  }

  method InsertSorted(s: seq<string>, x: string) returns (r: seq<string>)
    requires Ascending(s) && x !in s
    ensures SortedKeys(r, Names(s) + {x})
  {
    var k := 0;
    while k < |s| && Less(s[k], x)
      invariant 0 <= k <= |s| && forall i :: 0 <= i < k ==> Less(s[i], x)
    {
      k := k + 1;
    }
    r := s[..k] + [x] + s[k..];
    forall j | k <= j < |s|
      ensures Less(x, s[j])
    {
      LessTotal(s[k], x);
      if j > k {
        LessTransitive(x, s[k], s[j]);
      }
    }
    assert Ascending(r);
    forall y
      ensures y in r <==> y in s || y == x
    {
      assert s == s[..k] + s[k..];
    }
  }

  /** Whatever order Go iterates a map in, sorting its keys gives one and the same list. */
  lemma {:induction false} SortedUnique(a: seq<string>, b: seq<string>)
    requires Ascending(a) && Ascending(b) && Names(a) == Names(b)
    ensures a == b
  {
    assert a != [] ==> a[0] in Names(a);
    assert b != [] ==> b[0] in Names(b);
    if a != [] && b != [] {
      HeadsEqual(a, b);
      TailKeys(a);
      TailKeys(b);
      SortedUnique(a[1..], b[1..]);
      assert a == [a[0]] + a[1..] && b == [b[0]] + b[1..];
    }
  }

  lemma HeadsEqual(a: seq<string>, b: seq<string>)
    requires Ascending(a) && Ascending(b) && a != [] && b != [] && a[0] in b && b[0] in a
    ensures a[0] == b[0]
  {
    LessTotal(a[0], b[0]);
  }

  lemma TailKeys(a: seq<string>)
    requires Ascending(a) && a != []
    ensures Names(a[1..]) == Names(a) - {a[0]}
  {
    LessSelf(a[0]);
    assert a == [a[0]] + a[1..];
    assert a[0] !in a[1..];
  }

  // ---------------------------------------------------------------- the selection

  type Catalogue = map<string, map<string, Cost>>

  function CandidateOf(cat: Catalogue, provider: string, model: string): Option<Candidate> {
    if provider in cat && model in cat[provider] then Build(provider, cat[provider][model]) else None
  }

  /** The candidates for a model, in provider order. */
  function CandidatesOf(cat: Catalogue, providers: seq<string>, model: string): seq<Candidate> {
    if providers == [] then []
    else
      var init := CandidatesOf(cat, providers[..|providers| - 1], model);
      var last := CandidateOf(cat, providers[|providers| - 1], model);
      if last.Some? then init + [last.value] else init
  }

  /** The fold over one model's candidates. */
  function Pick(cs: seq<Candidate>): Candidate
    requires cs != []
  {
    var last := cs[|cs| - 1];
    if |cs| == 1 then last
    else
      var current := Pick(cs[..|cs| - 1]);
      if Replaces(current, last) then last else current
  }

  function AllModelNames(cat: Catalogue): set<string> {
    set p, m | p in cat && m in cat[p] :: m
  }

  function Selection(cat: Catalogue, providers: seq<string>): map<string, Candidate> {
    map m | m in AllModelNames(cat) && CandidatesOf(cat, providers, m) != [] :: Pick(CandidatesOf(cat, providers, m))
  }

  /** The selection for one model, if it has a candidate. */
  function PickOf(cat: Catalogue, providers: seq<string>, model: string): Option<Candidate> {
    var cs := CandidatesOf(cat, providers, model);
    if cs == [] then None else Some(Pick(cs))
  }

  function Find(selected: map<string, Candidate>, model: string): Option<Candidate> {
    if model in selected then Some(selected[model]) else None
  }

  /** One provider's models enter the selection, in any order. */
  method AddProvider(cat: Catalogue, ghost providers: seq<string>, provider: string, selected: map<string, Candidate>)
    returns (selected': map<string, Candidate>)
    requires provider in cat && forall m :: Find(selected, m) == PickOf(cat, providers, m)
    ensures forall m :: Find(selected', m) == PickOf(cat, providers + [provider], m)
  {
    selected' := selected;
    var models := cat[provider];
    var todo := models.Keys;
    while todo != {}
      invariant todo <= models.Keys
      invariant forall m ::
        Find(selected', m) == PickOf(cat, if m in models && m !in todo then providers + [provider] else providers, m)
      decreases todo
    {
      var model :| model in todo;
      PickPush(cat, providers, provider, model);
      assert Find(selected', model) == PickOf(cat, providers, model);
      var candidate := Build(provider, models[model]);
      if candidate.Some? && (model !in selected' || Replaces(selected'[model], candidate.value)) {
        selected' := selected'[model := candidate.value];
      }
      todo := todo - {model};
    }
    forall m | m !in models
      ensures PickOf(cat, providers + [provider], m) == PickOf(cat, providers, m)
    {
      PickPush(cat, providers, provider, m);
    }
  }

  lemma PickPush(cat: Catalogue, providers: seq<string>, provider: string, model: string)
    ensures var c, before := CandidateOf(cat, provider, model), PickOf(cat, providers, model);
            PickOf(cat, providers + [provider], model) ==
            if c.Some? && (before.None? || Replaces(before.value, c.value)) then c else before
  {
    CandidatesPush(cat, providers, provider, model);
  }

  lemma CandidatesPush(cat: Catalogue, providers: seq<string>, provider: string, model: string)
    ensures var c := CandidateOf(cat, provider, model);
            CandidatesOf(cat, providers + [provider], model) ==
            CandidatesOf(cat, providers, model) + (if c.Some? then [c.value] else [])
    ensures var cs, c := CandidatesOf(cat, providers, model), CandidateOf(cat, provider, model);
            c.Some? ==> Pick(cs + [c.value]) == if cs == [] || Replaces(Pick(cs), c.value) then c.value else Pick(cs)
  {
    assert (providers + [provider])[..|providers + [provider]| - 1] == providers;
    var cs, c := CandidatesOf(cat, providers, model), CandidateOf(cat, provider, model);
    if c.Some? {
      assert (cs + [c.value])[..|cs|] == cs;
    }
  }

  /** convertModelsDevToRatioData's selection, for any order in which the providers are enumerated */
  method SelectCandidates(cat: Catalogue, order: seq<string>)
    returns (selected: map<string, Candidate>, providers: seq<string>)
    requires forall i, j :: 0 <= i < j < |order| ==> order[i] != order[j]
    requires cat.Keys == Names(order)
    ensures SortedKeys(providers, cat.Keys)
    ensures selected == Selection(cat, providers)
  {
    providers := SortStrings(order);
    selected := map[];
    for i := 0 to |providers|
      invariant forall m :: Find(selected, m) == PickOf(cat, providers[..i], m)
    {
      assert providers[i] in Names(providers);
      assert providers[..i + 1] == providers[..i] + [providers[i]];
      selected := AddProvider(cat, providers[..i], providers[i], selected);
    }
    assert providers[..|providers|] == providers;
    SelectionAt(cat, providers, selected);
  }

  lemma SelectionAt(cat: Catalogue, providers: seq<string>, selected: map<string, Candidate>)
    requires forall m :: Find(selected, m) == PickOf(cat, providers, m)
    ensures selected == Selection(cat, providers)
  {
    forall m
      ensures m in selected <==> m in Selection(cat, providers)
      ensures m in selected ==> selected[m] == Selection(cat, providers)[m]
    {
      assert Find(selected, m) == PickOf(cat, providers, m);
      if CandidatesOf(cat, providers, m) != [] {
        CandidateIsListed(cat, providers, m);
      }
    }
  }

  lemma {:induction false} CandidateIsListed(cat: Catalogue, providers: seq<string>, model: string)
    requires CandidatesOf(cat, providers, model) != []
    ensures model in AllModelNames(cat)
  {
    var init, last := providers[..|providers| - 1], providers[|providers| - 1];
    if CandidateOf(cat, last, model).None? {
      CandidateIsListed(cat, init, model);
    }
  }

  /** The selection does not depend on the order of map iteration. */
  lemma SelectionIsDeterministic(cat: Catalogue, a: seq<string>, b: seq<string>)
    requires SortedKeys(a, cat.Keys) && SortedKeys(b, cat.Keys)
    ensures Selection(cat, a) == Selection(cat, b)
  {
    SortedUnique(a, b);
  }

  // ---------------------------------------------------------------- what is selected

  predicate ByProvider(cs: seq<Candidate>) {
    && (forall i, j :: 0 <= i < j < |cs| ==> Less(cs[i].provider, cs[j].provider))
    && forall i :: 0 <= i < |cs| ==> cs[i].input >= 0.0
  }

  lemma {:induction false} CandidateProviders(cat: Catalogue, providers: seq<string>, model: string, c: Candidate)
    ensures c in CandidatesOf(cat, providers, model) <==>
            c.provider in providers && CandidateOf(cat, c.provider, model) == Some(c)
  {
    if providers != [] {
      var init, last := providers[..|providers| - 1], providers[|providers| - 1];
      assert providers == init + [last];
      CandidateProviders(cat, init, model, c);
    }
  }

  lemma {:induction false} CandidatesByProvider(cat: Catalogue, providers: seq<string>, model: string)
    requires Ascending(providers)
    ensures ByProvider(CandidatesOf(cat, providers, model))
  {
    if providers != [] {
      var init, last := providers[..|providers| - 1], providers[|providers| - 1];
      CandidatesByProvider(cat, init, model);
      var cs := CandidatesOf(cat, init, model);
      forall i | 0 <= i < |cs|
        ensures Less(cs[i].provider, last)
      {
        CandidateProviders(cat, init, model, cs[i]);
        var k :| 0 <= k < |init| && init[k] == cs[i].provider;
        assert Less(providers[k], providers[|init|]);
      }
    }
  }

  lemma {:induction false} PickIsCandidate(cs: seq<Candidate>)
    requires cs != []
    ensures Pick(cs) in cs
  {
    if |cs| > 1 {
      var init := cs[..|cs| - 1];
      PickIsCandidate(init);
      assert forall c :: c in init ==> c in cs;
    }
  }

  /** In provider order a tie never replaces. */
  lemma PickStep(cs: seq<Candidate>)
    requires ByProvider(cs) && |cs| > 1
    ensures var init, last := cs[..|cs| - 1], cs[|cs| - 1];
            ByProvider(init) && !Less(last.provider, Pick(init).provider) && Pick(init).input >= 0.0
  {
    var init, last := cs[..|cs| - 1], cs[|cs| - 1];
    PickIsCandidate(init);
    var k :| 0 <= k < |init| && init[k] == Pick(init);
    assert Less(cs[k].provider, cs[|init|].provider);
    LessTotal(Pick(init).provider, last.provider);
  }

  /**
   The pick is non-zero exactly when some candidate is, and although the tolerance is
   not transitive it is less than one tolerance above every non-zero candidate.
   */
  lemma {:induction false} PickIsCheapest(cs: seq<Candidate>, c: Candidate)
    requires ByProvider(cs) && c in cs
    ensures c.input > 0.0 ==> 0.0 < Pick(cs).input < c.input + EPSILON
    ensures Pick(cs) in cs
  {
    PickIsCandidate(cs);
    if |cs| > 1 {
      var init, last := cs[..|cs| - 1], cs[|cs| - 1];
      assert cs == init + [last];
      PickStep(cs);
      if c in init {
        PickIsCheapest(init, c);
      }
    }
  }

  /** When every candidate is free, the first provider wins. */
  lemma {:induction false} PickOfFree(cs: seq<Candidate>)
    requires ByProvider(cs) && cs != [] && forall i :: 0 <= i < |cs| ==> cs[i].input == 0.0
    ensures Pick(cs) == cs[0]
  {
    if |cs| > 1 {
      PickStep(cs);
      PickOfFree(cs[..|cs| - 1]);
    }
  }

  /** For every catalogue, model and iteration order. */
  lemma SelectedPrice(cat: Catalogue, providers: seq<string>, model: string, p: string)
    requires SortedKeys(providers, cat.Keys) && model in Selection(cat, providers)
    requires p in cat && CandidateOf(cat, p, model).Some? && CandidateOf(cat, p, model).value.input > 0.0
    ensures 0.0 < Selection(cat, providers)[model].input < CandidateOf(cat, p, model).value.input + EPSILON
  {
    CandidatesByProvider(cat, providers, model);
    assert p in Names(providers);
    CandidateProviders(cat, providers, model, CandidateOf(cat, p, model).value);
    PickIsCheapest(CandidatesOf(cat, providers, model), CandidateOf(cat, p, model).value);
  }

  /** The selected price is zero exactly when every valid candidate is. */
  lemma SelectedNonZeroExactly(cat: Catalogue, providers: seq<string>, model: string)
    requires SortedKeys(providers, cat.Keys) && model in Selection(cat, providers)
    ensures Selection(cat, providers)[model].input > 0.0 <==>
            exists p :: p in cat && CandidateOf(cat, p, model).Some? && CandidateOf(cat, p, model).value.input > 0.0
  {
    var cs := CandidatesOf(cat, providers, model);
    PickIsCandidate(cs);
    CandidateProviders(cat, providers, model, Pick(cs));
    if Pick(cs).input > 0.0 {
      assert Pick(cs).provider in Names(providers);
    }
    if p :| p in cat && CandidateOf(cat, p, model).Some? && CandidateOf(cat, p, model).value.input > 0.0 {
      SelectedPrice(cat, providers, model, p);
    }
  }

  // ---------------------------------------------------------------- exactly the cheapest?

  /** The fold on prices alone, as it goes in provider order. */
  function PickPrice(ps: seq<real>): real
    requires ps != []
  {
    var last := ps[|ps| - 1];
    if |ps| == 1 then last
    else
      var current := PickPrice(ps[..|ps| - 1]);
      if (current > 0.0) != (last > 0.0) then if last > 0.0 then last else current
      else if last > 0.0 && !NearlyEqual(last, current) && last < current then last
      else current
  }

  lemma {:induction false} PickIsPickPrice(cs: seq<Candidate>, ps: seq<real>)
    requires ByProvider(cs) && cs != [] && |ps| == |cs| && forall i :: 0 <= i < |cs| ==> ps[i] == cs[i].input
    ensures Pick(cs).input == PickPrice(ps)
  {
    if |cs| > 1 {
      var init, last := cs[..|cs| - 1], cs[|cs| - 1];
      PickStep(cs);
      PickIsPickPrice(init, ps[..|ps| - 1]);
    }
  }

  predicate Cheapest(ps: seq<real>, m: real) {
    m > 0.0 && m in ps && forall p :: p in ps && p > 0.0 ==> m <= p
  }

  predicate NonNegative(ps: seq<real>) {
    forall p :: p in ps ==> p >= 0.0
  }

  lemma {:induction false} PickPriceBound(ps: seq<real>, m: real)
    requires ps != [] && NonNegative(ps)
    ensures PickPrice(ps) in ps
    ensures m in ps && m > 0.0 ==> 0.0 < PickPrice(ps) < m + EPSILON
  {
    if |ps| > 1 {
      var init, last := ps[..|ps| - 1], ps[|ps| - 1];
      assert ps == init + [last];
      assert forall p :: p in init ==> p in ps;
      assert last in ps;
      PickPriceBound(init, m);
      PickPriceBound(init, PickPrice(init));
    }
  }

  /** Once a price within the tolerance of the cheapest is current, nothing replaces it. */
  lemma {:induction false} StaysPut(ps: seq<real>, rest: seq<real>, m: real)
    requires ps != [] && m > 0.0 && m <= PickPrice(ps) < m + EPSILON
    requires forall p :: p in rest ==> p == 0.0 || m <= p
    ensures PickPrice(ps + rest) == PickPrice(ps)
  {
    if rest == [] {
      assert ps + rest == ps;
    } else {
      var init, last := rest[..|rest| - 1], rest[|rest| - 1];
      assert rest == init + [last];
      assert forall p :: p in init ==> p in rest;
      assert last in rest;
      StaysPut(ps, init, m);
      assert (ps + rest)[..|ps + rest| - 1] == ps + init;
    }
  }

  /**
   The fold ends on the cheapest price in every order of the prices exactly when no other lies
   within the tolerance.
   */
  lemma CheapestInEveryOrder(ps: seq<real>, m: real)
    requires NonNegative(ps) && Cheapest(ps, m)
    ensures (forall qs: seq<real> :: qs != [] && multiset(qs) == multiset(ps) ==> PickPrice(qs) == m)
            <==> !exists p :: p in ps && m < p < m + EPSILON
  {
    if p :| p in ps && m < p < m + EPSILON {
      var qs := NearPriceWins(ps, m, p);
      assert PickPrice(qs) != m;
    } else {
      forall qs: seq<real> | qs != [] && multiset(qs) == multiset(ps)
        ensures PickPrice(qs) == m
      {
        forall x
          ensures x in qs <==> x in ps
        {
          assert x in multiset(qs) <==> x in multiset(ps);
        }
        PickPriceBound(qs, m);
        assert PickPrice(qs) in ps;
      }
    }
  }

  /** An order of the prices in which a price just above the cheapest is selected. */
  lemma NearPriceWins(ps: seq<real>, m: real, p: real) returns (qs: seq<real>)
    requires NonNegative(ps) && Cheapest(ps, m) && p in ps && m < p < m + EPSILON
    ensures qs != [] && multiset(qs) == multiset(ps) && PickPrice(qs) == p
  {
    var i :| 0 <= i < |ps| && ps[i] == p;
    var others := ps[..i] + ps[i + 1..];
    assert ps == ps[..i] + [p] + ps[i + 1..];
    qs := [p] + others;
    assert multiset(qs) == multiset(ps);
    assert forall x :: x in others ==> x in ps;
    StaysPut([p], others, m);
  }

  /** The candidate prices of a model, in provider order. */
  function Prices(cat: Catalogue, providers: seq<string>, model: string): (ps: seq<real>)
    ensures |ps| == |CandidatesOf(cat, providers, model)|
    ensures forall i :: 0 <= i < |ps| ==> ps[i] == CandidatesOf(cat, providers, model)[i].input
  {
    var cs := CandidatesOf(cat, providers, model);
    seq(|cs|, i requires 0 <= i < |cs| => cs[i].input)
  }

  /** A catalogue with the same prices for the model, from providers of any names. */
  ghost predicate SamePrices(cat: Catalogue, providers: seq<string>, model: string, ps: seq<real>) {
    SortedKeys(providers, cat.Keys) && multiset(Prices(cat, providers, model)) == multiset(ps)
  }

  predicate Selects(cat: Catalogue, providers: seq<string>, model: string, price: real) {
    model in Selection(cat, providers) && Selection(cat, providers)[model].input == price
  }

  lemma SelectsPickPrice(cat: Catalogue, providers: seq<string>, model: string)
    requires Ascending(providers) && Prices(cat, providers, model) != []
    ensures Selects(cat, providers, model, PickPrice(Prices(cat, providers, model)))
    ensures NonNegative(Prices(cat, providers, model))
  {
    var cs := CandidatesOf(cat, providers, model);
    CandidatesByProvider(cat, providers, model);
    PickIsPickPrice(cs, Prices(cat, providers, model));
    CandidateIsListed(cat, providers, model);
    forall i | 0 <= i < |cs|
      ensures cs[i].input >= 0.0
    {
      CandidateProviders(cat, providers, model, cs[i]);
    }
  }

  /** Provider names in ascending order. */
  function Named(k: nat): (name: string)
    ensures |name| == k
  {
    if k == 0 then "" else ['a'] + Named(k - 1)
  }

  lemma {:induction false} NamedAscend(i: nat, j: nat)
    requires i < j
    ensures Less(Named(i), Named(j))
  {
    if i > 0 {
      NamedAscend(i - 1, j - 1);
      assert Named(i)[1..] == Named(i - 1) && Named(j)[1..] == Named(j - 1);
    }
  }

  function NamedUpTo(n: nat): (names: seq<string>)
    ensures |names| == n && forall i :: 0 <= i < n ==> names[i] == Named(i)
  {
    seq(n, i requires 0 <= i < n => Named(i))
  }

  /** A catalogue with one provider for each price, in order. */
  function CatalogueOf(model: string, ps: seq<real>): Catalogue {
    map name | name in Names(NamedUpTo(|ps|)) && |name| < |ps| ::
      map[model := Cost(Some(Finite(ps[|name|])), None, None)]
  }

  lemma CatalogueKeys(model: string, ps: seq<real>)
    ensures SortedKeys(NamedUpTo(|ps|), CatalogueOf(model, ps).Keys)
  {
    var names := NamedUpTo(|ps|);
    forall i, j | 0 <= i < j < |names|
      ensures Less(names[i], names[j])
    {
      NamedAscend(i, j);
    }
    assert CatalogueOf(model, ps).Keys == Names(names);
  }

  lemma {:induction false} CataloguePrices(model: string, ps: seq<real>, n: nat)
    requires NonNegative(ps) && n <= |ps|
    ensures Prices(CatalogueOf(model, ps), NamedUpTo(|ps|)[..n], model) == ps[..n]
  {
    var cat, names := CatalogueOf(model, ps), NamedUpTo(|ps|);
    if n > 0 {
      CataloguePrices(model, ps, n - 1);
      assert names[..n][..n - 1] == names[..n - 1];
      var name := names[n - 1];
      assert name == Named(n - 1) && name in Names(names) && ps[n - 1] in ps;
      assert CandidateOf(cat, name, model) == Some(Candidate(name, ps[n - 1], None, None));
      var before, cs := CandidatesOf(cat, names[..n - 1], model), CandidatesOf(cat, names[..n], model);
      assert cs == before + [Candidate(name, ps[n - 1], None, None)];
    }
  }

  /**
   The documentation says the cheapest non-zero price is selected. Whatever the providers are
   called, that is so exactly when no other price lies less than one tolerance above it.
   */
  lemma CheapestForEveryNaming(cat: Catalogue, providers: seq<string>, model: string, m: real)
    requires SortedKeys(providers, cat.Keys) && Cheapest(Prices(cat, providers, model), m)
    ensures var ps := Prices(cat, providers, model);
            (forall cat', providers' :: SamePrices(cat', providers', model, ps) ==> Selects(cat', providers', model, m))
            <==> !exists p :: p in ps && m < p < m + EPSILON
  {
    var ps := Prices(cat, providers, model);
    SelectsPickPrice(cat, providers, model);
    CheapestInEveryOrder(ps, m);
    if p :| p in ps && m < p < m + EPSILON {
      RenamingSelectsAnother(model, ps, m, p);
    } else {
      forall cat', providers' | SamePrices(cat', providers', model, ps)
        ensures Selects(cat', providers', model, m)
      {
        var qs := Prices(cat', providers', model);
        assert |multiset(qs)| == |qs| && |multiset(ps)| == |ps|;
        assert qs != [] && PickPrice(qs) == m;
        SelectsPickPrice(cat', providers', model);
      }
    }
  }

  lemma RenamingSelectsAnother(model: string, ps: seq<real>, m: real, p: real)
    requires NonNegative(ps) && Cheapest(ps, m) && p in ps && m < p < m + EPSILON
    ensures exists cat', providers' :: SamePrices(cat', providers', model, ps) && !Selects(cat', providers', model, m)
  {
    var qs := NearPriceWins(ps, m, p);
    forall x | x in qs
      ensures x >= 0.0
    {
      assert x in multiset(qs) && x in multiset(ps) && x in ps;
    }
    var cat', providers' := CatalogueOf(model, qs), NamedUpTo(|qs|);
    CatalogueKeys(model, qs);
    CataloguePrices(model, qs, |qs|);
    assert providers'[..|qs|] == providers' && qs[..|qs|] == qs;
    SelectsPickPrice(cat', providers', model);
    assert SamePrices(cat', providers', model, ps) && !Selects(cat', providers', model, m);
  }
}
