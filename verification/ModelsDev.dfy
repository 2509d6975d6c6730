/** Choosing one provider per model from a price catalogue: providers are visited in
    sorted order, and a later offer replaces the current one when it is cheaper by more
    than a tolerance.  Prices are real numbers. */
module ModelsDev {
  import opened Basics

  const EPSILON: real := 0.000000001

  /** A JSON number after decoding. */
  datatype Float = Finite(r: real) | NotFinite

  datatype Cost = Cost(input: Option<Float>, output: Option<Float>, cacheRead: Option<Float>)

  datatype Candidate = Candidate(provider: string, input: real, output: Option<real>, cacheRead: Option<real>)

  type Catalogue = map<string, map<string, Cost>>

  function NearlyEqual(a: real, b: real): bool {
    if a > b then a - b < EPSILON else b - a < EPSILON
  }

  predicate ValidCost(v: Float) {
    v.Finite? && v.r >= 0.0
  }

  /** buildModelsDevCandidate: an offer without a usable input price is no candidate, nor
      is one that is free to read but not to write. */
  function BuildCandidate(provider: string, cost: Cost): Option<Candidate> {
    if cost.input.None? || !ValidCost(cost.input.value) then None
    else if cost.output.Some? && !ValidCost(cost.output.value) then None
    else
      var input := cost.input.value.r;
      if input == 0.0 && cost.output.Some? && cost.output.value.r > 0.0 then None
      else
        Some(Candidate(provider, input,
          if cost.output.Some? then Some(cost.output.value.r) else None,
          if cost.cacheRead.Some? && ValidCost(cost.cacheRead.value) then Some(cost.cacheRead.value.r) else None))
  }

  /** Go's string order. */
  predicate Less(a: string, b: string) {
    b != "" && (a == "" || a[0] < b[0] || (a[0] == b[0] && Less(a[1..], b[1..])))
  }

  lemma {:induction false} LessTotal(a: string, b: string)
    ensures Less(a, b) || Less(b, a) || a == b
    ensures !(Less(a, b) && Less(b, a)) && !Less(a, a)
  {
    if a != "" {
      LessTotal(a[1..], a[1..]);
      if b != "" {
        LessTotal(a[1..], b[1..]);
        assert a[0] == b[0] && a[1..] == b[1..] ==> a == b by {
          assert a == [a[0]] + a[1..] && b == [b[0]] + b[1..];
        }
      }
    }
  }

  lemma {:induction false} LessTransitive(a: string, b: string, c: string)
    requires Less(a, b) && Less(b, c)
    ensures Less(a, c)
  {
    if a != "" && a[0] == b[0] == c[0] {
      LessTransitive(a[1..], b[1..], c[1..]);
    }
  }

  predicate ShouldReplace(current: Candidate, next: Candidate) {
    var currentNonZero := current.input > 0.0;
    var nextNonZero := next.input > 0.0;
    if currentNonZero != nextNonZero then nextNonZero
    else if nextNonZero && !NearlyEqual(next.input, current.input) then next.input < current.input
    else Less(next.provider, current.provider)
  }

  // ---------- sorted key lists ----------

  predicate StrictlySorted(s: seq<string>) {
    forall i, j :: 0 <= i < j < |s| ==> Less(s[i], s[j])
  }

  ghost predicate IsSorting(s: seq<string>, keys: set<string>) {
    StrictlySorted(s) && forall k :: k in s <==> k in keys
  }

  /** A set of keys has only one sorted listing, whatever order they were collected in. */
  lemma {:induction false} SortingUnique(s: seq<string>, t: seq<string>, keys: set<string>)
    requires IsSorting(s, keys) && IsSorting(t, keys)
    ensures s == t
    decreases |s|
  {
    if s != [] {
      assert s[0] in t;
      assert t[0] in s;
      FirstIsLeast(s, t[0]);
      FirstIsLeast(t, s[0]);
      LessTotal(s[0], t[0]);
      RestSorting(s, keys);
      RestSorting(t, keys);
      SortingUnique(s[1..], t[1..], keys - {s[0]});
      assert s == [s[0]] + s[1..] && t == [t[0]] + t[1..];
    } else {
      HasMember(t);
    }
  }

  lemma FirstIsLeast(s: seq<string>, k: string)
    requires StrictlySorted(s) && k in s
    ensures s[0] == k || Less(s[0], k)
  {
  }

  lemma RestSorting(s: seq<string>, keys: set<string>)
    requires IsSorting(s, keys) && s != []
    ensures IsSorting(s[1..], keys - {s[0]})
  {
    LessTotal(s[0], s[0]);
    assert forall k :: k in s <==> k == s[0] || k in s[1..];
    assert s[0] !in s[1..] by {
      forall i | 1 <= i < |s|
        ensures s[i] != s[0]
      {
        assert Less(s[0], s[i]);
      }
    }
  }

  /** Collecting the keys of a map and sort.Strings. */
  method SortedKeys(keys: set<string>) returns (s: seq<string>)
    ensures IsSorting(s, keys)
  {
    s := [];
    var pending := keys;
    while pending != {}
      invariant pending <= keys
      invariant IsSorting(s, keys - pending)
      decreases |pending|
    {
      var k :| k in pending;
      ghost var done := keys - pending;
      s := Insert(s, k, done);
      pending := pending - {k};
      assert keys - pending == done + {k};
    }
  }

  method Insert(s: seq<string>, k: string, ghost keys: set<string>) returns (t: seq<string>)
    requires IsSorting(s, keys) && k !in keys
    ensures IsSorting(t, keys + {k})
  {
    var i := 0;
    while i < |s| && Less(s[i], k)
      invariant 0 <= i <= |s|
      invariant forall j :: 0 <= j < i ==> Less(s[j], k)
    {
      i := i + 1;
    }
    t := s[..i] + [k] + s[i..];
    forall j | i <= j < |s|
      ensures Less(k, s[j])
    {
      assert s[i] in s;
      LessTotal(s[i], k);
      if i < j {
        LessTransitive(k, s[i], s[j]);
      }
    }
    assert forall x :: x in t <==> x in s[..i] || x == k || x in s[i..];
    assert s == s[..i] + s[i..];
    assert forall x :: x in s <==> x in s[..i] || x in s[i..];
  }

  // ---------- the selection ----------

  /** A provider's valid offer for a model, if it has one. */
  function OfferFrom(provider: string, models: map<string, Cost>, model: string): Option<Candidate> {
    if model in models then BuildCandidate(provider, models[model]) else None
  }

  function Offer(catalogue: Catalogue, p: string, model: string): Option<Candidate> {
    if p in catalogue then OfferFrom(p, catalogue[p], model) else None
  }

  /** The valid offers of the first `n` providers for a model, in order. */
  function OffersUpTo(catalogue: Catalogue, providers: seq<string>, n: nat, model: string): seq<Candidate>
    requires n <= |providers|
  {
    if n == 0 then []
    else
      var offer := Offer(catalogue, providers[n - 1], model);
      OffersUpTo(catalogue, providers, n - 1, model) + (if offer.Some? then [offer.value] else [])
  }

  function Offers(catalogue: Catalogue, providers: seq<string>, model: string): seq<Candidate> {
    OffersUpTo(catalogue, providers, |providers|, model)
  }

  function Better(current: Option<Candidate>, next: Option<Candidate>): Option<Candidate> {
    if next.None? then current
    else if current.None? || ShouldReplace(current.value, next.value) then next
    else current
  }

  /** The fold over the offers. */
  function Pick(offers: seq<Candidate>): Option<Candidate> {
    if offers == [] then None else Better(Pick(Most(offers)), Some(Last(offers)))
  }

  function Lookup(selected: map<string, Candidate>, model: string): Option<Candidate> {
    if model in selected then Some(selected[model]) else None
  }

  /** The choice after the first `n` providers. */
  function Chosen(catalogue: Catalogue, providers: seq<string>, n: nat, model: string): Option<Candidate>
    requires n <= |providers|
  {
    if n == 0 then None
    else Better(Chosen(catalogue, providers, n - 1, model), Offer(catalogue, providers[n - 1], model))
  }

  /** Going through the providers one by one is folding over the list of offers. */
  lemma {:induction false} ChosenIsPick(catalogue: Catalogue, providers: seq<string>, n: nat, model: string)
    requires n <= |providers|
    ensures Chosen(catalogue, providers, n, model) == Pick(OffersUpTo(catalogue, providers, n, model))
  {
    if n > 0 {
      ChosenIsPick(catalogue, providers, n - 1, model);
      var before, after := OffersUpTo(catalogue, providers, n - 1, model), OffersUpTo(catalogue, providers, n, model);
      var offer := Offer(catalogue, providers[n - 1], model);
      if offer.Some? {
        assert Most(after) == before && Last(after) == offer.value;
      } else {
        assert after == before;
      }
    }
  }

  /** The inner loop: the models of one provider. */
  method SelectFrom(provider: string, models: map<string, Cost>, before: map<string, Candidate>)
    returns (selected: map<string, Candidate>)
    ensures forall model :: Lookup(selected, model) == Better(Lookup(before, model), OfferFrom(provider, models, model))
  {
    var modelNames := SortedKeys(models.Keys);
    selected := before;
    ghost var done: set<string> := {};
    for j := 0 to |modelNames|
      invariant forall model :: model in done <==> exists i :: 0 <= i < j && modelNames[i] == model
      invariant forall model :: model in done ==>
        model in models && Lookup(selected, model) == Better(Lookup(before, model), OfferFrom(provider, models, model))
      invariant forall model :: model !in done ==> Lookup(selected, model) == Lookup(before, model)
    {
      var modelName := modelNames[j];
      assert modelName in models.Keys;
      LessTotal(modelName, modelName);
      assert modelName !in done;
      var candidate := BuildCandidate(provider, models[modelName]);
      if candidate.Some? {
        if modelName !in selected || ShouldReplace(selected[modelName], candidate.value) {
          selected := selected[modelName := candidate.value];
        }
      }
      done := done + {modelName};
    }
    forall model | model in models
      ensures model in done
    {
      assert model in modelNames;
    }
  }

  /** The outer loop: the providers in the given order. */
  method SelectInOrder(catalogue: Catalogue, providers: seq<string>) returns (selected: map<string, Candidate>)
    requires forall p :: p in providers ==> p in catalogue
    ensures forall model :: Lookup(selected, model) == Chosen(catalogue, providers, |providers|, model)
  {
    selected := map[];
    for i := 0 to |providers|
      invariant forall model :: Lookup(selected, model) == Chosen(catalogue, providers, i, model)
    {
      var provider := providers[i];
      ghost var before := selected;
      selected := SelectFrom(provider, catalogue[provider], selected);
      forall model
        ensures Lookup(selected, model) == Chosen(catalogue, providers, i + 1, model)
      {
        assert Lookup(before, model) == Chosen(catalogue, providers, i, model);
      }
    }
  }

  /** The selection loops of convertModelsDevToRatioData: whatever order the map hands out
      its keys in, the result is the fold over the sorted providers. */
  method SelectCandidates(catalogue: Catalogue) returns (selected: map<string, Candidate>)
    ensures forall providers, model :: IsSorting(providers, catalogue.Keys) ==>
      Lookup(selected, model) == Pick(Offers(catalogue, providers, model))
  {
    var providers := SortedKeys(catalogue.Keys);
    selected := SelectInOrder(catalogue, providers);
    forall others, model | IsSorting(others, catalogue.Keys)
      ensures Lookup(selected, model) == Pick(Offers(catalogue, others, model))
    {
      SortingUnique(others, providers, catalogue.Keys);
      ChosenIsPick(catalogue, providers, |providers|, model);
    }
  }

  // ---------- what the fold guarantees ----------

  /** Providers in strictly ascending order, prices valid. */
  predicate Ordered(offers: seq<Candidate>) {
    && (forall i, j :: 0 <= i < j < |offers| ==> Less(offers[i].provider, offers[j].provider))
    && (forall i :: 0 <= i < |offers| ==> offers[i].input >= 0.0)
  }

  lemma {:induction false} OffersOrdered(catalogue: Catalogue, providers: seq<string>, n: nat, model: string)
    requires StrictlySorted(providers) && n <= |providers|
    ensures Ordered(OffersUpTo(catalogue, providers, n, model))
    ensures forall c :: c in OffersUpTo(catalogue, providers, n, model) ==>
      exists i :: 0 <= i < n && providers[i] == c.provider
  {
    if n > 0 {
      OffersOrdered(catalogue, providers, n - 1, model);
      var before := OffersUpTo(catalogue, providers, n - 1, model);
      forall i | 0 <= i < |before|
        ensures Less(before[i].provider, providers[n - 1])
      {
        assert before[i] in before;
      }
    }
  }

  /** The alphabetical tie-break never fires: the current choice comes from an earlier provider. */
  lemma {:induction false} PickIsAnOffer(offers: seq<Candidate>)
    requires Ordered(offers)
    ensures Pick(offers).None? <==> offers == []
    ensures Pick(offers).Some? ==> exists i :: 0 <= i < |offers| && offers[i] == Pick(offers).value
    ensures offers != [] && Pick(Most(offers)).Some? ==> !Less(Last(offers).provider, Pick(Most(offers)).value.provider)
  {
    if offers != [] {
      PickIsAnOffer(Most(offers));
      if Pick(Most(offers)).Some? {
        var i :| 0 <= i < |Most(offers)| && Most(offers)[i] == Pick(Most(offers)).value;
        assert offers[i] == Pick(Most(offers)).value;
        LessTotal(offers[i].provider, Last(offers).provider);
      }
      assert offers[|offers| - 1] == Last(offers);
    }
  }

  /** Despite the tolerance, which is not transitive, the choice is non-zero when any offer
      is, and no non-zero offer undercuts it by a billionth or more. */
  lemma {:induction false} PickIsCheap(offers: seq<Candidate>, k: nat)
    requires Ordered(offers) && k < |offers| && offers[k].input > 0.0
    ensures Pick(offers).Some? && 0.0 < Pick(offers).value.input < offers[k].input + 0.000000001
  {
    PickIsAnOffer(offers);
    PickIsAnOffer(Most(offers));
    if k < |offers| - 1 {
      PickIsCheap(Most(offers), k);
    }
  }

  /** With only free offers the first provider is chosen. */
  lemma {:induction false} PickAmongFree(offers: seq<Candidate>)
    requires Ordered(offers) && offers != [] && forall i :: 0 <= i < |offers| ==> offers[i].input == 0.0
    ensures Pick(offers) == Some(offers[0])
  {
    if |offers| > 1 {
      PickAmongFree(Most(offers));
      PickIsAnOffer(offers);
    }
  }

  /** The cheapest non-zero price. */
  ghost predicate IsLeastPrice(prices: seq<real>, least: real) {
    && least > 0.0 && least in prices
    && forall i :: 0 <= i < |prices| && prices[i] > 0.0 ==> prices[i] >= least
  }

  /** No other non-zero price comes within a billionth of the cheapest. */
  predicate Separated(prices: seq<real>, least: real) {
    forall i :: 0 <= i < |prices| && prices[i] > least ==> prices[i] - least >= 0.000000001
  }

  function Prices(offers: seq<Candidate>): (prices: seq<real>)
    ensures |prices| == |offers| && forall i :: 0 <= i < |offers| ==> prices[i] == offers[i].input
  {
    seq(|offers|, i requires 0 <= i < |offers| => offers[i].input)
  }

  /** Where no other price comes within the tolerance of the cheapest, the choice has the
      cheapest non-zero price, whatever the order. */
  lemma PickIsCheapest(offers: seq<Candidate>, least: real)
    requires Ordered(offers) && IsLeastPrice(Prices(offers), least) && Separated(Prices(offers), least)
    ensures Pick(offers).Some? && Pick(offers).value.input == least
  {
    var k :| 0 <= k < |offers| && Prices(offers)[k] == least;
    PickIsCheap(offers, k);
    PickIsAnOffer(offers);
    var i :| 0 <= i < |offers| && offers[i] == Pick(offers).value;
    assert Prices(offers)[i] == Pick(offers).value.input;
  }

  /** A first offer that none undercuts by the tolerance stays. */
  lemma {:induction false} FirstStays(offers: seq<Candidate>)
    requires Ordered(offers) && offers != [] && offers[0].input > 0.0
    requires forall i :: 0 <= i < |offers| && offers[i].input > 0.0 ==> offers[0].input - offers[i].input < 0.000000001
    ensures Pick(offers) == Some(offers[0])
  {
    if |offers| > 1 {
      FirstStays(Most(offers));
      PickIsAnOffer(offers);
    } else {
      assert Pick(Most(offers)) == None;
    }
  }

  /** The same providers with the prices at 0 and `j` exchanged. */
  function Exchange(offers: seq<Candidate>, j: nat): (swapped: seq<Candidate>)
    requires j < |offers|
    ensures |swapped| == |offers|
  {
    seq(|offers|, i requires 0 <= i < |offers| =>
      offers[i].(input := offers[if i == 0 then j else if i == j then 0 else i].input))
  }

  lemma ExchangeKeeps(offers: seq<Candidate>, j: nat)
    requires Ordered(offers) && j < |offers|
    ensures Ordered(Exchange(offers, j))
    ensures forall i :: 0 <= i < |offers| ==> Exchange(offers, j)[i].provider == offers[i].provider
    ensures multiset(Prices(Exchange(offers, j))) == multiset(Prices(offers))
  {
    var before, after := Prices(offers), Prices(Exchange(offers, j));
    assert after == before[0 := before[j]][j := before[0]];
  }

  /** Offers by the same providers at the same prices, differently distributed. */
  ghost predicate Redistributed(offers: seq<Candidate>, others: seq<Candidate>) {
    && |others| == |offers| && Ordered(others)
    && (forall i :: 0 <= i < |offers| ==> others[i].provider == offers[i].provider)
    && multiset(Prices(others)) == multiset(Prices(offers))
  }

  lemma SamePrices(a: seq<real>, b: seq<real>, least: real)
    requires multiset(a) == multiset(b) && IsLeastPrice(a, least) && Separated(a, least)
    ensures IsLeastPrice(b, least) && Separated(b, least)
  {
    assert least in multiset(b);
    forall i | 0 <= i < |b|
      ensures b[i] > 0.0 ==> b[i] >= least
      ensures b[i] > least ==> b[i] - least >= 0.000000001
    {
      assert b[i] in multiset(a);
      var k :| 0 <= k < |a| && a[k] == b[i];
    }
  }

  /** The choice has the cheapest non-zero price however the prices are distributed over
      the providers, exactly when no other price comes within the tolerance of it. */
  lemma CheapestIff(offers: seq<Candidate>, least: real)
    requires Ordered(offers) && IsLeastPrice(Prices(offers), least)
    ensures Separated(Prices(offers), least) <==>
      forall others :: Redistributed(offers, others) ==> Pick(others).Some? && Pick(others).value.input == least
  {
    if Separated(Prices(offers), least) {
      forall others | Redistributed(offers, others)
        ensures Pick(others).Some? && Pick(others).value.input == least
      {
        SamePrices(Prices(offers), Prices(others), least);
        PickIsCheapest(others, least);
      }
    } else {
      var j :| 0 <= j < |offers| && Prices(offers)[j] > least && Prices(offers)[j] - least < 0.000000001;
      ExchangeKeeps(offers, j);
      var others := Exchange(offers, j);
      forall i | 0 <= i < |others| && others[i].input > 0.0
        ensures others[0].input - others[i].input < 0.000000001
      {
        assert Prices(offers)[if i == 0 then j else if i == j then 0 else i] >= least;
      }
      FirstStays(others);
      assert Redistributed(offers, others);
    }
  }

  /** Two offers within the tolerance: the earlier provider stays although the later one is
      cheaper, so the order of the providers decides, and hence the sort matters. */
  lemma OrderDecides()
    ensures var a, b := Candidate("a", 1.0, None, None), Candidate("b", 0.9999999995, None, None);
      && Ordered([a, b]) && b.input < a.input
      && Pick([a, b]) == Some(a)
      && Pick([Candidate("a", 0.9999999995, None, None), Candidate("b", 1.0, None, None)]) ==
           Some(Candidate("a", 0.9999999995, None, None))
  {
    var a, b := Candidate("a", 1.0, None, None), Candidate("b", 0.9999999995, None, None);
    var c, d := Candidate("a", 0.9999999995, None, None), Candidate("b", 1.0, None, None);
    assert Less("a", "b") && !Less("b", "a");
    PickOfTwo(a, b);
    PickOfTwo(c, d);
  }

  lemma PickOfTwo(a: Candidate, b: Candidate)
    ensures Pick([a, b]) == if ShouldReplace(a, b) then Some(b) else Some(a)
  {
    assert Most([a, b]) == [a] && Last([a, b]) == b;
    assert Most([a]) == [] && Last([a]) == a;
    assert Pick([]) == None;
  }

  /** The provider prices the model: its input price is `input`, neither negative nor not a
      number, its output price is as valid or missing, and it does not charge for output
      alone. */
  ghost predicate Offered(catalogue: Catalogue, p: string, model: string, input: real) {
    && p in catalogue && model in catalogue[p]
    && var cost := catalogue[p][model];
    && cost.input == Some(Finite(input)) && input >= 0.0
    && (cost.output.None? || (exists o :: cost.output == Some(Finite(o)) && o >= 0.0 && (input == 0.0 ==> o == 0.0)))
  }

  lemma OfferedIff(catalogue: Catalogue, p: string, model: string, input: real)
    ensures Offered(catalogue, p, model, input) <==>
      Offer(catalogue, p, model).Some? && Offer(catalogue, p, model).value.input == input
  {
    if Offer(catalogue, p, model).Some? {
      var cost := catalogue[p][model];
      assert cost.output.Some? ==> cost.output == Some(Finite(cost.output.value.r));
    }
  }

  /** The same for the catalogue as a whole: the chosen price exceeds no valid non-zero
      price that any provider has for the model by a billionth or more. */
  lemma SelectionIsCheap(catalogue: Catalogue, providers: seq<string>, model: string, p: string, price: real)
    requires IsSorting(providers, catalogue.Keys) && Offered(catalogue, p, model, price) && price > 0.0
    ensures var choice := Pick(Offers(catalogue, providers, model));
      choice.Some? && 0.0 < choice.value.input < price + 0.000000001
  {
    OfferedIff(catalogue, p, model, price);
    OffersOrdered(catalogue, providers, |providers|, model);
    var i :| 0 <= i < |providers| && providers[i] == p;
    var k := OfferIndex(catalogue, providers, |providers|, model, i);
    PickIsCheap(Offers(catalogue, providers, model), k);
  }

  /** There is a choice exactly when some provider prices the model. */
  lemma SelectionExistsIff(catalogue: Catalogue, providers: seq<string>, model: string)
    requires IsSorting(providers, catalogue.Keys)
    ensures Pick(Offers(catalogue, providers, model)).Some? <==> exists p, price :: Offered(catalogue, p, model, price)
  {
    OffersOrdered(catalogue, providers, |providers|, model);
    PickIsAnOffer(Offers(catalogue, providers, model));
    if Pick(Offers(catalogue, providers, model)).Some? {
      SelectionIsReal(catalogue, providers, model);
    }
    if p, price :| Offered(catalogue, p, model, price) {
      OfferedIff(catalogue, p, model, price);
      var i :| 0 <= i < |providers| && providers[i] == p;
      var k := OfferIndex(catalogue, providers, |providers|, model, i);
    }
  }

  /** The choice carries its provider's own prices: the output price if it has one, the
      price of cached input if that is a valid number. */
  lemma SelectionIsReal(catalogue: Catalogue, providers: seq<string>, model: string)
    requires IsSorting(providers, catalogue.Keys) && Pick(Offers(catalogue, providers, model)).Some?
    ensures var c := Pick(Offers(catalogue, providers, model)).value;
      && Offered(catalogue, c.provider, model, c.input)
      && var cost := catalogue[c.provider][model];
      && (forall o :: c.output == Some(o) <==> cost.output == Some(Finite(o)))
      && (forall x :: c.cacheRead == Some(x) <==> x >= 0.0 && cost.cacheRead == Some(Finite(x)))
  {
    var offers := Offers(catalogue, providers, model);
    OffersOrdered(catalogue, providers, |providers|, model);
    PickIsAnOffer(offers);
    var c := Pick(offers).value;
    assert c in offers;
    OffersAreOffered(catalogue, providers, |providers|, model, c);
    OfferedIff(catalogue, c.provider, model, c.input);
    OfferCarries(catalogue, c.provider, model);
  }

  lemma OfferCarries(catalogue: Catalogue, p: string, model: string)
    requires Offer(catalogue, p, model).Some?
    ensures var c, cost := Offer(catalogue, p, model).value, catalogue[p][model];
      && (forall o :: c.output == Some(o) <==> cost.output == Some(Finite(o)))
      && (forall x :: c.cacheRead == Some(x) <==> x >= 0.0 && cost.cacheRead == Some(Finite(x)))
  {
  }

  lemma {:induction false} OffersAreOffered(catalogue: Catalogue, providers: seq<string>, n: nat, model: string,
                                            c: Candidate)
    requires n <= |providers| && c in OffersUpTo(catalogue, providers, n, model)
    ensures Offer(catalogue, c.provider, model) == Some(c)
  {
    var last := Offer(catalogue, providers[n - 1], model);
    if last != Some(c) {
      OffersAreOffered(catalogue, providers, n - 1, model, c);
    }
  }

  lemma {:induction false} OfferIndex(catalogue: Catalogue, providers: seq<string>, n: nat, model: string, i: nat)
      returns (k: nat)
    requires i < n <= |providers| && Offer(catalogue, providers[i], model).Some?
    ensures k < |OffersUpTo(catalogue, providers, n, model)|
    ensures OffersUpTo(catalogue, providers, n, model)[k] == Offer(catalogue, providers[i], model).value
  {
    if i == n - 1 {
      k := |OffersUpTo(catalogue, providers, n - 1, model)|;
    } else {
      k := OfferIndex(catalogue, providers, n - 1, model, i);
    }
  }

  // ---------- ratios ----------

  /** math.Round(x * 1e6) / 1e6 for non-negative x. */
  function RoundRatio(x: real): real
    requires x >= 0.0
  {
    (x * 1000000.0 + 0.5).Floor as real / 1000000.0
  }

  const USD: real := 500.0
  const INPUT_COST_RATIO_BASE: real := 1000.0

  function ModelRatio(c: Candidate): real
    requires c.input >= 0.0
  {
    if c.input == 0.0 then 0.0 else RoundRatio(c.input * USD / INPUT_COST_RATIO_BASE)
  }

  /** Rounding to six places: a whole number of millionths, the nearest, a half upwards. */
  lemma RoundedRatio(x: real)
    requires x >= 0.0
    ensures -0.0000005 < RoundRatio(x) - x <= 0.0000005
    ensures (RoundRatio(x) * 1000000.0).Floor as real == RoundRatio(x) * 1000000.0
  {
    var k := (x * 1000000.0 + 0.5).Floor;
    assert RoundRatio(x) * 1000000.0 == k as real;
  }

  /** The three tables that the selected prices become. */
  datatype Tables = Tables(model: map<string, real>, completion: map<string, real>, cache: map<string, real>)

  predicate Valid(c: Candidate) {
    && c.input >= 0.0
    && (c.output.Some? ==> c.output.value >= 0.0)
    && (c.cacheRead.Some? ==> c.cacheRead.value >= 0.0)
  }

  /** To six places. */
  predicate Near(ratio: real, exact: real) {
    -0.0000005 <= ratio - exact <= 0.0000005
  }

  predicate NearModel(ratio: real, c: Candidate) {
    Near(ratio, c.input / 2.0) && (c.input == 0.0 ==> ratio == 0.0)
  }

  /** The entries of one model: half the input price, and for a priced one the prices of
      output and of cached input relative to it, as far as they are known. */
  ghost predicate Converted(e: Ratios, c: Candidate) {
    && e.model.Some? && NearModel(e.model.value, c)
    && (e.completion.Some? <==> c.input > 0.0 && c.output.Some?)
    && (e.completion.Some? ==> Near(e.completion.value, c.output.value / c.input))
    && (e.cache.Some? <==> c.input > 0.0 && c.cacheRead.Some?)
    && (e.cache.Some? ==> Near(e.cache.value, c.cacheRead.value / c.input))
  }

  datatype Ratios = Ratios(model: Option<real>, completion: Option<real>, cache: Option<real>)

  function Find(table: map<string, real>, m: string): Option<real> {
    if m in table then Some(table[m]) else None
  }

  function RatiosOf(tables: Tables, m: string): Ratios {
    Ratios(Find(tables.model, m), Find(tables.completion, m), Find(tables.cache, m))
  }

  /** The last loop of convertModelsDevToRatioData. */
  method ConvertCandidates(selected: map<string, Candidate>) returns (tables: Tables)
    requires forall m :: m in selected ==> Valid(selected[m])
    ensures forall m :: m in selected ==> Converted(RatiosOf(tables, m), selected[m])
    ensures forall m :: m !in selected ==> RatiosOf(tables, m) == Ratios(None, None, None)
  {
    tables := Tables(map[], map[], map[]);
    var pending := selected.Keys;
    while pending != {}
      invariant pending <= selected.Keys
      invariant forall m :: m in selected && m !in pending ==> Converted(RatiosOf(tables, m), selected[m])
      invariant forall m :: m !in selected || m in pending ==> RatiosOf(tables, m) == Ratios(None, None, None)
      decreases |pending|
    {
      var name :| name in pending;
      pending := pending - {name};
      tables := ConvertOne(tables, name, selected[name]);
    }
  }

  method ConvertOne(before: Tables, name: string, candidate: Candidate) returns (tables: Tables)
    requires Valid(candidate) && RatiosOf(before, name) == Ratios(None, None, None)
    ensures Converted(RatiosOf(tables, name), candidate)
    ensures forall m :: m != name ==> RatiosOf(tables, m) == RatiosOf(before, m)
  {
    ModelRatioNear(candidate);
    tables := before.(model := before.model[name := ModelRatio(candidate)]);
    if candidate.input != 0.0 {
      if candidate.output.Some? {
        tables := tables.(completion := tables.completion[name := Relative(candidate.output.value, candidate.input)]);
      }
      if candidate.cacheRead.Some? {
        tables := tables.(cache := tables.cache[name := Relative(candidate.cacheRead.value, candidate.input)]);
      }
    }
  }

  /** A price relative to the input price, to six places. */
  function Relative(price: real, input: real): (ratio: real)
    requires price >= 0.0 && input > 0.0
    ensures Near(ratio, price / input)
  {
    RoundedRatio(price / input);
    RoundRatio(price / input)
  }

  lemma ModelRatioNear(c: Candidate)
    requires c.input >= 0.0
    ensures NearModel(ModelRatio(c), c)
  {
    if c.input > 0.0 {
      RoundedRatio(c.input * USD / INPUT_COST_RATIO_BASE);
    }
  }

  /** A priced model ends up with ratio zero, like a free one, exactly when its price is
      below a millionth. */
  lemma ModelRatioZeroIff(c: Candidate)
    requires c.input >= 0.0
    ensures ModelRatio(c) == 0.0 <==> c.input < 0.000001
  {
    if c.input > 0.0 {
      var scaled := c.input * USD / INPUT_COST_RATIO_BASE * 1000000.0 + 0.5;
      assert scaled == c.input * 500000.0 + 0.5;
      assert scaled.Floor == 0 <==> scaled < 1.0;
    }
  }
}
