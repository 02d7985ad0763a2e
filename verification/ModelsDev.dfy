/** Choosing one price per model from the offers of several providers, and turning it into local ratios. */
module ModelsDev {
  import opened Options
  import opened Tolerance

  datatype Cost = Cost(input: Option<real>, output: Option<real>, cacheRead: Option<real>)

  datatype Candidate = Candidate(provider: string, input: real, output: Option<real>, cacheRead: Option<real>)

  predicate ValidCost(v: Option<real>) {
    v.Some? && v.value >= 0.0
  }

  function BuildCandidate(provider: string, cost: Cost): Option<Candidate> {
    if !ValidCost(cost.input) then None
    else if cost.output.Some? && !ValidCost(cost.output) then None
    else if cost.input.value == 0.0 && cost.output.Some? && cost.output.value > 0.0 then None
    else
      var cacheRead := if ValidCost(cost.cacheRead) then cost.cacheRead else None;
      Some(Candidate(provider, cost.input.value, cost.output, cacheRead))
  }

  /** The order of strings, character by character. */
  predicate Less(a: string, b: string) {
    b != [] && (a == [] || a[0] < b[0] || (a[0] == b[0] && Less(a[1..], b[1..])))
  }

  lemma {:induction false} LessIsAsymmetric(a: string, b: string)
    requires Less(a, b)
    ensures !Less(b, a)
  {
    if a != [] && a[0] == b[0] { LessIsAsymmetric(a[1..], b[1..]); }
  }

  predicate ShouldReplace(current: Candidate, next: Candidate) {
    var currentNonZero, nextNonZero := current.input > 0.0, next.input > 0.0;
    if currentNonZero != nextNonZero then nextNonZero
    else if nextNonZero && !NearlyEqual(next.input, current.input) then next.input < current.input
    else Less(next.provider, current.provider)
  }

  // ---------------------------------------------------------------------------
  // The choice for one model
  // ---------------------------------------------------------------------------

  function Consider(current: Option<Candidate>, next: Option<Candidate>): Option<Candidate> {
    if next == None then current
    else if current == None || ShouldReplace(current.value, next.value) then next
    else current
  }

  /** The candidate selected after all offers, in the order the providers are visited. */
  function Choose(offers: seq<Option<Candidate>>): Option<Candidate> {
    if offers == [] then None else Consider(Choose(offers[..|offers| - 1]), offers[|offers| - 1])
  }

  /** Providers are visited in ascending order, each once. */
  ghost predicate InOrder(offers: seq<Option<Candidate>>) {
    forall i, j :: 0 <= i < j < |offers| && offers[i].Some? && offers[j].Some? ==>
        Less(offers[i].value.provider, offers[j].value.provider)
  }

  /** The offer is there and has a price other than zero. */
  predicate Priced(offer: Option<Candidate>) {
    offer.Some? && offer.value.input > 0.0
  }

  /** In that order the tie-breaker never fires: only a first offer, a first price or a cheaper price replaces. */
  predicate Improves(current: Option<Candidate>, next: Candidate) {
    current == None || (next.input > 0.0 && (current.value.input <= 0.0 || next.input <= current.value.input - EPSILON))
  }

  lemma {:induction false} ChosenIsOffered(offers: seq<Option<Candidate>>)
    ensures Choose(offers).Some? <==> exists i :: 0 <= i < |offers| && offers[i].Some?
    ensures Choose(offers).Some? ==> exists i :: 0 <= i < |offers| && offers[i] == Choose(offers)
  {
    if offers != [] {
      var n := |offers| - 1;
      var init := offers[..n];
      ChosenIsOffered(init);
      if i :| 0 <= i < n && init[i] == Choose(init) { assert offers[i] == Choose(init); }
      if i :| 0 <= i < n && init[i].Some? { assert offers[i].Some?; }
      assert forall i :: 0 <= i < n ==> init[i] == offers[i];
      assert offers[n] == offers[|offers| - 1];
    }
  }

  lemma TieBreakNeverFires(offers: seq<Option<Candidate>>)
    requires offers != [] && InOrder(offers) && offers[|offers| - 1].Some?
    ensures var n := |offers| - 1; var current := Choose(offers[..n]);
            Consider(current, offers[n]) == if Improves(current, offers[n].value) then offers[n] else current
  {
    var n := |offers| - 1;
    var current := Choose(offers[..n]);
    ChosenIsOffered(offers[..n]);
    if current.Some? {
      var i :| 0 <= i < n && offers[..n][i] == current;
      assert offers[i] == current;
      LessIsAsymmetric(current.value.provider, offers[n].value.provider);
    }
  }

  /**
   The chosen offer has a price whenever any offer has, and no offer undercuts it by more than the
   tolerance, however many offers there are.
   */
  lemma {:induction false} ChosenIsCheapest(offers: seq<Option<Candidate>>)
    requires InOrder(offers)
    ensures Priced(Choose(offers)) <==> exists i :: 0 <= i < |offers| && Priced(offers[i])
    ensures forall i :: 0 <= i < |offers| && Priced(offers[i]) ==>
              Priced(Choose(offers)) && Choose(offers).value.input < offers[i].value.input + EPSILON
  {
    if offers != [] {
      var n := |offers| - 1;
      var init := offers[..n];
      assert forall i :: 0 <= i < n ==> init[i] == offers[i];
      assert InOrder(init);
      ChosenIsCheapest(init);
      if offers[n].Some? { TieBreakNeverFires(offers); }
      if i :| 0 <= i < n && Priced(init[i]) { assert Priced(offers[i]); }
    }
  }

  /** A later price replaces the chosen one only by being at least the tolerance cheaper. */
  lemma {:induction false} PriceOnlyFalls(offers: seq<Option<Candidate>>, k: nat)
    requires InOrder(offers) && k <= |offers| && Priced(Choose(offers[..k]))
    ensures Priced(Choose(offers))
    ensures var chosen, before := Choose(offers), Choose(offers[..k]);
            chosen == before || chosen.value.input <= before.value.input - EPSILON
    decreases |offers|
  {
    if k == |offers| {
      assert offers[..k] == offers;
    } else {
      var n := |offers| - 1;
      assert InOrder(offers[..n]) && offers[..n][..k] == offers[..k];
      PriceOnlyFalls(offers[..n], k);
      if offers[n].Some? { TieBreakNeverFires(offers); }
    }
  }

  /** The first of the cheapest prices is at position `k`. */
  ghost predicate CheapestAt(offers: seq<Option<Candidate>>, k: nat) {
    && k < |offers| && Priced(offers[k])
    && (forall i :: 0 <= i < |offers| && Priced(offers[i]) ==> offers[k].value.input <= offers[i].value.input)
    && (forall i :: 0 <= i < k && Priced(offers[i]) ==> offers[k].value.input < offers[i].value.input)
  }

  /**
   The choice is exactly the cheapest price, from the first provider that has it, if and only if what was
   chosen before that provider had no price or one dearer by the tolerance or more.
   */
  lemma CheapestIff(offers: seq<Option<Candidate>>, k: nat)
    requires InOrder(offers) && CheapestAt(offers, k)
    ensures var before := Choose(offers[..k]);
            Choose(offers) == offers[k] <==> !Priced(before) || offers[k].value.input <= before.value.input - EPSILON
  {
    var before, upto := Choose(offers[..k]), Choose(offers[..k + 1]);
    assert offers[..k + 1][..k] == offers[..k] && InOrder(offers[..k + 1]);
    TieBreakNeverFires(offers[..k + 1]);
    assert upto == Consider(before, offers[k]);
    assert Improves(before, offers[k].value) <==>
        !Priced(before) || offers[k].value.input <= before.value.input - EPSILON;
    ChosenIsOffered(offers[..k]);
    ChosenIsOffered(offers);
    var c :| 0 <= c < |offers| && offers[c] == Choose(offers);
    if Improves(before, offers[k].value) {
      PriceOnlyFalls(offers, k + 1);
    } else {
      assert upto == before;
      PriceOnlyFalls(offers, k + 1);
      var b :| 0 <= b < k && offers[..k][b] == before;
      assert offers[b] == before && before != offers[k];
    }
  }

  /** Prices that are equal or at least the tolerance apart. */
  ghost predicate Separated(offers: seq<Option<Candidate>>) {
    forall i, j :: 0 <= i < |offers| && 0 <= j < |offers| && Priced(offers[i]) && Priced(offers[j]) ==>
      offers[i].value.input < offers[j].value.input ==> offers[i].value.input <= offers[j].value.input - EPSILON
  }

  lemma CheapestWhenSeparated(offers: seq<Option<Candidate>>, k: nat)
    requires InOrder(offers) && CheapestAt(offers, k) && Separated(offers)
    ensures Choose(offers) == offers[k]
  {
    CheapestIff(offers, k);
    ChosenIsOffered(offers[..k]);
    if Priced(Choose(offers[..k])) {
      var b :| 0 <= b < k && offers[..k][b] == Choose(offers[..k]);
      assert offers[b] == Choose(offers[..k]);
    }
  }

  /** Out of order the tie-breaker lets the price creep up: two steps within the tolerance pass it together. */
  lemma OutOfOrderDrifts(a: string, b: string, c: string, price: real, step: real)
    requires Less(a, b) && Less(b, c) && price > 0.0 && EPSILON / 2.0 <= step < EPSILON
    ensures var offers := [Some(Candidate(c, price, None, None)), Some(Candidate(b, price + step, None, None)),
                           Some(Candidate(a, price + step + step, None, None))];
            Choose(offers) == offers[2] && Choose(offers).value.input >= price + EPSILON
  {
    var offers := [Some(Candidate(c, price, None, None)), Some(Candidate(b, price + step, None, None)),
                   Some(Candidate(a, price + step + step, None, None))];
    assert offers[..2][..1] == offers[..1];
    assert Choose(offers[..1]) == offers[0] by { assert offers[..1][..0] == []; }
    assert Choose(offers[..2]) == offers[1];
  }

  /**
   In order, too, the choice can miss the cheapest price by less than the tolerance: it keeps the first of
   the two.
   */
  lemma NearTieKeepsFirst(a: string, b: string, price: real, step: real)
    requires Less(a, b) && 0.0 < step < EPSILON && price > step
    ensures var offers := [Some(Candidate(a, price, None, None)), Some(Candidate(b, price - step, None, None))];
            InOrder(offers) && CheapestAt(offers, 1) && Choose(offers) == offers[0] != offers[1]
  {
    var offers := [Some(Candidate(a, price, None, None)), Some(Candidate(b, price - step, None, None))];
    LessIsAsymmetric(a, b);
    assert Choose(offers[..1]) == offers[0] by { assert offers[..1][..0] == []; }
    assert Choose(offers) == Consider(Choose(offers[..1]), offers[1]);
  }

  // ---------------------------------------------------------------------------
  // All providers and models
  // ---------------------------------------------------------------------------

  type Prices = map<string, map<string, Cost>>

  function Offer(data: Prices, provider: string, model: string): Option<Candidate> {
    if provider in data && model in data[provider] then BuildCandidate(provider, data[provider][model]) else None
  }

  function Offers(data: Prices, providers: seq<string>, model: string): seq<Option<Candidate>> {
    seq(|providers|, i requires 0 <= i < |providers| => Offer(data, providers[i], model))
  }

  ghost predicate Sorted(providers: seq<string>) {
    forall i, j :: 0 <= i < j < |providers| ==> Less(providers[i], providers[j])
  }

  lemma OffersInOrder(data: Prices, providers: seq<string>, model: string)
    requires Sorted(providers)
    ensures InOrder(Offers(data, providers, model))
  {
  }

  ghost predicate SelectedAre(data: Prices, providers: seq<string>, selected: map<string, Candidate>) {
    forall m :: (if m in selected then Some(selected[m]) else None) == Choose(Offers(data, providers, m))
  }

  /** The loops over the sorted providers and the models of each. */
  method SelectCandidates(data: Prices, providers: seq<string>) returns (selected: map<string, Candidate>)
    ensures SelectedAre(data, providers, selected)
  {
    selected := map[];
    for i := 0 to |providers|
      invariant SelectedAre(data, providers[..i], selected)
    {
      ghost var before := selected;
      var provider := providers[i];
      var todo := if provider in data then data[provider].Keys else {};
      while todo != {}
        invariant todo <= if provider in data then data[provider].Keys else {}
        invariant forall m ::
            Lookup(selected, m) == if m in todo then Lookup(before, m)
            else Consider(Lookup(before, m), Offer(data, provider, m))
      {
        var model :| model in todo;
        var candidate := BuildCandidate(provider, data[provider][model]);
        if candidate.Some? && (model !in selected || ShouldReplace(selected[model], candidate.value)) {
          selected := selected[model := candidate.value];
        }
        todo := todo - {model};
      }
      forall m ensures Lookup(selected, m) == Choose(Offers(data, providers[..i + 1], m)) {
        OffersSnoc(data, providers, i, m);
        assert Lookup(before, m) == Choose(Offers(data, providers[..i], m));
      }
    }
    assert providers[..|providers|] == providers;
  }

  lemma OffersSnoc(data: Prices, providers: seq<string>, i: nat, m: string)
    requires i < |providers|
    ensures Choose(Offers(data, providers[..i + 1], m)) == Consider(Choose(Offers(data, providers[..i], m)),
        Offer(data, providers[i], m))
  {
    assert Offers(data, providers[..i + 1], m)[..i] == Offers(data, providers[..i], m);
  }

  /**
   From the table to the choice: for the providers of a table in sorted order, a model is selected exactly
   when some provider offers it; what is selected is one of its offers, has a price if any of them has, and
   no provider undercuts it by more than the tolerance.
   */
  lemma SelectionIsCheapest(data: Prices, providers: seq<string>, selected: map<string, Candidate>, model: string,
      p: string)
    requires Sorted(providers) && (forall q :: q in providers <==> q in data) && SelectedAre(data, providers, selected)
    ensures model in selected ==> exists q :: q in data && Offer(data, q, model) == Some(selected[model])
    ensures p in data && Offer(data, p, model).Some? ==> model in selected
    ensures p in data && Priced(Offer(data, p, model)) ==>
              model in selected && selected[model].input > 0.0
              && selected[model].input < Offer(data, p, model).value.input + EPSILON
  {
    var offers := Offers(data, providers, model);
    OffersInOrder(data, providers, model);
    ChosenIsOffered(offers);
    ChosenIsCheapest(offers);
    if model in selected {
      var i :| 0 <= i < |offers| && offers[i] == Choose(offers);
      assert providers[i] in data;
    }
    if p in data {
      assert p in providers;
      var i :| 0 <= i < |providers| && providers[i] == p;
      assert offers[i] == Offer(data, p, model);
    }
  }

  // ---------------------------------------------------------------------------
  // Ratios
  // ---------------------------------------------------------------------------

  const USD := 500.0
  const COST_BASE := 1000.0

  /** Rounded to six places, halves up; prices are never negative. */
  function RoundRatio(v: real): real {
    (v * 1000000.0 + 0.5).Floor as real / 1000000.0
  }

  function ModelRatio(c: Candidate): real {
    if c.input == 0.0 then 0.0 else RoundRatio(c.input * USD / COST_BASE)
  }

  /** The ratio of the output or cache price to the input price; a price of zero has none. */
  function PartRatio(c: Candidate, part: Option<real>): Option<real> {
    if c.input == 0.0 || part == None then None else Some(RoundRatio(part.value / c.input))
  }

  predicate Within(a: real, b: real, d: real) {
    a - b <= d && b - a <= d
  }

  lemma RoundIsClose(v: real)
    ensures Within(RoundRatio(v), v, 0.0000005)
  {
  }

  /** The output or cache price comes back from its ratio within half a millionth of the input price. */
  lemma PartGivenBack(c: Candidate, part: Option<real>)
    requires c.input > 0.0
    ensures PartRatio(c, part).Some? <==> part.Some?
    ensures part.Some? ==> Within(PartRatio(c, part).value * c.input, part.value, 0.0000005 * c.input)
  {
    if part.Some? {
      var ratio, exact := PartRatio(c, part).value, part.value / c.input;
      RoundIsClose(exact);
      assert exact * c.input == part.value;
      assert (ratio - exact) * c.input <= 0.0000005 * c.input;
      assert (exact - ratio) * c.input <= 0.0000005 * c.input;
    }
  }

  /**
   A ratio of one stands for two dollars per million tokens: the input price comes back from it within a
   millionth of a dollar. A model with price zero is free altogether.
   */
  lemma InputGivenBack(provider: string, cost: Cost)
    requires BuildCandidate(provider, cost).Some?
    ensures var c := BuildCandidate(provider, cost).value;
            && Within(ModelRatio(c) * 2.0, cost.input.value, 0.000001)
            && (c.input == 0.0 && cost.output.Some? ==> cost.output.value == 0.0)
  {
    RoundIsClose(cost.input.value * USD / COST_BASE);
  }
}
