/** `FlightQuery.FlightQueryResult`: the tables and the itinerary list built
    from one parsed response, the leg lookup, and the selection of the
    cheapest itineraries. */
module FlightQuery {
  import opened Messages
  import opened FlightItinerary
  import opened Sorting

  /** The ten values the constructor copies out of the response's `Query`
      section. */
  datatype Summary = Summary(
    InboundDate: Json,
    DestinationPlace: Json,
    CabinClass: Json,
    Adults: Json,
    Locale: Json,
    Country: Json,
    OutboundDate: Json,
    Currency: Json,
    OriginPlace: Json,
    GroupPricing: Json)

  /** The keys of the `Query` section, in the order they are read. */
  const SummaryKeys: seq<string> := [
    "InboundDate", "DestinationPlace", "CabinClass", "Adults", "Locale",
    "Country", "OutboundDate", "Currency", "OriginPlace", "GroupPricing"]

  /** Reads `ret['Query']` and then its ten keys, in order. */
  function ParseSummary(ret: Json): Result<Summary> {
    var query :- Get(ret, "Query");
    var v :- GetAll(query, SummaryKeys);
    Success(Summary(v[0], v[1], v[2], v[3], v[4], v[5], v[6], v[7], v[8], v[9]))
  }

  /** The response has a `Query` dict holding all ten summary keys. */
  predicate HasSummary(ret: Json) {
    HasKeys(ret, {"Query"}) &&
    HasKeys(ret.fields["Query"], {"InboundDate", "DestinationPlace", "CabinClass", "Adults", "Locale",
                                  "Country", "OutboundDate", "Currency", "OriginPlace", "GroupPricing"})
  }

  /** Reading the summary succeeds exactly when the response has a `Query`
      dict holding all ten keys, and then copies their values; otherwise it
      raises at the first thing missing: `Query` itself, or the first absent
      key in reading order. */
  lemma SummaryNeedsEveryKey(ret: Json)
    ensures ParseSummary(ret).Success? <==> HasSummary(ret)
    ensures HasSummary(ret) ==>
      var q := ret.fields["Query"].fields;
      ParseSummary(ret).value == Summary(q["InboundDate"], q["DestinationPlace"], q["CabinClass"], q["Adults"],
        q["Locale"], q["Country"], q["OutboundDate"], q["Currency"], q["OriginPlace"], q["GroupPricing"])
    ensures ret.Obj? && "Query" !in ret.fields ==> ParseSummary(ret) == Failure(KeyMissing(Str("Query")))
    ensures HasKeys(ret, {"Query"}) && !ret.fields["Query"].Obj? ==> ParseSummary(ret) == Failure(NotSubscriptable)
    ensures HasKeys(ret, {"Query"}) && ret.fields["Query"].Obj? ==>
      forall k | 0 <= k < |SummaryKeys| ::
        SummaryKeys[k] !in ret.fields["Query"].fields &&
        (forall j | 0 <= j < k :: SummaryKeys[j] in ret.fields["Query"].fields) ==>
        ParseSummary(ret) == Failure(KeyMissing(Str(SummaryKeys[k])))
  {
    if HasKeys(ret, {"Query"}) {
      var q := ret.fields["Query"];
      GetAllSpec(q, SummaryKeys);
      if q.Obj? && forall i | 0 <= i < |SummaryKeys| :: SummaryKeys[i] in q.fields {
        assert SummaryKeys[0] in q.fields && SummaryKeys[1] in q.fields && SummaryKeys[2] in q.fields &&
               SummaryKeys[3] in q.fields && SummaryKeys[4] in q.fields && SummaryKeys[5] in q.fields &&
               SummaryKeys[6] in q.fields && SummaryKeys[7] in q.fields && SummaryKeys[8] in q.fields &&
               SummaryKeys[9] in q.fields;
      }
    }
  }

  /** `{id(x): x for x in items}` built one item at a time, as the loops that
      fill `Legs`, `Agents` and `Carriers` do: each record is built, then
      stored under its id, a later record overwriting an earlier one with the
      same id. Stops at the first item whose build raises or whose id is not
      hashable. */
  function Index<R>(items: seq<Json>, build: Json -> Result<R>, id: R -> Json): Result<map<Json, R>>
    decreases |items|
  {
    if items == [] then Success(map[])
    else
      var table :- Index(items[..|items| - 1], build, id);
      var record :- build(items[|items| - 1]);
      if !Hashable(id(record)) then Failure(Unhashable)
      else Success(table[id(record) := record])
  }

  /** No record after position `i` has the id of the record at `i`. */
  predicate LastWithId<R>(records: seq<R>, id: R -> Json, i: nat)
    requires i < |records|
  {
    forall j | i < j < |records| :: id(records[j]) != id(records[i])
  }

  /** The table holds exactly the ids of the records, and under each id the
      last record that carries it. It is built exactly when every record is
      built and has a hashable id. */
  lemma {:induction false} IndexContents<R>(items: seq<Json>, build: Json -> Result<R>, id: R -> Json)
    ensures Index(items, build, id).Success? <==>
      MapAll(items, build).Success? &&
      forall i | 0 <= i < |MapAll(items, build).value| :: Hashable(id(MapAll(items, build).value[i]))
    ensures Index(items, build, id).Success? ==>
      var table, records := Index(items, build, id).value, MapAll(items, build).value;
      table.Keys == (set i | 0 <= i < |records| :: id(records[i])) &&
      forall i | 0 <= i < |records| && LastWithId(records, id, i) :: table[id(records[i])] == records[i]
    decreases |items|
  {
    MapAllSuccess(items, build);
    if items != [] {
      var init := items[..|items| - 1];
      IndexContents(init, build, id);
      MapAllSuccess(init, build);
      if Index(items, build, id).Success? {
        var table, records := Index(items, build, id).value, MapAll(items, build).value;
        var records' := MapAll(init, build).value;
        assert records == records' + [records[|records| - 1]];
        var last := |records| - 1;
        forall i | 0 <= i < |records| && LastWithId(records, id, i)
          ensures table[id(records[i])] == records[i]
        {
          if i < last {
            assert LastWithId(records', id, i) by {
              forall j | i < j < |records'| ensures id(records'[j]) != id(records'[i]) {
                assert records'[j] == records[j];
              }
            }
          }
        }
        assert table.Keys == (set i | 0 <= i < |records| :: id(records[i])) by {
          forall x | x in table.Keys ensures x in set i | 0 <= i < |records| :: id(records[i]) {
            if x != id(records[last]) {
              var i :| 0 <= i < |records'| && id(records'[i]) == x;
              assert records[i] == records'[i];
            }
          }
          forall i | 0 <= i < |records| ensures id(records[i]) in table.Keys {
            if i < last {
              assert records[i] == records'[i];
            }
          }
        }
      } else if MapAll(items, build).Success? {
        var records' := MapAll(init, build).value;
        var records := MapAll(items, build).value;
        assert records == records' + [records[|records| - 1]];
        if Index(init, build, id).Failure? {
          var i :| 0 <= i < |init| && !Hashable(id(records'[i]));
          assert records[i] == records'[i];
        }
      }
    }
  }

  /** Every record of a built table sits under its own id, and that id is
      hashable. */
  lemma {:induction false} IndexKeys<R>(items: seq<Json>, build: Json -> Result<R>, id: R -> Json)
    requires Index(items, build, id).Success?
    ensures var table := Index(items, build, id).value;
      forall k | k in table :: Hashable(k) && id(table[k]) == k
    decreases |items|
  {
    if items != [] {
      IndexKeys(items[..|items| - 1], build, id);
    }
  }

  /** On failure, `Index` reports the error of the first item that stops it. */
  lemma {:induction false} IndexStops<R>(items: seq<Json>, k: nat, build: Json -> Result<R>, id: R -> Json)
    requires k < |items|
    requires Index(items[..k], build, id).Success?
    requires Index(items[..k + 1], build, id).Failure?
    ensures Index(items, build, id) == Index(items[..k + 1], build, id)
    decreases |items|
  {
    if k + 1 < |items| {
      var init := items[..|items| - 1];
      assert init[..k] == items[..k] && init[..k + 1] == items[..k + 1];
      IndexStops(init, k, build, id);
    } else {
      assert items[..k + 1] == items;
    }
  }

  /** On failure, `MapAll` reports the error of the first item that stops it. */
  lemma {:induction false} MapAllStops<R>(items: seq<Json>, k: nat, build: Json -> Result<R>)
    requires k < |items|
    requires MapAll(items[..k], build).Success?
    requires build(items[k]).Failure?
    ensures MapAll(items, build) == Failure(build(items[k]).error)
    decreases |items|
  {
    if k + 1 < |items| {
      var init := items[..|items| - 1];
      assert init[..k] == items[..k] && init[k] == items[k];
      MapAllStops(init, k, build);
    } else {
      assert items[..k] == items[..|items| - 1];
    }
  }

  /** The loop that fills one id table. */
  method BuildIndex<R>(items: seq<Json>, build: Json -> Result<R>, id: R -> Json) returns (r: Result<map<Json, R>>)
    ensures r == Index(items, build, id)
  {
    var table: map<Json, R> := map[];
    for i := 0 to |items|
      invariant Index(items[..i], build, id) == Success(table)
    {
      assert items[..i + 1][..i] == items[..i];
      var record := build(items[i]);
      if record.Failure? {
        IndexStops(items, i, build, id);
        return Failure(record.error);
      }
      if !Hashable(id(record.value)) {
        IndexStops(items, i, build, id);
        return Failure(Unhashable);
      }
      table := table[id(record.value) := record.value];
    }
    assert items[..|items|] == items;
    return Success(table);
  }

  /** `for x in ret[name]` */
  function Section(ret: Json, name: string): Result<seq<Json>> {
    var v :- Get(ret, name);
    Elements(v)
  }

  function LegId(leg: Leg): Json { leg.Id }
  function AgentId(agent: Agent): Json { agent.Id }
  function CarrierId(carrier: Carrier): Json { carrier.Id }

  /** Everything a query result holds once built. */
  datatype Snapshot = Snapshot(
    summary: Summary,
    legs: map<Json, Leg>,
    agents: map<Json, Agent>,
    carriers: map<Json, Carrier>,
    itineraries: seq<Itinerary>)

  /** What `FlightQueryResult(ret)` computes, in the order it reads the
      response: the summary, then the legs, agents, carriers and itineraries. */
  function ParseQueryResult(ret: Json): Result<Snapshot> {
    var summary :- ParseSummary(ret);
    var legItems :- Section(ret, "Legs");
    var legs :- Index(legItems, ParseLeg, LegId);
    var agentItems :- Section(ret, "Agents");
    var agents :- Index(agentItems, ParseAgent, AgentId);
    var carrierItems :- Section(ret, "Carriers");
    var carriers :- Index(carrierItems, ParseCarrier, CarrierId);
    var itineraryItems :- Section(ret, "Itineraries");
    var itineraries :- MapAll(itineraryItems, ParseItinerary);
    Success(Snapshot(summary, legs, agents, carriers, itineraries))
  }

  /** Building a query result fails whenever the `Query` section or one of
      its ten keys is absent, whatever the rest of the response holds. */
  lemma QueryResultNeedsSummary(ret: Json)
    requires !HasSummary(ret)
    ensures ParseSummary(ret).Failure?
    ensures ParseQueryResult(ret) == Failure(ParseSummary(ret).error)
  {
    SummaryNeedsEveryKey(ret);
  }

  /** A built query result has one itinerary per element of `Itineraries`,
      in order, and id tables whose keys are exactly the ids of the elements
      of `Legs`, `Agents` and `Carriers`, each id holding the last element
      listed with it. */
  lemma {:induction false} QueryResultContents(ret: Json)
    requires ParseQueryResult(ret).Success?
    ensures Section(ret, "Legs").Success? && MapAll(Section(ret, "Legs").value, ParseLeg).Success?
    ensures Section(ret, "Agents").Success? && MapAll(Section(ret, "Agents").value, ParseAgent).Success?
    ensures Section(ret, "Carriers").Success? && MapAll(Section(ret, "Carriers").value, ParseCarrier).Success?
    ensures Section(ret, "Itineraries").Success? && AllBuild(Section(ret, "Itineraries").value, ParseItinerary)
    ensures
      var s := ParseQueryResult(ret).value;
      var legs := MapAll(Section(ret, "Legs").value, ParseLeg).value;
      (forall i | 0 <= i < |legs| :: Hashable(legs[i].Id)) &&
      s.legs.Keys == (set i | 0 <= i < |legs| :: legs[i].Id) &&
      forall i | 0 <= i < |legs| && LastWithId(legs, LegId, i) :: s.legs[legs[i].Id] == legs[i]
    ensures
      var s := ParseQueryResult(ret).value;
      var agents := MapAll(Section(ret, "Agents").value, ParseAgent).value;
      s.agents.Keys == (set i | 0 <= i < |agents| :: agents[i].Id) &&
      forall i | 0 <= i < |agents| && LastWithId(agents, AgentId, i) :: s.agents[agents[i].Id] == agents[i]
    ensures
      var s := ParseQueryResult(ret).value;
      var carriers := MapAll(Section(ret, "Carriers").value, ParseCarrier).value;
      s.carriers.Keys == (set i | 0 <= i < |carriers| :: carriers[i].Id) &&
      forall i | 0 <= i < |carriers| && LastWithId(carriers, CarrierId, i) :: s.carriers[carriers[i].Id] == carriers[i]
    ensures
      var s := ParseQueryResult(ret).value;
      var items := Section(ret, "Itineraries").value;
      |s.itineraries| == |items| &&
      forall i | 0 <= i < |items| :: s.itineraries[i] == ParseItinerary(items[i]).value
  {
    IndexContents(Section(ret, "Legs").value, ParseLeg, LegId);
    IndexContents(Section(ret, "Agents").value, ParseAgent, AgentId);
    IndexContents(Section(ret, "Carriers").value, ParseCarrier, CarrierId);
    MapAllSuccess(Section(ret, "Itineraries").value, ParseItinerary);
  }

  /** `number` below zero behaves as zero: the working list overflows after
      every append either way. */
  function Bound(number: int): nat {
    if number < 0 then 0 else number
  }

  /** One turn of the selection loop: append; on overflow, compute the key
      of every itinerary in the list (which raises if one has no pricing
      option), sort stably by it and delete the last. */
  function Step(lowest: seq<Itinerary>, it: Itinerary, n: nat): Result<seq<Itinerary>> {
    var working := lowest + [it];
    if |working| <= n then Success(working)
    else if !AllPriced(working) then Failure(EmptyMin)
    else
      var sorted := Sort(working, PriceKey);
      Success(sorted[..|sorted| - 1])
  }

  /** The selection loop over `its`, keeping at most `n`. */
  function Select(its: seq<Itinerary>, n: nat): Result<seq<Itinerary>>
    decreases |its|
  {
    if its == [] then Success([])
    else
      var lowest :- Select(its[..|its| - 1], n);
      Step(lowest, its[|its| - 1], n)
  }

  /** With no overflow nothing is sorted: the list comes back as it was. */
  lemma {:induction false} SelectFew(its: seq<Itinerary>, n: nat)
    requires |its| <= n
    ensures Select(its, n) == Success(its)
    decreases |its|
  {
    if its != [] {
      SelectFew(its[..|its| - 1], n);
      assert its[..|its| - 1] + [its[|its| - 1]] == its;
    }
  }

  /** With an overflow, the result is the first `n` itineraries of the whole
      list sorted stably by lowest price. */
  lemma {:induction false} SelectMany(its: seq<Itinerary>, n: nat)
    requires |its| > n && AllPriced(its)
    ensures Select(its, n) == Success(Sort(its, PriceKey)[..n])
    decreases |its|
  {
    var init, last := its[..|its| - 1], its[|its| - 1];
    assert init + [last] == its;
    if |init| == n {
      SelectFew(init, n);
    } else {
      SelectMany(init, n);
      SortTruncated(init, n, last, PriceKey);
      var working := Sort(init, PriceKey)[..n] + [last];
      assert AllPriced(working) by {
        SortIsStableSort(init, PriceKey);
        forall i | 0 <= i < |working| ensures LowestPrice(working[i]).Success? {
          if i < n {
            assert working[i] in multiset(init);
          }
        }
      }
    }
  }

  /** The selection raises exactly when the list overflows and some
      itinerary has no pricing option; the error is the one `min` raises. */
  lemma {:induction false} SelectFails(its: seq<Itinerary>, n: nat)
    ensures Select(its, n).Failure? <==> |its| > n && !AllPriced(its)
    ensures Select(its, n).Failure? ==> Select(its, n).error == EmptyMin
    decreases |its|
  {
    if |its| <= n {
      SelectFew(its, n);
    } else if AllPriced(its) {
      SelectMany(its, n);
    } else {
      var init, last := its[..|its| - 1], its[|its| - 1];
      assert init + [last] == its;
      SelectFails(init, n);
      if Select(init, n).Success? {
        if |init| <= n {
          SelectFew(init, n);
        } else {
          assert AllPriced(init);
          SelectMany(init, n);
          assert !LowestPrice(last).Success?;
          var working := Select(init, n).value + [last];
          assert working[|working| - 1] == last;
        }
      }
    }
  }

  /** The selection returns `min(n, |its|)` itineraries, all taken from the
      input. */
  lemma SelectSize(its: seq<Itinerary>, n: nat)
    requires Select(its, n).Success?
    ensures |Select(its, n).value| == if |its| <= n then |its| else n
    ensures multiset(Select(its, n).value) <= multiset(its)
  {
    if |its| <= n {
      SelectFew(its, n);
    } else {
      SelectFails(its, n);
      SelectMany(its, n);
      var sorted := Sort(its, PriceKey);
      SortIsStableSort(its, PriceKey);
      assert sorted == sorted[..n] + sorted[n..];
    }
  }

  /** On overflow the result is sorted ascending by lowest price, and no
      itinerary left out is strictly cheaper than one kept. */
  lemma SelectCheapest(its: seq<Itinerary>, n: nat)
    requires |its| > n && Select(its, n).Success?
    ensures AllPriced(its)
    ensures var kept := Select(its, n).value;
      (forall i, j | 0 <= i < j < |kept| :: NotDearer(kept[i], kept[j])) &&
      forall x, d | x in kept && d in multiset(its) - multiset(kept) :: NotDearer(x, d)
  {
    SelectFails(its, n);
    SelectMany(its, n);
    SortIsStableSort(its, PriceKey);
    CheapestFirst(its, Sort(its, PriceKey), n);
  }

  /** The first `n` of a sorted permutation of priced itineraries are in
      ascending order of price, and none of the rest is cheaper. */
  lemma CheapestFirst(its: seq<Itinerary>, sorted: seq<Itinerary>, n: nat)
    requires AllPriced(its) && multiset(sorted) == multiset(its)
    requires Sorted(sorted, PriceKey) && n <= |sorted|
    ensures var kept := sorted[..n];
      (forall i, j | 0 <= i < j < |kept| :: NotDearer(kept[i], kept[j])) &&
      forall x, d | x in kept && d in multiset(its) - multiset(kept) :: NotDearer(x, d)
  {
    var kept := sorted[..n];
    forall x | x in sorted ensures LowestPrice(x).Success? {
      assert x in multiset(its);
    }
    forall i, j | 0 <= i < j < |kept| ensures NotDearer(kept[i], kept[j]) {
      assert kept[i] == sorted[i] && kept[j] == sorted[j];
    }
    assert sorted == kept + sorted[n..];
    assert multiset(its) - multiset(kept) == multiset(sorted[n..]);
    SortedSplit(sorted, n, PriceKey);
    forall x, d | x in kept && d in multiset(its) - multiset(kept) ensures NotDearer(x, d) {
      assert d in sorted[n..];
      assert x in sorted && d in sorted;
    }
  }

  /** Among itineraries of equal lowest price, the ones kept are the first
      ones met, in the order met: the sort is stable and only the end of the
      sorted list is cut. */
  lemma SelectStable(its: seq<Itinerary>, n: nat, k: real)
    requires Select(its, n).Success?
    ensures WithKey(Select(its, n).value, PriceKey, k) <= WithKey(its, PriceKey, k)
  {
    if |its| <= n {
      SelectFew(its, n);
    } else {
      SelectFails(its, n);
      SelectMany(its, n);
      var sorted := Sort(its, PriceKey);
      SortIsStableSort(its, PriceKey);
      assert sorted == sorted[..n] + sorted[n..];
      WithKeyAppend(sorted[..n], sorted[n..], PriceKey, k);
    }
  }

  /** A working list that overflows while holding an itinerary with no
      pricing option makes the whole selection raise. */
  lemma OverflowRaises(its: seq<Itinerary>, i: nat, lowest: seq<Itinerary>, n: nat)
    requires i < |its| && Select(its[..i], n) == Success(lowest)
    requires |lowest| + 1 > n && !AllPriced(lowest + [its[i]])
    ensures Select(its, n) == Failure(EmptyMin)
  {
    SelectSize(its[..i], n);
    var x :| x in lowest + [its[i]] && !LowestPrice(x).Success?;
    if x in lowest {
      assert x in multiset(its[..i]);
      var m :| 0 <= m < i && its[..i][m] == x;
      assert its[m] == x;
    }
    assert x in its;
    SelectFails(its, n);
  }

  /** A worked example of the selection: with three itineraries priced 100, 50 and 75
      and room for two, the 100 one is dropped when the third arrives and the
      other two come back cheapest first; with room for three, all three come
      back in their original order. */
  lemma SelectExample()
    ensures
      var a := Itinerary(Str("A"), Str("A"), [PricingOption(100.0, Null, Null)]);
      var b := Itinerary(Str("B"), Str("B"), [PricingOption(50.0, Null, Null)]);
      var c := Itinerary(Str("C"), Str("C"), [PricingOption(75.0, Null, Null)]);
      Select([a, b, c], 2) == Success([b, c]) && Select([a, b, c], 3) == Success([a, b, c])
  {
    var a := Itinerary(Str("A"), Str("A"), [PricingOption(100.0, Null, Null)]);
    var b := Itinerary(Str("B"), Str("B"), [PricingOption(50.0, Null, Null)]);
    var c := Itinerary(Str("C"), Str("C"), [PricingOption(75.0, Null, Null)]);
    SelectFew([a, b, c], 3);
    SelectFew([a, b], 2);
    assert LowestPrice(a) == Success(100.0) && LowestPrice(b) == Success(50.0) && LowestPrice(c) == Success(75.0);
    assert AllPriced([a, b, c]);
    assert [a, b, c][..2] == [a, b] && [a, b][..1] == [a] && [a, b, c][..1] == [a];
    assert Sort([a], PriceKey) == [a];
    assert Insert([], b, PriceKey) == [b];
    assert Sort([a, b], PriceKey) == Insert([a], b, PriceKey) == [b, a];
    assert [b, a][..1] == [b];
    assert Insert([b], c, PriceKey) == [b, c];
    assert Sort([a, b, c], PriceKey) == Insert([b, a], c, PriceKey) == [b, c, a];
  }

  /** Asking for no itinerary yields none, unless computing a key raises. */
  lemma SelectNone(its: seq<Itinerary>)
    ensures Select(its, 0) == if its == [] || AllPriced(its) then Success([]) else Failure(EmptyMin)
  {
    SelectFails(its, 0);
    if Select(its, 0).Success? {
      SelectSize(its, 0);
    }
  }

  class QueryResult {
    var Summary: Summary
    var Itineraries: seq<Itinerary>
    var Legs: map<Json, Leg>
    var Agents: map<Json, Agent>
    var Carriers: map<Json, Carrier>

    /** A result with the given summary and nothing else yet. */
    constructor (summary: Summary)
      ensures Summary == summary && Itineraries == []
      ensures Legs == map[] && Agents == map[] && Carriers == map[]
    {
      Summary := summary;
      Itineraries := [];
      Legs := map[];
      Agents := map[];
      Carriers := map[];
    }

    /** Every table entry is stored under its own id, and ids are hashable. */
    ghost predicate Valid()
      reads this
    {
      (forall k | k in Legs :: Hashable(k) && Legs[k].Id == k) &&
      (forall k | k in Agents :: Hashable(k) && Agents[k].Id == k) &&
      (forall k | k in Carriers :: Hashable(k) && Carriers[k].Id == k)
    }

    function State(): Snapshot
      reads this
    {
      Snapshot(Summary, Legs, Agents, Carriers, Itineraries)
    }

    /** `FlightQueryResult(ret)`: reads the summary, fills the three id
        tables and appends one itinerary per element of `Itineraries`;
        raises whatever the first failing read raises. */
    static method Load(ret: Json) returns (r: Result<QueryResult>)
      ensures r.Success? <==> ParseQueryResult(ret).Success?
      ensures r.Success? ==> fresh(r.value) && r.value.State() == ParseQueryResult(ret).value
      ensures r.Success? ==> r.value.Valid()
      ensures r.Failure? ==> r.error == ParseQueryResult(ret).error
    {
      var summary :- ParseSummary(ret);
      var q := new QueryResult(summary);
      var legItems :- Section(ret, "Legs");
      q.Legs :- BuildIndex(legItems, ParseLeg, LegId);
      var agentItems :- Section(ret, "Agents");
      q.Agents :- BuildIndex(agentItems, ParseAgent, AgentId);
      var carrierItems :- Section(ret, "Carriers");
      q.Carriers :- BuildIndex(carrierItems, ParseCarrier, CarrierId);
      var items :- Section(ret, "Itineraries");
      for i := 0 to |items|
        invariant MapAll(items[..i], ParseItinerary) == Success(q.Itineraries)
        invariant q.Summary == summary
        invariant q.Legs == Index(legItems, ParseLeg, LegId).value
        invariant q.Agents == Index(agentItems, ParseAgent, AgentId).value
        invariant q.Carriers == Index(carrierItems, ParseCarrier, CarrierId).value
      {
        assert items[..i + 1][..i] == items[..i];
        var it := ParseItinerary(items[i]);
        if it.Failure? {
          MapAllStops(items, i, ParseItinerary);
          return Failure(it.error);
        }
        q.Itineraries := q.Itineraries + [it.value];
      }
      assert items[..|items|] == items;
      IndexKeys(legItems, ParseLeg, LegId);
      IndexKeys(agentItems, ParseAgent, AgentId);
      IndexKeys(carrierItems, ParseCarrier, CarrierId);
      return Success(q);
    }

    /** `get_itinerary_leg(leg_id)`: the leg stored under `legId`; raises
        when there is none, or when `legId` cannot be a key. Changes nothing. */
    function GetItineraryLeg(legId: Json): (r: Result<Leg>)
      reads this
      ensures r.Success? <==> Hashable(legId) && legId in Legs
      ensures r.Success? ==> r.value == Legs[legId]
      ensures Valid() && r.Success? ==> r.value.Id == legId
      ensures r.Failure? ==> r.error == if Hashable(legId) then KeyMissing(legId) else Unhashable
    {
      if !Hashable(legId) then Failure(Unhashable)
      else if legId in Legs then Success(Legs[legId])
      else Failure(KeyMissing(legId))
    }

    /** `get_lowest_price(number)`: walks the itineraries keeping a working
        list; whenever it grows past `number` it is sorted stably by lowest
        price and its last (most expensive) entry deleted. */
    method GetLowestPrice(number: int) returns (r: Result<seq<Itinerary>>)
      ensures r == Select(Itineraries, Bound(number))
      ensures r.Success? ==> |r.value| <= Bound(number) && multiset(r.value) <= multiset(Itineraries)
    {
      var n := Bound(number);
      var lowest: seq<Itinerary> := [];
      for i := 0 to |Itineraries|
        invariant Select(Itineraries[..i], n) == Success(lowest)
        invariant |lowest| <= n
      {
        assert Itineraries[..i + 1][..i] == Itineraries[..i];
        ghost var before := lowest;
        lowest := lowest + [Itineraries[i]];
        if |lowest| > n {
          if !AllPriced(lowest) {
            OverflowRaises(Itineraries, i, before, n);
            return Failure(EmptyMin);
          }
          var sorted := SortList(lowest, PriceKey);
          lowest := sorted[..|sorted| - 1];
        }
      }
      assert Itineraries[..|Itineraries|] == Itineraries;
      SelectSize(Itineraries, n);
      r := Success(lowest);
    }
  }

  /** After loading, looking up a leg id succeeds exactly for the ids of the
      response's legs, and yields the last leg listed under that id. */
  lemma LegLookupAfterLoad(ret: Json, q: QueryResult, legId: Json)
    requires ParseQueryResult(ret).Success? && q.State() == ParseQueryResult(ret).value
    ensures Section(ret, "Legs").Success? && MapAll(Section(ret, "Legs").value, ParseLeg).Success?
    ensures var legs := MapAll(Section(ret, "Legs").value, ParseLeg).value;
      (q.GetItineraryLeg(legId).Success? <==> exists i | 0 <= i < |legs| :: legs[i].Id == legId) &&
      forall i | 0 <= i < |legs| && legs[i].Id == legId && LastWithId(legs, LegId, i) ::
        q.GetItineraryLeg(legId) == Success(legs[i])
  {
    QueryResultContents(ret);
  }
}
