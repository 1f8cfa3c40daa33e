/** The itinerary records of the query result and how each is read, field by
    field, from its part of the response (`FlightItinerary` and its nested
    leg, pricing-option, agent and carrier classes). Fields the code copies
    without looking at them stay JSON values. */
module FlightItinerary {
  import opened Messages

  datatype Leg = Leg(
    Id: Json,
    OriginStation: Json,
    DestinationStation: Json,
    Departure: Json,
    Arrival: Json,
    Carriers: Json,
    Directionality: Json)

  datatype PricingOption = PricingOption(Price: real, Agents: Json, QuoteAgeInMinutes: Json)

  datatype Agent = Agent(Id: Json, Name: Json, OptimisedForMobile: Json, Type: Json)

  datatype Carrier = Carrier(Id: Json, DisplayCode: Json, Code: Json, Name: Json)

  datatype Itinerary = Itinerary(
    OutboundLegId: Json,
    InboundLegId: Json,
    PricingOptions: seq<PricingOption>)

  /** True when `msg` is a dict holding every one of `keys`. */
  predicate HasKeys(msg: Json, keys: set<string>) {
    msg.Obj? && keys <= msg.fields.Keys
  }

  /** `FlightItineraryLeg(leg_msg)` */
  function ParseLeg(msg: Json): (r: Result<Leg>)
    ensures r.Success? <==>
      HasKeys(msg, {"Id", "OriginStation", "DestinationStation", "Departure", "Arrival", "Carriers", "Directionality"})
    ensures r.Success? ==>
      var f := msg.fields;
      r.value == Leg(f["Id"], f["OriginStation"], f["DestinationStation"], f["Departure"],
                     f["Arrival"], f["Carriers"], f["Directionality"])
  {
    var id :- Get(msg, "Id");
    var origin :- Get(msg, "OriginStation");
    var destination :- Get(msg, "DestinationStation");
    var departure :- Get(msg, "Departure");
    var arrival :- Get(msg, "Arrival");
    var carriers :- Get(msg, "Carriers");
    var directionality :- Get(msg, "Directionality");
    Success(Leg(id, origin, destination, departure, arrival, carriers, directionality))
  }

  /** `FlightPricingOption(price_msg)`: the price goes through `float`. */
  function ParsePricingOption(msg: Json): (r: Result<PricingOption>)
    ensures r.Success? <==>
      HasKeys(msg, {"Price", "Agents", "QuoteAgeInMinutes"}) && ToFloat(msg.fields["Price"]).Success?
    ensures r.Success? ==>
      r.value == PricingOption(ToFloat(msg.fields["Price"]).value, msg.fields["Agents"], msg.fields["QuoteAgeInMinutes"])
    ensures r.Failure? && HasKeys(msg, {"Price"}) && !ToFloat(msg.fields["Price"]).Success? ==>
      r.error == NotANumber
  {
    var p :- Get(msg, "Price");
    var price :- ToFloat(p);
    var agents :- Get(msg, "Agents");
    var age :- Get(msg, "QuoteAgeInMinutes");
    Success(PricingOption(price, agents, age))
  }

  /** `FlightAgent(agent_msg)` */
  function ParseAgent(msg: Json): (r: Result<Agent>)
    ensures r.Success? <==> HasKeys(msg, {"Id", "Name", "OptimisedForMobile", "Type"})
    ensures r.Success? ==>
      var f := msg.fields;
      r.value == Agent(f["Id"], f["Name"], f["OptimisedForMobile"], f["Type"])
  {
    var id :- Get(msg, "Id");
    var name :- Get(msg, "Name");
    var mobile :- Get(msg, "OptimisedForMobile");
    var kind :- Get(msg, "Type");
    Success(Agent(id, name, mobile, kind))
  }

  /** `FlightCarrier(carrier_msg)` */
  function ParseCarrier(msg: Json): (r: Result<Carrier>)
    ensures r.Success? <==> HasKeys(msg, {"Id", "DisplayCode", "Code", "Name"})
    ensures r.Success? ==>
      var f := msg.fields;
      r.value == Carrier(f["Id"], f["DisplayCode"], f["Code"], f["Name"])
  {
    var id :- Get(msg, "Id");
    var display :- Get(msg, "DisplayCode");
    var code :- Get(msg, "Code");
    var name :- Get(msg, "Name");
    Success(Carrier(id, display, code, name))
  }

  /** `FlightItinerary(msg)`, as written: BOTH leg ids are read from
      `OutboundLegId`; the message's own `InboundLegId` is never looked at. */
  function ParseItinerary(msg: Json): Result<Itinerary> {
    var outbound :- Get(msg, "OutboundLegId");
    var inbound := Get(msg, "OutboundLegId").Extract();
    var options :- Get(msg, "PricingOptions");
    var items :- Elements(options);
    var pricing :- MapAll(items, ParsePricingOption);
    Success(Itinerary(outbound, inbound, pricing))
  }

  /** What building an itinerary yields: it succeeds exactly when the message
      has `OutboundLegId` and an iterable `PricingOptions` whose every element
      is a valid pricing option; it then holds one pricing option per element,
      in the same order, and both leg ids are the message's `OutboundLegId`. */
  lemma ItineraryFromMessage(msg: Json)
    ensures ParseItinerary(msg).Success? <==>
      HasKeys(msg, {"OutboundLegId", "PricingOptions"}) &&
      Elements(msg.fields["PricingOptions"]).Success? &&
      AllBuild(Elements(msg.fields["PricingOptions"]).value, ParsePricingOption)
    ensures ParseItinerary(msg).Success? ==>
      var it := ParseItinerary(msg).value;
      var items := Elements(msg.fields["PricingOptions"]).value;
      it.OutboundLegId == msg.fields["OutboundLegId"] &&
      it.InboundLegId == it.OutboundLegId &&
      |it.PricingOptions| == |items| &&
      forall i | 0 <= i < |items| :: it.PricingOptions[i] == ParsePricingOption(items[i]).value
  {
    if HasKeys(msg, {"OutboundLegId", "PricingOptions"}) && Elements(msg.fields["PricingOptions"]).Success? {
      MapAllSuccess(Elements(msg.fields["PricingOptions"]).value, ParsePricingOption);
    }
  }

  /** The `InboundLegId` of the message is ignored: replacing it, or adding
      one, leaves the itinerary built (or the error raised) unchanged. */
  lemma InboundLegIdIgnored(msg: Json, v: Json)
    requires msg.Obj?
    ensures ParseItinerary(Obj(msg.fields["InboundLegId" := v])) == ParseItinerary(msg)
  {
  }

  /** An example: a message whose inbound leg differs from its outbound leg
      still yields an itinerary whose two leg ids are the outbound one. */
  lemma InboundLegIdExample()
    ensures
      var msg := Obj(map["OutboundLegId" := Str("out"), "InboundLegId" := Str("in"), "PricingOptions" := Arr([])]);
      ParseItinerary(msg) == Success(Itinerary(Str("out"), Str("out"), []))
  {
    var msg := Obj(map["OutboundLegId" := Str("out"), "InboundLegId" := Str("in"), "PricingOptions" := Arr([])]);
    assert Elements(msg.fields["PricingOptions"]) == Success([]);
    assert MapAll([], ParsePricingOption) == Success([]);
  }

  /** The smallest price in a non-empty list of pricing options. */
  function MinPrice(options: seq<PricingOption>): (m: real)
    requires |options| > 0
    ensures exists i | 0 <= i < |options| :: options[i].Price == m
    ensures forall i | 0 <= i < |options| :: m <= options[i].Price
    decreases |options|
  {
    if |options| == 1 then options[0].Price
    else
      var rest := MinPrice(options[1..]);
      assert forall i | 1 <= i < |options| :: options[i] == options[1..][i - 1];
      if options[0].Price <= rest then options[0].Price else rest
  }

  /** `FlightItinerary.get_lowest_price`: `min` over the prices of the
      pricing options, which raises on an itinerary with none. */
  function LowestPrice(it: Itinerary): (r: Result<real>)
    ensures r.Success? <==> |it.PricingOptions| > 0
    ensures r.Failure? ==> r.error == EmptyMin
    ensures r.Success? ==>
      (exists i | 0 <= i < |it.PricingOptions| :: it.PricingOptions[i].Price == r.value) &&
      (forall i | 0 <= i < |it.PricingOptions| :: r.value <= it.PricingOptions[i].Price)
  {
    if |it.PricingOptions| == 0 then Failure(EmptyMin) else Success(MinPrice(it.PricingOptions))
  }

  /** The key the selection of the cheapest itineraries sorts by. The
      selection only sorts lists whose every itinerary has a lowest price, so
      the fallback `0.0` is never consulted there. */
  function PriceKey(it: Itinerary): real {
    match LowestPrice(it)
    case Success(p) => p
    case Failure(_) => 0.0
  }

  /** Every itinerary of the list has a lowest price. */
  predicate AllPriced(its: seq<Itinerary>) {
    forall it | it in its :: LowestPrice(it).Success?
  }

  /** `a` has a lowest price, and it is no higher than that of `b`. */
  predicate NotDearer(a: Itinerary, b: Itinerary) {
    LowestPrice(a).Success? && LowestPrice(b).Success? && LowestPrice(a).value <= LowestPrice(b).value
  }
}
