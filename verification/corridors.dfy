/**
 Which transfers a configuration allows: the corridors the server derives from it (transfers/service.ts), the
 destinations the web client derives from those (apps/web/lib/workflow.ts), and the checks an administrator's
 configuration passes before it is activated (admin/service.ts).
 */
module Corridors {
  import opened Common

  datatype PayoutMethod = BankTransfer | CashPickup | MobileMoney | OtherMethod

  datatype Corridor = Corridor(
    origin: string, destination: string,
    sendCurrencies: seq<string>, receiveCurrencies: seq<string>, payoutMethods: seq<PayoutMethod>)

  datatype Configuration = Configuration(
    origins: seq<string>, destinations: seq<string>, currencies: seq<string>,
    sendByOrigin: map<string, seq<string>>,
    receiveByDestination: map<string, seq<string>>,
    methodsByDestination: map<string, seq<PayoutMethod>>,
    maxEvidenceBytes: nat, contentTypes: seq<string>, limitedCurrencies: set<string>)

  // ----- The server's corridors -----

  function Get<T>(m: map<string, seq<T>>, key: string): seq<T> {
    if key in m then m[key] else []
  }

  /** The corridor of one pair, unless something is missing. */
  function CorridorOf(c: Configuration, origin: string, destination: string): seq<Corridor> {
    var send, receive := Get(c.sendByOrigin, origin), Get(c.receiveByDestination, destination);
    var methods := Get(c.methodsByDestination, destination);
    if send != [] && receive != [] && methods != [] then [Corridor(origin, destination, send, receive, methods)] else []
  }

  function FromOrigin(c: Configuration, origin: string, destinations: seq<string>): seq<Corridor> {
    if destinations == [] then [] else CorridorOf(c, origin, destinations[0]) + FromOrigin(c, origin, destinations[1..])
  }

  function FromOrigins(c: Configuration, origins: seq<string>): seq<Corridor> {
    if origins == [] then [] else FromOrigin(c, origins[0], c.destinations) + FromOrigins(c, origins[1..])
  }

  /** The corridors of effectivePolicy. */
  function EffectiveCorridors(c: Configuration): seq<Corridor> {
    FromOrigins(c, c.origins)
  }

  datatype Request = Request(origin: string, destination: string, currency: string, payoutMethod: PayoutMethod)

  predicate Fits(corridor: Corridor, r: Request) {
    && corridor.origin == r.origin && corridor.destination == r.destination
    && r.currency in corridor.sendCurrencies && r.payoutMethod in corridor.payoutMethods
  }

  /** corridorFor: the first corridor that fits. */
  function CorridorFor(corridors: seq<Corridor>, r: Request): Option<Corridor> {
    if corridors == [] then None
    else if Fits(corridors[0], r) then Some(corridors[0])
    else CorridorFor(corridors[1..], r)
  }

  predicate SupportedDestination(corridors: seq<Corridor>, country: string, payoutMethod: PayoutMethod) {
    exists i | 0 <= i < |corridors| :: corridors[i].destination == country && payoutMethod in corridors[i].payoutMethods
  }

  lemma {:induction false} FromOriginHolds(c: Configuration, origin: string, destinations: seq<string>, corridor: Corridor)
    ensures corridor in FromOrigin(c, origin, destinations) <==>
            corridor.destination in destinations && CorridorOf(c, origin, corridor.destination) == [corridor]
  {
    if destinations != [] {
      FromOriginHolds(c, origin, destinations[1..], corridor);
    }
  }

  lemma {:induction false} FromOriginsHolds(c: Configuration, origins: seq<string>, corridor: Corridor)
    ensures corridor in FromOrigins(c, origins) <==>
            corridor.origin in origins && corridor.destination in c.destinations &&
            CorridorOf(c, corridor.origin, corridor.destination) == [corridor]
  {
    if origins != [] {
      FromOriginHolds(c, origins[0], c.destinations, corridor);
      FromOriginsHolds(c, origins[1..], corridor);
    }
  }

  lemma {:induction false} CorridorForFinds(corridors: seq<Corridor>, r: Request)
    ensures match CorridorFor(corridors, r)
            case Some(corridor) => corridor in corridors && Fits(corridor, r)
            case None => forall corridor | corridor in corridors :: !Fits(corridor, r)
  {
    if corridors != [] {
      CorridorForFinds(corridors[1..], r);
    }
  }

  /**
   The server accepts a request exactly when the configuration lists its origin and destination, sends its currency
   from there, pays out its method there, and has some currency to pay out in.
   */
  lemma AcceptedIffConfigured(c: Configuration, r: Request)
    ensures CorridorFor(EffectiveCorridors(c), r).Some? <==>
            && r.origin in c.origins && r.destination in c.destinations
            && r.currency in Get(c.sendByOrigin, r.origin)
            && r.payoutMethod in Get(c.methodsByDestination, r.destination)
            && Get(c.receiveByDestination, r.destination) != []
  {
    var all := EffectiveCorridors(c);
    CorridorForFinds(all, r);
    var wanted := Corridor(r.origin, r.destination, Get(c.sendByOrigin, r.origin),
                           Get(c.receiveByDestination, r.destination), Get(c.methodsByDestination, r.destination));
    FromOriginsHolds(c, c.origins, wanted);
    if CorridorFor(all, r).Some? {
      FromOriginsHolds(c, c.origins, CorridorFor(all, r).value);
    }
  }

  // ----- The client's destinations -----

  datatype Destination = Destination(country: string, receiveCurrencies: seq<string>, payoutMethods: seq<PayoutMethod>)

  /** Set.add, with the insertion order a Set keeps. */
  function Add<T(==)>(have: seq<T>, x: T): seq<T> {
    if x in have then have else have + [x]
  }

  function AddAll<T(==)>(have: seq<T>, xs: seq<T>): seq<T> {
    if xs == [] then have else Add(AddAll(have, xs[..|xs| - 1]), xs[|xs| - 1])
  }

  function IndexOf(destinations: seq<Destination>, country: string): (i: nat)
    ensures i <= |destinations|
    ensures forall j | 0 <= j < i :: destinations[j].country != country
    ensures i < |destinations| ==> destinations[i].country == country
  {
    if destinations == [] || destinations[0].country == country then 0 else 1 + IndexOf(destinations[1..], country)
  }

  function Merge(destinations: seq<Destination>, corridor: Corridor): seq<Destination> {
    var i := IndexOf(destinations, corridor.destination);
    var before := if i < |destinations| then destinations[i] else Destination(corridor.destination, [], []);
    var merged := Destination(corridor.destination, AddAll(before.receiveCurrencies, corridor.receiveCurrencies),
                              AddAll(before.payoutMethods, corridor.payoutMethods));
    if i < |destinations| then destinations[i := merged] else destinations + [merged]
  }

  function Options(corridors: seq<Corridor>): seq<Destination> {
    if corridors == [] then [] else Merge(Options(corridors[..|corridors| - 1]), corridors[|corridors| - 1])
  }

  /** recipientDestinationOptions, over a map kept as the sequence of its entries in insertion order. */
  method RecipientDestinationOptions(corridors: seq<Corridor>) returns (destinations: seq<Destination>)
    ensures destinations == Options(corridors)
  {
    destinations := [];
    for n := 0 to |corridors|
      invariant destinations == Options(corridors[..n])
    {
      var corridor := corridors[n];
      var at := IndexOf(destinations, corridor.destination);
      var currencies: seq<string>, methods: seq<PayoutMethod> := [], [];
      if at < |destinations| {
        currencies, methods := destinations[at].receiveCurrencies, destinations[at].payoutMethods;
      }
      ghost var c0, m0 := currencies, methods;
      for i := 0 to |corridor.receiveCurrencies|
        invariant currencies == AddAll(c0, corridor.receiveCurrencies[..i])
      {
        assert corridor.receiveCurrencies[..i + 1][..i] == corridor.receiveCurrencies[..i];
        currencies := Add(currencies, corridor.receiveCurrencies[i]);
      }
      for i := 0 to |corridor.payoutMethods|
        invariant methods == AddAll(m0, corridor.payoutMethods[..i])
      {
        assert corridor.payoutMethods[..i + 1][..i] == corridor.payoutMethods[..i];
        methods := Add(methods, corridor.payoutMethods[i]);
      }
      assert corridor.receiveCurrencies[..|corridor.receiveCurrencies|] == corridor.receiveCurrencies;
      assert corridor.payoutMethods[..|corridor.payoutMethods|] == corridor.payoutMethods;
      assert corridors[..n + 1][..n] == corridors[..n];
      var entry := Destination(corridor.destination, currencies, methods);
      destinations := if at < |destinations| then destinations[at := entry] else destinations + [entry];
    }
    assert corridors[..|corridors|] == corridors;
  }

  predicate NoRepeats<T(==)>(s: seq<T>) {
    forall i, j | 0 <= i < j < |s| :: s[i] != s[j]
  }

  lemma {:induction false} AddAllIsUnion<T>(have: seq<T>, xs: seq<T>)
    ensures forall x :: x in AddAll(have, xs) <==> x in have || x in xs
    ensures NoRepeats(have) ==> NoRepeats(AddAll(have, xs))
  {
    if xs != [] {
      AddAllIsUnion(have, xs[..|xs| - 1]);
      assert xs == xs[..|xs| - 1] + [xs[|xs| - 1]];
    }
  }

  predicate Offers(destinations: seq<Destination>, country: string, payoutMethod: PayoutMethod) {
    exists i | 0 <= i < |destinations| :: destinations[i].country == country && payoutMethod in destinations[i].payoutMethods
  }

  /** One entry per country, and nothing listed twice. */
  predicate Tidy(destinations: seq<Destination>) {
    && (forall i, j | 0 <= i < j < |destinations| :: destinations[i].country != destinations[j].country)
    && (forall i | 0 <= i < |destinations| ::
          NoRepeats(destinations[i].receiveCurrencies) && NoRepeats(destinations[i].payoutMethods))
  }

  lemma MergeOffers(destinations: seq<Destination>, corridor: Corridor, country: string, payoutMethod: PayoutMethod)
    requires Tidy(destinations)
    ensures Tidy(Merge(destinations, corridor))
    ensures Offers(Merge(destinations, corridor), country, payoutMethod) <==>
            Offers(destinations, country, payoutMethod) || (corridor.destination == country && payoutMethod in corridor.payoutMethods)
  {
    var i := IndexOf(destinations, corridor.destination);
    var before := if i < |destinations| then destinations[i] else Destination(corridor.destination, [], []);
    AddAllIsUnion(before.receiveCurrencies, corridor.receiveCurrencies);
    AddAllIsUnion(before.payoutMethods, corridor.payoutMethods);
    var merged := Merge(destinations, corridor);
    assert forall k | 0 <= k < |destinations| && k != i :: merged[k] == destinations[k];
    assert i < |merged| && merged[i].country == corridor.destination;
  }

  /** The form offers exactly the country and payout method pairs that the server supports, each once. */
  lemma {:induction false} OfferedIffSupported(corridors: seq<Corridor>, country: string, payoutMethod: PayoutMethod)
    ensures Tidy(Options(corridors))
    ensures Offers(Options(corridors), country, payoutMethod) <==> SupportedDestination(corridors, country, payoutMethod)
  {
    if corridors != [] {
      var n := |corridors| - 1;
      OfferedIffSupported(corridors[..n], country, payoutMethod);
      MergeOffers(Options(corridors[..n]), corridors[n], country, payoutMethod);
      assert SupportedDestination(corridors, country, payoutMethod) <==>
        SupportedDestination(corridors[..n], country, payoutMethod) ||
        (corridors[n].destination == country && payoutMethod in corridors[n].payoutMethods);
    }
  }

  predicate OffersCurrency(destinations: seq<Destination>, country: string, currency: string) {
    exists i | 0 <= i < |destinations| :: destinations[i].country == country && currency in destinations[i].receiveCurrencies
  }

  predicate PaysOutIn(corridors: seq<Corridor>, country: string, currency: string) {
    exists i | 0 <= i < |corridors| :: corridors[i].destination == country && currency in corridors[i].receiveCurrencies
  }

  lemma MergeOffersCurrency(destinations: seq<Destination>, corridor: Corridor, country: string, currency: string)
    requires Tidy(destinations)
    ensures OffersCurrency(Merge(destinations, corridor), country, currency) <==>
            OffersCurrency(destinations, country, currency) || (corridor.destination == country && currency in corridor.receiveCurrencies)
  {
    var i := IndexOf(destinations, corridor.destination);
    var before := if i < |destinations| then destinations[i] else Destination(corridor.destination, [], []);
    AddAllIsUnion(before.receiveCurrencies, corridor.receiveCurrencies);
    var merged := Merge(destinations, corridor);
    assert forall k | 0 <= k < |destinations| && k != i :: merged[k] == destinations[k];
    assert i < |merged| && merged[i].country == corridor.destination;
  }

  /** The same for the currencies a recipient can be paid in. */
  lemma {:induction false} CurrencyOfferedIffPaidOut(corridors: seq<Corridor>, country: string, currency: string)
    ensures OffersCurrency(Options(corridors), country, currency) <==> PaysOutIn(corridors, country, currency)
  {
    if corridors != [] {
      var n := |corridors| - 1;
      CurrencyOfferedIffPaidOut(corridors[..n], country, currency);
      OfferedIffSupported(corridors[..n], country, BankTransfer);
      MergeOffersCurrency(Options(corridors[..n]), corridors[n], country, currency);
      assert PaysOutIn(corridors, country, currency) <==>
        PaysOutIn(corridors[..n], country, currency) ||
        (corridors[n].destination == country && currency in corridors[n].receiveCurrencies);
    }
  }

  /** Some listed origin can send, and the country is listed with a method and a currency to pay out: it has a corridor. */
  predicate Reachable(c: Configuration, country: string) {
    && country in c.destinations && Get(c.receiveByDestination, country) != [] && Get(c.methodsByDestination, country) != []
    && exists origin | origin in c.origins :: Get(c.sendByOrigin, origin) != []
  }

  /** What the form offers for a country is exactly what the configuration lists for it, if the country has a corridor at all. */
  lemma OptionsMatchConfiguration(c: Configuration, country: string, payoutMethod: PayoutMethod, currency: string)
    ensures var options := Options(EffectiveCorridors(c));
            && (Offers(options, country, payoutMethod) <==>
                  Reachable(c, country) && payoutMethod in Get(c.methodsByDestination, country))
            && (OffersCurrency(options, country, currency) <==>
                  Reachable(c, country) && currency in Get(c.receiveByDestination, country))
  {
    var all := EffectiveCorridors(c);
    OfferedIffSupported(all, country, payoutMethod);
    CurrencyOfferedIffPaidOut(all, country, currency);
    forall corridor ensures corridor in all <==>
      corridor.origin in c.origins && corridor.destination in c.destinations &&
      CorridorOf(c, corridor.origin, corridor.destination) == [corridor]
    {
      FromOriginsHolds(c, c.origins, corridor);
    }
    if Reachable(c, country) {
      var origin :| origin in c.origins && Get(c.sendByOrigin, origin) != [];
      var corridor := Corridor(origin, country, Get(c.sendByOrigin, origin),
                               Get(c.receiveByDestination, country), Get(c.methodsByDestination, country));
      assert corridor in all;
      var k :| 0 <= k < |all| && all[k] == corridor;
    }
    hide EffectiveCorridors, Options, Offers, OffersCurrency;
    forall i | 0 <= i < |all| && all[i].destination == country
      ensures Reachable(c, country)
      ensures all[i].payoutMethods == Get(c.methodsByDestination, country)
      ensures all[i].receiveCurrencies == Get(c.receiveByDestination, country)
    {
      assert all[i] in all;
    }
  }

  datatype Selection = Selection(country: string, payoutMethod: Option<PayoutMethod>)

  /** reconcileRecipientDestination */
  function Reconcile(destinations: seq<Destination>, country: string, payoutMethod: Option<PayoutMethod>): Selection {
    var i := IndexOf(destinations, country);
    if i == |destinations| then Selection("", None)
    else
      var d := destinations[i];
      Selection(d.country,
                if payoutMethod.Some? && payoutMethod.value in d.payoutMethods then payoutMethod
                else if d.payoutMethods == [] then None else Some(d.payoutMethods[0]))
  }

  /**
   Reconciling with the options of the current corridors leaves a pair the server supports, keeps the user's own
   pair whenever it is one, clears the country exactly if it has no payout method any more, and is done at once.
   */
  lemma ReconciledIsSupported(corridors: seq<Corridor>, country: string, payoutMethod: Option<PayoutMethod>)
    requires forall corridor | corridor in corridors :: corridor.payoutMethods != [] && corridor.destination != ""
    ensures var options := Options(corridors);
            var selected := Reconcile(options, country, payoutMethod);
            && (selected.payoutMethod.Some? ==>
                  selected.country == country && SupportedDestination(corridors, country, selected.payoutMethod.value))
            && (payoutMethod.Some? && SupportedDestination(corridors, country, payoutMethod.value) ==>
                  selected == Selection(country, payoutMethod))
            && (selected == Selection("", None) <==> forall m :: !SupportedDestination(corridors, country, m))
            && Reconcile(options, selected.country, selected.payoutMethod) == selected
  {
    var options := Options(corridors);
    NonemptyMethods(corridors);
    var i := IndexOf(options, country);
    forall m ensures Offers(options, country, m) <==> SupportedDestination(corridors, country, m) {
      OfferedIffSupported(corridors, country, m);
    }
    OfferedIffSupported(corridors, country, BankTransfer);
    hide SupportedDestination, Options;
    forall m ensures Offers(options, country, m) <==> i < |options| && m in options[i].payoutMethods {
    }
    if i < |options| {
      assert options[i].payoutMethods[0] in options[i].payoutMethods;
      assert Offers(options, country, options[i].payoutMethods[0]);
    }
  }

  lemma {:induction false} NonemptyMethods(corridors: seq<Corridor>)
    requires forall corridor | corridor in corridors :: corridor.payoutMethods != [] && corridor.destination != ""
    ensures forall i | 0 <= i < |Options(corridors)| ::
              Options(corridors)[i].payoutMethods != [] && Options(corridors)[i].country != ""
  {
    if corridors != [] {
      var n := |corridors| - 1;
      NonemptyMethods(corridors[..n]);
      var i := IndexOf(Options(corridors[..n]), corridors[n].destination);
      var before := if i < |Options(corridors[..n])| then Options(corridors[..n])[i].payoutMethods else [];
      AddAllIsUnion(before, corridors[n].payoutMethods);
      assert corridors[n].payoutMethods[0] in AddAll(before, corridors[n].payoutMethods);
    }
  }
}
