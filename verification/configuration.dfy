/** Validating and activating an administrator's configuration (admin/service.ts). */
module ConfigurationActivation {
  import opened Common
  import opened Corridors

  datatype ConfigurationError =
    | DuplicateValue | InvalidPayoutMethods | InvalidSendCurrencies | InvalidReceiveCurrencies
    | EvidenceExceedsLimit | InvalidTransferLimit

  /** What the environment permits at most. */
  datatype Ceiling = Ceiling(contentTypes: set<string>, maximumBytes: nat)

  function SetOf<T(==)>(values: seq<T>): set<T> {
    set x | x in values
  }

  /** new Set(values).size === values.length */
  predicate Unique<T(==)>(values: seq<T>) {
    |SetOf(values)| == |values|
  }

  /** As many keys as countries, and every key a country. */
  predicate KeysMatch<T>(mapping: map<string, seq<T>>, countries: set<string>) {
    |mapping.Keys| == |countries| && forall key | key in mapping :: key in countries
  }

  /** validateCurrencyMapping */
  predicate CurrencyMappingOk(mapping: map<string, seq<string>>, countries: set<string>, supported: set<string>) {
    KeysMatch(mapping, countries) &&
    forall key | key in mapping :: Unique(mapping[key]) && forall currency | currency in mapping[key] :: currency in supported
  }

  function Validate(c: Configuration, ceiling: Ceiling): Option<ConfigurationError> {
    if !(Unique(c.origins) && Unique(c.destinations) && Unique(c.currencies) && Unique(c.contentTypes)) then Some(DuplicateValue)
    else if !KeysMatch(c.methodsByDestination, SetOf(c.destinations)) then Some(InvalidPayoutMethods)
    else if exists key | key in c.methodsByDestination :: !Unique(c.methodsByDestination[key]) then Some(DuplicateValue)
    else if !CurrencyMappingOk(c.sendByOrigin, SetOf(c.origins), SetOf(c.currencies)) then Some(InvalidSendCurrencies)
    else if !CurrencyMappingOk(c.receiveByDestination, SetOf(c.destinations), SetOf(c.currencies)) then Some(InvalidReceiveCurrencies)
    else if c.maxEvidenceBytes > ceiling.maximumBytes || exists t | t in c.contentTypes :: t !in ceiling.contentTypes
    then Some(EvidenceExceedsLimit)
    else if exists currency | currency in c.limitedCurrencies :: currency !in c.currencies then Some(InvalidTransferLimit)
    else None
  }

  /** The request schema: no list is empty. */
  predicate Nonempty(c: Configuration) {
    && (forall key | key in c.sendByOrigin :: c.sendByOrigin[key] != [])
    && (forall key | key in c.receiveByDestination :: c.receiveByDestination[key] != [])
    && (forall key | key in c.methodsByDestination :: c.methodsByDestination[key] != [])
  }

  // ----- What validation gives -----

  lemma {:induction false} SetOfSize<T>(values: seq<T>)
    ensures |SetOf(values)| <= |values|
    ensures Unique(values) <==> NoRepeats(values)
  {
    if values == [] {
      assert SetOf(values) == {};
    } else {
      var n := |values| - 1;
      var front, last := values[..n], values[n];
      SetOfSize(front);
      assert SetOf(values) == SetOf(front) + {last};
      if last in front {
        var i :| 0 <= i < n && front[i] == last;
        assert values[i] == values[n];
        assert SetOf(values) == SetOf(front);
      } else {
        assert |SetOf(values)| == |SetOf(front)| + 1;
        assert NoRepeats(values) <==> NoRepeats(front) by {
          assert forall i | 0 <= i < n :: values[i] == front[i] && front[i] in front;
        }
      }
    }
  }

  lemma {:induction false} SubsetOfSameSize<T>(a: set<T>, b: set<T>)
    requires a <= b && |a| == |b|
    ensures a == b
  {
    if a != {} {
      var x :| x in a;
      SubsetOfSameSize(a - {x}, b - {x});
      assert a == a - {x} + {x} && b == b - {x} + {x};
    } else {
      assert b == {};
    }
  }

  lemma KeysMatchIsEquality<T>(mapping: map<string, seq<T>>, countries: set<string>)
    ensures KeysMatch(mapping, countries) <==> mapping.Keys == countries
  {
    if KeysMatch(mapping, countries) {
      SubsetOfSameSize(mapping.Keys, countries);
    }
  }

  /** What a configuration must be: total, free of repetitions, closed over its currencies, within the environment's limits. */
  predicate Sound(c: Configuration, ceiling: Ceiling) {
    && NoRepeats(c.origins) && NoRepeats(c.destinations) && NoRepeats(c.currencies) && NoRepeats(c.contentTypes)
    && c.sendByOrigin.Keys == SetOf(c.origins)
    && c.receiveByDestination.Keys == c.methodsByDestination.Keys == SetOf(c.destinations)
    && (forall d | d in c.methodsByDestination :: NoRepeats(c.methodsByDestination[d]))
    && CurrenciesSound(c.sendByOrigin, SetOf(c.currencies)) && CurrenciesSound(c.receiveByDestination, SetOf(c.currencies))
    && c.maxEvidenceBytes <= ceiling.maximumBytes && SetOf(c.contentTypes) <= ceiling.contentTypes
    && c.limitedCurrencies <= SetOf(c.currencies)
  }

  predicate CurrenciesSound(mapping: map<string, seq<string>>, supported: set<string>) {
    forall key | key in mapping :: NoRepeats(mapping[key]) && SetOf(mapping[key]) <= supported
  }

  lemma CurrencyMappingIsSound(mapping: map<string, seq<string>>, countries: set<string>, supported: set<string>)
    ensures CurrencyMappingOk(mapping, countries, supported) <==>
            mapping.Keys == countries && CurrenciesSound(mapping, supported)
  {
    KeysMatchIsEquality(mapping, countries);
    forall key | key in mapping ensures Unique(mapping[key]) <==> NoRepeats(mapping[key]) {
      SetOfSize(mapping[key]);
    }
  }

  /** The checks, which count keys and sizes of sets, accept exactly the sound configurations. */
  lemma AcceptedIffSound(c: Configuration, ceiling: Ceiling)
    ensures Validate(c, ceiling).None? <==> Sound(c, ceiling)
  {
    SetOfSize(c.origins);
    SetOfSize(c.destinations);
    SetOfSize(c.currencies);
    SetOfSize(c.contentTypes);
    forall d | d in c.methodsByDestination ensures Unique(c.methodsByDestination[d]) <==> NoRepeats(c.methodsByDestination[d]) {
      SetOfSize(c.methodsByDestination[d]);
    }
    KeysMatchIsEquality(c.methodsByDestination, SetOf(c.destinations));
    CurrencyMappingIsSound(c.sendByOrigin, SetOf(c.origins), SetOf(c.currencies));
    CurrencyMappingIsSound(c.receiveByDestination, SetOf(c.destinations), SetOf(c.currencies));
    hide Unique, NoRepeats, KeysMatch, CurrencyMappingOk, CurrenciesSound;
  }

  /** The error an administrator is shown names something that is wrong. */
  lemma ErrorsAreTrue(c: Configuration, ceiling: Ceiling)
    requires Validate(c, ceiling).Some?
    ensures match Validate(c, ceiling).value
            case DuplicateValue =>
              || !NoRepeats(c.origins) || !NoRepeats(c.destinations) || !NoRepeats(c.currencies) || !NoRepeats(c.contentTypes)
              || exists d | d in c.methodsByDestination :: !NoRepeats(c.methodsByDestination[d])
            case InvalidPayoutMethods => c.methodsByDestination.Keys != SetOf(c.destinations)
            case InvalidSendCurrencies => c.sendByOrigin.Keys != SetOf(c.origins) || !CurrenciesSound(c.sendByOrigin, SetOf(c.currencies))
            case InvalidReceiveCurrencies =>
              c.receiveByDestination.Keys != SetOf(c.destinations) || !CurrenciesSound(c.receiveByDestination, SetOf(c.currencies))
            case EvidenceExceedsLimit => c.maxEvidenceBytes > ceiling.maximumBytes || !(SetOf(c.contentTypes) <= ceiling.contentTypes)
            case InvalidTransferLimit => !(c.limitedCurrencies <= SetOf(c.currencies))
  {
    SetOfSize(c.origins);
    SetOfSize(c.destinations);
    SetOfSize(c.currencies);
    SetOfSize(c.contentTypes);
    forall d | d in c.methodsByDestination ensures Unique(c.methodsByDestination[d]) <==> NoRepeats(c.methodsByDestination[d]) {
      SetOfSize(c.methodsByDestination[d]);
    }
    KeysMatchIsEquality(c.methodsByDestination, SetOf(c.destinations));
    CurrencyMappingIsSound(c.sendByOrigin, SetOf(c.origins), SetOf(c.currencies));
    CurrencyMappingIsSound(c.receiveByDestination, SetOf(c.destinations), SetOf(c.currencies));
    hide Unique, NoRepeats, KeysMatch, CurrencyMappingOk, CurrenciesSound;
  }

  /**
   With an accepted configuration the server takes exactly the requests it spells out: no listed pair of countries is
   dropped for want of a mapping, and only supported currencies can be sent.
   */
  lemma AcceptedServesEveryPair(c: Configuration, ceiling: Ceiling, r: Request)
    requires Validate(c, ceiling).None? && Nonempty(c)
    ensures CorridorFor(EffectiveCorridors(c), r).Some? <==>
            && r.origin in c.origins && r.destination in c.destinations
            && r.currency in Get(c.sendByOrigin, r.origin) && r.payoutMethod in Get(c.methodsByDestination, r.destination)
    ensures CorridorFor(EffectiveCorridors(c), r).Some? ==> r.currency in c.currencies
  {
    AcceptedIffSound(c, ceiling);
    AcceptedIffConfigured(c, r);
  }

  lemma {:induction false} RowLength(c: Configuration, origin: string, destinations: seq<string>)
    requires Nonempty(c) && origin in c.sendByOrigin
    requires forall d | d in destinations :: d in c.receiveByDestination && d in c.methodsByDestination
    ensures |FromOrigin(c, origin, destinations)| == |destinations|
  {
    if destinations != [] {
      RowLength(c, origin, destinations[1..]);
    }
  }

  lemma AddRow(rows: nat, columns: nat)
    requires rows > 0
    ensures (rows - 1) * columns + columns == rows * columns
  {
  }

  lemma {:induction false} TableSize(c: Configuration, origins: seq<string>)
    requires Nonempty(c) && forall o | o in origins :: o in c.sendByOrigin
    requires forall d | d in c.destinations :: d in c.receiveByDestination && d in c.methodsByDestination
    ensures |FromOrigins(c, origins)| == |origins| * |c.destinations|
  {
    if origins != [] {
      RowLength(c, origins[0], c.destinations);
      TableSize(c, origins[1..]);
      hide Nonempty, FromOrigin;
      AddRow(|origins|, |c.destinations|);
    }
  }

  /** One corridor for every pair of an origin and a destination. */
  lemma AcceptedHasEveryCorridor(c: Configuration, ceiling: Ceiling)
    requires Validate(c, ceiling).None? && Nonempty(c)
    ensures |EffectiveCorridors(c)| == |c.origins| * |c.destinations|
  {
    AcceptedIffSound(c, ceiling);
    TableSize(c, c.origins);
  }

  // ----- Activation -----

  datatype Row = Row(version: nat, active: bool, configuration: Configuration)

  /** The active row of highest version, which getActive and activateConfiguration look for, or the length. */
  function CurrentIndex(rows: seq<Row>): (i: nat)
    ensures i <= |rows|
    ensures i < |rows| ==> rows[i].active && forall j | 0 <= j < |rows| && rows[j].active :: rows[j].version <= rows[i].version
    ensures i == |rows| ==> forall j | 0 <= j < |rows| :: !rows[j].active
  {
    if rows == [] then 0
    else
      var n := |rows| - 1;
      var i := CurrentIndex(rows[..n]);
      if rows[n].active && (i == n || rows[n].version > rows[i].version) then n
      else if i < n then i else n + 1
  }

  function MaxVersion(rows: seq<Row>): nat {
    if rows == [] then 0
    else
      var rest, last := MaxVersion(rows[..|rows| - 1]), rows[|rows| - 1].version;
      if last > rest then last else rest
  }

  function Activate(rows: seq<Row>, c: Configuration, ceiling: Ceiling): seq<Row> {
    if Validate(c, ceiling).Some? then rows
    else
      var i := CurrentIndex(rows);
      var quiet := if i < |rows| then rows[i := rows[i].(active := false)] else rows;
      quiet + [Row(MaxVersion(rows) + 1, true, c)]
  }

  function Activations(requests: seq<Configuration>, ceiling: Ceiling): seq<Row> {
    if requests == [] then [] else Activate(Activations(requests[..|requests| - 1], ceiling), requests[|requests| - 1], ceiling)
  }

  /** The configurations of these requests that were valid, in order. */
  function Accepted(requests: seq<Configuration>, ceiling: Ceiling): seq<Configuration> {
    if requests == [] then []
    else
      var last := requests[|requests| - 1];
      Accepted(requests[..|requests| - 1], ceiling) + if Validate(last, ceiling).None? then [last] else []
  }

  lemma {:induction false} MaxVersionOfHistory(rows: seq<Row>)
    requires forall i | 0 <= i < |rows| :: rows[i].version == i + 1
    ensures MaxVersion(rows) == |rows|
  {
    if rows != [] {
      MaxVersionOfHistory(rows[..|rows| - 1]);
    }
  }

  /** The rows are these configurations, numbered in order, and only the last is active. */
  predicate IsHistory(rows: seq<Row>, accepted: seq<Configuration>) {
    && |rows| == |accepted|
    && (forall i | 0 <= i < |rows| :: rows[i] == Row(i + 1, i == |rows| - 1, accepted[i]))
  }

  lemma CurrentIsLast(rows: seq<Row>, accepted: seq<Configuration>)
    requires IsHistory(rows, accepted)
    ensures CurrentIndex(rows) == if rows == [] then 0 else |rows| - 1
  {
    hide CurrentIndex;
    var i := CurrentIndex(rows);
    if rows != [] {
      assert rows[|rows| - 1].active;
    }
  }

  lemma ActivateAppends(rows: seq<Row>, accepted: seq<Configuration>, c: Configuration, ceiling: Ceiling)
    requires IsHistory(rows, accepted)
    ensures IsHistory(Activate(rows, c, ceiling), accepted + if Validate(c, ceiling).None? then [c] else [])
  {
    hide Validate, CurrentIndex;
    CurrentIsLast(rows, accepted);
    MaxVersionOfHistory(rows);
  }

  /**
   After any requests the rows are the accepted configurations, numbered in order, and the last of them is the only
   active one, so it is what getActive returns.
   */
  lemma {:induction false} LatestAcceptedIsActive(requests: seq<Configuration>, ceiling: Ceiling)
    ensures var rows, accepted := Activations(requests, ceiling), Accepted(requests, ceiling);
            && IsHistory(rows, accepted)
            && (forall i | 0 <= i < |accepted| :: Validate(accepted[i], ceiling).None?)
            && CurrentIndex(rows) == if |rows| == 0 then 0 else |rows| - 1
  {
    hide Validate, IsHistory, Activate, CurrentIndex;
    if requests == [] {
      assert IsHistory([], []) by { EmptyHistory(); }
    } else {
      var n := |requests| - 1;
      LatestAcceptedIsActive(requests[..n], ceiling);
      ActivateAppends(Activations(requests[..n], ceiling), Accepted(requests[..n], ceiling), requests[n], ceiling);
    }
    CurrentIsLast(Activations(requests, ceiling), Accepted(requests, ceiling));
  }

  lemma EmptyHistory()
    ensures IsHistory([], [])
  {
  }

  /** The stored configurations. */
  class ConfigurationService {
    const ceiling: Ceiling
    var rows: seq<Row>

    constructor (ceiling: Ceiling)
      ensures rows == Activations([], ceiling) && this.ceiling == ceiling
    {
      this.ceiling := ceiling;
      rows := [];
    }

    method ActivateConfiguration(c: Configuration) returns (error: Option<ConfigurationError>)
      modifies this
      ensures error == Validate(c, ceiling)
      ensures rows == Activate(old(rows), c, ceiling)
      ensures forall requests | old(rows) == Activations(requests, ceiling) :: rows == Activations(requests + [c], ceiling)
    {
      error := Validate(c, ceiling);
      if error.None? {
        var current := CurrentIndex(rows);
        var latest := MaxVersion(rows);
        if current < |rows| {
          rows := rows[current := rows[current].(active := false)];
        }
        rows := rows + [Row(latest + 1, true, c)];
      }
      forall requests | old(rows) == Activations(requests, ceiling) ensures rows == Activations(requests + [c], ceiling) {
        assert (requests + [c])[..|requests|] == requests;
      }
    }
  }
}
