/** The server's `FlightMonitor` (packages/server/src/services/monitor.ts): the registry of
    running monitors and the store of monitored flights with their price histories.

    The Prisma database is two maps: monitor rows by monitor id, and flight rows by the key the
    poll tick looks them up with, which is the offer id. Timers are opaque handles and a tick of
    the interval timer is an explicit call of `PollTick`. */
module Monitor {
  import opened Wrappers
  import opened AmadeusTypes
  import opened Search

  /** A stored flight row. */
  datatype FlightRecord = FlightRecord(
    monitorId: string,
    amadeusId: string,
    airline: Option<string>,
    price: real,
    priceHistory: seq<real>,
    outbound: LegSummary,
    returnLeg: Option<LegSummary>)

  /** A stored monitor row: the credentials and form it was started with. */
  datatype MonitorRecord = MonitorRecord(credentials: Credentials, details: SearchForm)

  /** A registered interval timer: its handle and what its callback closes over. */
  datatype Timer = Timer(handle: nat, credentials: Credentials, details: SearchForm)

  type FlightTable = map<string, FlightRecord>

  /** Every row sits under its own offer id and its price is the last entry of its history. */
  predicate StoreConsistent(t: FlightTable)
  {
    forall k :: k in t ==> t[k].amadeusId == k && |t[k].priceHistory| > 0
                           && t[k].priceHistory[|t[k].priceHistory| - 1] == t[k].price
  }

  /** The row `startMonitoring` creates for a fresh result: its history is just its price. */
  function Seeded(monitorId: string, f: FlightSummary): FlightRecord
  {
    FlightRecord(monitorId, f.id, f.airline, f.price, [f.price], f.outbound, f.returnLeg)
  }

  /** `getFlights`' view of a row. */
  function SummaryOf(r: FlightRecord): FlightSummary
  {
    FlightSummary(r.amadeusId, r.price, r.priceHistory, r.airline, r.outbound, r.returnLeg)
  }

  /** Storing a fresh result and reading it back gives the result again. */
  lemma SeededRoundTrip(monitorId: string, f: FlightSummary)
    requires f.priceHistory == [f.price]
    ensures SummaryOf(Seeded(monitorId, f)) == f
    ensures Seeded(monitorId, f).monitorId == monitorId
  {
  }

  /** The table without the monitor's rows (`deleteMany`). */
  function WithoutMonitor(t: FlightTable, monitorId: string): (r: FlightTable)
    ensures forall k :: k in r <==> k in t && t[k].monitorId != monitorId
    ensures forall k :: k in r ==> r[k] == t[k]
  {
    map k | k in t && t[k].monitorId != monitorId :: t[k]
  }

  /** Index of the last flight with id `k`. */
  function LastIndex(flights: seq<FlightSummary>, k: string): (i: Option<nat>)
    ensures i.Some? ==> i.value < |flights| && flights[i.value].id == k
                        && forall j :: i.value < j < |flights| ==> flights[j].id != k
    ensures i.None? ==> forall j :: 0 <= j < |flights| ==> flights[j].id != k
  {
    if flights == [] then None
    else if flights[|flights| - 1].id == k then Some(|flights| - 1)
    else LastIndex(flights[..|flights| - 1], k)
  }

  /** Seeded rows for the flights, created in order (`createMany`); under one key the later
      flight wins. */
  function Seed(t: FlightTable, monitorId: string, flights: seq<FlightSummary>): FlightTable
  {
    if flights == [] then t
    else
      var last := flights[|flights| - 1];
      Seed(t, monitorId, flights[..|flights| - 1])[last.id := Seeded(monitorId, last)]
  }

  /** What the upsert leaves in the flight table: the monitor's old rows replaced by the fresh
      results. */
  function ReplaceFlights(t: FlightTable, monitorId: string, flights: seq<FlightSummary>): FlightTable
  {
    Seed(WithoutMonitor(t, monitorId), monitorId, flights)
  }

  lemma {:induction false} SeedEffect(t: FlightTable, monitorId: string, flights: seq<FlightSummary>)
    ensures forall k :: k in Seed(t, monitorId, flights) <==> LastIndex(flights, k).Some? || k in t
    ensures forall k :: k in Seed(t, monitorId, flights) ==>
      Seed(t, monitorId, flights)[k] == match LastIndex(flights, k)
                                        case Some(i) => Seeded(monitorId, flights[i])
                                        case None => t[k]
    decreases |flights|
  {
    if flights != [] {
      var n := |flights| - 1;
      SeedEffect(t, monitorId, flights[..n]);
      forall k ensures LastIndex(flights, k) == (if flights[n].id == k then Some(n) else LastIndex(flights[..n], k)) {
      }
    }
  }

  /** After the upsert a key holds the seeded row of the last fresh result with that id;
      otherwise the untouched row of another monitor, if there was one. Every row of this
      monitor comes from the fresh results and its history is just its price. */
  lemma ReplaceFlightsEffect(t: FlightTable, monitorId: string, flights: seq<FlightSummary>)
    ensures var r := ReplaceFlights(t, monitorId, flights);
      && (forall k :: k in r <==> LastIndex(flights, k).Some? || (k in t && t[k].monitorId != monitorId))
      && (forall k :: k in r ==> r[k] == match LastIndex(flights, k)
                                         case Some(i) => Seeded(monitorId, flights[i])
                                         case None => t[k])
      && (forall k :: k in r && r[k].monitorId == monitorId ==>
            LastIndex(flights, k).Some? && r[k].priceHistory == [r[k].price])
  {
    SeedEffect(WithoutMonitor(t, monitorId), monitorId, flights);
  }

  lemma ReplaceFlightsConsistent(t: FlightTable, monitorId: string, flights: seq<FlightSummary>)
    requires StoreConsistent(t)
    ensures StoreConsistent(ReplaceFlights(t, monitorId, flights))
  {
    ReplaceFlightsEffect(t, monitorId, flights);
  }

  /** The poll-tick rule for one result: a stored flight with its id takes the new price and has
      it appended to its history, whether or not the price changed; otherwise nothing. */
  function ApplyPrice(t: FlightTable, f: FlightSummary): FlightTable
  {
    if f.id in t then t[f.id := t[f.id].(price := f.price, priceHistory := t[f.id].priceHistory + [f.price])]
    else t
  }

  /** The rule applied to the results in order. */
  function TickStore(t: FlightTable, results: seq<FlightSummary>): FlightTable
  {
    if results == [] then t
    else ApplyPrice(TickStore(t, results[..|results| - 1]), results[|results| - 1])
  }

  /** The prices of the results with id `k`, in order. */
  function PricesFor(results: seq<FlightSummary>, k: string): (ps: seq<real>)
    ensures |ps| <= |results|
  {
    if results == [] then []
    else
      var last := results[|results| - 1];
      PricesFor(results[..|results| - 1], k) + (if last.id == k then [last.price] else [])
  }

  /** A row after receiving the prices `ps`: each is appended to the history and the last one
      becomes the price. */
  function Ticked(r: FlightRecord, ps: seq<real>): FlightRecord
  {
    if ps == [] then r else r.(price := ps[|ps| - 1], priceHistory := r.priceHistory + ps)
  }

  /** The effect of a tick: no row appears or disappears, and each row receives exactly the
      prices of the results with its key, in order, every other field unchanged. */
  lemma {:induction false} TickStoreEffect(t: FlightTable, results: seq<FlightSummary>)
    ensures TickStore(t, results).Keys == t.Keys
    ensures forall k :: k in t ==> TickStore(t, results)[k] == Ticked(t[k], PricesFor(results, k))
    decreases |results|
  {
    if results != [] {
      var n := |results| - 1;
      var last := results[n];
      TickStoreEffect(t, results[..n]);
      forall k | k in t
        ensures TickStore(t, results)[k] == Ticked(t[k], PricesFor(results, k))
      {
        var ps := PricesFor(results[..n], k);
        if last.id == k {
          assert PricesFor(results, k) == ps + [last.price];
        } else {
          assert PricesFor(results, k) == ps + [];
        }
      }
    }
  }

  /** Histories only grow: each row's old history is a prefix of its new one, and its last entry
      is still its price. A row whose key no result carries is unchanged. */
  lemma TickHistoryAppendOnly(t: FlightTable, results: seq<FlightSummary>)
    requires StoreConsistent(t)
    ensures TickStore(t, results).Keys == t.Keys
    ensures StoreConsistent(TickStore(t, results))
    ensures forall k :: k in t ==> t[k].priceHistory <= TickStore(t, results)[k].priceHistory
    ensures forall k :: k in t && (forall i :: 0 <= i < |results| ==> results[i].id != k) ==>
      TickStore(t, results)[k] == t[k]
  {
    TickStoreEffect(t, results);
    forall k | k in t && (forall i :: 0 <= i < |results| ==> results[i].id != k)
      ensures PricesFor(results, k) == []
    {
      PricesForAbsent(results, k);
    }
  }

  /** Ticks compose: running the rule over `a` and then over `b` is running it over `a + b`.
      With `TickStoreEffect`, a row's history after any number of ticks is its old history
      followed by every price its key received, in order. */
  lemma {:induction false} TickStoreAppend(t: FlightTable, a: seq<FlightSummary>, b: seq<FlightSummary>)
    ensures TickStore(TickStore(t, a), b) == TickStore(t, a + b)
    decreases |b|
  {
    if b == [] {
      assert a + b == a;
    } else {
      var n := |b| - 1;
      TickStoreAppend(t, a, b[..n]);
      assert (a + b)[..|a + b| - 1] == a + b[..n];
    }
  }

  lemma {:induction false} PricesForAbsent(results: seq<FlightSummary>, k: string)
    requires forall i :: 0 <= i < |results| ==> results[i].id != k
    ensures PricesFor(results, k) == []
    decreases |results|
  {
    if results != [] {
      PricesForAbsent(results[..|results| - 1], k);
    }
  }

  /** The rule applied to one more result. */
  lemma TickStep(t: FlightTable, results: seq<FlightSummary>, i: nat)
    requires i < |results|
    ensures TickStore(t, results[..i + 1]) == ApplyPrice(TickStore(t, results[..i]), results[i])
  {
    assert results[..i + 1][..i] == results[..i];
  }

  /** The rule for one result keeps the store consistent. */
  lemma ApplyPriceConsistent(t: FlightTable, f: FlightSummary)
    requires StoreConsistent(t)
    ensures StoreConsistent(ApplyPrice(t, f))
  {
  }

  /** A tick whose results carry no key of the table changes nothing. */
  lemma {:induction false} TickStoreMisses(t: FlightTable, results: seq<FlightSummary>)
    requires forall i :: 0 <= i < |results| ==> results[i].id !in t
    ensures TickStore(t, results) == t
    decreases |results|
  {
    if results != [] {
      TickStoreMisses(t, results[..|results| - 1]);
    }
  }

  /** `createMany` as written: the database gives each created row an id of its own,
      `rowIds[i]` for result `i`, and the offer id is kept only in `amadeusId`. */
  function SeedRows(t: FlightTable, monitorId: string, flights: seq<FlightSummary>, rowIds: seq<string>): (r: FlightTable)
    requires |rowIds| == |flights|
    ensures forall k :: k in r <==> k in t || k in rowIds
    decreases |flights|
  {
    if flights == [] then t
    else
      var n := |flights| - 1;
      assert rowIds == rowIds[..n] + [rowIds[n]];
      SeedRows(t, monitorId, flights[..n], rowIds[..n])[rowIds[n] := Seeded(monitorId, flights[n])]
  }

  /** As written, the tick's `findUnique` and `getFlightHistory` look a row up by its own id
      with an offer id. When no generated row id is an offer id of the results, a tick after the
      upsert finds no row: the table is left as it was and no result's history can be read. */
  lemma TickMissesGeneratedIds(t: FlightTable, monitorId: string, flights: seq<FlightSummary>,
                               rowIds: seq<string>, results: seq<FlightSummary>)
    requires |rowIds| == |flights|
    requires forall i :: 0 <= i < |results| ==> results[i].id !in t && results[i].id !in rowIds
    ensures var stored := SeedRows(WithoutMonitor(t, monitorId), monitorId, flights, rowIds);
      && TickStore(stored, results) == stored
      && forall i :: 0 <= i < |results| ==> results[i].id !in TickStore(stored, results)
  {
    var stored := SeedRows(WithoutMonitor(t, monitorId), monitorId, flights, rowIds);
    TickStoreMisses(stored, results);
  }

  /** How many results a tick applies before a store call throws at result `failsAt`. */
  function Applied(n: nat, failsAt: Option<nat>): (m: nat)
    ensures m <= n
  {
    if failsAt.Some? && failsAt.value < n then failsAt.value else n
  }

  /** Every registered handle was issued before `next`. */
  predicate HandlesBelow(monitors: map<string, Timer>, next: nat)
  {
    forall id :: id in monitors ==> monitors[id].handle < next
  }

  /** No two monitors share a timer handle. */
  predicate HandlesDistinct(monitors: map<string, Timer>)
  {
    forall a, b :: a in monitors && b in monitors && a != b ==> monitors[a].handle != monitors[b].handle
  }

  /** Registering a timer with the next fresh handle keeps the handles distinct. */
  lemma RegisterFresh(monitors: map<string, Timer>, next: nat, id: string, t: Timer)
    requires HandlesBelow(monitors, next) && HandlesDistinct(monitors) && t.handle == next
    ensures HandlesBelow(monitors[id := t], next + 1)
    ensures HandlesDistinct(monitors[id := t])
  {
  }

  /** `r` lists the summaries of the rows under the keys `done`, each key once. */
  predicate Lists(r: seq<FlightSummary>, t: FlightTable, done: set<string>)
  {
    && (forall i :: 0 <= i < |r| ==> r[i].id in done && r[i].id in t && r[i] == SummaryOf(t[r[i].id]))
    && (forall k :: k in done ==> exists i :: 0 <= i < |r| && r[i].id == k)
    && (forall i, j :: 0 <= i < j < |r| ==> r[i].id != r[j].id)
  }

  /** Appending the summary of a row not yet listed lists one key more. */
  lemma ListsAppend(r: seq<FlightSummary>, t: FlightTable, done: set<string>, k: string)
    requires StoreConsistent(t) && Lists(r, t, done) && k in t && k !in done
    ensures Lists(r + [SummaryOf(t[k])], t, done + {k})
  {
    var r' := r + [SummaryOf(t[k])];
    forall k' | k' in done + {k}
      ensures exists i :: 0 <= i < |r'| && r'[i].id == k'
    {
      if k' == k {
        assert r'[|r|].id == k;
      } else {
        var i :| 0 <= i < |r| && r[i].id == k';
        assert r'[i] == r[i];
      }
    }
  }

  class FlightMonitor {
    /** `monitors`: the running interval timer of each monitor id. */
    var monitors: map<string, Timer>
    var nextHandle: nat
    var monitorTable: map<string, MonitorRecord>
    var flightTable: FlightTable

    /** Only persisted monitors run, timer handles are distinct, and the flight table is
        consistent. */
    ghost predicate Valid()
      reads this
    {
      && (forall id :: id in monitors ==> id in monitorTable)
      && HandlesBelow(monitors, nextHandle)
      && HandlesDistinct(monitors)
      && StoreConsistent(flightTable)
    }

    constructor()
      ensures Valid()
      ensures monitors == map[] && monitorTable == map[] && flightTable == map[]
    {
      monitors := map[];
      nextHandle := 0;
      monitorTable := map[];
      flightTable := map[];
    }

    /** `stopMonitoring`: clears and forgets the monitor's timer; a no-op for an id without one,
        so stopping twice is stopping once. */
    method StopMonitoring(id: string)
      requires Valid()
      modifies this
      ensures Valid()
      ensures monitors == old(monitors) - {id}
      ensures id !in old(monitors) ==> monitors == old(monitors)
      ensures nextHandle == old(nextHandle) && monitorTable == old(monitorTable) && flightTable == old(flightTable)
    {
      if id in monitors {
        monitors := monitors - {id};
      }
    }

    /** `startMonitoring`: stops the id's timer, searches, upserts the monitor and replaces its
        flights, and registers a new timer only after that. A search that throws (an invalid date)
        or a failed upsert (`upsertFails`) is rethrown with no timer left for the id and the
        store unchanged. */
    method StartMonitoring(creds: Credentials, details: SearchForm, id: string, api: Api, upsertFails: bool)
      returns (err: Option<string>)
      requires Valid()
      modifies this
      ensures Valid()
      ensures err.None? <==> SearchResult(creds, details, api).Success? && !upsertFails
      ensures SearchResult(creds, details, api).Failure? ==> err == Some(SearchResult(creds, details, api).error)
      ensures err.Some? ==>
        && monitors == old(monitors) - {id}
        && monitorTable == old(monitorTable) && flightTable == old(flightTable)
      ensures err.None? ==>
        && monitors == (old(monitors) - {id})[id := Timer(old(nextHandle), creds, details)]
        && monitorTable == old(monitorTable)[id := MonitorRecord(creds, details)]
        && flightTable == ReplaceFlights(old(flightTable), id, SearchResult(creds, details, api).value)
    {
      StopMonitoring(id);
      var flights, _ := SearchFlights(creds, details, api);
      if flights.Failure? {
        return Some(flights.error);
      }
      if upsertFails {
        return Some("upsert failed");
      }
      Persist(creds, details, id, flights.value);
      return None;
    }

    /** The successful end of `startMonitoring`: upserts the monitor row, replaces its flight
        rows with the fresh results and registers its timer under the next handle. */
    method Persist(creds: Credentials, details: SearchForm, id: string, flights: seq<FlightSummary>)
      requires Valid() && id !in monitors
      modifies this
      ensures Valid()
      ensures monitors == old(monitors)[id := Timer(old(nextHandle), creds, details)]
      ensures nextHandle == old(nextHandle) + 1
      ensures monitorTable == old(monitorTable)[id := MonitorRecord(creds, details)]
      ensures flightTable == ReplaceFlights(old(flightTable), id, flights)
    {
      monitorTable := monitorTable[id := MonitorRecord(creds, details)];
      ReplaceFlightsConsistent(flightTable, id, flights);
      flightTable := ReplaceFlights(flightTable, id, flights);
      RegisterFresh(monitors, nextHandle, id, Timer(nextHandle, creds, details));
      monitors := monitors[id := Timer(nextHandle, creds, details)];
      nextHandle := nextHandle + 1;
    }

    /** One run of the interval callback of monitor `id`: searches again with the arguments the
        timer captured and applies the tick rule to the results in order. A throwing search, or a
        store call throwing at result `storeFailsAt`, ends the tick, the error being logged. Only
        the flight table changes. */
    method PollTick(id: string, api: Api, storeFailsAt: Option<nat>)
      requires Valid()
      modifies this
      ensures Valid()
      ensures monitors == old(monitors) && nextHandle == old(nextHandle) && monitorTable == old(monitorTable)
      ensures id !in old(monitors) ==> flightTable == old(flightTable)
      ensures id in old(monitors) ==>
        var timer := old(monitors)[id];
        var search := SearchResult(timer.credentials, timer.details, api);
        flightTable == if search.Failure? then old(flightTable)
                       else TickStore(old(flightTable), search.value[..Applied(|search.value|, storeFailsAt)])
    {
      if id !in monitors {
        return;
      }
      var timer := monitors[id];
      var search, _ := SearchFlights(timer.credentials, timer.details, api);
      if search.Failure? {
        return;
      }
      ApplyResults(search.value, storeFailsAt);
    }

    /** The loop of the tick: the rule applied to each result in order until a store call throws
        at result `storeFailsAt`. */
    method ApplyResults(results: seq<FlightSummary>, storeFailsAt: Option<nat>)
      requires StoreConsistent(flightTable)
      modifies this
      ensures StoreConsistent(flightTable)
      ensures flightTable == TickStore(old(flightTable), results[..Applied(|results|, storeFailsAt)])
      ensures monitors == old(monitors) && nextHandle == old(nextHandle) && monitorTable == old(monitorTable)
    {
      var i := 0;
      while i < |results|
        invariant 0 <= i <= Applied(|results|, storeFailsAt)
        invariant flightTable == TickStore(old(flightTable), results[..i])
        invariant StoreConsistent(flightTable)
        invariant monitors == old(monitors) && nextHandle == old(nextHandle) && monitorTable == old(monitorTable)
      {
        if storeFailsAt == Some(i) {
          break;
        }
        var flight := results[i];
        ghost var before := flightTable;
        RecordPrice(flight);
        ApplyPriceConsistent(before, flight);
        TickStep(old(flightTable), results, i);
        i := i + 1;
      }
    }

    /** One pass of the tick's loop body: a stored flight with the result's id takes the new
        price, appended to its history; an unknown id changes nothing. */
    method RecordPrice(flight: FlightSummary)
      modifies this
      ensures flightTable == ApplyPrice(old(flightTable), flight)
      ensures flight.id in old(flightTable) ==>
        flightTable[flight.id].priceHistory == old(flightTable)[flight.id].priceHistory + [flight.price]
      ensures monitors == old(monitors) && nextHandle == old(nextHandle) && monitorTable == old(monitorTable)
    {
      if flight.id in flightTable {
        var existing := flightTable[flight.id];
        flightTable := flightTable[flight.id := existing.(price := flight.price,
                                                          priceHistory := existing.priceHistory + [flight.price])];
      }
    }

    /** `getFlights`: the summaries of the monitor's rows, one per row, in no particular order. */
    method GetFlights(monitorId: string) returns (r: seq<FlightSummary>)
      requires Valid()
      ensures forall i :: 0 <= i < |r| ==>
        r[i].id in flightTable && flightTable[r[i].id].monitorId == monitorId && r[i] == SummaryOf(flightTable[r[i].id])
      ensures forall k :: k in flightTable && flightTable[k].monitorId == monitorId ==> exists i :: 0 <= i < |r| && r[i].id == k
      ensures forall i, j :: 0 <= i < j < |r| ==> r[i].id != r[j].id
    {
      var all := set k | k in flightTable && flightTable[k].monitorId == monitorId;
      var keys := all;
      r := [];
      while keys != {}
        invariant keys <= all
        invariant Lists(r, flightTable, all - keys)
        decreases |keys|
      {
        var k :| k in keys;
        ListsAppend(r, flightTable, all - keys, k);
        r := r + [SummaryOf(flightTable[k])];
        assert all - (keys - {k}) == (all - keys) + {k};
        keys := keys - {k};
      }
      assert all - keys == all;
      assert forall k :: k in all <==> k in flightTable && flightTable[k].monitorId == monitorId;
    }

    /** `getFlightHistory`: the stored history of the flight, or [] for an unknown one. */
    method GetFlightHistory(flightId: string) returns (h: seq<real>)
      requires Valid()
      ensures flightId in flightTable ==> h == flightTable[flightId].priceHistory && |h| > 0
      ensures flightId !in flightTable ==> h == []
    {
      if flightId !in flightTable {
        return [];
      }
      return flightTable[flightId].priceHistory;
    }
  }
}
