/** The recent-clients aggregate: sales grouped by the person who made
    them, with the last purchase day, the number of purchases and the amount
    spent, for the persons the lookup map knows. */
module ClientProjection {
  import opened Wrappers
  import opened Sorting
  import opened Money
  import opened MovementProjection
  import PersonProjection

  /** `ClientRecentProjection`; `lastPurchase` is a UTC day number. */
  datatype ClientRecentProjection = ClientRecentProjection(
    id: string,
    displayName: string,
    clientType: string,
    lastPurchase: int,
    purchaseCount: nat,
    totalSpent: real)

  /** A `clientStats` record; `lastPurchase` is an instant. */
  datatype Stats = Stats(lastPurchase: int, purchaseCount: nat, totalSpent: real)

  /** The record a client starts from: `new Date(0)`, no purchase, nothing
      spent. */
  const NoStats := Stats(0, 0, 0.0)

  /** `movement.personId && movement.type === 'SALE'`: the movements that
      count. */
  predicate IsSale(m: Movement) {
    m.personId != "" && m.movementType == Some("SALE")
  }

  /** The `clientStats` map: its keys in insertion order (the order its
      `forEach` visits them) and the record per key. */
  datatype ClientStats = ClientStats(order: seq<string>, stats: map<string, Stats>)

  /** One turn of the first `forEach`. */
  function AddSale(c: ClientStats, m: Movement): ClientStats {
    if !IsSale(m) then c
    else
      var st := if m.personId in c.stats then c.stats[m.personId] else NoStats;
      var last := if m.movementDate > st.lastPurchase then m.movementDate else st.lastPurchase;
      ClientStats(if m.personId in c.stats then c.order else c.order + [m.personId],
                  c.stats[m.personId := Stats(last, st.purchaseCount + 1, st.totalSpent + m.totalAmount)])
  }

  /** `clientStats` after the first `forEach` has seen all of `ms`. */
  function CollectStats(ms: seq<Movement>): ClientStats
    decreases |ms|
  {
    if ms == [] then ClientStats([], map[])
    else AddSale(CollectStats(ms[..|ms| - 1]), ms[|ms| - 1])
  }

  /** The row pushed for a known person. */
  function ToClientProjection(personId: string, person: PersonProjection.Person, st: Stats): ClientRecentProjection {
    ClientRecentProjection(
      personId,
      PersonProjection.DisplayName(person.name, person.lastName),
      if person.personType == "" then "CLIENT" else person.personType,
      DayOf(st.lastPurchase),
      st.purchaseCount,
      RoundCents(st.totalSpent))
  }

  /** `projections` after the second `forEach` has visited `order`: one
      row per visited id the lookup map knows. */
  function BuildProjections(persons: map<string, PersonProjection.Person>, order: seq<string>, stats: map<string, Stats>): seq<ClientRecentProjection>
    requires forall p :: p in order ==> p in stats
    decreases |order|
  {
    if order == [] then []
    else
      var rest := BuildProjections(persons, order[..|order| - 1], stats);
      var personId := order[|order| - 1];
      if personId in persons then rest + [ToClientProjection(personId, persons[personId], stats[personId])] else rest
  }

  /** What `aggregateClientPurchases(persons, ms)` returns. */
  function ClientPurchases(persons: map<string, PersonProjection.Person>, ms: seq<Movement>): seq<ClientRecentProjection>
  {
    CollectStatsShape(ms);
    var c := CollectStats(ms);
    BuildProjections(persons, c.order, c.stats)
  }

  /** `aggregateClientPurchases`. */
  method AggregateClientPurchases(persons: map<string, PersonProjection.Person>, movements: seq<Movement>)
    returns (projections: seq<ClientRecentProjection>)
    ensures projections == ClientPurchases(persons, movements)
  {
    var order, clientStats := CollectClientStats(movements);
    CollectStatsShape(movements);
    projections := BuildClientRows(persons, order, clientStats);
  }

  /** The first `forEach` of `aggregateClientPurchases`: one record per
      buyer, keyed by person id, in first-sale order. */
  method CollectClientStats(movements: seq<Movement>) returns (order: seq<string>, clientStats: map<string, Stats>)
    ensures ClientStats(order, clientStats) == CollectStats(movements)
  {
    order, clientStats := [], map[];
    var i := 0;
    while i < |movements|
      invariant 0 <= i <= |movements|
      invariant ClientStats(order, clientStats) == CollectStats(movements[..i])
    {
      var movement := movements[i];
      if movement.personId != "" && movement.movementType == Some("SALE") {
        var stats := if movement.personId in clientStats then clientStats[movement.personId] else NoStats;
        if movement.movementDate > stats.lastPurchase {
          stats := stats.(lastPurchase := movement.movementDate);
        }
        stats := stats.(purchaseCount := stats.purchaseCount + 1);
        stats := stats.(totalSpent := stats.totalSpent + movement.totalAmount);
        if movement.personId !in clientStats {
          order := order + [movement.personId];
        }
        clientStats := clientStats[movement.personId := stats];
      }
      assert movements[..i + 1] == movements[..i] + [movement];
      i := i + 1;
    }
    assert movements[..i] == movements;
  }

  /** The second `forEach` of `aggregateClientPurchases`: a row for every
      visited id the lookup map knows. */
  method BuildClientRows(persons: map<string, PersonProjection.Person>, order: seq<string>, clientStats: map<string, Stats>)
    returns (projections: seq<ClientRecentProjection>)
    requires forall p :: p in order ==> p in clientStats
    ensures projections == BuildProjections(persons, order, clientStats)
  {
    projections := [];
    var j := 0;
    while j < |order|
      invariant 0 <= j <= |order|
      invariant projections == BuildProjections(persons, order[..j], clientStats)
    {
      var personId := order[j];
      if personId in persons {
        var person := persons[personId];
        projections := projections + [ToClientProjection(personId, person, clientStats[personId])];
      }
      assert order[..j + 1][..j] == order[..j];
      j := j + 1;
    }
    assert order[..j] == order;
  }

  // ------------------------------------------- reference definitions

  /** The ids of everyone with at least one sale in `ms`. */
  ghost function Buyers(ms: seq<Movement>): set<string> {
    set i | 0 <= i < |ms| && IsSale(ms[i]) :: ms[i].personId
  }

  predicate IsSaleOf(m: Movement, personId: string) {
    IsSale(m) && m.personId == personId
  }

  /** The number of sales of `personId`. */
  function SaleCount(ms: seq<Movement>, personId: string): nat
    decreases |ms|
  {
    if ms == [] then 0
    else SaleCount(ms[..|ms| - 1], personId) + (if IsSaleOf(ms[|ms| - 1], personId) then 1 else 0)
  }

  /** The amount of the sales of `personId`. */
  function SaleTotal(ms: seq<Movement>, personId: string): real
    decreases |ms|
  {
    if ms == [] then 0.0
    else SaleTotal(ms[..|ms| - 1], personId) + (if IsSaleOf(ms[|ms| - 1], personId) then ms[|ms| - 1].totalAmount else 0.0)
  }

  /** The dates of the sales of `personId`. */
  ghost function SaleDates(ms: seq<Movement>, personId: string): set<int> {
    set i | 0 <= i < |ms| && IsSaleOf(ms[i], personId) :: ms[i].movementDate
  }

  /** The latest of the epoch and the dates of the sales of `personId`. */
  ghost function LatestSale(ms: seq<Movement>, personId: string): (t: int)
    ensures t >= 0
    ensures forall d :: d in SaleDates(ms, personId) ==> d <= t
    ensures t == 0 || t in SaleDates(ms, personId)
    decreases |ms|
  {
    if ms == [] then 0
    else
      var pre, m := ms[..|ms| - 1], ms[|ms| - 1];
      var t := LatestSale(pre, personId);
      assert ms == pre + [m];
      SaleDatesSnoc(pre, m, personId);
      if IsSaleOf(m, personId) && m.movementDate > t then m.movementDate else t
  }

  // ------------------------------------------------------------ lemmas

  lemma SaleDatesSnoc(ms: seq<Movement>, m: Movement, personId: string)
    ensures SaleDates(ms + [m], personId)
      == SaleDates(ms, personId) + (if IsSaleOf(m, personId) then {m.movementDate} else {})
  {
    var s := ms + [m];
    forall d | d in SaleDates(ms, personId) ensures d in SaleDates(s, personId) {
      var i :| 0 <= i < |ms| && IsSaleOf(ms[i], personId) && ms[i].movementDate == d;
      assert s[i] == ms[i];
    }
    forall d | d in SaleDates(s, personId) ensures d in SaleDates(ms, personId) || (IsSaleOf(m, personId) && d == m.movementDate) {
      var i :| 0 <= i < |s| && IsSaleOf(s[i], personId) && s[i].movementDate == d;
      if i < |ms| {
        assert s[i] == ms[i];
      }
    }
    if IsSaleOf(m, personId) {
      assert s[|ms|] == m;
    }
  }

  ghost predicate WellFormed(c: ClientStats) {
    && (forall p :: p in c.order <==> p in c.stats)
    && (forall i, j :: 0 <= i < j < |c.order| ==> c.order[i] != c.order[j])
  }

  lemma BuyersSnoc(ms: seq<Movement>, m: Movement)
    ensures Buyers(ms + [m]) == Buyers(ms) + (if IsSale(m) then {m.personId} else {})
  {
    var s := ms + [m];
    forall p | p in Buyers(ms) ensures p in Buyers(s) {
      var i :| 0 <= i < |ms| && IsSale(ms[i]) && ms[i].personId == p;
      assert s[i] == ms[i];
    }
    forall p | p in Buyers(s) ensures p in Buyers(ms) || (IsSale(m) && p == m.personId) {
      var i :| 0 <= i < |s| && IsSale(s[i]) && s[i].personId == p;
      if i < |ms| {
        assert s[i] == ms[i];
      }
    }
    if IsSale(m) {
      assert s[|ms|] == m;
    }
  }

  /** One turn of the first `forEach`, summarised. */
  lemma AddSaleEffect(c: ClientStats, m: Movement)
    requires WellFormed(c)
    ensures var c' := AddSale(c, m);
      && WellFormed(c')
      && c'.stats.Keys == c.stats.Keys + (if IsSale(m) then {m.personId} else {})
      && (forall p :: p in c.stats && !IsSaleOf(m, p) ==> c'.stats[p] == c.stats[p])
  {
    var c' := AddSale(c, m);
    if IsSale(m) && m.personId !in c.stats {
      assert m.personId !in c.order;
      forall i, j | 0 <= i < j < |c'.order| ensures c'.order[i] != c'.order[j] {
        if j < |c.order| {
          assert c'.order[i] == c.order[i] && c'.order[j] == c.order[j];
        } else {
          assert c'.order[i] == c.order[i];
        }
      }
    }
  }

  /** `clientStats` holds one record per buyer, each key once. */
  lemma {:induction false} CollectStatsShape(ms: seq<Movement>)
    ensures WellFormed(CollectStats(ms))
    ensures CollectStats(ms).stats.Keys == Buyers(ms)
    decreases |ms|
  {
    if ms != [] {
      var n := |ms| - 1;
      var pre, m := ms[..n], ms[n];
      assert ms == pre + [m];
      assert CollectStats(ms) == AddSale(CollectStats(pre), m);
      CollectStatsShape(pre);
      BuyersSnoc(pre, m);
      AddSaleEffect(CollectStats(pre), m);
    }
  }

  /** Someone with no sale has no count, no amount and no date. */
  lemma {:induction false} NoSalesOf(ms: seq<Movement>, personId: string)
    requires personId !in Buyers(ms)
    ensures SaleCount(ms, personId) == 0 && SaleTotal(ms, personId) == 0.0
    ensures LatestSale(ms, personId) == 0
    decreases |ms|
  {
    if ms != [] {
      var n := |ms| - 1;
      var pre, m := ms[..n], ms[n];
      assert ms == pre + [m];
      BuyersSnoc(pre, m);
      NoSalesOf(pre, personId);
    }
  }

  /** Every buyer's record holds the latest of the epoch and their sale
      dates, the number of their sales and the amount of their sales. */
  lemma {:induction false} CollectStatsValues(ms: seq<Movement>)
    ensures var c := CollectStats(ms);
      forall p :: p in Buyers(ms) ==>
        p in c.stats && c.stats[p] == Stats(LatestSale(ms, p), SaleCount(ms, p), SaleTotal(ms, p))
    decreases |ms|
  {
    CollectStatsShape(ms);
    if ms != [] {
      var n := |ms| - 1;
      var pre, m := ms[..n], ms[n];
      assert ms == pre + [m];
      var c := CollectStats(pre);
      assert CollectStats(ms) == AddSale(c, m);
      CollectStatsShape(pre);
      CollectStatsValues(pre);
      BuyersSnoc(pre, m);
      forall p | p in Buyers(ms)
        ensures var c' := AddSale(c, m);
          p in c'.stats && c'.stats[p] == Stats(LatestSale(ms, p), SaleCount(ms, p), SaleTotal(ms, p))
      {
        AddSaleValue(pre, m, p, c);
      }
    }
  }

  /** The step of `CollectStatsValues` for one buyer. */
  lemma AddSaleValue(pre: seq<Movement>, m: Movement, p: string, c: ClientStats)
    requires WellFormed(c) && c.stats.Keys == Buyers(pre)
    requires p in Buyers(pre) ==>
      c.stats[p] == Stats(LatestSale(pre, p), SaleCount(pre, p), SaleTotal(pre, p))
    requires p in Buyers(pre + [m])
    ensures var c', ms := AddSale(c, m), pre + [m];
      p in c'.stats && c'.stats[p] == Stats(LatestSale(ms, p), SaleCount(ms, p), SaleTotal(ms, p))
  {
    var ms := pre + [m];
    assert ms[..|ms| - 1] == pre && ms[|ms| - 1] == m;
    BuyersSnoc(pre, m);
    AddSaleEffect(c, m);
    if p !in Buyers(pre) {
      NoSalesOf(pre, p);
    }
  }

  /** A buyer has at least one sale. */
  lemma {:induction false} BuyerHasSale(ms: seq<Movement>, personId: string)
    requires personId in Buyers(ms)
    ensures SaleCount(ms, personId) >= 1
    decreases |ms|
  {
    var n := |ms| - 1;
    var pre, m := ms[..n], ms[n];
    assert ms == pre + [m];
    BuyersSnoc(pre, m);
    if !IsSaleOf(m, personId) {
      BuyerHasSale(pre, personId);
    }
  }

  /** The ids of the rows. */
  ghost function Ids(rows: seq<ClientRecentProjection>): set<string> {
    set i | 0 <= i < |rows| :: rows[i].id
  }

  /** The second `forEach` emits, in visiting order, one row per visited
      id the lookup map knows, built from that id's record. */
  lemma {:induction false} BuildProjectionsRows(persons: map<string, PersonProjection.Person>, order: seq<string>, stats: map<string, Stats>)
    requires forall p :: p in order ==> p in stats
    requires forall i, j :: 0 <= i < j < |order| ==> order[i] != order[j]
    ensures RowsOf(persons, order, stats, BuildProjections(persons, order, stats))
    decreases |order|
  {
    if order != [] {
      var n := |order| - 1;
      var pre, p := order[..n], order[n];
      assert order == pre + [p];
      var rest := BuildProjections(persons, pre, stats);
      assert p !in pre;
      BuildProjectionsRows(persons, pre, stats);
      BeforeSnoc(pre, p);
      if p in persons {
        RowsOfAppend(persons, pre, p, stats, rest);
      }
    }
  }

  /** `x` comes before `y` in `order`. */
  ghost predicate Before(order: seq<string>, x: string, y: string) {
    exists a, b :: 0 <= a < b < |order| && order[a] == x && order[b] == y
  }

  /** Appending to `order` keeps what came before, and puts every earlier
      id before the new one. */
  lemma BeforeSnoc(pre: seq<string>, p: string)
    ensures forall x, y :: Before(pre, x, y) ==> Before(pre + [p], x, y)
    ensures forall x :: x in pre ==> Before(pre + [p], x, p)
  {
    var s := pre + [p];
    forall x, y | Before(pre, x, y) ensures Before(s, x, y) {
      var a, b :| 0 <= a < b < |pre| && pre[a] == x && pre[b] == y;
      assert s[a] == x && s[b] == y;
    }
    forall x | x in pre ensures Before(s, x, p) {
      var a :| 0 <= a < |pre| && pre[a] == x;
      assert s[a] == x && s[|pre|] == p;
    }
  }

  /** `rows` holds, in visiting order, one row per id of `order` that
      `persons` knows, each id once, each row built from its record. */
  ghost predicate RowsOf(persons: map<string, PersonProjection.Person>, order: seq<string>, stats: map<string, Stats>, rows: seq<ClientRecentProjection>) {
    && (forall q :: q in Ids(rows) <==> q in order && q in persons)
    && (forall i, j :: 0 <= i < j < |rows| ==> rows[i].id != rows[j].id)
    && (forall i, j :: 0 <= i < j < |rows| ==> Before(order, rows[i].id, rows[j].id))
    && (forall i :: 0 <= i < |rows| ==>
          rows[i].id in persons && rows[i].id in stats
          && rows[i] == ToClientProjection(rows[i].id, persons[rows[i].id], stats[rows[i].id]))
  }

  /** The step of `BuildProjectionsRows` for a known id. */
  lemma RowsOfAppend(persons: map<string, PersonProjection.Person>, pre: seq<string>, p: string, stats: map<string, Stats>, rows: seq<ClientRecentProjection>)
    requires RowsOf(persons, pre, stats, rows)
    requires p !in pre && p in persons && p in stats
    ensures RowsOf(persons, pre + [p], stats, rows + [ToClientProjection(p, persons[p], stats[p])])
  {
    var row := ToClientProjection(p, persons[p], stats[p]);
    AppendRow(rows, row);
    AppendRowInOrder(pre, rows, row);
  }

  /** Appending the row of the next visited id keeps the rows in visiting
      order. */
  lemma AppendRowInOrder(pre: seq<string>, rows: seq<ClientRecentProjection>, row: ClientRecentProjection)
    requires forall i :: 0 <= i < |rows| ==> rows[i].id in pre
    requires forall i, j :: 0 <= i < j < |rows| ==> Before(pre, rows[i].id, rows[j].id)
    ensures var s := rows + [row];
      forall i, j :: 0 <= i < j < |s| ==> Before(pre + [row.id], s[i].id, s[j].id)
  {
    BeforeSnoc(pre, row.id);
    var s := rows + [row];
    forall i, j | 0 <= i < j < |s| ensures Before(pre + [row.id], s[i].id, s[j].id) {
      assert s[i] == rows[i];
      if j < |rows| {
        assert s[j] == rows[j];
      }
    }
  }

  /** Appending a row with a new id keeps the ids distinct and adds it to
      them. */
  lemma AppendRow(rows: seq<ClientRecentProjection>, row: ClientRecentProjection)
    requires row.id !in Ids(rows)
    ensures Ids(rows + [row]) == Ids(rows) + {row.id}
    ensures (forall i, j :: 0 <= i < j < |rows| ==> rows[i].id != rows[j].id) ==>
      (forall i, j :: 0 <= i < j < |rows + [row]| ==> (rows + [row])[i].id != (rows + [row])[j].id)
  {
    var s := rows + [row];
    forall i | 0 <= i < |rows| ensures s[i] == rows[i] && s[i].id in Ids(rows) {
    }
    assert s[|rows|] == row;
    forall q | q in Ids(s) ensures q in Ids(rows) + {row.id} {
      var i :| 0 <= i < |s| && s[i].id == q;
    }
  }

  /** What `aggregateClientPurchases` returns: exactly one row per person
      who made a sale and whom the lookup map knows; the row carries that
      person's trimmed name, their type or "CLIENT", the day of their latest
      sale (or of the epoch), the number of their sales (at least one) and
      the amount of their sales rounded to cents. */
  lemma ClientPurchasesRows(persons: map<string, PersonProjection.Person>, ms: seq<Movement>)
    ensures var rows := ClientPurchases(persons, ms);
      && Ids(rows) == Buyers(ms) * persons.Keys
      && (forall i, j :: 0 <= i < j < |rows| ==> rows[i].id != rows[j].id)
      && forall i :: 0 <= i < |rows| ==>
        var p := rows[i].id;
        && p in persons
        && rows[i].displayName == PersonProjection.DisplayName(persons[p].name, persons[p].lastName)
        && rows[i].clientType == (if persons[p].personType == "" then "CLIENT" else persons[p].personType)
        && rows[i].lastPurchase == DayOf(LatestSale(ms, p))
        && rows[i].purchaseCount == SaleCount(ms, p) >= 1
        && rows[i].totalSpent == RoundCents(SaleTotal(ms, p))
  {
    CollectStatsShape(ms);
    CollectStatsValues(ms);
    var c := CollectStats(ms);
    BuildProjectionsRows(persons, c.order, c.stats);
    var rows := ClientPurchases(persons, ms);
    forall i | 0 <= i < |rows| ensures SaleCount(ms, rows[i].id) >= 1 {
      BuyerHasSale(ms, rows[i].id);
    }
  }

  // ----------------------------------------------------------- sorting

  /** `b.lastPurchase.localeCompare(a.lastPurchase)`: most recent first. */
  predicate ByRecent(a: ClientRecentProjection, b: ClientRecentProjection) {
    a.lastPurchase >= b.lastPurchase
  }

  lemma ByRecentIsTotalPreorder()
    ensures TotalPreorder(ByRecent)
  {
  }

  /** `sortClientsByRecent`: sorts the array in place and returns it. */
  method SortClientsByRecent(clients: array<ClientRecentProjection>) returns (r: array<ClientRecentProjection>)
    modifies clients
    ensures r == clients
    ensures r[..] == SortBy(old(clients[..]), ByRecent)
  {
    SortInPlace(clients, ByRecent);
    r := clients;
  }

  /** The sorted clients are a permutation of the input, most recent
      purchase first, and clients with the same day keep their order. */
  lemma SortedClients(clients: seq<ClientRecentProjection>, x: ClientRecentProjection)
    ensures var r := SortBy(clients, ByRecent);
      && multiset(r) == multiset(clients)
      && (forall i, j :: 0 <= i < j < |r| ==> r[i].lastPurchase >= r[j].lastPurchase)
      && Peers(r, ByRecent, x) == Peers(clients, ByRecent, x)
  {
    ByRecentIsTotalPreorder();
    SortBySorted(clients, ByRecent);
    SortByStable(clients, ByRecent, x);
  }
}
