/** The movements aggregate: movements grouped by calendar day and type,
    with item counts and amounts summed, most recent day first; and the
    30-day filter that feeds it. */
module MovementProjection {
  import opened Wrappers
  import opened Sorting

  /** Milliseconds in a day; instants are milliseconds since the epoch. */
  const MS_PER_DAY: int := 24 * 60 * 60 * 1000

  datatype MovementItem = MovementItem(
    collection: string,
    collectionId: string,
    customName: Option<string>,
    cost: real,
    quantity: real)

  /** The fields of `Movement` the projections read.  `movementType` is
      `None` for a null type; `movementDate` is an instant. */
  datatype Movement = Movement(
    id: string,
    movementType: Option<string>,
    personId: string,
    movementDate: int,
    totalAmount: real,
    items: seq<MovementItem>)

  /** `MovementAggregatedProjection`; `date` is a UTC day number. */
  datatype MovementAggregatedProjection = MovementAggregatedProjection(
    date: int,
    movementType: string,
    qty: nat,
    total: real)

  /** `new Date(t).toISOString().split('T')[0]`, as a day number: the UTC
      calendar day holding instant `t` (floor division). */
  function DayOf(t: int): int {
    t / MS_PER_DAY
  }

  /** The key `` `${date}-${movement.type}` ``: a null type contributes the
      text "null". */
  datatype GroupKey = GroupKey(date: int, typeKey: string)

  function TypeKey(t: Option<string>): string {
    match t
    case None => "null"
    case Some(name) => name
  }

  function KeyOf(m: Movement): GroupKey {
    GroupKey(DayOf(m.movementDate), TypeKey(m.movementType))
  }

  /** `movement.type || 'unknown'`. */
  function DisplayType(t: Option<string>): string {
    if t == None || t == Some("") then "unknown" else t.value
  }

  /** A null type and the literal type "unknown" are both shown as
      "unknown" but are never grouped together. */
  lemma NullTypeKeptApartFromUnknown(a: Movement, b: Movement)
    requires a.movementType == None && b.movementType == Some("unknown")
    ensures DisplayType(a.movementType) == DisplayType(b.movementType) == "unknown"
    ensures KeyOf(a) != KeyOf(b)
  {
  }

  // ------------------------------------------------------- the fold

  /** The `aggregated` map: its keys in insertion order (the order
      `Array.from(aggregated.values())` yields) and the row per key. */
  datatype Groups = Groups(order: seq<GroupKey>, rows: map<GroupKey, MovementAggregatedProjection>)

  /** One turn of the `forEach`: create the row if the key is new, then
      add the movement's item count and amount to it. */
  function AddMovement(g: Groups, m: Movement): Groups {
    var key := KeyOf(m);
    var g1 := if key in g.rows then g
              else Groups(g.order + [key],
                          g.rows[key := MovementAggregatedProjection(key.date, DisplayType(m.movementType), 0, 0.0)]);
    var agg := g1.rows[key];
    Groups(g1.order, g1.rows[key := agg.(qty := agg.qty + |m.items|, total := agg.total + m.totalAmount)])
  }

  /** The groups after the `forEach` has seen all of `ms`. */
  function Accumulate(ms: seq<Movement>): Groups
    decreases |ms|
  {
    if ms == [] then Groups([], map[])
    else AddMovement(Accumulate(ms[..|ms| - 1]), ms[|ms| - 1])
  }

  ghost predicate WellFormed(g: Groups) {
    && (forall k :: k in g.order <==> k in g.rows)
    && (forall i, j :: 0 <= i < j < |g.order| ==> g.order[i] != g.order[j])
  }

  /** The rows in insertion order. */
  function RowsInOrder(g: Groups): seq<MovementAggregatedProjection>
    requires forall k :: k in g.order ==> k in g.rows
  {
    seq(|g.order|, i requires 0 <= i < |g.order| => g.rows[g.order[i]])
  }

  /** `b.date.localeCompare(a.date)`, most recent day first. */
  predicate ByDateDesc(a: MovementAggregatedProjection, b: MovementAggregatedProjection) {
    a.date >= b.date
  }

  lemma ByDateDescIsTotalPreorder()
    ensures TotalPreorder(ByDateDesc)
  {
  }

  /** `Array.from(aggregated.values())` after the whole fold. */
  function Unsorted(ms: seq<Movement>): seq<MovementAggregatedProjection>
  {
    AccumulateShape(ms);
    RowsInOrder(Accumulate(ms))
  }

  /** The keys in the order `aggregated` holds them. */
  function KeyOrder(ms: seq<Movement>): (order: seq<GroupKey>)
    ensures forall k :: k in order ==> k in KeysOf(ms)
  {
    AccumulateShape(ms);
    Accumulate(ms).order
  }

  /** What `aggregateMovements(ms)` returns. */
  function Aggregate(ms: seq<Movement>): seq<MovementAggregatedProjection>
  {
    SortBy(Unsorted(ms), ByDateDesc)
  }

  /** `aggregateMovements`. */
  method AggregateMovements(movements: seq<Movement>) returns (rows: seq<MovementAggregatedProjection>)
    ensures rows == Aggregate(movements)
  {
    var order, aggregated := GroupMovements(movements);
    AccumulateShape(movements);
    var values := seq(|order|, j requires 0 <= j < |order| => aggregated[order[j]]);
    assert values == Unsorted(movements);
    var sorted := new MovementAggregatedProjection[|values|](j requires 0 <= j < |values| => values[j]);
    assert sorted[..] == values;
    SortInPlace(sorted, ByDateDesc);
    rows := sorted[..];
  }

  /** The `forEach` of `aggregateMovements`: the `aggregated` map, in
      insertion order, after every movement has been added to its group. */
  method GroupMovements(movements: seq<Movement>)
    returns (order: seq<GroupKey>, aggregated: map<GroupKey, MovementAggregatedProjection>)
    ensures Groups(order, aggregated) == Accumulate(movements)
  {
    order, aggregated := [], map[];
    var i := 0;
    while i < |movements|
      invariant 0 <= i <= |movements|
      invariant Groups(order, aggregated) == Accumulate(movements[..i])
    {
      var movement := movements[i];
      assert movements[..i + 1] == movements[..i] + [movement];
      var key := KeyOf(movement);
      if key !in aggregated {
        order := order + [key];
        aggregated := aggregated[key := MovementAggregatedProjection(key.date, DisplayType(movement.movementType), 0, 0.0)];
      }
      var agg := aggregated[key];
      aggregated := aggregated[key := agg.(qty := agg.qty + |movement.items|, total := agg.total + movement.totalAmount)];
      i := i + 1;
    }
    assert movements[..i] == movements;
  }

  // ------------------------------------------- reference definitions

  /** The distinct keys of `ms`. */
  ghost function KeysOf(ms: seq<Movement>): set<GroupKey> {
    set j | 0 <= j < |ms| :: KeyOf(ms[j])
  }

  /** Sum of `items.length` over the movements with key `k`. */
  function GroupQty(ms: seq<Movement>, k: GroupKey): nat
    decreases |ms|
  {
    if ms == [] then 0
    else GroupQty(ms[..|ms| - 1], k) + (if KeyOf(ms[|ms| - 1]) == k then |ms[|ms| - 1].items| else 0)
  }

  /** Sum of `totalAmount` over the movements with key `k`. */
  function GroupTotal(ms: seq<Movement>, k: GroupKey): real
    decreases |ms|
  {
    if ms == [] then 0.0
    else GroupTotal(ms[..|ms| - 1], k) + (if KeyOf(ms[|ms| - 1]) == k then ms[|ms| - 1].totalAmount else 0.0)
  }

  function TotalItems(ms: seq<Movement>): nat
    decreases |ms|
  {
    if ms == [] then 0 else TotalItems(ms[..|ms| - 1]) + |ms[|ms| - 1].items|
  }

  function TotalAmount(ms: seq<Movement>): real
    decreases |ms|
  {
    if ms == [] then 0.0 else TotalAmount(ms[..|ms| - 1]) + ms[|ms| - 1].totalAmount
  }

  /** Position of the first movement with key `k`. */
  function FirstIndex(ms: seq<Movement>, k: GroupKey): (i: nat)
    requires k in KeysOf(ms)
    ensures i < |ms| && KeyOf(ms[i]) == k
    ensures forall j :: 0 <= j < i ==> KeyOf(ms[j]) != k
  {
    if KeyOf(ms[0]) == k then 0
    else
      assert k in KeysOf(ms[1..]) by {
        var j :| 0 <= j < |ms| && KeyOf(ms[j]) == k;
        assert KeyOf(ms[1..][j - 1]) == k;
      }
      1 + FirstIndex(ms[1..], k)
  }

  function QtyOf(r: MovementAggregatedProjection): real { r.qty as real }
  function TotalOf(r: MovementAggregatedProjection): real { r.total }

  // ------------------------------------------------------------ lemmas

  lemma KeysOfSnoc(ms: seq<Movement>, m: Movement)
    ensures KeysOf(ms + [m]) == KeysOf(ms) + {KeyOf(m)}
  {
    var s := ms + [m];
    forall k | k in KeysOf(ms) ensures k in KeysOf(s) {
      var j :| 0 <= j < |ms| && KeyOf(ms[j]) == k;
      assert s[j] == ms[j];
    }
    assert s[|ms|] == m;
  }

  /** Appending a movement does not move the first occurrence of a key
      already present; a new key first occurs at the end. */
  lemma FirstIndexSnoc(ms: seq<Movement>, m: Movement, k: GroupKey)
    requires k in KeysOf(ms + [m])
    ensures k in KeysOf(ms) ==> FirstIndex(ms + [m], k) == FirstIndex(ms, k)
    ensures k !in KeysOf(ms) ==> FirstIndex(ms + [m], k) == |ms|
  {
    var s := ms + [m];
    var a := FirstIndex(s, k);
    if k in KeysOf(ms) {
      var b := FirstIndex(ms, k);
      assert s[b] == ms[b];
      assert a <= b;
      assert s[a] == ms[a];
    } else {
      forall j | 0 <= j < |ms| ensures KeyOf(s[j]) != k {
        assert s[j] == ms[j];
        assert KeyOf(ms[j]) in KeysOf(ms);
      }
    }
  }

  /** A key absent from `ms` has an empty group. */
  lemma {:induction false} AbsentGroupIsEmpty(ms: seq<Movement>, k: GroupKey)
    requires k !in KeysOf(ms)
    ensures GroupQty(ms, k) == 0 && GroupTotal(ms, k) == 0.0
    decreases |ms|
  {
    if ms != [] {
      var pre := ms[..|ms| - 1];
      assert ms == pre + [ms[|ms| - 1]];
      KeysOfSnoc(pre, ms[|ms| - 1]);
      AbsentGroupIsEmpty(pre, k);
    }
  }

  /** One turn of the fold, summarised: the key is added to the order if
      new, its row is created or updated, every other row is untouched. */
  lemma AddMovementEffect(g: Groups, m: Movement)
    requires WellFormed(g)
    ensures var g', k := AddMovement(g, m), KeyOf(m);
      && WellFormed(g')
      && g'.rows.Keys == g.rows.Keys + {k}
      && g'.order == (if k in g.rows then g.order else g.order + [k])
      && (forall k' :: k' in g.rows && k' != k ==> g'.rows[k'] == g.rows[k'])
      && g'.rows[k].date == (if k in g.rows then g.rows[k].date else k.date)
      && g'.rows[k].movementType == (if k in g.rows then g.rows[k].movementType else DisplayType(m.movementType))
      && g'.rows[k].qty == (if k in g.rows then g.rows[k].qty else 0) + |m.items|
      && g'.rows[k].total == (if k in g.rows then g.rows[k].total else 0.0) + m.totalAmount
  {
    var g', k := AddMovement(g, m), KeyOf(m);
    if k !in g.rows {
      assert k !in g.order;
      forall i, j | 0 <= i < j < |g'.order| ensures g'.order[i] != g'.order[j] {
        if j < |g.order| {
          assert g'.order[i] == g.order[i] && g'.order[j] == g.order[j];
        } else {
          assert g'.order[i] == g.order[i];
        }
      }
    }
  }

  /** After any prefix, the groups hold one row per distinct key, the keys
      are distinct, and each row carries its key's day. */
  lemma {:induction false} AccumulateShape(ms: seq<Movement>)
    ensures var g := Accumulate(ms);
      && WellFormed(g)
      && g.rows.Keys == KeysOf(ms)
      && |g.order| == |KeysOf(ms)|
      && (forall k :: k in g.rows ==> g.rows[k].date == k.date)
    decreases |ms|
  {
    if ms != [] {
      var n := |ms| - 1;
      var pre, m := ms[..n], ms[n];
      assert ms == pre + [m];
      assert Accumulate(ms) == AddMovement(Accumulate(pre), m);
      AccumulateShape(pre);
      ShapeStep(pre, m, Accumulate(pre));
    }
  }

  /** The step of `AccumulateShape`. */
  lemma ShapeStep(pre: seq<Movement>, m: Movement, g: Groups)
    requires && WellFormed(g)
      && g.rows.Keys == KeysOf(pre)
      && |g.order| == |KeysOf(pre)|
      && (forall k :: k in g.rows ==> g.rows[k].date == k.date)
    ensures var g' := AddMovement(g, m);
      && WellFormed(g')
      && g'.rows.Keys == KeysOf(pre + [m])
      && |g'.order| == |KeysOf(pre + [m])|
      && (forall k :: k in g'.rows ==> g'.rows[k].date == k.date)
  {
    KeysOfSnoc(pre, m);
    AddMovementEffect(g, m);
    var g', k := AddMovement(g, m), KeyOf(m);
    if k in g.rows {
      assert KeysOf(pre + [m]) == KeysOf(pre);
    } else {
      assert |KeysOf(pre) + {k}| == |KeysOf(pre)| + 1;
    }
    forall k' | k' in g'.rows ensures g'.rows[k'].date == k'.date {
      if k' != k {
        assert g'.rows[k'] == g.rows[k'];
      }
    }
  }

  /** The keys appear in the order of their first movement. */
  lemma {:induction false} AccumulateFirstSeen(ms: seq<Movement>)
    ensures var order := KeyOrder(ms);
      forall i, j :: 0 <= i < j < |order| ==> FirstIndex(ms, order[i]) < FirstIndex(ms, order[j])
    decreases |ms|
  {
    if ms != [] {
      var n := |ms| - 1;
      var pre, m := ms[..n], ms[n];
      assert ms == pre + [m];
      var g := Accumulate(pre);
      assert Accumulate(ms) == AddMovement(g, m);
      assert KeyOrder(pre) == g.order;
      assert KeyOrder(ms) == Accumulate(ms).order;
      AccumulateShape(pre);
      AccumulateFirstSeen(pre);
      KeysOfSnoc(pre, m);
      AddMovementEffect(g, m);
      FirstSeenStep(pre, m, KeyOrder(pre), KeyOrder(ms));
    }
  }

  /** The step of `AccumulateFirstSeen`, on the key orders alone. */
  lemma FirstSeenStep(pre: seq<Movement>, m: Movement, before: seq<GroupKey>, after: seq<GroupKey>)
    requires forall k :: k in before ==> k in KeysOf(pre)
    requires forall i, j :: 0 <= i < j < |before| ==> FirstIndex(pre, before[i]) < FirstIndex(pre, before[j])
    requires KeysOf(pre + [m]) == KeysOf(pre) + {KeyOf(m)}
    requires if KeyOf(m) in KeysOf(pre) then after == before else after == before + [KeyOf(m)]
    ensures forall k :: k in after ==> k in KeysOf(pre + [m])
    ensures forall i, j :: 0 <= i < j < |after| ==> FirstIndex(pre + [m], after[i]) < FirstIndex(pre + [m], after[j])
  {
    var ms := pre + [m];
    forall i, j | 0 <= i < j < |after| ensures FirstIndex(ms, after[i]) < FirstIndex(ms, after[j]) {
      assert after[i] == before[i];
      FirstIndexSnoc(pre, m, after[i]);
      FirstIndexSnoc(pre, m, after[j]);
      if j < |before| {
        assert after[j] == before[j];
      }
    }
  }

  /** Each row's count and amount are its group's item count and amount. */
  lemma {:induction false} AccumulateRowSums(ms: seq<Movement>)
    ensures var g := Accumulate(ms);
      forall k :: k in KeysOf(ms) ==>
        k in g.rows && g.rows[k].qty == GroupQty(ms, k) && g.rows[k].total == GroupTotal(ms, k)
    decreases |ms|
  {
    if ms != [] {
      var n := |ms| - 1;
      var pre, m := ms[..n], ms[n];
      assert ms == pre + [m];
      assert Accumulate(ms) == AddMovement(Accumulate(pre), m);
      AccumulateShape(pre);
      AccumulateRowSums(pre);
      RowSumsStep(pre, m, Accumulate(pre));
    }
  }

  /** The step of `AccumulateRowSums`. */
  lemma RowSumsStep(pre: seq<Movement>, m: Movement, g: Groups)
    requires WellFormed(g) && g.rows.Keys == KeysOf(pre)
    requires forall k :: k in KeysOf(pre) ==>
      k in g.rows && g.rows[k].qty == GroupQty(pre, k) && g.rows[k].total == GroupTotal(pre, k)
    ensures var g', ms := AddMovement(g, m), pre + [m];
      forall k :: k in KeysOf(ms) ==>
        k in g'.rows && g'.rows[k].qty == GroupQty(ms, k) && g'.rows[k].total == GroupTotal(ms, k)
  {
    var g', ms := AddMovement(g, m), pre + [m];
    assert ms[..|ms| - 1] == pre && ms[|ms| - 1] == m;
    KeysOfSnoc(pre, m);
    AddMovementEffect(g, m);
    forall k | k in KeysOf(ms)
      ensures k in g'.rows && g'.rows[k].qty == GroupQty(ms, k) && g'.rows[k].total == GroupTotal(ms, k)
    {
      if k == KeyOf(m) && k !in KeysOf(pre) {
        AbsentGroupIsEmpty(pre, k);
      }
    }
  }

  /** Each row shows the type of its group's first movement. */
  lemma {:induction false} AccumulateRowTypes(ms: seq<Movement>)
    ensures var g := Accumulate(ms);
      forall k :: k in KeysOf(ms) ==>
        k in g.rows && g.rows[k].movementType == DisplayType(ms[FirstIndex(ms, k)].movementType)
    decreases |ms|
  {
    if ms != [] {
      var n := |ms| - 1;
      var pre, m := ms[..n], ms[n];
      assert ms == pre + [m];
      assert Accumulate(ms) == AddMovement(Accumulate(pre), m);
      AccumulateShape(pre);
      AccumulateRowTypes(pre);
      RowTypesStep(pre, m, Accumulate(pre));
    }
  }

  /** The step of `AccumulateRowTypes`. */
  lemma RowTypesStep(pre: seq<Movement>, m: Movement, g: Groups)
    requires WellFormed(g) && g.rows.Keys == KeysOf(pre)
    requires forall k :: k in KeysOf(pre) ==>
      k in g.rows && g.rows[k].movementType == DisplayType(pre[FirstIndex(pre, k)].movementType)
    ensures var g', ms := AddMovement(g, m), pre + [m];
      forall k :: k in KeysOf(ms) ==>
        k in g'.rows && g'.rows[k].movementType == DisplayType(ms[FirstIndex(ms, k)].movementType)
  {
    var g', ms := AddMovement(g, m), pre + [m];
    KeysOfSnoc(pre, m);
    AddMovementEffect(g, m);
    forall k | k in KeysOf(ms)
      ensures k in g'.rows && g'.rows[k].movementType == DisplayType(ms[FirstIndex(ms, k)].movementType)
    {
      FirstIndexSnoc(pre, m, k);
      if k in KeysOf(pre) {
        var b := FirstIndex(pre, k);
        assert ms[b] == pre[b];
        assert g'.rows[k].movementType == g.rows[k].movementType;
      } else {
        assert k == KeyOf(m) && ms[|pre|] == m;
      }
    }
  }

  /** Replacing one element changes a sum by the difference. */
  lemma {:induction false} SumOfUpdate<T>(s: seq<T>, p: nat, x: T, f: T -> real)
    requires p < |s|
    ensures SumOf(s[p := x], f) == SumOf(s, f) - f(s[p]) + f(x)
  {
    if p > 0 {
      SumOfUpdate(s[1..], p - 1, x, f);
      assert s[p := x][1..] == s[1..][p - 1 := x];
    } else {
      assert s[p := x][1..] == s[1..];
    }
  }

  /** Nothing is lost or counted twice: the rows' counts add up to the
      number of items of all movements, and their totals to the sum of all
      amounts. */
  lemma {:induction false} AccumulateSums(ms: seq<Movement>)
    ensures SumOf(Unsorted(ms), QtyOf) == TotalItems(ms) as real
    ensures SumOf(Unsorted(ms), TotalOf) == TotalAmount(ms)
    decreases |ms|
  {
    if ms != [] {
      var n := |ms| - 1;
      var pre, m := ms[..n], ms[n];
      AccumulateSums(pre);
      assert ms == pre + [m];
      SumsStep(pre, m);
    }
  }

  /** The step of `AccumulateSums`. */
  lemma SumsStep(pre: seq<Movement>, m: Movement)
    requires SumOf(Unsorted(pre), QtyOf) == TotalItems(pre) as real
    requires SumOf(Unsorted(pre), TotalOf) == TotalAmount(pre)
    ensures SumOf(Unsorted(pre + [m]), QtyOf) == TotalItems(pre + [m]) as real
    ensures SumOf(Unsorted(pre + [m]), TotalOf) == TotalAmount(pre + [m])
  {
    var ms := pre + [m];
    assert ms[..|ms| - 1] == pre && ms[|ms| - 1] == m;
    AccumulateShape(pre);
    var g := Accumulate(pre);
    AddMovementEffect(g, m);
    AddMovementSums(g, m);
  }

  /** One turn of the fold adds the movement's item count and amount to
      the rows' sums. */
  lemma AddMovementSums(g: Groups, m: Movement)
    requires WellFormed(g) && WellFormed(AddMovement(g, m))
    ensures && SumOf(RowsInOrder(AddMovement(g, m)), QtyOf) == SumOf(RowsInOrder(g), QtyOf) + |m.items| as real
      && SumOf(RowsInOrder(AddMovement(g, m)), TotalOf) == SumOf(RowsInOrder(g), TotalOf) + m.totalAmount
  {
    AddMovementEffect(g, m);
    var g', k := AddMovement(g, m), KeyOf(m);
    var before := RowsInOrder(g);
    if k !in g.rows {
      RowsInOrderAppend(g, m);
      SumOfAppend(before, [g'.rows[k]], QtyOf);
      SumOfAppend(before, [g'.rows[k]], TotalOf);
    } else {
      var p :| 0 <= p < |g.order| && g.order[p] == k;
      RowsInOrderUpdate(g, m, p);
      SumOfUpdate(before, p, g'.rows[k], QtyOf);
      SumOfUpdate(before, p, g'.rows[k], TotalOf);
    }
  }

  lemma RowsInOrderAppend(g: Groups, m: Movement)
    requires WellFormed(g) && WellFormed(AddMovement(g, m)) && KeyOf(m) !in g.rows
    ensures RowsInOrder(AddMovement(g, m)) == RowsInOrder(g) + [AddMovement(g, m).rows[KeyOf(m)]]
  {
    AddMovementEffect(g, m);
    var g', k := AddMovement(g, m), KeyOf(m);
    forall i | 0 <= i < |g.order| ensures RowsInOrder(g')[i] == RowsInOrder(g)[i] {
      assert g.order[i] != k;
    }
  }

  lemma RowsInOrderUpdate(g: Groups, m: Movement, p: nat)
    requires WellFormed(g) && WellFormed(AddMovement(g, m)) && p < |g.order| && g.order[p] == KeyOf(m)
    ensures RowsInOrder(AddMovement(g, m)) == RowsInOrder(g)[p := AddMovement(g, m).rows[KeyOf(m)]]
  {
    AddMovementEffect(g, m);
    var g', k := AddMovement(g, m), KeyOf(m);
    forall i | 0 <= i < |g.order| && i != p ensures RowsInOrder(g')[i] == RowsInOrder(g)[i] {
      assert g.order[i] != k;
    }
  }

  /** Before sorting, row `i` belongs to the `i`-th key in order of first
      appearance; the keys are exactly the distinct keys of the input, each
      once; and the row holds its key's day, its group's item count and
      amount, and the type of its group's first movement. */
  lemma UnsortedRows(ms: seq<Movement>)
    ensures var rows, order := Unsorted(ms), KeyOrder(ms);
      && |rows| == |order| == |KeysOf(ms)|
      && (forall k :: k in KeysOf(ms) ==> k in order)
      && (forall i, j :: 0 <= i < j < |order| ==> order[i] != order[j])
      && forall i :: 0 <= i < |rows| ==>
        && rows[i].date == order[i].date
        && rows[i].qty == GroupQty(ms, order[i])
        && rows[i].total == GroupTotal(ms, order[i])
        && rows[i].movementType == DisplayType(ms[FirstIndex(ms, order[i])].movementType)
  {
    AccumulateShape(ms);
    AccumulateRowSums(ms);
    AccumulateRowTypes(ms);
  }

  /** `aggregateMovements` emits exactly one row per distinct (day, type)
      key, sorted most recent day first; rows of the same day keep the order
      in which their keys first appeared; and the rows' counts and totals
      add up to the input's item count and amount. */
  lemma AggregateProperties(ms: seq<Movement>, x: MovementAggregatedProjection)
    ensures var out, unsorted := Aggregate(ms), Unsorted(ms);
      && |out| == |KeysOf(ms)|
      && multiset(out) == multiset(unsorted)
      && (forall i, j :: 0 <= i < j < |out| ==> out[i].date >= out[j].date)
      && Peers(out, ByDateDesc, x) == Peers(unsorted, ByDateDesc, x)
      && SumOf(out, QtyOf) == TotalItems(ms) as real
      && SumOf(out, TotalOf) == TotalAmount(ms)
  {
    var unsorted := Unsorted(ms);
    AccumulateShape(ms);
    ByDateDescIsTotalPreorder();
    SortBySorted(unsorted, ByDateDesc);
    SortByStable(unsorted, ByDateDesc, x);
    AccumulateSums(ms);
    SumOfSortBy(unsorted, ByDateDesc, QtyOf);
    SumOfSortBy(unsorted, ByDateDesc, TotalOf);
  }

  // ----------------------------------------------------- 30-day filter

  /** The instant 30 days before `now`. */
  function Cutoff(now: int): int {
    now - 30 * MS_PER_DAY
  }

  /** `filterLast30Days`, with the clock reading `now`. */
  function FilterLast30Days(ms: seq<Movement>, now: int): seq<Movement>
  {
    if ms == [] then []
    else (if ms[0].movementDate >= Cutoff(now) then [ms[0]] else []) + FilterLast30Days(ms[1..], now)
  }

  /** `a` is `b` with some elements left out, the rest in their order. */
  ghost predicate IsSubsequence<T>(a: seq<T>, b: seq<T>)
    decreases |b|
  {
    a == [] || (b != [] && ((a[0] == b[0] && IsSubsequence(a[1..], b[1..])) || IsSubsequence(a, b[1..])))
  }

  /** The filter keeps movements in their original order. */
  lemma {:induction false} FilterLast30DaysIsSubsequence(ms: seq<Movement>, now: int)
    ensures IsSubsequence(FilterLast30Days(ms, now), ms)
  {
    if ms != [] {
      FilterLast30DaysIsSubsequence(ms[1..], now);
      var rest := FilterLast30Days(ms[1..], now);
      if ms[0].movementDate >= Cutoff(now) {
        assert ([ms[0]] + rest)[1..] == rest;
      } else {
        assert [] + rest == rest;
      }
    }
  }

  /** The filter keeps exactly the movements dated at or after the cutoff,
      each as often as it occurs. */
  lemma {:induction false} FilterLast30DaysKeepsExactlyRecent(ms: seq<Movement>, now: int, m: Movement)
    ensures multiset(FilterLast30Days(ms, now))[m] == if m.movementDate >= Cutoff(now) then multiset(ms)[m] else 0
  {
    if ms != [] {
      FilterLast30DaysKeepsExactlyRecent(ms[1..], now, m);
      var rest := FilterLast30Days(ms[1..], now);
      assert ms == [ms[0]] + ms[1..];
      assert multiset(ms)[m] == multiset([ms[0]])[m] + multiset(ms[1..])[m];
      if ms[0].movementDate >= Cutoff(now) {
        assert multiset([ms[0]] + rest)[m] == multiset([ms[0]])[m] + multiset(rest)[m];
      } else {
        assert [] + rest == rest;
      }
    }
  }

  /** Filtering twice is filtering once. */
  lemma {:induction false} FilterLast30DaysIdempotent(ms: seq<Movement>, now: int)
    ensures FilterLast30Days(FilterLast30Days(ms, now), now) == FilterLast30Days(ms, now)
  {
    if ms != [] {
      FilterLast30DaysIdempotent(ms[1..], now);
      var rest := FilterLast30Days(ms[1..], now);
      if ms[0].movementDate >= Cutoff(now) {
        assert ([ms[0]] + rest)[1..] == rest;
      } else {
        assert [] + rest == rest;
      }
    }
  }
}
