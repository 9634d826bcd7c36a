/**
 * The cart of lib/cart.tsx: a list of lines and a drawer flag, the list transforms behind
 * `remove`, `increment` and `decrement`, the merge-by-id the product components use to add a line,
 * the derived unit count and subtotal, and the store that hydrates from and persists to browser storage.
 */
module Cart {
  import opened Options
  import opened ArrayOps

  /** `{ id, name, price (cents), qty }`; the optional `image` is left out, no rule reads it. */
  datatype Line = Line(id: string, name: string, price: int, qty: int)

  /** At most one line per id: the invariant the merge-by-id is there to keep. */
  predicate UniqueIds(items: seq<Line>) {
    forall i, j :: 0 <= i < j < |items| ==> items[i].id != items[j].id
  }

  predicate HasLine(items: seq<Line>, id: string) {
    exists i :: 0 <= i < |items| && items[i].id == id
  }

  function IsLine(id: string): Line -> bool {
    (l: Line) => l.id == id
  }

  function OtherThan(id: string): Line -> bool {
    (l: Line) => l.id != id
  }

  // ---------------------------------------------------------------------------------------------
  // count and subtotal

  /** `items.reduce((n, i) => n + i.qty, 0)` */
  function Count(items: seq<Line>): int
    decreases |items|
  {
    if |items| == 0 then 0 else Count(items[..|items| - 1]) + items[|items| - 1].qty
  }

  /** `items.reduce((s, i) => s + i.qty * i.price, 0)` */
  function Subtotal(items: seq<Line>): int
    decreases |items|
  {
    if |items| == 0 then 0 else Subtotal(items[..|items| - 1]) + items[|items| - 1].qty * items[|items| - 1].price
  }

  /** The count and subtotal of a list are the sums over its parts. */
  lemma {:induction false} TotalsAppend(a: seq<Line>, b: seq<Line>)
    ensures Count(a + b) == Count(a) + Count(b)
    ensures Subtotal(a + b) == Subtotal(a) + Subtotal(b)
    decreases |b|
  {
    if |b| == 0 {
      assert a + b == a;
    } else {
      var b' := b[..|b| - 1];
      assert (a + b)[..|a + b| - 1] == a + b';
      TotalsAppend(a, b');
    }
  }

  /** A single line contributes its quantity and its quantity times its price. */
  lemma TotalsOfOne(l: Line)
    ensures Count([l]) == l.qty && Subtotal([l]) == l.qty * l.price
  {
    assert [l][..0] == [];
  }

  /** Splitting a list around position `i`. */
  lemma TotalsAround(items: seq<Line>, i: nat)
    requires i < |items|
    ensures Count(items) == Count(items[..i]) + items[i].qty + Count(items[i + 1..])
    ensures Subtotal(items) == Subtotal(items[..i]) + items[i].qty * items[i].price + Subtotal(items[i + 1..])
  {
    assert items == items[..i] + [items[i]] + items[i + 1..];
    TotalsAppend(items[..i] + [items[i]], items[i + 1..]);
    TotalsAppend(items[..i], [items[i]]);
    TotalsOfOne(items[i]);
  }

  /** Replacing one line changes the totals by the difference of the two lines. */
  lemma TotalsUpdate(items: seq<Line>, i: nat, l: Line)
    requires i < |items|
    ensures Count(items[i := l]) == Count(items) - items[i].qty + l.qty
    ensures Subtotal(items[i := l]) == Subtotal(items) - items[i].qty * items[i].price + l.qty * l.price
  {
    var u := items[i := l];
    TotalsAround(items, i);
    TotalsAround(u, i);
    assert u[..i] == items[..i] && u[i + 1..] == items[i + 1..];
  }

  /** Dropping one line takes its contribution off the totals. */
  lemma TotalsDrop(items: seq<Line>, i: nat)
    requires i < |items|
    ensures Count(items[..i] + items[i + 1..]) == Count(items) - items[i].qty
    ensures Subtotal(items[..i] + items[i + 1..]) == Subtotal(items) - items[i].qty * items[i].price
  {
    TotalsAround(items, i);
    TotalsAppend(items[..i], items[i + 1..]);
  }

  // ---------------------------------------------------------------------------------------------
  // remove, increment, decrement

  /** `prev.filter(it => it.id !== id)` */
  function Removed(items: seq<Line>, id: string): (r: seq<Line>)
    ensures forall i :: 0 <= i < |r| ==> r[i].id != id
    ensures forall j :: 0 <= j < |items| && items[j].id != id ==> items[j] in r
    ensures IsSubsequence(r, items)
  {
    Filter(items, OtherThan(id))
  }

  /** `prev.map(it => it.id === id ? { ...it, qty: it.qty + 1 } : it)` */
  function Incremented(items: seq<Line>, id: string): (r: seq<Line>)
    ensures |r| == |items|
    ensures forall i :: 0 <= i < |items| ==> r[i].id == items[i].id && r[i].name == items[i].name && r[i].price == items[i].price
    ensures forall i :: 0 <= i < |items| ==> r[i].qty == if items[i].id == id then items[i].qty + 1 else items[i].qty
  {
    seq(|items|, i requires 0 <= i < |items| => if items[i].id == id then items[i].(qty := items[i].qty + 1) else items[i])
  }

  /** The `flatMap` callback of `decrement`: other lines are kept, a matching one drops by one or goes. */
  function DecrementLine(it: Line, id: string): seq<Line> {
    if it.id != id then [it]
    else if it.qty - 1 > 0 then [it.(qty := it.qty - 1)]
    else []
  }

  /** `prev.flatMap(...)` with `DecrementLine` */
  function Decremented(items: seq<Line>, id: string): (r: seq<Line>)
    ensures |r| <= |items|
    ensures forall i :: 0 <= i < |r| && r[i].id == id ==> r[i].qty > 0
    decreases |items|
  {
    if |items| == 0 then [] else DecrementLine(items[0], id) + Decremented(items[1..], id)
  }

  /** Every line one unit lighter. */
  function Lowered(lines: seq<Line>): (r: seq<Line>)
    ensures |r| == |lines|
    ensures forall i :: 0 <= i < |lines| ==> r[i] == lines[i].(qty := lines[i].qty - 1)
  {
    seq(|lines|, i requires 0 <= i < |lines| => lines[i].(qty := lines[i].qty - 1))
  }

  lemma LoweredAppend(a: seq<Line>, b: seq<Line>)
    ensures Lowered(a + b) == Lowered(a) + Lowered(b)
  {
  }

  /** A line that still holds at least one unit. */
  function StillHeld(): Line -> bool {
    (l: Line) => l.qty > 0
  }

  /**
   * On every list, duplicate ids included, `decrement` turns the lines with that id into the same
   * lines one unit lighter, keeping those still above zero, in order.
   */
  lemma {:induction false} DecrementMatching(items: seq<Line>, id: string)
    ensures Filter(Decremented(items, id), IsLine(id)) == Filter(Lowered(Filter(items, IsLine(id))), StillHeld())
    decreases |items|
  {
    if |items| > 0 {
      var head := items[0];
      var rest := Filter(items[1..], IsLine(id));
      DecrementMatching(items[1..], id);
      FilterAppend(DecrementLine(head, id), Decremented(items[1..], id), IsLine(id));
      if head.id == id {
        assert Filter(items, IsLine(id)) == [head] + rest;
        LoweredAppend([head], rest);
        FilterAppend(Lowered([head]), Lowered(rest), StillHeld());
        assert Lowered([head]) == [head.(qty := head.qty - 1)];
        assert Filter(DecrementLine(head, id), IsLine(id)) == Filter(Lowered([head]), StillHeld());
      } else {
        assert Filter(items, IsLine(id)) == rest;
        assert Filter(DecrementLine(head, id), IsLine(id)) == [];
      }
    }
  }

  /** `decrement` leaves every other line, in order. */
  lemma {:induction false} DecrementKeepsOthers(items: seq<Line>, id: string)
    ensures Filter(Decremented(items, id), OtherThan(id)) == Filter(items, OtherThan(id))
    decreases |items|
  {
    if |items| > 0 {
      DecrementKeepsOthers(items[1..], id);
      FilterAppend(DecrementLine(items[0], id), Decremented(items[1..], id), OtherThan(id));
      assert Filter(DecrementLine(items[0], id), OtherThan(id)) == if items[0].id != id then [items[0]] else [];
    }
  }

  /** Removing, incrementing or decrementing an id the cart does not hold leaves the cart as it was. */
  lemma AbsentIdNoChange(items: seq<Line>, id: string)
    requires !HasLine(items, id)
    ensures Removed(items, id) == items
    ensures Incremented(items, id) == items
    ensures Decremented(items, id) == items
  {
    forall j | 0 <= j < |items| ensures OtherThan(id)(items[j]) {
      assert items[j].id != id;
    }
    FilterAllOrNothing(items, OtherThan(id));
    AbsentNotDecremented(items, id);
  }

  lemma {:induction false} AbsentNotDecremented(items: seq<Line>, id: string)
    requires forall j :: 0 <= j < |items| ==> items[j].id != id
    ensures Decremented(items, id) == items
    decreases |items|
  {
    if |items| > 0 {
      assert forall j :: 0 <= j < |items[1..]| ==> items[1..][j].id != id by {
        forall j | 0 <= j < |items[1..]| ensures items[1..][j].id != id {
          assert items[1..][j] == items[j + 1];
        }
      }
      AbsentNotDecremented(items[1..], id);
      assert items == [items[0]] + items[1..];
    }
  }

  /** With one line per id, `remove` takes out exactly the line with that id. */
  lemma RemovedAt(items: seq<Line>, k: nat)
    requires UniqueIds(items) && k < |items|
    ensures Removed(items, items[k].id) == items[..k] + items[k + 1..]
  {
    RemovedOnly(items, k);
  }

  /** No line other than the one at `k` has its id. */
  predicate OnlyAt(items: seq<Line>, k: nat)
    requires k < |items|
  {
    forall j :: 0 <= j < |items| && j != k ==> items[j].id != items[k].id
  }

  lemma {:induction false} RemovedOnly(items: seq<Line>, k: nat)
    requires k < |items| && OnlyAt(items, k)
    ensures Removed(items, items[k].id) == items[..k] + items[k + 1..]
    decreases k
  {
    if k == 0 {
      RemovedHead(items);
    } else {
      var tail := items[1..];
      assert tail[k - 1] == items[k];
      assert items[0].id != items[k].id;
      OnlyAtTail(items, k);
      RemovedOnly(tail, k - 1);
      RemovedCons(items, items[k].id);
      SpliceTail(items, k);
    }
  }

  lemma SpliceTail<T>(xs: seq<T>, k: nat)
    requires 0 < k < |xs|
    ensures xs[..k] + xs[k + 1..] == [xs[0]] + (xs[1..][..k - 1] + xs[1..][k..])
  {
  }

  lemma RemovedHead(items: seq<Line>)
    requires 0 < |items| && OnlyAt(items, 0)
    ensures Removed(items, items[0].id) == items[1..]
  {
    var id := items[0].id;
    var tail := items[1..];
    assert !HasLine(tail, id) by {
      forall j | 0 <= j < |tail| ensures tail[j].id != id {
        assert tail[j] == items[j + 1];
      }
    }
    AbsentIdNoChange(tail, id);
    RemovedCons(items, id);
  }

  lemma OnlyAtTail(items: seq<Line>, k: nat)
    requires 0 < k < |items| && OnlyAt(items, k)
    ensures OnlyAt(items[1..], k - 1)
  {
    var tail := items[1..];
    forall j | 0 <= j < |tail| && j != k - 1 ensures tail[j].id != tail[k - 1].id {
      assert tail[j] == items[j + 1];
    }
  }

  /** `remove` on a non-empty list: the head goes or stays, the tail is filtered. */
  lemma RemovedCons(items: seq<Line>, id: string)
    requires |items| > 0
    ensures Removed(items, id) == (if items[0].id == id then [] else [items[0]]) + Removed(items[1..], id)
  {
  }

  /** With one line per id, `decrement` lowers that line by one, or drops it when it is down to one. */
  lemma DecrementedAt(items: seq<Line>, k: nat)
    requires UniqueIds(items) && k < |items|
    ensures Decremented(items, items[k].id) == items[..k] + DecrementLine(items[k], items[k].id) + items[k + 1..]
  {
    DecrementedOnly(items, k);
  }

  lemma {:induction false} DecrementedOnly(items: seq<Line>, k: nat)
    requires k < |items| && OnlyAt(items, k)
    ensures Decremented(items, items[k].id) == items[..k] + DecrementLine(items[k], items[k].id) + items[k + 1..]
    decreases k
  {
    var id := items[k].id;
    var tail := items[1..];
    if k == 0 {
      AbsentNotDecremented(tail, id);
    } else {
      assert tail[k - 1] == items[k];
      assert OnlyAt(tail, k - 1);
      DecrementedOnly(tail, k - 1);
      assert items[..k] == [items[0]] + tail[..k - 1];
      assert tail[k..] == items[k + 1..];
    }
  }

  /** With one line per id, `increment` changes exactly that line. */
  lemma IncrementedAt(items: seq<Line>, k: nat)
    requires UniqueIds(items) && k < |items|
    ensures Incremented(items, items[k].id) == items[k := items[k].(qty := items[k].qty + 1)]
  {
  }

  /** `increment` raises the unit count by one and the subtotal by the line's price. */
  lemma IncrementTotals(items: seq<Line>, k: nat)
    requires UniqueIds(items) && k < |items|
    ensures Count(Incremented(items, items[k].id)) == Count(items) + 1
    ensures Subtotal(Incremented(items, items[k].id)) == Subtotal(items) + items[k].price
  {
    IncrementedAt(items, k);
    OneMoreUnit(items, k);
  }

  lemma OneMoreUnit(items: seq<Line>, k: nat)
    requires k < |items|
    ensures Count(items[k := items[k].(qty := items[k].qty + 1)]) == Count(items) + 1
    ensures Subtotal(items[k := items[k].(qty := items[k].qty + 1)]) == Subtotal(items) + items[k].price
  {
    TotalsUpdate(items, k, items[k].(qty := items[k].qty + 1));
    Distribute(items[k].qty, 1, items[k].price);
  }

  /** `(a + b) * p == a * p + b * p`, kept out of the proofs about lists. */
  lemma Distribute(a: int, b: int, p: int)
    ensures (a + b) * p == a * p + b * p
  {
  }

  /** `decrement` lowers the count by one, unless the line goes, taking its whole quantity with it. */
  lemma DecrementTotals(items: seq<Line>, k: nat)
    requires UniqueIds(items) && k < |items|
    ensures items[k].qty > 1 ==> Count(Decremented(items, items[k].id)) == Count(items) - 1
    ensures items[k].qty > 1 ==> Subtotal(Decremented(items, items[k].id)) == Subtotal(items) - items[k].price
    ensures items[k].qty <= 1 ==> Count(Decremented(items, items[k].id)) == Count(items) - items[k].qty
    ensures items[k].qty <= 1 ==> Decremented(items, items[k].id) == Removed(items, items[k].id)
  {
    var l := items[k];
    if l.qty > 1 {
      DecrementLowers(items, k);
      TotalsUpdate(items, k, l.(qty := l.qty - 1));
      Distribute(l.qty - 1, 1, l.price);
    } else {
      DecrementDrops(items, k);
      RemovedAt(items, k);
      TotalsDrop(items, k);
    }
  }

  /** A line with more than one unit stays, one unit lighter. */
  lemma DecrementLowers(items: seq<Line>, k: nat)
    requires UniqueIds(items) && k < |items| && items[k].qty > 1
    ensures Decremented(items, items[k].id) == items[k := items[k].(qty := items[k].qty - 1)]
  {
    DecrementedAt(items, k);
    assert DecrementLine(items[k], items[k].id) == [items[k].(qty := items[k].qty - 1)];
    SpliceIsUpdate(items, k, items[k].(qty := items[k].qty - 1));
  }

  lemma SpliceIsUpdate(items: seq<Line>, k: nat, l: Line)
    requires k < |items|
    ensures items[..k] + [l] + items[k + 1..] == items[k := l]
  {
  }

  /** A line with one unit (or fewer) goes. */
  lemma DecrementDrops(items: seq<Line>, k: nat)
    requires UniqueIds(items) && k < |items| && items[k].qty <= 1
    ensures Decremented(items, items[k].id) == items[..k] + items[k + 1..]
  {
    DecrementedAt(items, k);
    var e := DecrementLine(items[k], items[k].id);
    assert e == [];
    assert items[..k] + e == items[..k];
  }

  /** `remove` keeps at most one line per id. */
  lemma RemovedKeepsUnique(items: seq<Line>, id: string)
    requires UniqueIds(items)
    ensures UniqueIds(Removed(items, id))
  {
    if HasLine(items, id) {
      var k :| 0 <= k < |items| && items[k].id == id;
      RemovedAt(items, k);
      DropKeepsUnique(items, k);
    } else {
      AbsentIdNoChange(items, id);
    }
  }

  /** `increment` keeps at most one line per id. */
  lemma IncrementedKeepsUnique(items: seq<Line>, id: string)
    requires UniqueIds(items)
    ensures UniqueIds(Incremented(items, id))
  {
    SameIdsKeepUnique(items, Incremented(items, id));
  }

  /** `decrement` keeps at most one line per id. */
  lemma DecrementedKeepsUnique(items: seq<Line>, id: string)
    requires UniqueIds(items)
    ensures UniqueIds(Decremented(items, id))
  {
    if HasLine(items, id) {
      var k :| 0 <= k < |items| && items[k].id == id;
      if items[k].qty > 1 {
        DecrementLowers(items, k);
        SameIdsKeepUnique(items, items[k := items[k].(qty := items[k].qty - 1)]);
      } else {
        DecrementDrops(items, k);
        DropKeepsUnique(items, k);
      }
    } else {
      AbsentIdNoChange(items, id);
    }
  }

  lemma SameIdsKeepUnique(a: seq<Line>, b: seq<Line>)
    requires UniqueIds(a) && |a| == |b|
    requires forall i :: 0 <= i < |a| ==> a[i].id == b[i].id
    ensures UniqueIds(b)
  {
  }

  lemma DropKeepsUnique(items: seq<Line>, k: nat)
    requires UniqueIds(items) && k < |items|
    ensures UniqueIds(items[..k] + items[k + 1..])
  {
    var d := items[..k] + items[k + 1..];
    forall i, j | 0 <= i < j < |d| ensures d[i].id != d[j].id {
      var i' := if i < k then i else i + 1;
      var j' := if j < k then j else j + 1;
      assert d[i] == items[i'] && d[j] == items[j'];
    }
  }

  // ---------------------------------------------------------------------------------------------
  // Adding a line: the merge-by-id of the product components

  /** `next.findIndex(x => x.id === id)`, `None` for -1. */
  function IndexOf(items: seq<Line>, id: string): (r: Option<nat>)
    ensures r.Some? ==> r.value < |items| && items[r.value].id == id
    ensures r.Some? ==> forall j :: 0 <= j < r.value ==> items[j].id != id
    ensures r.None? <==> !HasLine(items, id)
  {
    var r := FindIndex(items, IsLine(id));
    assert r.Some? ==> forall j :: 0 <= j < r.value ==> items[j].id != id by {
      if r.Some? {
        forall j | 0 <= j < r.value ensures items[j].id != id {
          assert !IsLine(id)(items[j]);
        }
      }
    }
    r
  }

  /**
   * Add `item`: a line with the same id takes `item.qty` more and keeps its own name and price;
   * otherwise `item` is appended.
   */
  function Merged(items: seq<Line>, item: Line): (r: seq<Line>)
    ensures HasLine(items, item.id) ==> |r| == |items|
    ensures !HasLine(items, item.id) ==> r == items + [item]
    ensures forall j :: 0 <= j < |items| && items[j].id != item.id ==> r[j] == items[j]
    ensures forall j :: 0 <= j < |items| && IndexOf(items, item.id) != Some(j) ==> r[j] == items[j]
    ensures forall j :: 0 <= j < |items| && items[j].id == item.id && IndexOf(items, item.id) == Some(j) ==>
      r[j] == items[j].(qty := items[j].qty + item.qty)
  {
    match IndexOf(items, item.id)
    case Some(i) => items[i := items[i].(qty := items[i].qty + item.qty)]
    case None => items + [item]
  }

  /** Adding keeps one line per id and grows the list by at most one. */
  lemma MergedKeepsUnique(items: seq<Line>, item: Line)
    requires UniqueIds(items)
    ensures UniqueIds(Merged(items, item))
    ensures |items| <= |Merged(items, item)| <= |items| + 1
  {
    match IndexOf(items, item.id)
    case Some(i) =>
      SameIdsKeepUnique(items, items[i := items[i].(qty := items[i].qty + item.qty)]);
    case None =>
      AppendKeepsUnique(items, item);
  }

  /** Adding raises the count by the added quantity, and the subtotal by that many units of the line's price. */
  lemma MergedTotals(items: seq<Line>, item: Line)
    requires UniqueIds(items)
    ensures Count(Merged(items, item)) == Count(items) + item.qty
    ensures !HasLine(items, item.id) ==> Subtotal(Merged(items, item)) == Subtotal(items) + item.qty * item.price
    ensures forall k :: 0 <= k < |items| && items[k].id == item.id ==>
      Subtotal(Merged(items, item)) == Subtotal(items) + item.qty * items[k].price
  {
    var price := MergedSums(items, item);
    forall k | 0 <= k < |items| && items[k].id == item.id ensures items[k].price == price {
      var i := IndexOf(items, item.id).value;
      assert k == i;
    }
  }

  /** The totals after a merge, with the price of the line that absorbed the quantity. */
  lemma MergedSums(items: seq<Line>, item: Line) returns (price: int)
    ensures Count(Merged(items, item)) == Count(items) + item.qty
    ensures Subtotal(Merged(items, item)) == Subtotal(items) + item.qty * price
    ensures !HasLine(items, item.id) ==> price == item.price
    ensures IndexOf(items, item.id).Some? ==> price == items[IndexOf(items, item.id).value].price
  {
    var x := IndexOf(items, item.id);
    if x.Some? {
      var i := x.value;
      MergedPresent(items, item, i);
      AddToLine(items, i, item.qty);
      price := items[i].price;
    } else {
      AppendLine(items, item);
      price := item.price;
    }
  }

  lemma MergedPresent(items: seq<Line>, item: Line, i: nat)
    requires IndexOf(items, item.id) == Some(i)
    ensures Merged(items, item) == items[i := items[i].(qty := items[i].qty + item.qty)]
  {
  }

  /** Raising one line's quantity by `q` adds `q` units of that line's price. */
  lemma AddToLine(items: seq<Line>, i: nat, q: int)
    requires i < |items|
    ensures Count(items[i := items[i].(qty := items[i].qty + q)]) == Count(items) + q
    ensures Subtotal(items[i := items[i].(qty := items[i].qty + q)]) == Subtotal(items) + q * items[i].price
  {
    TotalsUpdate(items, i, items[i].(qty := items[i].qty + q));
    Distribute(items[i].qty, q, items[i].price);
  }

  /** Appending a line adds its totals. */
  lemma AppendLine(items: seq<Line>, item: Line)
    ensures Count(items + [item]) == Count(items) + item.qty
    ensures Subtotal(items + [item]) == Subtotal(items) + item.qty * item.price
  {
    TotalsAppend(items, [item]);
    TotalsOfOne(item);
  }

  /** Appending a line with a new id keeps the ids unique. */
  lemma AppendKeepsUnique(items: seq<Line>, item: Line)
    requires UniqueIds(items) && !HasLine(items, item.id)
    ensures UniqueIds(items + [item])
  {
    var r := items + [item];
    forall a, b | 0 <= a < b < |r| ensures r[a].id != r[b].id {
      assert r[a] == items[a];
    }
  }

  // ---------------------------------------------------------------------------------------------
  // Browser storage

  /**
   * What `localStorage.getItem("fsblends:cart")` holds, as far as hydration can tell: nothing (or an
   * empty string), text that does not parse, JSON that is not an array, or a stored list of lines.
   */
  datatype Stored = Missing | Unparsable | NotAnArray | Saved(lines: seq<Line>)

  /** The hydration effect: adopt the stored list only when it parses to an array; otherwise stay empty. */
  function Hydrated(stored: Stored, current: seq<Line>): (r: seq<Line>)
    ensures stored.Saved? ==> r == stored.lines
    ensures !stored.Saved? ==> r == current
  {
    if stored.Saved? then stored.lines else current
  }

  /**
   * `CartProvider`'s state: the lines, the drawer flag, and the storage slot every change of the
   * lines is written back to. The flag is never persisted.
   */
  class CartStore {
    var items: seq<Line>
    var open: bool
    var storage: Stored

    /** Every change of `items` has been written back. */
    predicate Persisted()
      reads this
    {
      storage == Saved(items)
    }

    /**
     * Mounting: empty and closed, then the hydration effect (which also forces the drawer shut) and
     * the write-back of whatever list results.
     */
    constructor (stored: Stored)
      ensures open == false
      ensures items == Hydrated(stored, [])
      ensures Persisted()
    {
      open := false;
      items := Hydrated(stored, []);
      storage := Saved(Hydrated(stored, []));
    }

    function UnitCount(): int
      reads this
    {
      Count(items)
    }

    function SubtotalCents(): int
      reads this
    {
      Subtotal(items)
    }

    method Toggle()
      modifies this`open
      ensures open == !old(open)
    {
      open := !open;
    }

    method OpenCart()
      modifies this`open
      ensures open
    {
      open := true;
    }

    method Close()
      modifies this`open
      ensures !open
    {
      open := false;
    }

    /** `setItems(next)` followed by the write-back effect. */
    method SetItems(next: seq<Line>)
      modifies this`items, this`storage
      ensures items == next && Persisted()
    {
      items := next;
      storage := Saved(items);
    }

    method Remove(id: string)
      modifies this`items, this`storage
      ensures items == Removed(old(items), id) && Persisted()
      ensures UniqueIds(old(items)) ==> UniqueIds(items)
    {
      if UniqueIds(items) {
        RemovedKeepsUnique(items, id);
      }
      SetItems(Removed(items, id));
    }

    method Increment(id: string)
      modifies this`items, this`storage
      ensures items == Incremented(old(items), id) && Persisted()
      ensures UniqueIds(old(items)) ==> UniqueIds(items)
    {
      if UniqueIds(items) {
        IncrementedKeepsUnique(items, id);
      }
      SetItems(Incremented(items, id));
    }

    /**
     * A page reload: a new provider mounts over the storage this one wrote back, and shows the same
     * lines with the drawer shut.
     */
    method Reload() returns (next: CartStore)
      requires Persisted()
      ensures fresh(next) && next.items == items && !next.open && next.Persisted()
    {
      next := new CartStore(storage);
    }

    method Decrement(id: string)
      modifies this`items, this`storage
      ensures items == Decremented(old(items), id) && Persisted()
      ensures UniqueIds(old(items)) ==> UniqueIds(items)
      ensures Filter(items, IsLine(id)) == Filter(Lowered(Filter(old(items), IsLine(id))), StillHeld())
    {
      if UniqueIds(items) {
        DecrementedKeepsUnique(items, id);
      }
      DecrementMatching(items, id);
      SetItems(Decremented(items, id));
    }
  }
}
