/** The mechanical ordering of comparison rows in an ablation result. */
module Comparison {
  import opened Sequences

  datatype Row = Row(variantId: string, grossPnl: real, netPnl: real, tradeCount: nat, turnover: real)

  function Metric(row: Row, name: string): real {
    if name == "gross_pnl" then row.grossPnl
    else if name == "trade_count" then row.tradeCount as real
    else if name == "turnover_notional" then row.turnover
    else row.netPnl
  }

  // Higher metric, or the same metric and no greater identifier.
  predicate Leads(a: Row, b: Row, name: string) {
    || Metric(a, name) > Metric(b, name)
    || (Metric(a, name) == Metric(b, name) && TextLeq(a.variantId, b.variantId))
  }

  function Before(name: string): (Row, Row) -> bool {
    (a: Row, b: Row) => Leads(a, b, name)
  }

  function SortRows(rows: seq<Row>, name: string): seq<Row> {
    Sort(rows, Before(name))
  }

  lemma BeforeIsPreorder(name: string)
    ensures TotalPreorder(Before(name))
  {
    var before := Before(name);
    forall a: Row, b: Row
      ensures before(a, b) || before(b, a)
    {
      TextLeqTotal(a.variantId, b.variantId);
    }
    forall a: Row, b: Row, c: Row | before(a, b) && before(b, c)
      ensures before(a, c)
    {
      if TextLeq(a.variantId, b.variantId) && TextLeq(b.variantId, c.variantId) {
        TextLeqTransitive(a.variantId, b.variantId, c.variantId);
      }
    }
  }

  ghost predicate DistinctVariants(rows: seq<Row>) {
    forall i, j :: 0 <= i < j < |rows| ==> rows[i].variantId != rows[j].variantId
  }

  lemma RowsSorted(rows: seq<Row>, name: string)
    ensures Sorted(SortRows(rows, name), Before(name))
    ensures forall i, j :: 0 <= i < j < |SortRows(rows, name)| ==>
              Leads(SortRows(rows, name)[i], SortRows(rows, name)[j], name)
    ensures forall x :: x in SortRows(rows, name) <==> x in rows
  {
    BeforeIsPreorder(name);
    SortSorted(rows, Before(name));
    hide Metric, TextLeq;
    var a, before := SortRows(rows, name), Before(name);
    forall i, j | 0 <= i < j < |a|
      ensures Leads(a[i], a[j], name)
    {
      assert before(a[i], a[j]);
    }
  }

  lemma TiedVariants(x: Row, y: Row, name: string)
    requires Before(name)(x, y) && Before(name)(y, x)
    ensures x.variantId == y.variantId
  {
    hide Metric;
    TextLeqTotal(x.variantId, y.variantId);
  }

  /**
   Row a may come before row b: it has more of the figure asked for, or as much and no later
   identifier in code points.
   */
  ghost predicate NoWorse(a: Row, b: Row, name: string) {
    match name
    case "gross_pnl" => a.grossPnl > b.grossPnl || (a.grossPnl == b.grossPnl && CodePointLeq(a.variantId, b.variantId))
    case "trade_count" =>
      a.tradeCount > b.tradeCount || (a.tradeCount == b.tradeCount && CodePointLeq(a.variantId, b.variantId))
    case "turnover_notional" =>
      a.turnover > b.turnover || (a.turnover == b.turnover && CodePointLeq(a.variantId, b.variantId))
    case _ => a.netPnl > b.netPnl || (a.netPnl == b.netPnl && CodePointLeq(a.variantId, b.variantId))
  }

  lemma LeadsExact(a: Row, b: Row, name: string)
    ensures Leads(a, b, name) <==> NoWorse(a, b, name)
  {
    TextLeqExact(a.variantId, b.variantId);
    hide TextLeq, CodePointLeq;
  }

  /**
   The result lists the same rows, by falling gross profit, trade count or turnover when asked
   for and by falling net profit otherwise, equal figures by ascending identifier; with distinct
   variants it does not depend on the order in which they were run.
   */
  lemma RowsOrdered(rows: seq<Row>, shuffled: seq<Row>, name: string)
    requires DistinctVariants(rows) && multiset(shuffled) == multiset(rows)
    ensures multiset(SortRows(rows, name)) == multiset(rows)
    ensures forall i, j :: 0 <= i < j < |SortRows(rows, name)| ==>
              NoWorse(SortRows(rows, name)[i], SortRows(rows, name)[j], name)
    ensures SortRows(shuffled, name) == SortRows(rows, name)
  {
    RowsSorted(rows, name);
    RowsSorted(shuffled, name);
    var before := Before(name);
    var a, b := SortRows(rows, name), SortRows(shuffled, name);
    hide Before, Leads, NoWorse, Sorted;
    forall i, j | 0 <= i < j < |a|
      ensures NoWorse(a[i], a[j], name)
    {
      LeadsExact(a[i], a[j], name);
    }
    forall x, y | x in a && y in a && before(x, y) && before(y, x)
      ensures x == y
    {
      TiedVariants(x, y, name);
      assert x in rows && y in rows;
    }
    SortedUnique(a, b, before);
  }
}
