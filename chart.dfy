/**
 * The rows of the rate chart (web/static/chart.js, `draw`): one header row
 * and one row per market tick, holding the tick's time and sell rate, a
 * marker for the buy and sell events since the previous tick, the support
 * line and, while a sell order is pending, its rate.
 *
 * Times are the tick and event datetimes as milliseconds since the epoch;
 * fetching the bot information and handing the rows to the chart widget
 * are left out.
 */
module Chart {
  import opened Wrappers

  /** A market tick of the bot information. */
  datatype Market = Market(datetime: int, sellRate: real)

  /** A trade event: type 0 is a buy, type 1 a sell. */
  datatype Event = Event(datetime: int, eventType: int)

  /** The statuses of the bot information used by the chart. */
  datatype Statuses = Statuses(supportLineSlope: real, supportLineValue: real, sellRate: real)

  /** A header cell: a column label, or the style role of the marker column. */
  datatype Column = Label(name: string) | StyleRole

  /** A data cell: a time, a number, or a marker style (null when absent). */
  datatype Cell = Time(ms: int) | Number(x: real) | Style(point: Option<string>)

  const BoughtAndSoldPoint: string := "point {size:7;shape-type:diamond;fill-color:#ffc107;}"
  const BoughtPoint: string := "point {size:7;shape-type:diamond;fill-color:#3cb371;}"
  const SoldPoint: string := "point {size:7;shape-type:diamond;fill-color:#dc3545;}"

  /** The four columns every chart has. */
  const BaseHeader: seq<Column> := [Label("datetime"), Label("market"), StyleRole, Label("support line")]

  /** A sell order is pending when its rate is positive. */
  predicate HasSellOrder(st: Statuses)
  {
    st.sellRate > 0.0
  }

  /** The time of the tick before tick `i`, if there is one. */
  function Before(markets: seq<Market>, i: nat): (b: Option<int>)
    requires i < |markets|
    ensures b.None? <==> i == 0
    ensures i > 0 ==> b == Some(markets[i - 1].datetime)
  {
    if i == 0 then None else Some(markets[i - 1].datetime)
  }

  /**
   * Whether an event belongs to the tick at time `t` whose previous tick
   * was at `before`: after the previous tick and no later than this one,
   * or, for the first tick, any time up to it.
   */
  predicate Matches(before: Option<int>, t: int, e: Event)
  {
    if before.Some? then before.value < e.datetime <= t else e.datetime <= t
  }

  /** Whether some event of `events` of type `ty` matches. */
  function AnyMatched(events: seq<Event>, before: Option<int>, t: int, ty: int): (b: bool)
  {
    if events == [] then false
    else
      var last := events[|events| - 1];
      AnyMatched(events[..|events| - 1], before, t, ty) || (Matches(before, t, last) && last.eventType == ty)
  }

  /** `AnyMatched` is the existence of a matching event of that type. */
  lemma {:induction false} AnyMatchedIff(events: seq<Event>, before: Option<int>, t: int, ty: int)
    ensures AnyMatched(events, before, t, ty)
      <==> exists k :: 0 <= k < |events| && Matches(before, t, events[k]) && events[k].eventType == ty
  {
    if events != [] {
      var front := events[..|events| - 1];
      AnyMatchedIff(front, before, t, ty);
      if AnyMatched(front, before, t, ty) {
        var k :| 0 <= k < |front| && Matches(before, t, front[k]) && front[k].eventType == ty;
        assert events[k] == front[k];
      }
      if exists k :: 0 <= k < |events| && Matches(before, t, events[k]) && events[k].eventType == ty {
        var k :| 0 <= k < |events| && Matches(before, t, events[k]) && events[k].eventType == ty;
        if k < |front| {
          assert front[k] == events[k];
        }
      }
    }
  }

  /** The marker of a tick from whether a buy and a sell matched it. */
  function Point(bought: bool, selled: bool): (p: Option<string>)
    ensures p.None? <==> !bought && !selled
  {
    if bought && selled then Some(BoughtAndSoldPoint)
    else if bought then Some(BoughtPoint)
    else if selled then Some(SoldPoint)
    else None
  }

  /**
   * The support line at row `i` of `n`: slope `supportLineSlope`, passing
   * through `supportLineValue` at the last row.
   */
  function Support(st: Statuses, n: nat, i: nat): (y: real)
    ensures i + 1 == n ==> y == st.supportLineValue
  {
    var a := st.supportLineSlope;
    var b := st.supportLineValue - a * ((n - 1) as real);
    a * (i as real) + b
  }

  /** Between any two rows the support line rises by the slope times their distance. */
  lemma SupportLineIsLinear(st: Statuses, n: nat, i: nat, j: nat)
    ensures Support(st, n, j) - Support(st, n, i) == st.supportLineSlope * ((j - i) as real)
  {
    var a := st.supportLineSlope;
    assert a * (j as real) - a * (i as real) == a * ((j as real) - (i as real));
  }

  /** The header row: the four base columns, then `sell order` while a sell order is pending. */
  function Header(st: Statuses): (h: seq<Column>)
    ensures |h| == if HasSellOrder(st) then 5 else 4
    ensures h[..4] == BaseHeader
    ensures HasSellOrder(st) ==> h[4] == Label("sell order")
  {
    if HasSellOrder(st) then BaseHeader + [Label("sell order")] else BaseHeader
  }

  /**
   * Row `i` as a direct definition: the tick's time and sell rate, the
   * marker of the events since the previous tick, the support line, and the
   * pending sell rate when there is one.
   */
  function RowAt(markets: seq<Market>, events: seq<Event>, st: Statuses, i: nat): (row: seq<Cell>)
    requires i < |markets|
    ensures |row| == if HasSellOrder(st) then 5 else 4
    ensures row[0] == Time(markets[i].datetime) && row[1] == Number(markets[i].sellRate)
    ensures row[3] == Number(Support(st, |markets|, i))
    ensures HasSellOrder(st) ==> row[4] == Number(st.sellRate)
  {
    var t := markets[i].datetime;
    var before := Before(markets, i);
    var point := Point(AnyMatched(events, before, t, 0), AnyMatched(events, before, t, 1));
    var base := [Time(t), Number(markets[i].sellRate), Style(point), Number(Support(st, |markets|, i))];
    if HasSellOrder(st) then base + [Number(st.sellRate)] else base
  }

  /** Whether event `e` falls in the window of tick `i`. */
  predicate MatchedAt(markets: seq<Market>, i: nat, e: Event)
    requires i < |markets|
  {
    Matches(Before(markets, i), markets[i].datetime, e)
  }

  /**
   * `draw`: the header, then one row per tick; the events are matched
   * against the window between the previous tick's time and this one's.
   */
  method Draw(markets: seq<Market>, events: seq<Event>, st: Statuses) returns (header: seq<Column>, rows: seq<seq<Cell>>)
    ensures header == Header(st)
    ensures |rows| == |markets|
    ensures forall i :: 0 <= i < |rows| ==> rows[i] == RowAt(markets, events, st, i)
  {
    var hasSellOrder := st.sellRate > 0.0;
    header := [Label("datetime"), Label("market"), StyleRole, Label("support line")];
    if hasSellOrder {
      header := header + [Label("sell order")];
    }
    var beforeDatetime: Option<int> := None;
    var a := st.supportLineSlope;
    var b := st.supportLineValue - a * ((|markets| - 1) as real);
    rows := [];
    var index := 0;
    while index < |markets|
      invariant 0 <= index <= |markets|
      invariant |rows| == index
      invariant forall i :: 0 <= i < index ==> rows[i] == RowAt(markets, events, st, i)
      invariant index < |markets| ==> beforeDatetime == Before(markets, index)
    {
      var datetime := markets[index].datetime;
      var bought := false;
      var selled := false;
      var j := 0;
      while j < |events|
        invariant 0 <= j <= |events|
        invariant bought == AnyMatched(events[..j], beforeDatetime, datetime, 0)
        invariant selled == AnyMatched(events[..j], beforeDatetime, datetime, 1)
      {
        var e := events[j];
        var matched := false;
        if beforeDatetime.Some? {
          matched := beforeDatetime.value < e.datetime && e.datetime <= datetime;
        } else {
          matched := e.datetime <= datetime;
        }
        assert events[..j + 1][..j] == events[..j];
        if matched && e.eventType == 0 {
          bought := true;
        }
        if matched && e.eventType == 1 {
          selled := true;
        }
        j := j + 1;
      }
      assert events[..|events|] == events;
      var point: Option<string> := None;
      if bought && selled {
        point := Some(BoughtAndSoldPoint);
      } else if bought {
        point := Some(BoughtPoint);
      } else if selled {
        point := Some(SoldPoint);
      }
      var value := [Time(datetime), Number(markets[index].sellRate), Style(point), Number(a * (index as real) + b)];
      if hasSellOrder {
        value := value + [Number(st.sellRate)];
      }
      assert point == Point(bought, selled);
      assert a * (index as real) + b == Support(st, |markets|, index);
      assert beforeDatetime == Before(markets, index);
      assert value == RowAt(markets, events, st, index);
      rows := rows + [value];
      beforeDatetime := Some(datetime);
      index := index + 1;
    }
  }

  /**
   * The marker of row `i`: yellow when both a buy and a sell fall in its
   * window, green for buys only, red for sells only, none otherwise.
   */
  lemma RowMarker(markets: seq<Market>, events: seq<Event>, st: Statuses, i: nat)
    requires i < |markets|
    ensures var bought := exists k :: 0 <= k < |events| && MatchedAt(markets, i, events[k]) && events[k].eventType == 0;
      var selled := exists k :: 0 <= k < |events| && MatchedAt(markets, i, events[k]) && events[k].eventType == 1;
      RowAt(markets, events, st, i)[2]
        == Style(if bought && selled then Some(BoughtAndSoldPoint)
                 else if bought then Some(BoughtPoint)
                 else if selled then Some(SoldPoint)
                 else None)
  {
    var before := Before(markets, i);
    AnyMatchedIff(events, before, markets[i].datetime, 0);
    AnyMatchedIff(events, before, markets[i].datetime, 1);
  }

  /** With strictly increasing tick times, no event falls in the windows of two ticks. */
  lemma MatchedAtMostOnce(markets: seq<Market>, e: Event, i: nat, j: nat)
    requires forall p, q :: 0 <= p < q < |markets| ==> markets[p].datetime < markets[q].datetime
    requires i < j < |markets|
    ensures !(MatchedAt(markets, i, e) && MatchedAt(markets, j, e))
  {
    if MatchedAt(markets, i, e) {
      assert e.datetime <= markets[i].datetime;
      if i < j - 1 {
        assert markets[i].datetime < markets[j - 1].datetime;
      }
    }
  }

  /** Every event no later than the last tick falls in the window of some tick. */
  lemma {:induction false} MatchedSomewhere(markets: seq<Market>, e: Event)
    requires |markets| > 0 && e.datetime <= markets[|markets| - 1].datetime
    ensures exists i :: 0 <= i < |markets| && MatchedAt(markets, i, e)
  {
    var n := |markets|;
    if n == 1 {
      assert MatchedAt(markets, 0, e);
    } else if e.datetime <= markets[n - 2].datetime {
      var front := markets[..n - 1];
      MatchedSomewhere(front, e);
      var i :| 0 <= i < |front| && MatchedAt(front, i, e);
      assert Before(front, i) == Before(markets, i);
      assert MatchedAt(markets, i, e);
    } else {
      assert MatchedAt(markets, n - 1, e);
    }
  }

  /** An event after the last tick is in no window. */
  lemma UnmatchedAfterLast(markets: seq<Market>, e: Event, i: nat)
    requires forall p, q :: 0 <= p < q < |markets| ==> markets[p].datetime < markets[q].datetime
    requires i < |markets| && e.datetime > markets[|markets| - 1].datetime
    ensures !MatchedAt(markets, i, e)
  {
    if i < |markets| - 1 {
      assert markets[i].datetime < markets[|markets| - 1].datetime;
    }
  }
}
