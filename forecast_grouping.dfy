/**
 * `groupForecastByDay` from the front end's utilities: the forecast entries
 * gathered into one list per calendar day. `formatDay` turns a timestamp into the
 * day's label through the browser's locale data; here it is a parameter.
 */
module ForecastGrouping {

  datatype ForecastMain = ForecastMain(temp: real, tempMin: real, tempMax: real, humidity: real)
  datatype ForecastCondition = ForecastCondition(id: int, main: string, description: string, icon: string)
  datatype ForecastWind = ForecastWind(speed: real, deg: real)

  /** One three-hourly forecast entry; `dt` is in seconds. */
  datatype ForecastData = ForecastData(
    dt: int,
    main: ForecastMain,
    weather: seq<ForecastCondition>,
    wind: ForecastWind,
    visibility: real,
    dtText: string)

  type Groups = map<string, seq<ForecastData>>

  /** The labels of the days the entries fall on. */
  ghost function Days(forecast: seq<ForecastData>, formatDay: int -> string): set<string>
  {
    set i | 0 <= i < |forecast| :: formatDay(forecast[i].dt)
  }

  /** The entries that fall on `day`, in input order. */
  ghost function ItemsOn(forecast: seq<ForecastData>, formatDay: int -> string, day: string): seq<ForecastData>
  {
    if forecast == [] then []
    else
      var last := forecast[|forecast| - 1];
      ItemsOn(forecast[..|forecast| - 1], formatDay, day) + (if formatDay(last.dt) == day then [last] else [])
  }

  /** The grouping the function is meant to build: one entry per day that occurs. */
  ghost function GroupByDay(forecast: seq<ForecastData>, formatDay: int -> string): Groups
  {
    map day | day in Days(forecast, formatDay) :: ItemsOn(forecast, formatDay, day)
  }

  /** `groupForecastByDay`: the `forEach` loop that creates a list per new day and pushes onto it. */
  method GroupForecastByDay(forecast: seq<ForecastData>, formatDay: int -> string) returns (grouped: Groups)
    ensures grouped.Keys == Days(forecast, formatDay)
    ensures forall day :: day in grouped ==> grouped[day] == ItemsOn(forecast, formatDay, day)
    ensures grouped == GroupByDay(forecast, formatDay)
    ensures forecast == [] ==> grouped == map[]
  {
    grouped := map[];
    for i := 0 to |forecast|
      invariant grouped.Keys == Days(forecast[..i], formatDay)
      invariant forall day :: day in grouped ==> grouped[day] == ItemsOn(forecast[..i], formatDay, day)
    {
      var item := forecast[i];
      var date := formatDay(item.dt);
      assert forecast[..i + 1][..i] == forecast[..i] && forecast[..i + 1][i] == item;
      if date !in grouped {
        NoItemsOnAbsentDay(forecast[..i], formatDay, date);
        grouped := grouped[date := []];
      }
      grouped := grouped[date := grouped[date] + [item]];
      assert Days(forecast[..i + 1], formatDay) == Days(forecast[..i], formatDay) + {date};
    }
    assert forecast[..|forecast|] == forecast;
  }

  lemma {:induction false} NoItemsOnAbsentDay(forecast: seq<ForecastData>, formatDay: int -> string, day: string)
    requires day !in Days(forecast, formatDay)
    ensures ItemsOn(forecast, formatDay, day) == []
    decreases |forecast|
  {
    if forecast != [] {
      var init := forecast[..|forecast| - 1];
      assert Days(init, formatDay) <= Days(forecast, formatDay) by {
        forall d | d in Days(init, formatDay) ensures d in Days(forecast, formatDay) {
          var i :| 0 <= i < |init| && formatDay(init[i].dt) == d;
          assert forecast[i] == init[i];
        }
      }
      NoItemsOnAbsentDay(init, formatDay, day);
    }
  }

  /** An entry is in a day's list exactly when it is an input entry that falls on that day. */
  lemma {:induction false} ItemsOnMembers(forecast: seq<ForecastData>, formatDay: int -> string, day: string, x: ForecastData)
    ensures x in ItemsOn(forecast, formatDay, day) <==> x in forecast && formatDay(x.dt) == day
    decreases |forecast|
  {
    if forecast != [] {
      var init := forecast[..|forecast| - 1];
      ItemsOnMembers(init, formatDay, day, x);
      assert forecast == init + [forecast[|forecast| - 1]];
    }
  }

  /** Every group holds at least one entry: no day label is produced without an entry on it. */
  lemma {:induction false} NoEmptyGroups(forecast: seq<ForecastData>, formatDay: int -> string, day: string)
    requires day in GroupByDay(forecast, formatDay)
    ensures |GroupByDay(forecast, formatDay)[day]| > 0
  {
    var i :| 0 <= i < |forecast| && formatDay(forecast[i].dt) == day;
    ItemsOnMembers(forecast, formatDay, day, forecast[i]);
  }

  /** The number of entries over all groups. */
  ghost function TotalSize(groups: Groups): nat
    decreases |groups|
  {
    if groups == map[] then 0
    else
      var k :| k in groups;
      |groups[k]| + TotalSize(groups - {k})
  }

  lemma {:induction false} TotalSizeRemove(groups: Groups, k: string)
    requires k in groups
    ensures TotalSize(groups) == |groups[k]| + TotalSize(groups - {k})
    decreases |groups|
  {
    var j :| j in groups && TotalSize(groups) == |groups[j]| + TotalSize(groups - {j});
    if j != k {
      TotalSizeRemove(groups - {j}, k);
      TotalSizeRemove(groups - {k}, j);
      assert groups - {j} - {k} == groups - {k} - {j};
    }
  }

  /** Grouping neither drops nor duplicates an entry: the groups hold as many entries as the input. */
  lemma {:induction false} GroupedTotal(forecast: seq<ForecastData>, formatDay: int -> string)
    ensures TotalSize(GroupByDay(forecast, formatDay)) == |forecast|
    decreases |forecast|
  {
    if forecast == [] {
      assert GroupByDay(forecast, formatDay) == map[];
    } else {
      var init := forecast[..|forecast| - 1];
      var d := formatDay(forecast[|forecast| - 1].dt);
      GroupedTotal(init, formatDay);
      var before, after := GroupByDay(init, formatDay), GroupByDay(forecast, formatDay);
      AppendStep(forecast, formatDay);
      TotalSizeRemove(after, d);
      if d in before {
        TotalSizeRemove(before, d);
      } else {
        NoItemsOnAbsentDay(init, formatDay, d);
        assert before - {d} == before;
      }
    }
  }

  /** How the grouping changes when one entry is added at the end: only its own day's list grows. */
  lemma AppendStep(forecast: seq<ForecastData>, formatDay: int -> string)
    requires forecast != []
    ensures var init, d := forecast[..|forecast| - 1], formatDay(forecast[|forecast| - 1].dt);
      && d in GroupByDay(forecast, formatDay)
      && GroupByDay(forecast, formatDay)[d] == ItemsOn(init, formatDay, d) + [forecast[|forecast| - 1]]
      && GroupByDay(forecast, formatDay) - {d} == GroupByDay(init, formatDay) - {d}
  {
    var init, d := forecast[..|forecast| - 1], formatDay(forecast[|forecast| - 1].dt);
    var before, after := GroupByDay(init, formatDay), GroupByDay(forecast, formatDay);
    assert Days(forecast, formatDay) == Days(init, formatDay) + {d} by {
      assert forall i :: 0 <= i < |init| ==> forecast[i] == init[i];
    }
    assert (after - {d}).Keys == (before - {d}).Keys;
    forall day | day in after - {d} ensures (after - {d})[day] == (before - {d})[day] {
      assert ItemsOn(forecast, formatDay, day) == ItemsOn(init, formatDay, day) + [];
    }
  }
}
