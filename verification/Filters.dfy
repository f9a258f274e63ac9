/** The time-range and application filter of a search. */
module Filters {
  import opened Prelude

  datatype App = App(name: string, path: Option<string>)

  /** A capture with the applications it is related to. */
  datatype Row = Row(timestamp: i64, apps: set<App>)

  datatype Query = Query(start: Option<i64>, end: Option<i64>, apps: seq<string>)

  /** The application goes by this name or path. */
  predicate Called(a: App, name: string) {
    a.name == name || a.path == Some(name)
  }

  predicate InRange(q: Query, t: i64) {
    && (q.start.Some? ==> t >= q.start.value)
    && (q.end.Some? ==> t <= q.end.value)
  }

  predicate NamedApp(q: Query, a: App) {
    (a.path.Some? && a.path.value in q.apps) || a.name in q.apps
  }

  /** The row passes every filter that is set. */
  predicate Matches(q: Query, r: Row) {
    InRange(q, r.timestamp) && (q.apps != [] ==> exists a :: a in r.apps && NamedApp(q, a))
  }

  /** `None` when no filter is set, otherwise the ids of the matching captures. */
  method CaptureIdsMatchingFilters(rows: map<i64, Row>, q: Query) returns (r: Option<set<i64>>)
    ensures r.None? <==> q.start.None? && q.end.None? && q.apps == []
    ensures r.Some? ==> forall id :: id in r.value <==> id in rows && Matches(q, rows[id])
    ensures r.Some? ==> forall id :: id in r.value <==>
      && id in rows
      && (q.start.Some? ==> q.start.value <= rows[id].timestamp)
      && (q.end.Some? ==> rows[id].timestamp <= q.end.value)
      && (q.apps != [] ==> exists a, name :: a in rows[id].apps && name in q.apps && Called(a, name))
    ensures r.None? ==> forall id :: id in rows ==> Matches(q, rows[id])
  {
    if q.start.None? && q.end.None? && |q.apps| == 0 {
      return None;
    }
    var out: set<i64> := {};
    var rest := rows.Keys;
    while rest != {}
      invariant rest <= rows.Keys
      invariant forall id :: id in out <==> id in rows && id !in rest && Matches(q, rows[id])
      decreases rest
    {
      var id :| id in rest;
      var row := rows[id];
      var keep := InRange(q, row.timestamp);
      if keep && |q.apps| != 0 {
        keep := exists a :: a in row.apps && NamedApp(q, a);
      }
      if keep {
        out := out + {id};
      }
      rest := rest - {id};
    }
    r := Some(out);
    forall a ensures NamedApp(q, a) <==> exists name :: name in q.apps && Called(a, name) {
      if a.name in q.apps { assert Called(a, a.name); }
      if a.path.Some? && a.path.value in q.apps { assert Called(a, a.path.value); }
    }
  }
}
