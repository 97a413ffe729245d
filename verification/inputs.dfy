/**
 Which upload routes a client must repeat (`routes_to_rerun`): each missing
 input that the route table knows names a route, and the answer marks every
 route as needed or not. The table's three parameter names (`IN_LENGTH`,
 `IN_LEAF`, `IN_WIDTHS`) are not defined by `JobFields`, so they are left as
 parameters of the table.
 */
module Inputs {
  import opened JobSchema
  import Dependencies

  const VideoRoute := "video"
  const ParamsRoute := "params"

  /** `ROUTES`, in order. */
  const Routes: seq<string> := [VideoRoute, ParamsRoute]

  /** `PARAMS_TO_ROUTES`, given the names the three parameter inputs go by. */
  function RouteTable(length: string, leaf: string, widths: string): (t: map<string, string>)
    ensures t.Keys == {InVideo, length, leaf, widths}
    ensures t[InVideo] == VideoRoute || InVideo in {length, leaf, widths}
    ensures forall p :: p in t && p != InVideo ==> t[p] == ParamsRoute
  {
    map[InVideo := VideoRoute, length := ParamsRoute, leaf := ParamsRoute, widths := ParamsRoute]
  }

  /** `routes_to_rerun`: for each route, whether some missing input maps to it. */
  function RoutesToRerun(table: map<string, string>, missing: seq<string>): (r: map<string, bool>)
    ensures r.Keys == {VideoRoute, ParamsRoute}
    ensures forall route :: route in r ==>
              (r[route] <==> exists i :: 0 <= i < |missing| && missing[i] in table && table[missing[i]] == route)
  {
    var rerun := set i | 0 <= i < |missing| && missing[i] in table :: table[missing[i]];
    map route | route in Routes :: route in rerun
  }

  /** The answer depends only on which names are missing, not on their order or repetition. */
  lemma OnlyTheSetMatters(table: map<string, string>, a: seq<string>, b: seq<string>)
    requires forall p :: p in a <==> p in b
    ensures RoutesToRerun(table, a) == RoutesToRerun(table, b)
  {
    var ra, rb := RoutesToRerun(table, a), RoutesToRerun(table, b);
    forall route | route in ra ensures ra[route] == rb[route] {
      if ra[route] {
        var i :| 0 <= i < |a| && a[i] in table && table[a[i]] == route;
        assert a[i] in b;
        var j :| 0 <= j < |b| && b[j] == a[i];
      }
      if rb[route] {
        var j :| 0 <= j < |b| && b[j] in table && table[b[j]] == route;
        assert b[j] in a;
        var i :| 0 <= i < |a| && a[i] == b[j];
      }
    }
  }

  /** Names the table does not know are ignored. */
  lemma UnknownIgnored(table: map<string, string>, missing: seq<string>, p: string)
    requires p !in table
    ensures RoutesToRerun(table, missing + [p]) == RoutesToRerun(table, missing)
  {
    var r1, r2 := RoutesToRerun(table, missing + [p]), RoutesToRerun(table, missing);
    forall route | route in r1 ensures r1[route] == r2[route] {
      if r1[route] {
        var i :| 0 <= i < |missing + [p]| && (missing + [p])[i] in table && table[(missing + [p])[i]] == route;
        assert i < |missing| && (missing + [p])[i] == missing[i];
      }
      if r2[route] {
        var i :| 0 <= i < |missing| && missing[i] in table && table[missing[i]] == route;
        assert (missing + [p])[i] == missing[i];
      }
    }
  }

  /** Nothing missing, nothing to rerun. */
  lemma NothingMissing(table: map<string, string>)
    ensures RoutesToRerun(table, []) == map[VideoRoute := false, ParamsRoute := false]
  {
  }

  /**
   `check_dependencies` only ever reports `in_video` and `in_params`, and the
   table does not know `in_params`: whatever the check finds missing, the
   parameters route is never asked for again.
   */
  lemma ParamsRouteNeverRequested(length: string, leaf: string, widths: string, missing: seq<string>)
    requires InVideo !in {length, leaf, widths} && InParams !in {length, leaf, widths}
    requires forall i :: 0 <= i < |missing| ==> Dependencies.Raw(missing[i])
    ensures !RoutesToRerun(RouteTable(length, leaf, widths), missing)[ParamsRoute]
    ensures RoutesToRerun(RouteTable(length, leaf, widths), missing)[VideoRoute] <==> InVideo in missing
  {
    var table := RouteTable(length, leaf, widths);
    var r := RoutesToRerun(table, missing);
    if r[ParamsRoute] {
      var i :| 0 <= i < |missing| && missing[i] in table && table[missing[i]] == ParamsRoute;
    }
    if InVideo in missing {
      var i :| 0 <= i < |missing| && missing[i] == InVideo;
      assert missing[i] in table && table[missing[i]] == VideoRoute;
    }
  }
}
