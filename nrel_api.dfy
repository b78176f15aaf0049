/**
 * Model of evlens/data/nrel_api.py: the NREL Alternative Fuel Data Center
 * query-URL builders (AFDC._str_list_to_url_component,
 * AFDCStations._build_url, AFDCStationsByRoute._build_url) and the `limit`
 * handling of get_stations / get_stations_near_route. The HTTP calls are
 * left out; `search_distance` is the text str(search_distance) produces.
 */
module NrelApi {
  import opened Wrappers
  import opened Text

  /** A parameter the caller may give as one string or as a list of strings. */
  datatype StrOrList = Str(s: string) | List(items: seq<string>)

  /** `l[0]` on an empty list raises IndexError. */
  datatype NrelError = IndexError

  const StationsBase := "https://developer.nrel.gov/api/alt-fuel-stations/v1.json?"
  const RouteBase := "https://developer.nrel.gov/api/alt-fuel-stations/v1/nearby-route.json?"
  /** The GET URL length above which the route query switches to POST. */
  const MaxGetUrlLength := 2048

  /** AFDC._str_list_to_url_component */
  function UrlComponent(p: StrOrList): (r: Result<string, NrelError>)
    ensures p.Str? ==> r == Success(p.s)
    ensures p.List? ==> (r.Success? <==> |p.items| >= 1)
    ensures p.List? && r.Success? ==> r.value == Join(p.items, ',')
  {
    match p
    case Str(s) => Success(s)
    case List(l) =>
      if |l| > 1 then Success(Join(l, ','))
      else if |l| == 1 then Success(l[0])
      else Failure(IndexError)
  }

  /** The list given to the URL can be read back from it when no item contains a comma. */
  lemma UrlComponentRecoversList(items: seq<string>)
    requires |items| >= 1
    requires forall i :: 0 <= i < |items| ==> ',' !in items[i]
    ensures UrlComponent(List(items)).Success?
    ensures SplitOn(UrlComponent(List(items)).value, ',') == items
  {
    SplitJoin(items, ',');
  }

  // ----- Reference query-string codec -----

  /** "k1=v1", "k2=v2", ... */
  function Segments(pairs: seq<(string, string)>): (segs: seq<string>)
    ensures |segs| == |pairs|
    ensures forall i :: 0 <= i < |pairs| ==> segs[i] == pairs[i].0 + "=" + pairs[i].1
  {
    if |pairs| == 0 then [] else [pairs[0].0 + "=" + pairs[0].1] + Segments(pairs[1..])
  }

  /** "k1=v1&k2=v2&..." */
  function EncodeQuery(pairs: seq<(string, string)>): string {
    Join(Segments(pairs), '&')
  }

  function ParsePairs(segs: seq<string>): (pairs: seq<(string, string)>)
    ensures |pairs| == |segs|
  {
    if |segs| == 0 then [] else [SplitFirst(segs[0], '=')] + ParsePairs(segs[1..])
  }

  /** Split a query string on '&', then each parameter on its first '='. */
  function DecodeQuery(q: string): seq<(string, string)> {
    ParsePairs(SplitOn(q, '&'))
  }

  /** Keys free of '&' and '=', values free of '&'. */
  ghost predicate Encodable(pairs: seq<(string, string)>) {
    forall i :: 0 <= i < |pairs| ==> '&' !in pairs[i].0 && '=' !in pairs[i].0 && '&' !in pairs[i].1
  }

  lemma {:induction false} SegmentsFreeOfAmp(pairs: seq<(string, string)>)
    requires Encodable(pairs)
    ensures forall i :: 0 <= i < |pairs| ==> '&' !in Segments(pairs)[i]
    ensures ParsePairs(Segments(pairs)) == pairs
  {
    if |pairs| > 0 {
      SegmentsFreeOfAmp(pairs[1..]);
      var s := pairs[0].0 + "=" + pairs[0].1;
      assert s == pairs[0].0 + ['='] + pairs[0].1;
      SplitFirstAt(pairs[0].0, '=', pairs[0].1);
      assert '&' !in s by {
        forall i | 0 <= i < |s| ensures s[i] != '&' {
          if i < |pairs[0].0| { assert s[i] == pairs[0].0[i]; }
          else if i > |pairs[0].0| { assert s[i] == pairs[0].1[i - |pairs[0].0| - 1]; }
        }
      }
      assert [pairs[0]] + pairs[1..] == pairs;
    }
  }

  /** Encoding followed by decoding gives back the parameters in order. */
  lemma QueryRoundTrip(pairs: seq<(string, string)>)
    requires |pairs| >= 1 && Encodable(pairs)
    ensures DecodeQuery(EncodeQuery(pairs)) == pairs
  {
    SegmentsFreeOfAmp(pairs);
    SplitJoin(Segments(pairs), '&');
  }

  // ----- AFDCStations -----

  /** No list parameter is empty, so every UrlComponent call returns. */
  predicate ComponentsValid(status: StrOrList, fuelType: StrOrList, evChargingLevel: StrOrList, evConnectorType: StrOrList) {
    UrlComponent(status).Success? && UrlComponent(fuelType).Success? &&
    UrlComponent(evChargingLevel).Success? && UrlComponent(evConnectorType).Success?
  }

  /** AFDCStations._build_url */
  function StationsUrl(status: StrOrList, access: string, fuelType: StrOrList,
                       evChargingLevel: StrOrList, evConnectorType: StrOrList): (r: Result<string, NrelError>)
    ensures r.Success? <==> ComponentsValid(status, fuelType, evChargingLevel, evConnectorType)
    ensures r.Success? ==> |StationsBase| <= |r.value| && r.value[..|StationsBase|] == StationsBase
  {
    var s :- UrlComponent(status);
    var f :- UrlComponent(fuelType);
    var l :- UrlComponent(evChargingLevel);
    var c :- UrlComponent(evConnectorType);
    Success(StationsBase
      + "status=" + s
      + "&access=" + access
      + "&fuel_type=" + f
      + "&ev_charging_level=" + l
      + "&ev_connector_type=" + c)
  }

  /** The five query parameters of the all-stations endpoint, in the order the URL lists them. */
  function StationsParams(s: string, access: string, f: string, l: string, c: string): seq<(string, string)> {
    [("status", s), ("access", access), ("fuel_type", f), ("ev_charging_level", l), ("ev_connector_type", c)]
  }

  ghost predicate AmpFree(s: string) { '&' !in s }

  /** A query of one parameter is "key=value". */
  lemma EncodeQuerySingle(k: string, v: string)
    ensures EncodeQuery([(k, v)]) == k + "=" + v
  {
    assert Segments([(k, v)]) == [k + "=" + v];
  }

  /** Appending "&key=value" to an encoded query encodes one more parameter. */
  lemma ExtendQuery(pre: string, pairs: seq<(string, string)>, acc: string, lit: string, k: string, v: string)
    requires |pairs| >= 1 && acc == pre + EncodeQuery(pairs)
    requires lit == "&" + k + "="
    ensures acc + lit + v == pre + EncodeQuery(pairs + [(k, v)])
  {
    SegmentsAppend(pairs, (k, v));
    JoinAppend(Segments(pairs), k + "=" + v, '&');
  }

  /**
   * A left-nested concatenation `pre + "k1=" + v1 + "&k2=" + v2 + ...`, with each
   * literal given as a parameter, is `pre` followed by the encoded query.
   */
  lemma QueryShape5(pre: string, l1: string, l2: string, l3: string, l4: string, l5: string,
                    ps: seq<(string, string)>)
    requires |ps| == 5
    requires l1 == ps[0].0 + "=" && l2 == "&" + ps[1].0 + "=" && l3 == "&" + ps[2].0 + "="
    requires l4 == "&" + ps[3].0 + "=" && l5 == "&" + ps[4].0 + "="
    ensures pre + l1 + ps[0].1 + l2 + ps[1].1 + l3 + ps[2].1 + l4 + ps[3].1 + l5 + ps[4].1
         == pre + EncodeQuery(ps)
  {
    var u1 := pre + l1 + ps[0].1;
    assert u1 == pre + EncodeQuery(ps[..1]) by { EncodeQuerySingle(ps[0].0, ps[0].1); assert ps[..1] == [ps[0]]; }
    var u2 := u1 + l2 + ps[1].1;
    assert u2 == pre + EncodeQuery(ps[..2]) by {
      assert ps[..1] + [ps[1]] == ps[..2];
      ExtendQuery(pre, ps[..1], u1, l2, ps[1].0, ps[1].1);
    }
    var u3 := u2 + l3 + ps[2].1;
    assert u3 == pre + EncodeQuery(ps[..3]) by {
      assert ps[..2] + [ps[2]] == ps[..3];
      ExtendQuery(pre, ps[..2], u2, l3, ps[2].0, ps[2].1);
    }
    var u4 := u3 + l4 + ps[3].1;
    assert u4 == pre + EncodeQuery(ps[..4]) by {
      assert ps[..3] + [ps[3]] == ps[..4];
      ExtendQuery(pre, ps[..3], u3, l4, ps[3].0, ps[3].1);
    }
    assert ps[..4] + [ps[4]] == ps;
    ExtendQuery(pre, ps[..4], u4, l5, ps[4].0, ps[4].1);
  }

  /** The five query parameters of StationsUrl, with the list parameters already joined. */
  function StationsQuery(status: StrOrList, access: string, fuelType: StrOrList,
                         evChargingLevel: StrOrList, evConnectorType: StrOrList): seq<(string, string)>
    requires ComponentsValid(status, fuelType, evChargingLevel, evConnectorType)
  {
    StationsParams(UrlComponent(status).value, access, UrlComponent(fuelType).value,
                   UrlComponent(evChargingLevel).value, UrlComponent(evConnectorType).value)
  }

  /** Each literal StationsUrl writes before a value is "&" (none for the first), the key, then "=". */
  lemma StationsLiterals()
    ensures "status=" == "status" + "=" && "&access=" == "&" + "access" + "="
    ensures "&fuel_type=" == "&" + "fuel_type" + "=" && "&ev_charging_level=" == "&" + "ev_charging_level" + "="
    ensures "&ev_connector_type=" == "&" + "ev_connector_type" + "="
  {
  }

  /** The all-stations URL is the base followed by exactly the five parameters, in a fixed order. */
  lemma StationsUrlShape(status: StrOrList, access: string, fuelType: StrOrList,
                         evChargingLevel: StrOrList, evConnectorType: StrOrList)
    requires ComponentsValid(status, fuelType, evChargingLevel, evConnectorType)
    ensures StationsUrl(status, access, fuelType, evChargingLevel, evConnectorType)
         == Success(StationsBase + EncodeQuery(StationsQuery(status, access, fuelType, evChargingLevel, evConnectorType)))
  {
    var ps := StationsQuery(status, access, fuelType, evChargingLevel, evConnectorType);
    StationsLiterals();
    QueryShape5(StationsBase, "status=", "&access=", "&fuel_type=", "&ev_charging_level=", "&ev_connector_type=", ps);
  }

  /** The all-stations endpoint's keys contain neither '&' nor '='. */
  lemma StationsKeysEncodable(ps: seq<(string, string)>)
    requires |ps| == 5 && ps[0].0 == "status" && ps[1].0 == "access" && ps[2].0 == "fuel_type"
    requires ps[3].0 == "ev_charging_level" && ps[4].0 == "ev_connector_type"
    requires forall i :: 0 <= i < |ps| ==> AmpFree(ps[i].1)
    ensures Encodable(ps)
  {
  }

  lemma DropPrefix(pre: string, q: string)
    ensures (pre + q)[|pre|..] == q
  {
  }

  /** Reading the URL's query back gives the five parameters, when no value contains '&'. */
  lemma StationsUrlDecodes(status: StrOrList, access: string, fuelType: StrOrList,
                           evChargingLevel: StrOrList, evConnectorType: StrOrList)
    requires ComponentsValid(status, fuelType, evChargingLevel, evConnectorType)
    requires var ps := StationsQuery(status, access, fuelType, evChargingLevel, evConnectorType);
      forall i :: 0 <= i < |ps| ==> AmpFree(ps[i].1)
    ensures var url := StationsUrl(status, access, fuelType, evChargingLevel, evConnectorType).value;
      DecodeQuery(url[|StationsBase|..]) == StationsQuery(status, access, fuelType, evChargingLevel, evConnectorType)
  {
    var ps := StationsQuery(status, access, fuelType, evChargingLevel, evConnectorType);
    StationsUrlShape(status, access, fuelType, evChargingLevel, evConnectorType);
    StationsKeysEncodable(ps);
    DropPrefix(StationsBase, EncodeQuery(ps));
    QueryRoundTrip(ps);
  }

  /** A non-int or non-positive `limit` is ignored; None stands for Python's None. */
  predicate ValidLimit(limit: Option<int>) {
    limit.Some? && limit.value > 0
  }

  /** `url += "&limit=" + str(limit)` when the limit applies. */
  function WithLimit(url: string, limit: Option<int>): (r: string)
    ensures !ValidLimit(limit) ==> r == url
    ensures ValidLimit(limit) ==> |r| == |url| + 7 + |Decimal(limit.value)| && r[..|url|] == url
  {
    if ValidLimit(limit) then url + "&limit=" + Decimal(limit.value) else url
  }

  /** The URL get_stations requests. */
  function GetStationsUrl(status: StrOrList, access: string, fuelType: StrOrList,
                          evChargingLevel: StrOrList, evConnectorType: StrOrList,
                          limit: Option<int>): (r: Result<string, NrelError>)
    ensures r.Success? <==> StationsUrl(status, access, fuelType, evChargingLevel, evConnectorType).Success?
    ensures r.Success? ==> r.value == WithLimit(StationsUrl(status, access, fuelType, evChargingLevel, evConnectorType).value, limit)
  {
    var url :- StationsUrl(status, access, fuelType, evChargingLevel, evConnectorType);
    Success(WithLimit(url, limit))
  }

  /** get_stations' URL reads back as the five parameters, followed by the limit when one applies. */
  lemma GetStationsUrlDecodes(status: StrOrList, access: string, fuelType: StrOrList,
                              evChargingLevel: StrOrList, evConnectorType: StrOrList, limit: Option<int>)
    requires ComponentsValid(status, fuelType, evChargingLevel, evConnectorType)
    requires var ps := StationsQuery(status, access, fuelType, evChargingLevel, evConnectorType);
      forall i :: 0 <= i < |ps| ==> AmpFree(ps[i].1)
    ensures var r := GetStationsUrl(status, access, fuelType, evChargingLevel, evConnectorType, limit);
      var ps := StationsQuery(status, access, fuelType, evChargingLevel, evConnectorType);
      r.Success? && |StationsBase| <= |r.value| && r.value[..|StationsBase|] == StationsBase &&
      DecodeQuery(r.value[|StationsBase|..]) == ps + (if ValidLimit(limit) then [("limit", Decimal(limit.value))] else [])
  {
    var ps := StationsQuery(status, access, fuelType, evChargingLevel, evConnectorType);
    var q := EncodeQuery(ps);
    StationsUrlShape(status, access, fuelType, evChargingLevel, evConnectorType);
    StationsKeysEncodable(ps);
    WithLimitPrefix(StationsBase, q, limit);
    DropPrefix(StationsBase, WithLimit(q, limit));
    WithLimitDecodes(StationsBase, ps, limit);
    if !ValidLimit(limit) {
      assert ps + [] == ps;
    }
  }

  /** Appending the limit adds one last parameter, which reads back as the limit's value. */
  lemma WithLimitDecodes(base: string, pairs: seq<(string, string)>, limit: Option<int>)
    requires |pairs| >= 1 && Encodable(pairs)
    ensures var q := WithLimit(EncodeQuery(pairs), limit);
      if ValidLimit(limit) then
        DecodeQuery(q) == pairs + [("limit", Decimal(limit.value))] &&
        DigitsValue(DecodeQuery(q)[|pairs|].1) == limit.value
      else DecodeQuery(q) == pairs
  {
    if ValidLimit(limit) {
      var all := pairs + [("limit", Decimal(limit.value))];
      assert Encodable(all) by {
        forall i | 0 <= i < |all| ensures '&' !in all[i].0 && '=' !in all[i].0 && '&' !in all[i].1 {
          if i == |pairs| {
            var d := Decimal(limit.value);
            assert forall j :: 0 <= j < |d| ==> d[j] != '&' by { assert AllDigits(d); }
          }
        }
      }
      ExtendQuery("", pairs, "" + EncodeQuery(pairs), "&limit=", "limit", Decimal(limit.value));
      assert "" + EncodeQuery(pairs) == EncodeQuery(pairs) && "" + EncodeQuery(all) == EncodeQuery(all);
      assert WithLimit(EncodeQuery(pairs), limit) == EncodeQuery(all);
      QueryRoundTrip(all);
      DecimalRoundTrip(limit.value);
    } else {
      QueryRoundTrip(pairs);
    }
  }

  lemma {:induction false} SegmentsAppend(pairs: seq<(string, string)>, last: (string, string))
    ensures Segments(pairs + [last]) == Segments(pairs) + [last.0 + "=" + last.1]
  {
    if |pairs| > 0 {
      assert (pairs + [last])[1..] == pairs[1..] + [last];
      SegmentsAppend(pairs[1..], last);
    }
  }

  lemma {:induction false} JoinAppend(parts: seq<string>, last: string, sep: char)
    requires |parts| >= 1
    ensures Join(parts + [last], sep) == Join(parts, sep) + [sep] + last
  {
    if |parts| == 1 {
      assert (parts + [last])[1..] == [last];
    } else {
      assert (parts + [last])[1..] == parts[1..] + [last];
      JoinAppend(parts[1..], last, sep);
    }
  }

  /** The default charging levels and connector types, joined with commas. */
  lemma DefaultLists()
    ensures Join(["3", "dc_fast"], ',') == "3,dc_fast"
    ensures Join(["J1772COMBO", "CHADEMO", "TESLA"], ',') == "J1772COMBO,CHADEMO,TESLA"
  {
    var levels := ["3", "dc_fast"];
    assert Join(levels[1..], ',') == "dc_fast";
    assert Join(levels, ',') == "3" + [','] + "dc_fast" == "3,dc_fast";
    var connectors := ["J1772COMBO", "CHADEMO", "TESLA"];
    assert Join(connectors[2..], ',') == "TESLA";
    assert connectors[1..][1..] == connectors[2..];
    assert Join(connectors[1..], ',') == "CHADEMO" + [','] + "TESLA" == "CHADEMO,TESLA";
    assert Join(connectors, ',') == "J1772COMBO" + [','] + "CHADEMO,TESLA" == "J1772COMBO,CHADEMO,TESLA";
  }

  /** get_stations with every default argument queries these five parameters. */
  lemma DefaultStationsUrl()
    ensures GetStationsUrl(Str("E"), "public", Str("ELEC"), List(["3", "dc_fast"]),
                           List(["J1772COMBO", "CHADEMO", "TESLA"]), None)
         == Success(StationsBase + EncodeQuery([("status", "E"), ("access", "public"), ("fuel_type", "ELEC"),
                                               ("ev_charging_level", "3,dc_fast"),
                                               ("ev_connector_type", "J1772COMBO,CHADEMO,TESLA")]))
  {
    DefaultLists();
    StationsUrlShape(Str("E"), "public", Str("ELEC"), List(["3", "dc_fast"]), List(["J1772COMBO", "CHADEMO", "TESLA"]));
  }

  // ----- AFDCStationsByRoute -----

  /** The GET URL AFDCStationsByRoute._build_url assembles; `distance` is str(search_distance). */
  function RouteGetUrl(route: string, distance: string, status: StrOrList, access: string, fuelType: StrOrList,
                       evChargingLevel: StrOrList, evConnectorType: StrOrList): (r: Result<string, NrelError>)
    ensures r.Success? <==> ComponentsValid(status, fuelType, evChargingLevel, evConnectorType)
    ensures r.Success? ==> |RouteBase| <= |r.value| && r.value[..|RouteBase|] == RouteBase
  {
    var s :- UrlComponent(status);
    var f :- UrlComponent(fuelType);
    var l :- UrlComponent(evChargingLevel);
    var c :- UrlComponent(evConnectorType);
    Success(RouteBase
      + "route=" + route
      + "&distance=" + distance
      + "&status=" + s
      + "&access=" + access
      + "&fuel_type=" + f
      + "&ev_charging_level=" + l
      + "&ev_connector_type=" + c)
  }

  /** The seven query parameters of the route endpoint, in the order the URL lists them. */
  function RouteParams(route: string, distance: string, s: string, access: string, f: string, l: string, c: string)
    : seq<(string, string)>
  {
    [("route", route), ("distance", distance), ("status", s), ("access", access),
     ("fuel_type", f), ("ev_charging_level", l), ("ev_connector_type", c)]
  }

  /** The seven query parameters of RouteGetUrl, with the list parameters already joined. */
  function RouteQuery(route: string, distance: string, status: StrOrList, access: string, fuelType: StrOrList,
                      evChargingLevel: StrOrList, evConnectorType: StrOrList): seq<(string, string)>
    requires ComponentsValid(status, fuelType, evChargingLevel, evConnectorType)
  {
    RouteParams(route, distance, UrlComponent(status).value, access, UrlComponent(fuelType).value,
                UrlComponent(evChargingLevel).value, UrlComponent(evConnectorType).value)
  }

  /** Each literal RouteGetUrl writes before a value is "&" (none for the first), the key, then "=". */
  lemma RouteLiterals()
    ensures "route=" == "route" + "=" && "&distance=" == "&" + "distance" + "="
    ensures "&status=" == "&" + "status" + "=" && "&access=" == "&" + "access" + "="
    ensures "&fuel_type=" == "&" + "fuel_type" + "="
  {
  }

  /** The first five parameters of the route URL. */
  lemma RouteParamsShape5(route: string, distance: string, s: string, access: string, f: string)
    ensures RouteBase + "route=" + route + "&distance=" + distance + "&status=" + s + "&access=" + access
            + "&fuel_type=" + f
         == RouteBase + EncodeQuery([("route", route), ("distance", distance), ("status", s), ("access", access), ("fuel_type", f)])
  {
    RouteLiterals();
    QueryShape5(RouteBase, "route=", "&distance=", "&status=", "&access=", "&fuel_type=",
                [("route", route), ("distance", distance), ("status", s), ("access", access), ("fuel_type", f)]);
  }

  /** The concatenation RouteGetUrl writes is the base followed by the encoded parameters. */
  lemma RouteParamsShape(route: string, distance: string, s: string, access: string, f: string, l: string, c: string)
    ensures RouteBase + "route=" + route + "&distance=" + distance + "&status=" + s + "&access=" + access
            + "&fuel_type=" + f + "&ev_charging_level=" + l + "&ev_connector_type=" + c
         == RouteBase + EncodeQuery(RouteParams(route, distance, s, access, f, l, c))
  {
    var ps5 := [("route", route), ("distance", distance), ("status", s), ("access", access), ("fuel_type", f)];
    var u5 := RouteBase + "route=" + route + "&distance=" + distance + "&status=" + s + "&access=" + access
      + "&fuel_type=" + f;
    RouteParamsShape5(route, distance, s, access, f);
    var ps6 := ps5 + [("ev_charging_level", l)];
    var u6 := u5 + "&ev_charging_level=" + l;
    ExtendQuery(RouteBase, ps5, u5, "&ev_charging_level=", "ev_charging_level", l);
    assert ps6 + [("ev_connector_type", c)] == RouteParams(route, distance, s, access, f, l, c);
    ExtendQuery(RouteBase, ps6, u6, "&ev_connector_type=", "ev_connector_type", c);
  }

  /** The route GET URL is the base followed by exactly the seven parameters, in a fixed order. */
  lemma RouteUrlShape(route: string, distance: string, status: StrOrList, access: string, fuelType: StrOrList,
                      evChargingLevel: StrOrList, evConnectorType: StrOrList)
    requires ComponentsValid(status, fuelType, evChargingLevel, evConnectorType)
    ensures RouteGetUrl(route, distance, status, access, fuelType, evChargingLevel, evConnectorType)
         == Success(RouteBase + EncodeQuery(RouteQuery(route, distance, status, access, fuelType, evChargingLevel, evConnectorType)))
  {
    RouteParamsShape(route, distance, UrlComponent(status).value, access, UrlComponent(fuelType).value,
                     UrlComponent(evChargingLevel).value, UrlComponent(evConnectorType).value);
  }

  /** The body of the POST request: the caller's raw arguments, plus `limit` once one is added. */
  datatype PostData = PostData(route: string, distance: string, status: StrOrList, access: string,
                               fuelType: StrOrList, evChargingLevel: StrOrList, evConnectorType: StrOrList,
                               limit: Option<int>)

  /** The URL to request, and the POST body when the request is a POST. */
  datatype RouteRequest = RouteRequest(url: string, post: Option<PostData>)

  /** AFDCStationsByRoute._build_url: a GET URL, or the bare base URL and a POST body when the GET URL is too long. */
  function BuildRouteRequest(route: string, distance: string, status: StrOrList, access: string, fuelType: StrOrList,
                             evChargingLevel: StrOrList, evConnectorType: StrOrList): (r: Result<RouteRequest, NrelError>)
    ensures r.Success? <==> ComponentsValid(status, fuelType, evChargingLevel, evConnectorType)
    ensures r.Success? && r.value.post.None? ==> |r.value.url| <= MaxGetUrlLength
    ensures r.Success? ==> var get := RouteGetUrl(route, distance, status, access, fuelType, evChargingLevel, evConnectorType).value;
      if |get| > MaxGetUrlLength then
        r.value == RouteRequest(RouteBase, Some(PostData(route, distance, status, access, fuelType,
                                                         evChargingLevel, evConnectorType, None)))
      else r.value == RouteRequest(get, None)
  {
    var url :- RouteGetUrl(route, distance, status, access, fuelType, evChargingLevel, evConnectorType);
    if |url| > MaxGetUrlLength then
      Success(RouteRequest(RouteBase, Some(PostData(route, distance, status, access, fuelType,
                                                    evChargingLevel, evConnectorType, None))))
    else Success(RouteRequest(url, None))
  }

  /** The limit step of get_stations_near_route: appended to a GET URL, or put in the POST body. */
  function RouteWithLimit(req: RouteRequest, limit: Option<int>): (r: RouteRequest)
    ensures !ValidLimit(limit) ==> r == req
    ensures r.post.None? <==> req.post.None?
    ensures req.post.None? ==> r.url == WithLimit(req.url, limit)
    ensures req.post.Some? ==> (r.url == req.url &&
      r.post.value == req.post.value.(limit := if ValidLimit(limit) then limit else req.post.value.limit))
  {
    if ValidLimit(limit) then
      if req.post.None? then RouteRequest(WithLimit(req.url, limit), None)
      else RouteRequest(req.url, Some(req.post.value.(limit := limit)))
    else req
  }

  /** The request get_stations_near_route sends, as written. */
  function StationsNearRouteRequest(route: string, distance: string, status: StrOrList, access: string,
                                    fuelType: StrOrList, evChargingLevel: StrOrList, evConnectorType: StrOrList,
                                    limit: Option<int>): (r: Result<RouteRequest, NrelError>)
    ensures r.Success? <==> ComponentsValid(status, fuelType, evChargingLevel, evConnectorType)
  {
    var req :- BuildRouteRequest(route, distance, status, access, fuelType, evChargingLevel, evConnectorType);
    Success(RouteWithLimit(req, limit))
  }

  /** The route endpoint's keys contain neither '&' nor '='. */
  lemma RouteKeysEncodable(ps: seq<(string, string)>)
    requires |ps| == 7 && ps[0].0 == "route" && ps[1].0 == "distance" && ps[2].0 == "status" && ps[3].0 == "access"
    requires ps[4].0 == "fuel_type" && ps[5].0 == "ev_charging_level" && ps[6].0 == "ev_connector_type"
    requires forall i :: 0 <= i < |ps| ==> AmpFree(ps[i].1)
    ensures Encodable(ps)
  {
  }

  /** A POST request carries the caller's raw arguments and the valid limit, and goes to the bare base URL. */
  lemma NearRoutePostCarriesArguments(route: string, distance: string, status: StrOrList, access: string,
                                      fuelType: StrOrList, evChargingLevel: StrOrList, evConnectorType: StrOrList,
                                      limit: Option<int>)
    requires ComponentsValid(status, fuelType, evChargingLevel, evConnectorType)
    requires |RouteGetUrl(route, distance, status, access, fuelType, evChargingLevel, evConnectorType).value| > MaxGetUrlLength
    ensures StationsNearRouteRequest(route, distance, status, access, fuelType, evChargingLevel, evConnectorType, limit)
         == Success(RouteRequest(RouteBase, Some(PostData(route, distance, status, access, fuelType, evChargingLevel,
                                                          evConnectorType, if ValidLimit(limit) then limit else None))))
  {
  }

  /** A GET request reads back as the seven parameters, followed by the limit when one applies. */
  lemma NearRouteGetDecodes(route: string, distance: string, status: StrOrList, access: string,
                            fuelType: StrOrList, evChargingLevel: StrOrList, evConnectorType: StrOrList,
                            limit: Option<int>)
    requires ComponentsValid(status, fuelType, evChargingLevel, evConnectorType)
    requires |RouteGetUrl(route, distance, status, access, fuelType, evChargingLevel, evConnectorType).value| <= MaxGetUrlLength
    requires var ps := RouteQuery(route, distance, status, access, fuelType, evChargingLevel, evConnectorType);
      forall i :: 0 <= i < |ps| ==> AmpFree(ps[i].1)
    ensures var r := StationsNearRouteRequest(route, distance, status, access, fuelType, evChargingLevel, evConnectorType, limit);
      var ps := RouteQuery(route, distance, status, access, fuelType, evChargingLevel, evConnectorType);
      r.Success? && r.value.post.None? && |RouteBase| <= |r.value.url| &&
      r.value.url[..|RouteBase|] == RouteBase &&
      DecodeQuery(r.value.url[|RouteBase|..]) == ps + (if ValidLimit(limit) then [("limit", Decimal(limit.value))] else [])
  {
    var ps := RouteQuery(route, distance, status, access, fuelType, evChargingLevel, evConnectorType);
    var q := EncodeQuery(ps);
    NearRouteGetRequest(route, distance, status, access, fuelType, evChargingLevel, evConnectorType, limit);
    RouteKeysEncodable(ps);
    WithLimitPrefix(RouteBase, q, limit);
    DropPrefix(RouteBase, WithLimit(q, limit));
    WithLimitDecodes(RouteBase, ps, limit);
    if !ValidLimit(limit) {
      assert ps + [] == ps;
    }
  }

  /** Within the GET limit, the request is the encoded route query with the limit appended. */
  lemma NearRouteGetRequest(route: string, distance: string, status: StrOrList, access: string,
                            fuelType: StrOrList, evChargingLevel: StrOrList, evConnectorType: StrOrList,
                            limit: Option<int>)
    requires ComponentsValid(status, fuelType, evChargingLevel, evConnectorType)
    requires |RouteGetUrl(route, distance, status, access, fuelType, evChargingLevel, evConnectorType).value| <= MaxGetUrlLength
    ensures StationsNearRouteRequest(route, distance, status, access, fuelType, evChargingLevel, evConnectorType, limit)
         == Success(RouteRequest(WithLimit(RouteBase + EncodeQuery(RouteQuery(route, distance, status, access, fuelType,
                                                                              evChargingLevel, evConnectorType)), limit), None))
  {
    RouteUrlShape(route, distance, status, access, fuelType, evChargingLevel, evConnectorType);
  }

  lemma WithLimitPrefix(pre: string, q: string, limit: Option<int>)
    ensures WithLimit(pre + q, limit) == pre + WithLimit(q, limit)
  {
  }

  // ----- The GET length check runs before the limit is appended -----

  /**
   * A route of 1851 characters makes the GET URL exactly 2048 characters long, so
   * _build_url keeps GET; get_stations_near_route then appends "&limit=100" and
   * requests a 2058-character GET URL.
   */
  lemma NearRouteGetUrlOverLimit()
    ensures var r := StationsNearRouteRequest(seq(1851, _ => 'x'), "10", Str("E"), "public", Str("ELEC"),
                                              Str("3,dc_fast"), Str("J1772COMBO,CHADEMO,TESLA"), Some(100));
      r.Success? && r.value.post.None? && |r.value.url| == 2058 > MaxGetUrlLength
  {
    var route := seq(1851, _ => 'x');
    var get := RouteGetUrl(route, "10", Str("E"), "public", Str("ELEC"), Str("3,dc_fast"),
                           Str("J1772COMBO,CHADEMO,TESLA"));
    assert |get.value| == 2048;
    assert Decimal(100) == "100" by {
      assert Decimal(10) == "10" by { assert Decimal(1) == "1"; }
    }
  }

  /** get_stations_near_route with the length check made after the limit is appended. */
  function StationsNearRouteRequestChecked(route: string, distance: string, status: StrOrList, access: string,
                                           fuelType: StrOrList, evChargingLevel: StrOrList, evConnectorType: StrOrList,
                                           limit: Option<int>): (r: Result<RouteRequest, NrelError>)
    ensures r.Success? <==> ComponentsValid(status, fuelType, evChargingLevel, evConnectorType)
    ensures r.Success? && r.value.post.None? ==> |r.value.url| <= MaxGetUrlLength
    ensures r.Success? && r.value.post.Some? ==>
      r.value == RouteRequest(RouteBase, Some(PostData(route, distance, status, access, fuelType, evChargingLevel,
                                                       evConnectorType, if ValidLimit(limit) then limit else None)))
  {
    var get :- RouteGetUrl(route, distance, status, access, fuelType, evChargingLevel, evConnectorType);
    var full := WithLimit(get, limit);
    if |full| > MaxGetUrlLength then
      Success(RouteRequest(RouteBase, Some(PostData(route, distance, status, access, fuelType, evChargingLevel,
                                                    evConnectorType, if ValidLimit(limit) then limit else None))))
    else Success(RouteRequest(full, None))
  }

  /** Wherever the as-written request stays within the GET limit, the corrected one is the same request. */
  lemma CheckedAgreesWhenWithinLimit(route: string, distance: string, status: StrOrList, access: string,
                                     fuelType: StrOrList, evChargingLevel: StrOrList, evConnectorType: StrOrList,
                                     limit: Option<int>)
    ensures var w := StationsNearRouteRequest(route, distance, status, access, fuelType, evChargingLevel,
                                              evConnectorType, limit);
      w.Success? && (w.value.post.Some? || |w.value.url| <= MaxGetUrlLength) ==>
        StationsNearRouteRequestChecked(route, distance, status, access, fuelType, evChargingLevel,
                                        evConnectorType, limit) == w
  {
  }

  /** The input that breaks the as-written request is sent by POST, limit included, by the corrected one. */
  lemma CheckedOverLimitUsesPost()
    ensures StationsNearRouteRequestChecked(seq(1851, _ => 'x'), "10", Str("E"), "public", Str("ELEC"),
                                            Str("3,dc_fast"), Str("J1772COMBO,CHADEMO,TESLA"), Some(100)).value.post
         == Some(PostData(seq(1851, _ => 'x'), "10", Str("E"), "public", Str("ELEC"),
                          Str("3,dc_fast"), Str("J1772COMBO,CHADEMO,TESLA"), Some(100)))
  {
    var route := seq(1851, _ => 'x');
    var get := RouteGetUrl(route, "10", Str("E"), "public", Str("ELEC"), Str("3,dc_fast"),
                           Str("J1772COMBO,CHADEMO,TESLA"));
    assert |get.value| == 2048;
  }
}
