/** Topic routes: parsing them (internal/config/config.go) and resolving with them (topic_resolver.go). */
module Topics {
  import opened Collections
  import opened Text

  /** What one comma-separated piece contributes: a key and a topic, both non-empty. */
  function Entry(piece: string): Option<(string, string)>
  {
    match Cut(TrimSpace(piece), ':')
    case None => None
    case Some((key, topic)) => if key != "" && topic != "" then Some((key, topic)) else None
  }

  /** The topic of the last piece whose key is `key`. */
  function LastTopic(pieces: seq<string>, key: string): Option<string>
  {
    if pieces == [] then None else
    var last := Entry(pieces[|pieces| - 1]);
    if last.Some? && last.value.0 == key then Some(last.value.1)
    else LastTopic(pieces[..|pieces| - 1], key)
  }

  /** `routes` holds, for every key, the topic of the last valid pair with that key. */
  ghost predicate AreRoutes(routes: map<string, string>, pieces: seq<string>)
  {
    forall key :: (if key in routes then Some(routes[key]) else None) == LastTopic(pieces, key)
  }

  method ParseTopicRoutes(raw: string) returns (routes: map<string, string>)
    ensures AreRoutes(routes, Split(raw, ','))
  {
    routes := map[];
    if raw == "" {
      assert Split(raw, ',') == [""] && [""][..0] == [];
      return;
    }
    var pieces := Split(raw, ',');
    for i := 0 to |pieces|
      invariant AreRoutes(routes, pieces[..i])
    {
      assert pieces[..i + 1][..i] == pieces[..i];
      match Cut(TrimSpace(pieces[i]), ':') {
        case None =>
        case Some((key, topic)) =>
          if key != "" && topic != "" {
            routes := routes[key := topic];
          }
      }
    }
    assert pieces[..|pieces|] == pieces;
  }

  // ----- Resolving -----

  datatype Resolver =
    | Single(topic: string)
    | Prefix(routes: map<string, string>, fallback: string)
  {
    function Resolve(streamId: string): string
    {
      match this
      case Single(topic) => topic
      case Prefix(routes, fallback) =>
        match Cut(streamId, ':')
        case None => fallback
        case Some((domain, _)) => if domain != "" && domain in routes then routes[domain] else fallback
    }

    /** Every topic the resolver may route to, without duplicates. */
    method Topics() returns (topics: seq<string>)
      ensures forall i, j :: 0 <= i < j < |topics| ==> topics[i] != topics[j]
      ensures forall t :: t in topics <==>
                          (if Single? then t == topic else t == fallback || t in routes.Values)
    {
      match this
      case Single(topic) => topics := [topic];
      case Prefix(routes, fallback) =>
        var seen := {fallback};
        topics := [fallback];
        var keys := routes.Keys;
        while keys != {}
          invariant keys <= routes.Keys
          invariant forall t :: t in topics <==> t in seen
          invariant forall i, j :: 0 <= i < j < |topics| ==> topics[i] != topics[j]
          invariant forall t :: t in seen ==> t == fallback || t in routes.Values
          invariant fallback in seen && forall key :: key in routes && key !in keys ==> routes[key] in seen
          decreases keys
        {
          var key :| key in keys;
          keys := keys - {key};
          var t := routes[key];
          if t !in seen {
            seen := seen + {t};
            topics := topics + [t];
          }
        }
    }
  }

  function NewTopicResolver(routes: map<string, string>, topic: string): Resolver
  {
    if |routes| == 0 then Single(topic) else Prefix(routes, topic)
  }

  /** Direct reading of a route string: the last valid pair named by the text before the first colon. */
  function RouteOf(raw: string, topic: string, streamId: string): string
  {
    match Cut(streamId, ':')
    case None => topic
    case Some((domain, _)) =>
      match LastTopic(Split(raw, ','), domain)
      case None => topic
      case Some(t) => t
  }

  lemma {:induction false} LastTopicKeyed(pieces: seq<string>, key: string)
    requires LastTopic(pieces, key).Some?
    ensures key != ""
  {
    var last := Entry(pieces[|pieces| - 1]);
    if !(last.Some? && last.value.0 == key) {
      LastTopicKeyed(pieces[..|pieces| - 1], key);
    }
  }

  /** Parsing then resolving agrees with the direct reading, and stays among the announced topics. */
  lemma ResolveAgrees(raw: string, routes: map<string, string>, topic: string, streamId: string)
    requires AreRoutes(routes, Split(raw, ','))
    ensures NewTopicResolver(routes, topic).Resolve(streamId) == RouteOf(raw, topic, streamId)
    ensures RouteOf(raw, topic, streamId) in {topic} + routes.Values
  {
    var cut := Cut(streamId, ':');
    if cut.Some? {
      var domain := cut.value.0;
      var direct := LastTopic(Split(raw, ','), domain);
      assert (if domain in routes then Some(routes[domain]) else None) == direct;
      if direct.Some? {
        LastTopicKeyed(Split(raw, ','), domain);
        assert routes[domain] in routes.Values;
        assert routes.Keys != {};
      }
    }
  }

  /** Both effects of start-up: the resolver built from the route string, and where it sends a stream. */
  method ResolveConfigured(raw: string, topic: string, streamId: string) returns (chosen: string, topics: seq<string>)
    ensures chosen == RouteOf(raw, topic, streamId)
    ensures chosen in topics
  {
    var routes := ParseTopicRoutes(raw);
    ResolveAgrees(raw, routes, topic, streamId);
    var resolver := NewTopicResolver(routes, topic);
    topics := resolver.Topics();
    chosen := resolver.Resolve(streamId);
  }

  // ----- Round trip -----

  ghost predicate WellFormedRoute(route: (string, string))
  {
    && route.0 != "" && route.1 != ""
    && ',' !in route.0 && ':' !in route.0 && ',' !in route.1
    && !IsSpace(route.0[0]) && !IsSpace(route.1[|route.1| - 1])
  }

  /** The piece writes the route as key:topic, with any space around it. */
  ghost predicate Writes(piece: string, route: (string, string))
  {
    exists left, right :: Blank(left) && Blank(right) && piece == left + (route.0 + [':'] + route.1) + right
  }

  ghost predicate AllWritten(pieces: seq<string>, list: seq<(string, string)>)
  {
    && |pieces| == |list| && (forall i :: 0 <= i < |list| ==> Writes(pieces[i], list[i]))
    && (forall r :: r in list ==> WellFormedRoute(r))
    && forall i, j :: 0 <= i < j < |list| ==> list[i].0 != list[j].0
  }

  lemma EntryOfWritten(piece: string, route: (string, string))
    requires WellFormedRoute(route) && Writes(piece, route)
    ensures Entry(piece) == Some(route)
    ensures ',' !in piece
  {
    var core := route.0 + [':'] + route.1;
    var left, right :| Blank(left) && Blank(right) && piece == left + core + right;
    assert core[0] == route.0[0] && core[|core| - 1] == route.1[|route.1| - 1];
    TrimPadded(left, core, right);
    CutComplete(route.0, ':', route.1);
  }

  lemma {:induction false} WrittenPieces(pieces: seq<string>, list: seq<(string, string)>, key: string)
    requires AllWritten(pieces, list)
    ensures forall p :: p in pieces ==> ',' !in p
    ensures forall r :: r in list && r.0 == key ==> LastTopic(pieces, key) == Some(r.1)
    ensures (forall r :: r in list ==> r.0 != key) ==> LastTopic(pieces, key) == None
  {
    if list != [] {
      var n := |list| - 1;
      WrittenPieces(pieces[..n], list[..n], key);
      EntryOfWritten(pieces[n], list[n]);
      assert pieces == pieces[..n] + [pieces[n]];
      forall r | r in list && r.0 == key ensures LastTopic(pieces, key) == Some(r.1) {
        assert r == list[n] || r in list[..n];
      }
    }
  }

  /** The route string of these pieces; no pieces give the empty string. */
  function RouteString(pieces: seq<string>): string
  {
    if pieces == [] then "" else Join(pieces, ',')
  }

  /** Parsing a written route map, with space around the pairs or not, gives the map back. */
  lemma RoutesRoundTrip(list: seq<(string, string)>, pieces: seq<string>, routes: map<string, string>)
    requires AllWritten(pieces, list) && AreRoutes(routes, Split(RouteString(pieces), ','))
    ensures forall key, t :: key in routes && routes[key] == t <==> (key, t) in list
  {
    if list == [] {
      NoRoutes(routes);
    } else {
      WrittenPieces(pieces, list, "");
      SplitJoin(pieces, ',');
      forall key ensures forall t :: key in routes && routes[key] == t <==> (key, t) in list {
        OneRoute(pieces, list, routes, key);
      }
    }
  }

  lemma OneRoute(pieces: seq<string>, list: seq<(string, string)>, routes: map<string, string>, key: string)
    requires AllWritten(pieces, list)
    requires (if key in routes then Some(routes[key]) else None) == LastTopic(pieces, key)
    ensures forall t :: key in routes && routes[key] == t <==> (key, t) in list
  {
    WrittenPieces(pieces, list, key);
    forall t ensures key in routes && routes[key] == t <==> (key, t) in list {
      if key in routes && routes[key] == t {
        var r :| r in list && r.0 == key;
        assert r == (key, t);
      }
    }
  }

  /**
   * Main result. Under a written route map a stream goes to the topic written for the text before its first
   * colon, and to the default topic if it has no colon or nothing is written for that text.
   */
  lemma RoutedAsWritten(list: seq<(string, string)>, pieces: seq<string>, routes: map<string, string>, topic: string,
                        domain: string, rest: string)
    requires AllWritten(pieces, list) && AreRoutes(routes, Split(RouteString(pieces), ',')) && ':' !in domain
    ensures NewTopicResolver(routes, topic).Resolve(domain) == topic
    ensures forall r :: r in list && r.0 == domain ==>
              NewTopicResolver(routes, topic).Resolve(domain + ":" + rest) == r.1
    ensures (forall r :: r in list ==> r.0 != domain) ==>
              NewTopicResolver(routes, topic).Resolve(domain + ":" + rest) == topic
  {
    RoutesRoundTrip(list, pieces, routes);
    CutSound(domain, ':');
    CutComplete(domain, ':', rest);
    assert domain in routes ==> (domain, routes[domain]) in list;
    assert domain + [':'] + rest == domain + ":" + rest;
    assert domain in routes ==> routes.Keys != {};
  }

  /** "a:x, b:y" routes two domains: the space after the comma is no part of the second. */
  lemma SpacedRoutes(routes: map<string, string>)
    requires AreRoutes(routes, Split("a:x, b:y", ','))
    ensures routes == map["a" := "x", "b" := "y"]
  {
    var list, pieces := [("a", "x"), ("b", "y")], ["a:x", " b:y"];
    TwoWritten();
    TwoJoined("a:x", " b:y");
    assert "a:x" + [','] + " b:y" == "a:x, b:y";
    RoutesRoundTrip(list, pieces, routes);
    SamePairs(routes, map["a" := "x", "b" := "y"], list);
  }

  lemma TwoJoined(a: string, b: string)
    ensures RouteString([a, b]) == a + [','] + b
  {
    assert [a, b][1..] == [b] && Join([b], ',') == b;
    assert Join([a, b], ',') == a + [','] + Join([b], ',');
  }

  lemma TwoWritten()
    ensures AllWritten(["a:x", " b:y"], [("a", "x"), ("b", "y")])
  {
    WritesSpaced("", ("a", "x"), "");
    WritesSpaced(" ", ("b", "y"), "");
    assert "" + ("a" + [':'] + "x") + "" == "a:x" && " " + ("b" + [':'] + "y") + "" == " b:y";
  }

  lemma WritesSpaced(left: string, route: (string, string), right: string)
    requires Blank(left) && Blank(right)
    ensures Writes(left + (route.0 + [':'] + route.1) + right, route)
  {}

  lemma SamePairs(a: map<string, string>, b: map<string, string>, list: seq<(string, string)>)
    requires forall key, t :: key in a && a[key] == t <==> (key, t) in list
    requires forall key, t :: key in b && b[key] == t <==> (key, t) in list
    ensures a == b
  {
    forall key | key in a ensures key in b && b[key] == a[key] {
      assert (key, a[key]) in list;
    }
    forall key | key in b ensures key in a {
      assert (key, b[key]) in list;
    }
  }

  /** The empty string has no valid pair. */
  lemma NoRoutes(routes: map<string, string>)
    requires AreRoutes(routes, Split("", ','))
    ensures routes == map[]
  {
    forall key ensures key !in routes {
      assert Split("", ',') == [""] && [""][..0] == [] && Entry("") == None;
      assert LastTopic(Split("", ','), key) == None;
    }
  }
}
