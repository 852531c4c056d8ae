/**
 * The graph of a media controller device and the depth first search for the
 * ways a sensor's frames can reach a video node
 * (interfaces/camera/mainline/provider/MediaPipeline.cpp).
 */
module MediaGraph {
  import opened Common

  datatype EntityFunction = CamSensor | IoV4l | PixelEncConverter | VideoIsp | OtherFunction

  datatype Entity = Entity(id: nat, name: string, function_: EntityFunction, devnode: string)

  datatype Pad = Pad(id: nat, entity: nat, index: nat, isSource: bool)

  datatype LinkKind = DataLink | InterfaceLink | AncillaryLink

  datatype Link = Link(id: nat, source: nat, sink: nat, kind: LinkKind, enabled: bool, immutable: bool)

  datatype Topology = Topology(entities: seq<Entity>, pads: seq<Pad>, links: seq<Link>)

  /** A path the search accepts has no more links than this. */
  const MAX_DEPTH: nat := 8

  /** First entity with the ID, as MediaTopology::FindEntity. */
  function FindEntity(entities: seq<Entity>, id: nat): (r: Option<Entity>)
    ensures r.Some? ==> r.value in entities && r.value.id == id
  {
    if entities == [] then None
    else if entities[0].id == id then Some(entities[0])
    else FindEntity(entities[1..], id)
  }

  /** First pad with the ID, as MediaTopology::FindPad. */
  function FindPad(pads: seq<Pad>, id: nat): (r: Option<Pad>)
    ensures r.Some? ==> r.value in pads && r.value.id == id
  {
    if pads == [] then None
    else if pads[0].id == id then Some(pads[0])
    else FindPad(pads[1..], id)
  }

  /** What follows the last slash; everything without one. */
  function BaseName(path: string): string {
    if path == "" then ""
    else if path[|path| - 1] == '/' then ""
    else BaseName(path[..|path| - 1]) + [path[|path| - 1]]
  }

  predicate IsVideoNode(e: Entity) {
    e.function_ == IoV4l || "video" <= BaseName(e.devnode)
  }

  predicate IsConverter(e: Entity) {
    e.function_ == PixelEncConverter || e.function_ == VideoIsp
  }

  /** A link that is or can be enabled. */
  predicate IsUsable(link: Link) {
    link.enabled || !link.immutable
  }

  /** The entity a data link leads to. */
  function SinkOf(t: Topology, link: Link): Option<Entity> {
    match FindPad(t.pads, link.sink)
    case None => None
    case Some(pad) => FindEntity(t.entities, pad.entity)
  }

  function SinkId(t: Topology, link: Link): nat {
    match SinkOf(t, link)
    case None => 0
    case Some(e) => e.id
  }

  /** Whether frames can be passed on over the link to a configurable stage. */
  predicate IsStage(t: Topology, link: Link) {
    link.kind == DataLink && IsUsable(link) &&
    match SinkOf(t, link)
    case None => false
    case Some(e) => e.function_ != CamSensor && e.devnode != ""
  }

  predicate EndsInVideo(t: Topology, link: Link) {
    match SinkOf(t, link)
    case None => false
    case Some(e) => IsVideoNode(e)
  }

  // --- The search, as a value ------------------------------------------------

  /** The paths found below `entity`, in the order they are found. */
  function Search(t: Topology, entity: nat, visited: set<nat>, current: seq<Link>): seq<seq<Link>>
    decreases MAX_DEPTH - |current|, 3, 0
  {
    if |current| >= MAX_DEPTH then [] else FromPads(t, entity, visited, current, |t.pads|)
  }

  function FromPads(t: Topology, entity: nat, visited: set<nat>, current: seq<Link>, n: nat): seq<seq<Link>>
    requires |current| < MAX_DEPTH && n <= |t.pads|
    decreases MAX_DEPTH - |current|, 2, n
  {
    if n == 0 then []
    else FromPads(t, entity, visited, current, n - 1) + FromPad(t, entity, visited, current, t.pads[n - 1])
  }

  function FromPad(t: Topology, entity: nat, visited: set<nat>, current: seq<Link>, pad: Pad): seq<seq<Link>>
    requires |current| < MAX_DEPTH
    decreases MAX_DEPTH - |current|, 1, |t.links| + 1
  {
    if pad.entity != entity || !pad.isSource then [] else FromLinks(t, pad.id, visited, current, |t.links|)
  }

  function FromLinks(t: Topology, pad: nat, visited: set<nat>, current: seq<Link>, n: nat): seq<seq<Link>>
    requires |current| < MAX_DEPTH && n <= |t.links|
    decreases MAX_DEPTH - |current|, 1, n
  {
    if n == 0 then []
    else FromLinks(t, pad, visited, current, n - 1) +
         if t.links[n - 1].source != pad then [] else Through(t, t.links[n - 1], visited, current)
  }

  function Through(t: Topology, link: Link, visited: set<nat>, current: seq<Link>): seq<seq<Link>>
    requires |current| < MAX_DEPTH
    decreases MAX_DEPTH - |current|, 0, 0
  {
    if !IsStage(t, link) || SinkId(t, link) in visited then []
    else if EndsInVideo(t, link) then [current + [link]]
    else Search(t, SinkId(t, link), visited + {SinkId(t, link)}, current + [link])
  }

  /** FindPaths: the state the recursion shares, and the recursion itself. */
  class PathFinder {
    const topology: Topology
    var visited: set<nat>
    var current: seq<Link>
    var paths: seq<seq<Link>>

    constructor (topology: Topology, sensor: nat)
      ensures this.topology == topology && visited == {sensor} && current == [] && paths == []
    {
      this.topology := topology;
      visited, current, paths := {sensor}, [], [];
    }

    method FindPaths(entity: nat)
      modifies this
      ensures visited == old(visited) && current == old(current)
      ensures paths == old(paths) + Search(topology, entity, old(visited), old(current))
      decreases MAX_DEPTH - |current|, 1
    {
      if |current| >= MAX_DEPTH { return; }
      for i := 0 to |topology.pads|
        invariant visited == old(visited) && current == old(current)
        invariant paths == old(paths) + FromPads(topology, entity, visited, current, i)
      {
        var pad := topology.pads[i];
        if pad.entity != entity || !pad.isSource { continue; }
        FollowLinks(pad);
      }
    }

    /** The links loop of FindPaths for one output pad. */
    method FollowLinks(pad: Pad)
      requires |current| < MAX_DEPTH
      modifies this
      ensures visited == old(visited) && current == old(current)
      ensures paths == old(paths) + FromLinks(topology, pad.id, old(visited), old(current), |topology.links|)
      decreases MAX_DEPTH - |current|, 0
    {
      for j := 0 to |topology.links|
        invariant visited == old(visited) && current == old(current)
        invariant paths == old(paths) + FromLinks(topology, pad.id, visited, current, j)
      {
        var link := topology.links[j];
        if link.kind != DataLink || link.source != pad.id || !IsUsable(link) { continue; }
        var sinkPad := FindPad(topology.pads, link.sink);
        if sinkPad.None? { continue; }
        var sink := FindEntity(topology.entities, sinkPad.value.entity);
        if sink.None? || sink.value.id in visited { continue; }
        if sink.value.function_ == CamSensor { continue; }
        if sink.value.devnode == "" { continue; }

        current := current + [link];
        if IsVideoNode(sink.value) {
          paths := paths + [current];
        } else {
          visited := visited + {sink.value.id};
          FindPaths(sink.value.id);
          visited := visited - {sink.value.id};
        }
        current := current[..|current| - 1];
      }
    }
  }

  // --- What the search finds --------------------------------------------------

  ghost predicate Feeds(t: Topology, entity: nat, link: Link) {
    exists pad :: pad in t.pads && pad.entity == entity && pad.isSource && pad.id == link.source
  }

  /**
   * A chain of usable data links from `entity` to a video node: every link
   * leaves the entity the previous one reaches, only the last one reaches a
   * video node, no sensor is entered, nothing in `visited` is entered and
   * nothing is entered twice.
   */
  ghost predicate IsRoute(t: Topology, entity: nat, visited: set<nat>, route: seq<Link>) {
    && route != []
    && (forall i :: 0 <= i < |route| ==> route[i] in t.links && IsStage(t, route[i]))
    && Feeds(t, entity, route[0])
    && (forall i, j :: 0 <= i < |route| && j == i + 1 < |route| ==> Feeds(t, SinkId(t, route[i]), route[j]))
    && (forall i :: 0 <= i < |route| ==> (EndsInVideo(t, route[i]) <==> i == |route| - 1))
    && (forall i :: 0 <= i < |route| ==> SinkId(t, route[i]) !in visited)
    && (forall i, j :: 0 <= i < j < |route| ==> SinkId(t, route[i]) != SinkId(t, route[j]))
  }

  /** What DiscoverMediaCameras looks for behind a sensor. */
  ghost predicate IsCapturePath(t: Topology, sensor: nat, path: seq<Link>) {
    |path| <= MAX_DEPTH && IsRoute(t, sensor, {sensor}, path)
  }

  lemma {:induction false} PadsMember(t: Topology, entity: nat, visited: set<nat>, current: seq<Link>, n: nat, q: seq<Link>)
    requires |current| < MAX_DEPTH && n <= |t.pads|
    ensures q in FromPads(t, entity, visited, current, n) <==>
            exists i :: 0 <= i < n && q in FromPad(t, entity, visited, current, t.pads[i])
  {
    if n > 0 { PadsMember(t, entity, visited, current, n - 1, q); }
  }

  lemma {:induction false} LinksMember(t: Topology, pad: nat, visited: set<nat>, current: seq<Link>, n: nat, q: seq<Link>)
    requires |current| < MAX_DEPTH && n <= |t.links|
    ensures q in FromLinks(t, pad, visited, current, n) <==>
            exists j :: 0 <= j < n && t.links[j].source == pad && q in Through(t, t.links[j], visited, current)
  {
    if n > 0 { LinksMember(t, pad, visited, current, n - 1, q); }
  }

  /** One level of the search: some link out of `entity` leads to `q`. */
  lemma SearchMember(t: Topology, entity: nat, visited: set<nat>, current: seq<Link>, q: seq<Link>)
    requires |current| < MAX_DEPTH
    ensures q in Search(t, entity, visited, current) <==>
            exists link :: link in t.links && Feeds(t, entity, link) && q in Through(t, link, visited, current)
  {
    PadsMember(t, entity, visited, current, |t.pads|, q);
    forall pad: nat {
      LinksMember(t, pad, visited, current, |t.links|, q);
    }
    if link :| link in t.links && Feeds(t, entity, link) && q in Through(t, link, visited, current) {
      var pad :| pad in t.pads && pad.entity == entity && pad.isSource && pad.id == link.source;
      var i :| 0 <= i < |t.pads| && t.pads[i] == pad;
      var j :| 0 <= j < |t.links| && t.links[j] == link;
      assert q in FromPad(t, entity, visited, current, t.pads[i]);
    }
  }

  /** A longer route is a first stage and a route that avoids it. */
  lemma RouteStep(t: Topology, entity: nat, visited: set<nat>, route: seq<Link>)
    requires |route| >= 2
    ensures IsRoute(t, entity, visited, route) <==>
            && route[0] in t.links && IsStage(t, route[0]) && Feeds(t, entity, route[0])
            && !EndsInVideo(t, route[0]) && SinkId(t, route[0]) !in visited
            && IsRoute(t, SinkId(t, route[0]), visited + {SinkId(t, route[0])}, route[1..])
  {
    var head, rest := SinkId(t, route[0]), route[1..];
    assert forall i :: 0 <= i < |rest| ==> rest[i] == route[i + 1];
    assert forall i :: 1 <= i < |route| ==> route[i] == rest[i - 1];
    if IsRoute(t, head, visited + {head}, rest) && route[0] in t.links && IsStage(t, route[0]) &&
       Feeds(t, entity, route[0]) && !EndsInVideo(t, route[0]) && head !in visited {
      forall i, j | 0 <= i < j < |route| ensures SinkId(t, route[i]) != SinkId(t, route[j]) {
        assert route[j] == rest[j - 1];
        if i > 0 { assert route[i] == rest[i - 1]; }
      }
      forall i, j | 0 <= i < |route| && j == i + 1 < |route| ensures Feeds(t, SinkId(t, route[i]), route[j]) {
        assert route[j] == rest[i];
      }
    }
  }

  /** The search below a partial path finds exactly its completions to routes. */
  lemma {:induction false} SearchFindsRoutes(t: Topology, entity: nat, visited: set<nat>, current: seq<Link>, q: seq<Link>)
    ensures q in Search(t, entity, visited, current) <==>
            |current| < |q| <= MAX_DEPTH && current <= q && IsRoute(t, entity, visited, q[|current|..])
    decreases MAX_DEPTH - |current|
  {
    if |current| < MAX_DEPTH {
      SearchMember(t, entity, visited, current, q);
      forall link | link in t.links {
        ThroughFindsRoutes(t, entity, visited, current, link, q);
      }
      if |current| < |q| && current <= q {
        var route := q[|current|..];
        assert route[0] == q[|current|];
      }
    }
  }

  lemma {:induction false} ThroughFindsRoutes(t: Topology, entity: nat, visited: set<nat>, current: seq<Link>,
                                              link: Link, q: seq<Link>)
    requires |current| < MAX_DEPTH && link in t.links
    ensures Feeds(t, entity, link) && q in Through(t, link, visited, current) <==>
            |current| < |q| <= MAX_DEPTH && current <= q && q[|current|] == link &&
            IsRoute(t, entity, visited, q[|current|..])
    decreases MAX_DEPTH - |current|, 0
  {
    var next := current + [link];
    SearchFindsRoutes(t, SinkId(t, link), visited + {SinkId(t, link)}, next, q);
    if |current| < |q| && current <= q && q[|current|] == link {
      var route := q[|current|..];
      assert route[0] == link;
      assert q == next + q[|next|..];
      assert next <= q;
      assert q[|next|..] == route[1..];
      if |route| >= 2 {
        RouteStep(t, entity, visited, route);
      } else {
        assert q == next;
      }
    }
  }

  ghost predicate UniqueIds(t: Topology) {
    && (forall i, j :: 0 <= i < j < |t.pads| ==> t.pads[i].id != t.pads[j].id)
    && (forall i, j :: 0 <= i < j < |t.links| ==> t.links[i].id != t.links[j].id)
  }

  /** Every path is found once. */
  lemma {:induction false} SearchDistinct(t: Topology, entity: nat, visited: set<nat>, current: seq<Link>)
    requires UniqueIds(t)
    ensures Distinct(Search(t, entity, visited, current))
    decreases MAX_DEPTH - |current|, 3, 0
  {
    if |current| < MAX_DEPTH { PadsDistinct(t, entity, visited, current, |t.pads|); }
  }

  lemma {:induction false} PadsDistinct(t: Topology, entity: nat, visited: set<nat>, current: seq<Link>, n: nat)
    requires UniqueIds(t) && |current| < MAX_DEPTH && n <= |t.pads|
    ensures Distinct(FromPads(t, entity, visited, current, n))
    decreases MAX_DEPTH - |current|, 2, n
  {
    if n > 0 {
      PadsDistinct(t, entity, visited, current, n - 1);
      if t.pads[n - 1].entity == entity && t.pads[n - 1].isSource {
        var pad := t.pads[n - 1].id;
        LinksDistinct(t, pad, visited, current, |t.links|);
        var a, b := FromPads(t, entity, visited, current, n - 1), FromLinks(t, pad, visited, current, |t.links|);
        forall q | q in a ensures q !in b {
          PadsMember(t, entity, visited, current, n - 1, q);
          var i :| 0 <= i < n - 1 && q in FromPad(t, entity, visited, current, t.pads[i]);
          LinksNext(t, t.pads[i].id, visited, current, q);
          if q in b { LinksNext(t, pad, visited, current, q); }
        }
        DistinctAppend(a, b);
      }
    }
  }

  lemma {:induction false} LinksDistinct(t: Topology, pad: nat, visited: set<nat>, current: seq<Link>, n: nat)
    requires UniqueIds(t) && |current| < MAX_DEPTH && n <= |t.links|
    ensures Distinct(FromLinks(t, pad, visited, current, n))
    decreases MAX_DEPTH - |current|, 1, n
  {
    if n > 0 {
      LinksDistinct(t, pad, visited, current, n - 1);
      var link := t.links[n - 1];
      if link.source == pad && IsStage(t, link) && SinkId(t, link) !in visited {
        if !EndsInVideo(t, link) {
          SearchDistinct(t, SinkId(t, link), visited + {SinkId(t, link)}, current + [link]);
        }
        var a, b := FromLinks(t, pad, visited, current, n - 1), Through(t, link, visited, current);
        forall q | q in a ensures q !in b {
          LinksMember(t, pad, visited, current, n - 1, q);
          var j :| 0 <= j < n - 1 && q in Through(t, t.links[j], visited, current);
          ThroughNext(t, t.links[j], visited, current, q);
          if q in b { ThroughNext(t, link, visited, current, q); }
        }
        DistinctAppend(a, b);
      }
    }
  }

  /** Everything found through a link continues the current path with it. */
  lemma ThroughNext(t: Topology, link: Link, visited: set<nat>, current: seq<Link>, q: seq<Link>)
    requires |current| < MAX_DEPTH && q in Through(t, link, visited, current)
    ensures |q| > |current| && q[|current|] == link
  {
    if !EndsInVideo(t, link) {
      SearchFindsRoutes(t, SinkId(t, link), visited + {SinkId(t, link)}, current + [link], q);
      assert (current + [link])[|current|] == q[|current|];
    }
  }

  lemma LinksNext(t: Topology, pad: nat, visited: set<nat>, current: seq<Link>, q: seq<Link>)
    requires |current| < MAX_DEPTH && q in FromLinks(t, pad, visited, current, |t.links|)
    ensures |q| > |current| && q[|current|].source == pad
  {
    LinksMember(t, pad, visited, current, |t.links|, q);
    var j :| 0 <= j < |t.links| && t.links[j].source == pad && q in Through(t, t.links[j], visited, current);
    ThroughNext(t, t.links[j], visited, current, q);
  }

  /** The search from a sensor yields every capture path, nothing else, and each once. */
  lemma SearchIsExact(t: Topology, sensor: nat)
    ensures forall q :: q in Search(t, sensor, {sensor}, []) <==> IsCapturePath(t, sensor, q)
    ensures UniqueIds(t) ==> Distinct(Search(t, sensor, {sensor}, []))
  {
    forall q ensures q in Search(t, sensor, {sensor}, []) <==> IsCapturePath(t, sensor, q) {
      SearchFindsRoutes(t, sensor, {sensor}, [], q);
      assert q[0..] == q;
    }
    if UniqueIds(t) { SearchDistinct(t, sensor, {sensor}, []); }
  }

  /** The first half of DiscoverMediaCameras for one sensor. */
  method PathsFrom(t: Topology, sensor: nat) returns (paths: seq<seq<Link>>)
    ensures forall q :: q in paths <==> IsCapturePath(t, sensor, q)
    ensures UniqueIds(t) ==> Distinct(paths)
  {
    var finder := new PathFinder(t, sensor);
    finder.FindPaths(sensor);
    paths := finder.paths;
    SearchIsExact(t, sensor);
  }
}
