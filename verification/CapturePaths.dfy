/**
 * What a capture path is, told from the entities, pads and links alone
 * (interfaces/camera/mainline/provider/MediaPipeline.cpp).
 */
module CapturePaths {
  import opened Common
  import opened MediaGraph

  ghost predicate UniqueEntities(t: Topology) {
    forall i, j :: 0 <= i < j < |t.entities| ==> t.entities[i].id != t.entities[j].id
  }

  ghost predicate Enters(t: Topology, link: Link, e: Entity) {
    e in t.entities && exists pad :: pad in t.pads && pad.id == link.sink && pad.entity == e.id
  }

  /** Frames can go over the link: it is a data link, and on, or can be switched on. */
  predicate Passable(link: Link) { link.kind.DataLink? && (link.immutable ==> link.enabled) }

  /** The device node is one of a video device: its name behind the last slash begins so. */
  ghost predicate NamedVideo(devnode: string) {
    exists i :: 0 <= i <= |devnode| - 5 && devnode[i..i + 5] == "video" && '/' !in devnode[i..] && (i == 0 || devnode[i - 1] == '/')
  }

  ghost predicate IsVideo(e: Entity) { e.function_.IoV4l? || NamedVideo(e.devnode) }

  /** The links lead from the sensor to these entities, one after the other. */
  ghost predicate Leads(t: Topology, sensor: nat, path: seq<Link>, stops: seq<Entity>) {
    |stops| == |path| > 0 && Feeds(t, sensor, path[0]) &&
    (forall i :: 0 <= i < |path| ==> path[i] in t.links && Passable(path[i]) && Enters(t, path[i], stops[i])) &&
    (forall i, j :: 0 <= i < |path| && j == i + 1 < |path| ==> Feeds(t, stops[i].id, path[j]))
  }

  /** No sensor on the way, only the last one a video device, each with a device node, none twice. */
  ghost predicate Stages(sensor: nat, stops: seq<Entity>) {
    (forall i :: 0 <= i < |stops| ==> !stops[i].function_.CamSensor? && stops[i].devnode != "" && stops[i].id != sensor) &&
    (forall i :: 0 <= i < |stops| ==> (IsVideo(stops[i]) <==> i == |stops| - 1)) &&
    (forall i, j :: 0 <= i < j < |stops| ==> stops[i].id != stops[j].id)
  }

  ghost predicate Reaches(t: Topology, sensor: nat, path: seq<Link>, stops: seq<Entity>) {
    |path| <= 8 && Leads(t, sensor, path, stops) && Stages(sensor, stops)
  }

  // --- Names ---------------------------------------------------------------------------

  lemma {:induction false} BaseNameIs(path: string)
    ensures
      var n := |path| - |BaseName(path)|;
      0 <= n && path[n..] == BaseName(path) && '/' !in path[n..] && (n == 0 || path[n - 1] == '/')
  {
    if path != "" && path[|path| - 1] != '/' {
      var m := |path| - 1;
      BaseNameIs(path[..m]);
      var n := m - |BaseName(path[..m])|;
      assert path[n..] == path[..m][n..] + [path[m]];
    }
  }

  lemma NoSlash(s: string, n: nat)
    requires n <= |s| && '/' !in s[n..]
    ensures forall k :: n <= k < |s| ==> s[k] != '/'
  {
    assert forall k :: n <= k < |s| ==> s[k] == s[n..][k - n];
  }

  lemma VideoIff(e: Entity)
    ensures IsVideoNode(e) <==> IsVideo(e)
  {
    var d, base := e.devnode, BaseName(e.devnode);
    var n := |d| - |base|;
    BaseNameIs(d);
    if "video" <= base {
      assert d[n..n + 5] == d[n..][..5] == "video";
    }
    if i :| 0 <= i <= |d| - 5 && d[i..i + 5] == "video" && '/' !in d[i..] && (i == 0 || d[i - 1] == '/') {
      NoSlash(d, i);
      NoSlash(d, n);
      assert i == n && base[..5] == d[i..i + 5];
    }
  }

  // --- Lookups -------------------------------------------------------------------------

  lemma {:induction false} PadFound(pads: seq<Pad>, id: nat)
    ensures FindPad(pads, id).Some? <==> exists pad :: pad in pads && pad.id == id
  {
    if pads != [] {
      PadFound(pads[1..], id);
    }
  }

  lemma {:induction false} EntityFound(entities: seq<Entity>, id: nat)
    ensures FindEntity(entities, id).Some? <==> exists e :: e in entities && e.id == id
  {
    if entities != [] {
      EntityFound(entities[1..], id);
    }
  }

  lemma OnePad(t: Topology, a: Pad, b: Pad)
    requires UniqueIds(t) && a in t.pads && b in t.pads && a.id == b.id
    ensures a == b
  {
    var i :| 0 <= i < |t.pads| && t.pads[i] == a;
    var j :| 0 <= j < |t.pads| && t.pads[j] == b;
    assert i == j;
  }

  lemma OneEntity(t: Topology, a: Entity, b: Entity)
    requires UniqueEntities(t) && a in t.entities && b in t.entities && a.id == b.id
    ensures a == b
  {
    var i :| 0 <= i < |t.entities| && t.entities[i] == a;
    var j :| 0 <= j < |t.entities| && t.entities[j] == b;
    assert i == j;
  }

  /** The entity the lookups find is the one the link enters. */
  lemma SinkIff(t: Topology, link: Link, e: Entity)
    requires UniqueIds(t) && UniqueEntities(t)
    ensures SinkOf(t, link) == Some(e) <==> Enters(t, link, e)
  {
    PadFound(t.pads, link.sink);
    if Enters(t, link, e) {
      var pad :| pad in t.pads && pad.id == link.sink && pad.entity == e.id;
      OnePad(t, pad, FindPad(t.pads, link.sink).value);
      EntityFound(t.entities, e.id);
      OneEntity(t, e, FindEntity(t.entities, e.id).value);
    }
  }

  // --- Paths ---------------------------------------------------------------------------

  lemma StageIff(t: Topology, link: Link, e: Entity)
    requires UniqueIds(t) && UniqueEntities(t) && Enters(t, link, e)
    ensures IsStage(t, link) <==> Passable(link) && !e.function_.CamSensor? && e.devnode != ""
    ensures SinkId(t, link) == e.id && (EndsInVideo(t, link) <==> IsVideo(e))
  {
    SinkIff(t, link, e);
    VideoIff(e);
  }

  lemma StageEnters(t: Topology, link: Link)
    requires UniqueIds(t) && UniqueEntities(t) && IsStage(t, link)
    ensures Enters(t, link, SinkOf(t, link).value)
  {
    SinkIff(t, link, SinkOf(t, link).value);
  }

  lemma ReachedIsCapturePath(t: Topology, sensor: nat, path: seq<Link>, stops: seq<Entity>)
    requires UniqueIds(t) && UniqueEntities(t) && Reaches(t, sensor, path, stops)
    ensures IsCapturePath(t, sensor, path)
  {
    forall i | 0 <= i < |path|
      ensures IsStage(t, path[i]) && SinkId(t, path[i]) == stops[i].id
      ensures EndsInVideo(t, path[i]) <==> IsVideo(stops[i])
    {
      StageIff(t, path[i], stops[i]);
    }
    StopsMakeRoute(t, sensor, path, stops);
  }

  lemma StopsMakeRoute(t: Topology, sensor: nat, path: seq<Link>, stops: seq<Entity>)
    requires path != [] && Leads(t, sensor, path, stops) && Stages(sensor, stops)
    requires forall i :: 0 <= i < |path| ==> IsStage(t, path[i]) && SinkId(t, path[i]) == stops[i].id
    requires forall i :: 0 <= i < |path| ==> (EndsInVideo(t, path[i]) <==> IsVideo(stops[i]))
    ensures IsRoute(t, sensor, {sensor}, path)
  {
    forall i, j | 0 <= i < |path| && j == i + 1 < |path| ensures Feeds(t, SinkId(t, path[i]), path[j]) {
      assert Feeds(t, stops[i].id, path[j]);
    }
  }

  lemma CapturePathReaches(t: Topology, sensor: nat, path: seq<Link>) returns (stops: seq<Entity>)
    requires UniqueIds(t) && UniqueEntities(t) && IsCapturePath(t, sensor, path)
    ensures Reaches(t, sensor, path, stops)
  {
    stops := seq(|path|, i requires 0 <= i < |path| => SinkOf(t, path[i]).value);
    forall i | 0 <= i < |path|
      ensures Enters(t, path[i], stops[i]) && Passable(path[i]) && SinkId(t, path[i]) == stops[i].id
      ensures !stops[i].function_.CamSensor? && stops[i].devnode != "" && (IsVideo(stops[i]) <==> i == |path| - 1)
    {
      StageEnters(t, path[i]);
      StageIff(t, path[i], stops[i]);
    }
  }

  /** The search from a sensor finds a path if and only if that leads over passable links to a video device. */
  lemma FoundIff(t: Topology, sensor: nat, path: seq<Link>)
    requires UniqueIds(t) && UniqueEntities(t)
    ensures path in Search(t, sensor, {sensor}, []) <==> exists stops :: Reaches(t, sensor, path, stops)
  {
    SearchIsExact(t, sensor);
    if IsCapturePath(t, sensor, path) {
      var stops := CapturePathReaches(t, sensor, path);
    }
    if stops :| Reaches(t, sensor, path, stops) {
      ReachedIsCapturePath(t, sensor, path, stops);
    }
  }
}
