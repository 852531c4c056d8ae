/**
 * From a path of links to a configured pipeline: the hops
 * (interfaces/camera/mainline/provider/MediaPipeline.cpp), the choice between
 * paths, and enabling the links of the chosen one
 * (interfaces/camera/mainline/session/PipelineController.cpp).
 */
module MediaPipeline {
  import opened Common
  import opened MediaGraph

  datatype Hop = Hop(link: Link, sinkEntity: string, sinkPad: nat, sinkSubdev: string, sourcePad: nat, converter: bool)

  datatype Pipeline = Pipeline(hops: seq<Hop>, sensorPad: nat, videoNode: string)

  // --- Building ---------------------------------------------------------------

  /** The hop passes its stream on inside the entity its link enters, from its sink pad to the next link's source pad. */
  predicate PassesThrough(t: Topology, hop: Hop, next: Link) {
    match FindPad(t.pads, hop.link.sink)
    case None => false
    case Some(sink) =>
      match FindPad(t.pads, next.source)
      case None => false
      case Some(source) =>
        && sink.entity == source.entity && source.isSource
        && hop.sinkPad == sink.index && hop.sourcePad == source.index
        && SinkOf(t, hop.link).Some?
        && hop.sinkEntity == SinkOf(t, hop.link).value.name
        && hop.sinkSubdev == SinkOf(t, hop.link).value.devnode
        && hop.converter == (SinkOf(t, hop.link).value.function_ in {PixelEncConverter, VideoIsp})
  }

  /** The hop leads to the video node, where nothing is passed on or converted. */
  predicate EndsPipeline(t: Topology, hop: Hop) {
    && FindPad(t.pads, hop.link.sink).Some? && hop.sinkPad == FindPad(t.pads, hop.link.sink).value.index
    && SinkOf(t, hop.link).Some? && hop.sinkEntity == SinkOf(t, hop.link).value.name
    && hop.sourcePad == 0 && !hop.converter
  }

  /**
   * The hops follow the path; each one but the last passes its stream on
   * inside one entity that has a device node, and an empty node marks the last.
   */
  ghost predicate IsPipelineOf(t: Topology, sensor: nat, path: seq<Link>, p: Pipeline) {
    && |p.hops| == |path| > 0
    && (forall i :: 0 <= i < |path| ==> p.hops[i].link == path[i])
    && (forall i :: 0 <= i < |path| ==> (p.hops[i].sinkSubdev == "" <==> i == |path| - 1))
    && (forall i, j :: 0 <= i < |path| && j == i + 1 < |path| ==> PassesThrough(t, p.hops[i], path[j]))
    && EndsPipeline(t, p.hops[|path| - 1])
    && LeavesSensor(t, sensor, path[0], p.sensorPad)
    && EntersVideoNode(t, path[|path| - 1], p.videoNode)
  }

  predicate LeavesSensor(t: Topology, sensor: nat, link: Link, index: nat) {
    match FindPad(t.pads, link.source)
    case None => false
    case Some(pad) => pad.entity == sensor && pad.isSource && pad.index == index
  }

  predicate EntersVideoNode(t: Topology, link: Link, node: string) {
    match SinkOf(t, link)
    case None => false
    case Some(e) => e.devnode == node != "" && IsVideoNode(e)
  }

  lemma FindPadUnique(pads: seq<Pad>, pad: Pad)
    requires pad in pads
    requires forall i, j :: 0 <= i < j < |pads| ==> pads[i].id != pads[j].id
    ensures FindPad(pads, pad.id) == Some(pad)
  {
    if pads[0] != pad {
      var k :| 0 <= k < |pads| && pads[k] == pad;
      FindPadUnique(pads[1..], pad);
    }
  }

  /** The pad lookups BuildPipeline dereferences unchecked succeed on a capture path. */
  lemma HopSource(t: Topology, entity: nat, link: Link)
    requires UniqueIds(t) && Feeds(t, entity, link)
    ensures FindPad(t.pads, link.source).Some?
    ensures FindPad(t.pads, link.source).value.entity == entity && FindPad(t.pads, link.source).value.isSource
  {
    var pad :| pad in t.pads && pad.entity == entity && pad.isSource && pad.id == link.source;
    FindPadUnique(t.pads, pad);
  }

  /** The hop for one link of a capture path; the last one has no stage to configure. */
  function HopAt(t: Topology, path: seq<Link>, i: nat): Hop
    requires i < |path| && IsStage(t, path[i])
    requires i + 1 < |path| ==> FindPad(t.pads, path[i + 1].source).Some?
  {
    var sinkPad := FindPad(t.pads, path[i].sink).value;
    var sink := FindEntity(t.entities, sinkPad.entity).value;
    if i + 1 < |path| then
      Hop(path[i], sink.name, sinkPad.index, sink.devnode, FindPad(t.pads, path[i + 1].source).value.index, IsConverter(sink))
    else
      Hop(path[i], sink.name, sinkPad.index, "", 0, false)
  }

  lemma HopWired(t: Topology, sensor: nat, path: seq<Link>, i: nat)
    requires UniqueIds(t) && IsCapturePath(t, sensor, path) && i < |path| - 1
    ensures FindPad(t.pads, path[i + 1].source).Some?
    ensures HopAt(t, path, i).sinkSubdev != "" && PassesThrough(t, HopAt(t, path, i), path[i + 1])
  {
    HopSource(t, SinkId(t, path[i]), path[i + 1]);
    var sink := FindPad(t.pads, path[i].sink).value;
    var stage := FindEntity(t.entities, sink.entity).value;
    var source := FindPad(t.pads, path[i + 1].source).value;
    assert SinkOf(t, path[i]) == Some(stage);
    assert sink.entity == source.entity == stage.id;
  }

  /** Every lookup BuildPipeline makes has an answer. */
  ghost predicate Resolvable(t: Topology, path: seq<Link>) {
    forall i :: 0 <= i < |path| ==> IsStage(t, path[i]) && FindPad(t.pads, path[i].source).Some?
  }

  lemma CapturePathResolves(t: Topology, sensor: nat, path: seq<Link>)
    requires UniqueIds(t) && IsCapturePath(t, sensor, path)
    ensures path != [] && Resolvable(t, path)
  {
    forall i | 0 <= i < |path| ensures FindPad(t.pads, path[i].source).Some? {
      HopSource(t, if i == 0 then sensor else SinkId(t, path[i - 1]), path[i]);
    }
  }

  lemma LastHop(t: Topology, sensor: nat, path: seq<Link>)
    requires IsCapturePath(t, sensor, path)
    ensures EntersVideoNode(t, path[|path| - 1], SinkOf(t, path[|path| - 1]).value.devnode)
  {
    assert IsStage(t, path[|path| - 1]) && EndsInVideo(t, path[|path| - 1]);
  }

  lemma BuiltFromPath(t: Topology, sensor: nat, path: seq<Link>, p: Pipeline)
    requires UniqueIds(t) && IsCapturePath(t, sensor, path) && Resolvable(t, path)
    requires |p.hops| == |path| && forall k :: 0 <= k < |path| ==> p.hops[k] == HopAt(t, path, k)
    requires LeavesSensor(t, sensor, path[0], p.sensorPad)
    requires EntersVideoNode(t, path[|path| - 1], p.videoNode)
    ensures IsPipelineOf(t, sensor, path, p)
  {
    forall i | 0 <= i < |path| ensures p.hops[i].link == path[i] && (p.hops[i].sinkSubdev == "" <==> i == |path| - 1) {
      if i < |path| - 1 { HopWired(t, sensor, path, i); }
    }
    forall i, j | 0 <= i < |path| && j == i + 1 < |path| ensures PassesThrough(t, p.hops[i], path[j]) {
      HopWired(t, sensor, path, i);
      assert p.hops[i] == HopAt(t, path, i);
    }
  }

  method BuildHops(t: Topology, path: seq<Link>) returns (hops: seq<Hop>, videoNode: string)
    requires path != [] && Resolvable(t, path)
    ensures |hops| == |path| && forall k :: 0 <= k < |path| ==> hops[k] == HopAt(t, path, k)
    ensures videoNode == SinkOf(t, path[|path| - 1]).value.devnode
  {
    hops, videoNode := [], "";
    for i := 0 to |path|
      invariant |hops| == i
      invariant forall k :: 0 <= k < i ==> hops[k] == HopAt(t, path, k)
      invariant i == |path| ==> videoNode == SinkOf(t, path[|path| - 1]).value.devnode
    {
      hops := hops + [HopAt(t, path, i)];
      if i + 1 == |path| { videoNode := SinkOf(t, path[i]).value.devnode; }
    }
  }

  method BuildPipeline(t: Topology, sensor: nat, path: seq<Link>) returns (p: Pipeline)
    requires UniqueIds(t) && IsCapturePath(t, sensor, path)
    ensures IsPipelineOf(t, sensor, path, p)
  {
    CapturePathResolves(t, sensor, path);
    HopSource(t, sensor, path[0]);
    LastHop(t, sensor, path);
    var hops, videoNode := BuildHops(t, path);
    p := Pipeline(hops, FindPad(t.pads, path[0].source).value.index, videoNode);
    BuiltFromPath(t, sensor, path, p);
  }

  // --- Choosing ---------------------------------------------------------------

  /** A pipeline and the number of formats it was found to deliver. */
  datatype Offer = Offer(pipeline: Pipeline, formats: nat)

  function EnabledHops(hops: seq<Hop>): nat {
    if hops == [] then 0
    else EnabledHops(hops[..|hops| - 1]) + if hops[|hops| - 1].link.enabled then 1 else 0
  }

  /** Score order: most formats, then fewest hops, then most links set up already. */
  predicate Better(a: Offer, b: Offer) {
    a.formats > b.formats ||
    (a.formats == b.formats &&
     (|a.pipeline.hops| < |b.pipeline.hops| ||
      (|a.pipeline.hops| == |b.pipeline.hops| && EnabledHops(a.pipeline.hops) > EnabledHops(b.pipeline.hops))))
  }

  /** How many links of the pipeline are set up already. */
  ghost function Ready(o: Offer): nat { |set i | 0 <= i < |o.pipeline.hops| && o.pipeline.hops[i].link.enabled| }

  lemma {:induction false} EnabledHopsCounts(hops: seq<Hop>)
    ensures EnabledHops(hops) == |set i | 0 <= i < |hops| && hops[i].link.enabled|
  {
    var all := set i | 0 <= i < |hops| && hops[i].link.enabled;
    if hops != [] {
      var n := |hops| - 1;
      EnabledHopsCounts(hops[..n]);
      assert all == (set i | 0 <= i < |hops[..n]| && hops[..n][i].link.enabled) + if hops[n].link.enabled then {n} else {};
    }
  }

  /** What is preferred: formats first, then short paths, then links set up already. */
  lemma PreferenceSpelled(a: Offer, b: Offer)
    ensures a.formats > b.formats ==> Better(a, b)
    ensures a.formats == b.formats && |a.pipeline.hops| < |b.pipeline.hops| ==> Better(a, b)
    ensures a.formats == b.formats && |a.pipeline.hops| == |b.pipeline.hops| && Ready(a) > Ready(b) ==> Better(a, b)
    ensures Better(a, b) ==> !Better(b, a)
    ensures a.formats == b.formats && |a.pipeline.hops| == |b.pipeline.hops| && Ready(a) == Ready(b) ==> !Better(a, b)
  {
    EnabledHopsCounts(a.pipeline.hops);
    EnabledHopsCounts(b.pipeline.hops);
  }

  /** The `pick` loop: among offers with formats, the first that no other one beats. */
  method Pick(offers: seq<Offer>) returns (best: Option<nat>)
    ensures best.None? <==> forall k :: 0 <= k < |offers| ==> offers[k].formats == 0
    ensures best.Some? ==> best.value < |offers| && offers[best.value].formats > 0
    ensures best.Some? ==> forall k :: 0 <= k < |offers| ==> !Better(offers[k], offers[best.value])
    ensures best.Some? ==> forall k :: 0 <= k < best.value && offers[k].formats > 0 ==> Better(offers[best.value], offers[k])
  {
    best := None;
    for i := 0 to |offers|
      invariant best.None? <==> forall k :: 0 <= k < i ==> offers[k].formats == 0
      invariant best.Some? ==> best.value < i && offers[best.value].formats > 0
      invariant best.Some? ==> forall k :: 0 <= k < i ==> !Better(offers[k], offers[best.value])
      invariant best.Some? ==> forall k :: 0 <= k < best.value && offers[k].formats > 0 ==> Better(offers[best.value], offers[k])
    {
      if offers[i].formats == 0 { continue; }
      if best.None? || Better(offers[i], offers[best.value]) {
        best := Some(i);
      }
    }
  }

  /** Nothing has more formats than the picked one, nor with as many fewer hops, nor with as many hops more links set up. */
  lemma PickedIsBest(offers: seq<Offer>, best: nat, k: nat)
    requires best < |offers| && k < |offers|
    requires !Better(offers[k], offers[best]) && (k < best && offers[k].formats > 0 ==> Better(offers[best], offers[k]))
    ensures
      var b, o := offers[best], offers[k];
      o.formats <= b.formats &&
      (o.formats == b.formats ==> |b.pipeline.hops| <= |o.pipeline.hops|) &&
      (o.formats == b.formats > 0 && |b.pipeline.hops| == |o.pipeline.hops| ==>
         Ready(o) <= Ready(b) && (k < best ==> Ready(o) < Ready(b)))
  {
    PreferenceSpelled(offers[k], offers[best]);
    PreferenceSpelled(offers[best], offers[k]);
  }

  // --- Enabling ---------------------------------------------------------------

  datatype LinkStatus = LinksEnabled | LinkGone(id: nat) | SetupFailed

  /** The media device: the topology read when it was opened, and which links are enabled now. */
  class MediaDevice {
    const topology: Topology
    var enabled: set<nat>
    /** Calls the device has refused. */
    ghost var refused: nat

    constructor (topology: Topology)
      ensures this.topology == topology && refused == 0
      ensures enabled == set l | l in topology.links && l.enabled :: l.id
    {
      this.topology := topology;
      refused := 0;
      enabled := set l | l in topology.links && l.enabled :: l.id;
    }

    /** MEDIA_IOC_SETUP_LINK, which may fail. */
    method SetupLink(link: Link, enable: bool) returns (ok: bool)
      modifies this
      ensures refused == if ok then old(refused) else old(refused) + 1
      ensures enabled == if !ok then old(enabled) else if enable then old(enabled) + {link.id} else old(enabled) - {link.id}
    {
      ok := *;
      if ok {
        enabled := if enable then enabled + {link.id} else enabled - {link.id};
      } else {
        refused := refused + 1;
      }
    }
  }

  /** The snapshot describes the device as it is. */
  ghost predicate Current(t: Topology, enabled: set<nat>) {
    && UniqueIds(t)
    && forall l :: l in t.links ==> (l.id in enabled <==> l.enabled)
  }

  /** The links of the path that are in the snapshot are still those it was found with. */
  ghost predicate SameLinks(t: Topology, path: seq<Link>) {
    forall l, i :: l in t.links && 0 <= i < |path| && l.id == path[i].id ==>
      l.sink == path[i].sink && l.immutable == path[i].immutable && (l.immutable ==> l.enabled == path[i].enabled)
  }

  /** The search takes usable links only, so an immutable link of a path is enabled. */
  lemma CapturePathMatches(searched: Topology, sensor: nat, path: seq<Link>, t: Topology)
    requires IsCapturePath(searched, sensor, path) && SameLinks(t, path)
    ensures Matches(t, path)
  {
    forall i | 0 <= i < |path| ensures path[i].immutable ==> path[i].enabled {
      assert IsStage(searched, path[i]);
    }
  }

  /** The links are where the path saw them, and immutable ones are enabled. */
  ghost predicate Matches(t: Topology, path: seq<Link>) {
    forall l, i :: l in t.links && 0 <= i < |path| && l.id == path[i].id ==>
      l.sink == path[i].sink && (l.immutable ==> l.enabled)
  }

  /** No two links of the path are the same or enter the same pad. */
  ghost predicate SeparateSinks(path: seq<Link>) {
    forall i, j :: 0 <= i < j < |path| ==> path[i].sink != path[j].sink && path[i].id != path[j].id
  }

  /** Simplicity of a capture path is what keeps its links apart. */
  lemma CapturePathSeparates(t: Topology, sensor: nat, path: seq<Link>)
    requires UniqueIds(t) && IsCapturePath(t, sensor, path)
    ensures SeparateSinks(path)
  {
    forall i, j | 0 <= i < j < |path| ensures path[i].sink != path[j].sink && path[i].id != path[j].id {
      assert SinkId(t, path[i]) != SinkId(t, path[j]);
      LinkIdsUnique(t, path[i], path[j]);
    }
  }

  lemma LinkIdsUnique(t: Topology, a: Link, b: Link)
    requires UniqueIds(t) && a in t.links && b in t.links
    ensures a.id == b.id ==> a == b
  {
    var i :| 0 <= i < |t.links| && t.links[i] == a;
    var j :| 0 <= j < |t.links| && t.links[j] == b;
  }

  ghost predicate HasLink(t: Topology, id: nat) {
    exists l :: l in t.links && l.id == id
  }

  /** Whether a link is enabled once the first `n` links of the path are set up. */
  ghost predicate EnabledAfter(t: Topology, path: seq<Link>, n: nat, l: Link)
    requires n <= |path|
  {
    if exists i :: 0 <= i < n && path[i].id == l.id then true
    else if (exists i :: 0 <= i < n && path[i].sink == l.sink) && !l.immutable then false
    else l.enabled
  }

  /** Links into pads the path does not enter are as the snapshot has them. */
  ghost predicate Untouched(t: Topology, path: seq<Link>, enabled: set<nat>) {
    forall l :: l in t.links && (forall i :: 0 <= i < |path| ==> l.sink != path[i].sink) ==>
      (l.id in enabled <==> l.enabled)
  }

  /** Link i of the path is missing, and none before it. */
  ghost predicate FirstGone(t: Topology, path: seq<Link>, i: nat) {
    i < |path| && !HasLink(t, path[i].id) && forall k :: 0 <= k < i ==> HasLink(t, path[k].id)
  }

  /** The first `n` links of the path are set up, and nothing else is. */
  ghost predicate SetUp(t: Topology, path: seq<Link>, n: nat, enabled: set<nat>)
    requires n <= |path|
  {
    forall l :: l in t.links ==> (l.id in enabled <==> EnabledAfter(t, path, n, l))
  }

  /** An enabled, mutable link other than `link` into the same pad. */
  predicate Competes(other: Link, link: Link) {
    other.id != link.id && other.sink == link.sink && other.enabled && !other.immutable
  }

  /** Until its turn, nothing set up earlier has touched the pad of a link of the path. */
  lemma SinkUntouched(t: Topology, path: seq<Link>, i: nat, link: Link)
    requires UniqueIds(t) && SeparateSinks(path) && Matches(t, path)
    requires i < |path| && link in t.links && link.id == path[i].id
    ensures forall l :: l in t.links && l.sink == link.sink ==>
              (EnabledAfter(t, path, i, l) <==> l.enabled)
  {
    forall l | l in t.links && l.sink == link.sink ensures EnabledAfter(t, path, i, l) <==> l.enabled {
      forall k | 0 <= k < i ensures path[k].id != l.id && path[k].sink != l.sink {
        assert path[k].sink != path[i].sink;
      }
    }
  }

  lemma SetupEffect(t: Topology, path: seq<Link>, i: nat, link: Link, l: Link)
    requires UniqueIds(t) && SeparateSinks(path) && Matches(t, path)
    requires i < |path| && link in t.links && link.id == path[i].id && l in t.links
    ensures EnabledAfter(t, path, i + 1, l) <==>
            (EnabledAfter(t, path, i, l) && !Competes(l, link)) || l.id == link.id
  {
    SinkUntouched(t, path, i, link);
    if l.id == link.id {
      assert path[i].id == l.id;
    } else {
      assert path[i].sink == link.sink;
    }
  }

  /** Nothing but links that compete with this one has changed; all of those are off. */
  ghost predicate OnlyCompeting(t: Topology, link: Link, before: set<nat>, after: set<nat>) {
    forall l :: l in t.links && !Competes(l, link) ==> (l.id in after <==> l.id in before)
  }

  ghost predicate NoneCompetes(t: Topology, link: Link, before: set<nat>, after: set<nat>) {
    forall l :: l in t.links ==> (l.id in after <==> l.id in before && !Competes(l, link))
  }

  lemma UntouchedKept(t: Topology, path: seq<Link>, i: nat, link: Link, before: set<nat>, after: set<nat>)
    requires i < |path| && link.sink == path[i].sink
    requires Untouched(t, path, before) && OnlyCompeting(t, link, before, after)
    ensures Untouched(t, path, after)
  {
  }

  /** One turn of the loop over the path. */
  lemma SetUpOne(t: Topology, path: seq<Link>, i: nat, link: Link, before: set<nat>, middle: set<nat>, after: set<nat>)
    requires UniqueIds(t) && SeparateSinks(path) && Matches(t, path)
    requires i < |path| && link in t.links && link.id == path[i].id
    requires SetUp(t, path, i, before) && NoneCompetes(t, link, before, middle)
    requires after == if !link.enabled && !link.immutable then middle + {link.id} else middle
    ensures SetUp(t, path, i + 1, after)
  {
    SinkUntouched(t, path, i, link);
    forall l | l in t.links ensures l.id in after <==> EnabledAfter(t, path, i + 1, l) {
      SetupEffect(t, path, i, link, l);
      LinkIdsUnique(t, l, link);
    }
  }

  lemma OwnLinkUntouched(t: Topology, path: seq<Link>, i: nat, link: Link, before: set<nat>)
    requires i < |path| && link in t.links && link.sink == path[i].sink
    requires UniqueIds(t) && Untouched(t, path, before)
    ensures Untouched(t, path, before + {link.id})
  {
    forall l | l in t.links && (forall i :: 0 <= i < |path| ==> l.sink != path[i].sink)
      ensures l.id in before + {link.id} <==> l.enabled
    {
      LinkIdsUnique(t, l, link);
    }
  }

  method FindLink(t: Topology, id: nat) returns (link: Option<Link>)
    ensures link.None? <==> !HasLink(t, id)
    ensures link.Some? ==> link.value in t.links && link.value.id == id
  {
    link := None;
    for j := 0 to |t.links|
      invariant link.None? ==> forall k :: 0 <= k < j ==> t.links[k].id != id
      invariant link.Some? ==> link.value in t.links && link.value.id == id
    {
      if t.links[j].id == id { link := Some(t.links[j]); }
    }
  }

  /** The loop that makes room for a link; it stops when a call is refused. */
  method DisableCompeting(device: MediaDevice, link: Link) returns (ok: bool)
    requires UniqueIds(device.topology)
    modifies device
    ensures ok <==> device.refused == old(device.refused)
    ensures OnlyCompeting(device.topology, link, old(device.enabled), device.enabled)
    ensures ok ==> NoneCompetes(device.topology, link, old(device.enabled), device.enabled)
  {
    var t := device.topology;
    for j := 0 to |t.links|
      invariant device.refused == old(device.refused)
      invariant forall k :: 0 <= k < |t.links| ==>
        (t.links[k].id in device.enabled <==> t.links[k].id in old(device.enabled) && !(k < j && Competes(t.links[k], link)))
    {
      var other := t.links[j];
      if other.id == link.id || other.sink != link.sink || !other.enabled || other.immutable { continue; }
      ok := device.SetupLink(other, false);
      if !ok { return; }
    }
    ok := true;
  }

  /**
   * Links are set up in the order of the path until one is gone or a call is refused; a failure to set
   * up is reported exactly if a call was. No other pads are touched, whatever happens.
   */
  method EnableLinks(device: MediaDevice, path: seq<Link>) returns (status: LinkStatus)
    requires Current(device.topology, device.enabled) && Matches(device.topology, path) && SeparateSinks(path)
    modifies device
    ensures status.SetupFailed? <==> device.refused != old(device.refused)
    ensures status.LinksEnabled? ==>
              && (forall i :: 0 <= i < |path| ==> HasLink(device.topology, path[i].id))
              && SetUp(device.topology, path, |path|, device.enabled)
    ensures status.LinkGone? ==>
              exists i :: 0 <= i < |path| && path[i].id == status.id && FirstGone(device.topology, path, i) &&
                SetUp(device.topology, path, i, device.enabled)
    ensures Untouched(device.topology, path, device.enabled)
  {
    var t := device.topology;
    for i := 0 to |path|
      invariant device.refused == old(device.refused)
      invariant forall k :: 0 <= k < i ==> HasLink(t, path[k].id)
      invariant SetUp(t, path, i, device.enabled) && Untouched(t, path, device.enabled)
    {
      var link := FindLink(t, path[i].id);
      if link.None? {
        assert FirstGone(t, path, i);
        return LinkGone(path[i].id);
      }
      ghost var before := device.enabled;
      var ok := DisableCompeting(device, link.value);
      ghost var middle := device.enabled;
      UntouchedKept(t, path, i, link.value, before, middle);
      if !ok { return SetupFailed; }
      if !link.value.enabled && !link.value.immutable {
        OwnLinkUntouched(t, path, i, link.value, middle);
        ok := device.SetupLink(link.value, true);
        if !ok { return SetupFailed; }
      }
      SetUpOne(t, path, i, link.value, before, middle, device.enabled);
    }
    return LinksEnabled;
  }

  /**
   * Set up in order, every link of the path is enabled, whatever else enters
   * its pads is disabled or immutable, and links into other pads are as before.
   */
  lemma PathConfigured(t: Topology, path: seq<Link>, enabled: set<nat>)
    requires UniqueIds(t) && Matches(t, path) && SeparateSinks(path)
    requires forall l :: l in t.links ==> (l.id in enabled <==> EnabledAfter(t, path, |path|, l))
    ensures forall l, i :: l in t.links && 0 <= i < |path| && l.id == path[i].id ==> l.id in enabled
    ensures forall l, i :: l in t.links && 0 <= i < |path| && l.sink == path[i].sink && l.id != path[i].id ==>
              l.id !in enabled || l.immutable
    ensures forall l :: l in t.links && (forall i :: 0 <= i < |path| ==> l.sink != path[i].sink) ==>
              (l.id in enabled <==> l.enabled)
  {
    forall l, i | l in t.links && 0 <= i < |path| && l.sink == path[i].sink && l.id != path[i].id
      ensures l.id !in enabled || l.immutable
    {
      forall k | 0 <= k < |path| ensures path[k].id != l.id {
        assert k != i ==> path[k].sink != path[i].sink;
      }
    }
  }

  /** PipelineController::Configure up to the links, for a path the search found. */
  method SetupPath(t: Topology, sensor: nat, path: seq<Link>, device: MediaDevice) returns (status: LinkStatus)
    requires UniqueIds(t) && IsCapturePath(t, sensor, path)
    requires Current(device.topology, device.enabled) && SameLinks(device.topology, path)
    modifies device
    ensures status.SetupFailed? <==> device.refused != old(device.refused)
    ensures device.refused == old(device.refused) ==>
              (status.LinksEnabled? <==> forall i :: 0 <= i < |path| ==> HasLink(device.topology, path[i].id))
    ensures Untouched(device.topology, path, device.enabled)
    ensures status.LinksEnabled? ==>
              && (forall i :: 0 <= i < |path| ==> path[i].id in device.enabled)
              && (forall l, i :: l in device.topology.links && 0 <= i < |path| && l.sink == path[i].sink && l.id != path[i].id ==>
                    l.id !in device.enabled || l.immutable)
              && (forall l :: l in device.topology.links && (forall i :: 0 <= i < |path| ==> l.sink != path[i].sink) ==>
                    (l.id in device.enabled <==> l.enabled))
  {
    CapturePathSeparates(t, sensor, path);
    CapturePathMatches(t, sensor, path, device.topology);
    status := EnableLinks(device, path);
    if status.LinksEnabled? {
      PathConfigured(device.topology, path, device.enabled);
      forall i | 0 <= i < |path| ensures path[i].id in device.enabled {
        var l :| l in device.topology.links && l.id == path[i].id;
      }
    }
  }
}
