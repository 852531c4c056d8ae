/**
 * Camera IDs under hotplug (interfaces/camera/mainline/provider/CameraIdAllocator.cpp and the
 * rescan of interfaces/camera/mainline/provider/CameraProvider.cpp).
 */
module CameraIds {
  /** Every ID ever handed out, and the ones in use. */
  datatype Ids = Ids(given: map<string, int>, inUse: set<int>)

  predicate InRange(id: int, internal: bool, offset: int) { if internal then id < offset else id >= offset }

  function Base(internal: bool, offset: int): int { if internal then 0 else offset }

  lemma AtOrAboveShrinks(inUse: set<int>, id: int)
    requires id in inUse
    ensures (set i | i in inUse && i >= id + 1) < (set i | i in inUse && i >= id)
  {
    var above, from := set i | i in inUse && i >= id + 1, set i | i in inUse && i >= id;
    assert id in from && id !in above && above <= from;
  }

  /** Counts up until an ID is free; that happens because only finitely many are in use. */
  function LeastFree(inUse: set<int>, id: int): (r: int)
    ensures r >= id && r !in inUse && forall i :: id <= i < r ==> i in inUse
    decreases set i | i in inUse && i >= id
  {
    if id in inUse then AtOrAboveShrinks(inUse, id); LeastFree(inUse, id + 1) else id
  }

  /** The ID a camera had before is free and in its range. */
  predicate KeepsId(ids: Ids, key: string, internal: bool, offset: int) {
    key in ids.given && InRange(ids.given[key], internal, offset) && ids.given[key] !in ids.inUse
  }

  function Allocate(ids: Ids, key: string, internal: bool, offset: int): (Ids, int) {
    var id := if KeepsId(ids, key, internal, offset) then ids.given[key]
              else LeastFree(ids.inUse, Base(internal, offset));
    (Ids(ids.given[key := id], ids.inUse + {id}), id)
  }

  function Release(ids: Ids, key: string): Ids {
    if key in ids.given then ids.(inUse := ids.inUse - {ids.given[key]}) else ids
  }

  // --- The provider --------------------------------------------------------------------

  /** What discovery found; usable says whether a description of it can be made. */
  datatype Candidate = Candidate(key: string, internal: bool, back: bool, path: string, usable: bool)

  datatype Camera = Camera(id: int, internal: bool, path: string)

  datatype Provider = Provider(ids: Ids, cameras: map<string, Camera>)

  predicate Present(found: seq<Candidate>, key: string, path: string) {
    exists i :: 0 <= i < |found| && found[i].key == key && found[i].path == path
  }

  /** Lexicographic order of strings. */
  predicate Less(a: string, b: string) {
    b != "" && (a == "" || a[0] < b[0] || (a[0] == b[0] && Less(a[1..], b[1..])))
  }

  /** Internal cameras first, back facing before others, then by key. */
  predicate Before(a: Candidate, b: Candidate) {
    if a.internal != b.internal then a.internal
    else if a.internal && a.back != b.back then a.back
    else Less(a.key, b.key)
  }

  function Insert(c: Candidate, sorted: seq<Candidate>): seq<Candidate> {
    if sorted == [] || !Before(sorted[0], c) then [c] + sorted else [sorted[0]] + Insert(c, sorted[1..])
  }

  function Sort(s: seq<Candidate>): seq<Candidate> {
    if s == [] then [] else Insert(s[0], Sort(s[1..]))
  }

  function Removed(p: Provider, found: seq<Candidate>): set<string> {
    set key | key in p.cameras && !Present(found, key, p.cameras[key].path)
  }

  function Drop(p: Provider, keys: set<string>): Provider {
    Provider(p.ids.(inUse := p.ids.inUse - (set key | key in keys && key in p.ids.given :: p.ids.given[key])),
             p.cameras - keys)
  }

  function New(found: seq<Candidate>, cameras: map<string, Camera>): seq<Candidate> {
    if found == [] then [] else
      var last := found[|found| - 1];
      New(found[..|found| - 1], cameras) + if last.key in cameras then [] else [last]
  }

  /** A second camera with a key that is live already gets an ID but is not kept. */
  function Add(p: Provider, c: Candidate, offset: int): Provider {
    if !c.usable then p else
      var (ids, id) := Allocate(p.ids, c.key, c.internal, offset);
      Provider(ids, if c.key in p.cameras then p.cameras else p.cameras[c.key := Camera(id, c.internal, c.path)])
  }

  function AddAll(p: Provider, added: seq<Candidate>, offset: int): Provider
    decreases |added|
  {
    if added == [] then p else AddAll(Add(p, added[0], offset), added[1..], offset)
  }

  function Rescan(p: Provider, found: seq<Candidate>, offset: int): Provider {
    var left := Drop(p, Removed(p, found));
    AddAll(left, Sort(New(found, left.cameras)), offset)
  }

  const START := Provider(Ids(map[], {}), map[])

  function After(scans: seq<seq<Candidate>>, offset: int): Provider {
    if scans == [] then START
    else Rescan(After(scans[..|scans| - 1], offset), scans[|scans| - 1], offset)
  }

  // --- What every rescan keeps ---------------------------------------------------------

  ghost predicate Known(p: Provider) {
    forall k :: k in p.cameras ==> k in p.ids.given && p.cameras[k].id in p.ids.inUse && p.ids.given[k] in p.ids.inUse
  }

  /** Releasing a camera frees no other camera's ID. */
  ghost predicate Separate(p: Provider)
    requires Known(p)
  {
    forall a, b :: a in p.cameras && b in p.cameras && a != b ==>
      p.cameras[a].id != p.cameras[b].id && p.ids.given[a] != p.cameras[b].id && p.ids.given[a] != p.ids.given[b]
  }

  ghost predicate ExternalsAbove(p: Provider, offset: int) {
    forall k :: k in p.cameras && !p.cameras[k].internal ==> p.cameras[k].id >= offset
  }

  ghost predicate Consistent(p: Provider, offset: int) {
    Known(p) && Separate(p) && ExternalsAbove(p, offset)
  }

  lemma DropKeeps(p: Provider, keys: set<string>, offset: int)
    requires Consistent(p, offset) && keys <= p.cameras.Keys
    ensures Consistent(Drop(p, keys), offset)
    ensures forall k :: k in Drop(p, keys).cameras ==> Drop(p, keys).cameras[k] == p.cameras[k]
  {
    var gone := set key | key in keys && key in p.ids.given :: p.ids.given[key];
    forall k | k in p.cameras && k !in keys
      ensures p.cameras[k].id !in gone && p.ids.given[k] !in gone
    {
    }
  }

  lemma AddKeeps(p: Provider, c: Candidate, offset: int)
    requires Consistent(p, offset)
    ensures Consistent(Add(p, c, offset), offset)
    ensures forall k :: k in p.cameras ==> k in Add(p, c, offset).cameras && Add(p, c, offset).cameras[k] == p.cameras[k]
  {
  }

  lemma {:induction false} AddAllKeeps(p: Provider, added: seq<Candidate>, offset: int)
    requires Consistent(p, offset)
    ensures Consistent(AddAll(p, added, offset), offset)
    ensures forall k :: k in p.cameras ==>
      k in AddAll(p, added, offset).cameras && AddAll(p, added, offset).cameras[k] == p.cameras[k]
    decreases |added|
  {
    if added != [] {
      AddKeeps(p, added[0], offset);
      AddAllKeeps(Add(p, added[0], offset), added[1..], offset);
    }
  }

  lemma RescanKeeps(p: Provider, found: seq<Candidate>, offset: int)
    requires Consistent(p, offset)
    ensures Consistent(Rescan(p, found, offset), offset)
  {
    var left := Drop(p, Removed(p, found));
    DropKeeps(p, Removed(p, found), offset);
    AddAllKeeps(left, Sort(New(found, left.cameras)), offset);
  }

  /** In every run of rescans live cameras have different IDs, and external ones IDs from the offset on. */
  lemma {:induction false} RunsKeepIdsApart(scans: seq<seq<Candidate>>, offset: int)
    ensures Consistent(After(scans, offset), offset)
  {
    if scans != [] {
      RunsKeepIdsApart(scans[..|scans| - 1], offset);
      RescanKeeps(After(scans[..|scans| - 1], offset), scans[|scans| - 1], offset);
    }
  }

  /** A camera that is still there, at the same node, keeps its ID through the rescan. */
  lemma LiveKeepsId(p: Provider, found: seq<Candidate>, offset: int, key: string)
    requires Consistent(p, offset) && key in p.cameras
    requires exists c :: c in found && c.key == key && c.path == p.cameras[key].path
    ensures
      var after := Rescan(p, found, offset);
      key in after.cameras && after.cameras[key] == p.cameras[key]
  {
    var c :| c in found && c.key == key && c.path == p.cameras[key].path;
    var i :| 0 <= i < |found| && found[i] == c;
    var left := Drop(p, Removed(p, found));
    DropKeeps(p, Removed(p, found), offset);
    AddAllKeeps(left, Sort(New(found, left.cameras)), offset);
  }

  // --- Cameras that come back ----------------------------------------------------------

  ghost predicate DistinctKeys(s: seq<Candidate>) {
    forall i, j :: 0 <= i < j < |s| ==> s[i].key != s[j].key
  }

  /** The IDs these cameras had are in their range, different, and free. */
  ghost predicate AllComeBack(ids: Ids, added: seq<Candidate>, offset: int) {
    DistinctKeys(added) &&
    (forall i :: 0 <= i < |added| ==> KeepsId(ids, added[i].key, added[i].internal, offset)) &&
    (forall i, j :: 0 <= i < j < |added| ==> ids.given[added[i].key] != ids.given[added[j].key])
  }

  lemma ComeBackStep(p: Provider, added: seq<Candidate>, offset: int)
    requires AllComeBack(p.ids, added, offset) && added != []
    ensures
      var next := Add(p, added[0], offset);
      AllComeBack(next.ids, added[1..], offset) && next.ids.given == p.ids.given
  {
    assert p.ids.given[added[0].key := p.ids.given[added[0].key]] == p.ids.given;
  }

  /** When only such cameras come back, each gets its own ID, whatever their order. */
  lemma {:induction false} AllKeepTheirIds(p: Provider, added: seq<Candidate>, offset: int, i: nat)
    requires AllComeBack(p.ids, added, offset) && i < |added| && added[i].usable
    requires forall j :: 0 <= j < |added| ==> added[j].key !in p.cameras
    ensures
      var after := AddAll(p, added, offset);
      added[i].key in after.cameras && after.cameras[added[i].key].id == p.ids.given[added[i].key]
    decreases |added|
  {
    var next := Add(p, added[0], offset);
    ComeBackStep(p, added, offset);
    if i == 0 {
      AddAllLeaves(next, added[1..], offset, added[0].key);
    } else {
      AllKeepTheirIds(next, added[1..], offset, i - 1);
    }
  }

  lemma {:induction false} AddAllLeaves(p: Provider, added: seq<Candidate>, offset: int, key: string)
    requires key in p.cameras
    ensures key in AddAll(p, added, offset).cameras && AddAll(p, added, offset).cameras[key] == p.cameras[key]
    decreases |added|
  {
    if added != [] {
      AddAllLeaves(Add(p, added[0], offset), added[1..], offset, key);
    }
  }

  /** What Add does for a camera that is not live: its ID is its old one exactly under the conditions above. */
  lemma AddedId(p: Provider, c: Candidate, offset: int)
    requires c.usable && c.key !in p.cameras
    ensures
      var after := Add(p, c, offset);
      c.key in after.cameras && after.cameras[c.key].id !in p.ids.inUse &&
      (if KeepsId(p.ids, c.key, c.internal, offset)
       then after.cameras[c.key].id == p.ids.given[c.key]
       else Base(c.internal, offset) <= after.cameras[c.key].id &&
            forall i :: Base(c.internal, offset) <= i < after.cameras[c.key].id ==> i in p.ids.inUse)
  {
  }

  /** A camera that is replugged may lose its ID: here a new one that is sorted before it takes that. */
  lemma RepluggedMayLoseId()
    ensures
      var before := [Candidate("b", true, true, "/dev/video0", true)];
      var later := [Candidate("b", true, true, "/dev/video2", true), Candidate("a", true, true, "/dev/video0", true)];
      var p := After([before], 100);
      var after := Rescan(p, later, 100);
      "b" in p.cameras && p.cameras["b"].id == 0 &&
      "b" in after.cameras && after.cameras["b"].id == 1 && "a" in after.cameras && after.cameras["a"].id == 0
  {
    OneCameraFound();
    OneReplugged();
  }

  const ONE_CAMERA := Provider(Ids(map["b" := 0], {0}), map["b" := Camera(0, true, "/dev/video0")])

  lemma OneCameraFound()
    ensures After([[Candidate("b", true, true, "/dev/video0", true)]], 100) == ONE_CAMERA
  {
    var b := Candidate("b", true, true, "/dev/video0", true);
    assert [[b]][..0] == [] && [b][..0] == [] && [b][1..] == [];
    assert New([b], map[]) == New([], map[]) + [b] == [b];
    assert Sort([b]) == Insert(b, []) == [b];
    assert Removed(START, [b]) == {};
    assert Drop(START, {}) == START;
    assert AddAll(START, [b], 100) == AddAll(Add(START, b, 100), [], 100) == ONE_CAMERA;
  }

  lemma OneReplugged()
    ensures
      var b, a := Candidate("b", true, true, "/dev/video2", true), Candidate("a", true, true, "/dev/video0", true);
      Rescan(ONE_CAMERA, [b, a], 100).cameras ==
        map["a" := Camera(0, true, "/dev/video0"), "b" := Camera(1, true, "/dev/video2")]
  {
    var b, a := Candidate("b", true, true, "/dev/video2", true), Candidate("a", true, true, "/dev/video0", true);
    assert !Present([b, a], "b", "/dev/video0");
    assert Removed(ONE_CAMERA, [b, a]) == {"b"};
    var left := Provider(Ids(map["b" := 0], {}), map[]);
    assert Drop(ONE_CAMERA, {"b"}) == left;
    NewAndSorted(a, b);
    var one := Add(left, a, 100);
    assert one == Provider(Ids(map["b" := 0, "a" := 0], {0}), map["a" := Camera(0, true, "/dev/video0")]);
    assert [a, b][1..] == [b] && [b][1..] == [];
    assert AddAll(left, [a, b], 100) == AddAll(one, [b], 100) == Add(one, b, 100);
  }

  lemma NewAndSorted(a: Candidate, b: Candidate)
    requires Before(a, b) && !Before(b, a)
    ensures Sort(New([b, a], map[])) == [a, b]
  {
    assert [b, a][..1] == [b] && [b][..0] == [] && [b, a][1..] == [a] && [a][1..] == [];
    assert New([b], map[]) == New([], map[]) + [b] == [b];
    assert New([b, a], map[]) == New([b], map[]) + [a] == [b, a];
    assert Sort([a]) == Insert(a, []) == [a];
    assert Sort([b, a]) == Insert(b, [a]) == [a] + Insert(b, []) == [a, b];
  }

  // --- The order of probing ------------------------------------------------------------

  lemma {:induction false} LessOrder(a: string, b: string, c: string)
    ensures Less(a, b) ==> !Less(b, a)
    ensures a != b ==> Less(a, b) || Less(b, a)
    ensures Less(a, b) && Less(b, c) ==> Less(a, c)
    decreases |a|
  {
    if a != "" && b != "" {
      if c != "" {
        LessOrder(a[1..], b[1..], c[1..]);
      } else {
        LessOrder(a[1..], b[1..], "");
      }
      assert a == [a[0]] + a[1..] && b == [b[0]] + b[1..];
    }
  }

  lemma BeforeOrder(a: Candidate, b: Candidate, c: Candidate)
    ensures Before(a, b) ==> !Before(b, a)
    ensures a.key != b.key ==> Before(a, b) || Before(b, a)
    ensures Before(a, b) && Before(b, c) ==> Before(a, c)
  {
    LessOrder(a.key, b.key, c.key);
  }

  ghost predicate Sorted(s: seq<Candidate>) {
    forall i, j :: 0 <= i < j < |s| ==> Before(s[i], s[j])
  }

  lemma {:induction false} InsertSorts(c: Candidate, s: seq<Candidate>)
    requires Sorted(s) && forall i :: 0 <= i < |s| ==> s[i].key != c.key
    ensures Sorted(Insert(c, s)) && multiset(Insert(c, s)) == multiset(s) + multiset{c}
  {
    if s != [] {
      BeforeOrder(s[0], c, c);
      if Before(s[0], c) {
        InsertSorts(c, s[1..]);
        SmallestFirst(s[0], c, s[1..], Insert(c, s[1..]));
        assert s == [s[0]] + s[1..];
      } else {
        forall j | 0 <= j < |s| ensures Before(c, s[j]) {
          BeforeOrder(c, s[0], s[j]);
        }
      }
    }
  }

  lemma SmallestFirst(first: Candidate, c: Candidate, tail: seq<Candidate>, rest: seq<Candidate>)
    requires Sorted([first] + tail) && Before(first, c) && multiset(rest) == multiset(tail) + multiset{c}
    requires Sorted(rest)
    ensures Sorted([first] + rest)
  {
    forall j | 0 <= j < |rest| ensures Before(first, rest[j]) {
      assert rest[j] in multiset(rest);
      if rest[j] != c {
        var i :| 0 <= i < |tail| && tail[i] == rest[j];
        assert ([first] + tail)[i + 1] == rest[j] && ([first] + tail)[0] == first;
      }
    }
  }

  lemma {:induction false} SortSorts(s: seq<Candidate>)
    requires DistinctKeys(s)
    ensures Sorted(Sort(s)) && multiset(Sort(s)) == multiset(s)
  {
    if s != [] {
      var rest := Sort(s[1..]);
      SortSorts(s[1..]);
      assert s == [s[0]] + s[1..];
      forall i | 0 <= i < |rest| ensures rest[i].key != s[0].key {
        assert rest[i] in multiset(rest);
        assert rest[i] in s[1..];
      }
      InsertSorts(s[0], rest);
    }
  }

  /** Internal cameras come before others, back facing internal ones before the rest of those, and then keys decide. */
  lemma OrderSpelled(s: seq<Candidate>, i: nat, j: nat)
    requires DistinctKeys(s) && i < j < |s|
    ensures |Sort(s)| == |s|
    ensures
      var a, b := Sort(s)[i], Sort(s)[j];
      (b.internal ==> a.internal) && (a.internal && b.internal && b.back ==> a.back) &&
      (a.internal == b.internal && (a.internal ==> a.back == b.back) ==> FirstDifferenceLess(a.key, b.key))
  {
    SortSorts(s);
    assert |Sort(s)| == |multiset(Sort(s))| == |multiset(s)| == |s|;
    LessIff(Sort(s)[i].key, Sort(s)[j].key);
  }

  /** Equal up to some place, and there the first ends or has the smaller character. */
  ghost predicate FirstDifferenceLess(a: string, b: string) {
    exists k :: 0 <= k <= |a| && k < |b| && a[..k] == b[..k] && (k == |a| || a[k] < b[k])
  }

  lemma {:induction false} LessIff(a: string, b: string)
    ensures Less(a, b) <==> FirstDifferenceLess(a, b)
  {
    if a != "" && b != "" && a[0] == b[0] {
      LessIff(a[1..], b[1..]);
      if k :| 0 <= k <= |a| && k < |b| && a[..k] == b[..k] && (k == |a| || a[k] < b[k]) {
        assert k > 0;
        assert a[1..][..k - 1] == a[..k][1..] == b[..k][1..] == b[1..][..k - 1];
      }
      if k :| 0 <= k <= |a[1..]| && k < |b[1..]| && a[1..][..k] == b[1..][..k] && (k == |a[1..]| || a[1..][k] < b[1..][k]) {
        assert a[..k + 1] == [a[0]] + a[1..][..k] == [b[0]] + b[1..][..k] == b[..k + 1];
      }
    } else {
      DiffersAtOnce(a, b);
    }
  }

  lemma SamePrefix(a: string, b: string, k: nat)
    requires k <= |a| && k <= |b| && a[..k] == b[..k]
    ensures forall i :: 0 <= i < k ==> a[i] == b[i]
  {
    forall i | 0 <= i < k ensures a[i] == b[i] {
      assert a[..k][i] == b[..k][i];
    }
  }

  lemma DiffersAtOnce(a: string, b: string)
    requires a == "" || b == "" || a[0] != b[0]
    ensures FirstDifferenceLess(a, b) <==> b != "" && (a == "" || a[0] < b[0])
  {
    if k :| 0 <= k <= |a| && k < |b| && a[..k] == b[..k] && (k == |a| || a[k] < b[k]) {
      SamePrefix(a, b, k);
    }
    if b != "" && (a == "" || a[0] < b[0]) {
      assert a[..0] == b[..0];
    }
  }

  lemma SameFirst(a: seq<Candidate>, b: seq<Candidate>)
    requires Sorted(a) && Sorted(b) && multiset(a) == multiset(b) && a != [] && b != []
    ensures a[0] == b[0]
  {
    assert a[0] in multiset(b) && b[0] in multiset(a);
    assert a[0] in b && b[0] in a;
    BeforeOrder(a[0], b[0], b[0]);
  }

  lemma WithoutFirst(s: seq<Candidate>)
    requires s != []
    ensures multiset(s[1..]) == multiset(s) - multiset{s[0]}
  {
    assert s == [s[0]] + s[1..];
  }

  lemma {:induction false} SortedUnique(a: seq<Candidate>, b: seq<Candidate>)
    requires Sorted(a) && Sorted(b) && multiset(a) == multiset(b)
    ensures a == b
  {
    if a == [] || b == [] {
      assert |multiset(a)| == |a| == |b|;
    } else {
      SameFirst(a, b);
      WithoutFirst(a);
      WithoutFirst(b);
      SortedUnique(a[1..], b[1..]);
      assert a == [a[0]] + a[1..] && b == [b[0]] + b[1..];
    }
  }

  lemma {:induction false} NewCounts(found: seq<Candidate>, cameras: map<string, Camera>, c: Candidate)
    ensures multiset(New(found, cameras))[c] == if c.key in cameras then 0 else multiset(found)[c]
  {
    if found != [] {
      NewCounts(found[..|found| - 1], cameras, c);
      assert found == found[..|found| - 1] + [found[|found| - 1]];
    }
  }

  lemma {:induction false} NewKeys(found: seq<Candidate>, cameras: map<string, Camera>)
    requires DistinctKeys(found)
    ensures DistinctKeys(New(found, cameras))
    ensures forall i :: 0 <= i < |New(found, cameras)| ==> New(found, cameras)[i] in found
  {
    if found != [] {
      NewKeys(found[..|found| - 1], cameras);
    }
  }

  /** The IDs do not depend on the order in which discovery found the cameras. */
  lemma ProbeOrderDoesNotMatter(p: Provider, found: seq<Candidate>, other: seq<Candidate>, offset: int)
    requires DistinctKeys(found) && DistinctKeys(other) && multiset(found) == multiset(other)
    ensures Rescan(p, found, offset) == Rescan(p, other, offset)
  {
    forall c: Candidate ensures c in found <==> c in other {
      assert c in multiset(found) <==> c in multiset(other);
    }
    SamePresent(p, found, other);
    var left := Drop(p, Removed(p, found));
    var a, b := New(found, left.cameras), New(other, left.cameras);
    NewKeys(found, left.cameras);
    NewKeys(other, left.cameras);
    forall c ensures multiset(a)[c] == multiset(b)[c] {
      NewCounts(found, left.cameras, c);
      NewCounts(other, left.cameras, c);
    }
    SortSorts(a);
    SortSorts(b);
    SortedUnique(Sort(a), Sort(b));
  }

  lemma SamePresent(p: Provider, found: seq<Candidate>, other: seq<Candidate>)
    requires forall c: Candidate :: c in found <==> c in other
    ensures Removed(p, found) == Removed(p, other)
  {
    forall key, path ensures Present(found, key, path) <==> Present(other, key, path) {
      if Present(found, key, path) {
        var i :| 0 <= i < |found| && found[i].key == key && found[i].path == path;
        assert found[i] in other;
      }
      if Present(other, key, path) {
        var i :| 0 <= i < |other| && other[i].key == key && other[i].path == path;
        assert other[i] in found;
      }
    }
  }
}
