/**
 * Which of the cameras that come back in a rescan have their ID again: the candidates sorted before
 * one decide it (interfaces/camera/mainline/provider/CameraProvider.cpp and
 * interfaces/camera/mainline/provider/CameraIdAllocator.cpp).
 */
module CameraReturns {
  import opened CameraIds
  import opened Common

  // --- What is known before the scan ---------------------------------------------------

  ghost function Free(inUse: set<int>, lo: int, hi: int): set<int> {
    set i | lo <= i < hi && i !in inUse
  }

  predicate ComesBack(ids: Ids, d: Candidate, offset: int) {
    d.usable && KeepsId(ids, d.key, d.internal, offset)
  }

  /** One of these cameras comes back to that ID. */
  ghost predicate Claimed(ids: Ids, before: seq<Candidate>, id: int, offset: int) {
    exists j :: 0 <= j < |before| && ComesBack(ids, before[j], offset) && ids.given[before[j].key] == id
  }

  /** Unless it is the first to come back to an ID above g, a candidate takes an ID from below. */
  ghost predicate Takes(ids: Ids, before: seq<Candidate>, d: Candidate, g: int, offset: int) {
    d.usable &&
    !(ComesBack(ids, d, offset) && ids.given[d.key] > g && !Claimed(ids, before, ids.given[d.key], offset))
  }

  ghost function Takers(ids: Ids, before: seq<Candidate>, internal: bool, g: int, offset: int): nat {
    if before == [] then 0 else
      var rest, d := before[..|before| - 1], before[|before| - 1];
      Takers(ids, rest, internal, g, offset) +
      if d.internal == internal && Takes(ids, rest, d, g, offset) then 1 else 0
  }

  /** How many of so many internal candidates find nothing free below the offset. */
  ghost function Over(ids: Ids, internals: nat, offset: int): nat {
    Max(0, internals - |Free(ids.inUse, 0, offset)|)
  }

  /** How many IDs below g are gone by then: for an external camera also those internal ones ran over to. */
  ghost function Needed(ids: Ids, before: seq<Candidate>, internal: bool, g: int, offset: int): nat {
    if internal then Takers(ids, before, true, g, offset)
    else Over(ids, Takers(ids, before, true, g, offset), offset) + Takers(ids, before, false, g, offset)
  }

  /** Nobody has the ID or comes back to it, and those sorted before need no more than is free below it. */
  ghost predicate LeftFor(ids: Ids, before: seq<Candidate>, c: Candidate, offset: int) {
    c.key in ids.given &&
    var g := ids.given[c.key];
    var needed, free := Needed(ids, before, c.internal, g, offset), |Free(ids.inUse, Base(c.internal, offset), g)|;
    g !in ids.inUse && !Claimed(ids, before, g, offset) &&
    if InRange(g, c.internal, offset) then needed <= free else c.internal && needed == free
  }

  // --- Taking one ID -------------------------------------------------------------------

  lemma TakeInside(inUse: set<int>, lo: int, hi: int, id: int)
    requires lo <= id < hi && id !in inUse
    ensures |Free(inUse + {id}, lo, hi)| == |Free(inUse, lo, hi)| - 1
  {
    assert Free(inUse, lo, hi) == Free(inUse + {id}, lo, hi) + {id};
  }

  lemma TakeOutside(inUse: set<int>, lo: int, hi: int, id: int)
    requires !(lo <= id < hi) || id in inUse
    ensures Free(inUse + {id}, lo, hi) == Free(inUse, lo, hi)
  {
  }

  lemma LeastBelow(inUse: set<int>, lo: int, g: int)
    requires lo <= g
    ensures if |Free(inUse, lo, g)| == 0 then LeastFree(inUse, lo) >= g else LeastFree(inUse, lo) < g
    ensures g !in inUse && |Free(inUse, lo, g)| == 0 ==> LeastFree(inUse, lo) == g
  {
    var r := LeastFree(inUse, lo);
    if |Free(inUse, lo, g)| == 0 {
      forall i | lo <= i < g ensures i in inUse {
        assert i !in Free(inUse, lo, g);
      }
    } else {
      var i := Pick(Free(inUse, lo, g));
    }
  }

  // --- Along the candidates sorted before ----------------------------------------------

  /** IDs once given are never negative: they are counted up from 0 or from the offset. */
  ghost predicate NonNegative(ids: Ids) { forall k :: k in ids.given ==> ids.given[k] >= 0 }

  lemma ClaimedSnoc(ids: Ids, before: seq<Candidate>, d: Candidate, id: int, offset: int)
    ensures Claimed(ids, before + [d], id, offset) <==>
      Claimed(ids, before, id, offset) || (ComesBack(ids, d, offset) && ids.given[d.key] == id)
  {
    var all := before + [d];
    if Claimed(ids, before, id, offset) {
      var j :| 0 <= j < |before| && ComesBack(ids, before[j], offset) && ids.given[before[j].key] == id;
      assert all[j] == before[j];
    }
    assert all[|before|] == d;
  }

  lemma TakersSnoc(ids: Ids, before: seq<Candidate>, d: Candidate, internal: bool, g: int, offset: int)
    ensures Takers(ids, before + [d], internal, g, offset) == Takers(ids, before, internal, g, offset) +
      if d.internal == internal && Takes(ids, before, d, g, offset) then 1 else 0
  {
    assert (before + [d])[..|before|] == before;
  }

  ghost predicate Fits(ids: Ids, before: seq<Candidate>, needed: nat, lo: int, g: int, offset: int) {
    needed <= |Free(ids.inUse, lo, g)| && !Claimed(ids, before, g, offset)
  }

  /** What is in use above g is what was, and what somebody came back to. */
  ghost predicate AboveKnown(ids: Ids, before: seq<Candidate>, inUse: set<int>, g: int, offset: int) {
    forall x :: x in inUse && x > g ==> x in ids.inUse || Claimed(ids, before, x, offset)
  }

  ghost predicate ClaimsMet(ids: Ids, before: seq<Candidate>, inUse: set<int>, offset: int) {
    forall j :: 0 <= j < |before| && ComesBack(ids, before[j], offset) ==> ids.given[before[j].key] in inUse
  }

  /** The IDs in use once the candidates before are added, as far as they matter for g. */
  ghost predicate Tracks(ids: Ids, before: seq<Candidate>, inUse: set<int>, needed: nat, lo: int, g: int, offset: int) {
    ids.inUse <= inUse && ClaimsMet(ids, before, inUse, offset) &&
    if Fits(ids, before, needed, lo, g, offset) then
      g !in inUse && |Free(inUse, lo, g)| == |Free(ids.inUse, lo, g)| - needed &&
      AboveKnown(ids, before, inUse, g, offset)
    else g in inUse
  }

  /** The ID the allocator gives d when these are in use. */
  ghost function Given(ids: Ids, inUse: set<int>, d: Candidate, offset: int): int {
    if ComesBack(ids, d, offset) && ids.given[d.key] !in inUse then ids.given[d.key]
    else LeastFree(inUse, Base(d.internal, offset))
  }

  lemma ClaimsStep(ids: Ids, before: seq<Candidate>, inUse: set<int>, d: Candidate, offset: int)
    requires ClaimsMet(ids, before, inUse, offset)
    ensures ClaimsMet(ids, before + [d], inUse + {Given(ids, inUse, d, offset)}, offset)
  {
  }

  lemma AboveStep(ids: Ids, before: seq<Candidate>, inUse: set<int>, d: Candidate, id: int, g: int, offset: int)
    requires AboveKnown(ids, before, inUse, g, offset)
    requires id <= g || (ComesBack(ids, d, offset) && ids.given[d.key] == id)
    ensures AboveKnown(ids, before + [d], inUse + {id}, g, offset)
  {
    forall x | x in inUse + {id} && x > g ensures x in ids.inUse || Claimed(ids, before + [d], x, offset) {
      ClaimedSnoc(ids, before, d, x, offset);
    }
  }

  /** One more candidate of the camera's own kind. */
  lemma OwnStep(ids: Ids, before: seq<Candidate>, inUse: set<int>, needed: nat, d: Candidate, g: int, offset: int)
    requires NonNegative(ids) && d.usable && Base(d.internal, offset) <= g && g !in ids.inUse
    requires Tracks(ids, before, inUse, needed, Base(d.internal, offset), g, offset)
    ensures Tracks(ids, before + [d], inUse + {Given(ids, inUse, d, offset)},
                   needed + (if Takes(ids, before, d, g, offset) then 1 else 0), Base(d.internal, offset), g, offset)
  {
    var lo, id := Base(d.internal, offset), Given(ids, inUse, d, offset);
    ClaimsStep(ids, before, inUse, d, offset);
    ClaimedSnoc(ids, before, d, g, offset);
    if Fits(ids, before, needed, lo, g, offset) {
      LeastBelow(inUse, lo, g);
      assert ComesBack(ids, d, offset) ==> ids.given[d.key] >= lo;
      if Takes(ids, before, d, g, offset) {
        TakenFromBelow(ids, before, inUse, d, g, offset);
        AboveStep(ids, before, inUse, d, id, g, offset);
        if id < g {
          TakeInside(inUse, lo, g, id);
        }
      } else {
        AboveStep(ids, before, inUse, d, id, g, offset);
        TakeOutside(inUse, lo, g, id);
      }
    }
  }

  lemma TakenFromBelow(ids: Ids, before: seq<Candidate>, inUse: set<int>, d: Candidate, g: int, offset: int)
    requires NonNegative(ids) && Base(d.internal, offset) <= g && g !in inUse
    requires Takes(ids, before, d, g, offset) && ClaimsMet(ids, before, inUse, offset)
    ensures Base(d.internal, offset) <= Given(ids, inUse, d, offset) <= g && Given(ids, inUse, d, offset) !in inUse
    ensures Given(ids, inUse, d, offset) == g <==>
      |Free(inUse, Base(d.internal, offset), g)| == 0 || (ComesBack(ids, d, offset) && ids.given[d.key] == g)
  {
    var lo := Base(d.internal, offset);
    LeastBelow(inUse, lo, g);
    if ComesBack(ids, d, offset) && ids.given[d.key] !in inUse {
      var h := ids.given[d.key];
      if h < g {
        assert h in Free(inUse, lo, g);
      }
    }
  }

  /** How many IDs below the offset so many internal candidates leave. */
  ghost predicate Leaves(ids: Ids, inUse: set<int>, internals: nat, offset: int) {
    |Free(inUse, 0, offset)| == Max(0, |Free(ids.inUse, 0, offset)| - internals)
  }

  /** An internal candidate, for an external camera: it matters once the IDs below the offset are gone. */
  lemma InternalStep(ids: Ids, before: seq<Candidate>, inUse: set<int>, internals: nat, externals: nat, d: Candidate,
                     g: int, offset: int)
    requires NonNegative(ids) && d.usable && d.internal && 0 <= offset <= g && g !in ids.inUse
    requires Tracks(ids, before, inUse, Over(ids, internals, offset) + externals, offset, g, offset)
    requires Leaves(ids, inUse, internals, offset)
    ensures Tracks(ids, before + [d], inUse + {Given(ids, inUse, d, offset)},
                   Over(ids, internals + 1, offset) + externals, offset, g, offset)
    ensures Leaves(ids, inUse + {Given(ids, inUse, d, offset)}, internals + 1, offset)
  {
    var id := Given(ids, inUse, d, offset);
    ClaimsStep(ids, before, inUse, d, offset);
    ClaimedSnoc(ids, before, d, g, offset);
    LeastBelow(inUse, 0, offset);
    if id < offset {
      assert id in Free(inUse, 0, offset);
      TakeInside(inUse, 0, offset, id);
      TakeOutside(inUse, offset, g, id);
      BelowStep(ids, before, inUse, d, g, offset);
    } else {
      TakeOutside(inUse, 0, offset, id);
      RunOver(inUse, offset);
      if Fits(ids, before, Over(ids, internals, offset) + externals, offset, g, offset) {
        LeastBelow(inUse, offset, g);
        AboveStep(ids, before, inUse, d, id, g, offset);
        if id < g {
          TakeInside(inUse, offset, g, id);
        }
      }
    }
  }

  lemma BelowStep(ids: Ids, before: seq<Candidate>, inUse: set<int>, d: Candidate, g: int, offset: int)
    requires d.internal && offset <= g && Given(ids, inUse, d, offset) < offset
    ensures AboveKnown(ids, before, inUse, g, offset) ==>
      AboveKnown(ids, before + [d], inUse + {Given(ids, inUse, d, offset)}, g, offset)
  {
    if AboveKnown(ids, before, inUse, g, offset) {
      AboveStep(ids, before, inUse, d, Given(ids, inUse, d, offset), g, offset);
    }
  }

  lemma RunOver(inUse: set<int>, offset: int)
    requires 0 <= offset && |Free(inUse, 0, offset)| == 0
    ensures LeastFree(inUse, 0) == LeastFree(inUse, offset)
  {
    LeastBelow(inUse, 0, offset);
  }

  // --- The whole scan ------------------------------------------------------------------

  lemma {:induction false} AddAllSnoc(p: Provider, added: seq<Candidate>, d: Candidate, offset: int)
    ensures AddAll(p, added + [d], offset) == Add(AddAll(p, added, offset), d, offset)
    decreases |added|
  {
    if added == [] {
      assert [d][1..] == [];
    } else {
      assert (added + [d])[1..] == added[1..] + [d];
      AddAllSnoc(Add(p, added[0], offset), added[1..], d, offset);
    }
  }

  lemma {:induction false} GivenElsewhere(p: Provider, added: seq<Candidate>, key: string, offset: int)
    requires forall j :: 0 <= j < |added| ==> added[j].key != key
    ensures
      var after := AddAll(p, added, offset);
      (key in after.ids.given <==> key in p.ids.given) &&
      (key in p.ids.given ==> after.ids.given[key] == p.ids.given[key]) &&
      (key in after.cameras <==> key in p.cameras)
    decreases |added|
  {
    if added != [] {
      GivenElsewhere(Add(p, added[0], offset), added[1..], key, offset);
    }
  }

  lemma AddUses(ids: Ids, now: Provider, d: Candidate, offset: int)
    requires ids.inUse <= now.ids.inUse
    requires d.key in now.ids.given <==> d.key in ids.given
    requires d.key in ids.given ==> now.ids.given[d.key] == ids.given[d.key]
    ensures Add(now, d, offset).ids.inUse ==
      now.ids.inUse + if d.usable then {Given(ids, now.ids.inUse, d, offset)} else {}
  {
  }

  /** All cameras sorted before an internal one are internal. */
  ghost predicate Ahead(before: seq<Candidate>, internal: bool) {
    DistinctKeys(before) && (internal ==> forall j :: 0 <= j < |before| ==> before[j].internal)
  }

  lemma {:induction false} PrefixTracks(p: Provider, before: seq<Candidate>, internal: bool, g: int, offset: int)
    requires NonNegative(p.ids) && 0 <= offset && Base(internal, offset) <= g && g !in p.ids.inUse
    requires Ahead(before, internal)
    ensures Tracks(p.ids, before, AddAll(p, before, offset).ids.inUse, Needed(p.ids, before, internal, g, offset),
                   Base(internal, offset), g, offset)
    ensures !internal ==>
      Leaves(p.ids, AddAll(p, before, offset).ids.inUse, Takers(p.ids, before, true, g, offset), offset)
    decreases |before|
  {
    if before != [] {
      var rest, d := before[..|before| - 1], before[|before| - 1];
      PrefixTracks(p, rest, internal, g, offset);
      AddAllSnoc(p, rest, d, offset);
      assert before == rest + [d];
      GivenElsewhere(p, rest, d.key, offset);
      AddUses(p.ids, AddAll(p, rest, offset), d, offset);
      PrefixStep(p.ids, rest, AddAll(p, rest, offset).ids.inUse, d, internal, g, offset);
    }
  }

  lemma PrefixStep(ids: Ids, before: seq<Candidate>, inUse: set<int>, d: Candidate, internal: bool, g: int, offset: int)
    requires NonNegative(ids) && 0 <= offset && Base(internal, offset) <= g && g !in ids.inUse
    requires internal ==> d.internal
    requires Tracks(ids, before, inUse, Needed(ids, before, internal, g, offset), Base(internal, offset), g, offset)
    requires !internal ==> Leaves(ids, inUse, Takers(ids, before, true, g, offset), offset)
    ensures
      var next := inUse + if d.usable then {Given(ids, inUse, d, offset)} else {};
      Tracks(ids, before + [d], next, Needed(ids, before + [d], internal, g, offset), Base(internal, offset), g, offset) &&
      (!internal ==> Leaves(ids, next, Takers(ids, before + [d], true, g, offset), offset))
  {
    TakersSnoc(ids, before, d, true, g, offset);
    TakersSnoc(ids, before, d, false, g, offset);
    if !d.usable {
      assert inUse + {} == inUse;
      Skipped(ids, before, inUse, d, Needed(ids, before, internal, g, offset), Base(internal, offset), g, offset);
    } else if d.internal == internal {
      OwnStep(ids, before, inUse, Needed(ids, before, internal, g, offset), d, g, offset);
      if !internal {
        TakeOutside(inUse, 0, offset, Given(ids, inUse, d, offset));
      }
    } else {
      InternalStep(ids, before, inUse, Takers(ids, before, true, g, offset), Takers(ids, before, false, g, offset),
                   d, g, offset);
    }
  }

  lemma Skipped(ids: Ids, before: seq<Candidate>, inUse: set<int>, d: Candidate, needed: nat, lo: int, g: int, offset: int)
    requires !d.usable && Tracks(ids, before, inUse, needed, lo, g, offset)
    ensures Tracks(ids, before + [d], inUse + {}, needed, lo, g, offset)
  {
    assert inUse + {} == inUse;
    forall x ensures Claimed(ids, before + [d], x, offset) <==> Claimed(ids, before, x, offset) {
      ClaimedSnoc(ids, before, d, x, offset);
    }
  }

  /** What the allocator gives a camera after those sorted before it. */
  lemma GivenAfter(ids: Ids, before: seq<Candidate>, inUse: set<int>, c: Candidate, offset: int)
    requires NonNegative(ids) && 0 <= offset && c.usable && c.key in ids.given
    requires
      var lo, g := Base(c.internal, offset), ids.given[c.key];
      lo <= g && g !in ids.inUse ==>
        Tracks(ids, before, inUse, Needed(ids, before, c.internal, g, offset), lo, g, offset)
    requires ids.inUse <= inUse
    ensures Given(ids, inUse, c, offset) == ids.given[c.key] <==> LeftFor(ids, before, c, offset)
  {
    var lo, g := Base(c.internal, offset), ids.given[c.key];
    if lo <= g && g !in ids.inUse {
      LeastBelow(inUse, lo, g);
    }
  }

  /** The IDs and cameras left once those that are gone are dropped, and what is added to them, in order. */
  function Left(p: Provider, found: seq<Candidate>): Provider { Drop(p, Removed(p, found)) }

  function Added(p: Provider, found: seq<Candidate>): seq<Candidate> { Sort(New(found, Left(p, found).cameras)) }

  lemma AddedOnce(p: Provider, found: seq<Candidate>)
    requires DistinctKeys(found)
    ensures DistinctKeys(Added(p, found)) && Sorted(Added(p, found))
    ensures forall j :: 0 <= j < |Added(p, found)| ==> Added(p, found)[j].key !in Left(p, found).cameras
  {
    var news := New(found, Left(p, found).cameras);
    NewKeys(found, Left(p, found).cameras);
    SortSorts(news);
    var added := Sort(news);
    forall j | 0 <= j < |added| ensures added[j].key !in Left(p, found).cameras {
      assert added[j] in multiset(news);
      NewCounts(found, Left(p, found).cameras, added[j]);
    }
    forall i, j | 0 <= i < j < |added| ensures added[i].key != added[j].key {
      BeforeOrder(added[i], added[j], added[i]);
      if added[i].key == added[j].key {
        SameKeySame(news, added, i, j);
      }
    }
  }

  lemma SameKeySame(s: seq<Candidate>, sorted: seq<Candidate>, i: nat, j: nat)
    requires DistinctKeys(s) && multiset(sorted) == multiset(s) && i < |sorted| && j < |sorted|
    requires sorted[i].key == sorted[j].key
    ensures sorted[i] == sorted[j]
  {
    assert sorted[i] in multiset(s) && sorted[j] in multiset(s);
    var a :| 0 <= a < |s| && s[a] == sorted[i];
    var b :| 0 <= b < |s| && s[b] == sorted[j];
  }

  /**
   * A camera a rescan adds has the ID it had before if and only if that was left for it: nobody has it
   * or comes back to it earlier, and the candidates sorted before it that take an ID from below it are
   * no more than the IDs free there.
   */
  lemma KeepsIdIff(p: Provider, found: seq<Candidate>, i: nat, offset: int)
    requires NonNegative(p.ids) && 0 <= offset && DistinctKeys(found)
    requires i < |Added(p, found)| && Added(p, found)[i].usable && Added(p, found)[i].key in p.ids.given
    ensures
      var c, after := Added(p, found)[i], Rescan(p, found, offset);
      c.key in after.cameras &&
      (after.cameras[c.key].id == p.ids.given[c.key] <==> LeftFor(Left(p, found).ids, Added(p, found)[..i], c, offset))
  {
    var left, added := Left(p, found), Added(p, found);
    var before, c := added[..i], added[i];
    AddedOnce(p, found);
    Split(left, added, i, offset);
    GivenElsewhere(left, before, c.key, offset);
    var now := AddAll(left, before, offset);
    InUseGrows(left, before, offset);
    AddUses(left.ids, now, c, offset);
    AddAllLeaves(Add(now, c, offset), added[i + 1..], offset, c.key);
    if Base(c.internal, offset) <= left.ids.given[c.key] && left.ids.given[c.key] !in left.ids.inUse {
      PrefixTracks(left, before, c.internal, left.ids.given[c.key], offset);
    }
    GivenAfter(left.ids, before, now.ids.inUse, c, offset);
  }

  lemma {:induction false} InUseGrows(p: Provider, added: seq<Candidate>, offset: int)
    ensures p.ids.inUse <= AddAll(p, added, offset).ids.inUse
    decreases |added|
  {
    if added != [] {
      InUseGrows(Add(p, added[0], offset), added[1..], offset);
    }
  }

  lemma {:induction false} Split(p: Provider, added: seq<Candidate>, i: nat, offset: int)
    requires i < |added|
    ensures AddAll(p, added, offset) == AddAll(Add(AddAll(p, added[..i], offset), added[i], offset), added[i + 1..], offset)
    decreases |added|
  {
    if i == 0 {
      assert added[..0] == [];
    } else {
      assert added[..i][1..] == added[1..][..i - 1] && added[..i][0] == added[0];
      assert added[1..][i..] == added[i + 1..];
      Split(Add(p, added[0], offset), added[1..], i - 1, offset);
    }
  }

  // --- Whole runs ----------------------------------------------------------------------

  /** The ID a live camera has is the one noted for its key. */
  ghost predicate Noted(p: Provider) {
    NonNegative(p.ids) && forall k :: k in p.cameras ==> k in p.ids.given && p.ids.given[k] == p.cameras[k].id
  }

  lemma {:induction false} AddAllNotes(p: Provider, added: seq<Candidate>, offset: int)
    requires Noted(p) && 0 <= offset && DistinctKeys(added)
    requires forall j :: 0 <= j < |added| ==> added[j].key !in p.cameras
    ensures Noted(AddAll(p, added, offset))
    decreases |added|
  {
    if added != [] {
      AddAllNotes(Add(p, added[0], offset), added[1..], offset);
    }
  }

  lemma {:induction false} RunsNote(scans: seq<seq<Candidate>>, offset: int)
    requires 0 <= offset && forall i :: 0 <= i < |scans| ==> DistinctKeys(scans[i])
    ensures Noted(After(scans, offset))
  {
    if scans != [] {
      var earlier, found := scans[..|scans| - 1], scans[|scans| - 1];
      RunsNote(earlier, offset);
      var p := After(earlier, offset);
      AddedOnce(p, found);
      AddAllNotes(Left(p, found), Added(p, found), offset);
    }
  }

  /**
   * In every run: a live camera that is found again at another node keeps its ID if and only if those
   * sorted before it leave that one free. That it is in nobody else's use is certain.
   */
  lemma ReplugKeepsIff(scans: seq<seq<Candidate>>, found: seq<Candidate>, i: nat, offset: int)
    requires 0 <= offset && DistinctKeys(found) && forall j :: 0 <= j < |scans| ==> DistinctKeys(scans[j])
    requires
      var p := After(scans, offset);
      i < |Added(p, found)| && Added(p, found)[i].usable && Added(p, found)[i].key in p.cameras
    ensures
      var p, after := After(scans, offset), Rescan(After(scans, offset), found, offset);
      var c := Added(p, found)[i];
      p.cameras[c.key].id !in Left(p, found).ids.inUse && c.key in after.cameras &&
      (after.cameras[c.key].id == p.cameras[c.key].id <==>
         LeftFor(Left(p, found).ids, Added(p, found)[..i], c, offset))
  {
    var p := After(scans, offset);
    RunsNote(scans, offset);
    RunsKeepIdsApart(scans, offset);
    AddedOnce(p, found);
    KeepsIdIff(p, found, i, offset);
    assert Added(p, found)[i].key in Removed(p, found);
  }

  /** The camera that a new one is sorted before: one ID needed and none free below its own. */
  lemma NoneLeft()
    ensures
      var b, a := Candidate("b", true, true, "/dev/video2", true), Candidate("a", true, true, "/dev/video0", true);
      Added(ONE_CAMERA, [b, a]) == [a, b] && !LeftFor(Left(ONE_CAMERA, [b, a]).ids, [a], b, 100) &&
      "b" in Rescan(ONE_CAMERA, [b, a], 100).cameras &&
      Rescan(ONE_CAMERA, [b, a], 100).cameras["b"].id != ONE_CAMERA.cameras["b"].id
  {
    var b, a := Candidate("b", true, true, "/dev/video2", true), Candidate("a", true, true, "/dev/video0", true);
    OneReplugged();
    assert !Present([b, a], "b", "/dev/video0");
    assert Removed(ONE_CAMERA, [b, a]) == {"b"};
    NewAndSorted(a, b);
    var ids := Left(ONE_CAMERA, [b, a]).ids;
    assert ids == Ids(map["b" := 0], {});
    assert [] + [a] == [a];
    TakersSnoc(ids, [], a, true, 0, 100);
    assert Free({}, 0, 0) == {};
  }
}
