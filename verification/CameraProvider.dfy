/**
 * The allocator and the provider as classes
 * (interfaces/camera/mainline/provider/CameraIdAllocator.cpp,
 * interfaces/camera/mainline/provider/CameraProvider.cpp).
 */
module CameraProvider {
  import opened CameraIds

  class CameraIdAllocator {
    const externalOffset: int
    var given: map<string, int>
    var inUse: set<int>

    function View(): Ids
      reads this
    {
      Ids(given, inUse)
    }

    constructor (externalOffset: int)
      ensures this.externalOffset == externalOffset && View() == Ids(map[], {})
    {
      this.externalOffset := externalOffset;
      given, inUse := map[], {};
    }

    method Allocate(key: string, internal: bool) returns (id: int)
      modifies this
      ensures (View(), id) == CameraIds.Allocate(old(View()), key, internal, externalOffset)
    {
      if key in given {
        var previous := given[key];
        if InRange(previous, internal, externalOffset) && previous !in inUse {
          inUse := inUse + {previous};
          assert given[key := previous] == given;
          return previous;
        }
      }
      id := if internal then 0 else externalOffset;
      while id in inUse
        invariant View() == old(View())
        invariant LeastFree(inUse, id) == LeastFree(inUse, Base(internal, externalOffset))
        decreases set i | i in inUse && i >= id
      {
        AtOrAboveShrinks(inUse, id);
        id := id + 1;
      }
      inUse := inUse + {id};
      given := given[key := id];
    }

    method Release(key: string)
      modifies this
      ensures View() == CameraIds.Release(old(View()), key)
    {
      if key in given {
        inUse := inUse - {given[key]};
      }
    }
  }

  class CameraProvider {
    const ids: CameraIdAllocator
    var cameras: map<string, Camera>

    function View(): Provider
      reads this, ids
    {
      Provider(ids.View(), cameras)
    }

    constructor (externalOffset: int)
      ensures fresh(ids) && ids.externalOffset == externalOffset && View() == START
    {
      ids := new CameraIdAllocator(externalOffset);
      cameras := map[];
    }

    method Remove(key: string)
      modifies this, ids
      ensures View() == Provider(CameraIds.Release(old(View()).ids, key), old(cameras) - {key})
    {
      ids.Release(key);
      cameras := cameras - {key};
    }

    /** Releases every camera that is gone. */
    method RemoveGone(found: seq<Candidate>)
      modifies this, ids
      ensures View() == Drop(old(View()), Removed(old(View()), found))
    {
      ghost var before := View();
      ghost var gone: set<string> := {};
      var keys := cameras.Keys;
      while keys != {}
        invariant keys <= before.cameras.Keys && gone !! keys && gone <= before.cameras.Keys
        invariant gone + keys >= Removed(before, found) >= gone
        invariant View() == Drop(before, gone)
        decreases |keys|
      {
        var key :| key in keys;
        keys := keys - {key};
        if !Present(found, key, cameras[key].path) {
          DropOneMore(before, gone, key);
          Remove(key);
          gone := gone + {key};
        }
      }
      assert gone == Removed(before, found);
    }

    method Rescan(found: seq<Candidate>)
      modifies this, ids
      ensures View() == CameraIds.Rescan(old(View()), found, ids.externalOffset)
    {
      RemoveGone(found);
      ghost var left := View();
      var added := [];
      var i := 0;
      while i < |found|
        invariant 0 <= i <= |found| && View() == left && added == New(found[..i], cameras)
      {
        assert found[..i + 1][..i] == found[..i];
        if found[i].key !in cameras {
          added := added + [found[i]];
        }
        i := i + 1;
      }
      assert found[..i] == found;
      added := Sort(added);
      ghost var goal := AddAll(left, added, ids.externalOffset);
      i := 0;
      while i < |added|
        invariant 0 <= i <= |added| && AddAll(View(), added[i..], ids.externalOffset) == goal
      {
        var c := added[i];
        if c.usable {
          var id := ids.Allocate(c.key, c.internal);
          if c.key !in cameras {
            cameras := cameras[c.key := Camera(id, c.internal, c.path)];
          }
        }
        assert added[i..][1..] == added[i + 1..];
        i := i + 1;
      }
    }
  }

  lemma DropOneMore(p: Provider, keys: set<string>, key: string)
    requires key in p.cameras && key !in keys
    ensures Drop(p, keys + {key}) == Provider(Release(Drop(p, keys).ids, key), Drop(p, keys).cameras - {key})
  {
  }
}
