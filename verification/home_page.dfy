/**
 * The landing page's expand/collapse state: `openMap` from module id to
 * whether that module's accordion is open.
 */
module HomePage {
  import opened JsValue
  import opened CourseContent
  import Storage

  const ExpandAllEvent := "modules_expand_all"
  const CollapseAllEvent := "modules_collapse_all"

  /** `!!openMap[id]`: a module without an entry is rendered closed. */
  predicate IsOpen(openMap: map<string, bool>, id: string) {
    id in openMap && openMap[id]
  }

  /** `Object.values(openMap).some(Boolean)`. */
  predicate AnyOpen(openMap: map<string, bool>) {
    exists id | id in openMap :: openMap[id]
  }

  /** The map both `expandAll` and `collapseAll` build: every listed id,
      all with the same value. */
  function AllSet(ids: seq<string>, open: bool): (m: map<string, bool>)
    ensures forall id :: id in m <==> id in ids
    ensures forall id | id in m :: m[id] == open
  {
    map id | id in ids :: open
  }

  /** Nothing is open after `collapseAll`. */
  lemma CollapsedNoneOpen(ids: seq<string>)
    ensures !AnyOpen(AllSet(ids, false))
  {
  }

  /** After `expandAll` something is open iff there is a module. */
  lemma ExpandedAnyOpenIff(ids: seq<string>)
    ensures AnyOpen(AllSet(ids, true)) <==> |ids| > 0
  {
    if |ids| > 0 {
      assert IsOpen(AllSet(ids, true), ids[0]);
    }
  }

  class Home {
    const store: Storage.LocalStorage
    /** `moduleIdList`. */
    const moduleIds: seq<string>
    var track: Track
    var openMap: map<string, bool>

    constructor(store: Storage.LocalStorage, moduleIds: seq<string>)
      ensures this.store == store && this.moduleIds == moduleIds
      ensures track == Beginner && openMap == map[]
    {
      this.store := store;
      this.moduleIds := moduleIds;
      track := Beginner;
      openMap := map[];
    }

    /** `handleToggle(id, open)`: only `id`'s entry changes. */
    method HandleToggle(id: string, open: bool)
      modifies this`openMap
      ensures openMap == old(openMap)[id := open]
      ensures IsOpen(openMap, id) == open
      ensures forall other | other != id :: IsOpen(openMap, other) == IsOpen(old(openMap), other)
    {
      openMap := openMap[id := open];
    }

    /** The `reduce` that assigns `open` to every module id. */
    method BuildAll(open: bool) returns (acc: map<string, bool>)
      ensures acc == AllSet(moduleIds, open)
    {
      acc := map[];
      for n := 0 to |moduleIds|
        invariant acc == AllSet(moduleIds[..n], open)
      {
        assert moduleIds[..n + 1] == moduleIds[..n] + [moduleIds[n]];
        acc := acc[moduleIds[n] := open];
      }
      assert moduleIds[..|moduleIds|] == moduleIds;
    }

    /** `expandAll()`: exactly the module ids, all open; the page's logger
        records the event. */
    method ExpandAll(timestamp: string)
      modifies this`openMap, store`items
      ensures openMap == AllSet(moduleIds, true)
      ensures store.isBrowser ==>
                store.items == store.AfterAppend(old(store.items), ExpandAllEvent,
                                                 Obj(map["track" := Str(track.Name())]), timestamp)
      ensures !store.isBrowser ==> store.items == old(store.items)
    {
      openMap := BuildAll(true);
      store.AppendEvent(ExpandAllEvent, Obj(map["track" := Str(track.Name())]), timestamp);
    }

    /** `collapseAll()`: exactly the module ids, all closed. */
    method CollapseAll(timestamp: string)
      modifies this`openMap, store`items
      ensures openMap == AllSet(moduleIds, false)
      ensures store.isBrowser ==>
                store.items == store.AfterAppend(old(store.items), CollapseAllEvent,
                                                 Obj(map["track" := Str(track.Name())]), timestamp)
      ensures !store.isBrowser ==> store.items == old(store.items)
    {
      openMap := BuildAll(false);
      store.AppendEvent(CollapseAllEvent, Obj(map["track" := Str(track.Name())]), timestamp);
    }
  }
}
