/**
 * The per-module checklist: which items are ticked, persisted in
 * localStorage under `<prefix>.task.<id>` as the raw text `true`/`false`,
 * and the progress figures shown above the list.
 */
module ChecklistModel {
  import opened Wrappers
  import opened JsValue
  import opened CourseContent
  import Storage

  const ToggleEvent := "checklist_toggle"
  const ResetEvent := "checklist_reset"

  /** `${storageKeyPrefix}.task.${item.id}`. */
  function TaskKey(prefix: string, id: string): string {
    prefix + ".task." + id
  }

  /** The storage keys of the given items. */
  function TaskKeys(prefix: string, items: seq<ChecklistItem>): (keys: set<string>)
    ensures forall k :: k in keys <==> exists i :: 0 <= i < |items| && k == TaskKey(prefix, items[i].id)
  {
    if items == [] then {}
    else
      var last := items[|items| - 1];
      var earlier := TaskKeys(prefix, items[..|items| - 1]);
      assert forall i :: 0 <= i < |items| - 1 ==> items[..|items| - 1][i] == items[i];
      earlier + {TaskKey(prefix, last.id)}
  }

  /** `!!state[id]`: an id without an entry is unchecked. */
  predicate Checked(state: map<string, bool>, id: string) {
    id in state && state[id]
  }

  /** The updater `toggleItem` hands to `setState`. */
  function Toggled(state: map<string, bool>, id: string): (r: map<string, bool>)
    ensures Checked(r, id) == !Checked(state, id)
    ensures r.Keys == state.Keys + {id}
    ensures forall k | k in state && k != id :: r[k] == state[k]
  {
    state[id := !Checked(state, id)]
  }

  /** Toggling the same item twice gives every item its checked value back. */
  lemma ToggleTwiceRestores(state: map<string, bool>, id: string)
    ensures forall k :: Checked(Toggled(Toggled(state, id), id), k) == Checked(state, k)
  {
  }

  /** The raw text a toggle writes. */
  function RawChecked(checked: bool): (raw: string)
    ensures raw == "true" <==> checked
  {
    if checked then "true" else "false"
  }

  datatype Progress = Progress(completed: nat, total: nat, percent: int)

  /** `progress`: `total` is the item count or 1 for an empty list,
      `completed` counts the true entries, and `percent` is
      `Math.round(completed / total * 100)` computed exactly. */
  function ComputeProgress(itemCount: nat, state: map<string, bool>): (p: Progress)
    ensures p.total == if itemCount == 0 then 1 else itemCount
    ensures p.completed == |set k | k in state && state[k]|
    ensures p.total * (2 * p.percent - 1) <= 200 * p.completed < p.total * (2 * p.percent + 1)
  {
    var total := if itemCount == 0 then 1 else itemCount;
    var completed := |set k | k in state && state[k]|;
    var percent := (200 * completed + total) / (2 * total);
    RoundHalfUp(200 * completed + total, 2 * total, percent);
    Progress(completed, total, percent)
  }

  /** `q == floor(n / d)` places `n` between `d * q` and `d * (q + 1)`. */
  lemma RoundHalfUp(n: int, d: int, q: int)
    requires d > 0 && q == n / d
    ensures d * q <= n < d * q + d
  {
  }

  lemma MulMonotone(t: int, a: int, b: int)
    requires t > 0 && a <= b
    ensures t * a <= t * b
  {
    assert t * b - t * a == t * (b - a);
  }

  /** The rounding bounds pin the percentage to 0..100 when `c <= t`. */
  lemma PercentRange(c: int, t: int, p: int)
    requires 0 <= c <= t && t > 0
    requires t * (2 * p - 1) <= 200 * c < t * (2 * p + 1)
    ensures 0 <= p <= 100
    ensures p == 100 <==> 200 * c >= 199 * t
  {
    if p > 100 {
      MulMonotone(t, 201, 2 * p - 1);
      MulMonotone(t, c, t);
    }
    if p < 0 {
      MulMonotone(t, 2 * p + 1, -1);
    }
    if p < 100 {
      MulMonotone(t, 2 * p + 1, 199);
    }
  }

  /** With no more ticks than items the percentage stays within 0..100,
      and it is 100 exactly when the ticks reach 99.5% of the items. */
  lemma ProgressBounds(itemCount: nat, state: map<string, bool>)
    requires |set k | k in state && state[k]| <= itemCount
    ensures var p := ComputeProgress(itemCount, state);
            0 <= p.percent <= 100 && (p.percent == 100 <==> 200 * p.completed >= 199 * p.total)
  {
    var p := ComputeProgress(itemCount, state);
    PercentRange(p.completed, p.total, p.percent);
  }

  class Checklist {
    const store: Storage.LocalStorage
    const items: seq<ChecklistItem>
    const prefix: string
    var state: map<string, bool>

    constructor(store: Storage.LocalStorage, items: seq<ChecklistItem>, prefix: string)
      ensures this.store == store && this.items == items && this.prefix == prefix
      ensures state == map[]
    {
      this.store := store;
      this.items := items;
      this.prefix := prefix;
      state := map[];
    }

    /** The load effect: every listed item is checked iff its stored raw
        value is exactly `true`; the state holds no other ids. */
    method Load()
      modifies this`state
      ensures !store.isBrowser ==> state == old(state)
      ensures store.isBrowser ==>
                forall id :: id in state <==> exists i :: 0 <= i < |items| && items[i].id == id
      ensures store.isBrowser ==>
                forall id | id in state :: state[id] == (store.GetItem(TaskKey(prefix, id)) == Some("true"))
    {
      if !store.isBrowser {
        return;
      }
      var next: map<string, bool> := map[];
      for n := 0 to |items|
        invariant forall id :: id in next <==> exists i :: 0 <= i < n && items[i].id == id
        invariant forall id | id in next :: next[id] == (store.GetItem(TaskKey(prefix, id)) == Some("true"))
      {
        var id := items[n].id;
        var raw := store.GetItem(TaskKey(prefix, id));
        next := next[id := raw == Some("true")];
      }
      state := next;
    }

    /** `toggleItem(item)`: flips one entry, writes the raw value to that
        item's key and logs the toggle when `window.aaLog` is installed. */
    method ToggleItem(item: ChecklistItem, logInstalled: bool, timestamp: string)
      modifies this`state, store`items
      ensures state == Toggled(old(state), item.id)
      ensures !store.isBrowser ==> store.items == old(store.items)
      ensures store.isBrowser ==>
                var written := old(store.items)[TaskKey(prefix, item.id) := RawChecked(Checked(state, item.id))];
                var payload := Obj(map["prefix" := Str(prefix), "itemId" := Str(item.id),
                                       "checked" := Bool(Checked(state, item.id))]);
                store.items == if logInstalled then store.AfterAppend(written, ToggleEvent, payload, timestamp)
                               else written
    {
      var nextValue := !Checked(state, item.id);
      var nextState := state[item.id := nextValue];
      if store.isBrowser {
        store.SetItem(TaskKey(prefix, item.id), RawChecked(nextValue));
        if logInstalled {
          var payload := Obj(map["prefix" := Str(prefix), "itemId" := Str(item.id), "checked" := Bool(nextValue)]);
          store.AppendEvent(ToggleEvent, payload, timestamp);
        }
      }
      state := nextState;
    }

    /** `resetModule()`: removes exactly the listed items' keys and clears
        the state; outside the browser it does nothing. */
    method ResetModule(logInstalled: bool, timestamp: string)
      modifies this`state, store`items
      ensures !store.isBrowser ==> state == old(state) && store.items == old(store.items)
      ensures store.isBrowser ==> state == map[]
      ensures store.isBrowser ==>
                var keys := TaskKeys(prefix, items);
                var cleared := map k | k in old(store.items) && k !in keys :: old(store.items)[k];
                store.items == if logInstalled
                               then store.AfterAppend(cleared, ResetEvent, Obj(map["prefix" := Str(prefix)]), timestamp)
                               else cleared
    {
      if !store.isBrowser {
        return;
      }
      for n := 0 to |items|
        invariant store.items == map k | k in old(store.items) && k !in TaskKeys(prefix, items[..n]) :: old(store.items)[k]
      {
        assert items[..n + 1][..n] == items[..n];
        store.RemoveItem(TaskKey(prefix, items[n].id));
      }
      assert items[..|items|] == items;
      if logInstalled {
        store.AppendEvent(ResetEvent, Obj(map["prefix" := Str(prefix)]), timestamp);
      }
      state := map[];
    }
  }
}
