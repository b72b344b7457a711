/**
 * The localStorage helpers: JSON get/set, removal by key and by prefix,
 * and the append-only event log under `aa.events`. The store is a map
 * from keys to stored text; `JSON.parse` and `JSON.stringify` are opaque
 * functions fixed when the store is created, and no round trip between
 * them is assumed.
 */
module Storage {
  import opened Wrappers
  import opened JsValue
  import opened JsText

  const EventsKey := "aa.events"

  /** The entry `appendEvent` records. */
  function EventEntry(name: string, payload: Value, timestamp: string): Value {
    Obj(map["event" := Str(name), "payload" := payload, "timestamp" := Str(timestamp)])
  }

  /** The list `appendEvent` writes back, given what `getJson('aa.events', [])`
      returned: `?? []` turns null and undefined into the empty list, and a
      stored value that is not an array makes `push` throw (None). */
  function AppendedLog(current: Value, entry: Value): (r: Option<seq<Value>>)
    ensures r.Some? <==> current.Arr? || current.Null? || current.Undefined?
    ensures r.Some? ==> |r.value| >= 1 && r.value[|r.value| - 1] == entry
    ensures current.Arr? ==> r == Some(current.items + [entry])
    ensures current.Null? || current.Undefined? ==> r == Some([entry])
  {
    match current
    case Arr(events) => Some(events + [entry])
    case Null => Some([entry])
    case Undefined => Some([entry])
    case _ => None
  }

  /** The keys of `items` that do not start with `prefix`, with their text. */
  function WithoutPrefix(items: map<string, string>, prefix: string): (r: map<string, string>)
    ensures forall k :: k in r <==> k in items && !StartsWith(k, prefix)
    ensures forall k | k in r :: r[k] == items[k]
  {
    map k | k in items && !StartsWith(k, prefix) :: items[k]
  }

  class LocalStorage {
    /** `typeof window !== 'undefined'`. */
    const isBrowser: bool
    /** `JSON.parse`; None when it throws. */
    const parse: string -> Option<Value>
    /** `JSON.stringify`. */
    const stringify: Value -> string
    var items: map<string, string>

    constructor(isBrowser: bool, parse: string -> Option<Value>, stringify: Value -> string,
                items: map<string, string>)
      ensures this.isBrowser == isBrowser && this.parse == parse && this.stringify == stringify
      ensures this.items == items
    {
      this.isBrowser := isBrowser;
      this.parse := parse;
      this.stringify := stringify;
      this.items := items;
    }

    /** `window.localStorage.getItem`. */
    function GetItem(key: string): (r: Option<string>)
      reads this
      ensures r.Some? <==> key in items
      ensures r.Some? ==> r.value == items[key]
    {
      if key in items then Some(items[key]) else None
    }

    /** `window.localStorage.setItem`. */
    method SetItem(key: string, text: string)
      modifies this`items
      ensures items == old(items)[key := text]
    {
      items := items[key := text];
    }

    /** `window.localStorage.removeItem`. */
    method RemoveItem(key: string)
      modifies this`items
      ensures items == old(items) - {key}
    {
      items := items - {key};
    }

    /** `getJson(key, fallback)`. */
    function GetJson(key: string, fallback: Value := Null): (r: Value)
      reads this
      ensures !isBrowser || key !in items ==> r == fallback
      ensures isBrowser && key in items && parse(items[key]).None? ==> r == fallback
      ensures isBrowser && key in items && parse(items[key]).Some? ==> r == parse(items[key]).value
    {
      if !isBrowser then fallback
      else match GetItem(key)
        case None => fallback
        case Some(text) => parse(text).GetOr(fallback)
    }

    /** `setJson(key, value)`: only `key` changes. */
    method SetJson(key: string, value: Value)
      modifies this`items
      ensures isBrowser ==> items == old(items)[key := stringify(value)]
      ensures !isBrowser ==> items == old(items)
    {
      if isBrowser {
        SetItem(key, stringify(value));
      }
    }

    /** `remove(key)`: only `key` is deleted. */
    method Remove(key: string)
      modifies this`items
      ensures isBrowser ==> items == old(items) - {key}
      ensures !isBrowser ==> items == old(items)
    {
      if isBrowser {
        RemoveItem(key);
      }
    }

    /** `removeByPrefix(prefix)`: collects the matching keys, then removes
        them one at a time. */
    method RemoveByPrefix(prefix: string)
      modifies this`items
      ensures isBrowser ==> items == WithoutPrefix(old(items), prefix)
      ensures isBrowser ==> forall k | k in items :: !StartsWith(k, prefix)
      ensures !isBrowser ==> items == old(items)
    {
      if !isBrowser {
        return;
      }
      var keys := set k | k in items && StartsWith(k, prefix);
      ghost var removed: set<string> := {};
      while keys != {}
        invariant keys !! removed
        invariant keys + removed == set k | k in old(items) && StartsWith(k, prefix)
        invariant items == map k | k in old(items) && k !in removed :: old(items)[k]
        decreases keys
      {
        var k :| k in keys;
        RemoveItem(k);
        keys := keys - {k};
        removed := removed + {k};
      }
    }

    /** The store after `appendEvent(name, payload)` at time `timestamp`,
        starting from `items`. */
    function AfterAppend(items: map<string, string>, name: string, payload: Value, timestamp: string)
      : map<string, string>
    {
      var current := if EventsKey in items then parse(items[EventsKey]).GetOr(Arr([])) else Arr([]);
      match AppendedLog(current, EventEntry(name, payload, timestamp))
      case Some(log) => items[EventsKey := stringify(Arr(log))]
      case None => items
    }

    /** `appendEvent(name, payload)`. `timestamp` is what
        `new Date().toISOString()` returned. */
    method AppendEvent(name: string, payload: Value, timestamp: string)
      modifies this`items
      ensures isBrowser ==> items == AfterAppend(old(items), name, payload, timestamp)
      ensures !isBrowser ==> items == old(items)
    {
      if !isBrowser {
        return;
      }
      var entry := EventEntry(name, payload, timestamp);
      var current := GetJson(EventsKey, Arr([]));
      var log := AppendedLog(current, entry);
      if log.Some? {
        SetJson(EventsKey, Arr(log.value));
      }
    }

    /** Appending touches `aa.events` and nothing else. */
    lemma AppendTouchesOnlyEvents(items: map<string, string>, name: string, payload: Value, timestamp: string)
      ensures AfterAppend(items, name, payload, timestamp).Keys <= items.Keys + {EventsKey}
      ensures forall k | k in items && k != EventsKey :: AfterAppend(items, name, payload, timestamp)[k] == items[k]
    {
    }

    /** When the log reads back as a list (or is missing), the list written
        back is the old one with the new entry at its end. */
    lemma AppendGrowsLog(items: map<string, string>, name: string, payload: Value, timestamp: string,
                         old_log: seq<Value>)
      requires EventsKey !in items || parse(items[EventsKey]) == Some(Arr(old_log))
      requires EventsKey !in items ==> old_log == []
      ensures AfterAppend(items, name, payload, timestamp) ==
              items[EventsKey := stringify(Arr(old_log + [EventEntry(name, payload, timestamp)]))]
    {
      if EventsKey !in items {
        assert old_log + [EventEntry(name, payload, timestamp)] == [EventEntry(name, payload, timestamp)];
      }
    }
  }
}
