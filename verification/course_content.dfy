/**
 * The course catalogue's generated parts: checklist item ids and the list
 * of module ids. The course text itself is static data.
 */
module CourseContent {
  import opened JsText

  datatype Track = Beginner | Intermediate | Advanced {
    /** The string the `Track` union type uses. */
    function Name(): string {
      match this
      case Beginner => "beginner"
      case Intermediate => "intermediate"
      case Advanced => "advanced"
    }
  }

  datatype ChecklistItem = ChecklistItem(id: string, text: string)  // `text` is the item's `label`

  /** A course module; only its id is used by the page logic. */
  datatype CourseModule = CourseModule(id: string, title: string)

  /** The part of every id that `makeItems(moduleId, track, _)` shares. */
  function ItemIdPrefix(moduleId: string, track: Track): string {
    moduleId + "-" + track.Name() + "-"
  }

  /** `String(index + 1).padStart(2, '0')`. */
  function ItemNumber(index: nat): (r: string)
    ensures |r| >= 2
    ensures forall i :: 0 <= i < |r| ==> IsDigit(r[i])
    ensures DecimalValue(r) == index + 1
    ensures index + 1 < 10 ==> r == ['0', DigitChar(index + 1)]
    ensures index + 1 >= 10 ==> r == NatToDecimal(index + 1)
  {
    PaddedValue(index + 1, 2);
    PadStart(NatToDecimal(index + 1), 2, '0')
  }

  /** `makeItems(moduleId, track, labels)`: one item per label, in order,
      and no two with the same id. */
  function MakeItems(moduleId: string, track: Track, labels: seq<string>): (items: seq<ChecklistItem>)
    ensures |items| == |labels|
    ensures forall i :: 0 <= i < |items| ==> items[i].text == labels[i]
    ensures forall i :: 0 <= i < |items| ==>
              items[i].id == ItemIdPrefix(moduleId, track) + ItemNumber(i)
    ensures forall i, j :: 0 <= i < j < |items| ==> items[i].id != items[j].id
  {
    ItemIdsDistinct(ItemIdPrefix(moduleId, track), |labels|);
    seq(|labels|, i requires 0 <= i < |labels| =>
      ChecklistItem(ItemIdPrefix(moduleId, track) + ItemNumber(i), labels[i]))
  }

  /** Item numbers are the positions counted from one: the first nine are
      written with a leading zero, and reading any back gives `i + 1`. */
  lemma ItemNumberExamples()
    ensures ItemNumber(0) == "01"
    ensures ItemNumber(8) == "09"
    ensures ItemNumber(9) == "10"
    ensures ItemNumber(99) == "100"
  {
    assert NatToDecimal(10) == "10";
    assert NatToDecimal(100) == NatToDecimal(10) + "0";
  }

  /** Distinct positions give distinct ids under one prefix. */
  lemma ItemIdsDistinct(prefix: string, n: nat)
    ensures forall i, j :: 0 <= i < j < n ==> prefix + ItemNumber(i) != prefix + ItemNumber(j)
  {
    forall i, j | 0 <= i < j < n
      ensures prefix + ItemNumber(i) != prefix + ItemNumber(j)
    {
      var a, b := ItemNumber(i), ItemNumber(j);
      assert (prefix + a)[|prefix|..] == a && (prefix + b)[|prefix|..] == b;
    }
  }

  /** `moduleIdList`: the ids of the modules, in order. */
  function ModuleIdList(modules: seq<CourseModule>): (ids: seq<string>)
    ensures |ids| == |modules|
    ensures forall i :: 0 <= i < |ids| ==> ids[i] == modules[i].id
  {
    seq(|modules|, i requires 0 <= i < |modules| => modules[i].id)
  }
}
