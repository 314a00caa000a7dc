/** `map_array_values` and `replace_binary_values` of the Anchors
    preprocessing copies (xaibenchmark/explainerPreprocessing.py and
    xaibenchmark/customAnchorsPreprocessing.py hold the same code): a value
    map is applied to a copy of an array, entry by entry in the map's
    insertion order, each entry rewriting the elements equal to its key. */
module ArrayValues {
  import opened Values

  /** A dictionary `{src: target}` as its items in insertion order. */
  type ValueMap = seq<(Cell, Cell)>

  /** One element after the entries have been applied in order: every entry
      sees the element as the previous entries left it. */
  function MappedCell(x: Cell, entries: ValueMap): Cell
    decreases |entries|
  {
    if entries == [] then x
    else
      var y := MappedCell(x, entries[..|entries| - 1]);
      var (src, target) := entries[|entries| - 1];
      if CellEq(y, src) then target else y
  }

  /** The array `map_array_values(array, value_map)` returns. */
  function Mapped(xs: seq<Cell>, entries: ValueMap): (r: seq<Cell>)
    ensures |r| == |xs|
  {
    seq(|xs|, i requires 0 <= i < |xs| => MappedCell(xs[i], entries))
  }

  /** `map_array_values`: `ret = array.copy()`, then for every entry
      `ret[ret == src] = target`. The input array is not modified. */
  method MapArrayValues(a: array<Cell>, entries: ValueMap) returns (ret: array<Cell>)
    ensures fresh(ret)
    ensures ret[..] == Mapped(a[..], entries)
  {
    ret := new Cell[a.Length](i reads a requires 0 <= i < a.Length => a[i]);
    for k := 0 to |entries|
      invariant ret.Length == a.Length
      invariant forall j :: 0 <= j < ret.Length ==> ret[j] == MappedCell(a[j], entries[..k])
    {
      var (src, target) := entries[k];
      assert entries[..k + 1][..k] == entries[..k];
      for i := 0 to ret.Length
        invariant forall j :: 0 <= j < i ==> ret[j] == MappedCell(a[j], entries[..k + 1])
        invariant forall j :: i <= j < ret.Length ==> ret[j] == MappedCell(a[j], entries[..k])
      {
        if CellEq(ret[i], src) {
          ret[i] := target;
        }
      }
    }
    assert entries[..|entries|] == entries;
  }

  /** The position of the first entry whose key equals `x`. */
  function FirstKey(x: Cell, entries: ValueMap): (r: Option<nat>)
    ensures r.Some? ==> r.value < |entries| && CellEq(x, entries[r.value].0)
    ensures r.Some? ==> forall j :: 0 <= j < r.value ==> !CellEq(x, entries[j].0)
    ensures r.None? ==> forall j :: 0 <= j < |entries| ==> !CellEq(x, entries[j].0)
  {
    if entries == [] then None
    else if CellEq(x, entries[0].0) then Some(0)
    else match FirstKey(x, entries[1..])
      case None => None
      case Some(k) => Some(k + 1)
  }

  /** No target of the map equals any of its keys, so no element is
      rewritten twice. */
  predicate Unchained(entries: ValueMap)
  {
    forall j, k :: 0 <= j < |entries| && 0 <= k < |entries| ==> !CellEq(entries[j].1, entries[k].0)
  }

  /** An element equal to no key is kept as it is. */
  lemma {:induction false} MappedUnmatched(x: Cell, entries: ValueMap)
    requires forall j :: 0 <= j < |entries| ==> !CellEq(x, entries[j].0)
    ensures MappedCell(x, entries) == x
    decreases |entries|
  {
    if entries != [] {
      MappedUnmatched(x, entries[..|entries| - 1]);
    }
  }

  /** Without chains, an element ends up as the target of the first entry
      whose key it equals, and unchanged when it equals none. */
  lemma {:induction false} MappedFirst(x: Cell, entries: ValueMap)
    requires Unchained(entries)
    ensures MappedCell(x, entries) == match FirstKey(x, entries) case Some(j) => entries[j].1 case None => x
    decreases |entries|
  {
    if entries == [] {
    } else {
      var n := |entries| - 1;
      var init := entries[..n];
      assert Unchained(init) by {
        forall j, k | 0 <= j < |init| && 0 <= k < |init|
          ensures !CellEq(init[j].1, init[k].0)
        {
          assert init[j] == entries[j] && init[k] == entries[k];
        }
      }
      MappedFirst(x, init);
      var g := FirstKey(x, init);
      if g.Some? {
        FirstKeyPrefix(x, entries, n);
        assert MappedCell(x, init) == entries[g.value].1;
        assert !CellEq(entries[g.value].1, entries[n].0);
      } else {
        FirstKeyPrefix(x, entries, n);
        assert MappedCell(x, init) == x;
      }
    }
  }

  /** The first matching key of a map is found in its prefix when the
      prefix holds one. */
  lemma FirstKeyPrefix(x: Cell, entries: ValueMap, n: nat)
    requires n == |entries| - 1
    ensures FirstKey(x, entries[..n]).Some? ==> FirstKey(x, entries) == FirstKey(x, entries[..n])
    ensures FirstKey(x, entries[..n]).None? ==>
              FirstKey(x, entries) == if CellEq(x, entries[n].0) then Some(n) else None
  {
    assert forall j :: 0 <= j < n ==> entries[..n][j] == entries[j];
  }

  /** Entries act on the partly rewritten copy: when the target of one
      entry is the key of a later one, its elements are rewritten again. */
  lemma MappedChained(x: Cell, a: (Cell, Cell), b: (Cell, Cell))
    requires CellEq(x, a.0) && CellEq(a.1, b.0)
    ensures MappedCell(x, [a, b]) == b.1
  {
    assert [a, b][..1] == [a];
    assert [a][..0] == [];
    assert MappedCell(x, [a]) == a.1;
  }

  /** The map `replace_binary_values` applies: `'0'` first, then `'1'`. */
  function BinaryMap(values: seq<Cell>): (r: Result<ValueMap, Error>)
    ensures r.Ok? <==> |values| >= 2
    ensures r.Err? ==> r.error == IndexError
    ensures r.Ok? ==> r.value == [(Text("0"), values[0]), (Text("1"), values[1])]
  {
    if |values| < 2 then Err(IndexError)
    else Ok([(Text("0"), values[0]), (Text("1"), values[1])])
  }

  /** `replace_binary_values(array, values)`: indexing `values` raises
      IndexError when it has fewer than two entries. */
  method ReplaceBinaryValues(a: array<Cell>, values: seq<Cell>) returns (r: Result<array<Cell>, Error>)
    ensures r.Err? <==> |values| < 2
    ensures r.Err? ==> r.error == IndexError
    ensures r.Ok? ==> fresh(r.value) && r.value[..] == Mapped(a[..], BinaryMap(values).value)
  {
    var m := BinaryMap(values);
    if m.Err? {
      return Err(m.error);
    }
    var ret := MapArrayValues(a, m.value);
    r := Ok(ret);
  }

  /** `'1'` becomes `values[1]`, other strings than `'0'` and `'1'` are
      kept, and `'0'` becomes `values[0]` unless `values[0]` is itself
      `'1'`, in which case the second entry rewrites it to `values[1]`. */
  lemma BinaryReplaced(x: Cell, values: seq<Cell>)
    requires |values| >= 2
    ensures x == Text("1") ==> MappedCell(x, BinaryMap(values).value) == values[1]
    ensures x == Text("0") && values[0] != Text("1") ==> MappedCell(x, BinaryMap(values).value) == values[0]
    ensures x == Text("0") && values[0] == Text("1") ==> MappedCell(x, BinaryMap(values).value) == values[1]
    ensures !CellEq(x, Text("0")) && !CellEq(x, Text("1")) ==> MappedCell(x, BinaryMap(values).value) == x
  {
    var m := BinaryMap(values).value;
    assert m[..1] == [m[0]];
    assert m[..1][..0] == [];
    assert MappedCell(x, m[..1][..0]) == x;
    var y := MappedCell(x, m[..1]);
    assert y == if CellEq(x, Text("0")) then values[0] else x;
    assert MappedCell(x, m) == if CellEq(y, Text("1")) then values[1] else y;
    if x == Text("0") && values[0] == Text("1") {
      MappedChained(x, m[0], m[1]);
    }
  }
}
