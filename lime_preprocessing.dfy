/** `lime_preprocess_dataset(s)` of xaibenchmark/explainerPreprocessing.py:
    a table is one-hot encoded with `pd.get_dummies`, the indicator columns
    of labels the table does not contain are added as zeros, and the
    continuous keys followed by every indicator column of the schema are
    selected. */
module LimePreprocessing {
  import opened Values
  import opened Text
  import opened Frames
  import opened Utils

  /** A table held column by column, as pandas stores it: labels and the
      cells of each column, in order. */
  datatype Columns = Columns(names: seq<string>, cols: seq<seq<Cell>>)

  /** One column of `n` cells per label. */
  predicate Tall(t: Columns, n: nat)
  {
    |t.names| == |t.cols| && forall j :: 0 <= j < |t.cols| ==> |t.cols[j]| == n
  }

  function Join(a: Columns, b: Columns): Columns
  {
    Columns(a.names + b.names, a.cols + b.cols)
  }

  /** Every column labelled `name` holds `col`. */
  predicate NamedAre(t: Columns, name: string, col: seq<Cell>)
    requires |t.names| == |t.cols|
  {
    forall j :: 0 <= j < |t.names| && t.names[j] == name ==> t.cols[j] == col
  }

  /** Every categorical feature is a column of the table. */
  predicate FeaturesPresent(columns: seq<string>, schema: Schema)
  {
    forall s :: 0 <= s < |schema| ==> schema[s].name in columns
  }

  /** No feature name contains the separator `_`, so an indicator label
      names its feature unambiguously. */
  predicate UnderscoreFree(schema: Schema)
  {
    forall s :: 0 <= s < |schema| ==> '_' !in schema[s].name
  }

  /** The distinct printed values of a column, in order of first occurrence. */
  function Levels(col: seq<Cell>): (ls: seq<string>)
    ensures Distinct(ls)
    ensures forall s :: s in ls <==> exists i :: 0 <= i < |col| && Show(col[i]) == s
  {
    if col == [] then []
    else
      var init := Levels(col[..|col| - 1]);
      var s := Show(col[|col| - 1]);
      assert forall i :: 0 <= i < |col| - 1 ==> col[..|col| - 1][i] == col[i];
      if s in init then init else init + [s]
  }

  /** The dummy column of one level: 1 where the cell prints as the level. */
  function IndicatorOf(col: seq<Cell>, level: string): (r: seq<Cell>)
    ensures |r| == |col|
  {
    seq(|col|, i requires 0 <= i < |col| => if Show(col[i]) == level then Int(1) else Int(0))
  }

  function Zeros(n: nat): (r: seq<Cell>)
    ensures |r| == n && forall i :: 0 <= i < n ==> r[i] == Int(0)
  {
    seq(n, i requires 0 <= i < n => Int(0))
  }

  /** The dummy columns `get_dummies` makes for one feature: one per level,
      labelled `name + '_' + level`. */
  function FeatureDummies(df: Frame, name: string): (t: Columns)
    requires WellFormed(df) && name in df.columns
    ensures Tall(t, |df.rows|)
  {
    var col := Column(df, name).value;
    var ls := Levels(col);
    Columns(seq(|ls|, k requires 0 <= k < |ls| => name + "_" + ls[k]),
            seq(|ls|, k requires 0 <= k < |ls| => IndicatorOf(col, ls[k])))
  }

  /** The dummy columns of all features, in schema order. */
  function Dummies(df: Frame, schema: Schema): (t: Columns)
    requires WellFormed(df) && FeaturesPresent(df.columns, schema)
    ensures Tall(t, |df.rows|)
  {
    if schema == [] then Columns([], [])
    else
      var init := schema[..|schema| - 1];
      assert forall s :: 0 <= s < |init| ==> init[s] == schema[s];
      Join(Dummies(df, init), FeatureDummies(df, schema[|schema| - 1].name))
  }

  /** The non-categorical columns of the table, in table order. */
  function KeptColumns(df: Frame, schema: Schema): (t: Columns)
    requires WellFormed(df)
    ensures Tall(t, |df.rows|)
  {
    var kept := KeptPositions(df.columns, schema);
    Columns(Select(df.columns, kept),
            seq(|kept|, j requires 0 <= j < |kept| =>
              seq(|df.rows|, i requires 0 <= i < |df.rows| => df.rows[i][kept[j]])))
  }

  /** `pd.get_dummies(df, columns=categorical_features.keys())`: a feature
      that is not a column raises KeyError; otherwise the other columns are
      kept and each feature is replaced by its dummy columns. */
  function GetDummies(df: Frame, schema: Schema): (r: Result<Columns, Error>)
    requires WellFormed(df)
    ensures r.Ok? <==> FeaturesPresent(df.columns, schema)
    ensures r.Err? ==> r.error == KeyError
    ensures r.Ok? ==> Tall(r.value, |df.rows|)
  {
    if !FeaturesPresent(df.columns, schema) then Err(KeyError)
    else Ok(Join(KeptColumns(df, schema), Dummies(df, schema)))
  }

  /** `u` is `t` with columns of zeros appended under labels `t` lacks. */
  predicate Extends(t: Columns, u: Columns, n: nat)
  {
    |t.names| == |t.cols| && |u.names| == |u.cols| && |t.names| <= |u.names|
    && u.names[..|t.names|] == t.names && u.cols[..|t.cols|] == t.cols
    && forall j :: |t.names| <= j < |u.names| ==> u.names[j] !in t.names && u.cols[j] == Zeros(n)
  }

  /** Every pair of `ps` has a column under its indicator label. */
  predicate Covers(u: Columns, ps: seq<(string, Cell)>)
  {
    forall k :: 0 <= k < |ps| ==> IndicatorName(ps[k]) in u.names
  }

  /** `cat_df[c] = 0` for every indicator label not yet present: the table
      after the pairs `ps` have been looked at. */
  function Filled(t: Columns, ps: seq<(string, Cell)>, n: nat): (u: Columns)
    requires Tall(t, n)
    ensures Tall(u, n) && Extends(t, u, n) && Covers(u, ps)
    decreases |ps|
  {
    if ps == [] then t
    else
      var init := ps[..|ps| - 1];
      var u := Filled(t, init, n);
      var name := IndicatorName(ps[|ps| - 1]);
      assert forall k :: 0 <= k < |init| ==> init[k] == ps[k];
      if name in u.names then u
      else
        var v := Join(u, Columns([name], [Zeros(n)]));
        assert v.names[..|t.names|] == t.names && v.cols[..|t.cols|] == t.cols;
        assert forall c :: c in t.names ==> c in u.names[..|t.names|];
        assert forall k :: 0 <= k < |init| ==> IndicatorName(ps[k]) in v.names;
        v
  }

  /** Filling keeps the columns of a label the table already had ... */
  lemma FilledKeeps(t: Columns, u: Columns, n: nat, name: string, col: seq<Cell>)
    requires Extends(t, u, n) && name in t.names && NamedAre(t, name, col)
    ensures NamedAre(u, name, col)
  {
    forall j | 0 <= j < |u.names| && u.names[j] == name
      ensures u.cols[j] == col
    {
      if j < |t.names| {
        assert u.names[..|t.names|][j] == name;
        assert u.cols[..|t.cols|][j] == t.cols[j];
      }
    }
  }

  /** ... and gives a label it lacked only columns of zeros. */
  lemma FilledZeros(t: Columns, u: Columns, n: nat, name: string)
    requires Extends(t, u, n) && name !in t.names
    ensures NamedAre(u, name, Zeros(n))
  {
  }

  /** `table[name]`: the first column with that label. */
  function Lookup(t: Columns, name: string): (r: Option<seq<Cell>>)
    requires |t.names| == |t.cols|
    ensures r.Some? <==> name in t.names
    ensures r.Some? ==> r.value == t.cols[ColumnPos(t.names, name).value]
  {
    match ColumnPos(t.names, name)
    case None => None
    case Some(k) => Some(t.cols[k])
  }

  lemma LookupNamed(t: Columns, name: string, col: seq<Cell>)
    requires |t.names| == |t.cols| && name in t.names && NamedAre(t, name, col)
    ensures Lookup(t, name) == Some(col)
  {
  }

  /** `table[idx]`: the columns labelled `idx`, in that order; a label that
      is not there raises KeyError. */
  function Selected(t: Columns, idx: seq<string>): (r: Result<seq<seq<Cell>>, Error>)
    requires |t.names| == |t.cols|
    ensures r.Ok? <==> forall j :: 0 <= j < |idx| ==> idx[j] in t.names
    ensures r.Err? ==> r.error == KeyError
    ensures r.Ok? ==> |r.value| == |idx| && forall j :: 0 <= j < |idx| ==> r.value[j] == Lookup(t, idx[j]).value
  {
    if idx == [] then Ok([])
    else
      var init := idx[..|idx| - 1];
      assert forall j :: 0 <= j < |init| ==> init[j] == idx[j];
      match Selected(t, init)
      case Err(e) => Err(e)
      case Ok(cols) =>
        match Lookup(t, idx[|idx| - 1])
        case None => Err(KeyError)
        case Some(c) => Ok(cols + [c])
  }

  /** `list(set(keys) - set(categorical_features.keys()))`: the keys that are
      not categorical, each once. A Python set has no defined order; the
      model lists them in order of first occurrence. */
  function Continuous(keys: seq<string>, schema: Schema): (cs: seq<string>)
    ensures Distinct(cs)
    ensures forall c :: c in cs <==> c in keys && c !in Names(schema)
  {
    if keys == [] then []
    else
      var init := Continuous(keys[..|keys| - 1], schema);
      var k := keys[|keys| - 1];
      assert forall c :: c in keys <==> c in keys[..|keys| - 1] || c == k;
      if k in Names(schema) || k in init then init else init + [k]
  }

  /** The labels of the indicator columns, in schema order. */
  function IndicatorNames(ps: seq<(string, Cell)>): (names: seq<string>)
    ensures |names| == |ps| && forall k :: 0 <= k < |ps| ==> names[k] == IndicatorName(ps[k])
  {
    seq(|ps|, k requires 0 <= k < |ps| => IndicatorName(ps[k]))
  }

  /** Columns of `n` cells turned into rows. */
  function Transposed(cols: seq<seq<Cell>>, n: nat): (rows: seq<seq<Cell>>)
    requires forall j :: 0 <= j < |cols| ==> |cols[j]| == n
    ensures |rows| == n && forall i :: 0 <= i < n ==> |rows[i]| == |cols|
    ensures forall i, j :: 0 <= i < n && 0 <= j < |cols| ==> rows[i][j] == cols[j][i]
  {
    seq(n, i requires 0 <= i < n => seq(|cols|, j requires 0 <= j < |cols| => cols[j][i]))
  }

  /** The labels `lime_preprocess_dataset` selects: the continuous keys,
      then the indicator label of every pair in schema order. */
  function Wanted(keys: seq<string>, schema: Schema): seq<string>
  {
    Continuous(keys, schema) + IndicatorNames(Pairs(schema))
  }

  /** The table after `get_dummies` and the added zero columns. */
  function Prepared(df: Frame, schema: Schema): (u: Columns)
    requires WellFormed(df) && FeaturesPresent(df.columns, schema)
    ensures Tall(u, |df.rows|)
  {
    Filled(GetDummies(df, schema).value, Pairs(schema), |df.rows|)
  }

  /** The table `lime_preprocess_dataset(df, categorical_features, keys)`
      returns: `cat_df[idx]` over the prepared table. */
  function Preprocessed(df: Frame, schema: Schema, keys: seq<string>): (r: Result<Frame, Error>)
    requires WellFormed(df)
  {
    if GetDummies(df, schema).Err? then Err(GetDummies(df, schema).error)
    else
      var u := Prepared(df, schema);
      match Selected(u, Wanted(keys, schema))
      case Err(e) => Err(e)
      case Ok(cols) =>
        assert forall j :: 0 <= j < |cols| ==> |cols[j]| == |df.rows|;
        Ok(Frame(Wanted(keys, schema), df.index, Transposed(cols, |df.rows|)))
  }

  /** `for c in missing_cols: cat_df[c] = 0`. */
  method FillMissing(t: Columns, ps: seq<(string, Cell)>, n: nat) returns (u: Columns)
    requires Tall(t, n)
    ensures u == Filled(t, ps, n)
  {
    u := t;
    for k := 0 to |ps|
      invariant u == Filled(t, ps[..k], n)
    {
      assert ps[..k + 1][..k] == ps[..k];
      var name := IndicatorName(ps[k]);
      if name !in u.names {
        u := Join(u, Columns([name], [Zeros(n)]));
      }
    }
    assert ps[..|ps|] == ps;
  }

  /** `lime_preprocess_dataset`: the dummies, the loop adding the missing
      indicator columns as zeros, then the selection. */
  method LimePreprocessDataset(df: Frame, schema: Schema, keys: seq<string>) returns (r: Result<Frame, Error>)
    requires WellFormed(df)
    ensures r == Preprocessed(df, schema, keys)
  {
    var dummies := GetDummies(df, schema);
    if dummies.Err? {
      return Err(dummies.error);
    }
    var u := FillMissing(dummies.value, Pairs(schema), |df.rows|);
    var idx := Wanted(keys, schema);
    var cols := Selected(u, idx);
    if cols.Err? {
      return Err(cols.error);
    }
    assert forall j :: 0 <= j < |cols.value| ==> |cols.value[j]| == |df.rows|;
    r := Ok(Frame(idx, df.index, Transposed(cols.value, |df.rows|)));
  }

  /** `lime_preprocess_datasets`: the tables preprocessed one by one, in
      order; the first that raises ends the comprehension. */
  function PreprocessDatasets(dfs: seq<Frame>, schema: Schema, keys: seq<string>): (r: Result<seq<Frame>, Error>)
    requires forall d :: 0 <= d < |dfs| ==> WellFormed(dfs[d])
    ensures r.Ok? <==> forall d :: 0 <= d < |dfs| ==> Preprocessed(dfs[d], schema, keys).Ok?
    ensures r.Ok? ==> |r.value| == |dfs| && forall d :: 0 <= d < |dfs| ==> r.value[d] == Preprocessed(dfs[d], schema, keys).value
    ensures r.Err? ==> exists d :: 0 <= d < |dfs| && Preprocessed(dfs[d], schema, keys) == Err(r.error)
  {
    if dfs == [] then Ok([])
    else
      match Preprocessed(dfs[0], schema, keys)
      case Err(e) => Err(e)
      case Ok(first) =>
        match PreprocessDatasets(dfs[1..], schema, keys)
        case Err(e) => Err(e)
        case Ok(rest) => Ok([first] + rest)
  }

  /** Cell `j` of row `i` of the result is row `i` of the prepared column
      selected by label `j`. */
  lemma PreprocessedAt(df: Frame, schema: Schema, keys: seq<string>)
    requires WellFormed(df) && Preprocessed(df, schema, keys).Ok?
    ensures FeaturesPresent(df.columns, schema)
    ensures var r := Preprocessed(df, schema, keys).value;
            var u := Prepared(df, schema);
            var idx := Wanted(keys, schema);
            |r.rows| == |df.rows| && (forall j :: 0 <= j < |idx| ==> idx[j] in u.names)
            && forall i, j :: 0 <= i < |df.rows| && 0 <= j < |idx| ==>
                 j < |r.rows[i]| && r.rows[i][j] == Lookup(u, idx[j]).value[i]
  {
  }

  /** The result keeps the rows and their index, and its columns are the
      continuous keys, each once, followed by the indicator label of every
      (feature, label) pair in schema order; everything that goes wrong is
      a KeyError, and a feature missing from the table is one. */
  lemma PreprocessedShape(df: Frame, schema: Schema, keys: seq<string>)
    requires WellFormed(df)
    ensures Preprocessed(df, schema, keys).Err? ==> Preprocessed(df, schema, keys).error == KeyError
    ensures !FeaturesPresent(df.columns, schema) ==> Preprocessed(df, schema, keys).Err?
    ensures Preprocessed(df, schema, keys).Ok? ==>
              var r := Preprocessed(df, schema, keys).value;
              WellFormed(r) && r.index == df.index && |r.rows| == |df.rows|
              && r.columns == Continuous(keys, schema) + IndicatorNames(Pairs(schema))
  {
  }

  /** When every feature and every continuous key is a column of the
      input, nothing raises. */
  lemma PreprocessedDefined(df: Frame, schema: Schema, keys: seq<string>)
    requires WellFormed(df) && FeaturesPresent(df.columns, schema)
    requires forall c :: c in keys && c !in Names(schema) ==> c in df.columns
    ensures Preprocessed(df, schema, keys).Ok?
  {
    var cont := Continuous(keys, schema);
    var t := GetDummies(df, schema).value;
    var u := Prepared(df, schema);
    var idx := Wanted(keys, schema);
    forall j | 0 <= j < |idx|
      ensures idx[j] in u.names
    {
      if j < |cont| {
        var c := cont[j];
        assert c in cont;
        var q :| 0 <= q < |df.columns| && df.columns[q] == c;
        KeptMember(df.columns, schema, q);
        var kept := KeptPositions(df.columns, schema);
        var m :| 0 <= m < |kept| && kept[m] == q;
        assert t.names[m] == c;
        assert u.names[..|t.names|][m] == c;
      }
    }
  }

  /** A label all of whose prepared columns hold `col` selects `col`. */
  lemma SelectedColumn(df: Frame, schema: Schema, keys: seq<string>, j: nat, col: seq<Cell>)
    requires WellFormed(df) && Preprocessed(df, schema, keys).Ok? && j < |Wanted(keys, schema)|
    requires FeaturesPresent(df.columns, schema) && NamedAre(Prepared(df, schema), Wanted(keys, schema)[j], col)
    ensures var r := Preprocessed(df, schema, keys).value;
            forall i :: 0 <= i < |df.rows| ==> j < |r.rows[i]| && r.rows[i][j] == col[i]
  {
    PreprocessedAt(df, schema, keys);
    LookupNamed(Prepared(df, schema), Wanted(keys, schema)[j], col);
  }

  /** The selected label of indicator `k`. */
  lemma WantedIndicator(keys: seq<string>, schema: Schema, k: nat)
    requires k < |Pairs(schema)|
    ensures |Continuous(keys, schema)| + k < |Wanted(keys, schema)|
    ensures Wanted(keys, schema)[|Continuous(keys, schema)| + k] == IndicatorName(Pairs(schema)[k])
  {
  }

  /** An indicator label that `get_dummies` did not produce labels only
      the column of zeros the loop added. */
  lemma PreparedMissingZero(df: Frame, schema: Schema, name: string)
    requires WellFormed(df) && FeaturesPresent(df.columns, schema)
    requires name !in GetDummies(df, schema).value.names
    ensures NamedAre(Prepared(df, schema), name, Zeros(|df.rows|))
  {
    FilledZeros(GetDummies(df, schema).value, Prepared(df, schema), |df.rows|, name);
  }

  /** An indicator label that `get_dummies` did not produce selects the
      column of zeros the loop added. */
  lemma PreprocessedMissingZero(df: Frame, schema: Schema, keys: seq<string>, k: nat)
    requires WellFormed(df) && Preprocessed(df, schema, keys).Ok?
    requires k < |Pairs(schema)| && IndicatorName(Pairs(schema)[k]) !in GetDummies(df, schema).value.names
    ensures var r := Preprocessed(df, schema, keys).value;
            var j := |Continuous(keys, schema)| + k;
            forall i :: 0 <= i < |df.rows| ==> j < |r.rows[i]| && r.rows[i][j] == Int(0)
  {
    PreparedMissingZero(df, schema, IndicatorName(Pairs(schema)[k]));
    WantedIndicator(keys, schema, k);
    SelectedColumn(df, schema, keys, |Continuous(keys, schema)| + k, Zeros(|df.rows|));
  }

  /** `a + '_' + x` splits back into `a` and `x` when `a` has no `_`. */
  lemma NameSplit(a: string, x: string, b: string, y: string)
    requires '_' !in a && '_' !in b && a + "_" + x == b + "_" + y
    ensures a == b && x == y
  {
    var s := a + "_" + x;
    assert |a| == |b| by {
      assert s[|a|] == '_' && (b + "_" + y)[|b|] == '_';
      assert forall i :: 0 <= i < |a| ==> s[i] == a[i];
      assert forall i :: 0 <= i < |b| ==> s[i] == b[i];
    }
    assert a == s[..|a|];
    assert b == (b + "_" + y)[..|b|];
    assert x == s[|a| + 1..];
    assert y == (b + "_" + y)[|b| + 1..];
  }

  /** Every dummy column labelled `f + '_' + level` is the indicator of
      that level in column `f`. */
  lemma {:induction false} DummiesNamed(df: Frame, schema: Schema, f: string, level: string)
    requires WellFormed(df) && FeaturesPresent(df.columns, schema) && UnderscoreFree(schema)
    requires '_' !in f && f in df.columns
    ensures NamedAre(Dummies(df, schema), f + "_" + level, IndicatorOf(Column(df, f).value, level))
  {
    if schema != [] {
      var init := schema[..|schema| - 1];
      var g := schema[|schema| - 1].name;
      assert forall s :: 0 <= s < |init| ==> init[s] == schema[s];
      DummiesNamed(df, init, f, level);
      var a := Dummies(df, init);
      var b := FeatureDummies(df, g);
      var name := f + "_" + level;
      var col := IndicatorOf(Column(df, f).value, level);
      forall j | 0 <= j < |b.names| && b.names[j] == name
        ensures b.cols[j] == col
      {
        var ls := Levels(Column(df, g).value);
        assert b.names[j] == g + "_" + ls[j];
        NameSplit(g, ls[j], f, level);
      }
      var d := Dummies(df, schema);
      forall j | 0 <= j < |d.names| && d.names[j] == name
        ensures d.cols[j] == col
      {
        if j >= |a.names| {
          assert d.names[j] == b.names[j - |a.names|];
        }
      }
    }
  }

  /** Every level of every feature has its dummy column. */
  lemma {:induction false} DummiesHave(df: Frame, schema: Schema, s: nat, level: string)
    requires WellFormed(df) && FeaturesPresent(df.columns, schema)
    requires s < |schema| && level in Levels(Column(df, schema[s].name).value)
    ensures schema[s].name + "_" + level in Dummies(df, schema).names
  {
    var init := schema[..|schema| - 1];
    var last := schema[|schema| - 1].name;
    assert FeaturesPresent(df.columns, init) by {
      forall q | 0 <= q < |init|
        ensures init[q].name in df.columns
      {
        assert init[q] == schema[q];
      }
    }
    var a := Dummies(df, init);
    var b := FeatureDummies(df, last);
    assert Dummies(df, schema).names == a.names + b.names;
    if s < |init| {
      assert init[s] == schema[s];
      DummiesHave(df, init, s, level);
    } else {
      var ls := Levels(Column(df, last).value);
      var k :| 0 <= k < |ls| && ls[k] == level;
      assert b.names[k] == last + "_" + level;
    }
  }

  /** The indicator of a level no cell prints as is all zeros. */
  lemma IndicatorAbsent(col: seq<Cell>, level: string)
    requires level !in Levels(col)
    ensures IndicatorOf(col, level) == Zeros(|col|)
  {
    assert forall i :: 0 <= i < |col| ==> Show(col[i]) != level;
  }

  /** The kept columns and the dummy columns together: a label of a
      feature and a level that is not a column of the input labels only
      the indicator of that level. */
  lemma DummyTableNamed(df: Frame, schema: Schema, f: string, level: string)
    requires WellFormed(df) && FeaturesPresent(df.columns, schema) && UnderscoreFree(schema)
    requires '_' !in f && f in df.columns && f + "_" + level !in df.columns
    ensures NamedAre(GetDummies(df, schema).value, f + "_" + level, IndicatorOf(Column(df, f).value, level))
  {
    var name := f + "_" + level;
    var kc := KeptColumns(df, schema);
    DummiesNamed(df, schema, f, level);
    assert name !in kc.names by {
      forall j | 0 <= j < |kc.names| ensures kc.names[j] != name {
        assert kc.names[j] in df.columns;
      }
    }
    JoinNamed(kc, Dummies(df, schema), name, IndicatorOf(Column(df, f).value, level));
  }

  /** Columns labelled `name` only on the right keep their contents when
      joined. */
  lemma JoinNamed(a: Columns, b: Columns, name: string, col: seq<Cell>)
    requires |a.names| == |a.cols| && |b.names| == |b.cols|
    requires name !in a.names && NamedAre(b, name, col)
    ensures NamedAre(Join(a, b), name, col)
  {
    var t := Join(a, b);
    forall j | 0 <= j < |t.names| && t.names[j] == name
      ensures t.cols[j] == col
    {
      if j >= |a.names| {
        assert b.names[j - |a.names|] == name;
      }
    }
  }

  /** With feature names free of `_` and an indicator label that is not a
      column of the input, every prepared column under that label is the
      indicator of the label's level in the feature's column. */
  lemma {:induction false} PreparedIndicator(df: Frame, schema: Schema, k: nat)
    requires WellFormed(df) && UnderscoreFree(schema) && FeaturesPresent(df.columns, schema)
    requires k < |Pairs(schema)| && IndicatorName(Pairs(schema)[k]) !in df.columns
    ensures Pairs(schema)[k].0 in df.columns
    ensures NamedAre(Prepared(df, schema), IndicatorName(Pairs(schema)[k]),
                     IndicatorOf(Column(df, Pairs(schema)[k].0).value, Show(Pairs(schema)[k].1)))
  {
    var p := Pairs(schema)[k];
    PairsFeatures(schema, k);
    var s :| 0 <= s < |schema| && Names(schema)[s] == p.0;
    var f := p.0;
    var level := Show(p.1);
    var name := f + "_" + level;
    var n := |df.rows|;
    var colf := Column(df, f).value;
    var col := IndicatorOf(colf, level);
    var t := GetDummies(df, schema).value;
    DummyTableNamed(df, schema, f, level);
    var u := Prepared(df, schema);
    if name in t.names {
      FilledKeeps(t, u, n, name, col);
    } else {
      if level in Levels(colf) {
        DummiesHave(df, schema, s, level);
      }
      IndicatorAbsent(colf, level);
      FilledZeros(t, u, n, name);
    }
  }

  /** With feature names free of `_` and indicator labels that are not
      columns of the input, indicator column `k` holds 1 exactly on the
      rows whose feature prints as the label, and 0 on the others, whether
      `get_dummies` made it or the loop added it. */
  lemma PreprocessedIndicator(df: Frame, schema: Schema, keys: seq<string>, k: nat)
    requires WellFormed(df) && UnderscoreFree(schema) && Preprocessed(df, schema, keys).Ok?
    requires k < |Pairs(schema)| && IndicatorName(Pairs(schema)[k]) !in df.columns
    ensures Pairs(schema)[k].0 in df.columns
    ensures var r := Preprocessed(df, schema, keys).value;
            var p := Pairs(schema)[k];
            var j := |Continuous(keys, schema)| + k;
            var q := ColumnPos(df.columns, p.0).value;
            forall i :: 0 <= i < |df.rows| ==>
              j < |r.rows[i]| && r.rows[i][j] == if Show(df.rows[i][q]) == Show(p.1) then Int(1) else Int(0)
  {
    PreprocessedAt(df, schema, keys);
    PreparedIndicator(df, schema, k);
    var p := Pairs(schema)[k];
    WantedIndicator(keys, schema, k);
    SelectedColumn(df, schema, keys, |Continuous(keys, schema)| + k, IndicatorOf(Column(df, p.0).value, Show(p.1)));
  }

  /** With distinct input labels, a continuous key that no dummy column
      shadows selects the input's own column. */
  lemma PreprocessedContinuous(df: Frame, schema: Schema, keys: seq<string>, j: nat)
    requires WellFormed(df) && Distinct(df.columns) && Preprocessed(df, schema, keys).Ok?
    requires j < |Continuous(keys, schema)| && Continuous(keys, schema)[j] in df.columns
    requires FeaturesPresent(df.columns, schema) && Continuous(keys, schema)[j] !in Dummies(df, schema).names
    ensures var r := Preprocessed(df, schema, keys).value;
            var q := ColumnPos(df.columns, Continuous(keys, schema)[j]).value;
            forall i :: 0 <= i < |df.rows| ==> j < |r.rows[i]| && r.rows[i][j] == df.rows[i][q]
  {
    PreprocessedAt(df, schema, keys);
    var c := Continuous(keys, schema)[j];
    var q := ColumnPos(df.columns, c).value;
    var n := |df.rows|;
    var col := seq(n, i requires 0 <= i < n => df.rows[i][q]);
    var t := GetDummies(df, schema).value;
    var kc := KeptColumns(df, schema);
    var kept := KeptPositions(df.columns, schema);
    KeptMember(df.columns, schema, q);
    var m :| 0 <= m < |kept| && kept[m] == q;
    assert t.names[m] == c;
    assert NamedAre(t, c, col) by {
      forall x | 0 <= x < |t.names| && t.names[x] == c
        ensures t.cols[x] == col
      {
        assert x < |kc.names|;
        assert df.columns[kept[x]] == c;
        assert kept[x] == q;
      }
    }
    var u := Prepared(df, schema);
    FilledKeeps(t, u, n, c, col);
    assert Wanted(keys, schema)[j] == c;
    LookupNamed(u, c, col);
  }
}
