/** The Adult census setting of the Anchors preprocessing copies:
    `load_dataset` in xaibenchmark/customAnchorsPreprocessing.py and
    `anchors_preprocess_instance` in xaibenchmark/explainerPreprocessing.py
    share the feature names, the used and categorical features and the
    value maps, and run the loader with the target in the last column. */
module AdultPreprocessing {
  import opened Values
  import opened ArrayValues
  import opened AnchorsPreprocessing

  const FeatureNames: seq<Cell> :=
    [Text("Age"), Text("Workclass"), Text("fnlwgt"), Text("Education"), Text("Education-Num"),
     Text("Marital Status"), Text("Occupation"), Text("Relationship"), Text("Race"), Text("Sex"),
     Text("Capital Gain"), Text("Capital Loss"), Text("Hours per week"), Text("Country"), Text("Income")]

  const FeaturesToUse: seq<int> := [0, 1, 3, 5, 6, 7, 8, 9, 10, 11, 12, 13]

  const CategoricalFeatures: seq<int> := [1, 3, 5, 6, 7, 8, 9, 10, 11, 13]

  const EducationMap: ValueMap :=
    [(Text("10th"), Text("Dropout")), (Text("11th"), Text("Dropout")), (Text("12th"), Text("Dropout")),
     (Text("1st-4th"), Text("Dropout")), (Text("5th-6th"), Text("Dropout")), (Text("7th-8th"), Text("Dropout")),
     (Text("9th"), Text("Dropout")), (Text("Preschool"), Text("Dropout")),
     (Text("HS-grad"), Text("High School grad")), (Text("Some-college"), Text("High School grad")),
     (Text("Masters"), Text("Masters")), (Text("Prof-school"), Text("Prof-School")),
     (Text("Assoc-acdm"), Text("Associates")), (Text("Assoc-voc"), Text("Associates"))]

  const OccupationMap: ValueMap :=
    [(Text("Adm-clerical"), Text("Admin")), (Text("Armed-Forces"), Text("Military")),
     (Text("Craft-repair"), Text("Blue-Collar")), (Text("Exec-managerial"), Text("White-Collar")),
     (Text("Farming-fishing"), Text("Blue-Collar")), (Text("Handlers-cleaners"), Text("Blue-Collar")),
     (Text("Machine-op-inspct"), Text("Blue-Collar")), (Text("Other-service"), Text("Service")),
     (Text("Priv-house-serv"), Text("Service")), (Text("Prof-specialty"), Text("Professional")),
     (Text("Protective-serv"), Text("Other")), (Text("Sales"), Text("Sales")),
     (Text("Tech-support"), Text("Other")), (Text("Transport-moving"), Text("Blue-Collar"))]

  const CountryMap: ValueMap :=
    [(Text("Cambodia"), Text("SE-Asia")), (Text("Canada"), Text("British-Commonwealth")),
     (Text("China"), Text("China")), (Text("Columbia"), Text("South-America")), (Text("Cuba"), Text("Other")),
     (Text("Dominican-Republic"), Text("Latin-America")), (Text("Ecuador"), Text("South-America")),
     (Text("El-Salvador"), Text("South-America")), (Text("England"), Text("British-Commonwealth")),
     (Text("France"), Text("Euro_1")), (Text("Germany"), Text("Euro_1")), (Text("Greece"), Text("Euro_2")),
     (Text("Guatemala"), Text("Latin-America")), (Text("Haiti"), Text("Latin-America")),
     (Text("Holand-Netherlands"), Text("Euro_1")), (Text("Honduras"), Text("Latin-America")),
     (Text("Hong"), Text("China")), (Text("Hungary"), Text("Euro_2")), (Text("India"), Text("British-Commonwealth")),
     (Text("Iran"), Text("Other")), (Text("Ireland"), Text("British-Commonwealth")), (Text("Italy"), Text("Euro_1")),
     (Text("Jamaica"), Text("Latin-America")), (Text("Japan"), Text("Other")), (Text("Laos"), Text("SE-Asia")),
     (Text("Mexico"), Text("Latin-America")), (Text("Nicaragua"), Text("Latin-America")),
     (Text("Outlying-US(Guam-USVI-etc)"), Text("Latin-America")), (Text("Peru"), Text("South-America")),
     (Text("Philippines"), Text("SE-Asia")), (Text("Poland"), Text("Euro_2")), (Text("Portugal"), Text("Euro_2")),
     (Text("Puerto-Rico"), Text("Latin-America")), (Text("Scotland"), Text("British-Commonwealth")),
     (Text("South"), Text("Euro_2")), (Text("Taiwan"), Text("China")), (Text("Thailand"), Text("SE-Asia")),
     (Text("Trinadad&Tobago"), Text("Latin-America")), (Text("United-States"), Text("United-States")),
     (Text("Vietnam"), Text("SE-Asia"))]

  const MarriedMap: ValueMap :=
    [(Text("Never-married"), Text("Never-Married")), (Text("Married-AF-spouse"), Text("Married")),
     (Text("Married-civ-spouse"), Text("Married")), (Text("Married-spouse-absent"), Text("Separated")),
     (Text("Separated"), Text("Separated")), (Text("Divorced"), Text("Separated")), (Text("Widowed"), Text("Widowed"))]

  /** The column transformations, in the dictionary's order; `capGains` is
      the capital-gains binning. */
  function Transformations(capGains: seq<Cell> -> seq<Cell>): (fs: seq<Transform>)
    ensures |fs| == 6 && forall k :: 0 <= k < 6 ==> fs[k].0 in CategoricalFeatures
  {
    [(3, x => Mapped(x, EducationMap)), (5, x => Mapped(x, MarriedMap)), (6, x => Mapped(x, OccupationMap)),
     (10, capGains), (11, capGains), (13, x => Mapped(x, CountryMap))]
  }

  /** The loader's arguments for a table of `width` columns: the target is
      the last column, the names, used and categorical features are the
      constants above. */
  function AdultOptions(width: nat, capGains: seq<Cell> -> seq<Cell>, discretize: bool): (o: Options)
    ensures TargetIndex(o.targetIdx, width) == width - 1
    ensures o.featureNames == Some(FeatureNames) && o.featuresToUse == Some(FeaturesToUse)
    ensures o.categorical == Some(CategoricalFeatures) && o.discretize == discretize && !o.skipFirst
  {
    Options(width - 1, Some(FeatureNames), Some(CategoricalFeatures), Some(FeaturesToUse),
            Transformations(capGains), discretize, false)
  }

  /** The row the loader returns, or its exception. */
  function RowOf(l: Result<Loaded, Error>): (r: Result<seq<real>, Error>)
    ensures r.Ok? <==> l.Ok?
    ensures l.Ok? ==> r.value == l.value.row
    ensures l.Err? ==> r.error == l.error
  {
    match l
    case Ok(v) => Ok(v.row)
    case Err(e) => Err(e)
  }

  /** `anchors_preprocess_instance(data)`: the loader's steps with the
      target at `data.shape[1] - 1`, always discretizing, returning the last
      row; the transformations are written into the caller's array. */
  method AnchorsPreprocessInstance(data: array2<Cell>, capGains: seq<Cell> -> seq<Cell>, lib: Library)
    returns (r: Result<seq<real>, Error>)
    modifies data
    ensures r == RowOf(LoadedCsv(old(Cells(data)), data.Length1, AdultOptions(data.Length1, capGains, true), lib))
    ensures Cells(data) == Written(old(Cells(data)), data.Length1, AdultOptions(data.Length1, capGains, true))
  {
    var l := LoadCsvDataset(data, AdultOptions(data.Length1, capGains, true), lib);
    r := RowOf(l);
  }

  /** `load_dataset(dataframe, discretize=...)` without balancing:
      `load_csv_dataset` with target `-1`, which is the last column. */
  method LoadDataset(data: array2<Cell>, discretize: bool, capGains: seq<Cell> -> seq<Cell>, lib: Library)
    returns (r: Result<seq<real>, Error>)
    modifies data
    ensures r == RowOf(LoadedCsv(old(Cells(data)), data.Length1, AdultOptions(data.Length1, capGains, discretize), lib))
    ensures Cells(data) == Written(old(Cells(data)), data.Length1, AdultOptions(data.Length1, capGains, discretize))
  {
    var o := Options(-1, Some(FeatureNames), Some(CategoricalFeatures), Some(FeaturesToUse),
                     Transformations(capGains), discretize, false);
    assert TargetIndex(o.targetIdx, data.Length1) == TargetIndex(data.Length1 - 1, data.Length1);
    LoadedCsvTarget(Cells(data), data.Length1, o, AdultOptions(data.Length1, capGains, discretize), lib);
    var l := LoadCsvDataset(data, o, lib);
    r := RowOf(l);
  }

  /** Two targets that read the same column give the same result and
      leave the same array. */
  lemma LoadedCsvTarget(grid: Grid, width: nat, o: Options, o': Options, lib: Library)
    requires Coding.Rectangular(grid, width)
    requires TargetIndex(o.targetIdx, width) == TargetIndex(o'.targetIdx, width)
    requires o' == o.(targetIdx := o'.targetIdx)
    ensures LoadedCsv(grid, width, o, lib) == LoadedCsv(grid, width, o', lib)
    ensures Written(grid, width, o) == Written(grid, width, o')
  {
    match Header(grid, o)
    case Err(_) =>
    case Ok(h) =>
      match Transformed(grid[h.0..], width, o.transformations)
      case Err(_) =>
      case Ok(rows) =>
        LoadedFromTarget(rows, width, h.1, o, o', lib);
  }

  /** Only the column the target reads matters to the steps after the
      transformations. */
  lemma LoadedFromTarget(rows: Grid, width: nat, names: seq<Cell>, o: Options, o': Options, lib: Library)
    requires Coding.Rectangular(rows, width)
    requires TargetIndex(o.targetIdx, width) == TargetIndex(o'.targetIdx, width)
    requires o' == o.(targetIdx := o'.targetIdx)
    ensures LoadedFrom(rows, width, names, o, lib) == LoadedFrom(rows, width, names, o', lib)
  {
    var t := TargetIndex(o.targetIdx, width);
    var s := Stage(rows, width, names, o.categorical);
    assert (if o.featuresToUse.Some? then UseFeatures(s, o.featuresToUse.value) else DropTarget(s, t))
        == (if o'.featuresToUse.Some? then UseFeatures(s, o'.featuresToUse.value) else DropTarget(s, t));
  }

  /** `[features_to_use.index(x) for x in categorical_features]` for the
      Adult constants: the categorical features become positions 1 to 9
      and 11 of the twelve used ones. */
  lemma AdultCategoricalPositions(cats: seq<int>, ftu: seq<int>)
    requires cats == CategoricalFeatures && ftu == FeaturesToUse
    ensures Repositioned(cats, ftu) == Ok([1, 2, 3, 4, 5, 6, 7, 8, 9, 11])
  {
    RepositionedUnique(cats, ftu, [1, 2, 3, 4, 5, 6, 7, 8, 9, 11]);
  }

  /** The used features keep the names of their own columns. */
  lemma AdultFeatureNames(names: seq<Cell>, ftu: seq<int>)
    requires names == FeatureNames && ftu == FeaturesToUse
    ensures NamesAt(names, ftu) ==
      [Text("Age"), Text("Workclass"), Text("Education"), Text("Marital Status"), Text("Occupation"),
       Text("Relationship"), Text("Race"), Text("Sex"), Text("Capital Gain"), Text("Capital Loss"),
       Text("Hours per week"), Text("Country")]
  {
    UsedSorted(ftu, |names|);
    NamesAtSorted(names, ftu);
  }

  /** The used Adult features are listed in increasing order and name
      columns of the fifteen-column table. */
  lemma UsedSorted(ftu: seq<int>, width: nat)
    requires ftu == FeaturesToUse && width == 15
    ensures forall j :: 0 <= j < |ftu| ==> 0 <= ftu[j] < width
    ensures forall a, b :: 0 <= a < b < |ftu| ==> ftu[a] < ftu[b]
  {
    forall a, b | 0 <= a < b < |ftu|
      ensures ftu[a] < ftu[b]
    {
      assert ftu[a] < ftu[a + 1];
    }
  }

  /** What the Adult loader records when it succeeds: the twelve used
      names, the class target named by the last column, every column
      categorical after the discretization, and only Age (0) and Hours per
      week (10) ordinal. */
  lemma AdultLoaded(grid: Grid, width: nat, capGains: seq<Cell> -> seq<Cell>, lib: Library)
    requires Coding.Rectangular(grid, width)
    requires LoadedCsv(grid, width, AdultOptions(width, capGains, true), lib).Ok?
    ensures var l := LoadedCsv(grid, width, AdultOptions(width, capGains, true), lib).value;
            |l.featureNames| == 12 && l.featureNames[0] == Text("Age") && l.featureNames[11] == Text("Country")
            && (width == 15 ==> l.classTarget == Text("Income"))
            && (forall x :: x in l.categorical <==> 0 <= x < 12)
            && (forall x :: x in l.ordinal <==> x == 0 || x == 10)
  {
    var o := AdultOptions(width, capGains, true);
    var h := Header(grid, o).value;
    var rows := Transformed(grid[h.0..], width, o.transformations).value;
    assert LoadedCsv(grid, width, o, lib) == LoadedFrom(rows, width, FeatureNames, o, lib);
    AdultCategoricalPositions(o.categorical.value, o.featuresToUse.value);
    var l := LoadedFrom(rows, width, FeatureNames, o, lib).value;
    AdultLoadedFrom(rows, width, FeatureNames, o, lib, l);
    AdultFeatureNames(o.featureNames.value, o.featuresToUse.value);
  }

  /** After the transformations, with twelve used features and the
      categorical ones renumbered as the Adult ones are, every column ends
      up categorical and only positions 0 and 10 ordinal. */
  lemma AdultLoadedFrom(rows: Grid, width: nat, names: seq<Cell>, o: Options, lib: Library, l: Loaded)
    requires Coding.Rectangular(rows, width)
    requires o.featuresToUse.Some? && |o.featuresToUse.value| == 12 && o.categorical.Some? && o.discretize
    requires Repositioned(o.categorical.value, o.featuresToUse.value) == Ok([1, 2, 3, 4, 5, 6, 7, 8, 9, 11])
    requires LoadedFrom(rows, width, names, o, lib) == Ok(l)
    ensures forall x :: x in l.categorical <==> 0 <= x < 12
    ensures forall x :: x in l.ordinal <==> x == 0 || x == 10
  {
    var ks := Repositioned(o.categorical.value, o.featuresToUse.value).value;
    AdultOrdinal(ks);
    forall x
      ensures x in l.categorical <==> 0 <= x < 12
      ensures x in l.ordinal <==> x == 0 || x == 10
    {
      assert x in l.categorical <==> 0 <= x < |o.featuresToUse.value|;
      assert x in l.ordinal <==> 0 <= x < 12 && x !in ks;
    }
  }

  /** Of the twelve used features, only Age (0) and Hours per week (10)
      are not categorical, so they are the ordinal ones. */
  lemma AdultOrdinal(cats: seq<int>)
    requires cats == [1, 2, 3, 4, 5, 6, 7, 8, 9, 11]
    ensures forall x :: 0 <= x < 12 && x !in cats <==> x == 0 || x == 10
  {
    forall x | 0 <= x < 12
      ensures x in cats <==> x != 0 && x != 10
    {
      if 1 <= x <= 9 {
        assert cats[x - 1] == x;
      } else if x == 11 {
        assert cats[9] == x;
      } else {
        assert forall j :: 0 <= j < |cats| ==> cats[j] != 0 && cats[j] != 10;
      }
    }
  }
}
