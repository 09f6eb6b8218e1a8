/** The notebook's data preparation: a label per image path, the
    train/validation split, and the class-weight table. */
module Dataset {
  import opened Floats

  datatype Option<T> = None | Some(value: T)

  // ---------------------------------------------------------------------
  // Labels from paths

  /** Python's `str.split(sep)` with a separator given: every occurrence
      splits, and empty pieces (leading, trailing, between two separators)
      are kept. */
  function SplitOn(s: string, sep: char): (parts: seq<string>)
    ensures |parts| >= 1
    ensures |parts| == 1 <==> sep !in s
    ensures |parts| == 1 ==> parts[0] == s
    decreases |s|
  {
    if s == [] then [[]]
    else
      var rest := SplitOn(s[1..], sep);
      assert s == [s[0]] + s[1..];
      if s[0] == sep then [[]] + rest
      else [[s[0]] + rest[0]] + rest[1..]
  }

  /** Python's `sep.join(parts)`, the inverse of `SplitOn`. */
  function Join(parts: seq<string>, sep: char): string
  {
    if parts == [] then []
    else if |parts| == 1 then parts[0]
    else parts[0] + [sep] + Join(parts[1..], sep)
  }

  /** Joining the pieces of a split gives back the string. */
  lemma {:induction false} JoinSplit(s: string, sep: char)
    ensures Join(SplitOn(s, sep), sep) == s
    decreases |s|
  {
    if s != [] {
      var rest := SplitOn(s[1..], sep);
      JoinSplit(s[1..], sep);
      if s[0] == sep {
        assert ([[]] + rest)[1..] == rest;
        assert s == [sep] + s[1..];
      } else if |rest| == 1 {
        assert s == [s[0]] + s[1..];
      } else {
        var parts := [[s[0]] + rest[0]] + rest[1..];
        assert parts[1..] == rest[1..];
        assert Join(rest, sep) == rest[0] + [sep] + Join(rest[1..], sep);
        assert s == [s[0]] + s[1..];
      }
    }
  }

  /** No piece of a split contains the separator. */
  lemma {:induction false} SplitPiecesFree(s: string, sep: char)
    ensures forall k :: 0 <= k < |SplitOn(s, sep)| ==> sep !in SplitOn(s, sep)[k]
    decreases |s|
  {
    if s != [] {
      SplitPiecesFree(s[1..], sep);
      var rest := SplitOn(s[1..], sep);
      if s[0] != sep {
        assert sep !in [s[0]] + rest[0];
      }
    }
  }

  /** A prefix free of the separator joins the first piece of what follows. */
  lemma {:induction false} SplitFreePrefix(a: string, t: string, sep: char)
    requires sep !in a
    ensures SplitOn(a + t, sep) == [a + SplitOn(t, sep)[0]] + SplitOn(t, sep)[1..]
    decreases |a|
  {
    var parts := SplitOn(t, sep);
    if a == [] {
      assert a + t == t;
      assert a + parts[0] == parts[0];
      assert [parts[0]] + parts[1..] == parts;
    } else {
      SplitFreePrefix(a[1..], t, sep);
      assert (a + t)[1..] == a[1..] + t;
      assert [a[0]] + (a[1..] + SplitOn(t, sep)[0]) == a + SplitOn(t, sep)[0];
    }
  }

  /** `image_path.split("/")[1]`, or None where that index raises
      `IndexError` because the path has no "/". */
  function Label(path: string): (r: Option<string>)
    ensures r.Some? <==> '/' in path
    ensures r.Some? ==> '/' !in r.value
  {
    var parts := SplitOn(path, '/');
    SplitPiecesFree(path, '/');
    if |parts| >= 2 then Some(parts[1]) else None
  }

  /** The label is the text between the first "/" and the next "/" (or the
      end): `training/<class>/<file>` gives `<class>`. */
  lemma LabelOfPath(a: string, className: string, rest: string)
    requires '/' !in a && '/' !in className
    requires rest == [] || rest[0] == '/'
    ensures Label(a + "/" + className + rest) == Some(className)
  {
    var u := className + rest;
    var t := "/" + u;
    assert a + "/" + className + rest == a + t;
    SplitFreePrefix(a, t, '/');
    assert t[0] == '/' && t[1..] == u;
    var tail := SplitOn(u, '/');
    assert SplitOn(t, '/') == [[]] + tail;
    SplitFreePrefix(className, rest, '/');
    if rest != [] {
      assert rest[0] == '/';
      assert SplitOn(rest, '/')[0] == [];
    }
    assert tail[0] == className;
    assert SplitOn(a + t, '/')[1] == tail[0];
  }

  /** The outcome of the label loop: one label per path, or the index of the
      first path on which `split("/")[1]` raises. */
  datatype Labelling = Labels(labels: seq<string>) | MissingLabel(index: nat)

  /** The loop that appends `image_path.split("/")[1]` for each path. */
  method CollectLabels(imagePaths: seq<string>) returns (r: Labelling)
    ensures r.Labels? <==> forall k :: 0 <= k < |imagePaths| ==> '/' in imagePaths[k]
    ensures r.Labels? ==> |r.labels| == |imagePaths|
    ensures r.Labels? ==> forall k :: 0 <= k < |imagePaths| ==> Label(imagePaths[k]) == Some(r.labels[k])
    ensures r.MissingLabel? ==> r.index < |imagePaths| && '/' !in imagePaths[r.index]
    ensures r.MissingLabel? ==> forall k :: 0 <= k < r.index ==> '/' in imagePaths[k]
  {
    var labels: seq<string> := [];
    for k := 0 to |imagePaths|
      invariant |labels| == k
      invariant forall j :: 0 <= j < k ==> Label(imagePaths[j]) == Some(labels[j])
    {
      var found := Label(imagePaths[k]);
      if found.None? {
        return MissingLabel(k);
      }
      labels := labels + [found.value];
    }
    return Labels(labels);
  }

  // ---------------------------------------------------------------------
  // Train/validation split

  /** `int(n * 0.9)`: the number of paths that go to training. */
  function TrainCount(n: nat): (i: nat)
    ensures i <= n
    ensures 10 * i <= 9 * n < 10 * i + 10
  {
    n * 9 / 10
  }

  /** Python's `xs[:i]` for a non-negative `i`: a prefix of `xs`, of length
      `i` or, past the end, the whole list. */
  function Take<T>(xs: seq<T>, i: nat): (r: seq<T>)
    ensures r <= xs
    ensures i <= |xs| ==> |r| == i
    ensures i > |xs| ==> r == xs
  {
    if i <= |xs| then xs[..i] else xs
  }

  /** Python's `xs[i:]` for a non-negative `i`: what `Take` leaves over. */
  function Drop<T>(xs: seq<T>, i: nat): (r: seq<T>)
    ensures Take(xs, i) + r == xs
  {
    if i <= |xs| then xs[i..] else []
  }

  datatype DatasetSplit = DatasetSplit(
    trainPaths: seq<string>,
    trainLabels: seq<string>,
    validationPaths: seq<string>,
    validationLabels: seq<string>)

  /** Both lists are cut at the same index, computed from the path count. */
  function SplitDataset(imagePaths: seq<string>, labels: seq<string>): (r: DatasetSplit)
    ensures r.trainPaths + r.validationPaths == imagePaths
    ensures r.trainLabels + r.validationLabels == labels
    ensures |r.trainPaths| == TrainCount(|imagePaths|)
    ensures |labels| == |imagePaths| ==> |r.trainLabels| == |r.trainPaths|
  {
    var i := TrainCount(|imagePaths|);
    DatasetSplit(Take(imagePaths, i), Take(labels, i), Drop(imagePaths, i), Drop(labels, i))
  }

  /** With one label per path, every (path, label) pair of either part is the
      pair at the same original index, so a labelling made by the label loop
      still holds on both parts. */
  lemma SplitKeepsPairs(imagePaths: seq<string>, labels: seq<string>)
    requires |labels| == |imagePaths|
    requires forall k :: 0 <= k < |imagePaths| ==> Label(imagePaths[k]) == Some(labels[k])
    ensures var r := SplitDataset(imagePaths, labels);
      |r.trainLabels| == |r.trainPaths| && |r.validationLabels| == |r.validationPaths| &&
      (forall k :: 0 <= k < |r.trainPaths| ==>
        r.trainPaths[k] == imagePaths[k] && r.trainLabels[k] == labels[k] &&
        Label(r.trainPaths[k]) == Some(r.trainLabels[k])) &&
      (forall k :: 0 <= k < |r.validationPaths| ==>
        r.validationPaths[k] == imagePaths[|r.trainPaths| + k] &&
        r.validationLabels[k] == labels[|r.trainPaths| + k] &&
        Label(r.validationPaths[k]) == Some(r.validationLabels[k]))
  {
  }

  // ---------------------------------------------------------------------
  // Class weights

  /** `classTotals.max()`. */
  function Max(xs: seq<real>): (m: real)
    requires |xs| > 0
    ensures m in xs
    ensures forall k :: 0 <= k < |xs| ==> xs[k] <= m
  {
    if |xs| == 1 then xs[0]
    else
      var rest := Max(xs[1..]);
      if xs[0] >= rest then xs[0] else rest
  }

  /** The table the class-weight loop builds: one entry per class index,
      class `i` weighing the largest total divided by its own total (see
      `WeightOfClass`). */
  function ClassWeightTable(classTotals: seq<real>): (w: map<int, Float>)
    ensures forall i :: i in w <==> 0 <= i < |classTotals|
  {
    map i | 0 <= i < |classTotals| :: Div(Max(classTotals), classTotals[i])
  }

  /** The loop that fills `classWeight` one class index at a time. */
  method ClassWeights(classTotals: seq<real>) returns (classWeight: map<int, Float>)
    ensures classWeight == ClassWeightTable(classTotals)
  {
    classWeight := map[];
    for i := 0 to |classTotals|
      invariant forall j :: j in classWeight <==> 0 <= j < i
      invariant forall j :: 0 <= j < i ==> classWeight[j] == Div(Max(classTotals), classTotals[j])
    {
      classWeight := classWeight[i := Div(Max(classTotals), classTotals[i])];
    }
  }

  /** Class `i` weighs the largest total divided by its own, in IEEE
      division: by `Div`'s contract the weight times the class's total gives
      back the largest total, and a class with no examples gets an infinite
      or NaN weight instead of an exception. */
  lemma WeightOfClass(classTotals: seq<real>, i: int)
    requires 0 <= i < |classTotals|
    ensures i in ClassWeightTable(classTotals)
    ensures ClassWeightTable(classTotals)[i] == Div(Max(classTotals), classTotals[i])
    ensures classTotals[i] == 0.0 ==> !ClassWeightTable(classTotals)[i].Finite?
  {
  }

  /** With positive totals every weight is finite and at least 1. */
  lemma WeightsAtLeastOne(classTotals: seq<real>)
    requires forall k :: 0 <= k < |classTotals| ==> classTotals[k] > 0.0
    ensures forall i :: 0 <= i < |classTotals| ==>
      ClassWeightTable(classTotals)[i].Finite? && ClassWeightTable(classTotals)[i].value >= 1.0
  {
    forall i | 0 <= i < |classTotals|
      ensures ClassWeightTable(classTotals)[i].Finite? && ClassWeightTable(classTotals)[i].value >= 1.0
    {
      var m, c := Max(classTotals), classTotals[i];
      assert ClassWeightTable(classTotals)[i] == Div(m, c);
      QuotientAtLeastOne(m, c);
    }
  }

  /** Dividing by a positive total no larger than the maximum gives at
      least 1; stated apart so the quantified proof above stays small. */
  lemma QuotientAtLeastOne(m: real, c: real)
    requires 0.0 < c <= m
    ensures m / c >= 1.0
  {
  }

  /** The most frequent class weighs exactly 1. */
  lemma MostFrequentWeighsOne(classTotals: seq<real>, i: int)
    requires 0 <= i < |classTotals| && classTotals[i] > 0.0
    requires classTotals[i] == Max(classTotals)
    ensures ClassWeightTable(classTotals)[i] == Finite(1.0)
  {
  }
}
