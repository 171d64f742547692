/** The file bookkeeping of the `calibrate` and `draw` commands of
    `lsw/cli.py`: which raw files are handed to the calibration and with
    which sensor id, and which triples of calibrated and orientation files
    are plotted. A directory listing is the sequence of its file names. */
module Cli {
  import opened Wrappers
  import opened Strings
  import Plot

  // ---------------------------------------------------------------------
  // Paths
  // ---------------------------------------------------------------------

  /** `Path.stem`: the name without its last suffix, where a suffix is a
      dot that is neither the first nor the last character, and what
      follows it. */
  function Stem(name: string): (r: string)
    ensures |r| <= |name| && r == name[..|r|]
    ensures r != name ==>
      && 0 < |r| < |name| - 1
      && name[|r|] == '.'
      && '.' !in name[|r| + 1..]
  {
    match LastIndexOf(name, '.')
    case Some(i) => if 0 < i < |name| - 1 then name[..i] else name
    case None => name
  }

  /** A name made of a non-empty base, a dot and a dot-free extension has
      the base as its stem. */
  lemma StemDropsExtension(base: string, ext: string)
    requires |base| > 0 && |ext| > 0 && '.' !in ext
    ensures Stem(base + "." + ext) == base
  {
    var name := base + "." + ext;
    assert name[|base|] == '.';
    assert name[|base| + 1..] == ext;
    var i := LastIndexOf(name, '.');
    assert i.Some?;
    assert i.value == |base|;
  }

  /** The stems of a listing, in order. */
  function Stems(names: seq<string>): (r: seq<string>)
    ensures |r| == |names| && forall i :: 0 <= i < |names| ==> r[i] == Stem(names[i])
  {
    seq(|names|, i requires 0 <= i < |names| => Stem(names[i]))
  }

  // ---------------------------------------------------------------------
  // Keys and the already-processed filter
  // ---------------------------------------------------------------------

  /** The three ways `cli.py` reduces a file name to the key it compares. */
  datatype Naming =
    | Calibration   // `stem.split("__")[0]`
    | Radiometry    // `stem[3:].split("__")[0]`
    | Orientation   // `"_".join(stem.split("_")[1:])`

  function Key(naming: Naming, name: string): string
  {
    match naming
    case Calibration => PrefixBefore(Stem(name), "__")
    case Radiometry => PrefixBefore(DropFirst(Stem(name), 3), "__")
    case Orientation => Plot.FigureStem(Stem(name))
  }

  /** The keys of a listing, in order. */
  function Keys(names: seq<string>, naming: Naming): (r: seq<string>)
    ensures |r| == |names| && forall i :: 0 <= i < |names| ==> r[i] == Key(naming, names[i])
  {
    seq(|names|, i requires 0 <= i < |names| => Key(naming, names[i]))
  }

  /** The list comprehension `[p for p in names if key(p) not in done]`:
      a file is kept exactly when its key is not among those already
      done, and never more than once per occurrence. */
  function Unprocessed(names: seq<string>, done: seq<string>, naming: Naming): (r: seq<string>)
    ensures forall n :: n in r <==> n in names && Key(naming, n) !in done
    ensures |r| <= |names|
  {
    if |names| == 0 then []
    else
      var rest := Unprocessed(names[1..], done, naming);
      assert forall n :: n in names <==> n == names[0] || n in names[1..];
      if Key(naming, names[0]) in done then rest else [names[0]] + rest
  }

  /** The filter keeps the order of the listing: it distributes over
      concatenation. */
  lemma {:induction false} UnprocessedAppend(a: seq<string>, b: seq<string>, done: seq<string>, naming: Naming)
    ensures Unprocessed(a + b, done, naming) == Unprocessed(a, done, naming) + Unprocessed(b, done, naming)
    decreases |a|
  {
    if |a| > 0 {
      assert (a + b)[0] == a[0];
      assert (a + b)[1..] == a[1..] + b;
      UnprocessedAppend(a[1..], b, done, naming);
    } else {
      assert a + b == b;
    }
  }

  /** Nothing done yet (an empty output directory): every file is kept,
      in order. */
  lemma {:induction false} UnprocessedNoneDone(names: seq<string>, naming: Naming)
    ensures Unprocessed(names, [], naming) == names
    decreases |names|
  {
    if |names| > 0 {
      UnprocessedNoneDone(names[1..], naming);
      assert [names[0]] + names[1..] == names;
    }
  }

  /** Filtering twice against the same done list is filtering once. */
  lemma {:induction false} UnprocessedIdempotent(names: seq<string>, done: seq<string>, naming: Naming)
    ensures Unprocessed(Unprocessed(names, done, naming), done, naming) == Unprocessed(names, done, naming)
    decreases |names|
  {
    if |names| > 0 {
      var rest := Unprocessed(names[1..], done, naming);
      UnprocessedIdempotent(names[1..], done, naming);
      if Key(naming, names[0]) !in done {
        assert ([names[0]] + rest)[1..] == rest;
      }
    }
  }

  // ---------------------------------------------------------------------
  // `calibrate`
  // ---------------------------------------------------------------------

  /** The sensor ids passed to the calibration: downwelling irradiance
      (Es) and upwelling radiance. */
  const EsSensor: string := "8798"
  const LuSensor: string := "8799"

  /** One call `main_c(path, sensor, out_dir)`. */
  datatype Job = Job(path: string, sensor: string)

  /** The two `for` loops: every Es file with "8798", then every file of
      the upwelling list with "8799", each exactly once and in order. */
  function Dispatch(es: seq<string>, lu: seq<string>): (jobs: seq<Job>)
    ensures |jobs| == |es| + |lu|
    ensures forall i :: 0 <= i < |es| ==> jobs[i] == Job(es[i], EsSensor)
    ensures forall i :: 0 <= i < |lu| ==> jobs[|es| + i] == Job(lu[i], LuSensor)
  {
    seq(|es|, i requires 0 <= i < |es| => Job(es[i], EsSensor))
      + seq(|lu|, i requires 0 <= i < |lu| => Job(lu[i], LuSensor))
  }

  /** A job names a file of one list with that list's sensor id. */
  lemma DispatchMembers(es: seq<string>, lu: seq<string>, path: string)
    ensures Job(path, EsSensor) in Dispatch(es, lu) <==> path in es
    ensures Job(path, LuSensor) in Dispatch(es, lu) <==> path in lu
  {
    var jobs := Dispatch(es, lu);
    if Job(path, EsSensor) in jobs {
      var j :| 0 <= j < |jobs| && jobs[j] == Job(path, EsSensor);
    }
    if path in es {
      var j :| 0 <= j < |es| && es[j] == path;
      assert jobs[j] == Job(path, EsSensor);
    }
    if Job(path, LuSensor) in jobs {
      var j :| 0 <= j < |jobs| && jobs[j] == Job(path, LuSensor);
      assert jobs[|es| + (j - |es|)] == Job(lu[j - |es|], LuSensor);
    }
    if path in lu {
      var j :| 0 <= j < |lu| && lu[j] == path;
      assert jobs[|es| + j] == Job(path, LuSensor);
    }
  }

  /** The raw files of one sensor: the glob `<prefix>*__RAW.csv`. */
  function RawFiles(listing: seq<string>, prefix: string): seq<string>
  {
    Glob(listing, prefix, "__RAW.csv")
  }

  /** The keys of the calibrated files of one sensor already present. */
  function CalibratedKeys(listing: seq<string>, prefix: string): seq<string>
  {
    Keys(Glob(listing, prefix, "__CALIBRATED.csv"), Calibration)
  }

  /** `calibrate(in_dir, out_dir, force)`: the calls it makes, given the
      listings of the two directories. The raw upwelling files are globbed
      as `Lu*` and compared with the calibrated `Lw*` files. */
  function Calibrate(inListing: seq<string>, outListing: seq<string>, force: bool): seq<Job>
  {
    var es := RawFiles(inListing, "Es");
    var lu := RawFiles(inListing, "Lu");
    if force then Dispatch(es, lu)
    else Dispatch(Unprocessed(es, CalibratedKeys(outListing, "Es"), Calibration),
                  Unprocessed(lu, CalibratedKeys(outListing, "Lw"), Calibration))
  }

  /** A raw file is calibrated, with its sensor id, exactly when it matches
      its sensor's glob and either `--force` is given or no calibrated file
      of that sensor shares its key. */
  lemma CalibrateSelects(inListing: seq<string>, outListing: seq<string>, force: bool, path: string)
    ensures Job(path, EsSensor) in Calibrate(inListing, outListing, force)
        <==> && path in inListing && MatchesGlob(path, "Es", "__RAW.csv")
             && (force || Key(Calibration, path) !in CalibratedKeys(outListing, "Es"))
    ensures Job(path, LuSensor) in Calibrate(inListing, outListing, force)
        <==> && path in inListing && MatchesGlob(path, "Lu", "__RAW.csv")
             && (force || Key(Calibration, path) !in CalibratedKeys(outListing, "Lw"))
  {
    var es := RawFiles(inListing, "Es");
    var lu := RawFiles(inListing, "Lu");
    if force {
      DispatchMembers(es, lu, path);
    } else {
      DispatchMembers(Unprocessed(es, CalibratedKeys(outListing, "Es"), Calibration),
                      Unprocessed(lu, CalibratedKeys(outListing, "Lw"), Calibration), path);
    }
  }

  /** With `--force`, or into an empty output directory, every raw file of
      both globs is calibrated, in listing order. */
  lemma CalibrateEverything(inListing: seq<string>, outListing: seq<string>, force: bool)
    requires force || outListing == []
    ensures Calibrate(inListing, outListing, force) == Dispatch(RawFiles(inListing, "Es"), RawFiles(inListing, "Lu"))
  {
    if !force {
      assert CalibratedKeys(outListing, "Es") == [];
      assert CalibratedKeys(outListing, "Lw") == [];
      UnprocessedNoneDone(RawFiles(inListing, "Es"), Calibration);
      UnprocessedNoneDone(RawFiles(inListing, "Lu"), Calibration);
    }
  }

  /** The radiometer program names its upwelling files `Lw_...`, which the
      `Lu*` glob never matches. */
  lemma LwNameMissesLuGlob(name: string)
    requires |name| >= 2 && name[..2] == "Lw"
    ensures !MatchesGlob(name, "Lu", "__RAW.csv")
  {
    assert name[..2][1] == 'w';
  }

  /** A glob that no name of the listing matches finds nothing. */
  lemma {:induction false} GlobNothing(listing: seq<string>, prefix: string, suffix: string)
    requires forall n :: n in listing ==> !MatchesGlob(n, prefix, suffix)
    ensures Glob(listing, prefix, suffix) == []
    decreases |listing|
  {
    if |listing| > 0 {
      assert listing[0] in listing;
      GlobNothing(listing[1..], prefix, suffix);
    }
  }

  /** So when the input directory holds only the files the radiometer
      program writes (`Es_...` and `Lw_...`), no upwelling file is ever
      calibrated: every call uses the Es sensor id. */
  lemma OnlyEsCalibrated(inListing: seq<string>, outListing: seq<string>, force: bool)
    requires forall n :: n in inListing ==> |n| >= 2 && (n[..2] == "Es" || n[..2] == "Lw")
    ensures forall j :: j in Calibrate(inListing, outListing, force) ==> j.sensor == EsSensor
  {
    forall n | n in inListing
      ensures !MatchesGlob(n, "Lu", "__RAW.csv")
    {
      if n[..2] == "Lw" {
        LwNameMissesLuGlob(n);
      } else {
        assert n[..2][1] == 's';
      }
    }
    GlobNothing(inListing, "Lu", "__RAW.csv");
    var lu := RawFiles(inListing, "Lu");
    var es := RawFiles(inListing, "Es");
    assert Unprocessed(lu, CalibratedKeys(outListing, "Lw"), Calibration) == [];
    forall j | j in Calibrate(inListing, outListing, force)
      ensures j.sensor == EsSensor
    {
      var jobs := Calibrate(inListing, outListing, force);
      var k :| 0 <= k < |jobs| && jobs[k] == j;
    }
  }

  // ---------------------------------------------------------------------
  // `draw`
  // ---------------------------------------------------------------------

  /** `zip(a, b, c)`: positional triples, as many as the shortest list. */
  function Zip3<A, B, C>(a: seq<A>, b: seq<B>, c: seq<C>): (r: seq<(A, B, C)>)
    ensures |r| <= |a| && |r| <= |b| && |r| <= |c|
    ensures |r| == |a| || |r| == |b| || |r| == |c|
    ensures forall i :: 0 <= i < |r| ==> r[i] == (a[i], b[i], c[i])
  {
    if |a| == 0 || |b| == 0 || |c| == 0 then []
    else [(a[0], b[0], c[0])] + Zip3(a[1..], b[1..], c[1..])
  }

  /** The stems of the figures already drawn: the glob `*.png`. */
  function Figures(listing: seq<string>): seq<string>
  {
    Stems(Glob(listing, "", ".png"))
  }

  /** `draw(in_dir1, in_dir2, out_dir, force)`: the (Es, Lw, orientation)
      triples plotted. Each list is filtered on its own before they are
      paired, and the listings are taken to be in sorted order already. */
  function Draw(radListing: seq<string>, geoListing: seq<string>, outListing: seq<string>, force: bool): seq<(string, string, string)>
  {
    var es := Glob(radListing, "Es", "__CALIBRATED.csv");
    var lw := Glob(radListing, "Lw", "__CALIBRATED.csv");
    var ori := Glob(geoListing, "ori", ".csv");
    var drawn := Figures(outListing);
    if force then Zip3(es, lw, ori)
    else Zip3(Unprocessed(es, drawn, Radiometry), Unprocessed(lw, drawn, Radiometry), Unprocessed(ori, drawn, Orientation))
  }

  /** Every plotted triple is made of files of the three globs, in each
      list's own order, and the number of plots is the length of the
      shortest filtered list. */
  lemma DrawPairsPositionally(radListing: seq<string>, geoListing: seq<string>, outListing: seq<string>, force: bool)
    ensures var plots := Draw(radListing, geoListing, outListing, force);
      forall i :: 0 <= i < |plots| ==>
        && plots[i].0 in radListing && MatchesGlob(plots[i].0, "Es", "__CALIBRATED.csv")
        && plots[i].1 in radListing && MatchesGlob(plots[i].1, "Lw", "__CALIBRATED.csv")
        && plots[i].2 in geoListing && MatchesGlob(plots[i].2, "ori", ".csv")
  {
    var plots := Draw(radListing, geoListing, outListing, force);
    var es := Glob(radListing, "Es", "__CALIBRATED.csv");
    var lw := Glob(radListing, "Lw", "__CALIBRATED.csv");
    var ori := Glob(geoListing, "ori", ".csv");
    var drawn := Figures(outListing);
    forall i | 0 <= i < |plots|
      ensures plots[i].0 in es && plots[i].1 in lw && plots[i].2 in ori
    {
      if !force {
        assert plots[i].0 in Unprocessed(es, drawn, Radiometry);
        assert plots[i].1 in Unprocessed(lw, drawn, Radiometry);
        assert plots[i].2 in Unprocessed(ori, drawn, Orientation);
      }
    }
  }

  /** The figure of an orientation file is named after that file's
      `draw` key, so once it exists the file is not plotted again unless
      `--force` is given (provided the key is not empty: a stem ending in
      its first underscore gives the figure `.png`, whose stem is not
      empty). */
  lemma DrawSkipsPlotted(radListing: seq<string>, geoListing: seq<string>, outListing: seq<string>, ori: string)
    requires Key(Orientation, ori) != ""
    requires Plot.FigureName(Stem(ori)) in outListing
    ensures forall t :: t in Draw(radListing, geoListing, outListing, false) ==> t.2 != ori
  {
    FigureListed(outListing, Stem(ori));
    var es := Unprocessed(Glob(radListing, "Es", "__CALIBRATED.csv"), Figures(outListing), Radiometry);
    var lw := Unprocessed(Glob(radListing, "Lw", "__CALIBRATED.csv"), Figures(outListing), Radiometry);
    var oris := Unprocessed(Glob(geoListing, "ori", ".csv"), Figures(outListing), Orientation);
    assert ori !in oris;
    ZipThirdMembers(es, lw, oris, ori);
  }

  /** A figure drawn for an orientation stem with a non-empty figure stem
      shows up among the figure stems under that name. */
  lemma FigureListed(outListing: seq<string>, stem: string)
    requires Plot.FigureStem(stem) != ""
    requires Plot.FigureName(stem) in outListing
    ensures Plot.FigureStem(stem) in Figures(outListing)
  {
    var figure := Plot.FigureName(stem);
    var key := Plot.FigureStem(stem);
    assert figure == key + "." + "png";
    StemDropsExtension(key, "png");
    assert MatchesGlob(figure, "", ".png");
    var pngs := Glob(outListing, "", ".png");
    assert figure in pngs;
    var j :| 0 <= j < |pngs| && pngs[j] == figure;
    assert Figures(outListing)[j] == key;
  }

  /** The third components of a zip come from the third list. */
  lemma ZipThirdMembers<A, B>(a: seq<A>, b: seq<B>, c: seq<string>, x: string)
    requires x !in c
    ensures forall t :: t in Zip3(a, b, c) ==> t.2 != x
  {
    var plots := Zip3(a, b, c);
    forall t | t in plots
      ensures t.2 != x
    {
      var i :| 0 <= i < |plots| && plots[i] == t;
      assert t.2 == c[i];
    }
  }

  /** With the names the two programs write (`Es_<key>__CALIBRATED.csv`,
      `Lw_<key>__CALIBRATED.csv`, `orientation_<station>_<time>.csv` with
      key `<station>_<time>`), the three files of one measurement share
      one `draw` key. */
  lemma SameKeyAcrossFiles(station: string, time: string)
    requires |station| > 0 && |time| > 0 && '_' !in station && '_' !in time
    ensures var key := station + "_" + time;
      && Key(Radiometry, "Es_" + key + "__CALIBRATED.csv") == key
      && Key(Radiometry, "Lw_" + key + "__CALIBRATED.csv") == key
      && Key(Orientation, "orientation_" + key + ".csv") == key
  {
    var key := station + "_" + time;
    SingleUnderscore(station, time);
    RadiometryKeyOf("Es_", key);
    RadiometryKeyOf("Lw_", key);
    OrientationKeyOf(station, time);
  }

  /** `<station>_<time>` has neither an underscore at its end nor two in
      a row. */
  lemma SingleUnderscore(station: string, time: string)
    requires |station| > 0 && |time| > 0 && '_' !in station && '_' !in time
    ensures var key := station + "_" + time;
      && key[|key| - 1] != '_'
      && forall i :: 0 <= i < |key| - 1 ==> !(key[i] == '_' && key[i + 1] == '_')
  {
    var key := station + "_" + time;
    assert key[|key| - 1] == time[|time| - 1];
    forall i | 0 <= i < |key| - 1
      ensures !(key[i] == '_' && key[i + 1] == '_')
    {
      if i < |station| {
        assert key[i] == station[i];
      } else {
        assert key[i + 1] == time[i - |station|];
      }
    }
  }

  /** `orientation_<station>_<time>.csv` has the key `<station>_<time>`. */
  lemma OrientationKeyOf(station: string, time: string)
    requires |station| > 0 && '_' !in station && '_' !in time
    ensures var key := station + "_" + time;
      Key(Orientation, "orientation_" + key + ".csv") == key
  {
    var key := station + "_" + time;
    var stem := "orientation_" + station + "_" + time;
    assert "orientation_" + key + ".csv" == stem + "." + "csv";
    StemDropsExtension(stem, "csv");
    Plot.OrientationFileNaming(station, time);
  }

  /** A calibrated radiometry file `<3 characters><key>__CALIBRATED.csv`
      whose key has no underscore at its end and no two underscores in a
      row has that key. */
  lemma RadiometryKeyOf(tag: string, key: string)
    requires |tag| == 3 && |key| > 0 && key[|key| - 1] != '_'
    requires forall i :: 0 <= i < |key| - 1 ==> !(key[i] == '_' && key[i + 1] == '_')
    ensures Key(Radiometry, tag + key + "__CALIBRATED.csv") == key
  {
    var stem := tag + key + "__" + "CALIBRATED";
    assert tag + key + "__CALIBRATED.csv" == stem + "." + "csv";
    StemDropsExtension(stem, "csv");
    assert DropFirst(stem, 3) == key + "__" + "CALIBRATED";
    PrefixBeforeDoubleUnderscore(key, "CALIBRATED");
  }

  /** The part before the first `"__"` of `key + "__" + rest`, for a key
      with no underscore at its end and no two in a row, is the key. */
  lemma PrefixBeforeDoubleUnderscore(key: string, rest: string)
    requires |key| > 0 && key[|key| - 1] != '_'
    requires forall i :: 0 <= i < |key| - 1 ==> !(key[i] == '_' && key[i + 1] == '_')
    ensures PrefixBefore(key + "__" + rest, "__") == key
  {
    var s := key + "__" + rest;
    assert s[..|key|] == key;
    assert s[|key|..|key| + 2] == "__";
    forall i: nat | i < |key|
      ensures !OccursAt(s, "__", i)
    {
      assert s[i] == key[i];
      if i + 1 < |key| {
        assert s[i + 1] == key[i + 1];
      }
    }
    PrefixBeforeUnique(s, "__", key);
  }
}
