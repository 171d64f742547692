/** The naming side of `lsw/plot.py`: its own copy of the angle
    normalisation, and how `main` derives the figure title and the figure
    file name from the stem of an orientation file
    (`orientation_<station>_<timestamp>`). */
module Plot {
  import opened Wrappers
  import opened Strings
  import Utils

  /** `plot.normalize_angle`, written again in `plot.py`: it is the same
      map as the controller's, so bearings in figures and in the
      controller agree. */
  function NormalizeAngle(theta: real): (r: real)
    ensures r == Utils.NormalizeAngle(theta)
    ensures 0.0 <= theta < 360.0 ==> -180.0 < r <= 180.0
    ensures theta < 180.0 ==> r <= 0.0 || theta < 0.0
    ensures theta == 180.0 ==> r == 180.0
  {
    if theta < 180.0 then -theta else 360.0 - theta
  }

  /** `'_'.join(stem.split('_')[1:])`: what follows the first underscore,
      or nothing when there is none. */
  function FigureStem(stem: string): (r: string)
    ensures '_' !in stem ==> r == ""
    ensures '_' in stem ==>
      && |r| < |stem|
      && r == stem[|stem| - |r|..]
      && stem[|stem| - |r| - 1] == '_'
      && '_' !in stem[..|stem| - |r| - 1]
  {
    var parts := Split(stem, '_');
    SplitSinglePiece(stem, '_');
    if |parts| >= 2 then
      assert stem == parts[0] + ['_'] + Join(parts[1..], '_');
      Join(parts[1..], '_')
    else
      ""
  }

  /** The file the figure is written to. */
  function FigureName(stem: string): (r: string)
    ensures |r| == |FigureStem(stem)| + 4 && r[..|r| - 4] == FigureStem(stem) && r[|r| - 4..] == ".png"
  {
    FigureStem(stem) + ".png"
  }

  /** `stem.split('_')[1]`, the figure title: the text between the first
      and the second underscore. Without an underscore the index is out
      of range and `main` raises before anything is drawn. */
  function Title(stem: string): (r: Option<string>)
    ensures r.Some? <==> '_' in stem
    ensures r.Some? ==> '_' !in r.value && r.value == PrefixBefore(FigureStem(stem), "_")
  {
    var parts := Split(stem, '_');
    SplitSinglePiece(stem, '_');
    if |parts| < 2 then None
    else
      TitleIsFirstPiece(parts[1..]);
      Some(parts[1])
  }

  /** The first piece of a join is what precedes the first separator. */
  lemma TitleIsFirstPiece(pieces: seq<string>)
    requires |pieces| >= 1
    requires forall i :: 0 <= i < |pieces| ==> '_' !in pieces[i]
    ensures PrefixBefore(Join(pieces, '_'), "_") == pieces[0]
  {
    var s := Join(pieces, '_');
    var a := pieces[0];
    if |pieces| >= 2 {
      assert s == a + ['_'] + Join(pieces[1..], '_');
      assert s[..|a|] == a;
      OccursAtChar(s, '_', |a|);
    }
    forall i: nat | i < |a|
      ensures !OccursAt(s, "_", i)
    {
      assert s[i] == a[i];
      OccursAtChar(s, '_', i);
    }
    PrefixBeforeUnique(s, "_", a);
  }

  /** For the names `main_geo.py` writes, `orientation_<station>_<time>`
      with neither part holding an underscore: the title is the station
      and the figure is named `<station>_<time>.png`. */
  lemma {:induction false} OrientationFileNaming(station: string, time: string)
    requires '_' !in station && '_' !in time
    ensures Title("orientation_" + station + "_" + time) == Some(station)
    ensures FigureStem("orientation_" + station + "_" + time) == station + "_" + time
  {
    var stem := "orientation_" + station + "_" + time;
    SplitAtFirstSeparator("orientation", '_', station + "_" + time);
    SplitAtFirstSeparator(station, '_', time);
    SplitWithoutSeparator(time, '_');
    assert stem == "orientation" + ['_'] + (station + ['_'] + time);
    assert station + "_" + time == station + ['_'] + time;
    assert Split(stem, '_') == ["orientation", station, time];
    assert Split(stem, '_')[1..] == [station, time];
    assert Join([time], '_') == time;
  }
}
