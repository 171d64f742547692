/** The helpers of `lsw/utils.py`: the GPS and IMU unit conversions, the
    bearing normalisation, the holding-register catalogue of the radiometers
    and the decoder that turns one poll cycle's raw register words into a
    measurement record. */
module Utils {
  import opened Wrappers

  // ---------------------------------------------------------------------
  // GEO helpers
  // ---------------------------------------------------------------------

  /** A `KeyError` raised by the `dict_ns` / `dict_ew` lookups. */
  datatype LookupError = UnknownHemisphere(letter: string)

  /** `dict_ns[ns]`: +1 for "N", -1 for "S", a lookup failure otherwise. */
  function NorthSouthSign(ns: string): Option<int>
  {
    if ns == "N" then Some(1) else if ns == "S" then Some(-1) else None
  }

  /** `dict_ew[ew]`: +1 for "E", -1 for "W", a lookup failure otherwise. */
  function EastWestSign(ew: string): Option<int>
  {
    if ew == "E" then Some(1) else if ew == "W" then Some(-1) else None
  }

  /** `lnle2ll`: latitude and longitude, given by the GPS in millionths of a
      degree with hemisphere letters, as signed degrees. The latitude letter
      is looked up first, so it is the one reported when both are unknown. */
  function LnLe2LL(latitude: int, ns: string, longitude: int, ew: string): (r: Result<(real, real), LookupError>)
    ensures r.Success? <==> (ns == "N" || ns == "S") && (ew == "E" || ew == "W")
    ensures r.Success? ==>
      && r.value.0 * 1000000.0 == (if ns == "N" then latitude as real else -(latitude as real))
      && r.value.1 * 1000000.0 == (if ew == "E" then longitude as real else -(longitude as real))
    ensures r.Failure? ==>
      r.error == UnknownHemisphere(if ns != "N" && ns != "S" then ns else ew)
  {
    match (NorthSouthSign(ns), EastWestSign(ew))
    case (None, _) => Failure(UnknownHemisphere(ns))
    case (Some(_), None) => Failure(UnknownHemisphere(ew))
    case (Some(a), Some(b)) =>
      Success(((a * latitude) as real / 1000000.0, (b * longitude) as real / 1000000.0))
  }

  /** A quaternion in scipy's scalar-last order (x, y, z, w). */
  datatype Quaternion = Quaternion(x: real, y: real, z: real, w: real)

  /** The IMU's fixed-point quaternion scale. */
  const QuaternionScale: real := 16383.0

  /** `tfq2spq`: the IMU reports (w, x, y, z) as integers scaled by 16383;
      scipy wants (x, y, z, w) as reals. */
  function TfqToSpq(w: int, x: int, y: int, z: int): (q: Quaternion)
    ensures q.x * QuaternionScale == x as real
    ensures q.y * QuaternionScale == y as real
    ensures q.z * QuaternionScale == z as real
    ensures q.w * QuaternionScale == w as real
  {
    Quaternion(x as real / QuaternionScale, y as real / QuaternionScale,
               z as real / QuaternionScale, w as real / QuaternionScale)
  }

  /** `normalize_angle`: turns a solar azimuth (degrees clockwise from
      north) into the signed bearing the stepper works with. The bearing is
      congruent to minus the azimuth modulo 360, and an azimuth in [0, 360)
      lands in (-180, 180]. */
  function NormalizeAngle(theta: real): (r: real)
    ensures r + theta == 0.0 || r + theta == 360.0
    ensures 0.0 <= theta < 360.0 ==> -180.0 < r <= 180.0
    ensures 0.0 <= theta < 180.0 ==> r <= 0.0
  {
    if theta < 180.0 then -theta else 360.0 - theta
  }

  /** The azimuth a bearing in (-180, 180] came from. */
  function AzimuthOfBearing(b: real): real
  {
    if b <= 0.0 then -b else 360.0 - b
  }

  /** On [0, 360) the normalisation loses nothing: the azimuth is recovered
      from the bearing. */
  lemma NormalizeAngleInverse(theta: real)
    requires 0.0 <= theta < 360.0
    ensures AzimuthOfBearing(NormalizeAngle(theta)) == theta
  {
  }

  /** The bearing is the only value in (-180, 180] congruent to minus the
      azimuth. */
  lemma NormalizeAngleUnique(theta: real, b: real)
    requires 0.0 <= theta < 360.0
    requires -180.0 < b <= 180.0
    requires b + theta == 0.0 || b + theta == 360.0
    ensures b == NormalizeAngle(theta)
  {
  }

  /** The documented sample points: east gives -90, south gives +180 (not
      -180), west gives +90. */
  lemma NormalizeAngleExamples()
    ensures NormalizeAngle(90.0) == -90.0
    ensures NormalizeAngle(180.0) == 180.0
    ensures NormalizeAngle(270.0) == 90.0
    ensures NormalizeAngle(0.0) == 0.0
  {
  }

  // ---------------------------------------------------------------------
  // RAD: register words and their decoding
  // ---------------------------------------------------------------------

  /** One 16-bit holding register. */
  type Word = w: int | 0 <= w < 0x1_0000

  /** A 32-bit pattern; the decoder keeps single-precision floats as their
      bit pattern (`struct.unpack("!f", ...)` reinterprets it). */
  type Bits32 = b: int | 0 <= b < 0x1_0000_0000

  /** Two words formatted as four hex digits each and read big-endian:
      the first word is the high half. */
  function Pattern32(hi: Word, lo: Word): Bits32
  {
    hi * 0x1_0000 + lo
  }

  function HighWord(p: Bits32): Word
  {
    p / 0x1_0000
  }

  function LowWord(p: Bits32): Word
  {
    p % 0x1_0000
  }

  /** The two words are recovered from the pattern: no information is lost
      when two registers are joined into one float. */
  lemma Pattern32Split(hi: Word, lo: Word)
    ensures HighWord(Pattern32(hi, lo)) == hi
    ensures LowWord(Pattern32(hi, lo)) == lo
  {
    var p := hi * 0x1_0000 + lo;
    assert p == hi * 0x1_0000 + lo && 0 <= lo < 0x1_0000;
  }

  /** Every 32-bit pattern is the join of its two halves. */
  lemma Pattern32Join(p: Bits32)
    ensures Pattern32(HighWord(p), LowWord(p)) == p
  {
  }

  /** `zip(words[::2], words[1::2])` followed by the float decoding: word
      pairs (0,1), (2,3), ... each give one 32-bit pattern; an odd trailing
      word has no partner and is dropped. */
  function Pairs(ws: seq<Word>): (r: seq<Bits32>)
    ensures |r| == |ws| / 2
    decreases |ws|
  {
    if |ws| < 2 then [] else [Pattern32(ws[0], ws[1])] + Pairs(ws[2..])
  }

  /** Value `i` of the decoding comes from words `2i` and `2i+1`. */
  lemma {:induction false} PairsAt(ws: seq<Word>, i: nat)
    requires i < |ws| / 2
    ensures Pairs(ws)[i] == Pattern32(ws[2 * i], ws[2 * i + 1])
    decreases i
  {
    if i > 0 {
      PairsAt(ws[2..], i - 1);
      assert ws[2..][2 * (i - 1)] == ws[2 * i] && ws[2..][2 * (i - 1) + 1] == ws[2 * i + 1];
    }
  }

  /** Decoding distributes over concatenation at an even boundary. */
  lemma PairsAppend(a: seq<Word>, b: seq<Word>)
    requires |a| % 2 == 0
    ensures Pairs(a + b) == Pairs(a) + Pairs(b)
  {
    var l, r := Pairs(a + b), Pairs(a) + Pairs(b);
    assert |l| == |r|;
    forall i | 0 <= i < |l| ensures l[i] == r[i] {
      PairsAt(a + b, i);
      if i < |a| / 2 {
        PairsAt(a, i);
        assert (a + b)[2 * i] == a[2 * i] && (a + b)[2 * i + 1] == a[2 * i + 1];
      } else {
        var j := i - |a| / 2;
        PairsAt(b, j);
        assert (a + b)[2 * i] == b[2 * j] && (a + b)[2 * i + 1] == b[2 * j + 1];
      }
    }
  }

  /** A word appended after an even number of words is silently dropped. */
  lemma OddTrailingWordDropped(ws: seq<Word>, w: Word)
    requires |ws| % 2 == 0
    ensures Pairs(ws + [w]) == Pairs(ws)
  {
    var l, r := Pairs(ws + [w]), Pairs(ws);
    forall i | 0 <= i < |l| ensures l[i] == r[i] {
      PairsAt(ws + [w], i);
      PairsAt(ws, i);
      assert (ws + [w])[2 * i] == ws[2 * i] && (ws + [w])[2 * i + 1] == ws[2 * i + 1];
    }
  }

  /** The loop of `process_data` that fills `lst`, pair by pair. */
  method DecodeOrdinates(ordinate: seq<Word>) returns (lst: seq<Bits32>)
    ensures lst == Pairs(ordinate)
  {
    lst := [];
    var i := 0;
    while i + 1 < |ordinate|
      invariant 0 <= i <= |ordinate| && i % 2 == 0
      invariant lst == Pairs(ordinate[..i])
    {
      PairsAppend(ordinate[..i], ordinate[i..i + 2]);
      assert ordinate[..i] + ordinate[i..i + 2] == ordinate[..i + 2];
      lst := lst + [Pattern32(ordinate[i], ordinate[i + 1])];
      i := i + 2;
    }
    if i < |ordinate| {
      OddTrailingWordDropped(ordinate[..i], ordinate[i]);
      assert ordinate[..i] + [ordinate[i]] == ordinate;
    } else {
      assert ordinate[..i] == ordinate;
    }
  }

  // ---------------------------------------------------------------------
  // RAD: the register catalogue
  // ---------------------------------------------------------------------

  /** `addresses`: register address to field name. It also names the five
      abscissa blocks, which the poller never reads. */
  const Addresses: map<int, string> := map[
    2006 := "integration_time",
    2010 := "length",
    2014 := "pre_inclination",
    2016 := "post_inclination",
    2101 := "abscissa1",
    2225 := "abscissa2",
    2349 := "abscissa3",
    2473 := "abscissa4",
    2597 := "abscissa5",
    2613 := "ordinate1",
    2737 := "ordinate2",
    2861 := "ordinate3",
    2985 := "ordinate4",
    3109 := "ordinate5"
  ]

  /** One read of the poll cycle: a start address and a word count. */
  datatype Slot = Slot(address: int, count: nat)

  /** The order in which one poll cycle reads the sensor: a one-word
      scalar, the `length` block, two inclination floats, and the five
      ordinate blocks (124 words = 62 floats each, then 14 words = 7 floats). */
  const PollOrder: seq<Slot> := [
    Slot(2006, 1), Slot(2010, 2), Slot(2014, 2), Slot(2016, 2),
    Slot(2613, 124), Slot(2737, 124), Slot(2861, 124), Slot(2985, 124), Slot(3109, 14)
  ]

  /** The field names of the nine reads, in poll order. */
  const FieldNames: seq<string> := [
    "integration_time", "length", "pre_inclination", "post_inclination",
    "ordinate1", "ordinate2", "ordinate3", "ordinate4", "ordinate5"
  ]

  /** The addresses one cycle reads. */
  const PolledAddresses: set<int> := {2006, 2010, 2014, 2016, 2613, 2737, 2861, 2985, 3109}

  /** The last read of a cycle. */
  const FinalAddress: int := 3109

  /** Every polled address is in the catalogue under the field name the
      decoder expects, and the last read is `ordinate5`. */
  lemma CatalogueCoversPollOrder()
    ensures |PollOrder| == |FieldNames| == 9
    ensures forall k :: 0 <= k < 9 ==> PollOrder[k].address in Addresses && Addresses[PollOrder[k].address] == FieldNames[k]
    ensures PollOrder[8].address == FinalAddress
    ensures forall k :: 0 <= k < 8 ==> PollOrder[k].address != FinalAddress
  {
  }

  /** The reads go strictly upwards through the register map, so each
      address, and each field, is visited once per cycle. */
  lemma PollOrderAscending()
    ensures forall j, k :: 0 <= j < k < 9 ==> PollOrder[j].address < PollOrder[k].address
  {
    assert forall k :: 0 <= k < 8 ==> PollOrder[k].address < PollOrder[k + 1].address;
  }

  /** The catalogue's keys are the nine polled addresses and the five
      abscissa blocks, nothing else. */
  lemma CatalogueKeys()
    ensures forall k :: 0 <= k < 9 ==> PollOrder[k].address in PolledAddresses
    ensures Addresses.Keys == PolledAddresses + {2101, 2225, 2349, 2473, 2597}
  {
  }

  // ---------------------------------------------------------------------
  // RAD: `process_data`
  // ---------------------------------------------------------------------

  /** The data dict of one cycle: the timestamp taken at the trigger
      acknowledgment, and the raw words stored under each field name. */
  datatype Partial = Partial(time: string, fields: map<string, seq<Word>>)

  /** One row of the raw channel CSV. Floats are kept as bit patterns. */
  datatype Record = Record(
    time: string,
    integrationTime: Word,
    length: Word,
    preInclination: Bits32,
    postInclination: Bits32,
    ordinate: seq<Bits32>)

  /** The exceptions `process_data` can raise. */
  datatype DecodeError =
    | MissingField(name: string)   // KeyError
    | EmptyField(name: string)     // IndexError on `[0]`
    | NotOneFloat(name: string)    // struct.error: not exactly 4 bytes

  function Field(d: Partial, name: string): Result<seq<Word>, DecodeError>
  {
    if name in d.fields then Success(d.fields[name]) else Failure(MissingField(name))
  }

  /** `data[name][0]`. */
  function FirstWord(d: Partial, name: string): Result<Word, DecodeError>
  {
    var ws :- Field(d, name);
    if |ws| == 0 then Failure(EmptyField(name)) else Success(ws[0])
  }

  /** `struct.unpack("!f", ...)` of all the words stored under `name`:
      exactly two words make the four bytes of one float. */
  function FloatField(d: Partial, name: string): Result<Bits32, DecodeError>
  {
    var ws :- Field(d, name);
    if |ws| == 2 then Success(Pattern32(ws[0], ws[1])) else Failure(NotOneFloat(name))
  }

  /** Whether the data dict has an entry for each of the nine polled fields. */
  predicate HasAllFields(d: Partial)
  {
    && "integration_time" in d.fields && "length" in d.fields
    && "pre_inclination" in d.fields && "post_inclination" in d.fields
    && "ordinate1" in d.fields && "ordinate2" in d.fields && "ordinate3" in d.fields
    && "ordinate4" in d.fields && "ordinate5" in d.fields
  }

  /** The field names of a poll order prefix are all present. */
  lemma HasAllFieldsFromNames(d: Partial)
    requires forall k :: 0 <= k < 9 ==> FieldNames[k] in d.fields
    ensures HasAllFields(d)
  {
    assert FieldNames[0] in d.fields && FieldNames[1] in d.fields && FieldNames[2] in d.fields;
    assert FieldNames[3] in d.fields && FieldNames[4] in d.fields && FieldNames[5] in d.fields;
    assert FieldNames[6] in d.fields && FieldNames[7] in d.fields && FieldNames[8] in d.fields;
  }

  /** Whether the data dict holds everything `process_data` reads, with
      the shapes it needs. */
  predicate Decodable(d: Partial)
  {
    && HasAllFields(d)
    && |d.fields["integration_time"]| > 0
    && |d.fields["length"]| > 0
    && |d.fields["pre_inclination"]| == 2
    && |d.fields["post_inclination"]| == 2
  }

  /** The five ordinate blocks, concatenated in order. */
  function OrdinateWords(d: Partial): seq<Word>
    requires HasAllFields(d)
  {
    d.fields["ordinate1"] + d.fields["ordinate2"] + d.fields["ordinate3"]
      + d.fields["ordinate4"] + d.fields["ordinate5"]
  }

  /** What `process_data` returns for a data dict, or the exception it
      raises (the dict entries are evaluated in source order, so the first
      problem in that order is the one reported). */
  function Decode(d: Partial): (r: Result<Record, DecodeError>)
    ensures r.Success? <==> Decodable(d)
    ensures r.Success? ==>
      && Decodable(d)
      && r.value.time == d.time
      && r.value.integrationTime == d.fields["integration_time"][0]
      && r.value.length == d.fields["length"][0]
      && r.value.preInclination == Pattern32(d.fields["pre_inclination"][0], d.fields["pre_inclination"][1])
      && r.value.postInclination == Pattern32(d.fields["post_inclination"][0], d.fields["post_inclination"][1])
      && r.value.ordinate == Pairs(OrdinateWords(d))
  {
    var integrationTime :- FirstWord(d, "integration_time");
    var length :- FirstWord(d, "length");
    var pre :- FloatField(d, "pre_inclination");
    var post :- FloatField(d, "post_inclination");
    var o1 :- Field(d, "ordinate1");
    var o2 :- Field(d, "ordinate2");
    var o3 :- Field(d, "ordinate3");
    var o4 :- Field(d, "ordinate4");
    var o5 :- Field(d, "ordinate5");
    Success(Record(d.time, integrationTime, length, pre, post, Pairs(o1 + o2 + o3 + o4 + o5)))
  }

  /** `process_data`, with its decoding loop. */
  method ProcessData(d: Partial) returns (r: Result<Record, DecodeError>)
    ensures r == Decode(d)
  {
    if "integration_time" !in d.fields { return Failure(MissingField("integration_time")); }
    if |d.fields["integration_time"]| == 0 { return Failure(EmptyField("integration_time")); }
    if "length" !in d.fields { return Failure(MissingField("length")); }
    if |d.fields["length"]| == 0 { return Failure(EmptyField("length")); }
    if "pre_inclination" !in d.fields { return Failure(MissingField("pre_inclination")); }
    if |d.fields["pre_inclination"]| != 2 { return Failure(NotOneFloat("pre_inclination")); }
    if "post_inclination" !in d.fields { return Failure(MissingField("post_inclination")); }
    if |d.fields["post_inclination"]| != 2 { return Failure(NotOneFloat("post_inclination")); }
    if "ordinate1" !in d.fields { return Failure(MissingField("ordinate1")); }
    if "ordinate2" !in d.fields { return Failure(MissingField("ordinate2")); }
    if "ordinate3" !in d.fields { return Failure(MissingField("ordinate3")); }
    if "ordinate4" !in d.fields { return Failure(MissingField("ordinate4")); }
    if "ordinate5" !in d.fields { return Failure(MissingField("ordinate5")); }
    var pre, post := d.fields["pre_inclination"], d.fields["post_inclination"];
    var lst := DecodeOrdinates(OrdinateWords(d));
    r := Success(Record(d.time, d.fields["integration_time"][0], d.fields["length"][0],
                        Pattern32(pre[0], pre[1]), Pattern32(post[0], post[1]), lst));
  }

  /** The five ordinate blocks of a full cycle (124, 124, 124, 124 and 14
      words, all even) decode block by block, in order, to 255 values. */
  lemma OrdinateBlocksDecode(o1: seq<Word>, o2: seq<Word>, o3: seq<Word>, o4: seq<Word>, o5: seq<Word>)
    requires |o1| == 124 && |o2| == 124 && |o3| == 124 && |o4| == 124 && |o5| == 14
    ensures Pairs(o1 + o2 + o3 + o4 + o5) == Pairs(o1) + Pairs(o2) + Pairs(o3) + Pairs(o4) + Pairs(o5)
    ensures |Pairs(o1 + o2 + o3 + o4 + o5)| == 255
  {
    PairsAppend(o1 + o2 + o3 + o4, o5);
    PairsAppend(o1 + o2 + o3, o4);
    PairsAppend(o1 + o2, o3);
    PairsAppend(o1, o2);
  }

  /** A data dict whose nine fields hold exactly the word counts the poll
      cycle requests decodes, to 255 ordinate values (510 words). */
  lemma FullCycleDecodes(d: Partial)
    requires forall k :: 0 <= k < 9 ==> FieldNames[k] in d.fields && |d.fields[FieldNames[k]]| == PollOrder[k].count
    ensures Decode(d).Success?
    ensures |Decode(d).value.ordinate| == 255
    ensures Decode(d).value.ordinate ==
      Pairs(d.fields["ordinate1"]) + Pairs(d.fields["ordinate2"]) + Pairs(d.fields["ordinate3"])
        + Pairs(d.fields["ordinate4"]) + Pairs(d.fields["ordinate5"])
  {
    HasAllFieldsFromNames(d);
    assert |d.fields[FieldNames[0]]| == 1 && |d.fields[FieldNames[1]]| == 2;
    assert |d.fields[FieldNames[2]]| == 2 && |d.fields[FieldNames[3]]| == 2;
    assert |d.fields[FieldNames[4]]| == 124 && |d.fields[FieldNames[5]]| == 124 && |d.fields[FieldNames[6]]| == 124;
    assert |d.fields[FieldNames[7]]| == 124 && |d.fields[FieldNames[8]]| == 14;
    assert Decodable(d);
    OrdinateBlocksDecode(d.fields["ordinate1"], d.fields["ordinate2"], d.fields["ordinate3"],
                         d.fields["ordinate4"], d.fields["ordinate5"]);
  }
}
