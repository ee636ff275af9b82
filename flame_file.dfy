/** The FlameMaps collection and its "FlamEd V1" text format.

    A file is a sequence of whitespace-separated tokens:
      FlamEd V1 <hdrExposure> <hdrPow> <finalMap block>
      -- <map 0 block> -- <map 1 block> ... ----
    How a single real or a single map block is spelled as tokens belongs to the
    element stream operators, which are not part of this model; they are the
    caller-supplied FieldCodec, whose map blocks have a fixed token length. */
module FlameFile {
  import opened Geometry
  import opened FlameMappings

  type Token = string

  datatype Option<T> = None | Some(value: T)

  const Magic: Token := "FlamEd"
  const Version: Token := "V1"
  const Separator: Token := "--"
  const Terminator: Token := "----"

  /** The element stream operators: how one real and one map block are written
      and read. A read always yields a value: a malformed field is not
      detected, as loadMap checks nothing. */
  datatype FieldCodec = FieldCodec(
    writeReal: real -> Token,
    readReal: Token -> real,
    writeMap: FlameMapping -> seq<Token>,
    readMap: seq<Token> -> FlameMapping,
    mapLen: nat)

  /** The real x reads back as it was written. */
  predicate RealRoundTrips(codec: FieldCodec, x: real) {
    codec.readReal(codec.writeReal(x)) == x
  }

  /** The map fm is written as a block of mapLen tokens that reads back as fm. */
  predicate MapRoundTrips(codec: FieldCodec, fm: FlameMapping) {
    |codec.writeMap(fm)| == codec.mapLen && codec.readMap(codec.writeMap(fm)) == fm
  }

  /** The value of a FlameMaps object. */
  datatype Snapshot = Snapshot(hdrExposure: real, hdrPow: real, finalMap: FlameMapping, maps: seq<FlameMapping>)

  /** Every field of s survives the codec: both HDR scalars, the final map and
      each map of the list. A text format with a fixed precision round-trips
      only some reals, so this is asked of the values of s and of no others. */
  predicate RoundTripsOn(codec: FieldCodec, s: Snapshot) {
    RealRoundTrips(codec, s.hdrExposure) && RealRoundTrips(codec, s.hdrPow) &&
    MapRoundTrips(codec, s.finalMap) &&
    forall j :: 0 <= j < |s.maps| ==> MapRoundTrips(codec, s.maps[j])
  }

  /** Number of tokens before the first `--` or `----`: magic, version, two HDR
      scalars and the final map block. */
  function HeaderLen(codec: FieldCodec): nat { 4 + codec.mapLen }

  // ---------------------------------------------------------------- writing

  function MapsTokens(codec: FieldCodec, maps: seq<FlameMapping>): seq<Token>
    decreases |maps|
  {
    if maps == [] then [] else [Separator] + codec.writeMap(maps[0]) + MapsTokens(codec, maps[1..])
  }

  function HeaderTokens(codec: FieldCodec, s: Snapshot): seq<Token> {
    [Magic, Version, codec.writeReal(s.hdrExposure), codec.writeReal(s.hdrPow)] + codec.writeMap(s.finalMap)
  }

  /** The token sequence `save` writes for s. */
  function Serialize(codec: FieldCodec, s: Snapshot): seq<Token> {
    HeaderTokens(codec, s) + MapsTokens(codec, s.maps) + [Terminator]
  }

  /** Appending one map to the collection appends one `--` block to its tokens. */
  lemma {:induction false} MapsTokensSnoc(codec: FieldCodec, maps: seq<FlameMapping>, fm: FlameMapping)
    ensures MapsTokens(codec, maps + [fm]) == MapsTokens(codec, maps) + [Separator] + codec.writeMap(fm)
    decreases |maps|
  {
    if maps == [] {
      assert maps + [fm] == [fm];
      assert [fm][1..] == [];
    } else {
      assert (maps + [fm])[0] == maps[0];
      assert (maps + [fm])[1..] == maps[1..] + [fm];
      MapsTokensSnoc(codec, maps[1..], fm);
    }
  }

  // ---------------------------------------------------------------- reading

  function Prepend(acc: seq<FlameMapping>, o: Option<seq<FlameMapping>>): Option<seq<FlameMapping>> {
    match o
    case None => None
    case Some(rest) => Some(acc + rest)
  }

  lemma PrependNothing(o: Option<seq<FlameMapping>>)
    ensures Prepend([], o) == o
  {
    if o.Some? {
      assert [] + o.value == o.value;
    }
  }

  lemma PrependAssoc(a: seq<FlameMapping>, b: seq<FlameMapping>, o: Option<seq<FlameMapping>>)
    ensures Prepend(a, Prepend(b, o)) == Prepend(a + b, o)
  {
    if o.Some? {
      assert a + (b + o.value) == (a + b) + o.value;
    }
  }

  /** Reads the map list whose first boundary token is t[i]: each `--` is
      followed by one map block, and `----` ends the list. A missing token, or
      a boundary token that is neither, gives None. */
  function ReadMaps(codec: FieldCodec, t: seq<Token>, i: nat): Option<seq<FlameMapping>>
    decreases |t| - i
  {
    if i >= |t| then None
    else if t[i] == Separator then
      if i + 1 + codec.mapLen > |t| then None
      else Prepend([codec.readMap(t[i + 1..i + 1 + codec.mapLen])], ReadMaps(codec, t, i + 1 + codec.mapLen))
    else if t[i] == Terminator then Some([])
    else None
  }

  /** What `load` makes of the tokens t: None when it returns false. Tokens after
      the terminator are not read. */
  function Parse(codec: FieldCodec, t: seq<Token>): (r: Option<Snapshot>)
    ensures r.Some? ==> |t| > HeaderLen(codec) && t[0] == Magic && t[1] == Version
    ensures r.Some? ==> ReadMaps(codec, t, HeaderLen(codec)) == Some(r.value.maps)
  {
    if |t| < 1 || t[0] != Magic then None
    else if |t| < 2 || t[1] != Version then None
    else if |t| < HeaderLen(codec) then None
    else match ReadMaps(codec, t, HeaderLen(codec))
      case None => None
      case Some(maps) =>
        Some(Snapshot(codec.readReal(t[2]), codec.readReal(t[3]), codec.readMap(t[4..HeaderLen(codec)]), maps))
  }

  /** Map number j of a list starting at boundary i is the `--` at
      i + j * (mapLen + 1) followed by a block that reads as fm. */
  predicate BlockAt(codec: FieldCodec, t: seq<Token>, i: nat, j: nat, fm: FlameMapping) {
    var s := i + j * (codec.mapLen + 1);
    s + 1 + codec.mapLen <= |t| && t[s] == Separator && fm == codec.readMap(t[s + 1..s + 1 + codec.mapLen])
  }

  /** The map list starting at boundary i consists of exactly the blocks of maps,
      in order, followed by `----`. */
  predicate Layout(codec: FieldCodec, t: seq<Token>, i: nat, maps: seq<FlameMapping>) {
    (forall j :: 0 <= j < |maps| ==> BlockAt(codec, t, i, j, maps[j])) &&
    i + |maps| * (codec.mapLen + 1) < |t| && t[i + |maps| * (codec.mapLen + 1)] == Terminator
  }

  lemma BlockStep(k: nat, i: nat, j: nat)
    ensures i + (j + 1) * (k + 1) == (i + 1 + k) + j * (k + 1)
  {
  }

  /** Whatever the reader returns was laid out as one `--` block per map, in file
      order, followed by the terminator. */
  lemma {:induction false} ReadMapsLayout(codec: FieldCodec, t: seq<Token>, i: nat, maps: seq<FlameMapping>)
    requires ReadMaps(codec, t, i) == Some(maps)
    ensures Layout(codec, t, i, maps)
    decreases |t| - i
  {
    var k := codec.mapLen;
    if t[i] == Separator {
      var rest := ReadMaps(codec, t, i + 1 + k).value;
      assert maps == [codec.readMap(t[i + 1..i + 1 + k])] + rest;
      ReadMapsLayout(codec, t, i + 1 + k, rest);
      forall j | 0 <= j < |maps| ensures BlockAt(codec, t, i, j, maps[j]) {
        if j > 0 {
          BlockStep(k, i, j - 1);
          assert BlockAt(codec, t, i + 1 + k, j - 1, rest[j - 1]);
        }
      }
      BlockStep(k, i, |rest|);
    }
  }

  /** Conversely, such a layout is read back as exactly those maps. */
  lemma {:induction false} LayoutReadMaps(codec: FieldCodec, t: seq<Token>, i: nat, maps: seq<FlameMapping>)
    requires Layout(codec, t, i, maps)
    ensures ReadMaps(codec, t, i) == Some(maps)
    decreases |maps|
  {
    var k := codec.mapLen;
    if maps != [] {
      assert BlockAt(codec, t, i, 0, maps[0]);
      var rest := maps[1..];
      forall j | 0 <= j < |rest| ensures BlockAt(codec, t, i + 1 + k, j, rest[j]) {
        BlockStep(k, i, j);
        assert BlockAt(codec, t, i, j + 1, maps[j + 1]);
      }
      BlockStep(k, i, |rest|);
      LayoutReadMaps(codec, t, i + 1 + k, rest);
      assert maps == [maps[0]] + rest;
    }
  }

  /** `load` succeeds exactly on a correct header followed by one `--` block per
      loaded map, in file order, and `----`; the count of maps is the count of
      separators read before the terminator. */
  lemma ParseCharacterised(codec: FieldCodec, t: seq<Token>, s: Snapshot)
    ensures Parse(codec, t) == Some(s) <==>
      (|t| > HeaderLen(codec) && t[0] == Magic && t[1] == Version &&
       s.hdrExposure == codec.readReal(t[2]) && s.hdrPow == codec.readReal(t[3]) &&
       s.finalMap == codec.readMap(t[4..HeaderLen(codec)]) &&
       Layout(codec, t, HeaderLen(codec), s.maps))
  {
    if Parse(codec, t) == Some(s) {
      ReadMapsLayout(codec, t, HeaderLen(codec), s.maps);
    }
    if |t| > HeaderLen(codec) && Layout(codec, t, HeaderLen(codec), s.maps) {
      LayoutReadMaps(codec, t, HeaderLen(codec), s.maps);
    }
  }

  /** The map list as written is read back as the same maps. */
  lemma {:induction false} ReadMapsTokens(codec: FieldCodec, pre: seq<Token>, maps: seq<FlameMapping>)
    requires forall j :: 0 <= j < |maps| ==> MapRoundTrips(codec, maps[j])
    ensures ReadMaps(codec, pre + MapsTokens(codec, maps) + [Terminator], |pre|) == Some(maps)
    decreases |maps|
  {
    var t := pre + MapsTokens(codec, maps) + [Terminator];
    if maps == [] {
      assert t[|pre|] == Terminator;
    } else {
      var w := codec.writeMap(maps[0]);
      var pre' := pre + [Separator] + w;
      assert t == pre' + MapsTokens(codec, maps[1..]) + [Terminator];
      assert MapRoundTrips(codec, maps[0]);
      assert |w| == codec.mapLen;
      assert t[|pre|] == Separator;
      assert t[|pre| + 1..|pre| + 1 + codec.mapLen] == w;
      ReadMapsTokens(codec, pre', maps[1..]);
      assert maps == [maps[0]] + maps[1..];
    }
  }

  /** Loading what `save` writes reproduces the collection, field for field. */
  lemma LoadSave(codec: FieldCodec, s: Snapshot)
    requires RoundTripsOn(codec, s)
    ensures Parse(codec, Serialize(codec, s)) == Some(s)
  {
    var t := Serialize(codec, s);
    var h := HeaderTokens(codec, s);
    assert |h| == HeaderLen(codec);
    ReadMapsTokens(codec, h, s.maps);
    assert t[..HeaderLen(codec)] == h;
    assert t[4..HeaderLen(codec)] == codec.writeMap(s.finalMap);
  }

  // ---------------------------------------------------------------- the collection

  /** The transforms of a flame: HDR tone parameters, the final map applied to
      every output point, and the maps the chaos game chooses from. */
  class FlameMaps {
    var hdrExposure: real
    var hdrPow: real
    var finalMap: FlameMapping
    var maps: seq<FlameMapping>

    function Snap(): Snapshot
      reads this
    {
      Snapshot(hdrExposure, hdrPow, finalMap, maps)
    }

    constructor (s: Snapshot)
      ensures Snap() == s
    {
      hdrExposure, hdrPow, finalMap, maps := s.hdrExposure, s.hdrPow, s.finalMap, s.maps;
    }

    /** Writes the header, the HDR exposure and power, the final map, then `--`
        and each map in index order, then `----`. */
    method Save(codec: FieldCodec) returns (out: seq<Token>)
      ensures out == Serialize(codec, Snap())
      ensures RoundTripsOn(codec, Snap()) ==> Parse(codec, out) == Some(Snap())
    {
      out := [Magic, Version];
      out := out + [codec.writeReal(hdrExposure), codec.writeReal(hdrPow)];
      out := out + codec.writeMap(finalMap);
      ghost var header := out;
      var i := 0;
      while i < |maps|
        invariant 0 <= i <= |maps|
        invariant out == header + MapsTokens(codec, maps[..i])
      {
        MapsTokensSnoc(codec, maps[..i], maps[i]);
        out := out + [Separator] + codec.writeMap(maps[i]);
        assert maps[..i + 1] == maps[..i] + [maps[i]];
        i := i + 1;
      }
      assert maps[..i] == maps;
      out := out + [Terminator];
      if RoundTripsOn(codec, Snap()) {
        LoadSave(codec, Snap());
      }
    }

    /** Reads a whole collection from input into a temporary and commits it to
        this object only when every step succeeded; on false nothing changes. */
    method Load(codec: FieldCodec, input: seq<Token>) returns (ok: bool)
      modifies this
      ensures ok <==> Parse(codec, input).Some?
      ensures ok ==> Snap() == Parse(codec, input).value
      ensures !ok ==> unchanged(this)
    {
      if |input| < 1 || input[0] != Magic {
        return false;
      }
      if |input| < 2 || input[1] != Version {
        return false;
      }
      if |input| < 4 {
        return false;
      }
      var tmpExposure := codec.readReal(input[2]);
      var tmpPow := codec.readReal(input[3]);
      var k := codec.mapLen;
      if |input| < 4 + k {
        return false;
      }
      var tmpFinal := codec.readMap(input[4..4 + k]);
      var pos := 4 + k;
      if pos >= |input| {
        return false;
      }
      var s := input[pos];
      pos := pos + 1;
      var tmpMaps: seq<FlameMapping> := [];
      PrependNothing(ReadMaps(codec, input, 4 + k));
      while s == Separator
        invariant 4 + k < pos <= |input| && s == input[pos - 1]
        invariant unchanged(this)
        invariant ReadMaps(codec, input, 4 + k) == Prepend(tmpMaps, ReadMaps(codec, input, pos - 1))
        decreases |input| - pos
      {
        if pos + k > |input| {
          return false;
        }
        var fm := codec.readMap(input[pos..pos + k]);
        PrependAssoc(tmpMaps, [fm], ReadMaps(codec, input, pos + k));
        tmpMaps := tmpMaps + [fm];
        pos := pos + k;
        if pos >= |input| {
          return false;
        }
        s := input[pos];
        pos := pos + 1;
      }
      if s != Terminator {
        return false;
      }
      hdrExposure, hdrPow, finalMap, maps := tmpExposure, tmpPow, tmpFinal, tmpMaps;
      return true;
    }
  }
}
