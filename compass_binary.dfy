/** The binary compass module: it only wraps the executable (an NDArray) and the three
    strings of a compass module, is serialised with them, and creates the compass module
    (which initialises the driver) when asked for `get_compass_module`. */
module CompassBinary {
  import opened Common
  import opened CText
  import opened DmlcStream
  import opened CompassModule

  /** How an NDArray is written to a stream and read back from a position: the NDArray
      format belongs to the runtime library and is a parameter here. */
  datatype ArrayCodec = ArrayCodec(save: NDArray -> seq<Byte>,
                                   load: (seq<Byte>, nat) -> Option<(NDArray, nat)>)

  /** A load that succeeds moves the cursor forward and stays within the data. */
  ghost predicate LoadStaysInside(c: ArrayCodec)
  {
    forall data: seq<Byte>, pos: nat :: c.load(data, pos).Some? ==>
      pos <= c.load(data, pos).value.1 <= |data|
  }

  /** An array whose saved form sits at `pos` is loaded back from there, with the cursor
      right after it. */
  ghost predicate LoadReadsSaved(c: ArrayCodec)
  {
    forall a: NDArray, data: seq<Byte>, pos: nat ::
      pos + |c.save(a)| <= |data| && data[pos..pos + |c.save(a)|] == c.save(a) ==>
        c.load(data, pos) == Some((a, pos + |c.save(a)|))
  }

  /** What a binary compass module keeps and serialises. */
  datatype BinaryFields = BinaryFields(aipuBin: NDArray, funcName: CString, target: CString,
                                       umdDtcmSz: CString)

  function StringFields(f: BinaryFields): seq<CString>
  {
    [f.funcName, f.target, f.umdDtcmSz]
  }

  predicate BinaryFieldsFit(f: BinaryFields)
  {
    |f.funcName| < SIZE_T_MODULUS && |f.target| < SIZE_T_MODULUS
    && |f.umdDtcmSz| < SIZE_T_MODULUS
  }

  /** What SaveToBinary appends: the saved array, then the three strings. */
  function EncodeBinary(c: ArrayCodec, f: BinaryFields): seq<Byte>
    requires BinaryFieldsFit(f)
  {
    c.save(f.aipuBin) + EncodeStrings(StringFields(f))
  }

  /** What BinaryModuleLoadFromBinary reads from position `pos`: the array, then the three
      strings in order, with the cursor after them; None as soon as one read fails. */
  function DecodeBinary(c: ArrayCodec, data: seq<Byte>, pos: nat): Option<(BinaryFields, nat)>
  {
    match c.load(data, pos)
    case None => None
    case Some((a, next)) =>
      match DecodeStrings(data, next, 3)
      case None => None
      case Some((ss, end)) => Some((BinaryFields(a, ss[0], ss[1], ss[2]), end))
  }

  /** Loading what was saved gives back the four fields, whatever surrounds them, when the
      array codec reads back what it writes. */
  lemma {:induction false} DecodeEncodeBinary(c: ArrayCodec, data: seq<Byte>, pos: nat,
                                             f: BinaryFields)
    requires LoadReadsSaved(c) && BinaryFieldsFit(f)
    requires pos + |EncodeBinary(c, f)| <= |data|
    requires data[pos..pos + |EncodeBinary(c, f)|] == EncodeBinary(c, f)
    ensures DecodeBinary(c, data, pos) == Some((f, pos + |EncodeBinary(c, f)|))
  {
    var arr := c.save(f.aipuBin);
    assert data[pos..pos + |arr|] == arr by {
      assert data[pos..pos + |arr|] == EncodeBinary(c, f)[..|arr|];
    }
    LoadAtSaved(c, data, pos, f.aipuBin);
    DecodeStringsAfterArray(c, data, pos, f);
  }

  /** The strings that follow a loaded array are read back too. */
  lemma {:induction false} DecodeStringsAfterArray(c: ArrayCodec, data: seq<Byte>, pos: nat,
                                                  f: BinaryFields)
    requires BinaryFieldsFit(f)
    requires pos + |EncodeBinary(c, f)| <= |data|
    requires data[pos..pos + |EncodeBinary(c, f)|] == EncodeBinary(c, f)
    requires c.load(data, pos) == Some((f.aipuBin, pos + |c.save(f.aipuBin)|))
    ensures DecodeBinary(c, data, pos) == Some((f, pos + |EncodeBinary(c, f)|))
  {
    var all := EncodeBinary(c, f);
    var arr := c.save(f.aipuBin);
    var strs := EncodeStrings(StringFields(f));
    var next := pos + |arr|;
    assert data[next..next + |strs|] == strs by {
      assert data[next..next + |strs|] == all[|arr|..];
    }
    DecodeStringsIn(data, next, StringFields(f));
    DecodeBinarySteps(c, data, pos, f.aipuBin, next, StringFields(f), next + |strs|);
  }

  /** The round trip of the codec, at one array and one position. */
  lemma {:induction false} LoadAtSaved(c: ArrayCodec, data: seq<Byte>, pos: nat, a: NDArray)
    requires LoadReadsSaved(c)
    requires pos + |c.save(a)| <= |data| && data[pos..pos + |c.save(a)|] == c.save(a)
    ensures c.load(data, pos) == Some((a, pos + |c.save(a)|))
  {
  }

  /** DecodeBinary succeeds with the array and the three strings when each part is read. */
  lemma {:induction false} DecodeBinarySteps(c: ArrayCodec, data: seq<Byte>, pos: nat,
                                            a: NDArray, next: nat, ss: seq<CString>, end: nat)
    requires |ss| == 3
    requires c.load(data, pos) == Some((a, next))
    requires DecodeStrings(data, next, 3) == Some((ss, end))
    ensures DecodeBinary(c, data, pos) == Some((BinaryFields(a, ss[0], ss[1], ss[2]), end))
  {
  }

  /** `aipu_bin.Save(stream)`. */
  method SaveArray(strm: Stream, c: ArrayCodec, a: NDArray)
    requires strm.Valid()
    modifies strm
    ensures strm.Valid()
    ensures strm.data == old(strm.data) + c.save(a) && strm.pos == old(strm.pos)
  {
    strm.data := strm.data + c.save(a);
  }

  /** `aipu_bin.Load(strm)`: false when the array cannot be read. */
  method LoadArray(strm: Stream, c: ArrayCodec) returns (ok: bool, a: NDArray)
    requires strm.Valid() && LoadStaysInside(c)
    modifies strm
    ensures strm.Valid() && strm.data == old(strm.data)
    ensures ok <==> c.load(strm.data, old(strm.pos)).Some?
    ensures ok ==> (a, strm.pos) == c.load(strm.data, old(strm.pos)).value
  {
    var loaded := c.load(strm.data, strm.pos);
    if loaded.None? {
      return false, NDArray(DataType(UInt, 8, 1), [], []);
    }
    a := loaded.value.0;
    strm.pos := loaded.value.1;
    ok := true;
  }

  /** A binary compass module node. */
  class AipuCompassBinaryNode {
    var aipuBin: NDArray
    var funcName: CString
    var target: CString
    var umdDtcmSz: CString

    function Fields(): BinaryFields
      reads this
    {
      BinaryFields(aipuBin, funcName, target, umdDtcmSz)
    }

    /** The registered creator `aipu_compass.AipuCompassBinaryNode`: copies the four fields
        and initialises nothing. */
    constructor (f: BinaryFields)
      ensures Fields() == f
    {
      aipuBin := f.aipuBin;
      funcName := f.funcName;
      target := f.target;
      umdDtcmSz := f.umdDtcmSz;
    }

    /** SaveToBinary: the array, then `func_name`, `target` and `umd_dtcm_sz`. */
    method SaveToBinary(strm: Stream, c: ArrayCodec)
      requires strm.Valid() && BinaryFieldsFit(Fields())
      modifies strm
      ensures strm.Valid()
      ensures strm.data == old(strm.data) + EncodeBinary(c, Fields()) && strm.pos == old(strm.pos)
    {
      ghost var d0 := strm.data;
      ghost var e0 := c.save(aipuBin);
      ghost var e1 := EncodeString(funcName);
      ghost var e2 := EncodeString(target);
      ghost var e3 := EncodeString(umdDtcmSz);
      SaveArray(strm, c, aipuBin);
      strm.WriteString(funcName);
      strm.WriteString(target);
      strm.WriteString(umdDtcmSz);
      assert strm.data == d0 + e0 + e1 + e2 + e3;
      StringFieldsParts(Fields());
      assert e3 + [] == e3;
      AppendRegroup(d0 + e0 + e1, e2, e3);
      AppendRegroup(d0 + e0, e1, e2 + e3);
      AppendRegroup(d0, e0, e1 + (e2 + e3));
    }

    /** BinaryModuleLoadFromBinary: reads the array and the three strings in order and fails
        on the first read that fails. */
    static method LoadFromBinary(strm: Stream, c: ArrayCodec)
      returns (r: Result<AipuCompassBinaryNode, ()>)
      requires strm.Valid() && LoadStaysInside(c)
      modifies strm
      ensures strm.Valid() && strm.data == old(strm.data)
      ensures r.Ok? <==> DecodeBinary(c, strm.data, old(strm.pos)).Some?
      ensures r.Ok? ==>
                var (f, p) := DecodeBinary(c, strm.data, old(strm.pos)).value;
                fresh(r.value) && r.value.Fields() == f && strm.pos == p
    {
      var ok1, bin := LoadArray(strm, c);
      if !ok1 {
        return Err(());
      }
      ghost var p1 := strm.pos;
      var ok2, name := strm.ReadString();
      if !ok2 {
        ReadsInOrder(strm.data, p1);
        return Err(());
      }
      var ok3, tgt := strm.ReadString();
      if !ok3 {
        ReadsInOrder(strm.data, p1);
        return Err(());
      }
      var ok4, umd := strm.ReadString();
      if !ok4 {
        ReadsInOrder(strm.data, p1);
        return Err(());
      }
      ReadsInOrder(strm.data, p1);
      var obj := new AipuCompassBinaryNode(BinaryFields(bin, name, tgt, umd));
      return Ok(obj);
    }

    /** GetFunction: only `get_compass_module` is provided; it creates and initialises a
        compass module from the four fields. */
    method GetCompassModule(name: string, workDir: CString, inInfo: seq<ParamInfo>,
                            outInfo: seq<ParamInfo>, dumpAvailable: bool)
      returns (m: Option<AipuCompassModuleNode>)
      ensures m.Some? <==> name == "get_compass_module"
      ensures m.Some? ==>
                fresh(m.value)
                && m.value.Fields() == ModuleFields(aipuBin.data, funcName, target, umdDtcmSz)
                && m.value.inParams == inInfo && m.value.outParams == outInfo
                && m.value.dumpRegistered == dumpAvailable
                && m.value.calls == [DriverInit(aipuBin.data, workDir, target, umdDtcmSz, funcName)]
    {
      if name != "get_compass_module" {
        return None;
      }
      var node := new AipuCompassModuleNode.Create(aipuBin, funcName, target, umdDtcmSz,
                                                   workDir, inInfo, outInfo, dumpAvailable);
      return Some(node);
    }
  }

  /** The three strings are encoded one after the other. */
  lemma {:induction false} StringFieldsParts(f: BinaryFields)
    requires BinaryFieldsFit(f)
    ensures EncodeStrings(StringFields(f))
            == EncodeString(f.funcName) + (EncodeString(f.target) + (EncodeString(f.umdDtcmSz) + []))
  {
    var l1: seq<CString> := [f.target, f.umdDtcmSz];
    var l2: seq<CString> := [f.umdDtcmSz];
    var l3: seq<CString> := [];
    assert StringFields(f)[1..] == l1 && l1[1..] == l2 && l2[1..] == l3;
    assert EncodeStrings(l2) == EncodeString(f.umdDtcmSz) + [];
    assert EncodeStrings(l1) == EncodeString(f.target) + EncodeStrings(l2);
  }

  /** Reading three strings is three string reads in a row, stopping at the first that
      fails. */
  lemma {:induction false} ReadsInOrder(data: seq<Byte>, p: nat)
    ensures DecodeStrings(data, p, 3).Some? <==>
              DecodeStringAt(data, p).Some?
              && DecodeStringAt(data, DecodeStringAt(data, p).value.1).Some?
              && DecodeStringAt(data, DecodeStringAt(data, DecodeStringAt(data, p).value.1)
                                        .value.1).Some?
    ensures DecodeStrings(data, p, 3).Some? ==>
              var s1 := DecodeStringAt(data, p).value;
              var s2 := DecodeStringAt(data, s1.1).value;
              var s3 := DecodeStringAt(data, s2.1).value;
              DecodeStrings(data, p, 3).value == ([s1.0, s2.0, s3.0], s3.1)
  {
    var r1 := DecodeStringAt(data, p);
    if r1.Some? {
      var r2 := DecodeStringAt(data, r1.value.1);
      if r2.Some? {
        var r3 := DecodeStringAt(data, r2.value.1);
        if r3.Some? {
          var (s1, p2) := r1.value;
          var (s2, p3) := r2.value;
          var (s3, end) := r3.value;
          var none: seq<CString> := [];
          DecodeStringsCons(data, p3, 1, s3, end, none, end);
          DecodeStringsCons(data, p2, 2, s2, p3, [s3] + none, end);
          DecodeStringsCons(data, p, 3, s1, p2, [s2] + ([s3] + none), end);
          assert [s1] + ([s2] + ([s3] + none)) == [s1, s2, s3];
        }
      }
    }
  }
}
