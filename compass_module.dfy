/** The compass runtime module (`AipuCompassModuleNode`) and its driver-free wrapper
    (`AipuCompassBinaryNode`). The module node holds the AIPU executable and three strings,
    serialises them to a dmlc stream, and hands out packed functions that split, check and
    pass tensor arguments to the AIPU driver.

    The driver, the runtime configuration and the `aipu_compass.dump_tensors` registry entry
    are outside the model: what they return at Init is passed in, and what is asked of them
    is recorded, in order, in the node's `calls`. */
module CompassModule {
  import opened Common
  import opened CText
  import opened DmlcStream

  /** How a tensor argument reached the packed function: `kTVMDLTensorHandle` (graph
      executor) or `kTVMNDArrayHandle` (virtual machine). */
  datatype HandleKind = DLTensorHandle | NDArrayHandle

  /** A `DLTensor` as the module inspects it: its data type, `byte_offset`, whether the TVM
      runtime's `IsContiguous` holds for it, the byte count the TVM runtime's `GetDataSize`
      gives for it, and the address of its data. */
  datatype DLTensor = DLTensor(dtype: DataType, byteOffset: nat, contiguous: bool,
                               dataSize: nat, data: nat)

  /** A `TVMArgValue`: a 64-bit integer, a tensor handle, or a value of any other type code. */
  datatype ArgValue =
    | IntArg(v: int)
    | TensorArg(kind: HandleKind, tensor: DLTensor)
    | OtherArg(typeCode: int)

  /** Why a packed-function argument was refused. */
  datatype ArgError =
    | IndexOutOfRange(index: nat)   // `args[i]` with `i >= args.size()`
    | NotTensorHandle(index: nat)   // neither a DLTensor nor an NDArray handle
    | NotContiguous(index: nat)
    | NotScalarArray(index: nat)    // `byte_offset != 0` or `lanes != 1`
    | NotInt(index: nat)            // `operator int` / `operator bool` on a non-integer
    | IntOutOfRange(index: nat)     // `operator int` on a value outside `int`

  /** The metadata the driver reports for one input or output parameter: its data type and its
      size in bytes. */
  datatype ParamInfo = ParamInfo(dtype: DataType, size: nat)

  /** An NDArray: its data type, shape and the bytes of its data. */
  datatype NDArray = NDArray(dtype: DataType, shape: seq<int>, data: CString)

  /** What the module asks of the driver and of the dump function, in order. */
  datatype DriverCall =
    | DriverInit(aipuBin: CString, workDir: CString, target: CString, umdDtcmSz: CString,
                 funcName: CString)
    | SetInputs(inputs: seq<DLTensor>)
    | SetOutputs(outputs: seq<DLTensor>)
    | Run
    | GetOutputs(outputs: seq<DLTensor>)
    | DumpProfileData
    | DumpTensors(funcName: CString, isInput: bool, tensors: seq<DLTensor>)

  /** Why a packed function stopped with a failed check. */
  datatype RunError =
    | ArgCountMismatch
    | BadArg(error: ArgError)
    | DtypeMismatch(index: nat)
    | SizeMismatch(index: nat)
    | IndexMismatch

  /** Argument `i` as Convert2DLTensor accepts it: a tensor handle to a contiguous array of
      scalars (lanes 1) that starts at its data pointer. */
  function CheckArg(args: seq<ArgValue>, i: nat): Result<DLTensor, ArgError>
  {
    if i >= |args| then Err(IndexOutOfRange(i))
    else match args[i]
      case TensorArg(_, t) =>
        if !t.contiguous then Err(NotContiguous(i))
        else if t.byteOffset != 0 || t.dtype.lanes != 1 then Err(NotScalarArray(i))
        else Ok(t)
      case _ => Err(NotTensorHandle(i))
  }

  /** `int x = args[i]`: an integer argument that fits in an `int`. */
  function ArgInt(args: seq<ArgValue>, i: nat): (r: Result<Int32, ArgError>)
    ensures r.Ok? <==> i < |args| && args[i].IntArg? && INT32_MIN <= args[i].v <= INT32_MAX
    ensures r.Ok? ==> r.value == args[i].v
  {
    if i >= |args| then Err(IndexOutOfRange(i))
    else match args[i]
      case IntArg(v) => if INT32_MIN <= v <= INT32_MAX then Ok(v) else Err(IntOutOfRange(i))
      case _ => Err(NotInt(i))
  }

  /** `bool b = args[i]`: an integer argument, true when non-zero. */
  function ArgBool(args: seq<ArgValue>, i: nat): (r: Result<bool, ArgError>)
    ensures r.Ok? <==> i < |args| && args[i].IntArg?
    ensures r.Ok? ==> r.value == (args[i].v != 0)
  {
    if i >= |args| then Err(IndexOutOfRange(i))
    else match args[i]
      case IntArg(v) => Ok(v != 0)
      case _ => Err(NotInt(i))
  }

  /** The bound `start_idx + count` of the loop in Convert2DLTensor, a `size_t` sum. */
  function RangeEnd(start: SizeT, count: SizeT): SizeT
  {
    (start + count) % SIZE_T_MODULUS
  }

  /** The tensors of arguments i, i+1, ... below `end`, or the error of the first argument
      that is refused. */
  function ConvertRange(args: seq<ArgValue>, i: nat, end: nat): Result<seq<DLTensor>, ArgError>
    decreases end - i
  {
    if i >= end then Ok([])
    else match CheckArg(args, i)
      case Err(e) => Err(e)
      case Ok(t) =>
        match ConvertRange(args, i + 1, end)
        case Err(e) => Err(e)
        case Ok(ts) => Ok([t] + ts)
  }

  /** The conversion succeeds exactly when every argument in the range is accepted; it then
      yields one tensor per argument, in order, and otherwise reports the first refused
      argument's error. */
  lemma {:induction false} ConvertRangeMeaning(args: seq<ArgValue>, i: nat, end: nat)
    ensures ConvertRange(args, i, end).Ok? <==> forall k :: i <= k < end ==> CheckArg(args, k).Ok?
    ensures ConvertRange(args, i, end).Ok? ==>
              var ts := ConvertRange(args, i, end).value;
              |ts| == (if i <= end then end - i else 0)
              && forall j :: 0 <= j < |ts| ==> CheckArg(args, i + j) == Ok(ts[j])
    ensures ConvertRange(args, i, end).Err? ==>
              exists k :: i <= k < end && CheckArg(args, k) == Err(ConvertRange(args, i, end).error)
                          && forall j :: i <= j < k ==> CheckArg(args, j).Ok?
    decreases end - i
  {
    if i < end {
      ConvertRangeMeaning(args, i + 1, end);
      var r := ConvertRange(args, i, end);
      if CheckArg(args, i).Ok? && r.Ok? {
        var ts := r.value;
        assert ts[1..] == ConvertRange(args, i + 1, end).value;
        forall j | 0 <= j < |ts|
          ensures CheckArg(args, i + j) == Ok(ts[j])
        {
          if j > 0 {
            assert ts[j] == ConvertRange(args, i + 1, end).value[j - 1];
          }
        }
      }
      if r.Err? && CheckArg(args, i).Ok? {
        var k :| i + 1 <= k < end && CheckArg(args, k) == Err(r.error)
                 && forall j :: i + 1 <= j < k ==> CheckArg(args, j).Ok?;
        assert forall j :: i <= j < k ==> CheckArg(args, j).Ok?;
      }
    }
  }

  /** Two adjacent ranges from 0 both convert exactly when every argument below `end` is
      accepted. */
  lemma {:induction false} ConvertSplit(args: seq<ArgValue>, mid: nat, end: nat)
    requires mid <= end
    ensures ConvertRange(args, 0, mid).Ok? && ConvertRange(args, mid, end).Ok?
            <==> forall k :: 0 <= k < end ==> CheckArg(args, k).Ok?
  {
    ConvertRangeMeaning(args, 0, mid);
    ConvertRangeMeaning(args, mid, end);
    ConvertRangeMeaning(args, 0, end);
    if forall k :: 0 <= k < end ==> CheckArg(args, k).Ok? {
    } else {
      var k :| 0 <= k < end && !CheckArg(args, k).Ok?;
      if k < mid {
        assert !ConvertRange(args, 0, mid).Ok?;
      } else {
        assert !ConvertRange(args, mid, end).Ok?;
      }
    }
  }

  /** A conversion that succeeds yields one tensor per argument of the range. */
  lemma {:induction false} ConvertedLength(args: seq<ArgValue>, i: nat, end: nat)
    requires i <= end
    ensures ConvertRange(args, i, end).Ok? ==> |ConvertRange(args, i, end).value| == end - i
  {
    ConvertRangeMeaning(args, i, end);
  }

  /** Convert2DLTensor: the tensors of arguments `start_idx .. start_idx + count - 1`, each
      checked to be a tensor handle with contiguous scalar data at offset 0. The loop bound
      is the `size_t` sum, so a count that wraps it around yields fewer (or no) tensors. */
  method Convert2DLTensor(args: seq<ArgValue>, start: SizeT, count: SizeT)
    returns (r: Result<seq<DLTensor>, ArgError>)
    ensures r == ConvertRange(args, start, RangeEnd(start, count))
  {
    var ret := [];
    var end := (start + count) % SIZE_T_MODULUS;
    var i := start;
    assert match ConvertRange(args, start, end)
           case Ok(ts) => ret + ts == ts
           case Err(_) => true;
    while i < end
      invariant start <= i && (i <= end || i == start)
      invariant ConvertRange(args, start, end)
                == match ConvertRange(args, i, end)
                   case Ok(ts) => Ok(ret + ts)
                   case Err(e) => Err(e)
      decreases end - i
    {
      var arg := CheckArg(args, i);
      if arg.Err? {
        return Err(arg.error);
      }
      assert match ConvertRange(args, i + 1, end)
             case Ok(ts) => ret + ([arg.value] + ts) == ret + [arg.value] + ts
             case Err(_) => true;
      ret := ret + [arg.value];
      i := i + 1;
    }
    assert ret + [] == ret;
    return Ok(ret);
  }

  /** The tensors of a range whose conversion succeeds (none when it fails). */
  function TensorsIn(args: seq<ArgValue>, i: nat, end: nat): seq<DLTensor>
  {
    match ConvertRange(args, i, end)
    case Ok(ts) => ts
    case Err(_) => []
  }

  /** Whether a tensor has the data type and the byte size its parameter declares. */
  predicate ParamMatches(t: DLTensor, p: ParamInfo)
  {
    t.dtype == p.dtype && t.dataSize == p.size
  }

  /** The error of the checks on tensor k against its parameter: the data type is checked
      before the size. */
  function ParamError(t: DLTensor, p: ParamInfo, k: nat): Option<RunError>
  {
    if t.dtype != p.dtype then Some(DtypeMismatch(k))
    else if t.dataSize != p.size then Some(SizeMismatch(k))
    else None
  }

  /** The loop `for (i = 0; i < cnt; ++i) { ICHECK_EQ(dtype); ICHECK_EQ(size); }` of the
      packed functions: it passes exactly when every tensor matches its parameter, and
      otherwise stops at the first tensor that does not. */
  method CheckParams(ts: seq<DLTensor>, ps: seq<ParamInfo>) returns (r: Option<RunError>)
    requires |ts| == |ps|
    ensures r.None? <==> forall k :: 0 <= k < |ts| ==> ParamMatches(ts[k], ps[k])
    ensures r.Some? ==> exists k :: 0 <= k < |ts| && r == ParamError(ts[k], ps[k], k)
                                    && forall j :: 0 <= j < k ==> ParamMatches(ts[j], ps[j])
  {
    var i := 0;
    while i < |ts|
      invariant 0 <= i <= |ts|
      invariant forall j :: 0 <= j < i ==> ParamMatches(ts[j], ps[j])
    {
      if ts[i].dtype != ps[i].dtype {
        return Some(DtypeMismatch(i));
      }
      if ts[i].dataSize != ps[i].size {
        return Some(SizeMismatch(i));
      }
      i := i + 1;
    }
    return None;
  }

  /** Everything a packed function checks of a list of tensors against parameters. */
  predicate AllMatch(ts: seq<DLTensor>, ps: seq<ParamInfo>)
  {
    |ts| == |ps| && forall k :: 0 <= k < |ts| ==> ParamMatches(ts[k], ps[k])
  }

  /** The four strings a module node is serialised as, in the order they are written. */
  datatype ModuleFields = ModuleFields(aipuBin: CString, funcName: CString, target: CString,
                                       umdDtcmSz: CString)

  predicate FieldsFit(f: ModuleFields)
  {
    |f.aipuBin| < SIZE_T_MODULUS && |f.funcName| < SIZE_T_MODULUS
    && |f.target| < SIZE_T_MODULUS && |f.umdDtcmSz| < SIZE_T_MODULUS
  }

  /** The fields in the order they are written. */
  function FieldList(f: ModuleFields): seq<CString>
  {
    [f.aipuBin, f.funcName, f.target, f.umdDtcmSz]
  }

  /** What SaveToBinary appends: the four strings, one after the other. */
  function EncodeFields(f: ModuleFields): seq<Byte>
    requires FieldsFit(f)
  {
    EncodeStrings(FieldList(f))
  }

  /** The encoding of the fields is the encoding of each, in order. */
  lemma {:induction false} EncodeFieldsParts(f: ModuleFields)
    requires FieldsFit(f)
    ensures EncodeFields(f)
            == EncodeString(f.aipuBin) + (EncodeString(f.funcName) + (EncodeString(f.target)
               + (EncodeString(f.umdDtcmSz) + [])))
  {
    var l1: seq<CString> := [f.funcName, f.target, f.umdDtcmSz];
    var l2: seq<CString> := [f.target, f.umdDtcmSz];
    var l3: seq<CString> := [f.umdDtcmSz];
    var l4: seq<CString> := [];
    assert FieldList(f)[1..] == l1 && l1[1..] == l2 && l2[1..] == l3 && l3[1..] == l4;
    assert EncodeStrings(l3) == EncodeString(f.umdDtcmSz) + [];
    assert EncodeStrings(l2) == EncodeString(f.target) + EncodeStrings(l3);
    assert EncodeStrings(l1) == EncodeString(f.funcName) + EncodeStrings(l2);
    assert EncodeFields(f) == EncodeString(f.aipuBin) + EncodeStrings(l1);
  }

  lemma {:induction false} AppendRegroup(d: seq<Byte>, a: seq<Byte>, b: seq<Byte>)
    ensures d + a + b == d + (a + b)
  {
  }

  /** What LoadFromBinary reads from position `pos`: the four strings and the cursor after
      them, or None as soon as one of the reads fails. */
  function DecodeFields(data: seq<Byte>, pos: nat): Option<(ModuleFields, nat)>
  {
    match DecodeStringAt(data, pos)
    case None => None
    case Some((bin, p1)) =>
      match DecodeStringAt(data, p1)
      case None => None
      case Some((name, p2)) =>
        match DecodeStringAt(data, p2)
        case None => None
        case Some((tgt, p3)) =>
          match DecodeStringAt(data, p3)
          case None => None
          case Some((umd, p4)) => Some((ModuleFields(bin, name, tgt, umd), p4))
  }

  /** Reading the fields is reading four strings in a row. */
  lemma {:induction false} DecodeFieldsReadsFour(data: seq<Byte>, pos: nat)
    ensures DecodeFields(data, pos)
            == match DecodeStrings(data, pos, 4)
               case None => None
               case Some((ss, p)) => Some((ModuleFields(ss[0], ss[1], ss[2], ss[3]), p))
  {
  }

  /** Loading what SaveToBinary wrote gives back the four fields, whatever precedes and
      follows them in the stream, and leaves the cursor right after them. */
  lemma {:induction false} DecodeEncodeFields(data: seq<Byte>, pos: nat, f: ModuleFields)
    requires FieldsFit(f)
    requires pos + |EncodeFields(f)| <= |data|
    requires data[pos..pos + |EncodeFields(f)|] == EncodeFields(f)
    ensures DecodeFields(data, pos) == Some((f, pos + |EncodeFields(f)|))
  {
    DecodeStringsIn(data, pos, FieldList(f));
    DecodeFieldsReadsFour(data, pos);
  }

  /** The packed functions GetFunction hands out, by name. */
  datatype PackedFunc =
    | SetInputsFunc | SetOutputsFunc | ExecuteFunc | GetParamInfoFunc | GetOutputsFunc
    | SetInputSharedFunc | MarkOutputSharedFunc | RunFunc | UnrestrictRunFunc
    | DynamicRunFunc

  const COMPASS_SET_INPUTS: string := "compass_set_inputs"
  const COMPASS_SET_OUTPUTS: string := "compass_set_outputs"
  const COMPASS_EXECUTE: string := "compass_execute"
  const COMPASS_GET_PARAM_INFO: string := "compass_get_param_info"
  const COMPASS_GET_OUTPUTS: string := "compass_get_outputs"
  const COMPASS_SET_INPUT_SHARED: string := "compass_set_input_shared"
  const COMPASS_MARK_OUTPUT_SHARED: string := "compass_mark_output_shared"
  const COMPASS_RUN: string := "compass_run"
  const UNRESTRICT_RUN: string := "unrestrict_run"
  const COMPASS_DYNAMIC_RUN: string := "compass_dynamic_run"

  /** The names tested before `compass_run` and the function name. */
  const NAMES_BEFORE_RUN: seq<string> :=
    [COMPASS_SET_INPUTS, COMPASS_SET_OUTPUTS, COMPASS_EXECUTE, COMPASS_GET_PARAM_INFO,
     COMPASS_GET_OUTPUTS, COMPASS_SET_INPUT_SHARED, COMPASS_MARK_OUTPUT_SHARED]

  /** GetFunction of the module node: the names are tested in order, and the original
      function's name selects the same function as `compass_run`; None for `nullptr`. */
  function FunctionFor(name: string, funcName: CString): (r: Option<PackedFunc>)
    ensures r.Some? <==>
              name in NAMES_BEFORE_RUN + [COMPASS_RUN, UNRESTRICT_RUN, COMPASS_DYNAMIC_RUN]
              || name == TextOf(funcName)
    ensures r == Some(RunFunc) <==>
              name == COMPASS_RUN || (name == TextOf(funcName) && name !in NAMES_BEFORE_RUN)
  {
    if name == COMPASS_SET_INPUTS then Some(SetInputsFunc)
    else if name == COMPASS_SET_OUTPUTS then Some(SetOutputsFunc)
    else if name == COMPASS_EXECUTE then Some(ExecuteFunc)
    else if name == COMPASS_GET_PARAM_INFO then Some(GetParamInfoFunc)
    else if name == COMPASS_GET_OUTPUTS then Some(GetOutputsFunc)
    else if name == COMPASS_SET_INPUT_SHARED then Some(SetInputSharedFunc)
    else if name == COMPASS_MARK_OUTPUT_SHARED then Some(MarkOutputSharedFunc)
    else if name == COMPASS_RUN || name == TextOf(funcName) then Some(RunFunc)
    else if name == UNRESTRICT_RUN then Some(UnrestrictRunFunc)
    else if name == COMPASS_DYNAMIC_RUN then Some(DynamicRunFunc)
    else None
  }

  /** The original function's name runs the model, unless it is one of the names tested
      before `compass_run`, which then shadows it; a function name equal to
      `unrestrict_run` or `compass_dynamic_run` shadows those instead. */
  lemma {:induction false} FuncNameSelectsRun(funcName: CString)
    ensures TextOf(funcName) !in NAMES_BEFORE_RUN ==>
              FunctionFor(TextOf(funcName), funcName) == Some(RunFunc)
    ensures TextOf(funcName) in NAMES_BEFORE_RUN ==>
              FunctionFor(TextOf(funcName), funcName) != Some(RunFunc)
    ensures TextOf(funcName) == UNRESTRICT_RUN ==> FunctionFor(UNRESTRICT_RUN, funcName) == Some(RunFunc)
  {
  }

  /** Every name other than the ten fixed ones and the function name has no function. */
  lemma {:induction false} UnknownNameHasNoFunction(name: string, funcName: CString)
    requires name !in NAMES_BEFORE_RUN && name != COMPASS_RUN && name != TextOf(funcName)
    requires name != UNRESTRICT_RUN && name != COMPASS_DYNAMIC_RUN
    ensures FunctionFor(name, funcName).None?
  {
  }

  /** What `unrestrict_run` accepts: two integer counts, both non-negative and adding up to
      the number of remaining arguments, followed by that many tensor arguments. */
  predicate UnrestrictAccepts(args: seq<ArgValue>)
  {
    |args| >= 2 && args[0].IntArg? && args[1].IntArg?
    && 0 <= args[0].v && 0 <= args[1].v && args[0].v + args[1].v == |args| - 2
    && forall k :: 2 <= k < |args| ==> CheckArg(args, k).Ok?
  }

  /** Negative counts never get past the conversions of `unrestrict_run`: a count converted to
      `size_t` either wraps the loop bound around to an index that is an integer argument or
      past the end, or makes the other count reach past the end. So a run that succeeds has
      non-negative counts whose sum is exactly the number of tensor arguments. */
  lemma {:induction false} UnrestrictCountsSound(args: seq<ArgValue>, inCnt: Int32, outCnt: Int32)
    requires |args| <= INT32_MAX
    requires |args| >= 2 && args[0].IntArg? && args[1].IntArg?
    requires args[0].v == inCnt && args[1].v == outCnt
    requires WrapInt32(inCnt + outCnt) == |args| - 2
    requires ConvertRange(args, 2, RangeEnd(2, ToSizeT(inCnt))).Ok?
    requires var outStart := ToSizeT(WrapInt32(2 + inCnt));
             ConvertRange(args, outStart, RangeEnd(outStart, ToSizeT(outCnt))).Ok?
    ensures UnrestrictAccepts(args)
  {
    var n := |args|;
    var inEnd := RangeEnd(2, ToSizeT(inCnt));
    var outStart := ToSizeT(WrapInt32(2 + inCnt));
    var outEnd := RangeEnd(outStart, ToSizeT(outCnt));
    if inCnt == -1 {
      // the outputs start at argument 1, an integer
      assert false;
    } else if inCnt == -2 {
      // the outputs start at argument 0, an integer
      assert false;
    } else if inCnt < 0 {
      assert inEnd == 2 + inCnt + SIZE_T_MODULUS;
      RangeCovers(args, 2, inEnd, n);
    } else if 2 + inCnt > n {
      RangeCovers(args, 2, inEnd, n);
    } else if outCnt < 0 {
      // the sum of the counts does not wrap around, so it is below the number of tensors
      assert false;
    } else {
      assert inEnd == 2 + inCnt && outStart == inEnd && outEnd == n;
      ConvertSplitAt(args, 2, inEnd, n);
    }
  }

  /** An argument inside a range that converts is accepted. */
  lemma {:induction false} RangeCovers(args: seq<ArgValue>, i: nat, end: nat, k: nat)
    requires i <= k < end && ConvertRange(args, i, end).Ok?
    ensures CheckArg(args, k).Ok?
  {
    ConvertRangeMeaning(args, i, end);
  }

  /** Two adjacent ranges that convert make every argument of their union accepted. */
  lemma {:induction false} ConvertSplitAt(args: seq<ArgValue>, i: nat, mid: nat, end: nat)
    requires i <= mid <= end
    requires ConvertRange(args, i, mid).Ok? && ConvertRange(args, mid, end).Ok?
    ensures forall k :: i <= k < end ==> CheckArg(args, k).Ok?
  {
    ConvertRangeMeaning(args, i, mid);
    ConvertRangeMeaning(args, mid, end);
  }

  /** A compass runtime module: the four serialised strings, the parameter metadata the driver
      reported at Init, whether a dump function is registered, and the driver calls made. */
  class AipuCompassModuleNode {
    var aipuBin: CString
    var funcName: CString
    var target: CString
    var umdDtcmSz: CString
    var inParams: seq<ParamInfo>
    var outParams: seq<ParamInfo>
    var dumpRegistered: bool
    var calls: seq<DriverCall>

    function Fields(): ModuleFields
      reads this
    {
      ModuleFields(aipuBin, funcName, target, umdDtcmSz)
    }

    /** A node whose fields are set but which has not been initialised yet. */
    constructor Unset(f: ModuleFields)
      ensures Fields() == f && inParams == [] && outParams == [] && !dumpRegistered
      ensures calls == []
    {
      aipuBin := f.aipuBin;
      funcName := f.funcName;
      target := f.target;
      umdDtcmSz := f.umdDtcmSz;
      inParams := [];
      outParams := [];
      dumpRegistered := false;
      calls := [];
    }

    /** The registered creator `aipu_compass.AipuCompassModuleNode`: the executable is the
        NDArray's data, then Init. */
    constructor Create(bin: NDArray, name: CString, tgt: CString, umd: CString,
                       workDir: CString, inInfo: seq<ParamInfo>, outInfo: seq<ParamInfo>,
                       dumpAvailable: bool)
      ensures Fields() == ModuleFields(bin.data, name, tgt, umd)
      ensures inParams == inInfo && outParams == outInfo && dumpRegistered == dumpAvailable
      ensures calls == [DriverInit(bin.data, workDir, tgt, umd, name)]
    {
      aipuBin := bin.data;
      funcName := name;
      target := tgt;
      umdDtcmSz := umd;
      inParams := [];
      outParams := [];
      dumpRegistered := false;
      calls := [];
      new;
      Init(workDir, inInfo, outInfo, dumpAvailable);
    }

    /** Init: initialises the driver with the executable, the work directory the runtime
        configuration gives for the function, the target and the DTCM size; then takes the
        driver's input and output parameter metadata and looks the dump function up. */
    method Init(workDir: CString, inInfo: seq<ParamInfo>, outInfo: seq<ParamInfo>,
                dumpAvailable: bool)
      modifies this`calls, this`inParams, this`outParams, this`dumpRegistered
      ensures calls == old(calls) + [DriverInit(aipuBin, workDir, target, umdDtcmSz, funcName)]
      ensures inParams == inInfo && outParams == outInfo && dumpRegistered == dumpAvailable
    {
      calls := calls + [DriverInit(aipuBin, workDir, target, umdDtcmSz, funcName)];
      inParams := inInfo;
      outParams := outInfo;
      dumpRegistered := dumpAvailable;
    }

    /** SaveToBinary: `aipu_bin`, `func_name`, `target` and `umd_dtcm_sz`, in this order. */
    method SaveToBinary(strm: Stream)
      requires strm.Valid() && FieldsFit(Fields())
      modifies strm
      ensures strm.Valid()
      ensures strm.data == old(strm.data) + EncodeFields(Fields()) && strm.pos == old(strm.pos)
    {
      ghost var d0 := strm.data;
      ghost var e1 := EncodeString(aipuBin);
      ghost var e2 := EncodeString(funcName);
      ghost var e3 := EncodeString(target);
      ghost var e4 := EncodeString(umdDtcmSz);
      strm.WriteString(aipuBin);
      strm.WriteString(funcName);
      strm.WriteString(target);
      strm.WriteString(umdDtcmSz);
      assert strm.data == d0 + e1 + e2 + e3 + e4;
      EncodeFieldsParts(Fields());
      assert e4 + [] == e4;
      AppendRegroup(d0 + e1 + e2, e3, e4);
      AppendRegroup(d0 + e1, e2, e3 + e4);
      AppendRegroup(d0, e1, e2 + (e3 + e4));
    }

    /** The driver calls of GetOutputs: fetch the outputs, dump them if a dump function is
        registered, then dump the profile data. */
    function OutputCalls(outs: seq<DLTensor>): seq<DriverCall>
      reads this
    {
      [GetOutputs(outs)] + (if dumpRegistered then [DumpTensors(funcName, false, outs)] else [])
      + [DumpProfileData]
    }

    method GetOutputsOf(outs: seq<DLTensor>)
      modifies this`calls
      ensures calls == old(calls) + OutputCalls(outs)
    {
      calls := calls + [GetOutputs(outs)];
      if dumpRegistered {
        calls := calls + [DumpTensors(funcName, false, outs)];
      }
      calls := calls + [DumpProfileData];
    }

    /** The arguments of `compass_set_inputs`, `compass_set_outputs` and `compass_get_outputs`:
        exactly one accepted tensor per parameter, each matching it. */
    method CheckedTensors(args: seq<ArgValue>, ps: seq<ParamInfo>)
      returns (r: Result<seq<DLTensor>, RunError>)
      requires |args| <= INT32_MAX
      ensures |ps| != |args| ==> r == Err(ArgCountMismatch)
      ensures r.Ok? <==> |ps| == |args| && ConvertRange(args, 0, |args|).Ok?
                         && AllMatch(TensorsIn(args, 0, |args|), ps)
      ensures r.Ok? ==> r.value == TensorsIn(args, 0, |args|)
    {
      if |ps| != |args| {
        return Err(ArgCountMismatch);
      }
      ConvertRangeMeaning(args, 0, |ps|);
      var converted := Convert2DLTensor(args, 0, |ps|);
      if converted.Err? {
        return Err(BadArg(converted.error));
      }
      var ts := converted.value;
      var mismatch := CheckParams(ts, ps);
      if mismatch.Some? {
        return Err(mismatch.value);
      }
      return Ok(ts);
    }

    /** `compass_set_inputs`: checks the inputs against the input parameters, then sets them. */
    method CompassSetInputs(args: seq<ArgValue>) returns (r: Result<(), RunError>)
      requires |args| <= INT32_MAX
      modifies this`calls
      ensures r.Ok? <==> |inParams| == |args| && ConvertRange(args, 0, |args|).Ok?
                         && AllMatch(TensorsIn(args, 0, |args|), inParams)
      ensures r.Ok? ==> calls == old(calls) + [SetInputs(TensorsIn(args, 0, |args|))]
      ensures r.Err? ==> calls == old(calls)
    {
      var ins := CheckedTensors(args, inParams);
      if ins.Err? {
        return Err(ins.error);
      }
      calls := calls + [SetInputs(ins.value)];
      return Ok(());
    }

    /** `compass_set_outputs`: checks the outputs against the output parameters, then sets
        them. */
    method CompassSetOutputs(args: seq<ArgValue>) returns (r: Result<(), RunError>)
      requires |args| <= INT32_MAX
      modifies this`calls
      ensures r.Ok? <==> |outParams| == |args| && ConvertRange(args, 0, |args|).Ok?
                         && AllMatch(TensorsIn(args, 0, |args|), outParams)
      ensures r.Ok? ==> calls == old(calls) + [SetOutputs(TensorsIn(args, 0, |args|))]
      ensures r.Err? ==> calls == old(calls)
    {
      var outs := CheckedTensors(args, outParams);
      if outs.Err? {
        return Err(outs.error);
      }
      calls := calls + [SetOutputs(outs.value)];
      return Ok(());
    }

    /** `compass_execute`: runs the driver. */
    method CompassExecute()
      modifies this`calls
      ensures calls == old(calls) + [Run]
    {
      calls := calls + [Run];
    }

    /** `compass_get_outputs`: checks the output tensors, then fetches the outputs into them. */
    method CompassGetOutputs(args: seq<ArgValue>) returns (r: Result<(), RunError>)
      requires |args| <= INT32_MAX
      modifies this`calls
      ensures r.Ok? <==> |outParams| == |args| && ConvertRange(args, 0, |args|).Ok?
                         && AllMatch(TensorsIn(args, 0, |args|), outParams)
      ensures r.Ok? ==> calls == old(calls) + OutputCalls(TensorsIn(args, 0, |args|))
      ensures r.Err? ==> calls == old(calls)
    {
      var outs := CheckedTensors(args, outParams);
      if outs.Err? {
        return Err(outs.error);
      }
      GetOutputsOf(outs.value);
      return Ok(());
    }

    /** `compass_get_param_info`: argument 0 is the index, argument 1 selects the inputs
        (true) or the outputs; the index must be non-negative and below the selected list's
        size. */
    method CompassGetParamInfo(args: seq<ArgValue>) returns (r: Result<ParamInfo, RunError>)
      ensures r.Ok? <==> ArgInt(args, 0).Ok? && ArgBool(args, 1).Ok?
                         && 0 <= ArgInt(args, 0).value
                         && ArgInt(args, 0).value
                            < |if ArgBool(args, 1).value then inParams else outParams|
      ensures r.Ok? ==> r.value == (if ArgBool(args, 1).value then inParams else outParams)
                                     [ArgInt(args, 0).value]
      ensures ArgInt(args, 0).Err? ==> r == Err(BadArg(ArgInt(args, 0).error))
    {
      var idx := ArgInt(args, 0);
      if idx.Err? {
        return Err(BadArg(idx.error));
      }
      var isInput := ArgBool(args, 1);
      if isInput.Err? {
        return Err(BadArg(isInput.error));
      }
      if idx.value < 0 {
        return Err(IndexMismatch);
      }
      if isInput.value {
        if idx.value >= |inParams| {
          return Err(IndexMismatch);
        }
        return Ok(inParams[idx.value]);
      } else {
        if idx.value >= |outParams| {
          return Err(IndexMismatch);
        }
        return Ok(outParams[idx.value]);
      }
    }

    /** The checks of `compass_run`: the argument count, the conversions of the inputs and of
        the outputs, then the inputs and the outputs against their parameters. */
    method RunTensors(args: seq<ArgValue>)
      returns (r: Result<(seq<DLTensor>, seq<DLTensor>), RunError>)
      requires |args| <= INT32_MAX
      ensures |inParams| + |outParams| != |args| ==> r == Err(ArgCountMismatch)
      ensures r.Ok? <==> |inParams| + |outParams| == |args|
                         && (forall k :: 0 <= k < |args| ==> CheckArg(args, k).Ok?)
                         && AllMatch(TensorsIn(args, 0, |inParams|), inParams)
                         && AllMatch(TensorsIn(args, |inParams|, |args|), outParams)
      ensures r.Ok? ==> r.value == (TensorsIn(args, 0, |inParams|),
                                    TensorsIn(args, |inParams|, |args|))
    {
      var inCnt := |inParams|;
      var outCnt := |outParams|;
      if inCnt + outCnt != |args| {
        return Err(ArgCountMismatch);
      }
      ConvertSplit(args, inCnt, |args|);
      ConvertedLength(args, 0, inCnt);
      ConvertedLength(args, inCnt, |args|);
      assert RangeEnd(0, inCnt) == inCnt && RangeEnd(inCnt, outCnt) == |args|;
      var inArgs := Convert2DLTensor(args, 0, inCnt);
      if inArgs.Err? {
        return Err(BadArg(inArgs.error));
      }
      var outArgs := Convert2DLTensor(args, inCnt, outCnt);
      if outArgs.Err? {
        return Err(BadArg(outArgs.error));
      }
      var inMismatch := CheckParams(inArgs.value, inParams);
      if inMismatch.Some? {
        return Err(inMismatch.value);
      }
      var outMismatch := CheckParams(outArgs.value, outParams);
      if outMismatch.Some? {
        return Err(outMismatch.value);
      }
      return Ok((inArgs.value, outArgs.value));
    }

    /** `compass_run` (also reached by the function's own name): the arguments are the inputs
        followed by the outputs, one per parameter; after the checks the inputs are dumped
        if a dump function is registered, set, the driver runs, and the outputs are fetched. */
    method CompassRun(args: seq<ArgValue>) returns (r: Result<(), RunError>)
      requires |args| <= INT32_MAX
      modifies this`calls
      ensures |inParams| + |outParams| != |args| ==> r == Err(ArgCountMismatch)
      ensures r.Ok? <==> |inParams| + |outParams| == |args|
                         && (forall k :: 0 <= k < |args| ==> CheckArg(args, k).Ok?)
                         && AllMatch(TensorsIn(args, 0, |inParams|), inParams)
                         && AllMatch(TensorsIn(args, |inParams|, |args|), outParams)
      ensures r.Ok? ==>
                var ins := TensorsIn(args, 0, |inParams|);
                var outs := TensorsIn(args, |inParams|, |args|);
                calls == old(calls)
                         + (if dumpRegistered then [DumpTensors(funcName, true, ins)] else [])
                         + [SetInputs(ins), Run] + OutputCalls(outs)
      ensures r.Err? ==> calls == old(calls)
    {
      var checked := RunTensors(args);
      if checked.Err? {
        return Err(checked.error);
      }
      var (ins, outs) := checked.value;
      if dumpRegistered {
        calls := calls + [DumpTensors(funcName, true, ins)];
      }
      calls := calls + [SetInputs(ins), Run];
      GetOutputsOf(outs);
      return Ok(());
    }

    /** `unrestrict_run`: the first two arguments are the input and output counts (C++ `int`s),
        the tensors follow without any check against the parameters. */
    method UnrestrictRun(args: seq<ArgValue>) returns (r: Result<(), RunError>)
      requires |args| <= INT32_MAX
      modifies this`calls
      ensures r.Ok? <==> UnrestrictAccepts(args)
      ensures r.Ok? ==>
                var split := 2 + args[0].v;
                calls == old(calls) + [SetInputs(TensorsIn(args, 2, split)), Run]
                         + OutputCalls(TensorsIn(args, split, |args|))
      ensures r.Err? ==> calls == old(calls)
    {
      var inCnt := ArgInt(args, 0);
      if inCnt.Err? {
        return Err(BadArg(inCnt.error));
      }
      var outCnt := ArgInt(args, 1);
      if outCnt.Err? {
        return Err(BadArg(outCnt.error));
      }
      if WrapInt32(inCnt.value as int + outCnt.value) != |args| - 2 {
        return Err(ArgCountMismatch);
      }
      var outStart := ToSizeT(WrapInt32(2 + inCnt.value as int));
      var inArgs := Convert2DLTensor(args, 2, ToSizeT(inCnt.value));
      if inArgs.Err? {
        UnrestrictRejects(args, inCnt.value, outCnt.value);
        return Err(BadArg(inArgs.error));
      }
      var outArgs := Convert2DLTensor(args, outStart, ToSizeT(outCnt.value));
      if outArgs.Err? {
        UnrestrictRejects(args, inCnt.value, outCnt.value);
        return Err(BadArg(outArgs.error));
      }
      UnrestrictCountsSound(args, inCnt.value, outCnt.value);
      UnrestrictSplit(args);
      calls := calls + [SetInputs(inArgs.value), Run];
      GetOutputsOf(outArgs.value);
      return Ok(());
    }

    /** LoadFromBinary: reads the four fields in order and
        fails on the first read that fails; then Init sets the node up. */
    static method LoadFromBinary(strm: Stream, workDir: CString, inInfo: seq<ParamInfo>,
                                 outInfo: seq<ParamInfo>, dumpAvailable: bool)
      returns (r: Result<AipuCompassModuleNode, ()>)
      requires strm.Valid()
      modifies strm
      ensures strm.Valid() && strm.data == old(strm.data)
      ensures r.Ok? <==> DecodeFields(strm.data, old(strm.pos)).Some?
      ensures r.Ok? ==>
                var (f, p) := DecodeFields(strm.data, old(strm.pos)).value;
                fresh(r.value) && r.value.Fields() == f && strm.pos == p
                && r.value.inParams == inInfo && r.value.outParams == outInfo
                && r.value.dumpRegistered == dumpAvailable
                && r.value.calls == [DriverInit(f.aipuBin, workDir, f.target, f.umdDtcmSz, f.funcName)]
    {
      var ok1, bin := strm.ReadString();
      if !ok1 {
        return Err(());
      }
      var ok2, name := strm.ReadString();
      if !ok2 {
        return Err(());
      }
      var ok3, tgt := strm.ReadString();
      if !ok3 {
        return Err(());
      }
      var ok4, umd := strm.ReadString();
      if !ok4 {
        return Err(());
      }
      var obj := new AipuCompassModuleNode.Unset(ModuleFields(bin, name, tgt, umd));
      obj.Init(workDir, inInfo, outInfo, dumpAvailable);
      return Ok(obj);
    }
  }

  /** When the conversions of `unrestrict_run` fail, it does not accept its arguments. */
  lemma {:induction false} UnrestrictRejects(args: seq<ArgValue>, inCnt: Int32, outCnt: Int32)
    requires |args| <= INT32_MAX
    requires |args| >= 2 && args[0].IntArg? && args[1].IntArg?
    requires args[0].v == inCnt && args[1].v == outCnt
    requires !(ConvertRange(args, 2, RangeEnd(2, ToSizeT(inCnt))).Ok?
               && var outStart := ToSizeT(WrapInt32(2 + inCnt));
                  ConvertRange(args, outStart, RangeEnd(outStart, ToSizeT(outCnt))).Ok?)
    ensures !UnrestrictAccepts(args)
  {
    if UnrestrictAccepts(args) {
      assert RangeEnd(2, ToSizeT(inCnt)) == 2 + inCnt;
      assert ToSizeT(WrapInt32(2 + inCnt)) == 2 + inCnt;
      assert RangeEnd(2 + inCnt, ToSizeT(outCnt)) == |args|;
      ConvertRangeMeaning(args, 2, 2 + inCnt);
      ConvertRangeMeaning(args, 2 + inCnt, |args|);
    }
  }

  /** When `unrestrict_run` accepts, its two conversions cover the inputs and the outputs. */
  lemma {:induction false} UnrestrictSplit(args: seq<ArgValue>)
    requires |args| <= INT32_MAX
    requires UnrestrictAccepts(args)
    ensures var inCnt := args[0].v;
            RangeEnd(2, ToSizeT(inCnt)) == 2 + inCnt
            && ToSizeT(WrapInt32(2 + inCnt)) == 2 + inCnt
            && RangeEnd(2 + inCnt, ToSizeT(args[1].v)) == |args|
  {
  }
}
