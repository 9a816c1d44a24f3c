# AIPU Compass runtime modules and AIPU utilities, in Dafny

This project models two parts of the Compass extension of Apache TVM for the Arm China AIPU.

The first part is the runtime modules of `aipu/src/runtime/compass/module.cc`:

- **`AipuCompassModuleNode`** holds an AIPU executable and three strings: the original
  function's name, the target and the UMD DTCM size.
  - It writes them to a dmlc stream and reads them back.
  - Its packed functions split their tensor arguments, check them and pass them to the AIPU
    driver (`compass_set_inputs`, `compass_set_outputs`, `compass_execute`,
    `compass_get_param_info`, `compass_get_outputs`, `compass_run` and `unrestrict_run`).
- **`AipuCompassBinaryNode`** wraps the executable as an NDArray without starting the driver.
  It serialises itself and creates an `AipuCompassModuleNode` on request.
- **`AipuBmModuleNode`** is the bare-metal module. It generates C source that embeds the
  executable as a `gbin` byte array (for X2 targets it only declares an external `gbin`),
  plus a wrapper function named after the original function. It saves that source, and for
  X2 targets the executable `aipu.bin` too.

The second part is helpers of `python/tvm/aipu/utils.py`:

- the vector and element-width arithmetic on data types;
- `prod_const`;
- `canonicalize_target`;
- the error scan and the decision of `check_call_aipu_tool`;
- the RPC key checks of `get_rpc_session`;
- the integer table of `get_range`.

The Dafny modules, in dependency order:

| file | module | contents |
|---|---|---|
| `common.dfy` | `Common` | Option and Result, TVM's `DataType`, `size_t` and `int` wrap-around |
| `c_text.dfy` | `CText` | signed C `char` strings, what `std::ostream` prints for them and for integers (decimal, padded hex) |
| `dmlc_stream.dfy` | `DmlcStream` | dmlc's `std::string` format (a 64-bit little-endian length, then the bytes) and a `Stream` class |
| `bm_module.dfy` | `BmModule` | `AipuBmModuleNode` and the text it generates |
| `compass_module.dfy` | `CompassModule` | `AipuCompassModuleNode`, `Convert2DLTensor` and the packed functions |
| `compass_binary.dfy` | `CompassBinary` | `AipuCompassBinaryNode` |
| `aipu_utils.dfy` | `AipuUtils` | the `utils.py` helpers |

Modelling choices:

- The AIPU driver and the dump function are not modelled. Each node records in a `calls` field, in order,
  every call it makes to them except the two parameter queries at `Init`, whose answers are
  parameters. The driver's answers at `Init` (the parameter
  infos) and whether `aipu_compass.dump_tensors` is registered are parameters.
- A failed `ICHECK` or `LOG(FATAL)` becomes an `Err` result, with the state unchanged.
  In the C++ the packed function aborts before calling the driver, so the state is unchanged
  there too.
- The generated C source is modelled as the sequence of pieces inserted into `code_`.
  Its text is their concatenation.
- A Python `assert` or a failing dictionary lookup likewise becomes an `Err` value.

## Model

| member | source | states |
|---|---|---|
| Common.ToSizeT | aipu/src/runtime/compass/module.cc:270-276 | an `int` count passed as `size_t` is unchanged when non-negative and wraps to `x + 2^64` when negative |
| Common.WrapInt32 | aipu/src/runtime/compass/module.cc:270-273 | 32-bit `int` addition: in-range sums are exact, and every result is congruent to the sum modulo 2^32 |
| CText.MaskedByte | aipu/src/runtime/compass/module.cc:400 | `uint(c) & 0xff` maps a non-negative char to itself and a negative char to `c + 256` |
| CText.MaskedByteInverse | aipu/src/runtime/compass/module.cc:400 | masking is a bijection between signed chars and bytes |
| CText.TextOfInjective | aipu/src/runtime/compass/module.cc:417 | two function names print the same text exactly when they are equal |
| CText.DecimalRoundTrip | aipu/src/runtime/compass/module.cc:396 | `<< aipu_bin.size()` prints a non-empty digit run with no leading zero that denotes the size |
| CText.Hex2IsPaddedHex | aipu/src/runtime/compass/module.cc:397-400 | `std::hex`, `setfill('0')` and `setw(2)` print a byte as its hexadecimal rendering padded to two digits |
| CText.Hex2RoundTrip | aipu/src/runtime/compass/module.cc:400 | the two printed hexadecimal digits read back as the byte |
| CText.Substr | aipu/src/runtime/compass/module.cc:393 | `substr(pos, n)` is the slice of at most `n` characters from `pos` |
| CText.LastIndexOf | aipu/src/runtime/compass/module.cc:441 | `rfind('/')` is the last index holding the character, or none when it does not occur |
| DmlcStream.LittleEndianRoundTrip | aipu/src/runtime/compass/module.cc:80-83 | the 8-byte length prefix of a written string reads back as the length |
| DmlcStream.DecodeEncodeString | aipu/src/runtime/compass/module.cc:80-83 | a written string reads back, at its position and with anything around it, as the same string, and the read ends right after it |
| DmlcStream.DecodeStringIn | aipu/src/runtime/compass/module.cc:328-329 | the same round trip wherever the encoded string sits inside the stream |
| DmlcStream.DecodeStringsIn | aipu/src/runtime/compass/module.cc:328-329 | a sequence of written strings reads back, one after another, as the same sequence |
| DmlcStream.DecodeEncodeStrings | aipu/src/runtime/compass/module.cc:79-84 | written strings read back, surrounded by any bytes, as the same strings |
| DmlcStream.DecodeStringsCons | aipu/src/runtime/compass/module.cc:328-329 | reading n strings is reading one string and then n - 1 more |
| DmlcStream.DecodeStringAt | aipu/src/runtime/compass/module.cc:328-329 | a successful read stays inside the data and consumes the 8-byte prefix plus the payload |
| DmlcStream.Stream.WriteString | aipu/src/runtime/compass/module.cc:80-83 | `Write(std::string)` appends exactly the encoded string and leaves the read position alone |
| DmlcStream.Stream.ReadString | aipu/src/runtime/compass/module.cc:328-329 | `Read(&s)` succeeds exactly when a whole string is there; it returns that string and moves past it |
| BmModule.RenderAppend | aipu/src/runtime/compass/module.cc:378 | the stream's text after two sequences of insertions is the text of the first followed by that of the second |
| BmModule.IsX2TargetMeaning | aipu/src/runtime/compass/module.cc:393-395 | `target.substr(0, 2) == "X2"` holds exactly when the target starts with `X` and `2` |
| BmModule.RenderHeaderAppended | aipu/src/runtime/compass/module.cc:387-392 | the six header lines append the include and `extern "C"` text |
| BmModule.LineCounterStep | aipu/src/runtime/compass/module.cc:398-408 | the counter reset at 16 always equals the number of bytes written modulo 16 |
| BmModule.ParseArrayEntries | aipu/src/runtime/compass/module.cc:399-409 | the emitted `0x..` entries, with their `, ` and line breaks, parse back to the executable's bytes from the current one on |
| BmModule.RenderGbinAppended | aipu/src/runtime/compass/module.cc:395-415 | the array part appends the `gbin` definition, or for X2 the extern declaration, as one text |
| BmModule.GbinArrayDenotesExecutable | aipu/src/runtime/compass/module.cc:395-411 | for a target other than X2, the array's declared size denotes the executable's length and its entries denote its bytes |
| BmModule.RenderWrapperAppended | aipu/src/runtime/compass/module.cc:417-428 | the wrapper appends `TVM_DLL int32_t`, the function name and the fixed body |
| BmModule.GeneratedCodeLayout | aipu/src/runtime/compass/module.cc:386-429 | the generated source is the header, then the `gbin` part, then the wrapper named after the function |
| BmModule.FreshCodeNonEmpty | aipu/src/runtime/compass/module.cc:436 | freshly generated code is never empty, so the `ICHECK_NE` of SaveToFile holds after Init |
| BmModule.X2CodeDeterminesName | aipu/src/runtime/compass/module.cc:413-428 | for X2 targets the code does not depend on the executable, and it determines the function name |
| BmModule.AipuBinPathAsWritten | aipu/src/runtime/compass/module.cc:440-443 | the path the source computes for `aipu.bin` always ends in `/aipu.bin` and starts with a prefix of the file name |
| BmModule.AipuBinPathBesideCode | aipu/src/runtime/compass/module.cc:438-444 | the corrected path of `aipu.bin` is in the directory of the saved file and ends in `aipu.bin` |
| BmModule.AipuBinPathAsWrittenCases | aipu/src/runtime/compass/module.cc:440-443 | as written, names with a `/` get the corrected path, and names without one get `<name>/aipu.bin` |
| BmModule.AipuBinPathAsWrittenCounterexample | aipu/src/runtime/compass/module.cc:440-443 | for `m.c` the code as written writes `m.c/aipu.bin`, not `aipu.bin` |
| BmModule.AipuBmModuleNode.constructor | aipu/src/runtime/compass/module.cc:462-471 | creation stores the three fields and runs GenerateCode; the code is GeneratedCode of them, and hex mode is set exactly for targets other than X2 |
| BmModule.AipuBmModuleNode.GenerateCode | aipu/src/runtime/compass/module.cc:381-429 | the stream gains the header, the array part and the wrapper; the hex flag becomes set unless the target is X2 |
| BmModule.AipuBmModuleNode.AppendHeader | aipu/src/runtime/compass/module.cc:387-392 | the stream gains the six opening lines (the three includes and the `extern "C"` guard) and nothing else |
| BmModule.AipuBmModuleNode.AppendGbin | aipu/src/runtime/compass/module.cc:393-415 | for a non-X2 target the stream gains the `gbin` declaration with its size and the byte entries, and the hex flag becomes set; for X2 it gains only the `extern void* gbin;` line |
| BmModule.AipuBmModuleNode.AppendWrapper | aipu/src/runtime/compass/module.cc:417-428 | the stream gains the wrapper function named after the original function, which fills `graph_info` and returns whether the run failed |
| BmModule.AipuBmModuleNode.AppendArrayEntries | aipu/src/runtime/compass/module.cc:397-409 | the loop inserts one entry per byte of the executable, in order |
| BmModule.AipuBmModuleNode.SaveToFile | aipu/src/runtime/compass/module.cc:431-446 | fails for a format other than `c` or empty code; otherwise writes the code to the file and, only for X2 targets, the executable to the path the source computes: `aipu.bin` in the file's directory when the name has a `/`, and `<name>/aipu.bin` when it has none |
| BmModule.AipuBmModuleNode.GetFuncNames | aipu/src/runtime/compass/module.cc:448-460 | only `get_func_names` gives a function, and it returns the one original function name |
| CompassModule.ArgInt | aipu/src/runtime/compass/module.cc:172 | `int idx = args[0]` succeeds exactly for an integer argument inside `int` range |
| CompassModule.ArgBool | aipu/src/runtime/compass/module.cc:173 | `bool is_input = args[1]` succeeds for an integer argument and is true when it is non-zero |
| CompassModule.ConvertRangeMeaning | aipu/src/runtime/compass/module.cc:86-101 | converting `[i, end)` succeeds iff every argument there is a contiguous scalar tensor handle; it yields them in order, or the first failure |
| CompassModule.ConvertSplit | aipu/src/runtime/compass/module.cc:247-248 | the two conversions of `compass_run` both succeed iff every argument converts |
| CompassModule.Convert2DLTensor | aipu/src/runtime/compass/module.cc:86-101 | the loop from `start_idx` to `start_idx + count` (a `size_t` sum) yields what ConvertRange specifies |
| CompassModule.CheckParams | aipu/src/runtime/compass/module.cc:250-257 | no error iff each tensor's data type and data size match its parameter; otherwise the error of the first mismatch |
| CompassModule.DecodeEncodeFields | aipu/src/runtime/compass/module.cc:79-84 | the four saved fields, wherever they sit in a stream, read back as the same fields, ending right after them |
| CompassModule.EncodeFieldsParts | aipu/src/runtime/compass/module.cc:79-84 | the serialised fields are the four strings' encodings in the order they are written |
| CompassModule.DecodeFieldsReadsFour | aipu/src/runtime/compass/module.cc:328-329 | the chain of four short-circuited reads is reading four strings in a row |
| CompassModule.FunctionFor | aipu/src/runtime/compass/module.cc:131-317 | GetFunction gives a function exactly for the ten fixed names and the original function's name, and gives the run function exactly for `compass_run` and for the function's name when no earlier name shadows it |
| CompassModule.FuncNameSelectsRun | aipu/src/runtime/compass/module.cc:239 | the original function's name selects `compass_run` unless one of the names tested before it shadows it |
| CompassModule.UnknownNameHasNoFunction | aipu/src/runtime/compass/module.cc:131-317 | any other name gets `nullptr` |
| CompassModule.UnrestrictCountsSound | aipu/src/runtime/compass/module.cc:270-276 | if the 32-bit count check and both `size_t` conversions succeed, the counts are non-negative, add up to the tensor count, and every tensor argument converts |
| CompassModule.UnrestrictRejects | aipu/src/runtime/compass/module.cc:275-276 | if a conversion fails, the arguments are not acceptable |
| CompassModule.UnrestrictSplit | aipu/src/runtime/compass/module.cc:275-276 | for acceptable arguments, the wrapped indices are the plain ones: inputs are `[2, 2 + in_cnt)` and outputs run to the end |
| CompassModule.AipuCompassModuleNode.Unset | aipu/src/runtime/compass/module.cc:326-330 | stands for `make_object` (whose fields start empty) together with the four reads that fill them: a node holding the read fields, with no parameter infos, no dump function and no driver calls yet |
| CompassModule.AipuCompassModuleNode.Create | aipu/src/runtime/compass/module.cc:336-347 | creation stores the executable's bytes and the strings, then Init starts the driver with them and stores its parameter infos |
| CompassModule.AipuCompassModuleNode.Init | aipu/src/runtime/compass/module.cc:65-75 | Init calls the driver's Init with the fields and the work directory, and stores the parameter infos and whether the dump function exists |
| CompassModule.AipuCompassModuleNode.SaveToBinary | aipu/src/runtime/compass/module.cc:79-84 | the stream gains exactly the four encoded fields |
| CompassModule.AipuCompassModuleNode.LoadFromBinary | aipu/src/runtime/compass/module.cc:323-334 | loading succeeds iff four strings can be read; the new node has them as its fields and is initialised |
| CompassModule.AipuCompassModuleNode.GetOutputsOf | aipu/src/runtime/compass/module.cc:103-112 | asks the driver for the outputs, dumps them if the dump function exists, then dumps the profile data |
| CompassModule.AipuCompassModuleNode.CheckedTensors | aipu/src/runtime/compass/module.cc:141-149 | the count check, the conversion and the parameter checks of one argument list succeed together or not at all |
| CompassModule.AipuCompassModuleNode.CompassSetInputs | aipu/src/runtime/compass/module.cc:138-152 | on valid inputs the driver gains exactly one SetInputs with them; otherwise nothing happens |
| CompassModule.AipuCompassModuleNode.CompassSetOutputs | aipu/src/runtime/compass/module.cc:153-167 | on valid outputs the driver gains exactly one SetOutputs with them; otherwise nothing happens |
| CompassModule.AipuCompassModuleNode.CompassExecute | aipu/src/runtime/compass/module.cc:168-169 | the driver gains one Run |
| CompassModule.AipuCompassModuleNode.CompassGetOutputs | aipu/src/runtime/compass/module.cc:185-199 | on valid outputs the driver gains the output calls; otherwise nothing happens |
| CompassModule.AipuCompassModuleNode.CompassGetParamInfo | aipu/src/runtime/compass/module.cc:170-184 | succeeds iff the index is a non-negative `int` below the chosen list's size, and returns that list's entry |
| CompassModule.AipuCompassModuleNode.RunTensors | aipu/src/runtime/compass/module.cc:241-257 | succeeds iff the count matches, every argument converts and both halves match their parameters; returns the two halves |
| CompassModule.AipuCompassModuleNode.CompassRun | aipu/src/runtime/compass/module.cc:239-265 | on valid arguments: optional input dump, SetInputs, Run, then the output calls; otherwise no call |
| CompassModule.AipuCompassModuleNode.UnrestrictRun | aipu/src/runtime/compass/module.cc:266-281 | succeeds iff the counts are non-negative, sum to the tensor count and every tensor converts; then SetInputs, Run and the output calls on the split |
| CompassBinary.DecodeEncodeBinary | aipu/src/runtime/compass/module.cc:498-503 | for an NDArray format whose load reads back what was saved, the saved node reads back, ending right after it |
| CompassBinary.DecodeBinarySteps | aipu/src/runtime/compass/module.cc:536-537 | loading is the array load followed by three string reads |
| CompassBinary.ReadsInOrder | aipu/src/runtime/compass/module.cc:536-537 | reading three strings succeeds iff each of the three short-circuited reads does, and gives their strings |
| CompassBinary.StringFieldsParts | aipu/src/runtime/compass/module.cc:500-502 | the three string fields are written in order |
| CompassBinary.SaveArray | aipu/src/runtime/compass/module.cc:499 | `aipu_bin.Save` appends the NDArray format's bytes |
| CompassBinary.LoadArray | aipu/src/runtime/compass/module.cc:536 | `aipu_bin.Load` succeeds iff the format reads an array there, and moves past it |
| CompassBinary.AipuCompassBinaryNode.constructor | aipu/src/runtime/compass/module.cc:519-527 | creation stores the four fields as given |
| CompassBinary.AipuCompassBinaryNode.SaveToBinary | aipu/src/runtime/compass/module.cc:498-503 | the stream gains the array's bytes and then the three encoded strings |
| CompassBinary.AipuCompassBinaryNode.LoadFromBinary | aipu/src/runtime/compass/module.cc:531-541 | loading succeeds iff an array and three strings can be read; the new node holds them, and the driver is not started |
| CompassBinary.AipuCompassBinaryNode.GetCompassModule | aipu/src/runtime/compass/module.cc:505-517 | only `get_compass_module` gives a function; it creates a module node with the same fields, the driver's parameter infos and the dump function's availability, and starts its driver once |
| AipuUtils.VecType | python/tvm/aipu/utils.py:197-200 | fails (division by zero) exactly for a zero-bit type; otherwise keeps the code and bits |
| AipuUtils.VecTypeFillsNative | python/tvm/aipu/utils.py:197-200 | the vector type fits in 256 bits, and one more lane would not |
| AipuUtils.DoubleElemWidth | python/tvm/aipu/utils.py:299-308 | keeps 32-bit types unless 64 bits are allowed; otherwise doubles the bits and halves the lanes only if the vector would exceed 256 bits |
| AipuUtils.DoubleElemWidthFits | python/tvm/aipu/utils.py:299-308 | doubling keeps a type that fits in 256 bits fitting, and keeps the total width when it halves an even lane count |
| AipuUtils.HalfElemWidth | python/tvm/aipu/utils.py:311-316 | fails the assertion exactly below 8 bits; otherwise halves the bits and doubles the lanes on request |
| AipuUtils.HalfUndoesDouble | python/tvm/aipu/utils.py:299-316 | halving undoes doubling, keeping the lanes when doubling kept them and doubling them back when it halved them |
| AipuUtils.ElemWidthExamples | python/tvm/aipu/utils.py:304-315 | u8x8 doubles to u16x8, u16x8 halves back to u8x8, i8x32 doubles to i16x16, f32x8 stays |
| AipuUtils.ConstValues | python/tvm/aipu/utils.py:178-182 | one constant per element, the domain extent for an IterVar |
| AipuUtils.ProductAppend | python/tvm/aipu/utils.py:184 | the product of a concatenation is the product of the parts |
| AipuUtils.ProductZero | python/tvm/aipu/utils.py:184 | the product is zero iff some extent is zero |
| AipuUtils.ProdConst | python/tvm/aipu/utils.py:176-184 | succeeds iff every extent is constant, and returns the product of the constants |
| AipuUtils.CanonicalizeTarget | python/tvm/aipu/utils.py:187-194 | a Target passes through, a string becomes a Target, and any other value fails the assertion |
| AipuUtils.CanonicalTargetIsAipu | python/tvm/aipu/utils.py:192-193 | the result starts with `aipu`; it is unchanged iff the string already did, and otherwise it is `aipu -mcpu=` followed by the string |
| AipuUtils.CanonicalizeIdempotent | python/tvm/aipu/utils.py:187-194 | for a Target or a string, feeding the returned Target back in returns it unchanged; for a string, so does canonicalising its description again as a string |
| AipuUtils.DigitRunEnd | python/tvm/aipu/utils.py:55 | `\d+` matches the longest digit run from a position |
| AipuUtils.FindAllFrom | python/tvm/aipu/utils.py:55-57 | every match found is a non-empty digit run |
| AipuUtils.FindAllPositions | python/tvm/aipu/utils.py:55-57 | the matches of a line are exactly the positions where `Total errors: ` ends and a digit follows, left to right and not overlapping, each taken as its longest digit run |
| AipuUtils.FindAllSound | python/tvm/aipu/utils.py:55-57 | every match found is the longest digit run right after a `Total errors: ` mark |
| AipuUtils.FindAllComplete | python/tvm/aipu/utils.py:55-57 | every digit run right after a `Total errors: ` mark is found |
| AipuUtils.MatchOutsideRun | python/tvm/aipu/utils.py:55 | a match never starts inside the digits of an earlier match, because the lookbehind needs a space just before it |
| AipuUtils.SummaryLineCount | python/tvm/aipu/utils.py:55-57 | a line `Total errors: n` yields exactly the count n |
| AipuUtils.FirstPositiveMeaning | python/tvm/aipu/utils.py:56-65 | the scan's count is zero iff every count is zero; otherwise it is the first positive count |
| AipuUtils.FirstPositiveAfterZeros | python/tvm/aipu/utils.py:58-65 | zero counts before the rest do not change the result |
| AipuUtils.FirstPositivePrefix | python/tvm/aipu/utils.py:63-65 | once a positive count is found, later lines do not matter |
| AipuUtils.AllCountsAppend | python/tvm/aipu/utils.py:56-57 | the counts of concatenated logs are the concatenated counts |
| AipuUtils.ScanErrorCount | python/tvm/aipu/utils.py:53-65 | the two loops with `break` compute the first positive count in the log |
| AipuUtils.CheckCallAipuTool | python/tvm/aipu/utils.py:24-74 | succeeds iff the return code is 0 and the log has no positive error count; the error names the tool, or is the failed map lookup |
| AipuUtils.StripLeft | python/tvm/aipu/utils.py:152 | removes exactly the leading whitespace |
| AipuUtils.StripRight | python/tvm/aipu/utils.py:152 | removes exactly the trailing whitespace |
| AipuUtils.StripIdempotent | python/tvm/aipu/utils.py:152 | a stripped string has no whitespace at either end, and stripping it again changes nothing |
| AipuUtils.StripSlice | python/tvm/aipu/utils.py:152 | the stripped string is a slice with only whitespace before and after it |
| AipuUtils.StripKeepsOut | python/tvm/aipu/utils.py:152 | stripping adds no character |
| AipuUtils.SplitOn | python/tvm/aipu/utils.py:152 | `split("|")` gives at least one piece, and no piece contains the separator |
| AipuUtils.SplitJoin | python/tvm/aipu/utils.py:152 | joining the pieces with the separator gives the string back |
| AipuUtils.StrippedNonEmptyMembers | python/tvm/aipu/utils.py:152 | a key is listed iff it is non-empty and is the stripped form of some piece |
| AipuUtils.ValidKeysMeaning | python/tvm/aipu/utils.py:150-152 | a valid key is listed iff it is a non-empty stripped piece of the variable; listed keys are stripped and contain no `|` |
| AipuUtils.CheckRpcKey | python/tvm/aipu/utils.py:140-155 | an accepted key is non-empty; it is the argument if that is non-empty, otherwise the environment's; it is listed when a valid-key list is set |
| AipuUtils.CheckRpcKeyAccepts | python/tvm/aipu/utils.py:140-155 | for any argument and environment, the key is `rpc_key or os.getenv(...)`; the check fails when neither is set or non-empty, accepts that key when no list is set, and with a list accepts it iff it is listed |
| AipuUtils.GetRange | python/tvm/aipu/utils.py:209-211 | a type outside the table fails the lookup |
| AipuUtils.GetRangeMeaning | python/tvm/aipu/utils.py:203-211 | the table holds exactly bool, 8/16/32-bit signed and unsigned, and float16/32; an integer range has 2^bits values, starts at 0 when unsigned, and has `lo == -(hi + 1)` when signed |
| AipuUtils.Int32RangeAgrees | python/tvm/aipu/utils.py:204-211 | int32 has range `[-2^31, 2^31 - 1]`, whatever its lane count |

## Left out

- The AIPU driver (`aipu_driver_`): only the calls made to it are recorded. Its Init, parameter query, SetInputs, Run, GetOutputs and profile dump are not part of this model.
- `AipuCompassBasicConfig::GetRuntimeWorkDir` and `Registry::Get("aipu_compass.dump_tensors")`: their results are parameters (`workDir`, `dumpAvailable`).
- What `DumpTensors` passes to the Python dump function is not modelled. The model records one DumpTensors call with the function name, the input flag and the tensors.
- `IsContiguous` and `GetDataSize` are fields of the modelled `DLTensor`, not computed from a shape and strides.
- `TVMArgValue` conversions: integers are unbounded values, and `operator int` fails outside the `int` range. Other type codes are opaque.
- NDArray `Save`/`Load` (the binary node's executable): its byte format is a parameter, an `ArrayCodec`. The round trip is proved for any format whose load reads back what was saved.
- `compass_set_input_shared`, `compass_mark_output_shared` and `compass_dynamic_run` are not modelled (module.cc:200-238, 282-314); `FunctionFor` only names them.
- `type_key`, `GetPropertyMask`, `GetFormat`, module registration and reference counting are constants or plumbing.
- `GetFileFormat` is not modelled: SaveToFile receives the format it would return.
- `SaveBinaryToFile`: the model returns the list of files it would write.
- Common.WrapInt32: the sum `in_cnt + out_cnt` in `unrestrict_run` (module.cc:273) is a signed `int` addition, and its overflow is undefined behaviour in C++. The model takes it to wrap around in two's complement. No result depends on that choice, since UnrestrictCountsSound shows that every overflowing pair is rejected by the later conversions.
- `LOG(FATAL)` on a failed load becomes an `Err` result.
- CompassModule.AipuCompassModuleNode.CompassGetParamInfo: it returns by value, not as a reference into the node's list.
- `check_call_aipu_tool`: the working directory, the log file, `subprocess.run`, the environment and `chdir` are I/O. The return code and the tool's output are parameters, and the log is the command line followed by that output.
- `\d` is modelled as the ASCII digits only. Python also matches other Unicode decimal digits.
- `get_range` does not model the float limits of `np.finfo`: FloatRange names the width only. `bool` is represented as a 1-bit unsigned type.
- `canonicalize_target` does not model `tvm.target.Target` parsing: the Target carries the string it was built from.
- `get_rpc_session`: the tracker host, port and priority lookups and the connection are not modelled. The environment variables are parameters.
- `prod_const`: `get_const_int` is modelled on an integer constant or a symbolic expression. A `tir.IterVar` is replaced by its domain extent.
- `abspath`, `check_remote`, `rand` and the rest of `utils.py` are outside the modelled core.

## Findings

| source | as written | input that shows it | evidently intended | confidence | as-written member | corrected member |
|---|---|---|---|---|---|---|
| aipu/src/runtime/compass/module.cc:440-443 | `rfind("/")` returns `npos` for a name without `/`; stored in an `int` it becomes -1, and `substr(0, npos)` keeps the whole name, so the executable goes to `<name>/aipu.bin`. SaveToFile follows the code as written | file name `m.c` with an X2 target | `aipu.bin` beside the code file, in the current directory | not executed | BmModule.AipuBinPathAsWrittenCounterexample | BmModule.AipuBinPathBesideCode |
