/** The bare-metal runtime module (`AipuBmModuleNode`): it turns the AIPU executable into C
    source text that embeds the executable as a byte array `gbin` (or, for X2 targets,
    declares `gbin` as an external symbol) and defines a wrapper function named after the
    original function, which hands `gbin` and the two buffers to the AIPU driver.

    The `code_` string stream is modelled as the sequence of texts inserted into it, one per
    `<<`, in order; its contents (`code_.str()`) are their concatenation, `Render`. */
module BmModule {
  import opened Common
  import opened CText

  /** `'X'`, `'2'`: the target prefix of the X2 generation. */
  const X2_PREFIX: CString := [88, 50]

  /** `'/'`. */
  const SLASH: CChar := 47

  /** `"aipu.bin"`, the name of the executable written beside the code of an X2 target. */
  const AIPU_BIN_NAME: CString := [97, 105, 112, 117, 46, 98, 105, 110]

  /** `"c"`, the only format SaveToFile accepts. */
  const C_FORMAT: CString := [99]

  // The string literals GenerateCode inserts into the stream, one per `code_ <<` of a literal.
  const INCLUDE_RUNTIME_API: string := "#include \"tvm/runtime/c_runtime_api.h\"\n"
  const INCLUDE_BACKEND_API: string := "#include \"tvm/runtime/c_backend_api.h\"\n"
  const INCLUDE_DRIVER_WRAPPER: string := "#include \"aipu_driver_wrapper.h\"\n"
  const IFDEF_CPLUSPLUS: string := "#ifdef __cplusplus\n"
  const EXTERN_C: string := "extern \"C\"\n"
  const ENDIF: string := "#endif\n"
  const GBIN_ARRAY_OPEN: string := "uint8_t gbin["
  const GBIN_SIZE_CLOSE: string := "] = {\n"
  const GBIN_ARRAY_CLOSE: string := "};\n"
  const GBIN_EXTERN: string := "extern void* gbin;\n"
  const HEX_PREFIX: string := "0x"
  const SEPARATOR: string := ", "
  const NEWLINE: string := "\n"
  const WRAPPER_SIGNATURE: string := "TVM_DLL int32_t "
  const WRAPPER_PARAMS: string := "(uint8_t* input_buffer_var, uint8_t* output_buffer_var) {\n"
  const DECLARE_GRAPH_INFO: string := "  struct graph_run_info graph_info = {0};\n"
  const DECLARE_RESULT: string := "  aipu_run_result_t aipu_result = AIPU_RUN_ERROR;\n\n"
  const SET_GRAPH_ADDR: string := "  graph_info.graph_addr = gbin;\n"
  const SET_INPUT_ADDR: string := "  graph_info.input0_addr = input_buffer_var;\n"
  const SET_OUTPUT_ADDR: string := "  graph_info.output_addr = output_buffer_var;\n"
  const SET_RUN_TIMES: string := "  graph_info.run_times = 1;\n"
  const SET_OUTPUT_TYPE: string := "  graph_info.output_type = NOT_BATCH_OUTPUT;\n\n"
  const START_GRAPH: string := "  aipu_result = aipu_start_single_graph(&graph_info);\n\n"
  const RETURN_STATUS: string := "  return aipu_result != AIPU_RUN_RESULT_PASS;\n"
  const CLOSE_BRACE: string := "}\n"

  /** The contents of the stream: the inserted texts, concatenated. */
  function Render(ps: seq<string>): string
  {
    if ps == [] then "" else Render(ps[..|ps| - 1]) + ps[|ps| - 1]
  }

  /** Inserting one more text appends it to the contents. */
  lemma {:induction false} RenderSnoc(ps: seq<string>, p: string)
    ensures Render(ps + [p]) == Render(ps) + p
  {
    assert (ps + [p])[..|ps|] == ps;
  }

  /** Rendering distributes over concatenation of insertions. */
  lemma {:induction false} RenderAppend(a: seq<string>, b: seq<string>)
    ensures Render(a + b) == Render(a) + Render(b)
    decreases |b|
  {
    if b == [] {
      assert a + b == a;
    } else {
      var init := b[..|b| - 1];
      var last := b[|b| - 1];
      assert b == init + [last];
      assert a + b == (a + init) + [last];
      RenderSnoc(a + init, last);
      RenderSnoc(init, last);
      RenderAppend(a, init);
      StringAppendAssociative(Render(a), Render(init), last);
    }
  }

  /** `target.substr(0, 2)`. */
  function TargetPrefix(target: CString): CString
  {
    Substr(target, 0, 2)
  }

  predicate IsX2Target(target: CString)
  {
    TargetPrefix(target) == X2_PREFIX
  }

  /** The X2 targets are exactly those whose name starts with `X2`. */
  lemma {:induction false} IsX2TargetMeaning(target: CString)
    ensures IsX2Target(target) <==> |target| >= 2 && target[0] == 88 && target[1] == 50
  {
    if |target| >= 2 {
      assert TargetPrefix(target) == target[..2];
    }
  }

  /** The stream after the six fixed lines that open the generated file. */
  function HeaderAppended(ps: seq<string>): seq<string>
  {
    ps + [INCLUDE_RUNTIME_API] + [INCLUDE_BACKEND_API] + [INCLUDE_DRIVER_WRAPPER]
    + [IFDEF_CPLUSPLUS] + [EXTERN_C] + [ENDIF]
  }

  /** The text of the six opening lines. */
  function HeaderText(): string
  {
    INCLUDE_RUNTIME_API + INCLUDE_BACKEND_API
    + INCLUDE_DRIVER_WRAPPER + IFDEF_CPLUSPLUS
    + EXTERN_C + ENDIF
  }

  lemma {:induction false} StringAppendAssociative(a: string, b: string, c: string)
    ensures a + b + c == a + (b + c)
  {
  }

  /** The header adds its text after whatever the stream held. */
  lemma {:induction false} RenderHeaderAppended(ps: seq<string>)
    ensures Render(HeaderAppended(ps)) == Render(ps) + HeaderText()
  {
    var p1 := ps + [INCLUDE_RUNTIME_API];
    var p2 := p1 + [INCLUDE_BACKEND_API];
    var p3 := p2 + [INCLUDE_DRIVER_WRAPPER];
    var p4 := p3 + [IFDEF_CPLUSPLUS];
    var p5 := p4 + [EXTERN_C];
    RenderSnoc(ps, INCLUDE_RUNTIME_API);
    RenderSnoc(p1, INCLUDE_BACKEND_API);
    RenderSnoc(p2, INCLUDE_DRIVER_WRAPPER);
    RenderSnoc(p3, IFDEF_CPLUSPLUS);
    RenderSnoc(p4, EXTERN_C);
    RenderSnoc(p5, ENDIF);
    var r := Render(ps);
    var t := INCLUDE_RUNTIME_API;
    StringAppendAssociative(r, t, INCLUDE_BACKEND_API);
    t := t + INCLUDE_BACKEND_API;
    StringAppendAssociative(r, t, INCLUDE_DRIVER_WRAPPER);
    t := t + INCLUDE_DRIVER_WRAPPER;
    StringAppendAssociative(r, t, IFDEF_CPLUSPLUS);
    t := t + IFDEF_CPLUSPLUS;
    StringAppendAssociative(r, t, EXTERN_C);
    t := t + EXTERN_C;
    StringAppendAssociative(r, t, ENDIF);
  }

  /** What the loop inserts for one byte printed as `h`: `0x` and the digits, then `, ` when
      `comma` holds, then a newline when `lineBreak` holds. */
  function EntryPieces(h: string, comma: bool, lineBreak: bool): seq<string>
  {
    [HEX_PREFIX] + [h] + (if comma then [SEPARATOR] else []) + (if lineBreak then [NEWLINE] else [])
  }

  /** What the loop inserts for byte i: `0x` and two hexadecimal digits, then `, ` unless it
      is the last byte, then a newline when it is the 16th byte of its line. */
  function ByteEntry(bin: CString, i: nat): seq<string>
    requires i < |bin|
  {
    EntryPieces(Hex2(MaskedByte(bin[i])), i + 1 < |bin|, (i + 1) % 16 == 0)
  }

  /** The separators after byte i: `, ` unless it is the last, a newline after every 16th. */
  function SeparatorText(i: nat, n: nat): string
  {
    (if i + 1 < n then ", " else "") + (if (i + 1) % 16 == 0 then "\n" else "")
  }

  /** The line counter of the byte loop, reset when it reaches 16, is the index modulo 16. */
  lemma {:induction false} LineCounterStep(i: nat, cnt: nat)
    requires cnt == i % 16
    ensures (cnt + 1 == 16) == ((i + 1) % 16 == 0)
    ensures (if cnt + 1 == 16 then 0 else cnt + 1) == (i + 1) % 16
  {
  }

  /** The entries of bytes i, i+1, ... of the executable, in order. */
  function ArrayEntriesFrom(bin: CString, i: nat): seq<string>
    requires i <= |bin|
    decreases |bin| - i
  {
    if i == |bin| then [] else ByteEntry(bin, i) + ArrayEntriesFrom(bin, i + 1)
  }

  /** All entries of the byte array. */
  function ArrayEntries(bin: CString): seq<string>
  {
    ArrayEntriesFrom(bin, 0)
  }

  /** How a C compiler reads the initialiser list back: entries `0xHH`, each followed by an
      optional `, ` and an optional line break. None when the text is not such a list. */
  function ParseEntries(t: string): (r: Option<seq<Byte>>)
    decreases |t|
  {
    if t == "" then Some([])
    else if |t| >= 4 && t[0] == '0' && t[1] == 'x' && IsHexDigit(t[2]) && IsHexDigit(t[3]) then
      var b := HexPairValue(t[2..4]);
      var rest := t[4..];
      var afterComma := if |rest| >= 2 && rest[0] == ',' && rest[1] == ' ' then rest[2..] else rest;
      var afterBreak := if |afterComma| >= 1 && afterComma[0] == '\n' then afterComma[1..] else afterComma;
      match ParseEntries(afterBreak)
      case Some(bs) => Some([b] + bs)
      case None => None
    else None
  }

  /** Skipping the separators the loop prints leaves exactly the text after them. */
  lemma {:induction false} SkipSeparators(i: nat, n: nat, next: string)
    requires next == "" || next[0] == '0'
    ensures var rest := SeparatorText(i, n) + next;
            var afterComma := if |rest| >= 2 && rest[0] == ',' && rest[1] == ' ' then rest[2..] else rest;
            (if |afterComma| >= 1 && afterComma[0] == '\n' then afterComma[1..] else afterComma) == next
  {
    var comma := if i + 1 < n then ", " else "";
    var lineBreak := if (i + 1) % 16 == 0 then "\n" else "";
    StringAppendAssociative(comma, lineBreak, next);
    var rest := comma + (lineBreak + next);
    if i + 1 < n {
      assert rest[2..] == lineBreak + next;
    }
  }

  /** One entry in front of a list that is empty or starts with another entry. */
  lemma {:induction false} ParseEntryStep(h: string, sep: string, next: string, bs: seq<Byte>)
    requires |h| == 2 && IsHexDigit(h[0]) && IsHexDigit(h[1])
    requires ParseEntries(next) == Some(bs)
    requires var rest := sep + next;
             var afterComma := if |rest| >= 2 && rest[0] == ',' && rest[1] == ' ' then rest[2..] else rest;
             (if |afterComma| >= 1 && afterComma[0] == '\n' then afterComma[1..] else afterComma) == next
    ensures ParseEntries("0x" + h + sep + next) == Some([HexPairValue(h)] + bs)
  {
    var t := "0x" + h + sep + next;
    assert t[2..4] == h;
    assert t[4..] == sep + next;
  }

  /** The text of one entry: `0x`, the digits and the chosen separators. */
  lemma {:induction false} RenderEntryPieces(h: string, comma: bool, lineBreak: bool)
    ensures Render(EntryPieces(h, comma, lineBreak))
            == "0x" + h + ((if comma then ", " else "") + (if lineBreak then "\n" else ""))
  {
    var p1: seq<string> := [HEX_PREFIX];
    assert [] + [HEX_PREFIX] == p1;
    RenderSnoc([], HEX_PREFIX);
    var p2 := p1 + [h];
    RenderSnoc(p1, h);
    var p3 := if comma then p2 + [SEPARATOR] else p2;
    if comma {
      RenderSnoc(p2, SEPARATOR);
    }
    var p4 := if lineBreak then p3 + [NEWLINE] else p3;
    if lineBreak {
      RenderSnoc(p3, NEWLINE);
    }
    assert EntryPieces(h, comma, lineBreak) == p4;
    StringAppendAssociative("0x" + h, if comma then ", " else "", if lineBreak then "\n" else "");
  }

  /** An entry with the separators the loop prints after byte i, in front of a list that is
      empty or starts with another entry. */
  lemma {:induction false} ParseEntryText(h: string, i: nat, n: nat, next: string, bs: seq<Byte>)
    requires |h| == 2 && IsHexDigit(h[0]) && IsHexDigit(h[1])
    requires ParseEntries(next) == Some(bs)
    requires next == "" || next[0] == '0'
    ensures ParseEntries("0x" + h + SeparatorText(i, n) + next) == Some([HexPairValue(h)] + bs)
  {
    SkipSeparators(i, n, next);
    ParseEntryStep(h, SeparatorText(i, n), next, bs);
  }

  /** The entry of byte b reads back as b. */
  lemma {:induction false} ParseByteEntryText(b: Byte, i: nat, n: nat, next: string, bs: seq<Byte>)
    requires ParseEntries(next) == Some(bs)
    requires next == "" || next[0] == '0'
    ensures ParseEntries("0x" + Hex2(b) + SeparatorText(i, n) + next) == Some([b] + bs)
  {
    Hex2RoundTrip(b);
    ParseEntryText(Hex2(b), i, n, next, bs);
  }

  lemma {:induction false} BytesOfSuffix(s: CString, i: nat)
    requires i < |s|
    ensures BytesOf(s)[i..] == [MaskedByte(s[i])] + BytesOf(s)[i + 1..]
  {
  }

  /** One entry renders as `0x`, its two digits, and its separators. */
  lemma {:induction false} RenderByteEntry(bin: CString, i: nat)
    requires i < |bin|
    ensures Render(ByteEntry(bin, i)) == "0x" + Hex2(MaskedByte(bin[i])) + SeparatorText(i, |bin|)
  {
    RenderEntryPieces(Hex2(MaskedByte(bin[i])), i + 1 < |bin|, (i + 1) % 16 == 0);
  }

  /** The entries from byte i on render as text that is empty or starts with `0`. */
  lemma {:induction false} EntriesStart(bin: CString, i: nat)
    requires i <= |bin|
    ensures var t := Render(ArrayEntriesFrom(bin, i));
            if i == |bin| then t == "" else |t| >= 1 && t[0] == '0'
  {
    if i < |bin| {
      RenderAppend(ByteEntry(bin, i), ArrayEntriesFrom(bin, i + 1));
      RenderByteEntry(bin, i);
    }
  }

  /** The printed array denotes exactly the executable's bytes (from byte i on). */
  lemma {:induction false} ParseArrayEntries(bin: CString, i: nat)
    requires i <= |bin|
    ensures ParseEntries(Render(ArrayEntriesFrom(bin, i))) == Some(BytesOf(bin)[i..])
    decreases |bin| - i
  {
    if i < |bin| {
      var b := MaskedByte(bin[i]);
      var entry := ByteEntry(bin, i);
      var rest := ArrayEntriesFrom(bin, i + 1);
      assert ArrayEntriesFrom(bin, i) == entry + rest;
      RenderAppend(entry, rest);
      RenderByteEntry(bin, i);
      EntriesStart(bin, i + 1);
      ParseArrayEntries(bin, i + 1);
      ParseByteEntryText(b, i, |bin|, Render(rest), BytesOf(bin)[i + 1..]);
      BytesOfSuffix(bin, i);
    } else {
      assert BytesOf(bin)[i..] == [];
    }
  }

  /** How `code_ << n` prints a size: in decimal, or in hexadecimal once `std::hex` has been
      set on the stream (the flag stays set after the byte array has been printed). */
  function SizeText(n: nat, hexBase: bool): string
  {
    if hexBase then Hex(n) else Decimal(n)
  }

  /** The stream after the declaration of `gbin`: a sized, initialised byte array, or an
      external pointer for X2 targets. */
  function GbinAppended(ps: seq<string>, bin: CString, target: CString, hexBase: bool): seq<string>
  {
    if !IsX2Target(target) then
      ps + [GBIN_ARRAY_OPEN] + [SizeText(|bin|, hexBase)] + [GBIN_SIZE_CLOSE]
      + ArrayEntries(bin) + [GBIN_ARRAY_CLOSE]
    else
      ps + [GBIN_EXTERN]
  }

  /** The text of the declaration of `gbin`. */
  function GbinText(bin: CString, target: CString, hexBase: bool): string
  {
    if !IsX2Target(target) then
      "uint8_t gbin[" + SizeText(|bin|, hexBase) + "] = {\n" + Render(ArrayEntries(bin)) + "};\n"
    else
      "extern void* gbin;\n"
  }

  /** The declaration adds its text after whatever the stream held. */
  lemma {:induction false} RenderGbinAppended(ps: seq<string>, bin: CString, target: CString, hexBase: bool)
    ensures Render(GbinAppended(ps, bin, target, hexBase))
            == Render(ps) + GbinText(bin, target, hexBase)
  {
    var r := Render(ps);
    if !IsX2Target(target) {
      var size := SizeText(|bin|, hexBase);
      var arr := ArrayEntries(bin);
      var p1 := ps + [GBIN_ARRAY_OPEN];
      var p2 := p1 + [size];
      var p3 := p2 + [GBIN_SIZE_CLOSE];
      var p4 := p3 + arr;
      RenderSnoc(ps, GBIN_ARRAY_OPEN);
      RenderSnoc(p1, size);
      RenderSnoc(p2, GBIN_SIZE_CLOSE);
      RenderAppend(p3, arr);
      RenderSnoc(p4, GBIN_ARRAY_CLOSE);
      var t := "uint8_t gbin[";
      StringAppendAssociative(r, t, size);
      t := t + size;
      StringAppendAssociative(r, t, "] = {\n");
      t := t + "] = {\n";
      StringAppendAssociative(r, t, Render(arr));
      t := t + Render(arr);
      StringAppendAssociative(r, t, "};\n");
    } else {
      RenderSnoc(ps, GBIN_EXTERN);
    }
  }

  /** A fresh module declares, for every target but X2, an array of exactly as many bytes as
      the executable has, its size printed in decimal, initialised with exactly the
      executable's bytes. */
  lemma {:induction false} GbinArrayDenotesExecutable(bin: CString, target: CString)
    requires !IsX2Target(target)
    ensures GbinText(bin, target, false)
            == "uint8_t gbin[" + Decimal(|bin|) + "] = {\n" + Render(ArrayEntries(bin)) + "};\n"
    ensures AllDecimalDigits(Decimal(|bin|)) && DecimalValue(Decimal(|bin|)) == |bin|
    ensures ParseEntries(Render(ArrayEntries(bin))) == Some(BytesOf(bin))
  {
    DecimalRoundTrip(|bin|);
    ParseArrayEntries(bin, 0);
  }

  /** The stream after the wrapper function `TVM_DLL int32_t <func_name>(...) { ... }`. */
  function WrapperAppended(ps: seq<string>, funcName: CString): seq<string>
  {
    ps + [WRAPPER_SIGNATURE] + [TextOf(funcName)] + [WRAPPER_PARAMS]
    + [DECLARE_GRAPH_INFO] + [DECLARE_RESULT] + [SET_GRAPH_ADDR] + [SET_INPUT_ADDR]
    + [SET_OUTPUT_ADDR] + [SET_RUN_TIMES] + [SET_OUTPUT_TYPE] + [START_GRAPH]
    + [RETURN_STATUS] + [CLOSE_BRACE]
  }

  /** The text of the wrapper after the function name. */
  function WrapperBodyText(): string
  {
    WRAPPER_PARAMS + DECLARE_GRAPH_INFO + DECLARE_RESULT
    + SET_GRAPH_ADDR + SET_INPUT_ADDR + SET_OUTPUT_ADDR
    + SET_RUN_TIMES + SET_OUTPUT_TYPE + START_GRAPH
    + RETURN_STATUS + CLOSE_BRACE
  }

  /** The wrapper adds the signature, the function name and the body after whatever the
      stream held. */
  lemma {:induction false} RenderWrapperAppended(ps: seq<string>, funcName: CString)
    ensures Render(WrapperAppended(ps, funcName))
            == Render(ps) + "TVM_DLL int32_t " + TextOf(funcName) + WrapperBodyText()
  {
    var p := ps + [WRAPPER_SIGNATURE];
    RenderSnoc(ps, WRAPPER_SIGNATURE);
    RenderSnoc(p, TextOf(funcName));
    p := p + [TextOf(funcName)];
    var r := Render(p);
    assert r == Render(ps) + "TVM_DLL int32_t " + TextOf(funcName);
    var t := "";
    RenderSnoc(p, WRAPPER_PARAMS);
    p := p + [WRAPPER_PARAMS];
    t := WRAPPER_PARAMS;
    RenderSnoc(p, DECLARE_GRAPH_INFO);
    StringAppendAssociative(r, t, DECLARE_GRAPH_INFO);
    p := p + [DECLARE_GRAPH_INFO];
    t := t + DECLARE_GRAPH_INFO;
    RenderSnoc(p, DECLARE_RESULT);
    StringAppendAssociative(r, t, DECLARE_RESULT);
    p := p + [DECLARE_RESULT];
    t := t + DECLARE_RESULT;
    RenderSnoc(p, SET_GRAPH_ADDR);
    StringAppendAssociative(r, t, SET_GRAPH_ADDR);
    p := p + [SET_GRAPH_ADDR];
    t := t + SET_GRAPH_ADDR;
    RenderSnoc(p, SET_INPUT_ADDR);
    StringAppendAssociative(r, t, SET_INPUT_ADDR);
    p := p + [SET_INPUT_ADDR];
    t := t + SET_INPUT_ADDR;
    RenderSnoc(p, SET_OUTPUT_ADDR);
    StringAppendAssociative(r, t, SET_OUTPUT_ADDR);
    p := p + [SET_OUTPUT_ADDR];
    t := t + SET_OUTPUT_ADDR;
    RenderSnoc(p, SET_RUN_TIMES);
    StringAppendAssociative(r, t, SET_RUN_TIMES);
    p := p + [SET_RUN_TIMES];
    t := t + SET_RUN_TIMES;
    RenderSnoc(p, SET_OUTPUT_TYPE);
    StringAppendAssociative(r, t, SET_OUTPUT_TYPE);
    p := p + [SET_OUTPUT_TYPE];
    t := t + SET_OUTPUT_TYPE;
    RenderSnoc(p, START_GRAPH);
    StringAppendAssociative(r, t, START_GRAPH);
    p := p + [START_GRAPH];
    t := t + START_GRAPH;
    RenderSnoc(p, RETURN_STATUS);
    StringAppendAssociative(r, t, RETURN_STATUS);
    p := p + [RETURN_STATUS];
    t := t + RETURN_STATUS;
    RenderSnoc(p, CLOSE_BRACE);
    StringAppendAssociative(r, t, CLOSE_BRACE);
    p := p + [CLOSE_BRACE];
    t := t + CLOSE_BRACE;
  }

  /** The stream after one run of GenerateCode on a stream holding `ps`. */
  function CodeAppended(ps: seq<string>, bin: CString, funcName: CString, target: CString,
                        hexBase: bool): seq<string>
  {
    WrapperAppended(GbinAppended(HeaderAppended(ps), bin, target, hexBase), funcName)
  }

  /** The code text a fresh module generates. */
  function GeneratedCode(bin: CString, funcName: CString, target: CString): string
  {
    Render(CodeAppended([], bin, funcName, target, false))
  }

  /** The generated code of a fresh module is the header, the declaration of `gbin` and the
      wrapper named after the function, in this order. */
  lemma {:induction false} GeneratedCodeLayout(bin: CString, funcName: CString, target: CString)
    ensures GeneratedCode(bin, funcName, target)
            == HeaderText() + GbinText(bin, target, false)
               + "TVM_DLL int32_t " + TextOf(funcName) + WrapperBodyText()
  {
    var h := HeaderAppended([]);
    var g := GbinAppended(h, bin, target, false);
    RenderHeaderAppended([]);
    RenderGbinAppended(h, bin, target, false);
    RenderWrapperAppended(g, funcName);
    assert Render(h) == HeaderText();
  }

  /** A freshly created module always has code to save: its text is never empty. */
  lemma {:induction false} FreshCodeNonEmpty(bin: CString, name: CString, target: CString)
    ensures |GeneratedCode(bin, name, target)| > 0
  {
    GeneratedCodeLayout(bin, name, target);
  }

  /** Equal texts with the same prefix and suffix have the same middle. */
  lemma {:induction false} SameFrameSameMiddle(p: string, m: string, m': string, q: string)
    requires p + m + q == p + m' + q
    ensures m == m'
  {
    var t := p + m + q;
    assert |m| == |m'|;
    assert m == t[|p|..|p| + |m|];
    assert m' == (p + m' + q)[|p|..|p| + |m'|];
  }

  /** For X2 targets the executable does not enter the code at all, and two modules generate
      the same code exactly when their function names are equal. */
  lemma {:induction false} X2CodeDeterminesName(bin: CString, bin': CString, name: CString, name': CString,
                             target: CString)
    requires IsX2Target(target)
    ensures GeneratedCode(bin, name, target) == GeneratedCode(bin', name, target)
    ensures GeneratedCode(bin, name, target) == GeneratedCode(bin', name', target)
            <==> name == name'
  {
    GeneratedCodeLayout(bin, name, target);
    GeneratedCodeLayout(bin', name', target);
    GeneratedCodeLayout(bin', name, target);
    var prefix := HeaderText() + GbinText(bin, target, false) + "TVM_DLL int32_t ";
    assert GbinText(bin', target, false) == GbinText(bin, target, false);
    if GeneratedCode(bin, name, target) == GeneratedCode(bin', name', target) {
      SameFrameSameMiddle(prefix, TextOf(name), TextOf(name'), WrapperBodyText());
      TextOfInjective(name, name');
    }
  }

  /** A file that SaveToFile writes: the generated code as text, or a string's raw bytes. */
  datatype FileWrite =
    | CodeFile(path: CString, text: string)
    | BinaryFile(path: CString, data: CString)

  datatype SaveError = FormatNotC | EmptyCode

  /** The directory part of a path: everything before its last '/', None without a '/'. */
  function DirOf(path: CString): Option<CString>
  {
    match LastIndexOf(path, SLASH)
    case Some(k) => Some(path[..k])
    case None => None
  }

  /** The path SaveToFile writes `aipu.bin` to, as the source computes it: the position from
      `rfind("/")` is stored in an `int` (`npos` becomes -1), and `substr(0, ...)` converts it
      back to `size_t`, so -1 keeps the whole file name. */
  function AipuBinPathAsWritten(fileName: CString): (r: CString)
    ensures |AIPU_BIN_NAME| < |r| <= |fileName| + 1 + |AIPU_BIN_NAME|
    ensures r[|r| - |AIPU_BIN_NAME| - 1..] == [SLASH] + AIPU_BIN_NAME
    ensures r[..|r| - |AIPU_BIN_NAME| - 1] == fileName[..|r| - |AIPU_BIN_NAME| - 1]
  {
    var lastSlash: Int32 := match LastIndexOf(fileName, SLASH)
                            case Some(k) => WrapInt32(k)
                            case None => -1;
    Substr(fileName, 0, ToSizeT(lastSlash)) + [SLASH] + AIPU_BIN_NAME
  }

  /** The path SaveToFile is meant to write `aipu.bin` to: `aipu.bin` in the directory of the
      generated C file, that is, in the current directory when the file name has no '/'. */
  function AipuBinPath(fileName: CString): CString
  {
    match LastIndexOf(fileName, SLASH)
    case Some(k) => fileName[..k] + [SLASH] + AIPU_BIN_NAME
    case None => AIPU_BIN_NAME
  }

  /** The corrected path puts `aipu.bin` in the code file's directory: both have the same
      directory part, and the base name is `aipu.bin`. */
  lemma {:induction false} AipuBinPathBesideCode(fileName: CString)
    ensures DirOf(AipuBinPath(fileName)) == DirOf(fileName)
    ensures var p := AipuBinPath(fileName);
            |p| >= |AIPU_BIN_NAME| && p[|p| - |AIPU_BIN_NAME|..] == AIPU_BIN_NAME
  {
    var p := AipuBinPath(fileName);
    match LastIndexOf(fileName, SLASH)
    case Some(k) =>
      assert p == fileName[..k] + [SLASH] + AIPU_BIN_NAME;
      assert p[k] == SLASH;
      assert forall j :: k < j < |p| ==> p[j] == AIPU_BIN_NAME[j - k - 1];
      assert p[..k] == fileName[..k];
    case None =>
      assert p == AIPU_BIN_NAME;
      assert forall j :: 0 <= j < |p| ==> p[j] != SLASH;
  }

  /** As written, a path with a '/' yields the intended path, and one without a '/' yields
      the file name itself used as a directory. */
  lemma {:induction false} AipuBinPathAsWrittenCases(fileName: CString)
    requires |fileName| <= INT32_MAX
    ensures DirOf(fileName).Some? ==> AipuBinPathAsWritten(fileName) == AipuBinPath(fileName)
    ensures DirOf(fileName).None? ==>
              AipuBinPathAsWritten(fileName) == fileName + [SLASH] + AIPU_BIN_NAME
  {
    match LastIndexOf(fileName, SLASH)
    case Some(k) =>
      assert WrapInt32(k) == k;
      assert Substr(fileName, 0, k) == fileName[..k];
    case None =>
      assert Substr(fileName, 0, ToSizeT(-1)) == fileName;
  }

  /** The file name `m.c` (no directory) shows the discrepancy: the source writes to
      `m.c/aipu.bin`, a path inside a directory that does not exist, instead of `aipu.bin`. */
  lemma {:induction false} AipuBinPathAsWrittenCounterexample()
    ensures AipuBinPathAsWritten([109, 46, 99])
            == [109, 46, 99, SLASH] + AIPU_BIN_NAME
    ensures AipuBinPath([109, 46, 99]) == AIPU_BIN_NAME
    ensures AipuBinPathAsWritten([109, 46, 99]) != AipuBinPath([109, 46, 99])
  {
    var f: CString := [109, 46, 99];
    assert LastIndexOf(f, SLASH) == None;
    AipuBinPathAsWrittenCases(f);
  }

  /** A bare-metal module: the executable, the function name, the target, and the code stream
      that Init fills. */
  class AipuBmModuleNode {
    var aipuBin: CString
    var funcName: CString
    var target: CString
    /** What has been inserted into the `code_` string stream. */
    var code: seq<string>
    /** Whether `std::hex` has been set on `code_`. */
    var hexBase: bool

    /** `code_.str()`. */
    function CodeText(): string
      reads this
    {
      Render(code)
    }

    /** The registered creator `aipu_compass.AipuBmModuleNode`: copies the three fields, then
        runs Init, which generates the code once. */
    constructor (bin: CString, name: CString, tgt: CString)
      ensures aipuBin == bin && funcName == name && target == tgt
      ensures CodeText() == GeneratedCode(bin, name, tgt)
      ensures hexBase == !IsX2Target(tgt)
    {
      aipuBin := bin;
      funcName := name;
      target := tgt;
      code := [];
      hexBase := false;
      new;
      GenerateCode();
    }

    /** Appends the C source of the module to the code stream. */
    method GenerateCode()
      modifies this`code, this`hexBase
      ensures code == CodeAppended(old(code), aipuBin, funcName, target, old(hexBase))
      ensures hexBase == (old(hexBase) || !IsX2Target(target))
    {
      AppendHeader();
      AppendGbin();
      AppendWrapper();
    }

    /** The six fixed lines that open the file. */
    method AppendHeader()
      modifies this`code
      ensures code == HeaderAppended(old(code))
    {
      code := code + [INCLUDE_RUNTIME_API];
      code := code + [INCLUDE_BACKEND_API];
      code := code + [INCLUDE_DRIVER_WRAPPER];
      code := code + [IFDEF_CPLUSPLUS];
      code := code + [EXTERN_C];
      code := code + [ENDIF];
    }

    /** The declaration of `gbin`: for targets other than X2 the size (printed in the base the
        stream is in), then the bytes in hexadecimal, which leaves `std::hex` set. */
    method AppendGbin()
      modifies this`code, this`hexBase
      ensures code == GbinAppended(old(code), aipuBin, target, old(hexBase))
      ensures hexBase == (old(hexBase) || !IsX2Target(target))
    {
      var targetPrefix := Substr(target, 0, 2);

      if targetPrefix != X2_PREFIX {
        code := code + [GBIN_ARRAY_OPEN] + [SizeText(|aipuBin|, hexBase)]
                + [GBIN_SIZE_CLOSE];
        hexBase := true;
        AppendArrayEntries();
        code := code + [GBIN_ARRAY_CLOSE];
      }

      if targetPrefix == X2_PREFIX {
        code := code + [GBIN_EXTERN];
      }
    }

    /** The wrapper function named after the original function. */
    method AppendWrapper()
      modifies this`code
      ensures code == WrapperAppended(old(code), funcName)
    {
      code := code + [WRAPPER_SIGNATURE] + [TextOf(funcName)];
      code := code + [WRAPPER_PARAMS];
      code := code + [DECLARE_GRAPH_INFO];
      code := code + [DECLARE_RESULT];
      code := code + [SET_GRAPH_ADDR];
      code := code + [SET_INPUT_ADDR];
      code := code + [SET_OUTPUT_ADDR];
      code := code + [SET_RUN_TIMES];
      code := code + [SET_OUTPUT_TYPE];
      code := code + [START_GRAPH];
      code := code + [RETURN_STATUS];
      code := code + [CLOSE_BRACE];
    }

    /** The loop of GenerateCode over the executable's bytes, with the counter `cnt` of
        entries on the current line. */
    method AppendArrayEntries()
      modifies this`code
      ensures code == old(code) + ArrayEntries(aipuBin)
    {
      ghost var arrayStart := code;
      var bin := aipuBin;
      var cnt := 0;
      var i := 0;
      while i < |bin|
        invariant 0 <= i <= |bin|
        invariant cnt == i % 16
        invariant code + ArrayEntriesFrom(bin, i) == arrayStart + ArrayEntries(bin)
      {
        ghost var entryStart := code;
        ghost var rest := ArrayEntriesFrom(bin, i + 1);
        var entry := [HEX_PREFIX] + [Hex2(MaskedByte(bin[i]))];
        LineCounterStep(i, cnt);
        i := i + 1;
        if i != |bin| {
          entry := entry + [SEPARATOR];
        }
        cnt := cnt + 1;
        if cnt == 16 {
          entry := entry + [NEWLINE];
          cnt := 0;
        }
        assert entry == ByteEntry(bin, i - 1);
        code := code + entry;
        assert code + rest == entryStart + (entry + rest);
      }
    }

    /** SaveToFile: the file format (as `GetFileFormat` determines it from the name and the
        requested format) must be "c" and the code non-empty; the code goes to `fileName`, and
        for X2 targets the executable goes to the path `AipuBinPathAsWritten` computes, which
        is `aipu.bin` beside the code when the name has a '/' and `<fileName>/aipu.bin`
        otherwise. */
    method SaveToFile(fileName: CString, fileFormat: CString) returns (r: Result<seq<FileWrite>, SaveError>)
      ensures fileFormat != C_FORMAT ==> r == Err(FormatNotC)
      ensures fileFormat == C_FORMAT && CodeText() == "" ==> r == Err(EmptyCode)
      ensures fileFormat == C_FORMAT && CodeText() != "" ==> r.Ok?
      ensures r.Ok? ==> |r.value| >= 1 && r.value[0] == CodeFile(fileName, CodeText())
      ensures r.Ok? && !IsX2Target(target) ==> |r.value| == 1
      ensures r.Ok? && IsX2Target(target) ==>
                |r.value| == 2 && r.value[1] == BinaryFile(AipuBinPathAsWritten(fileName), aipuBin)
    {
      if fileFormat != C_FORMAT {
        return Err(FormatNotC);
      }
      var codeStr := Render(code);
      if |codeStr| == 0 {
        return Err(EmptyCode);
      }
      var writes := [CodeFile(fileName, codeStr)];
      var targetPrefix := Substr(target, 0, 2);
      if targetPrefix == X2_PREFIX {
        writes := writes + [BinaryFile(AipuBinPathAsWritten(fileName), aipuBin)];
      }
      r := Ok(writes);
    }

    /** GetFunction: only `get_func_names` is provided; it returns the one function name. */
    method GetFuncNames(name: string) returns (r: Option<seq<CString>>)
      ensures r.Some? <==> name == "get_func_names"
      ensures r.Some? ==> r.value == [funcName]
    {
      if name == "get_func_names" {
        r := Some([funcName]);
      } else {
        r := None;
      }
    }
  }
}
