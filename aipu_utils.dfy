/** The AIPU Python utilities: vector data types against the 256-bit native vector width, the
    product of constant extents, target canonicalisation, the error check on the logs of the
    AIPU tools, the valid RPC key list and the value ranges of integer data types. */
module AipuUtils {
  import opened Common
  import opened CText

  /** Width of a native AIPU vector register in bits. */
  const NATIVE_VECTOR_BITS: nat := 256

  /** The Python exceptions these utilities raise. */
  datatype UtilError =
    | AssertionFailed
    | ZeroDivision
    | NotConstant      // ValueError of `get_const_int`
    | KeyNotFound      // KeyError of a dictionary lookup
    | IndexOutOfRange  // IndexError of `cmd[0]`
    | ToolFailed(tool: string)  // RuntimeError naming the AIPU tool

  /** Whether the total width of a vector type fits in a native vector. */
  predicate FitsNative(d: DataType)
  {
    d.bits * d.lanes <= NATIVE_VECTOR_BITS
  }

  // ---------------------------------------------------------------- vector types

  /** `vec_type`: the scalar type with `256 // bits` lanes; a zero width divides by zero. */
  function VecType(d: DataType): (r: Result<DataType, UtilError>)
    ensures r.Err? <==> d.bits == 0
    ensures r.Err? ==> r.error == ZeroDivision
    ensures r.Ok? ==> r.value.code == d.code && r.value.bits == d.bits
  {
    if d.bits == 0 then Err(ZeroDivision)
    else Ok(DataType(d.code, d.bits, NATIVE_VECTOR_BITS / d.bits))
  }

  /** The vector type fills a native vector as far as whole elements go: its lanes fit, and
      one more lane would not. */
  lemma VecTypeFillsNative(d: DataType)
    requires d.bits > 0
    ensures FitsNative(VecType(d).value)
    ensures (VecType(d).value.lanes + 1) * d.bits > NATIVE_VECTOR_BITS
  {
  }

  /** `double_elem_width`: a 32-bit type without `allow_64bit` is returned as it is;
      otherwise the width doubles and the lanes are kept unless that overflows the native
      vector, in which case they are halved. */
  function DoubleElemWidth(d: DataType, allow64Bit: bool): (r: DataType)
    ensures r.code == d.code
    ensures !allow64Bit && d.bits == 32 ==> r == d
    ensures (allow64Bit || d.bits != 32) ==>
              r.bits == 2 * d.bits
              && r.lanes == (if 2 * d.bits * d.lanes > NATIVE_VECTOR_BITS then d.lanes / 2
                             else d.lanes)
  {
    if !allow64Bit && d.bits == 32 then d
    else
      var newBits := d.bits * 2;
      var newLanes := if newBits * d.lanes > NATIVE_VECTOR_BITS then d.lanes / 2 else d.lanes;
      DataType(d.code, newBits, newLanes)
  }

  /** `half_elem_width`: asserts a width of at least 8, halves it, and doubles the lanes when
      `double_lanes` (the default) is set. */
  function HalfElemWidth(d: DataType, doubleLanes: bool): (r: Result<DataType, UtilError>)
    ensures r.Err? <==> d.bits < 8
    ensures r.Err? ==> r.error == AssertionFailed
    ensures r.Ok? ==> r.value.code == d.code && r.value.bits == d.bits / 2
                      && r.value.lanes == (if doubleLanes then 2 * d.lanes else d.lanes)
  {
    if d.bits < 8 then Err(AssertionFailed)
    else
      var newLanes := if doubleLanes then d.lanes * 2 else d.lanes;
      Ok(DataType(d.code, d.bits / 2, newLanes))
  }

  /** Doubling the element width keeps a type that fits a native vector fitting, and keeps
      its total width exactly when the lane count is even or nothing had to be halved. */
  lemma {:induction false} DoubleElemWidthFits(d: DataType, allow64Bit: bool)
    requires FitsNative(d)
    ensures FitsNative(DoubleElemWidth(d, allow64Bit))
    ensures (allow64Bit || d.bits != 32) && 2 * d.bits * d.lanes > NATIVE_VECTOR_BITS
            && d.lanes % 2 == 0
            ==> DoubleElemWidth(d, allow64Bit).bits * DoubleElemWidth(d, allow64Bit).lanes
                == d.bits * d.lanes
  {
    var r := DoubleElemWidth(d, allow64Bit);
    if (allow64Bit || d.bits != 32) && 2 * d.bits * d.lanes > NATIVE_VECTOR_BITS {
      assert r.bits * r.lanes == d.bits * (2 * (d.lanes / 2));
      assert 2 * (d.lanes / 2) <= d.lanes;
      MulMonotone(d.bits, 2 * (d.lanes / 2), d.lanes);
    }
  }

  lemma MulMonotone(a: nat, b: nat, c: nat)
    requires b <= c
    ensures a * b <= a * c
  {
  }

  /** Halving the width undoes doubling it: without lanes doubled when the lanes were kept,
      with lanes doubled when an even lane count was halved. */
  lemma {:induction false} HalfUndoesDouble(d: DataType, allow64Bit: bool)
    requires allow64Bit || d.bits != 32
    ensures var w := DoubleElemWidth(d, allow64Bit);
            2 * d.bits * d.lanes <= NATIVE_VECTOR_BITS && d.bits >= 4
            ==> HalfElemWidth(w, false) == Ok(d)
    ensures var w := DoubleElemWidth(d, allow64Bit);
            2 * d.bits * d.lanes > NATIVE_VECTOR_BITS && d.lanes % 2 == 0 && d.bits >= 4
            ==> HalfElemWidth(w, true) == Ok(d)
  {
  }

  /** The two examples the source gives: u8x8 doubles to u16x8, and u16x8 halves to u8x8
      when the lanes are not doubled. */
  lemma ElemWidthExamples()
    ensures DoubleElemWidth(DataType(UInt, 8, 8), false) == DataType(UInt, 16, 8)
    ensures HalfElemWidth(DataType(UInt, 16, 8), false) == Ok(DataType(UInt, 8, 8))
    ensures DoubleElemWidth(DataType(Int, 8, 32), false) == DataType(Int, 16, 16)
    ensures DoubleElemWidth(DataType(Float, 32, 8), false) == DataType(Float, 32, 8)
  {
  }

  // ---------------------------------------------------------------- prod_const

  /** A TIR expression as `get_const_int` sees it: an integer immediate, or anything that
      does not simplify to one. */
  datatype PrimExpr = IntImm(value: int) | Symbolic

  /** An element of the sequence given to `prod_const`: an expression, or an iteration
      variable whose domain extent is taken instead. */
  datatype Extent = Expr(e: PrimExpr) | IterVar(domExtent: PrimExpr)

  function ExtentExpr(x: Extent): PrimExpr
  {
    match x
    case Expr(e) => e
    case IterVar(e) => e
  }

  predicate AllConst(arr: seq<Extent>)
  {
    forall i :: 0 <= i < |arr| ==> ExtentExpr(arr[i]).IntImm?
  }

  /** The constants of a sequence whose extents are all constant. */
  function ConstValues(arr: seq<Extent>): (r: seq<int>)
    requires AllConst(arr)
    ensures |r| == |arr| && forall i :: 0 <= i < |arr| ==> r[i] == ExtentExpr(arr[i]).value
  {
    if arr == [] then [] else ConstValues(arr[..|arr| - 1]) + [ExtentExpr(arr[|arr| - 1]).value]
  }

  /** `functools.reduce(operator.mul, xs, 1)`: the left fold of multiplication from 1. */
  function Product(xs: seq<int>): int
  {
    if xs == [] then 1 else Product(xs[..|xs| - 1]) * xs[|xs| - 1]
  }

  /** The product of a concatenation is the product of the products. */
  lemma {:induction false} ProductAppend(a: seq<int>, b: seq<int>)
    ensures Product(a + b) == Product(a) * Product(b)
    decreases |b|
  {
    if b != [] {
      var b' := b[..|b| - 1];
      var last := b[|b| - 1];
      assert (a + b)[..|a + b| - 1] == a + b' && (a + b)[|a + b| - 1] == last;
      ProductAppend(a, b');
      MulAssociative(Product(a), Product(b'), last);
    } else {
      assert a + b == a;
    }
  }

  lemma MulAssociative(x: int, y: int, z: int)
    ensures x * y * z == x * (y * z)
  {
  }

  /** The product is zero exactly when one of the factors is. */
  lemma {:induction false} ProductZero(xs: seq<int>)
    ensures Product(xs) == 0 <==> exists i :: 0 <= i < |xs| && xs[i] == 0
  {
    if xs != [] {
      var init := xs[..|xs| - 1];
      ProductZero(init);
      if exists i :: 0 <= i < |init| && init[i] == 0 {
        var i :| 0 <= i < |init| && init[i] == 0;
        assert xs[i] == 0;
      }
      if exists i :: 0 <= i < |xs| && xs[i] == 0 {
        var i :| 0 <= i < |xs| && xs[i] == 0;
        if i < |init| {
          assert init[i] == 0;
        }
      }
    }
  }

  /** `prod_const`: collects the constant of every element (an iteration variable
      contributes its extent) and multiplies them, starting from 1. */
  method ProdConst(arr: seq<Extent>) returns (r: Result<int, UtilError>)
    ensures r.Ok? <==> AllConst(arr)
    ensures r.Err? ==> r.error == NotConstant
    ensures r.Ok? ==> r.value == Product(ConstValues(arr))
  {
    var constArr: seq<int> := [];
    var i := 0;
    while i < |arr|
      invariant 0 <= i <= |arr| && AllConst(arr[..i])
      invariant constArr == ConstValues(arr[..i])
    {
      var x := ExtentExpr(arr[i]);
      if x.Symbolic? {
        assert !ExtentExpr(arr[i]).IntImm?;
        return Err(NotConstant);
      }
      assert arr[..i + 1][..i] == arr[..i];
      constArr := constArr + [x.value];
      i := i + 1;
    }
    assert arr[..i] == arr;
    var acc := 1;
    var j := 0;
    while j < |constArr|
      invariant 0 <= j <= |constArr|
      invariant acc == Product(constArr[..j])
    {
      assert constArr[..j + 1][..j] == constArr[..j];
      acc := acc * constArr[j];
      j := j + 1;
    }
    assert constArr[..j] == constArr;
    return Ok(acc);
  }

  // ---------------------------------------------------------------- canonicalize_target

  /** What `canonicalize_target` is given: a target object (kept with its description), a
      string, or a value of another type. */
  datatype TargetArg = TargetObject(desc: string) | TargetString(s: string) | OtherValue

  const AIPU_PREFIX: string := "aipu"
  const MCPU_PREFIX: string := "aipu -mcpu="

  predicate StartsWith(s: string, p: string)
  {
    |p| <= |s| && s[..|p|] == p
  }

  /** `canonicalize_target`: a target is returned as it is; a string not starting with
      `aipu` is taken as a CPU name and prefixed with `aipu -mcpu=`; anything else fails the
      type assertion. The target description is what `tvm.target.Target` receives. */
  function CanonicalizeTarget(t: TargetArg): (r: Result<TargetArg, UtilError>)
    ensures t.OtherValue? <==> r.Err?
    ensures r.Ok? ==> r.value.TargetObject?
    ensures t.TargetObject? ==> r == Ok(t)
  {
    match t
    case TargetObject(_) => Ok(t)
    case TargetString(s) =>
      if StartsWith(s, AIPU_PREFIX) then Ok(TargetObject(s)) else Ok(TargetObject(MCPU_PREFIX + s))
    case OtherValue => Err(AssertionFailed)
  }

  /** A canonical string target starts with `aipu`; the string is kept exactly when it does
      already, and otherwise it follows `aipu -mcpu=`. */
  lemma CanonicalTargetIsAipu(s: string)
    ensures StartsWith(CanonicalizeTarget(TargetString(s)).value.desc, AIPU_PREFIX)
    ensures CanonicalizeTarget(TargetString(s)).value.desc == s <==> StartsWith(s, AIPU_PREFIX)
    ensures !StartsWith(s, AIPU_PREFIX) ==>
              CanonicalizeTarget(TargetString(s)).value.desc == MCPU_PREFIX + s
  {
    var r := CanonicalizeTarget(TargetString(s)).value.desc;
    if !StartsWith(s, AIPU_PREFIX) {
      assert r[..|AIPU_PREFIX|] == AIPU_PREFIX;
      assert |r| > |s|;
    }
  }

  /** Canonicalising a canonical target changes nothing: the Target it returns passes through
      a second call, and for a string, so does its description given again as a string. */
  lemma CanonicalizeIdempotent(t: TargetArg)
    ensures !t.OtherValue? ==>
              CanonicalizeTarget(CanonicalizeTarget(t).value) == CanonicalizeTarget(t)
    ensures t.TargetString? ==>
              var d := CanonicalizeTarget(t).value.desc;
              CanonicalizeTarget(TargetString(d)) == CanonicalizeTarget(t)
  {
    if t.TargetString? {
      CanonicalTargetIsAipu(t.s);
    }
  }

  // ---------------------------------------------------------------- check_call_aipu_tool

  /** The text the error pattern `(?<=Total errors: )\d+` looks behind for. */
  const ERROR_MARK: string := "Total errors: "

  /** The end of the run of decimal digits that starts at `i`. */
  function DigitRunEnd(s: string, i: nat): (e: nat)
    requires i <= |s|
    ensures i <= e <= |s| && AllDecimalDigits(s[i..e])
    ensures e < |s| ==> !IsDecimalDigit(s[e])
    decreases |s| - i
  {
    if i < |s| && IsDecimalDigit(s[i]) then
      var e := DigitRunEnd(s, i + 1);
      assert s[i..e] == [s[i]] + s[i + 1..e];
      e
    else i
  }

  /** Whether the pattern matches at position `i`: the mark ends there and a digit follows. */
  predicate MatchAt(s: string, i: nat)
  {
    |ERROR_MARK| <= i < |s| && s[i - |ERROR_MARK|..i] == ERROR_MARK && IsDecimalDigit(s[i])
  }

  /** `pattern.findall(line)` from position `i` on: the matches, left to right, each the
      longest run of digits after a mark, the search resuming where a match ends. */
  function FindAllFrom(s: string, i: nat): (r: seq<string>)
    requires i <= |s|
    ensures forall k :: 0 <= k < |r| ==> |r[k]| > 0 && AllDecimalDigits(r[k])
    decreases |s| - i
  {
    if i == |s| then []
    else if MatchAt(s, i) then
      var e := DigitRunEnd(s, i);
      [s[i..e]] + FindAllFrom(s, e)
    else FindAllFrom(s, i + 1)
  }

  function FindAll(line: string): seq<string>
  {
    FindAllFrom(line, 0)
  }

  /** `int(digit)` for each match of a line. */
  function LineCounts(line: string): (r: seq<nat>)
  {
    var ms := FindAll(line);
    seq(|ms|, k requires 0 <= k < |ms| => DecimalValue(ms[k]))
  }

  /** `ps` lists the positions from `i` on where the mark ends and a digit follows, left to
      right and not overlapping, and `FindAllFrom(s, i)` is their longest digit runs. */
  ghost predicate MatchPositions(s: string, i: nat, ps: seq<nat>)
    requires i <= |s|
  {
    && |ps| == |FindAllFrom(s, i)|
    && (forall k :: 0 <= k < |ps| ==>
          i <= ps[k] && MatchAt(s, ps[k]) && FindAllFrom(s, i)[k] == s[ps[k]..DigitRunEnd(s, ps[k])])
    && (forall k :: 0 <= k < |ps| - 1 ==> ps[k] < |s| && DigitRunEnd(s, ps[k]) <= ps[k + 1])
    && (forall j :: i <= j && MatchAt(s, j) ==> j in ps)
  }

  /** The matches `FindAllFrom(s, i)` returns are exactly the positions from `i` on where
      the mark ends and a digit follows, left to right, each taken as its longest digit run. */
  lemma {:induction false} FindAllPositions(s: string, i: nat) returns (ps: seq<nat>)
    requires i <= |s|
    ensures MatchPositions(s, i, ps)
    decreases |s| - i
  {
    if i == |s| {
      ps := [];
    } else if MatchAt(s, i) {
      var rest := FindAllPositions(s, DigitRunEnd(s, i));
      MatchPositionsMatch(s, i, rest);
      ps := [i] + rest;
    } else {
      ps := FindAllPositions(s, i + 1);
      MatchPositionsSkip(s, i, ps);
    }
  }

  /** A match at `i` comes first, before the matches after its digit run. */
  lemma {:induction false} MatchPositionsMatch(s: string, i: nat, rest: seq<nat>)
    requires i < |s| && MatchAt(s, i) && MatchPositions(s, DigitRunEnd(s, i), rest)
    ensures MatchPositions(s, i, [i] + rest)
  {
    var e := DigitRunEnd(s, i);
    assert FindAllFrom(s, i) == [s[i..e]] + FindAllFrom(s, e);
    MatchFirstRuns(s, i, rest);
    MatchFirstOrdered(s, i, rest);
    MatchFirstComplete(s, i, rest);
  }

  lemma {:induction false} MatchFirstRuns(s: string, i: nat, rest: seq<nat>)
    requires i < |s| && MatchAt(s, i) && MatchPositions(s, DigitRunEnd(s, i), rest)
    ensures forall k :: 0 <= k < 1 + |rest| ==>
              i <= ([i] + rest)[k] && MatchAt(s, ([i] + rest)[k])
              && FindAllFrom(s, i)[k] == s[([i] + rest)[k]..DigitRunEnd(s, ([i] + rest)[k])]
  {
    var e := DigitRunEnd(s, i);
    var ps := [i] + rest;
    var r, r' := FindAllFrom(s, i), FindAllFrom(s, e);
    assert r == [s[i..e]] + r';
    forall k | 0 <= k < |ps|
      ensures i <= ps[k] && MatchAt(s, ps[k]) && r[k] == s[ps[k]..DigitRunEnd(s, ps[k])]
    {
      if k > 0 {
        assert ps[k] == rest[k - 1] && r[k] == r'[k - 1];
      }
    }
  }

  lemma {:induction false} MatchFirstOrdered(s: string, i: nat, rest: seq<nat>)
    requires i < |s|
    requires forall k :: 0 <= k < |rest| ==> DigitRunEnd(s, i) <= rest[k]
    requires forall k :: 0 <= k < |rest| - 1 ==> rest[k] < |s| && DigitRunEnd(s, rest[k]) <= rest[k + 1]
    ensures forall k :: 0 <= k < |rest| ==>
              ([i] + rest)[k] < |s| && DigitRunEnd(s, ([i] + rest)[k]) <= ([i] + rest)[k + 1]
  {
    var ps := [i] + rest;
    forall k | 0 <= k < |ps| - 1
      ensures ps[k] < |s| && DigitRunEnd(s, ps[k]) <= ps[k + 1]
    {
      assert ps[k + 1] == rest[k];
      if k > 0 {
        assert ps[k] == rest[k - 1];
      }
    }
  }

  lemma {:induction false} MatchFirstComplete(s: string, i: nat, rest: seq<nat>)
    requires i < |s| && MatchAt(s, i) && MatchPositions(s, DigitRunEnd(s, i), rest)
    ensures forall j :: i <= j && MatchAt(s, j) ==> j in [i] + rest
  {
    forall j | i <= j && MatchAt(s, j)
      ensures j in [i] + rest
    {
      if j > i {
        MatchOutsideRun(s, i, j);
        assert j in rest;
      }
    }
  }

  /** No match at `i`: the positions from `i` are those from `i + 1`. */
  lemma {:induction false} MatchPositionsSkip(s: string, i: nat, ps: seq<nat>)
    requires i < |s| && !MatchAt(s, i) && MatchPositions(s, i + 1, ps)
    ensures MatchPositions(s, i, ps)
  {
    assert FindAllFrom(s, i) == FindAllFrom(s, i + 1);
    forall j | i <= j && MatchAt(s, j)
      ensures j in ps
    {
      assert j != i;
    }
  }

  /** A match cannot start inside the digit run of an earlier match: the character before a
      match is the space that ends the mark. */
  lemma {:induction false} MatchOutsideRun(s: string, i: nat, j: nat)
    requires i < j && MatchAt(s, i) && MatchAt(s, j)
    ensures DigitRunEnd(s, i) <= j
  {
    assert s[j - |ERROR_MARK|..j][|ERROR_MARK| - 1] == s[j - 1];
    DigitRunStops(s, i, j - 1);
  }

  /** A digit run ends at the latest at the first non-digit after its start. */
  lemma {:induction false} DigitRunStops(s: string, i: nat, m: nat)
    requires i <= m < |s| && !IsDecimalDigit(s[m])
    ensures DigitRunEnd(s, i) <= m
    decreases m - i
  {
    if IsDecimalDigit(s[i]) {
      DigitRunStops(s, i + 1, m);
    }
  }

  /** Every match found is the longest digit run right after a `Total errors: ` mark. */
  lemma FindAllSound(s: string, i: nat, k: nat)
    requires i <= |s| && k < |FindAllFrom(s, i)|
    ensures exists a :: i <= a && MatchAt(s, a) && FindAllFrom(s, i)[k] == s[a..DigitRunEnd(s, a)]
  {
    var ps := FindAllPositions(s, i);
    assert MatchAt(s, ps[k]);
  }

  /** Every digit run right after a mark, from `i` on, is found. */
  lemma FindAllComplete(s: string, i: nat, j: nat)
    requires i <= j && MatchAt(s, j)
    ensures s[j..DigitRunEnd(s, j)] in FindAllFrom(s, i)
  {
    var ps := FindAllPositions(s, i);
    var k :| 0 <= k < |ps| && ps[k] == j;
    assert FindAllFrom(s, i)[k] == s[j..DigitRunEnd(s, j)];
  }

  /** No match starts inside the mark at the start of a line. */
  lemma {:induction false} NoMatchBeforeMark(s: string, i: nat)
    requires i <= |ERROR_MARK| <= |s|
    ensures FindAllFrom(s, i) == FindAllFrom(s, |ERROR_MARK|)
    decreases |ERROR_MARK| - i
  {
    if i < |ERROR_MARK| {
      NoMatchBeforeMark(s, i + 1);
    }
  }

  /** A run of digits reaching the end of the line is taken whole. */
  lemma {:induction false} DigitRunToEnd(s: string, i: nat)
    requires i <= |s| && AllDecimalDigits(s[i..])
    ensures DigitRunEnd(s, i) == |s|
    decreases |s| - i
  {
    if i < |s| {
      assert s[i] == s[i..][0];
      assert s[i + 1..] == s[i..][1..];
      DigitRunToEnd(s, i + 1);
    }
  }

  /** The summary line an AIPU tool prints, `Total errors: n`, yields exactly the count n. */
  lemma {:induction false} SummaryLineCount(n: nat)
    ensures LineCounts(ERROR_MARK + Decimal(n)) == [n]
  {
    var digits := Decimal(n);
    var s := ERROR_MARK + digits;
    var m := |ERROR_MARK|;
    DecimalRoundTrip(n);
    NoMatchBeforeMark(s, 0);
    assert s[m..] == digits && s[0..m] == ERROR_MARK && s[m] == digits[0];
    assert MatchAt(s, m);
    DigitRunToEnd(s, m);
    assert FindAllFrom(s, m) == [s[m..|s|]] + FindAllFrom(s, |s|);
    assert s[m..|s|] == digits;
    assert FindAll(s) == [digits];
  }

  /** The numbers found in the lines, line by line and left to right within a line. */
  function AllCounts(lines: seq<string>): seq<nat>
  {
    if lines == [] then [] else AllCounts(lines[..|lines| - 1]) + LineCounts(lines[|lines| - 1])
  }

  /** The first positive number, or 0 when there is none. */
  function FirstPositive(vs: seq<nat>): (r: nat)
  {
    if vs == [] then 0 else if vs[0] > 0 then vs[0] else FirstPositive(vs[1..])
  }

  /** The first positive number is 0 exactly when all are 0; otherwise it is one of them and
      every number before it is 0. */
  lemma {:induction false} FirstPositiveMeaning(vs: seq<nat>)
    ensures FirstPositive(vs) == 0 <==> forall k :: 0 <= k < |vs| ==> vs[k] == 0
    ensures FirstPositive(vs) != 0 ==>
              exists k :: 0 <= k < |vs| && vs[k] == FirstPositive(vs)
                          && forall j :: 0 <= j < k ==> vs[j] == 0
  {
    if vs != [] && vs[0] == 0 {
      FirstPositiveMeaning(vs[1..]);
      if FirstPositive(vs) != 0 {
        var k :| 0 <= k < |vs[1..]| && vs[1..][k] == FirstPositive(vs[1..])
                 && forall j :: 0 <= j < k ==> vs[1..][j] == 0;
        assert vs[k + 1] == FirstPositive(vs);
        assert forall j :: 1 <= j < k + 1 ==> vs[j] == vs[1..][j - 1];
      }
      assert forall k :: 1 <= k < |vs| ==> vs[k] == vs[1..][k - 1];
    }
  }

  /** Numbers that are all 0 followed by more: the first positive is the later one's. */
  lemma {:induction false} FirstPositiveAfterZeros(a: seq<nat>, b: seq<nat>)
    requires forall k :: 0 <= k < |a| ==> a[k] == 0
    ensures FirstPositive(a + b) == FirstPositive(b)
    decreases |a|
  {
    if a != [] {
      assert (a + b)[0] == a[0] == 0;
      assert (a + b)[1..] == a[1..] + b;
      FirstPositiveAfterZeros(a[1..], b);
    } else {
      assert a + b == b;
    }
  }

  /** A positive number among the first ones decides the first positive of any extension. */
  lemma {:induction false} FirstPositivePrefix(a: seq<nat>, b: seq<nat>)
    requires FirstPositive(a) != 0
    ensures FirstPositive(a + b) == FirstPositive(a)
    decreases |a|
  {
    assert (a + b)[0] == a[0];
    if a[0] == 0 {
      assert (a + b)[1..] == a[1..] + b;
      FirstPositivePrefix(a[1..], b);
    }
  }

  lemma {:induction false} AllCountsAppend(a: seq<string>, b: seq<string>)
    ensures AllCounts(a + b) == AllCounts(a) + AllCounts(b)
    decreases |b|
  {
    if b != [] {
      var b' := b[..|b| - 1];
      var last := b[|b| - 1];
      assert (a + b)[..|a + b| - 1] == a + b' && (a + b)[|a + b| - 1] == last;
      AllCountsAppend(a, b');
      assert AllCounts(a + b) == AllCounts(a) + AllCounts(b') + LineCounts(last);
    } else {
      assert a + b == a;
    }
  }

  /** The scan of the log in `check_call_aipu_tool`: for each line, in order, the first
      positive number among the pattern's matches becomes the error count and ends the scan;
      the count stays 0 when there is none. */
  method ScanErrorCount(lines: seq<string>) returns (count: nat)
    ensures count == FirstPositive(AllCounts(lines))
  {
    count := 0;
    var i := 0;
    while i < |lines|
      invariant 0 <= i <= |lines| && count == 0
      invariant forall k :: 0 <= k < |AllCounts(lines[..i])| ==> AllCounts(lines[..i])[k] == 0
    {
      var digits := LineCounts(lines[i]);
      assert lines[..i + 1][..i] == lines[..i];
      assert AllCounts(lines[..i + 1]) == AllCounts(lines[..i]) + digits;
      var j := 0;
      while j < |digits|
        invariant 0 <= j <= |digits| && count == 0
        invariant forall k :: 0 <= k < j ==> digits[k] == 0
      {
        if digits[j] > 0 {
          count := digits[j];
          break;
        }
        j := j + 1;
      }
      if count != 0 {
        FirstPositiveAfterZeros(AllCounts(lines[..i]), digits);
        FirstPositiveAfterZeros(digits[..j], digits[j..]);
        assert digits[..j] + digits[j..] == digits;
        assert FirstPositive(AllCounts(lines[..i + 1])) == count;
        assert lines[..i + 1] + lines[i + 1..] == lines;
        AllCountsAppend(lines[..i + 1], lines[i + 1..]);
        FirstPositivePrefix(AllCounts(lines[..i + 1]), AllCounts(lines[i + 1..]));
        return;
      }
      i := i + 1;
    }
    assert lines[..i] == lines;
    FirstPositiveMeaning(AllCounts(lines));
  }

  /** `_EXE_NAME2TOOL_NAME`: the tool each executable is reported as. */
  const TOOL_NAMES: map<string, string> :=
    map["aipuopt" := "Optimizer", "aipugb" := "GBuilder", "aipugsim" := "GSim",
        "aipurun" := "AIPURun", "aipu_profiler" := "Profiler"]

  /** The words of a command line joined with single spaces. */
  function JoinWords(ws: seq<string>): string
  {
    if ws == [] then "" else if |ws| == 1 then ws[0] else ws[0] + " " + JoinWords(ws[1..])
  }

  /** The log the tool's output goes to: the command line first, then the output. */
  function LogLines(cmd: seq<string>, output: seq<string>): seq<string>
  {
    ["Command Line: " + JoinWords(cmd) + "\n"] + output
  }

  /** Whether the call counts as failed: a non-zero return code or a non-zero error count. */
  predicate CallFailed(retCode: int, count: nat)
  {
    retCode != 0 || count != 0
  }

  /** `check_call_aipu_tool` after the tool has run with return code `retCode` and written
      `output` to its log: the log is scanned for the error count, and a failed call raises an
      error naming the tool (a KeyError when the executable has no tool name). */
  method CheckCallAipuTool(cmd: seq<string>, retCode: int, output: seq<string>)
    returns (r: Result<(), UtilError>)
    ensures cmd == [] ==> r == Err(IndexOutOfRange)
    ensures cmd != [] ==>
              (r.Ok? <==> !CallFailed(retCode, FirstPositive(AllCounts(LogLines(cmd, output)))))
    ensures cmd != [] && r.Err? ==>
              r.error == (if cmd[0] in TOOL_NAMES then ToolFailed(TOOL_NAMES[cmd[0]])
                          else KeyNotFound)
  {
    if |cmd| == 0 {
      return Err(IndexOutOfRange);
    }
    var exeName := cmd[0];
    var countErrors := ScanErrorCount(LogLines(cmd, output));
    if retCode != 0 || countErrors != 0 {
      if exeName !in TOOL_NAMES {
        return Err(KeyNotFound);
      }
      return Err(ToolFailed(TOOL_NAMES[exeName]));
    }
    return Ok(());
  }

  // ---------------------------------------------------------------- valid RPC keys

  /** Python's `str.isspace` for a single character. */
  predicate IsSpace(c: char)
  {
    '\U{9}' <= c <= '\U{d}' || '\U{1c}' <= c <= '\U{20}' || c == '\U{85}' || c == '\U{a0}'
    || c == '\U{1680}' || '\U{2000}' <= c <= '\U{200a}' || c == '\U{2028}' || c == '\U{2029}'
    || c == '\U{202f}' || c == '\U{205f}' || c == '\U{3000}'
  }

  function StripLeft(s: string): (r: string)
    ensures |r| <= |s| && r == s[|s| - |r|..]
    ensures r != [] ==> !IsSpace(r[0])
    ensures forall k :: 0 <= k < |s| - |r| ==> IsSpace(s[k])
  {
    if s != [] && IsSpace(s[0]) then StripLeft(s[1..]) else s
  }

  function StripRight(s: string): (r: string)
    ensures |r| <= |s| && r == s[..|r|]
    ensures r != [] ==> !IsSpace(r[|r| - 1])
    ensures forall k :: |r| <= k < |s| ==> IsSpace(s[k])
  {
    if s != [] && IsSpace(s[|s| - 1]) then StripRight(s[..|s| - 1]) else s
  }

  /** `str.strip()`: the string without its leading and trailing white space. */
  function Strip(s: string): string
  {
    StripRight(StripLeft(s))
  }

  /** A stripped string neither starts nor ends with white space, and stripping it again
      changes nothing. */
  lemma StripIdempotent(s: string)
    ensures Strip(s) != [] ==> !IsSpace(Strip(s)[0]) && !IsSpace(Strip(s)[|Strip(s)| - 1])
    ensures Strip(Strip(s)) == Strip(s)
  {
    var l := StripLeft(s);
    var r := StripRight(l);
    if r != [] {
      assert r[0] == l[0];
    }
  }

  /** A stripped string is the part of the original between white space at its start and
      white space at its end. */
  lemma {:induction false} StripSlice(s: string)
    ensures var a := |s| - |StripLeft(s)|;
            a + |Strip(s)| <= |s| && Strip(s) == s[a..a + |Strip(s)|]
            && (forall k :: 0 <= k < a ==> IsSpace(s[k]))
            && (forall k :: a + |Strip(s)| <= k < |s| ==> IsSpace(s[k]))
  {
    var l := StripLeft(s);
    var r := StripRight(l);
    var a := |s| - |l|;
    assert l == s[a..];
    assert r == l[..|r|];
    assert s[a..][..|r|] == s[a..a + |r|];
    forall k | a + |r| <= k < |s|
      ensures IsSpace(s[k])
    {
      assert s[k] == l[k - a] && IsSpace(l[k - a]);
    }
    assert Strip(s) == r;
  }

  /** Characters a string lacks are also lacking after stripping it. */
  lemma StripKeepsOut(s: string, c: char)
    requires c !in s
    ensures c !in Strip(s)
  {
    StripSlice(s);
  }

  /** `s.split(sep)`: the pieces between separators, including empty ones; there is always
      at least one. */
  function SplitOn(s: string, sep: char): (r: seq<string>)
    ensures |r| >= 1
    ensures forall k :: 0 <= k < |r| ==> sep !in r[k]
  {
    if s == [] then [""]
    else
      var rest := SplitOn(s[1..], sep);
      if s[0] == sep then [""] + rest else [[s[0]] + rest[0]] + rest[1..]
  }

  /** `sep.join(pieces)`. */
  function JoinOn(ps: seq<string>, sep: char): string
  {
    if ps == [] then "" else if |ps| == 1 then ps[0] else ps[0] + [sep] + JoinOn(ps[1..], sep)
  }

  /** Joining the pieces with the separator gives the string back. */
  lemma {:induction false} SplitJoin(s: string, sep: char)
    ensures JoinOn(SplitOn(s, sep), sep) == s
  {
    if s != [] {
      var rest := SplitOn(s[1..], sep);
      SplitJoin(s[1..], sep);
      if s[0] == sep {
        assert JoinOn([""] + rest, sep) == "" + [sep] + JoinOn(rest, sep);
      } else {
        var ps := [[s[0]] + rest[0]] + rest[1..];
        assert ps[1..] == rest[1..];
        if |rest| == 1 {
          assert JoinOn(ps, sep) == [s[0]] + rest[0];
        } else {
          assert JoinOn(rest, sep) == rest[0] + [sep] + JoinOn(rest[1..], sep);
          assert JoinOn(ps, sep) == [s[0]] + rest[0] + [sep] + JoinOn(rest[1..], sep);
        }
      }
    }
  }

  /** `tuple(x.strip() for x in pieces if x.strip() != "")`. */
  function StrippedNonEmpty(ps: seq<string>): (r: seq<string>)
  {
    if ps == [] then []
    else if Strip(ps[0]) != "" then [Strip(ps[0])] + StrippedNonEmpty(ps[1..])
    else StrippedNonEmpty(ps[1..])
  }

  /** The valid RPC keys an `AIPU_TVM_VALID_RPC_KEYS` value lists. */
  function ValidKeys(env: string): seq<string>
  {
    StrippedNonEmpty(SplitOn(env, '|'))
  }

  /** A key is listed exactly when it is a non-empty stripped piece of the list. */
  lemma {:induction false} StrippedNonEmptyMembers(ps: seq<string>, k: string)
    ensures k in StrippedNonEmpty(ps) <==> k != "" && exists p :: p in ps && Strip(p) == k
  {
    if ps != [] {
      StrippedNonEmptyMembers(ps[1..], k);
      if k != "" && Strip(ps[0]) != k && exists p :: p in ps && Strip(p) == k {
        var p :| p in ps && Strip(p) == k;
        assert p in ps[1..];
      }
    }
  }

  /** The keys accepted under a list: the non-empty stripped `|`-separated pieces of it. A
      listed key is never empty, never has white space around it and contains no `|`. */
  lemma ValidKeysMeaning(env: string, k: string)
    ensures k in ValidKeys(env) <==> k != "" && exists p :: p in SplitOn(env, '|') && Strip(p) == k
    ensures k in ValidKeys(env) ==> Strip(k) == k && '|' !in k
  {
    var ps := SplitOn(env, '|');
    StrippedNonEmptyMembers(ps, k);
    if k in ValidKeys(env) {
      var p :| p in ps && Strip(p) == k;
      StripIdempotent(p);
      StripKeepsOut(p, '|');
    }
  }

  /** The key checks of `get_rpc_session`: the key is the argument, or the environment's
      `AIPU_TVM_RPC_KEY` when the argument is missing or empty, and must not be empty; when
      `AIPU_TVM_VALID_RPC_KEYS` is set and not empty, the key must be one it lists. */
  function CheckRpcKey(arg: Option<string>, envKey: Option<string>, envValid: Option<string>)
    : (r: Result<string, UtilError>)
    ensures r.Ok? ==> r.value != ""
    ensures r.Ok? && envValid.Some? && envValid.value != "" ==> r.value in ValidKeys(envValid.value)
    ensures r.Ok? && arg.Some? && arg.value != "" ==> r.value == arg.value
    ensures r.Ok? && !(arg.Some? && arg.value != "") ==> envKey == Some(r.value)
  {
    var key := if arg.Some? && arg.value != "" then arg else envKey;
    if key.None? || key.value == "" then Err(AssertionFailed)
    else if envValid.Some? && envValid.value != "" && key.value !in ValidKeys(envValid.value)
    then Err(AssertionFailed)
    else Ok(key.value)
  }

  /** The key chosen by `rpc_key or os.getenv("AIPU_TVM_RPC_KEY")`: the argument when it is
      truthy, otherwise the environment's value (None when that is unset too). */
  function ChosenKey(arg: Option<string>, envKey: Option<string>): Option<string>
  {
    if arg.Some? && arg.value != "" then arg else envKey
  }

  /** For any argument and environment: the check fails when neither gives a non-empty key;
      otherwise, without a list the chosen key passes, and with one it passes exactly when it
      is listed. An accepted key is the chosen one. */
  lemma CheckRpcKeyAccepts(arg: Option<string>, envKey: Option<string>, envValid: Option<string>)
    ensures var key := ChosenKey(arg, envKey);
            key.None? || key.value == "" ==> CheckRpcKey(arg, envKey, envValid) == Err(AssertionFailed)
    ensures var key := ChosenKey(arg, envKey);
            key.Some? && key.value != "" && (envValid.None? || envValid.value == "") ==>
              CheckRpcKey(arg, envKey, envValid) == Ok(key.value)
    ensures var key := ChosenKey(arg, envKey);
            key.Some? && key.value != "" && envValid.Some? && envValid.value != "" ==>
              (CheckRpcKey(arg, envKey, envValid).Ok? <==> key.value in ValidKeys(envValid.value))
    ensures CheckRpcKey(arg, envKey, envValid).Ok? ==>
              ChosenKey(arg, envKey) == Some(CheckRpcKey(arg, envKey, envValid).value)
  {
  }

  // ---------------------------------------------------------------- get_range

  /** The entry of `_DTYPE2RANGE`: the bounds of an integer type, or the floating-point
      bounds of a float type (whose values are not modelled). */
  datatype ValueRange = IntRange(lo: int, hi: int) | FloatRange(bits: nat)

  function Pow2(n: nat): (r: nat)
    ensures r > 0
  {
    if n == 0 then 1 else 2 * Pow2(n - 1)
  }

  /** The integer widths of the table besides `bool`. */
  predicate IsTableWidth(b: nat)
  {
    b == 8 || b == 16 || b == 32
  }

  /** `get_range`: the range of the element type (the lanes do not matter). `bool` (one-bit
      unsigned) is 0..1, the 8-, 16- and 32-bit integers have their two's complement or
      unsigned bounds, float16 and float32 their floating-point bounds; any other type is not
      in the table. */
  function GetRange(d: DataType): (r: Result<ValueRange, UtilError>)
    ensures r.Err? ==> r.error == KeyNotFound
  {
    match d.code
    case UInt =>
      if d.bits == 1 then Ok(IntRange(0, 1))
      else if IsTableWidth(d.bits) then Ok(IntRange(0, Pow2(d.bits) - 1))
      else Err(KeyNotFound)
    case Int =>
      if IsTableWidth(d.bits) then Ok(IntRange(-(Pow2(d.bits - 1) as int), Pow2(d.bits - 1) - 1))
      else Err(KeyNotFound)
    case Float =>
      if d.bits == 16 || d.bits == 32 then Ok(FloatRange(d.bits)) else Err(KeyNotFound)
    case _ => Err(KeyNotFound)
  }

  /** The table has an entry exactly for bool, the 8-, 16- and 32-bit integers and float16
      and float32; an integer range holds exactly 2^bits values, contains 0, and is
      symmetric around -1/2 for signed types. */
  lemma {:induction false} GetRangeMeaning(d: DataType)
    ensures GetRange(d).Ok? <==>
              (d.code == UInt && (d.bits == 1 || IsTableWidth(d.bits)))
              || (d.code == Int && IsTableWidth(d.bits))
              || (d.code == Float && (d.bits == 16 || d.bits == 32))
    ensures GetRange(d).Ok? && GetRange(d).value.IntRange? ==>
              var rg := GetRange(d).value;
              rg.lo <= 0 < rg.hi && rg.hi - rg.lo + 1 == Pow2(d.bits)
              && (d.code == Int ==> rg.lo == -(rg.hi + 1))
              && (d.code == UInt ==> rg.lo == 0)
  {
    if d.code == Int && IsTableWidth(d.bits) {
      assert Pow2(d.bits) == 2 * Pow2(d.bits - 1);
    }
  }

  /** The int32 entry is the range of the C++ `int` of the runtime. */
  lemma Int32RangeAgrees()
    ensures GetRange(DataType(Int, 32, 1)) == Ok(IntRange(INT32_MIN, INT32_MAX))
    ensures GetRange(DataType(Int, 32, 16)) == GetRange(DataType(Int, 32, 1))
  {
    assert Pow2(31) == 0x8000_0000 by {
      assert Pow2(8) == 256;
      assert Pow2(16) == 65536;
      assert Pow2(24) == 0x100_0000;
    }
  }
}
