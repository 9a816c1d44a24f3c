/** The byte stream that module nodes are serialised to. A `std::string` goes to the stream
    the way dmlc's serializer writes it: its length as a 64-bit little-endian integer,
    followed by its characters as raw bytes. Reading mirrors that and reports failure when
    the stream ends early. Writes append at the end of the stream; reads consume bytes from a
    cursor. */
module DmlcStream {
  import opened Common
  import opened CText

  /** Bytes taken by the length prefix of a string (`sizeof(uint64_t)`). */
  const LENGTH_BYTES: nat := 8

  function Pow256(k: nat): (r: nat)
    ensures r > 0
  {
    if k == 0 then 1 else 256 * Pow256(k - 1)
  }

  /** The k low-order bytes of n, least significant first. */
  function LittleEndian(n: nat, k: nat): (r: seq<Byte>)
    ensures |r| == k
  {
    if k == 0 then [] else [n % 256] + LittleEndian(n / 256, k - 1)
  }

  /** The number that bytes stored least significant first denote. */
  function FromLittleEndian(s: seq<Byte>): (n: nat)
    ensures n < Pow256(|s|)
  {
    if s == [] then 0 else s[0] + 256 * FromLittleEndian(s[1..])
  }

  /** Storing a number that fits in k bytes and reading it back gives the number. */
  lemma {:induction false} LittleEndianRoundTrip(n: nat, k: nat)
    requires n < Pow256(k)
    ensures FromLittleEndian(LittleEndian(n, k)) == n
  {
    if k > 0 {
      var s := LittleEndian(n, k);
      assert s[1..] == LittleEndian(n / 256, k - 1);
      LittleEndianRoundTrip(n / 256, k - 1);
    }
  }

  lemma SizeTIsPow256()
    ensures Pow256(LENGTH_BYTES) == SIZE_T_MODULUS
  {
  }

  /** What `stream->Write(str)` appends for a string. */
  function EncodeString(s: CString): (r: seq<Byte>)
    requires |s| < SIZE_T_MODULUS
    ensures |r| == LENGTH_BYTES + |s|
  {
    LittleEndian(|s|, LENGTH_BYTES) + BytesOf(s)
  }

  /** What `stream->Read(&str)` does on bytes `data` with the cursor at `pos`: the string read
      and the new cursor, or None when the stream ends before the length prefix or before the
      characters it announces. */
  function DecodeStringAt(data: seq<Byte>, pos: nat): (r: Option<(CString, nat)>)
    ensures r.Some? ==> pos + LENGTH_BYTES <= r.value.1 <= |data|
    ensures r.Some? ==> r.value.1 == pos + LENGTH_BYTES + |r.value.0|
  {
    if pos + LENGTH_BYTES > |data| then None
    else
      var size := FromLittleEndian(data[pos..pos + LENGTH_BYTES]);
      var start := pos + LENGTH_BYTES;
      if start + size > |data| then None
      else Some((CharsOf(data[start..start + size]), start + size))
  }

  /** A string written to a stream is read back unchanged, whatever precedes and follows it,
      and the cursor ends right after it. */
  lemma DecodeEncodeString(prefix: seq<Byte>, s: CString, rest: seq<Byte>)
    requires |s| < SIZE_T_MODULUS
    ensures DecodeStringAt(prefix + EncodeString(s) + rest, |prefix|)
            == Some((s, |prefix| + |EncodeString(s)|))
  {
    var data := prefix + EncodeString(s) + rest;
    var pos := |prefix|;
    assert data[pos..pos + LENGTH_BYTES] == LittleEndian(|s|, LENGTH_BYTES);
    SizeTIsPow256();
    LittleEndianRoundTrip(|s|, LENGTH_BYTES);
    var start := pos + LENGTH_BYTES;
    var chars := CharsOf(data[start..start + |s|]);
    forall i | 0 <= i < |s|
      ensures chars[i] == s[i]
    {
      assert data[start + i] == MaskedByte(s[i]);
      MaskedByteInverse(s[i], 0);
    }
    assert chars == s;
  }

  predicate AllFit(ss: seq<CString>)
  {
    forall i :: 0 <= i < |ss| ==> |ss[i]| < SIZE_T_MODULUS
  }

  /** What writing the strings one after the other appends. */
  function EncodeStrings(ss: seq<CString>): (r: seq<Byte>)
    requires AllFit(ss)
  {
    if ss == [] then [] else EncodeString(ss[0]) + EncodeStrings(ss[1..])
  }

  /** Reading n strings one after the other from position `pos`: the strings and the cursor
      after them, or None as soon as one read fails. */
  function DecodeStrings(data: seq<Byte>, pos: nat, n: nat): (r: Option<(seq<CString>, nat)>)
    ensures r.Some? ==> |r.value.0| == n
    decreases n
  {
    if n == 0 then Some(([], pos))
    else
      match DecodeStringAt(data, pos)
      case None => None
      case Some((s, next)) =>
        match DecodeStrings(data, next, n - 1)
        case None => None
        case Some((ss, end)) => Some(([s] + ss, end))
  }

  /** One step of DecodeStrings: a string read, then the remaining ones. */
  lemma {:induction false} DecodeStringsCons(data: seq<Byte>, pos: nat, n: nat, s: CString,
                                            next: nat, ss: seq<CString>, end: nat)
    requires n > 0
    requires DecodeStringAt(data, pos) == Some((s, next))
    requires DecodeStrings(data, next, n - 1) == Some((ss, end))
    ensures DecodeStrings(data, pos, n) == Some(([s] + ss, end))
  {
  }

  /** A string whose encoding sits at `pos` is read back from `pos`. */
  lemma {:induction false} DecodeStringIn(data: seq<Byte>, pos: nat, s: CString)
    requires |s| < SIZE_T_MODULUS
    requires pos + |EncodeString(s)| <= |data|
    requires data[pos..pos + |EncodeString(s)|] == EncodeString(s)
    ensures DecodeStringAt(data, pos) == Some((s, pos + |EncodeString(s)|))
  {
    var e := EncodeString(s);
    assert data == data[..pos] + e + data[pos + |e|..];
    DecodeEncodeString(data[..pos], s, data[pos + |e|..]);
  }

  /** Strings whose encodings sit one after the other from `pos` on are read back unchanged,
      with the cursor ending right after them. */
  lemma {:induction false} DecodeStringsIn(data: seq<Byte>, pos: nat, ss: seq<CString>)
    requires AllFit(ss)
    requires pos + |EncodeStrings(ss)| <= |data|
    requires data[pos..pos + |EncodeStrings(ss)|] == EncodeStrings(ss)
    ensures DecodeStrings(data, pos, |ss|) == Some((ss, pos + |EncodeStrings(ss)|))
    decreases |ss|
  {
    if ss != [] {
      var all := EncodeStrings(ss);
      var head := EncodeString(ss[0]);
      var tail := EncodeStrings(ss[1..]);
      var next := pos + |head|;
      assert all == head + tail;
      assert data[pos..next] == head by {
        assert data[pos..next] == all[..|head|];
      }
      DecodeStringIn(data, pos, ss[0]);
      assert data[next..next + |tail|] == tail by {
        assert data[next..next + |tail|] == all[|head|..];
      }
      DecodeStringsIn(data, next, ss[1..]);
      assert [ss[0]] + ss[1..] == ss;
    }
  }

  /** Strings written one after the other are read back unchanged, whatever precedes and
      follows them, and the cursor ends right after them. */
  lemma {:induction false} DecodeEncodeStrings(prefix: seq<Byte>, ss: seq<CString>, rest: seq<Byte>)
    requires AllFit(ss)
    ensures DecodeStrings(prefix + EncodeStrings(ss) + rest, |prefix|, |ss|)
            == Some((ss, |prefix| + |EncodeStrings(ss)|))
  {
    MiddleSlice(prefix, EncodeStrings(ss), rest);
    DecodeStringsIn(prefix + EncodeStrings(ss) + rest, |prefix|, ss);
  }

  lemma {:induction false} MiddleSlice(a: seq<Byte>, b: seq<Byte>, c: seq<Byte>)
    ensures (a + b + c)[|a|..|a| + |b|] == b
  {
  }

  /** A byte stream with a read cursor. */
  class Stream {
    var data: seq<Byte>
    var pos: nat

    ghost predicate Valid()
      reads this
    {
      pos <= |data|
    }

    /** An empty stream, ready to be written. */
    constructor Empty()
      ensures Valid() && data == [] && pos == 0
    {
      data := [];
      pos := 0;
    }

    /** A stream over the given bytes, with the cursor at its start. */
    constructor FromBytes(bytes: seq<Byte>)
      ensures Valid() && data == bytes && pos == 0
    {
      data := bytes;
      pos := 0;
    }

    /** `stream->Write(s)` for a `std::string`. */
    method WriteString(s: CString)
      requires Valid()
      requires |s| < SIZE_T_MODULUS
      modifies this
      ensures Valid()
      ensures data == old(data) + EncodeString(s) && pos == old(pos)
    {
      data := data + LittleEndian(|s|, LENGTH_BYTES);
      data := data + BytesOf(s);
    }

    /** `stream->Read(&s)` for a `std::string`: reads the length prefix, then that many
        characters. When the stream ends early it reports false, having consumed what was
        left. */
    method ReadString() returns (ok: bool, s: CString)
      requires Valid()
      modifies this
      ensures Valid() && data == old(data)
      ensures ok <==> DecodeStringAt(data, old(pos)).Some?
      ensures ok ==> (s, pos) == DecodeStringAt(data, old(pos)).value
      ensures !ok ==> pos == |data|
    {
      s := [];
      if pos + LENGTH_BYTES > |data| {
        pos := |data|;
        return false, s;
      }
      var size := FromLittleEndian(data[pos..pos + LENGTH_BYTES]);
      pos := pos + LENGTH_BYTES;
      if pos + size > |data| {
        pos := |data|;
        return false, s;
      }
      s := CharsOf(data[pos..pos + size]);
      pos := pos + size;
      ok := true;
    }
  }
}
