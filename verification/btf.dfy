/** The BTF serializer, against a parser for the kernel's "BTF Type and String Encoding". */
module Btf {
  import opened Words
  import opened Random
  import Bits
  import Encoding

  const KIND_INT: nat := 1
  const KIND_PTR: nat := 2
  const KIND_STRUCT: nat := 4
  const KIND_UNION: nat := 5
  const KIND_FUNC: nat := 12
  const KIND_FUNC_PROTO: nat := 13

  datatype TypeInfo = TypeInfo(vlen: int, kind: int, kindFlag: bool)
  datatype Param = Param(nameOff: int, paramType: int)
  datatype Extra = Empty | IntData(info: int) | StructData(nameOff: int, structType: int, offset: int) | FuncProto(params: seq<Param>)
  datatype BtfType = BtfType(nameOff: int, info: TypeInfo, sizeOrType: int, extra: Extra)
  datatype Header = Header(magic: int, version: int, flags: int, hdrLen: int, typeOff: int, typeLen: int, strOff: int, strLen: int)

  // ---------------------------------------------------------------- type info

  /** `encodeTypeInfo`: the flag goes to bit 28. */
  function EncodeTypeInfo(t: TypeInfo): int {
    var e0 := Bits.Or(0, t.vlen % 0x1_0000_0000);
    var e1 := Bits.Or(e0, Bits.Shl(t.kind % 0x1_0000_0000, 24) % 0x1_0000_0000);
    I32(Bits.Or(e1, if t.kindFlag then Bits.Shl(1, 28) else 0))
  }

  /** The kernel's reading: vlen in bits 0-15, kind in bits 24-28, flag in bit 31. */
  function DecodeTypeInfo(info: int): TypeInfo {
    var u := info % 0x1_0000_0000;
    TypeInfo(u % 0x1_0000, u / 0x100_0000 % 32, u / 0x8000_0000 == 1)
  }

  predicate InfoInRange(t: TypeInfo) {
    0 <= t.vlen < 0x1_0000 && 0 <= t.kind < 32
  }

  lemma ShiftByTwentyFour(x: nat)
    ensures Bits.Shl(x, 24) == 0x100_0000 * x && Bits.Pow2(24) == 0x100_0000
  {
    Bits.ShiftBySixteen(x);
    Bits.ShiftAdds(x, 16, 8);
    Bits.ShiftByEight(Bits.Shl(x, 16));
    Bits.ShiftByEight(Bits.Pow2(16));
  }

  lemma FlagBit()
    ensures Bits.Shl(1, 28) == 0x1000_0000 && Bits.Pow2(31) == 0x8000_0000
  {
    ShiftByTwentyFour(1);
    Bits.ShiftAdds(1, 24, 4);
    Bits.ShiftByFour(Bits.Shl(1, 24));
    Bits.ShiftByThirtyTwo(0);
  }

  lemma KindAndLength(t: TypeInfo)
    requires InfoInRange(t)
    ensures Bits.Or(Bits.Or(0, t.vlen % 0x1_0000_0000), Bits.Shl(t.kind % 0x1_0000_0000, 24) % 0x1_0000_0000)
         == t.vlen + 0x100_0000 * t.kind
  {
    hide *;
    InRange(t);
    Bits.OrZero(t.vlen);
    ShiftByTwentyFour(t.kind);
    Bits.OrDisjoint(t.kind, t.vlen, 24);
  }

  lemma InRange(t: TypeInfo)
    requires InfoInRange(t)
    ensures 0 <= t.vlen < 0x1_0000 && 0 <= t.kind < 32
    ensures t.vlen % 0x1_0000_0000 == t.vlen && t.kind % 0x1_0000_0000 == t.kind
  {
  }

  lemma EncodeDefinition(t: TypeInfo)
    ensures EncodeTypeInfo(t) ==
            I32(Bits.Or(Bits.Or(Bits.Or(0, t.vlen % 0x1_0000_0000), Bits.Shl(t.kind % 0x1_0000_0000, 24) % 0x1_0000_0000),
                        if t.kindFlag then Bits.Shl(1, 28) else 0))
  {
    hide Bits.Or, Bits.Shl;
  }

  /** The kernel reads back what was encoded exactly when the flag is clear: set, it lands inside the kind instead. */
  lemma TypeInfoRoundTripExactly(t: TypeInfo)
    requires InfoInRange(t)
    ensures DecodeTypeInfo(EncodeTypeInfo(t)) == t <==> !t.kindFlag
  {
    hide EncodeTypeInfo, Bits.Or, Bits.Shl, Bits.Pow2;
    EncodeDefinition(t);
    KindAndLength(t);
    var e := t.vlen + 0x100_0000 * t.kind;
    FlagBit();
    if t.kindFlag {
      Bits.OrBound(e, 0x1000_0000, 31);
      BelowFlag(Bits.Or(e, 0x1000_0000));
    } else {
      OrNothing(e);
      FieldsOf(t.vlen, t.kind);
    }
  }

  lemma OrNothing(x: nat)
    ensures Bits.Or(x, 0) == x
  {
    if x > 0 {
      OrNothing(x / 2);
    }
  }

  lemma BelowFlag(x: nat)
    requires x < 0x8000_0000
    ensures !DecodeTypeInfo(I32(x)).kindFlag
  {
  }

  lemma FieldsOf(vlen: nat, kind: nat)
    requires vlen < 0x1_0000 && kind < 32
    ensures DecodeTypeInfo(I32(vlen + 0x100_0000 * kind)) == TypeInfo(vlen, kind, false)
  {
    var u := vlen + 0x100_0000 * kind;
    assert u < 0x8000_0000 && I32(u) == u;
    assert u % 0x1_0000 == vlen && u / 0x100_0000 == kind;
  }

  // ---------------------------------------------------------------- words

  function ExtraWords(e: Extra): seq<int> {
    match e
    case Empty => []
    case IntData(i) => [i]
    case StructData(n, t, o) => [n, t, o]
    case FuncProto(ps) => ParamWords(ps)
  }

  function ParamWords(ps: seq<Param>): (w: seq<int>)
    ensures |w| == 2 * |ps|
  {
    if ps == [] then [] else [ps[0].nameOff, ps[0].paramType] + ParamWords(ps[1..])
  }

  /** The int32 values one type contributes to `type_data`. */
  function TypeWords(t: BtfType): seq<int> {
    [t.nameOff, EncodeTypeInfo(t.info), t.sizeOrType] + ExtraWords(t.extra)
  }

  function AllWords(ts: seq<BtfType>, n: nat): seq<int>
    requires n <= |ts|
  {
    if n == 0 then [] else AllWords(ts, n - 1) + TypeWords(ts[n - 1])
  }

  function WordBytes(w: seq<int>, n: nat): (b: seq<Byte>)
    requires n <= |w|
    ensures |b| == 4 * n
  {
    if n == 0 then [] else WordBytes(w, n - 1) + LittleEndian(w[n - 1], 4)
  }

  /** A null string, then each byte of the text followed by a zero. */
  function StringBytes(s: seq<Byte>, n: nat): (b: seq<Byte>)
    requires n <= |s|
    ensures |b| == 1 + 2 * n
  {
    if n == 0 then [0] else StringBytes(s, n - 1) + [s[n - 1], 0]
  }

  function HeaderBytes(h: Header): (b: seq<Byte>)
    ensures |b| == 24
  {
    LittleEndian(h.magic, 2) + LittleEndian(h.version, 1) + LittleEndian(h.flags, 1)
    + LittleEndian(h.hdrLen, 4) + LittleEndian(h.typeOff, 4) + LittleEndian(h.typeLen, 4)
    + LittleEndian(h.strOff, 4) + LittleEndian(h.strLen, 4)
  }

  /** As `SetHeaderSection` leaves the header, with well-formed types, and sections whose lengths fit an int32. */
  ghost predicate Serializable(h: Header, ts: seq<BtfType>, str: seq<Byte>) {
    && HeaderFits(h) && h.hdrLen == 24 && h.typeOff == 0
    && (forall k | 0 <= k < |ts| :: WellFormedType(ts[k]))
    && IsI32(4 * |AllWords(ts, |ts|)|) && IsI32(1 + 2 * |str|)
  }

  class BtfMessage {
    var header: Header
    const types: seq<BtfType>
    const str: seq<Byte>

    constructor (h: Header, ts: seq<BtfType>, s: seq<Byte>)
      ensures header == h && types == ts && str == s
    {
      header, types, str := h, ts, s;
    }

    method TypeData() returns (w: seq<int>)
      ensures w == AllWords(types, |types|)
    {
      hide EncodeTypeInfo;
      w := [];
      for i := 0 to |types|
        invariant w == AllWords(types, i)
      {
        var t := types[i];
        w := w + ([t.nameOff, EncodeTypeInfo(t.info), t.sizeOrType] + ExtraWords(t.extra));
      }
    }

    /** `generateBTF`: fills the buffers and overwrites the three lengths in the header, whatever they were; the result parses. */
    method GetBuffer() returns (b: seq<Byte>)
      modifies this
      ensures var w := AllWords(types, |types|);
              && header == old(header).(typeLen := I32(4 * |w|), strOff := I32(4 * |w|), strLen := I32(1 + 2 * |str|))
              && b == HeaderBytes(header) + WordBytes(w, |w|) + StringBytes(str, |str|)
      ensures Serializable(old(header), types, str) ==>
                |b| == 24 + header.typeLen + header.strLen && Parse(b) == Some((header, types, StringBytes(str, |str|)))
    {
      hide EncodeTypeInfo, HeaderBytes, AllWords, Parse, WellFormedType;
      var w := TypeData();
      var typesBuff: seq<Byte> := [];
      for i := 0 to |w|
        invariant typesBuff == WordBytes(w, i)
      {
        typesBuff := typesBuff + LittleEndian(w[i], 4);
      }
      var stringBuff: seq<Byte> := [0];
      for i := 0 to |str|
        invariant stringBuff == StringBytes(str, i)
      {
        stringBuff := stringBuff + [str[i], 0];
      }
      header := header.(typeLen := I32(|typesBuff|), strOff := I32(|typesBuff|), strLen := I32(|stringBuff|));
      b := HeaderBytes(header) + typesBuff + stringBuff;
      if Serializable(old(header), types, str) {
        BufferRoundTrip(header, types, str);
      }
    }
  }

  // ---------------------------------------------------------------- the parser

  /** Number of words after the common three; None for kinds whose data the messages cannot hold. */
  function ExtraLength(i: TypeInfo): Option<nat> {
    if i.vlen < 0 then None
    else if i.kind == KIND_INT then Some(1)
    else if i.kind == KIND_STRUCT || i.kind == KIND_UNION then (if i.vlen <= 1 then Some(3 * i.vlen) else None)
    else if i.kind == KIND_FUNC_PROTO then Some(2 * i.vlen)
    else if i.kind == KIND_PTR || 7 <= i.kind <= 12 || i.kind == 16 || i.kind == 18 then Some(0)
    else None
  }

  function ReadParams(w: seq<int>): seq<Param>
    requires |w| % 2 == 0
  {
    if w == [] then [] else [Param(w[0], w[1])] + ReadParams(w[2..])
  }

  function ReadExtra(i: TypeInfo, w: seq<int>): Extra
    requires ExtraLength(i) == Some(|w|)
  {
    if |w| == 0 then Empty
    else if i.kind == KIND_INT then IntData(w[0])
    else if i.kind == KIND_FUNC_PROTO then FuncProto(ReadParams(w))
    else StructData(w[0], w[1], w[2])
  }

  function ReadTypes(w: seq<int>): Option<seq<BtfType>> {
    if w == [] then Some([])
    else if |w| < 3 then None
    else
      var i := DecodeTypeInfo(w[1]);
      match ExtraLength(i)
      case None => None
      case Some(n) =>
        if |w| < 3 + n then None
        else match ReadTypes(w[3 + n..])
          case None => None
          case Some(rest) => Some([BtfType(w[0], i, w[2], ReadExtra(i, w[3..3 + n]))] + rest)
  }

  function ReadWords(b: seq<Byte>): seq<int>
    requires |b| % 4 == 0
  {
    if b == [] then [] else ReadWords(b[..|b| - 4]) + [I32(FromLittleEndian(b[|b| - 4..]))]
  }

  function ReadHeader(b: seq<Byte>): Header
    requires |b| == 24
  {
    Header(FromLittleEndian(b[0..2]), FromLittleEndian(b[2..3]), FromLittleEndian(b[3..4]),
           I32(FromLittleEndian(b[4..8])), I32(FromLittleEndian(b[8..12])), I32(FromLittleEndian(b[12..16])),
           I32(FromLittleEndian(b[16..20])), I32(FromLittleEndian(b[20..24])))
  }

  /** Header first; the sections stand at their offsets from the end of the header. */
  function Parse(b: seq<Byte>): Option<(Header, seq<BtfType>, seq<Byte>)> {
    if |b| < 24 then None
    else
      var h := ReadHeader(b[..24]);
      var t := h.hdrLen + h.typeOff;
      var s := h.hdrLen + h.strOff;
      if h.hdrLen < 24 || h.typeOff < 0 || h.strOff < 0 || h.typeLen < 0 || h.strLen < 0 then None
      else if t + h.typeLen > |b| || s + h.strLen != |b| || h.typeLen % 4 != 0 then None
      else match ReadTypes(ReadWords(b[t..t + h.typeLen]))
        case None => None
        case Some(ts) => Some((h, ts, b[s..s + h.strLen]))
  }

  // ---------------------------------------------------------------- round trip

  /** The extra data is what the kind calls for, and every value fits its field. */
  predicate WellFormedType(t: BtfType) {
    && InfoInRange(t.info) && !t.info.kindFlag && IsI32(t.nameOff) && IsI32(t.sizeOrType)
    && ExtraLength(t.info) == Some(|ExtraWords(t.extra)|)
    && (match t.extra
        case Empty => true
        case IntData(i) => t.info.kind == KIND_INT && IsI32(i)
        case StructData(n, s, o) => (t.info.kind == KIND_STRUCT || t.info.kind == KIND_UNION) && IsI32(n) && IsI32(s) && IsI32(o)
        case FuncProto(ps) => t.info.kind == KIND_FUNC_PROTO && ps != [] && forall k | 0 <= k < |ps| :: IsI32(ps[k].nameOff) && IsI32(ps[k].paramType))
  }

  ghost predicate AllI32(w: seq<int>) {
    forall k | 0 <= k < |w| :: IsI32(w[k])
  }

  lemma {:induction false} ParamsRoundTrip(ps: seq<Param>)
    ensures ReadParams(ParamWords(ps)) == ps
    ensures (forall k | 0 <= k < |ps| :: IsI32(ps[k].nameOff) && IsI32(ps[k].paramType)) ==> AllI32(ParamWords(ps))
  {
    if ps != [] {
      ParamsRoundTrip(ps[1..]);
      assert ParamWords(ps)[2..] == ParamWords(ps[1..]);
    }
  }

  lemma ExtraRoundTrip(t: BtfType)
    requires WellFormedType(t)
    ensures ReadExtra(t.info, ExtraWords(t.extra)) == t.extra && AllI32(ExtraWords(t.extra))
  {
    if t.extra.FuncProto? {
      ParamsRoundTrip(t.extra.params);
    }
  }

  lemma EncodedInfoFits(t: TypeInfo)
    ensures IsI32(EncodeTypeInfo(t))
  {
    hide Bits.Or, Bits.Shl;
  }

  /** One type in front of others reads back, and leaves the others to be read. */
  lemma TypeRoundTrip(t: BtfType, rest: seq<int>)
    requires WellFormedType(t) && ReadTypes(rest).Some?
    ensures ReadTypes(TypeWords(t) + rest) == Some([t] + ReadTypes(rest).value)
  {
    hide EncodeTypeInfo, DecodeTypeInfo;
    TypeInfoRoundTripExactly(t.info);
    ExtraRoundTrip(t);
    var x := ExtraWords(t.extra);
    var w := TypeWords(t) + rest;
    assert w[3..3 + |x|] == x && w[3 + |x|..] == rest;
  }

  lemma {:induction false} AllWordsSplit(ts: seq<BtfType>, n: nat)
    requires 0 < n <= |ts|
    ensures AllWords(ts, n) == TypeWords(ts[0]) + AllWords(ts[1..], n - 1)
  {
    hide TypeWords;
    if n == 1 {
      assert AllWords(ts, 0) == [] && AllWords(ts[1..], 0) == [];
    } else {
      AllWordsSplit(ts, n - 1);
      assert ts[1..][n - 2] == ts[n - 1];
    }
  }

  lemma {:induction false} TypesRoundTrip(ts: seq<BtfType>)
    requires forall k | 0 <= k < |ts| :: WellFormedType(ts[k])
    ensures ReadTypes(AllWords(ts, |ts|)) == Some(ts)
  {
    hide TypeWords, WellFormedType;
    if ts == [] {
      assert AllWords(ts, 0) == [];
    } else {
      TypesRoundTrip(ts[1..]);
      AllWordsSplit(ts, |ts|);
      TypeRoundTrip(ts[0], AllWords(ts[1..], |ts| - 1));
      assert [ts[0]] + ts[1..] == ts;
    }
  }

  lemma TypeWordsFit(t: BtfType)
    requires WellFormedType(t)
    ensures AllI32(TypeWords(t))
  {
    hide EncodeTypeInfo;
    EncodedInfoFits(t.info);
    ExtraRoundTrip(t);
  }

  lemma {:induction false} AllWordsFit(ts: seq<BtfType>, n: nat)
    requires n <= |ts| && forall k | 0 <= k < |ts| :: WellFormedType(ts[k])
    ensures AllI32(AllWords(ts, n))
  {
    hide TypeWords, WellFormedType;
    if n > 0 {
      AllWordsFit(ts, n - 1);
      TypeWordsFit(ts[n - 1]);
    }
  }

  lemma {:induction false} WordsRoundTrip(w: seq<int>, n: nat)
    requires n <= |w| && AllI32(w)
    ensures ReadWords(WordBytes(w, n)) == w[..n]
  {
    hide LittleEndian, FromLittleEndian;
    if n > 0 {
      WordsRoundTrip(w, n - 1);
      var b := WordBytes(w, n);
      assert b[..|b| - 4] == WordBytes(w, n - 1) && b[|b| - 4..] == LittleEndian(w[n - 1], 4);
      Encoding.DoubleWordRoundTrip(w[n - 1]);
      assert w[..n] == w[..n - 1] + [w[n - 1]];
    }
  }

  /** magic is a 16-bit, version and flags are 8-bit fields; the rest are int32. */
  predicate HeaderFits(h: Header) {
    && 0 <= h.magic < 0x1_0000 && 0 <= h.version < 0x100 && 0 <= h.flags < 0x100 && IsI32(h.hdrLen) && IsI32(h.typeOff)
    && IsI32(h.typeLen) && IsI32(h.strOff) && IsI32(h.strLen)
  }

  lemma OneByteRoundTrip(x: int)
    requires 0 <= x < 0x100
    ensures FromLittleEndian(LittleEndian(x, 1)) == x
  {
    assert LittleEndian(x, 1) == [x];
    assert [x][1..] == [];
  }

  lemma HeaderSlices(h: Header)
    ensures var b := HeaderBytes(h);
            && b[0..2] == LittleEndian(h.magic, 2) && b[2..3] == LittleEndian(h.version, 1) && b[3..4] == LittleEndian(h.flags, 1)
            && b[4..8] == LittleEndian(h.hdrLen, 4) && b[8..12] == LittleEndian(h.typeOff, 4) && b[12..16] == LittleEndian(h.typeLen, 4)
            && b[16..20] == LittleEndian(h.strOff, 4) && b[20..24] == LittleEndian(h.strLen, 4)
  {
    hide LittleEndian;
  }

  lemma HeaderRoundTrip(h: Header)
    requires HeaderFits(h)
    ensures ReadHeader(HeaderBytes(h)) == h
  {
    hide LittleEndian, FromLittleEndian, HeaderBytes;
    HeaderSlices(h);
    Encoding.HalfWordRoundTrip(h.magic);
    OneByteRoundTrip(h.version);
    OneByteRoundTrip(h.flags);
    Encoding.DoubleWordRoundTrip(h.hdrLen);
    Encoding.DoubleWordRoundTrip(h.typeOff);
    Encoding.DoubleWordRoundTrip(h.typeLen);
    Encoding.DoubleWordRoundTrip(h.strOff);
    Encoding.DoubleWordRoundTrip(h.strLen);
  }

  /** The text is every second byte of the string section. */
  lemma {:induction false} StringPositions(s: seq<Byte>, n: nat, k: nat)
    requires k < n <= |s|
    ensures StringBytes(s, n)[1 + 2 * k] == s[k] && StringBytes(s, n)[2 + 2 * k] == 0
  {
    if k < n - 1 {
      StringPositions(s, n - 1, k);
    }
  }

  /**
   * The whole buffer round trip: with the lengths `GetBuffer` writes into the header, the parser recovers the header,
   * the type list and the string section; the string section follows the types, and nothing follows it.
   */
  lemma BufferRoundTrip(h: Header, ts: seq<BtfType>, str: seq<Byte>)
    requires forall k | 0 <= k < |ts| :: WellFormedType(ts[k])
    requires var w := AllWords(ts, |ts|);
             && HeaderFits(h) && h.hdrLen == 24 && h.typeOff == 0
             && h.typeLen == h.strOff == 4 * |w| && h.strLen == 1 + 2 * |str|
    ensures var w := AllWords(ts, |ts|);
            var b := HeaderBytes(h) + WordBytes(w, |w|) + StringBytes(str, |str|);
            && |b| == 24 + h.typeLen + h.strLen
            && Parse(b) == Some((h, ts, StringBytes(str, |str|)))
            && forall k | 0 <= k < |str| :: b[24 + h.strOff + 1 + 2 * k] == str[k]
  {
    hide WellFormedType, HeaderBytes, ReadHeader, ReadWords, ReadTypes, AllWords, WordBytes, StringBytes;
    var w := AllWords(ts, |ts|);
    var t, s := WordBytes(w, |w|), StringBytes(str, |str|);
    var b := HeaderBytes(h) + t + s;
    HeaderRoundTrip(h);
    assert b[..24] == HeaderBytes(h) && b[24..24 + |t|] == t && b[24 + |t|..] == s;
    AllWordsFit(ts, |ts|);
    WordsRoundTrip(w, |w|);
    assert w[..|w|] == w;
    TypesRoundTrip(ts);
    assert b[24 + |t|..24 + |t| + |s|] == s;
    forall k | 0 <= k < |str|
      ensures b[24 + h.strOff + 1 + 2 * k] == str[k]
    {
      StringPositions(str, |str|, k);
      assert b[24 + |t| + (1 + 2 * k)] == s[1 + 2 * k];
    }
  }

  // ---------------------------------------------------------------- the types of the loop strategy

  /** `types()` in pkg/strategies/loop_pointer_arithmetic.go */
  function LoopTypes(): seq<BtfType> {
    [ BtfType(0, TypeInfo(0, KIND_FUNC_PROTO, false), 0, Empty),
      BtfType(1, TypeInfo(0, KIND_FUNC, false), 1, Empty),
      BtfType(1, TypeInfo(0, KIND_INT, false), 4, IntData(0x0100_0020)),
      BtfType(1, TypeInfo(1, KIND_STRUCT, false), 4, StructData(1, 3, 0)),
      BtfType(0, TypeInfo(0, KIND_PTR, false), 4, Empty),
      BtfType(0, TypeInfo(2, KIND_FUNC_PROTO, false), 3, FuncProto([Param(1, 3), Param(1, 5)])),
      BtfType(1, TypeInfo(0, KIND_FUNC, false), 6, Empty) ]
  }

  lemma {:induction false} AllWordsStep(ts: seq<BtfType>, n: nat)
    requires n < |ts|
    ensures |AllWords(ts, n + 1)| == |AllWords(ts, n)| + 3 + |ExtraWords(ts[n].extra)|
  {
    hide EncodeTypeInfo;
  }

  /** Their serialized form has 29 words. */
  lemma LoopTypesWords()
    ensures |AllWords(LoopTypes(), 7)| == 29
  {
    hide AllWords;
    var ts := LoopTypes();
    assert |AllWords(ts, 0)| == 0 by {
      NoWords(ts);
    }
    AllWordsStep(ts, 0);
    AllWordsStep(ts, 1);
    AllWordsStep(ts, 2);
    AllWordsStep(ts, 3);
    AllWordsStep(ts, 4);
    AllWordsStep(ts, 5);
    AllWordsStep(ts, 6);
  }

  lemma NoWords(ts: seq<BtfType>)
    ensures AllWords(ts, 0) == []
  {
  }

  /** They are well formed, and the types 2 and 7 that func_info names are functions. */
  lemma LoopTypesAreWellFormed()
    ensures forall k | 0 <= k < 7 :: WellFormedType(LoopTypes()[k])
    ensures LoopTypes()[2 - 1].info.kind == LoopTypes()[7 - 1].info.kind == KIND_FUNC
  {
    var ps := [Param(1, 3), Param(1, 5)];
    assert ps[1..][1..] == [];
    assert |ParamWords(ps)| == 4;
  }

  /** What a type number stands for: numbers count from 1, and 0 is void. */
  datatype Meaning = Void | IntOf(bytes: int, signed: bool, bits: int) | PointerTo(t: Meaning) | StructOf(bytes: int, member: Meaning, at: int)
                   | Function(params: seq<Meaning>, result: Meaning) | Unknown

  function TypeOf(ts: seq<BtfType>, id: int, depth: nat): Meaning
    decreases depth
  {
    if id == 0 then Void
    else if depth == 0 || id < 0 || id > |ts| then Unknown
    else
      var t := ts[id - 1];
      if t.info.kind == KIND_INT && t.extra.IntData? then
        IntOf(t.sizeOrType, t.extra.info / 0x100_0000 % 2 == 1, t.extra.info % 0x100)
      else if t.info.kind == KIND_PTR then PointerTo(TypeOf(ts, t.sizeOrType, depth - 1))
      else if t.info.kind == KIND_STRUCT && t.extra.StructData? then StructOf(t.sizeOrType, TypeOf(ts, t.extra.structType, depth - 1), t.extra.offset)
      else if t.info.kind == KIND_FUNC then TypeOf(ts, t.sizeOrType, depth - 1)
      else if t.info.kind == KIND_FUNC_PROTO then
        var ps := if t.extra.FuncProto? then t.extra.params else [];
        Function(seq(|ps|, k requires 0 <= k < |ps| => TypeOf(ts, ps[k].paramType, depth - 1)), TypeOf(ts, t.sizeOrType, depth - 1))
      else Unknown
  }

  /** In C: `void f(void)` for main, and for the callback `int f(int, struct { int x; } *)`, with a signed int of 32 bits. */
  lemma LoopTypesMean()
    ensures TypeOf(LoopTypes(), 2, 6) == Function([], Void)
    ensures var i := IntOf(4, true, 32); TypeOf(LoopTypes(), 7, 6) == Function([i, PointerTo(StructOf(4, i, 0))], i)
  {
    var ts, i := LoopTypes(), IntOf(4, true, 32);
    assert TypeOf(ts, 1, 5) == Function([], Void);
    assert TypeOf(ts, 3, 4) == i && TypeOf(ts, 3, 2) == i;
    assert TypeOf(ts, 4, 3) == StructOf(4, i, 0);
    assert TypeOf(ts, 5, 4) == PointerTo(StructOf(4, i, 0));
    assert TypeOf(ts, 6, 5) == Function([i, PointerTo(StructOf(4, i, 0))], i);
  }

  /** Void protos and pointers have no name; functions, the integer, the struct, its member and the parameters have the first string. */
  lemma LoopTypeNames()
    ensures forall k | 0 <= k < 7 ::
              LoopTypes()[k].nameOff == if LoopTypes()[k].info.kind == KIND_FUNC_PROTO || LoopTypes()[k].info.kind == KIND_PTR then 0 else 1
    ensures LoopTypes()[3].extra.nameOff == 1 && forall k | 0 <= k < 2 :: LoopTypes()[5].extra.params[k].nameOff == 1
  {
  }
}
