/**
 * Field decoders of the SDIO Card Information Structure (CIS): the bodies of
 * CISTPL_VERS_1, CISTPL_MANFID and CISTPL_FUNCE tuples, and the table that
 * routes a tuple code to its decoder. A decoder sees the body of one tuple
 * (the bytes after the code and link bytes) and the fields of the structure it
 * fills in: the card's common fields when it parses the common CIS (function
 * 0), the function's fields when it parses a function CIS.
 */
module SdioDecode {
  import opened Common

  /** An unsigned char: one byte of the card's register space. */
  newtype byte = x: int | 0 <= x < 256

  // Tuple codes.
  const CISTPL_NULL: byte := 0x00
  const CISTPL_VERS_1: byte := 0x15
  const CISTPL_MANFID: byte := 0x20
  const CISTPL_FUNCID: byte := 0x21
  const CISTPL_FUNCE: byte := 0x22
  const CISTPL_END: byte := 0xff

  /** The FUNCE type left to SDIO function drivers (a LAN node id). */
  const CISTPL_FUNCE_LAN_NODE_ID: byte := 4

  /** CCCR SDIO revision code of SDIO 1.00. */
  const SDIO_SDIO_REV_1_00: nat := 0

  /** Function enable timeout in ms used before SDIO 1.10 (one second). */
  const DEFAULT_ENABLE_TIMEOUT_MS: nat := 1000

  /** TPLFE_MAX_TRAN_SPEED mantissas (in tenths) and units. */
  const SPEED_VAL: seq<nat> := [0, 10, 12, 13, 15, 20, 25, 30, 35, 40, 45, 50, 55, 60, 70, 80]
  const SPEED_UNIT: seq<nat> := [10000, 100000, 1000000, 10000000, 0, 0, 0, 0]

  /**
   * The fields a decoder may fill in. The constructor tells which structure is
   * being filled: the card's (common CIS) or a function's (function CIS).
   */
  datatype Target =
    | CardFields(vendor: nat, device: nat, info: seq<seq<byte>>, blksize: nat, maxDtr: nat)
    | FuncFields(vendor: nat, device: nat, info: seq<seq<byte>>, maxBlksize: nat, enableTimeout: nat)

  /**
   * A 16-bit little-endian field. The driver assembles it as `lo | hi << 8`;
   * the two bytes occupy disjoint bits, so the OR is the sum.
   */
  function Le16(lo: byte, hi: byte): (v: nat)
    ensures v < 0x1_0000
  {
    lo as nat + 256 * hi as nat
  }

  /** The low and high byte of a 16-bit value. */
  function Le16Bytes(v: nat): (b: (byte, byte))
    requires v < 0x1_0000
  {
    ((v % 256) as byte, (v / 256) as byte)
  }

  /** Splitting a 16-bit value and assembling its bytes gives it back, and conversely. */
  lemma Le16RoundTrip(v: nat, lo: byte, hi: byte)
    requires v < 0x1_0000
    ensures Le16(Le16Bytes(v).0, Le16Bytes(v).1) == v
    ensures Le16Bytes(Le16(lo, hi)) == (lo, hi)
  {
  }

  // ---------------------------------------------------------------------
  // CISTPL_MANFID

  /** TPLMID_MANF and TPLMID_CARD: the vendor and device ids. */
  function Manfid(body: seq<byte>): (ids: (nat, nat))
    requires 4 <= |body|
    ensures ids.0 < 0x1_0000 && ids.1 < 0x1_0000
    ensures ids.0 == body[0] as nat + 256 * body[1] as nat
    ensures ids.1 == body[2] as nat + 256 * body[3] as nat
  {
    (Le16(body[0], body[1]), Le16(body[2], body[3]))
  }

  /** The MANFID body that carries the given ids. */
  function ManfidBody(vendor: nat, device: nat): seq<byte>
    requires vendor < 0x1_0000 && device < 0x1_0000
  {
    [Le16Bytes(vendor).0, Le16Bytes(vendor).1, Le16Bytes(device).0, Le16Bytes(device).1]
  }

  /** Decoding a MANFID body gives back the ids it was built from. */
  lemma ManfidRoundTrip(vendor: nat, device: nat, rest: seq<byte>)
    requires vendor < 0x1_0000 && device < 0x1_0000
    ensures Manfid(ManfidBody(vendor, device) + rest) == (vendor, device)
  {
    Le16RoundTrip(vendor, 0, 0);
    Le16RoundTrip(device, 0, 0);
  }

  // ---------------------------------------------------------------------
  // CISTPL_FUNCE

  /** Whether a FUNCE type is whitelisted, i.e. left to the function's driver. */
  function Whitelisted(funceType: byte): (r: bool)
    ensures r <==> funceType == CISTPL_FUNCE_LAN_NODE_ID
  {
    funceType in [CISTPL_FUNCE_LAN_NODE_ID]
  }

  /**
   * TPLFE_MAX_TRAN_SPEED in bit/s: mantissa (bits 3..6, `(b >> 3) & 15`) times
   * unit (bits 0..2, `b & 7`).
   */
  function MaxTranSpeed(b: byte): (r: nat)
    ensures r <= 800_000_000
    ensures r == 0 <==> 4 <= b % 8 || (b / 8) % 16 == 0
  {
    SPEED_VAL[(b / 8) % 16] * SPEED_UNIT[b % 8]
  }

  /** The common (function 0) FUNCE body: TPLFE_FN0_BLK_SIZE and TPLFE_MAX_TRAN_SPEED. */
  function FunceCommon(body: seq<byte>): (r: Result<(nat, nat)>)
    ensures r.Err? <==> |body| < 4 || body[0] != 0
    ensures r.Err? ==> r.code == -EINVAL
    ensures r.Ok? ==> r.value.0 < 0x1_0000 && r.value.0 == body[1] as nat + 256 * body[2] as nat
    ensures r.Ok? ==> r.value.1 == MaxTranSpeed(body[3])
  {
    if |body| < 4 || body[0] != 0 then Err(-EINVAL)
    else Ok((Le16(body[1], body[2]), MaxTranSpeed(body[3])))
  }

  /** The common FUNCE body with the given block size and speed byte. */
  function FunceCommonBody(blksize: nat, speed: byte): seq<byte>
    requires blksize < 0x1_0000
  {
    [0, Le16Bytes(blksize).0, Le16Bytes(blksize).1, speed]
  }

  lemma FunceCommonRoundTrip(blksize: nat, speed: byte, rest: seq<byte>)
    requires blksize < 0x1_0000
    ensures FunceCommon(FunceCommonBody(blksize, speed) + rest) == Ok((blksize, MaxTranSpeed(speed)))
  {
    Le16RoundTrip(blksize, 0, 0);
  }

  /** The shortest function FUNCE body for an SDIO revision. */
  function FunceFuncMinSize(vsn: nat): (n: nat)
    ensures n == 28 || n == 42
    ensures vsn > SDIO_SDIO_REV_1_00 ==> n == 42
  {
    if vsn == SDIO_SDIO_REV_1_00 then 28 else 42
  }

  /**
   * The function FUNCE body: TPLFE_MAX_BLK_SIZE and TPLFE_ENABLE_TIMEOUT_VAL.
   * `first` is the byte the decoder reads as the FUNCE type before it looks at
   * the size; it is the body's first byte whenever the body has one.
   */
  function FunceFunc(first: byte, body: seq<byte>, vsn: nat): (r: Result<(nat, nat)>)
    requires 1 <= |body| ==> first == body[0]
    ensures r.Err? ==> r.code == -EILSEQ || r.code == -EINVAL
    ensures r.Err? && r.code == -EILSEQ <==> Whitelisted(first)
    ensures r.Ok? <==> !Whitelisted(first) && FunceFuncMinSize(vsn) <= |body| && first == 1
    ensures r.Ok? ==> r.value.0 == body[12] as nat + 256 * body[13] as nat
    ensures r.Ok? && vsn > SDIO_SDIO_REV_1_00 ==> r.value.1 == 10 * (body[28] as nat + 256 * body[29] as nat)
    ensures r.Ok? && vsn == SDIO_SDIO_REV_1_00 ==> r.value.1 == DEFAULT_ENABLE_TIMEOUT_MS
  {
    if Whitelisted(first) then Err(-EILSEQ)
    else if |body| < FunceFuncMinSize(vsn) || first != 1 then Err(-EINVAL)
    else
      var timeout := if vsn > SDIO_SDIO_REV_1_00 then Le16(body[28], body[29]) * 10 else DEFAULT_ENABLE_TIMEOUT_MS;
      Ok((Le16(body[12], body[13]), timeout))
  }

  /**
   * The shortest function FUNCE body of a revision carrying the given maximum
   * block size and, from SDIO 1.10 on, the given enable-timeout field.
   */
  function FunceFuncBody(vsn: nat, maxBlksize: nat, timeout: nat): (b: seq<byte>)
    requires maxBlksize < 0x1_0000 && timeout < 0x1_0000
    ensures |b| == FunceFuncMinSize(vsn)
  {
    var m := Le16Bytes(maxBlksize);
    var t := Le16Bytes(timeout);
    [1] + seq(11, _ => 0 as byte) + [m.0, m.1] + seq(14, _ => 0 as byte)
      + (if vsn == SDIO_SDIO_REV_1_00 then [] else [t.0, t.1] + seq(12, _ => 0 as byte))
  }

  /** A function FUNCE body built from its fields decodes back to them. */
  lemma FunceFuncRoundTrip(vsn: nat, maxBlksize: nat, timeout: nat, rest: seq<byte>)
    requires maxBlksize < 0x1_0000 && timeout < 0x1_0000
    ensures var body := FunceFuncBody(vsn, maxBlksize, timeout) + rest;
      FunceFunc(body[0], body, vsn)
        == Ok((maxBlksize, if vsn == SDIO_SDIO_REV_1_00 then DEFAULT_ENABLE_TIMEOUT_MS else 10 * timeout))
  {
    var body := FunceFuncBody(vsn, maxBlksize, timeout) + rest;
    var m := Le16Bytes(maxBlksize);
    var t := Le16Bytes(timeout);
    Le16RoundTrip(maxBlksize, 0, 0);
    Le16RoundTrip(timeout, 0, 0);
    assert body[0] == 1 && body[12] == m.0 && body[13] == m.1;
    if vsn != SDIO_SDIO_REV_1_00 {
      assert body[28] == t.0 && body[29] == t.1;
    }
  }

  /** A FUNCE tuple decoded into the target, given the byte read as its type. */
  function FunceInto(first: byte, body: seq<byte>, vsn: nat, tgt: Target): (r: (int, Target))
    requires 1 <= |body| ==> first == body[0]
  {
    match tgt
    case FuncFields(_, _, _, _, _) =>
      (match FunceFunc(first, body, vsn)
       case Err(e) => (e, tgt)
       case Ok(f) => (0, tgt.(maxBlksize := f.0, enableTimeout := f.1)))
    case CardFields(_, _, _, _, _) =>
      (match FunceCommon(body)
       case Err(e) => (e, tgt)
       case Ok(f) => (0, tgt.(blksize := f.0, maxDtr := f.1)))
  }

  /**
   * FUNCE as the driver is written: its table entry allows an empty body, and
   * the function form reads the type byte before any size check, so with an
   * empty body it reads `beyond`: whatever lies in the freshly allocated tuple
   * node just after its header, which nothing initialises.
   */
  function FunceAsWritten(body: seq<byte>, vsn: nat, tgt: Target, beyond: byte): (r: (int, Target))
    ensures r.0 == 0 || r.0 == -EINVAL || r.0 == -EILSEQ
  {
    FunceInto((body + [beyond])[0], body, vsn, tgt)
  }

  /** With an empty body the as-written outcome depends on memory outside the tuple. */
  lemma FunceAsWrittenReadsBeyond(vsn: nat, tgt: Target)
    requires tgt.FuncFields?
    ensures FunceAsWritten([], vsn, tgt, CISTPL_FUNCE_LAN_NODE_ID).0 == -EILSEQ
    ensures FunceAsWritten([], vsn, tgt, 1).0 == -EINVAL
  {
  }

  /** FUNCE with empty bodies rejected before any byte is read. */
  function Funce(body: seq<byte>, vsn: nat, tgt: Target): (r: (int, Target))
    ensures r.0 == 0 || r.0 == -EINVAL || r.0 == -EILSEQ
    ensures r.0 != 0 ==> r.1 == tgt
    ensures |body| == 0 ==> r.0 == -EINVAL
  {
    if |body| == 0 then (-EINVAL, tgt) else FunceInto(body[0], body, vsn, tgt)
  }

  /** The corrected FUNCE agrees with the driver wherever the driver reads inside the tuple. */
  lemma FunceCorrection(body: seq<byte>, vsn: nat, tgt: Target, beyond: byte)
    requires 1 <= |body| || tgt.CardFields?
    ensures Funce(body, vsn, tgt) == FunceAsWritten(body, vsn, tgt, beyond)
  {
  }

  // ---------------------------------------------------------------------
  // CISTPL_VERS_1

  /** Index of the first NUL byte. */
  function NulIndex(s: seq<byte>): (k: nat)
    requires 0 in s
    ensures k < |s| && s[k] == 0 && 0 !in s[..k]
  {
    if s[0] == 0 then 0 else
      assert s == [s[0]] + s[1..];
      1 + NulIndex(s[1..])
  }

  /** The prefix of s before the first 0xff byte (all of s if there is none). */
  function UntilFF(s: seq<byte>): (r: seq<byte>)
    ensures |r| <= |s| && r == s[..|r|] && 0xff !in r
    ensures |r| < |s| ==> s[|r|] == 0xff
  {
    if |s| == 0 || s[0] == 0xff then [] else
      assert s == [s[0]] + s[1..];
      [s[0]] + UntilFF(s[1..])
  }

  /** The number of NUL bytes in s. */
  function Nuls(s: seq<byte>): (n: nat)
    ensures n == 0 <==> 0 !in s
  {
    if s == [] then 0 else (if s[0] == 0 then 1 else 0) + Nuls(s[1..])
  }

  lemma {:induction false} NulsAppend(a: seq<byte>, b: seq<byte>)
    ensures Nuls(a + b) == Nuls(a) + Nuls(b)
  {
    if a == [] {
      assert a + b == b;
    } else {
      assert (a + b)[1..] == a[1..] + b;
      NulsAppend(a[1..], b);
    }
  }

  /**
   * The NUL-terminated strings of s, in order, without their terminators;
   * bytes after the last NUL are not part of any string.
   */
  function Strings(s: seq<byte>): (r: seq<seq<byte>>)
    ensures |r| == Nuls(s)
    ensures forall j :: 0 <= j < |r| ==> 0 !in r[j]
    decreases |s|
  {
    if 0 !in s then []
    else
      var k := NulIndex(s);
      assert s == s[..k] + [s[k]] + s[k + 1..];
      NulsAppend(s[..k] + [s[k]], s[k + 1..]);
      NulsAppend(s[..k], [s[k]]);
      [s[..k]] + Strings(s[k + 1..])
  }

  /** The bytes after the last NUL of s. */
  function Trailing(s: seq<byte>): seq<byte>
    decreases |s|
  {
    if 0 !in s then s else Trailing(s[NulIndex(s) + 1..])
  }

  /** TPLLV1_INFO: the strings after the two version bytes, up to the 0xff end mark. */
  function Vers1Info(body: seq<byte>): seq<seq<byte>>
    requires 2 <= |body|
  {
    Strings(UntilFF(body[2..]))
  }

  /** Strings laid out one after another, each with its NUL terminator. */
  function Join(ps: seq<seq<byte>>): seq<byte>
  {
    if ps == [] then [] else ps[0] + [0] + Join(ps[1..])
  }

  /** Splitting joined strings gives them back. */
  lemma {:induction false} StringsOfJoin(ps: seq<seq<byte>>)
    requires forall j :: 0 <= j < |ps| ==> 0 !in ps[j]
    ensures Strings(Join(ps)) == ps
  {
    if ps != [] {
      var s := Join(ps);
      var p := ps[0];
      assert s == p + [0] + Join(ps[1..]);
      assert s[|p|] == 0 && s[..|p|] == p;
      NulIndexAt(s, |p|);
      assert s[|p| + 1..] == Join(ps[1..]);
      StringsOfJoin(ps[1..]);
    }
  }

  /** s is its strings, joined again, followed by trailing bytes with no NUL. */
  lemma {:induction false} JoinOfStrings(s: seq<byte>)
    ensures s == Join(Strings(s)) + Trailing(s)
    ensures 0 !in Trailing(s)
    decreases |s|
  {
    if 0 in s {
      var k := NulIndex(s);
      var rest := s[k + 1..];
      SplitAt(s, k);
      JoinOfStrings(rest);
      var ps := Strings(s);
      assert ps[0] == s[..k] && ps[1..] == Strings(rest);
      assert Join(ps) == s[..k] + [0] + Join(Strings(rest));
      assert Trailing(s) == Trailing(rest);
      Regroup(s[..k], [0], Join(Strings(rest)), Trailing(rest));
    }
  }

  /**
   * Collects the strings of a CISTPL_VERS_1 body: counts the NULs before the
   * end mark, then copies that many strings one after another.
   */
  method Vers1Strings(body: seq<byte>) returns (strs: seq<seq<byte>>)
    requires 2 <= |body|
    ensures strs == Vers1Info(body)
  {
    var field := body[2..];
    var size, count := CountStrings(field);
    strs := [];
    if count == 0 {
      return;
    }
    strs := CopyStrings(field[..size], count);
  }

  /**
   * The first loop of the VERS_1 decoder: the length of the information field
   * (up to the 0xff end mark) and the number of NULs in it.
   */
  method CountStrings(field: seq<byte>) returns (size: nat, count: nat)
    ensures size <= |field| && field[..size] == UntilFF(field)
    ensures count == Nuls(UntilFF(field))
  {
    size := 0;
    count := 0;
    while size < |field|
      invariant size <= |field| && 0xff !in field[..size]
      invariant count == Nuls(field[..size])
    {
      if field[size] == 0xff {
        break;
      }
      assert field[..size + 1] == field[..size] + [field[size]];
      NulsAppend(field[..size], [field[size]]);
      if field[size] == 0 {
        count := count + 1;
      }
      size := size + 1;
    }
    UntilFFOf(field, size);
  }

  /** The second loop of the VERS_1 decoder: copies `count` strings from info. */
  method CopyStrings(info: seq<byte>, count: nat) returns (strs: seq<seq<byte>>)
    requires count == Nuls(info)
    ensures strs == Strings(info)
  {
    strs := [];
    var pos := 0;
    var k := 0;
    assert info[pos..] == info;
    while k < count
      invariant k <= count && pos <= |info|
      invariant Strings(info) == strs + Strings(info[pos..])
      invariant Nuls(info[pos..]) == count - k
    {
      var j := CopyString(info, pos);
      StringsStep(info, pos, j);
      Assoc(strs, [info[pos..j]], Strings(info[j + 1..]));
      strs := strs + [info[pos..j]];
      pos := j + 1;
      k := k + 1;
    }
  }

  /** strcpy's scan: the index of the first NUL at or after pos. */
  method CopyString(s: seq<byte>, pos: nat) returns (j: nat)
    requires pos <= |s| && 0 in s[pos..]
    ensures pos <= j < |s| && s[j] == 0 && 0 !in s[pos..j]
  {
    j := pos;
    while s[j] != 0
      invariant pos <= j < |s| && 0 !in s[pos..j]
      invariant 0 in s[j..]
      decreases |s| - j
    {
      assert s[j..] == [s[j]] + s[j + 1..];
      assert s[pos..j + 1] == s[pos..j] + [s[j]];
      j := j + 1;
    }
  }

  /** Peeling the first string off the strings of s[pos..], which ends at j. */
  lemma StringsStep(s: seq<byte>, pos: nat, j: nat)
    requires pos <= j < |s| && s[j] == 0 && 0 !in s[pos..j]
    ensures Strings(s[pos..]) == [s[pos..j]] + Strings(s[j + 1..])
    ensures Nuls(s[j + 1..]) + 1 == Nuls(s[pos..])
  {
    var rest := s[pos..];
    assert rest[..j - pos] == s[pos..j];
    assert rest[j - pos + 1..] == s[j + 1..];
    NulIndexAt(rest, j - pos);
  }

  lemma Assoc<T>(a: seq<T>, b: seq<T>, c: seq<T>)
    ensures a + b + c == a + (b + c)
  {
  }

  lemma Regroup(a: seq<byte>, b: seq<byte>, c: seq<byte>, d: seq<byte>)
    ensures a + b + (c + d) == (a + b + c) + d
  {
  }

  /** s around its k-th byte. */
  lemma SplitAt(s: seq<byte>, k: nat)
    requires k < |s|
    ensures s == s[..k] + [s[k]] + s[k + 1..]
  {
  }

  /** A prefix free of 0xff and ended by 0xff or by the end of s is UntilFF(s). */
  lemma UntilFFOf(s: seq<byte>, i: nat)
    requires i <= |s| && 0xff !in s[..i] && (i == |s| || s[i] == 0xff)
    ensures UntilFF(s) == s[..i]
  {
  }

  /** The first NUL is the only NUL with no NUL before it. */
  lemma NulIndexAt(s: seq<byte>, k: nat)
    requires k < |s| && s[k] == 0 && 0 !in s[..k]
    ensures NulIndex(s) == k
  {
  }

  // ---------------------------------------------------------------------
  // The tuple table

  /** The decoder attached to a table entry. */
  datatype Parser = ParseVers1 | ParseManfid | NoParser | ParseFunce

  /** A known tuple code, its minimum body size and its decoder. */
  datatype TplEntry = TplEntry(code: byte, minSize: nat, parser: Parser)

  const CIS_TPL_LIST: seq<TplEntry> := [
    TplEntry(CISTPL_VERS_1, 3, ParseVers1),
    TplEntry(CISTPL_MANFID, 4, ParseManfid),
    TplEntry(CISTPL_FUNCID, 2, NoParser),
    TplEntry(CISTPL_FUNCE, 0, ParseFunce)
  ]

  /** Whether the table has an entry for the code. */
  predicate Known(code: byte)
  {
    code == CISTPL_VERS_1 || code == CISTPL_MANFID || code == CISTPL_FUNCID || code == CISTPL_FUNCE
  }

  /** Index of the first table entry for the code, or the table size if none. */
  function TplIndex(code: byte): (i: nat)
    ensures i <= |CIS_TPL_LIST|
    ensures i < |CIS_TPL_LIST| ==> CIS_TPL_LIST[i].code == code
    ensures forall j :: 0 <= j < i ==> CIS_TPL_LIST[j].code != code
    ensures i < |CIS_TPL_LIST| <==> Known(code)
  {
    TplIndexFrom(code, 0)
  }

  function TplIndexFrom(code: byte, from: nat): (i: nat)
    requires from <= |CIS_TPL_LIST|
    requires forall j :: 0 <= j < from ==> CIS_TPL_LIST[j].code != code
    ensures from <= i <= |CIS_TPL_LIST|
    ensures i < |CIS_TPL_LIST| ==> CIS_TPL_LIST[i].code == code
    ensures forall j :: 0 <= j < i ==> CIS_TPL_LIST[j].code != code
    decreases |CIS_TPL_LIST| - from
  {
    if from == |CIS_TPL_LIST| || CIS_TPL_LIST[from].code == code then from
    else TplIndexFrom(code, from + 1)
  }

  /**
   * One tuple handed to the table: an unknown code gives -EILSEQ (the tuple is
   * kept for drivers), a body shorter than the entry's minimum gives -EINVAL,
   * otherwise the entry's decoder runs (FUNCID has none and gives 0).
   */
  function Parse(code: byte, body: seq<byte>, vsn: nat, tgt: Target): (r: (int, Target))
    ensures r.0 == 0 || r.0 == -EINVAL || r.0 == -EILSEQ
    ensures r.0 != 0 ==> r.1 == tgt
    ensures r.1.FuncFields? == tgt.FuncFields?
  {
    var i := TplIndex(code);
    if i == |CIS_TPL_LIST| then (-EILSEQ, tgt)
    else
      var e := CIS_TPL_LIST[i];
      if |body| < e.minSize then (-EINVAL, tgt)
      else match e.parser
        case NoParser => (0, tgt)
        case ParseVers1 =>
          var strs := Vers1Info(body);
          (0, if strs == [] then tgt else tgt.(info := strs))
        case ParseManfid =>
          var ids := Manfid(body);
          (0, tgt.(vendor := ids.0, device := ids.1))
        case ParseFunce => Funce(body, vsn, tgt)
  }

  /**
   * A tuple is kept for drivers exactly when its code is unknown or it is a
   * whitelisted FUNCE of a function CIS.
   */
  lemma ParseQueues(code: byte, body: seq<byte>, vsn: nat, tgt: Target)
    ensures Parse(code, body, vsn, tgt).0 == -EILSEQ <==>
      !Known(code) || (code == CISTPL_FUNCE && tgt.FuncFields? && 1 <= |body| && Whitelisted(body[0]))
  {
  }

  /** A known tuple shorter than its table minimum is rejected and changes nothing. */
  lemma ParseShort(code: byte, body: seq<byte>, vsn: nat, tgt: Target)
    requires Known(code) && |body| < CIS_TPL_LIST[TplIndex(code)].minSize
    ensures Parse(code, body, vsn, tgt) == (-EINVAL, tgt)
  {
  }

  /** FUNCID tuples of legal size are dropped without effect. */
  lemma ParseFuncid(body: seq<byte>, vsn: nat, tgt: Target)
    requires 2 <= |body|
    ensures Parse(CISTPL_FUNCID, body, vsn, tgt) == (0, tgt)
  {
  }

  /**
   * A VERS_1 body with no NUL before its end mark stores nothing; otherwise the
   * stored strings are those of the body, as many as its NULs.
   */
  lemma ParseVers1Stores(body: seq<byte>, vsn: nat, tgt: Target)
    requires 3 <= |body|
    ensures var r := Parse(CISTPL_VERS_1, body, vsn, tgt);
      r.0 == 0 &&
      (Nuls(UntilFF(body[2..])) == 0 ==> r.1 == tgt) &&
      (Nuls(UntilFF(body[2..])) != 0 ==>
        r.1 == tgt.(info := Vers1Info(body)) && |r.1.info| == Nuls(UntilFF(body[2..])))
  {
  }
}
