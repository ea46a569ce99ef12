/**
 * Reading and releasing the CIS of an SDIO card and of its functions. The card
 * and each function are objects whose fields the parsers fill in; the tuples
 * kept for function drivers are nodes in a list. A function's list is its own
 * nodes followed by the card's list, so both walks see the common tuples.
 */
module SdioCis {
  import opened Common
  import opened SdioDecode
  import opened SdioWalk

  /** A tuple kept for drivers (struct sdio_func_tuple); its list links are the sequences that hold it. */
  class TupleNode {
    const code: byte
    const size: nat
    const data: seq<byte>

    constructor(code: byte, size: nat, data: seq<byte>)
      ensures this.code == code && this.size == size && this.data == data
    {
      this.code := code;
      this.size := size;
      this.data := data;
    }
  }

  /** The tuples the nodes hold, in list order. */
  function Values(nodes: seq<TupleNode>): (ts: seq<Tuple>)
    ensures |ts| == |nodes|
  {
    if nodes == [] then []
    else [Tuple(nodes[0].code, nodes[0].size, nodes[0].data)] + Values(nodes[1..])
  }

  lemma {:induction false} ValuesAppend(a: seq<TupleNode>, b: seq<TupleNode>)
    ensures Values(a + b) == Values(a) + Values(b)
  {
    if a == [] {
      assert a + b == b;
    } else {
      assert (a + b)[1..] == a[1..] + b;
      ValuesAppend(a[1..], b);
    }
  }

  /** An SDIO card (struct mmc_card): its register space and what its common CIS says. */
  class Card {
    /** The register space of function 0 as seen through single-byte reads. */
    const space: seq<byte>
    /** The SDIO revision from the CCCR. */
    const sdioVsn: nat
    var vendor: nat
    var device: nat
    var blksize: nat
    var maxDtr: nat
    var info: seq<seq<byte>>
    /** Tuples of the common CIS kept for drivers. */
    var tuples: seq<TupleNode>

    function Fields(): Target
      reads this
    {
      CardFields(vendor, device, info, blksize, maxDtr)
    }

    constructor(space: seq<byte>, sdioVsn: nat)
      ensures this.space == space && this.sdioVsn == sdioVsn
      ensures Fields() == CardFields(0, 0, [], 0, 0) && tuples == []
    {
      this.space := space;
      this.sdioVsn := sdioVsn;
      vendor, device, blksize, maxDtr := 0, 0, 0, 0;
      info := [];
      tuples := [];
    }
  }

  /** One function of a card (struct sdio_func). */
  class Func {
    const num: nat
    const card: Card
    var vendor: nat
    var device: nat
    var maxBlksize: nat
    var enableTimeout: nat
    var info: seq<seq<byte>>
    /** The function's own kept tuples followed by the card's. */
    var tuples: seq<TupleNode>

    function Fields(): Target
      reads this
    {
      FuncFields(vendor, device, info, maxBlksize, enableTimeout)
    }

    constructor(card: Card, num: nat)
      requires 1 <= num <= 7
      ensures this.card == card && this.num == num
      ensures Fields() == FuncFields(0, 0, [], 0, 0) && tuples == []
    {
      this.card := card;
      this.num := num;
      vendor, device, maxBlksize, enableTimeout := 0, 0, 0, 0;
      info := [];
      tuples := [];
    }
  }

  /** The structure a CIS read fills in: the function's when there is one, else the card's. */
  function Owner(card: Card, func: Func?): set<object>
  {
    if func == null then {card} else {func}
  }

  /** The fields being filled in. */
  function FieldsOf(card: Card, func: Func?): (t: Target)
    reads card, func
    ensures t.FuncFields? <==> func != null
  {
    if func == null then card.Fields() else func.Fields()
  }

  /** The tuple list being built. */
  function ListOf(card: Card, func: Func?): seq<TupleNode>
    reads card, func
  {
    if func == null then card.tuples else func.tuples
  }

  /** The function number whose CIS is read: 0 for the common CIS. */
  function FnOf(func: Func?): nat
  {
    if func == null then 0 else func.num
  }

  // ---------------------------------------------------------------------
  // Tuple parsers

  /** cistpl_vers_1: stores the product information strings, if there are any. */
  method CistplVers1(card: Card, func: Func?, body: seq<byte>) returns (ret: int)
    requires 3 <= |body|
    modifies Owner(card, func)
    ensures (ret, FieldsOf(card, func)) == Parse(CISTPL_VERS_1, body, card.sdioVsn, old(FieldsOf(card, func)))
    ensures ListOf(card, func) == old(ListOf(card, func))
  {
    var strs := Vers1Strings(body);
    if strs == [] {
      return 0;
    }
    if func != null {
      func.info := strs;
    } else {
      card.info := strs;
    }
    return 0;
  }

  /** cistpl_manfid: stores the vendor and device ids. */
  method CistplManfid(card: Card, func: Func?, body: seq<byte>) returns (ret: int)
    requires 4 <= |body|
    modifies Owner(card, func)
    ensures (ret, FieldsOf(card, func)) == Parse(CISTPL_MANFID, body, card.sdioVsn, old(FieldsOf(card, func)))
    ensures ListOf(card, func) == old(ListOf(card, func))
  {
    var vendor := Le16(body[0], body[1]);
    var device := Le16(body[2], body[3]);
    if func != null {
      func.vendor := vendor;
      func.device := device;
    } else {
      card.vendor := vendor;
      card.device := device;
    }
    return 0;
  }

  /** cistpl_funce_common: the function 0 block size and maximum transfer speed. */
  method CistplFunceCommon(card: Card, body: seq<byte>) returns (ret: int)
    modifies card
    ensures (ret, card.Fields()) == FunceInto(if |body| == 0 then 0 else body[0], body, card.sdioVsn, old(card.Fields()))
    ensures card.tuples == old(card.tuples)
  {
    if |body| < 4 || body[0] != 0 {
      return -EINVAL;
    }
    card.blksize := Le16(body[1], body[2]);
    card.maxDtr := MaxTranSpeed(body[3]);
    return 0;
  }

  /** cistpl_funce_func: the function's maximum block size and enable timeout. */
  method CistplFunceFunc(func: Func, body: seq<byte>) returns (ret: int)
    requires 1 <= |body|
    modifies func
    ensures (ret, func.Fields()) == FunceInto(body[0], body, func.card.sdioVsn, old(func.Fields()))
    ensures func.tuples == old(func.tuples)
  {
    if Whitelisted(body[0]) {
      return -EILSEQ;
    }
    var vsn := func.card.sdioVsn;
    var minSize := if vsn == SDIO_SDIO_REV_1_00 then 28 else 42;
    if |body| < minSize || body[0] != 1 {
      return -EINVAL;
    }
    func.maxBlksize := Le16(body[12], body[13]);
    if vsn > SDIO_SDIO_REV_1_00 {
      func.enableTimeout := Le16(body[28], body[29]) * 10;
    } else {
      func.enableTimeout := DEFAULT_ENABLE_TIMEOUT_MS;
    }
    return 0;
  }

  /** cistpl_funce: the common or the function form, with empty bodies rejected first. */
  method CistplFunce(card: Card, func: Func?, body: seq<byte>) returns (ret: int)
    requires func != null ==> func.card == card
    modifies Owner(card, func)
    ensures (ret, FieldsOf(card, func)) == Parse(CISTPL_FUNCE, body, card.sdioVsn, old(FieldsOf(card, func)))
    ensures ListOf(card, func) == old(ListOf(card, func))
  {
    if |body| < 1 {
      return -EINVAL;
    }
    if func != null {
      ret := CistplFunceFunc(func, body);
    } else {
      ret := CistplFunceCommon(card, body);
    }
  }

  /** The table lookup: the index of the first entry for the code, or the table size. */
  method FindTpl(code: byte) returns (i: nat)
    ensures i == TplIndex(code)
  {
    i := 0;
    while i < |CIS_TPL_LIST| && CIS_TPL_LIST[i].code != code
      invariant i <= |CIS_TPL_LIST|
      invariant forall j :: 0 <= j < i ==> CIS_TPL_LIST[j].code != code
    {
      i := i + 1;
    }
  }

  /** Hands one tuple body to the table: lookup, size check, then the entry's parser. */
  method ParseTuple(card: Card, func: Func?, code: byte, body: seq<byte>) returns (ret: int)
    requires func != null ==> func.card == card
    modifies Owner(card, func)
    ensures (ret, FieldsOf(card, func)) == Parse(code, body, card.sdioVsn, old(FieldsOf(card, func)))
    ensures ListOf(card, func) == old(ListOf(card, func))
  {
    var i := FindTpl(code);
    if i == |CIS_TPL_LIST| {
      return -EILSEQ;
    }
    var e := CIS_TPL_LIST[i];
    if |body| < e.minSize {
      return -EINVAL;
    }
    match e.parser
    case NoParser =>
      ret := 0;
    case ParseVers1 =>
      ret := CistplVers1(card, func, body);
    case ParseManfid =>
      ret := CistplManfid(card, func, body);
    case ParseFunce =>
      ret := CistplFunce(card, func, body);
  }

  // ---------------------------------------------------------------------
  // The walk

  /** Reads n body bytes from addr one at a time; a failed read ends it with its error. */
  method ReadBody(space: seq<byte>, addr: nat, n: nat) returns (data: seq<byte>, err: int)
    ensures err == 0 ==> Body(space, addr, n) == Ok(data)
    ensures err != 0 ==> Body(space, addr, n) == Err(err)
  {
    data := [];
    var i := 0;
    while i < n
      invariant i <= n && (i == 0 || addr + i <= |space|)
      invariant data == if i == 0 then [] else space[addr..addr + i]
    {
      var x := ReadByte(space, addr + i);
      if x.Err? {
        return data, x.code;
      }
      data := data + [x.value];
      i := i + 1;
    }
    return data, 0;
  }

  /**
   * One iteration of the walk's loop at ptr. A tuple that is kept becomes a
   * new node at the end of the list being built.
   */
  method WalkStep(card: Card, func: Func?, ptr: nat) returns (stop: bool, ret: int, next: nat)
    requires func != null ==> func.card == card
    modifies Owner(card, func)
    ensures var r := Step(card.space, card.sdioVsn, ptr, old(FieldsOf(card, func)), Values(old(ListOf(card, func))));
      stop == r.Stop? && (stop ==> ret == r.ret) && (!stop ==> next == r.ptr) &&
      FieldsOf(card, func) == r.tgt && Values(ListOf(card, func)) == r.queued
    ensures old(ListOf(card, func)) <= ListOf(card, func)
    ensures forall n :: n in ListOf(card, func) && n !in old(ListOf(card, func)) ==> fresh(n)
  {
    var code := ReadByte(card.space, ptr);
    if code.Err? {
      return true, code.code, ptr;
    }
    if code.value == CISTPL_END {
      return true, 0, ptr;
    }
    if code.value == CISTPL_NULL {
      return false, 0, ptr + 1;
    }
    var link := ReadByte(card.space, ptr + 1);
    if link.Err? {
      return true, link.code, ptr;
    }
    if link.value == 0xff {
      return true, 0, ptr;
    }
    var data, err := ReadBody(card.space, ptr + 2, link.value as nat);
    if err != 0 {
      return true, err, ptr;
    }
    ghost var before := ListOf(card, func);
    ret := ParseTuple(card, func, code.value, data);
    if ret == -EILSEQ {
      var node := new TupleNode(code.value, link.value as nat, data);
      if func != null {
        func.tuples := func.tuples + [node];
      } else {
        card.tuples := card.tuples + [node];
      }
      ValuesAppend(before, [node]);
      ret := 0;
    }
    stop := ret != 0;
    next := ptr + 2 + link.value as nat;
  }

  /** The whole read of one CIS, as a value: pointer, then walk. */
  function CisRead(space: seq<byte>, vsn: nat, fn: nat, tgt: Target): (r: Walked)
    ensures r.ret == 0 || r.ret == -EIO || r.ret == -EINVAL
    ensures r.tgt.FuncFields? == tgt.FuncFields?
  {
    match CisPointer(space, fn)
    case Err(e) => Walked(e, tgt, [])
    case Ok(p) => Walk(space, vsn, p, tgt, [])
  }

  /** The three pointer reads, least significant byte first; the first failure is returned. */
  method ReadCisPointer(space: seq<byte>, fn: nat) returns (r: Result<nat>)
    ensures r == CisPointer(space, fn)
  {
    var base := FbrBase(fn) + SDIO_FBR_CIS;
    var ptr: nat := 0;
    var i := 0;
    while i < 3
      invariant i <= 3 && (i == 0 || base + i <= |space|)
      invariant ptr == (if 1 <= i then space[base] as nat else 0)
        + (if 2 <= i then 0x100 * space[base + 1] as nat else 0)
        + (if 3 <= i then 0x1_0000 * space[base + 2] as nat else 0)
    {
      var x := ReadByte(space, base + i);
      if x.Err? {
        return Err(x.code);
      }
      ptr := ptr + x.value as nat * [1, 0x100, 0x1_0000][i];
      i := i + 1;
    }
    return Ok(ptr);
  }

  /**
   * sdio1_read_cis: reads the CIS pointer of the function (or of function 0),
   * then walks the tuples, filling in fields and keeping tuples in a new list;
   * a function's list is then followed by the card's.
   */
  method ReadCis(card: Card, func: Func?) returns (ret: int)
    requires func != null ==> func.card == card
    requires ListOf(card, func) == []
    modifies Owner(card, func)
    ensures var c := CisRead(card.space, card.sdioVsn, FnOf(func), old(FieldsOf(card, func)));
      ret == c.ret && FieldsOf(card, func) == c.tgt &&
      (func == null ==> Values(card.tuples) == c.queued) &&
      (func != null && CisPointer(card.space, func.num).Err? ==> func.tuples == []) &&
      (func != null && CisPointer(card.space, func.num).Ok? ==>
        |c.queued| <= |func.tuples| && func.tuples == func.tuples[..|c.queued|] + card.tuples &&
        Values(func.tuples[..|c.queued|]) == c.queued &&
        (card.tuples == [] || card.tuples[0] !in func.tuples[..|c.queued|]))
  {
    var fn := if func == null then 0 else func.num;
    var pointer := ReadCisPointer(card.space, fn);
    if pointer.Err? {
      return pointer.code;
    }
    var ptr := pointer.value;
    ghost var p0 := ptr;
    ghost var t0 := FieldsOf(card, func);
    while true
      invariant Walk(card.space, card.sdioVsn, p0, t0, []) ==
        Walk(card.space, card.sdioVsn, ptr, FieldsOf(card, func), Values(ListOf(card, func)))
      invariant forall n :: n in ListOf(card, func) ==> fresh(n)
      decreases if ptr <= |card.space| then |card.space| - ptr else 0
    {
      var stop, r, next := WalkStep(card, func, ptr);
      if stop {
        ret := r;
        break;
      }
      ptr := next;
    }
    if func != null {
      ghost var own := func.tuples;
      func.tuples := func.tuples + card.tuples;
      assert func.tuples[..|own|] == own;
    }
  }

  /** sdio1_read_common_cis. */
  method ReadCommonCis(card: Card) returns (ret: int)
    requires card.tuples == []
    modifies card
    ensures var c := CisRead(card.space, card.sdioVsn, 0, old(card.Fields()));
      ret == c.ret && card.Fields() == c.tgt && Values(card.tuples) == c.queued
  {
    ret := ReadCis(card, null);
  }

  /**
   * sdio1_read_func_cis: reads the function's CIS; on success a function
   * without its own vendor id takes the card's vendor and device ids.
   */
  method ReadFuncCis(func: Func) returns (ret: int)
    requires func.tuples == []
    modifies func
    ensures var c := CisRead(func.card.space, func.card.sdioVsn, func.num, old(func.Fields()));
      ret == c.ret &&
      func.maxBlksize == c.tgt.maxBlksize && func.enableTimeout == c.tgt.enableTimeout && func.info == c.tgt.info &&
      (ret == 0 && c.tgt.vendor == 0 ==> func.vendor == func.card.vendor && func.device == func.card.device) &&
      (ret != 0 || c.tgt.vendor != 0 ==> func.vendor == c.tgt.vendor && func.device == c.tgt.device)
    ensures func.card.tuples == old(func.card.tuples)
    ensures var c := CisRead(func.card.space, func.card.sdioVsn, func.num, old(func.Fields()));
      var shared := func.card.tuples;
      (CisPointer(func.card.space, func.num).Err? ==> func.tuples == []) &&
      (CisPointer(func.card.space, func.num).Ok? ==>
        |c.queued| <= |func.tuples| && func.tuples == func.tuples[..|c.queued|] + shared &&
        Values(func.tuples[..|c.queued|]) == c.queued &&
        (shared == [] || shared[0] !in func.tuples[..|c.queued|]))
  {
    ret := ReadCis(func.card, func);
    if ret != 0 {
      return;
    }
    if func.vendor == 0 {
      func.vendor := func.card.vendor;
      func.device := func.card.device;
    }
    return 0;
  }

  /** sdio1_free_common_cis: releases every node of the card's list and empties it. */
  method FreeCommonCis(card: Card) returns (freed: seq<TupleNode>)
    modifies card
    ensures freed == old(card.tuples) && card.tuples == []
    ensures card.Fields() == old(card.Fields())
  {
    freed := [];
    var i := 0;
    while i < |card.tuples|
      invariant i <= |card.tuples| && freed == card.tuples[..i]
    {
      freed := freed + [card.tuples[i]];
      i := i + 1;
    }
    card.tuples := [];
  }

  /** The nodes of a list up to (not including) the first node of a shared tail. */
  function OwnPrefix(list: seq<TupleNode>, shared: seq<TupleNode>): (own: seq<TupleNode>)
    ensures |own| <= |list| && own == list[..|own|]
    ensures shared == [] ==> own == list
  {
    if list == [] || (shared != [] && list[0] == shared[0]) then []
    else [list[0]] + OwnPrefix(list[1..], shared)
  }

  /** For a list built as own nodes followed by a shared tail, the own prefix is exactly the own nodes. */
  lemma {:induction false} OwnPrefixOfLinked(own: seq<TupleNode>, shared: seq<TupleNode>)
    requires shared == [] || shared[0] !in own
    ensures OwnPrefix(own + shared, shared) == own
  {
    if own == [] {
      assert own + shared == shared;
    } else {
      assert (own + shared)[1..] == own[1..] + shared;
      OwnPrefixOfLinked(own[1..], shared);
    }
  }

  /** A list whose head is not the shared head keeps that head in its own prefix. */
  lemma OwnPrefixCons(list: seq<TupleNode>, shared: seq<TupleNode>)
    requires list != [] && (shared == [] || list[0] != shared[0])
    ensures OwnPrefix(list, shared) == [list[0]] + OwnPrefix(list[1..], shared)
  { }

  /** No node among the first i of the list is the first node of the shared tail. */
  predicate OwnUpTo(list: seq<TupleNode>, shared: seq<TupleNode>, i: nat)
    requires i <= |list|
  {
    shared == [] || forall j :: 0 <= j < i ==> list[j] != shared[0]
  }

  /** Walking the list until the shared head (or the end) collects exactly its own prefix. */
  lemma {:induction false} OwnPrefixUpTo(list: seq<TupleNode>, shared: seq<TupleNode>, i: nat)
    requires i <= |list| && OwnUpTo(list, shared, i)
    requires i == |list| || (shared != [] && list[i] == shared[0])
    ensures OwnPrefix(list, shared) == list[..i]
    decreases i
  {
    if i == 0 {
      assert list == [] || (shared != [] && list[0] == shared[0]);
    } else {
      OwnPrefixCons(list, shared);
      var rest := list[1..];
      assert OwnUpTo(rest, shared, i - 1) by {
        if shared != [] {
          forall j | 0 <= j < i - 1 ensures rest[j] != shared[0] {
            assert rest[j] == list[j + 1];
          }
        }
      }
      assert i - 1 == |rest| || rest[i - 1] == list[i];
      OwnPrefixUpTo(rest, shared, i - 1);
      assert list[..i] == [list[0]] + rest[..i - 1];
    }
  }

  /**
   * sdio1_free_func_cis: releases the function's nodes up to the first node of
   * the card's list, and detaches the function from the list; the card's list
   * is left as it is.
   */
  method FreeFuncCis(func: Func) returns (freed: seq<TupleNode>)
    modifies func
    ensures freed == OwnPrefix(old(func.tuples), func.card.tuples) && func.tuples == []
    ensures func.Fields() == old(func.Fields())
  {
    var list := func.tuples;
    var shared := func.card.tuples;
    freed := [];
    var i := 0;
    while i < |list| && (shared == [] || list[i] != shared[0])
      invariant i <= |list| && freed == list[..i] && OwnUpTo(list, shared, i)
    {
      freed := freed + [list[i]];
      i := i + 1;
    }
    OwnPrefixUpTo(list, shared, i);
    func.tuples := [];
  }
}
