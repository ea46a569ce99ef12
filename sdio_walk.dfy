/**
 * The CIS tuple walk. A CIS is a chain of tuples in the card's register space:
 * a code byte, a link byte giving the body size, then the body. A code of 0x00
 * is a one-byte null tuple, and a code or link of 0xff ends the chain. Reads of
 * the register space go through single-byte commands that may fail; here a
 * read fails exactly when its address lies outside the space.
 */
module SdioWalk {
  import opened Common
  import opened SdioDecode

  /** Offset of the CIS pointer in the CCCR (function 0) and in every FBR. */
  const SDIO_FBR_CIS: nat := 0x09

  /** Base of the function basic registers of function fn (the CCCR for fn 0). */
  function FbrBase(fn: nat): nat
  {
    fn * 0x100
  }

  /** One single-byte read of the register space. */
  function ReadByte(space: seq<byte>, addr: nat): (r: Result<byte>)
  {
    if addr < |space| then Ok(space[addr]) else Err(-EIO)
  }

  /** The CIS pointer of function fn: three bytes, least significant first. */
  function CisPointer(space: seq<byte>, fn: nat): (r: Result<nat>)
    ensures r.Ok? ==> r.value < 0x100_0000
    ensures r.Err? ==> r.code == -EIO
  {
    var a := FbrBase(fn) + SDIO_FBR_CIS;
    if a + 3 <= |space| then Ok(space[a] as nat + 0x100 * space[a + 1] as nat + 0x1_0000 * space[a + 2] as nat)
    else Err(-EIO)
  }

  /** The space with the 24-bit pointer p stored as function fn's CIS pointer. */
  function WithPointer(space: seq<byte>, fn: nat, p: nat): seq<byte>
    requires FbrBase(fn) + SDIO_FBR_CIS + 3 <= |space| && p < 0x100_0000
  {
    var a := FbrBase(fn) + SDIO_FBR_CIS;
    space[a := (p % 0x100) as byte][a + 1 := (p / 0x100 % 0x100) as byte][a + 2 := (p / 0x1_0000) as byte]
  }

  /** The pointer read back is the pointer stored. */
  lemma CisPointerRoundTrip(space: seq<byte>, fn: nat, p: nat)
    requires FbrBase(fn) + SDIO_FBR_CIS + 3 <= |space| && p < 0x100_0000
    ensures CisPointer(WithPointer(space, fn, p), fn) == Ok(p)
  {
  }

  /** A tuple kept for function drivers: its code, its size (the link byte) and its body. */
  datatype Tuple = Tuple(code: byte, size: nat, data: seq<byte>)

  /** The outcome of one walk step. */
  datatype StepOut =
    | Stop(ret: int, tgt: Target, queued: seq<Tuple>)
    | Next(ptr: nat, tgt: Target, queued: seq<Tuple>)

  /** The outcome of a whole walk: the return code, the decoded fields, the kept tuples. */
  datatype Walked = Walked(ret: int, tgt: Target, queued: seq<Tuple>)

  /** The body of a tuple: n bytes read one by one from addr; the first failure ends it. */
  function Body(space: seq<byte>, addr: nat, n: nat): (r: Result<seq<byte>>)
    ensures r.Ok? ==> |r.value| == n
  {
    if n == 0 then Ok([])
    else if addr + n <= |space| then Ok(space[addr..addr + n])
    else Err(-EIO)
  }

  /**
   * One iteration of the walk at ptr: read the code; stop on 0xff; skip a null
   * byte; read the link; stop on 0xff; read the body; hand it to the table. A
   * -EILSEQ result keeps the tuple and continues; 0 continues; any other
   * result, like any failed read, stops the walk with that result.
   */
  function Step(space: seq<byte>, vsn: nat, ptr: nat, tgt: Target, queued: seq<Tuple>): (r: StepOut)
    ensures r.Next? ==> ptr < |space| && ptr < r.ptr && r.tgt.FuncFields? == tgt.FuncFields?
    ensures r.Stop? ==> r.ret != -EILSEQ && r.tgt.FuncFields? == tgt.FuncFields?
  {
    match ReadByte(space, ptr)
    case Err(e) => Stop(e, tgt, queued)
    case Ok(code) =>
      if code == CISTPL_END then Stop(0, tgt, queued)
      else if code == CISTPL_NULL then Next(ptr + 1, tgt, queued)
      else match ReadByte(space, ptr + 1)
        case Err(e) => Stop(e, tgt, queued)
        case Ok(link) =>
          if link == 0xff then Stop(0, tgt, queued)
          else match Body(space, ptr + 2, link as nat)
            case Err(e) => Stop(e, tgt, queued)
            case Ok(data) =>
              var (ret, tgt') := Parse(code, data, vsn, tgt);
              if ret == -EILSEQ then Next(ptr + 2 + link as nat, tgt', queued + [Tuple(code, link as nat, data)])
              else if ret == 0 then Next(ptr + 2 + link as nat, tgt', queued)
              else Stop(ret, tgt', queued)
  }

  /** The walk from ptr to its end. */
  function Walk(space: seq<byte>, vsn: nat, ptr: nat, tgt: Target, queued: seq<Tuple>): (w: Walked)
    ensures w.ret != -EILSEQ
    ensures w.ret == 0 || w.ret == -EIO || w.ret == -EINVAL
    ensures w.tgt.FuncFields? == tgt.FuncFields?
    ensures |queued| <= |w.queued| && w.queued[..|queued|] == queued
    decreases if ptr <= |space| then |space| - ptr else 0
  {
    match Step(space, vsn, ptr, tgt, queued)
    case Stop(ret, t, q) => Walked(ret, t, q)
    case Next(p, t, q) => Walk(space, vsn, p, t, q)
  }

  /**
   * How a step moves: a null code moves one byte, any other tuple moves past
   * its code, link and body; a step ends the walk with 0 exactly at an end
   * mark (a 0xff code, or a 0xff link).
   */
  lemma StepMoves(space: seq<byte>, vsn: nat, ptr: nat, tgt: Target, queued: seq<Tuple>)
    ensures var r := Step(space, vsn, ptr, tgt, queued);
      (r.Next? && space[ptr] == CISTPL_NULL ==> r.ptr == ptr + 1) &&
      (r.Next? && space[ptr] != CISTPL_NULL ==> ptr + 1 < |space| && r.ptr == ptr + 2 + space[ptr + 1] as nat) &&
      (r.Stop? && r.ret == 0 <==>
        ptr < |space| && (space[ptr] == CISTPL_END || (space[ptr] != CISTPL_NULL && ptr + 1 < |space| && space[ptr + 1] == 0xff)))
  {
  }

  /** Whether a tuple is one the walk keeps for drivers, in a common or a function CIS. */
  predicate Kept(t: Tuple, isFunc: bool)
  {
    |t.data| == t.size && t.size < 0xff &&
    (!Known(t.code) || (t.code == CISTPL_FUNCE && isFunc && 1 <= t.size && Whitelisted(t.data[0])))
  }

  /** A step keeps at most one tuple, and only one the walk is meant to keep. */
  lemma StepKeeps(space: seq<byte>, vsn: nat, ptr: nat, tgt: Target, queued: seq<Tuple>)
    ensures var r := Step(space, vsn, ptr, tgt, queued);
      r.queued == queued ||
      (|r.queued| == |queued| + 1 && r.queued[..|queued|] == queued && Kept(r.queued[|queued|], tgt.FuncFields?))
  {
    var r := Step(space, vsn, ptr, tgt, queued);
    if r.queued != queued {
      var code := space[ptr];
      var link := space[ptr + 1];
      var data := space[ptr + 2..ptr + 2 + link as nat];
      ParseQueues(code, data, vsn, tgt);
      assert r.queued == queued + [Tuple(code, link as nat, data)];
    }
  }

  /** Whether every tuple of ts from index `from` on is kept. */
  predicate KeptFrom(ts: seq<Tuple>, from: nat, isFunc: bool)
  {
    forall i :: from <= i < |ts| ==> Kept(ts[i], isFunc)
  }

  /** Every tuple the walk adds is an unknown tuple or a whitelisted function FUNCE. */
  lemma {:induction false} WalkKeeps(space: seq<byte>, vsn: nat, ptr: nat, tgt: Target, queued: seq<Tuple>)
    ensures KeptFrom(Walk(space, vsn, ptr, tgt, queued).queued, |queued|, tgt.FuncFields?)
    decreases if ptr <= |space| then |space| - ptr else 0
  {
    var r := Step(space, vsn, ptr, tgt, queued);
    if r.Next? {
      var w := Walk(space, vsn, r.ptr, r.tgt, r.queued);
      WalkKeeps(space, vsn, r.ptr, r.tgt, r.queued);
      StepKeeps(space, vsn, ptr, tgt, queued);
      forall i | |queued| <= i < |w.queued|
        ensures Kept(w.queued[i], tgt.FuncFields?)
      {
        if i < |r.queued| {
          assert w.queued[..|r.queued|] == r.queued;
          assert w.queued[i] == r.queued[i];
          assert i == |queued|;
        } else {
          assert Kept(w.queued[i], r.tgt.FuncFields?);
        }
      }
    }
  }

  /** The CIS bytes of a chain of tuples (without the end mark). */
  function Encode(ts: seq<Tuple>): seq<byte>
    requires forall i :: 0 <= i < |ts| ==> ts[i].size < 0xff
  {
    if ts == [] then [] else [ts[0].code, ts[0].size as byte] + ts[0].data + Encode(ts[1..])
  }

  /**
   * A chain of tuples unknown to the table, ended by 0xff, walks back to
   * exactly those tuples, in order, with result 0 and no field decoded.
   */
  lemma {:induction false} WalkEncoded(space: seq<byte>, vsn: nat, ptr: nat, tgt: Target, queued: seq<Tuple>, ts: seq<Tuple>)
    requires forall i :: 0 <= i < |ts| ==> ts[i].size < 0xff
    requires forall i :: 0 <= i < |ts| ==> Unknown(ts[i])
    requires ptr + |Encode(ts)| < |space|
    requires space[ptr..ptr + |Encode(ts)| + 1] == Encode(ts) + [CISTPL_END]
    ensures Walk(space, vsn, ptr, tgt, queued) == Walked(0, tgt, queued + ts)
    decreases |ts|
  {
    if ts == [] {
      assert space[ptr] == (Encode(ts) + [CISTPL_END])[0];
      assert queued + ts == queued;
    } else {
      var t := ts[0];
      var next := ptr + 2 + t.size;
      EncodedHead(space, ptr, ts);
      StepUnknown(space, vsn, ptr, tgt, queued, t);
      WalkEncoded(space, vsn, next, tgt, queued + [t], ts[1..]);
      assert [t] + ts[1..] == ts;
      Assoc(queued, [t], ts[1..]);
    }
  }

  /** Where the first tuple of an encoded chain and the rest of the chain lie. */
  lemma EncodedHead(space: seq<byte>, ptr: nat, ts: seq<Tuple>)
    requires ts != [] && forall i :: 0 <= i < |ts| ==> ts[i].size < 0xff
    requires |ts[0].data| == ts[0].size
    requires ptr + |Encode(ts)| < |space|
    requires space[ptr..ptr + |Encode(ts)| + 1] == Encode(ts) + [CISTPL_END]
    ensures var next := ptr + 2 + ts[0].size;
      space[ptr] == ts[0].code && space[ptr + 1] == ts[0].size as byte &&
      next + |Encode(ts[1..])| < |space| &&
      space[ptr + 2..next] == ts[0].data &&
      space[next..next + |Encode(ts[1..])| + 1] == Encode(ts[1..]) + [CISTPL_END]
  {
    var t := ts[0];
    var head: seq<byte> := [t.code, t.size as byte];
    var rest := Encode(ts[1..]) + [CISTPL_END];
    assert Encode(ts) + [CISTPL_END] == head + t.data + rest;
    SplitThree(space, ptr, head, t.data, rest);
  }

  /** A stretch of bytes made of three pieces lies piece by piece in the space. */
  lemma SplitThree(space: seq<byte>, ptr: nat, head: seq<byte>, body: seq<byte>, rest: seq<byte>)
    requires |head| == 2 && ptr + |head| + |body| + |rest| <= |space|
    requires space[ptr..ptr + |head| + |body| + |rest|] == head + body + rest
    ensures space[ptr] == head[0] && space[ptr + 1] == head[1]
    ensures space[ptr + 2..ptr + 2 + |body|] == body
    ensures space[ptr + 2 + |body|..ptr + 2 + |body| + |rest|] == rest
  {
    var w := head + body + rest;
    var e := ptr + |w|;
    assert space[ptr] == space[ptr..e][0] == w[0];
    assert space[ptr + 1] == space[ptr..e][1] == w[1];
    SliceOfSlice(space, ptr, e, 2, 2 + |body|);
    assert w[2..2 + |body|] == body;
    SliceOfSlice(space, ptr, e, 2 + |body|, |w|);
    assert w[2 + |body|..] == rest;
  }

  /** A tuple the table does not know, with a body that can be kept. */
  predicate Unknown(t: Tuple)
  {
    |t.data| == t.size && t.size < 0xff && !Known(t.code) && t.code != CISTPL_NULL && t.code != CISTPL_END
  }

  /** One step over an unknown tuple keeps it and moves past it. */
  lemma StepUnknown(space: seq<byte>, vsn: nat, ptr: nat, tgt: Target, queued: seq<Tuple>, t: Tuple)
    requires Unknown(t) && ptr + 2 + t.size <= |space|
    requires space[ptr] == t.code && space[ptr + 1] == t.size as byte && space[ptr + 2..ptr + 2 + t.size] == t.data
    ensures Step(space, vsn, ptr, tgt, queued) == Next(ptr + 2 + t.size, tgt, queued + [t])
  {
    ParseQueues(t.code, t.data, vsn, tgt);
  }

  lemma SliceOfSlice(s: seq<byte>, a: nat, b: nat, c: nat, d: nat)
    requires a <= b <= |s| && c <= d <= b - a
    ensures s[a..b][c..d] == s[a + c..a + d]
  {
    assert forall i :: 0 <= i < d - c ==> s[a..b][c..d][i] == s[a + c..a + d][i];
  }
}
