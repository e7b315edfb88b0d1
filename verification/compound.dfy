/** The NFSv4.1 COMPOUND driver: reply budget, rollback, result list and slot handling
    (Engine::compound, op_read, op_read_plus and op_readdir of src/nfsv4/engine.cpp; sections
    2.10.6.4 and 16.2.3 of RFC 8881).

    What an operation computes comes with the call; how much of it the reply takes is decided
    here.  The encoder is a list of encoded pieces with their XDR sizes. */
module Compound {
  import Readdir

  // ---- the encoder -----------------------------------------------------------------

  /** A 4-byte word, an 8-byte word, padded opaque data, or an entry of known XDR size. */
  datatype Piece = Word(n: nat) | Hyper(n: nat) | Opaque(len: nat) | Encoded(size: nat)

  function PieceSize(p: Piece): nat {
    match p
    case Word(_) => 4
    case Hyper(_) => 8
    case Opaque(len) => Readdir.Aligned4(len)
    case Encoded(size) => size
  }

  function Size(ps: seq<Piece>): nat {
    if ps == [] then 0 else PieceSize(ps[0]) + Size(ps[1..])
  }

  lemma {:induction false} SizeAppend(a: seq<Piece>, b: seq<Piece>)
    ensures Size(a + b) == Size(a) + Size(b)
  {
    if a == [] {
      assert a + b == b;
    } else {
      assert (a + b)[1..] == a[1..] + b;
      SizeAppend(a[1..], b);
    }
  }

  class XdrEnc {
    var out: seq<Piece>

    constructor (header: seq<Piece>)
      ensures out == header
    {
      out := header;
    }

    method Put(ps: seq<Piece>)
      modifies this
      ensures out == old(out) + ps
    {
      out := out + ps;
    }

    /** Discards everything encoded since the mark. */
    method Rollback(mark: nat)
      requires mark <= |out|
      modifies this
      ensures out == old(out)[..mark]
    {
      out := out[..mark];
    }
  }

  // ---- operations ------------------------------------------------------------------

  const OK: nat := 0
  const TOOSMALL: nat := 10005
  const BADXDR: nat := 10036
  const REQ_TOO_BIG: nat := 10065
  const REP_TOO_BIG: nat := 10066
  const REP_TOO_BIG_TO_CACHE: nat := 10067
  const RETRY_UNCACHED_REP: nat := 10068
  const TOO_MANY_OPS: nat := 10070
  const NOT_ONLY_OP: nat := 10081

  const READ: nat := 25
  const READDIR: nat := 26
  const BIND_CONN_TO_SESSION: nat := 41
  const DESTROY_SESSION: nat := 44
  const SEQUENCE: nat := 53
  const READ_PLUS: nat := 68

  /** What READ_PLUS finds at the offset. */
  datatype Extent = AtEnd(eof: bool) | Hole(eof: bool) | Data(got: nat, eof: bool)

  /** A request operation with what its execution would find. */
  datatype Call =
    | Undecodable
    | Plain(op: nat, word: nat, status: nat, body: seq<Piece>)
    | Read(count: nat, limit: nat, got: nat, eof: bool)
    | ReadPlus(count: nat, limit: nat, extent: Extent)
    | ReadDir(dir: Readdir.Dir, at: nat, dircount: nat, maxcount: nat)

  predicate SelfBudgets(op: nat) {
    op == READ || op == READDIR || op == READ_PLUS
  }

  /** An operation that budgets itself and fails before it reads encodes only its status. */
  predicate Sound(c: Call) {
    && (c.Plain? && SelfBudgets(c.op) ==> c.status != OK && c.body == [])
    && (c.ReadDir? ==> c.at <= |Readdir.Listing(c.dir)|)
  }

  function OpOf(c: Call): nat {
    match c
    case Undecodable => 0
    case Plain(op, _, _, _) => op
    case Read(_, _, _, _) => READ
    case ReadPlus(_, _, _) => READ_PLUS
    case ReadDir(_, _, _, _) => READDIR
  }

  /** One entry of the result list. */
  datatype OpResult = OpResult(op: nat, status: nat, body: seq<Piece>)

  function Encode(r: OpResult): seq<Piece> {
    [Word(r.op), Word(r.status)] + r.body
  }

  function Bytes(r: OpResult): nat {
    8 + Size(r.body)
  }

  lemma EncodeSize(r: OpResult)
    ensures Size(Encode(r)) == Bytes(r)
  {
    SizeAppend([Word(r.op), Word(r.status)], r.body);
    assert [Word(r.op), Word(r.status)][1..] == [Word(r.status)] && [Word(r.status)][1..] == [];
  }

  datatype Limits = Limits(response: nat, session: nat, cache: bool)

  function Min(a: nat, b: nat): nat {
    if a < b then a else b
  }

  /** What READ may return: 256 bytes of slack stay free behind the opcode. */
  function ReadLength(count: nat, limit: nat, size: nat, lim: Limits): nat {
    var budget := if lim.response > size + 4 + 256 then lim.response - (size + 4) - 256 else 0;
    Min(Min(count, limit), budget)
  }

  function FlagWord(b: bool): Piece {
    Word(if b then 1 else 0)
  }

  function EntryPieces(ents: seq<Readdir.Ent>): seq<Piece> {
    if ents == [] then [] else EntryPieces(ents[..|ents| - 1]) + [Encoded(ents[|ents| - 1].size)]
  }

  /** The result an operation encodes when the reply already has `size` bytes. */
  function Exec(c: Call, size: nat, lim: Limits): OpResult
    requires Sound(c)
  {
    match c
    case Undecodable => OpResult(0, BADXDR, [])
    case Plain(_, word, status, body) => OpResult(word, status, body)
    case Read(count, limit, got, eof) =>
      var n := Min(got, ReadLength(count, limit, size, lim));
      OpResult(READ, OK, [FlagWord(eof), Word(n), Opaque(n)])
    case ReadPlus(count, limit, extent) => ExecReadPlus(extent, ReadLength(count, limit, size, lim))
    case ReadDir(dir, at, dircount, maxcount) =>
      match Readdir.Answer4(dir, at, dircount, Readdir.Budget(maxcount, lim.response, size + 4))
      case TooSmall => OpResult(READDIR, TOOSMALL, [])
      case Failed(_) => OpResult(READDIR, BADXDR, [])
      case Listed(ents, eof) =>
        OpResult(READDIR, OK, [Hyper(0)] + (EntryPieces(ents) + [Word(0), FlagWord(eof)]))
  }

  function ExecReadPlus(extent: Extent, len: nat): OpResult {
    if extent.AtEnd? || len == 0 then OpResult(READ_PLUS, OK, [FlagWord(extent.eof), Word(0)])
    else if extent.Hole? then OpResult(READ_PLUS, OK, [FlagWord(extent.eof), Word(1), Word(1), Hyper(0), Hyper(0)])
    else
      var n := Min(extent.got, len);
      if n == 0 then OpResult(READ_PLUS, OK, [FlagWord(extent.eof), Word(0)])
      else OpResult(READ_PLUS, OK, [FlagWord(extent.eof), Word(1), Word(0), Hyper(0), Word(n), Opaque(n)])
  }

  function TooBig(size: nat, lim: Limits): nat {
    if lim.cache && size + 16 <= lim.session then REP_TOO_BIG_TO_CACHE else REP_TOO_BIG
  }

  /** What ends up in the reply: the result itself, or an error if it does not leave room. */
  function Kept(c: Call, size: nat, lim: Limits): OpResult
    requires Sound(c)
  {
    var r := Exec(c, size, lim);
    if !SelfBudgets(OpOf(c)) && size + Bytes(r) + 16 > lim.response then
      OpResult(OpOf(c), TooBig(size + Bytes(r), lim), [])
    else r
  }

  // ---- the per-operation bound -----------------------------------------------------

  function Max(a: nat, b: nat): nat {
    if a > b then a else b
  }

  lemma {:induction false} EntryBytes(ents: seq<Readdir.Ent>)
    ensures Size(EntryPieces(ents)) == Readdir.EncodedBytes(ents)
  {
    if ents != [] {
      var n := |ents| - 1;
      EntryBytes(ents[..n]);
      SizeAppend(EntryPieces(ents[..n]), [Encoded(ents[n].size)]);
      assert [Encoded(ents[n].size)][1..] == [];
    }
  }

  /** The entries of a READDIR page use no more than the scan accounted for. */
  lemma {:induction false} FillWithin(ents: seq<Readdir.Ent>, s: Readdir.Scan, limit: Readdir.Meter)
    requires s.used.total == 32 + Readdir.EncodedBytes(s.out) <= limit.total
    ensures var r := Readdir.Fill(Readdir.V4, ents, s, limit);
            r.used.total == 32 + Readdir.EncodedBytes(r.out) <= limit.total
    decreases |ents|
  {
    if ents != [] && !s.full {
      var e := ents[0];
      var next := Readdir.Offer(Readdir.V4, e, s, limit);
      assert (s.out + [e])[..|s.out|] == s.out;
      FillWithin(ents[1..], next, limit);
    }
  }

  lemma ReaddirBound(c: Call, size: nat, lim: Limits)
    requires c.ReadDir? && Sound(c)
    ensures size + Bytes(Exec(c, size, lim)) <= Max(lim.response, size + 8)
  {
    hide Readdir.Fill, Readdir.Listing;
    var budget := Readdir.Budget(c.maxcount, lim.response, size + 4);
    if budget >= 128 {
      FillWithin(Readdir.Listing(c.dir)[c.at..], Readdir.START4, Readdir.Meter(c.dircount, budget));
      var r := Readdir.Answer4(c.dir, c.at, c.dircount, budget);
      EntryBytes(r.ents);
      SizeAppend(EntryPieces(r.ents), [Word(0), FlagWord(r.eof)]);
      SizeAppend([Hyper(0)], EntryPieces(r.ents) + [Word(0), FlagWord(r.eof)]);
      assert [Word(0), FlagWord(r.eof)][1..] == [FlagWord(r.eof)] && [FlagWord(r.eof)][1..] == [] && [Hyper(0)][1..] == [];
    }
  }

  lemma ReadBound(c: Call, size: nat, lim: Limits)
    requires c.Read?
    ensures size + Bytes(Exec(c, size, lim)) <= Max(lim.response, size + 16)
  {
    var n := Min(c.got, ReadLength(c.count, c.limit, size, lim));
    TwoSize([Opaque(n)], FlagWord(c.eof), Word(n));
    TwoSize([], FlagWord(c.eof), Word(n));
    assert [FlagWord(c.eof), Word(n), Opaque(n)] == [FlagWord(c.eof), Word(n)] + [Opaque(n)];
    assert [Opaque(n)][1..] == [];
  }

  /** READ returns all there is of what was asked for, unless it has to leave 256 bytes free; then it
      returns what leaves exactly that. */
  lemma ReadIsMaximal(c: Call, size: nat, lim: Limits)
    requires c.Read?
    ensures exists n: nat ::
              && Kept(c, size, lim) == OpResult(25, 0, [Word(if c.eof then 1 else 0), Word(n), Opaque(n)])
              && n <= c.got && n <= c.count && n <= c.limit && (n > 0 ==> size + 4 + 256 + n <= lim.response)
              && (n == c.got || n == c.count || n == c.limit || size + 4 + 256 + n >= lim.response)
  {
    var n := Min(c.got, ReadLength(c.count, c.limit, size, lim));
    assert Kept(c, size, lim) == OpResult(25, 0, [Word(if c.eof then 1 else 0), Word(n), Opaque(n)]);
  }

  /** READ_PLUS likewise: nothing at the end of the file or without room, a hole as it is, or as much
      data as fits. */
  lemma ReadPlusIsMaximal(c: Call, size: nat, lim: Limits)
    requires c.ReadPlus?
    ensures var r, eof := Kept(c, size, lim), Word(if c.extent.eof then 1 else 0);
            var room := c.count > 0 && c.limit > 0 && size + 4 + 256 < lim.response;
            && r.op == 68 && r.status == 0
            && (if c.extent.AtEnd? || !room then r.body == [eof, Word(0)]
                else if c.extent.Hole? then r.body == [eof, Word(1), Word(1), Hyper(0), Hyper(0)]
                else if c.extent.got == 0 then r.body == [eof, Word(0)]
                else exists n: nat ::
                  && r.body == [eof, Word(1), Word(0), Hyper(0), Word(n), Opaque(n)]
                  && 0 < n <= c.extent.got && n <= c.count && n <= c.limit && size + 4 + 256 + n <= lim.response
                  && (n == c.extent.got || n == c.count || n == c.limit || size + 4 + 256 + n == lim.response))
  {
    var len := ReadLength(c.count, c.limit, size, lim);
    if c.extent.Data? && len > 0 && c.extent.got > 0 {
      var n := Min(c.extent.got, len);
      assert Kept(c, size, lim).body == [Word(if c.extent.eof then 1 else 0), Word(1), Word(0), Hyper(0), Word(n), Opaque(n)];
    }
  }

  lemma ReadPlusBound(extent: Extent, len: nat)
    ensures Bytes(ExecReadPlus(extent, len)) <= if len == 0 then 16 else 35 + len
  {
    var f, n := FlagWord(extent.eof), if extent.Data? then Min(extent.got, len) else 0;
    TwoSize([], f, Word(0));
    assert [f, Word(0)] == [f, Word(0)] + [];
    ReadPlusSizes(f, n);
  }

  lemma ReadPlusSizes(f: Piece, n: nat)
    requires f.Word?
    ensures Size([f, Word(1), Word(1), Hyper(0), Hyper(0)]) == 28
    ensures Size([f, Word(1), Word(0), Hyper(0), Word(n), Opaque(n)]) == 24 + Readdir.Aligned4(n)
  {
    FiveSize([], f, Word(1), Word(1), Hyper(0), Hyper(0));
    FiveSize([Opaque(n)], f, Word(1), Word(0), Hyper(0), Word(n));
    assert [f, Word(1), Word(1), Hyper(0), Hyper(0)] == [f, Word(1), Word(1), Hyper(0), Hyper(0)] + [];
    assert [f, Word(1), Word(0), Hyper(0), Word(n), Opaque(n)] == [f, Word(1), Word(0), Hyper(0), Word(n)] + [Opaque(n)];
    assert [Opaque(n)][1..] == [];
  }

  lemma TwoSize(rest: seq<Piece>, a: Piece, b: Piece)
    ensures Size([a, b] + rest) == PieceSize(a) + PieceSize(b) + Size(rest)
  {
    SizeAppend([a, b], rest);
    assert [a, b][1..] == [b] && [b][1..] == [];
    assert Size([b]) == PieceSize(b);
  }

  lemma FiveSize(rest: seq<Piece>, a: Piece, b: Piece, c: Piece, d: Piece, e: Piece)
    ensures Size([a, b, c, d, e] + rest)
         == PieceSize(a) + PieceSize(b) + PieceSize(c) + PieceSize(d) + PieceSize(e) + Size(rest)
  {
    TwoSize([c, d, e] + rest, a, b);
    TwoSize([e] + rest, c, d);
    SizeAppend([e], rest);
    assert [e][1..] == [];
    assert [a, b, c, d, e] + rest == [a, b] + ([c, d, e] + rest);
    assert [c, d, e] + rest == [c, d] + ([e] + rest);
  }

  /** Each operation leaves the reply within the limit, or adds at most sixteen bytes; one
      that is replaced adds exactly its opcode and status. */
  lemma OperationBound(c: Call, size: nat, lim: Limits)
    requires Sound(c) && !c.Undecodable?
    ensures size + Bytes(Kept(c, size, lim)) <= Max(lim.response, size + 16)
    ensures Kept(c, size, lim) != Exec(c, size, lim) ==> Bytes(Kept(c, size, lim)) == 8
    ensures !SelfBudgets(OpOf(c)) ==> size + Bytes(Kept(c, size, lim)) <= Max(lim.response, size + 8)
  {
    hide Readdir.Answer4, Readdir.Budget, Readdir.Listing;
    match c
    case Read(_, _, _, _) => ReadBound(c, size, lim);
    case ReadPlus(count, limit, extent) => ReadPlusBound(extent, ReadLength(count, limit, size, lim));
    case ReadDir(_, _, _, _) => ReaddirBound(c, size, lim);
    case _ =>
  }

  /** The fewest bytes an operation can add: READ and READ_PLUS state eof and a length, any
      other one can be cut down to its opcode and status. */
  function Floor(c: Call): nat {
    if c.Read? || c.ReadPlus? then 16 else 8
  }

  lemma ReadFloor(c: Call, size: nat, lim: Limits)
    requires c.Read? || c.ReadPlus?
    ensures Bytes(Kept(c, size, lim)) >= 16
    ensures size + 16 <= lim.response ==> size + Bytes(Kept(c, size, lim)) <= lim.response
  {
    if c.Read? {
      var n := Min(c.got, ReadLength(c.count, c.limit, size, lim));
      ReadBound(c, size, lim);
      TwoSize([Opaque(n)], FlagWord(c.eof), Word(n));
      assert [FlagWord(c.eof), Word(n), Opaque(n)] == [FlagWord(c.eof), Word(n)] + [Opaque(n)];
    } else {
      ReadPlusBound(c.extent, ReadLength(c.count, c.limit, size, lim));
      ReadPlusFloor(c.extent, ReadLength(c.count, c.limit, size, lim));
    }
  }

  lemma ReadPlusFloor(extent: Extent, len: nat)
    ensures Bytes(ExecReadPlus(extent, len)) >= 16
  {
    var f, n := FlagWord(extent.eof), if extent.Data? then Min(extent.got, len) else 0;
    TwoSize([], f, Word(0));
    assert [f, Word(0)] == [f, Word(0)] + [];
    ReadPlusSizes(f, n);
  }

  /** An operation leaves the reply within the limit exactly when its smallest result fits. */
  lemma OperationFits(c: Call, size: nat, lim: Limits)
    requires Sound(c) && !c.Undecodable?
    ensures size + Bytes(Kept(c, size, lim)) <= lim.response <==> size + Floor(c) <= lim.response
  {
    hide Kept, Exec;
    if c.Read? || c.ReadPlus? {
      ReadFloor(c, size, lim);
    } else {
      OtherFits(c, size, lim);
    }
  }

  lemma OtherFits(c: Call, size: nat, lim: Limits)
    requires Sound(c) && !c.Undecodable? && !c.Read? && !c.ReadPlus?
    ensures size + Bytes(Kept(c, size, lim)) <= Max(lim.response, size + 8)
  {
    hide Readdir.Answer4, Readdir.Budget, Readdir.Listing;
    if c.ReadDir? { ReaddirBound(c, size, lim); }
  }

  // ---- the operation loop ----------------------------------------------------------

  /** The results behind SEQUENCE and the status of the compound. */
  datatype Run = Run(results: seq<OpResult>, status: nat)

  predicate AllSound(calls: seq<Call>) {
    forall i | 0 <= i < |calls| :: Sound(calls[i])
  }

  function RunOps(calls: seq<Call>, size: nat, lim: Limits, destroyed: bool): Run
    requires AllSound(calls)
    decreases |calls|
  {
    if calls == [] then Run([], OK)
    else if calls[0].Undecodable? then Run([], BADXDR)
    else
      var op := OpOf(calls[0]);
      if destroyed || op == BIND_CONN_TO_SESSION then Run([OpResult(op, NOT_ONLY_OP, [])], NOT_ONLY_OP)
      else
        var r := Kept(calls[0], size, lim);
        if r.status != OK then Run([r], r.status)
        else
          var rest := RunOps(calls[1..], size + Bytes(r), lim, destroyed || op == DESTROY_SESSION);
          Run([r] + rest.results, rest.status)
  }

  function EncodeAll(results: seq<OpResult>): seq<Piece> {
    if results == [] then [] else Encode(results[0]) + EncodeAll(results[1..])
  }

  function TotalBytes(results: seq<OpResult>): nat {
    if results == [] then 0 else Bytes(results[0]) + TotalBytes(results[1..])
  }

  predicate AllOk(results: seq<OpResult>) {
    forall i | 0 <= i < |results| :: results[i].status == OK
  }

  /** The reply ends at the first failure.  Either every operation succeeded, or the last
      result carries the status of the compound and those before it are OK, or an operation
      could not be decoded and left no result. */
  predicate WellShaped(calls: seq<Call>, run: Run) {
    var n := |run.results|;
    || (run.status == OK && n == |calls| && AllOk(run.results))
    || (0 < n <= |calls| && AllOk(run.results[..n - 1]) && run.results[n - 1].status == run.status != OK)
    || (run.status == BADXDR && n < |calls| && calls[n].Undecodable? && AllOk(run.results))
  }

  lemma {:induction false} ResultShape(calls: seq<Call>, size: nat, lim: Limits, destroyed: bool)
    requires AllSound(calls)
    ensures WellShaped(calls, RunOps(calls, size, lim, destroyed))
    decreases |calls|
  {
    hide Kept, Bytes, OpOf;
    if calls != [] && !calls[0].Undecodable? {
      var op := OpOf(calls[0]);
      if !destroyed && op != BIND_CONN_TO_SESSION {
        var r := Kept(calls[0], size, lim);
        if r.status == OK {
          ResultShape(calls[1..], size + Bytes(r), lim, destroyed || op == DESTROY_SESSION);
          ShapeCons(calls, r, RunOps(calls[1..], size + Bytes(r), lim, destroyed || op == DESTROY_SESSION));
        }
      }
    }
  }

  lemma ShapeCons(calls: seq<Call>, r: OpResult, rest: Run)
    requires calls != [] && r.status == OK && WellShaped(calls[1..], rest)
    ensures WellShaped(calls, Run([r] + rest.results, rest.status))
  {
    var n := |rest.results|;
    var all := [r] + rest.results;
    if rest.status != OK && 0 < n && rest.results[n - 1].status == rest.status {
      assert all[..n] == [r] + rest.results[..n - 1];
    }
  }

  /** Over a whole compound the reply exceeds the limit by at most sixteen bytes for each
      operation. */
  lemma {:induction false} ReplyBound(calls: seq<Call>, size: nat, lim: Limits, destroyed: bool)
    requires AllSound(calls)
    ensures var run := RunOps(calls, size, lim, destroyed);
            size + TotalBytes(run.results) <= Max(lim.response, size) + 16 * |run.results|
    decreases |calls|
  {
    hide Kept, OpOf, Bytes, TotalBytes;
    TotalNone();
    if calls != [] && !calls[0].Undecodable? {
      var op := OpOf(calls[0]);
      OneResult(OpResult(op, NOT_ONLY_OP, []));
      BareBytes(op);
      if !destroyed && op != BIND_CONN_TO_SESSION {
        OperationBound(calls[0], size, lim);
        var r := Kept(calls[0], size, lim);
        OneResult(r);
        if r.status == OK {
          ReplyBound(calls[1..], size + Bytes(r), lim, destroyed || op == DESTROY_SESSION);
          TotalCons(r, RunOps(calls[1..], size + Bytes(r), lim, destroyed || op == DESTROY_SESSION).results);
        }
      }
    }
  }

  /** The fewest bytes the operation behind a result could add; a refused one adds eight. */
  function FloorOf(c: Call, r: OpResult): nat {
    if r.status == OK then Floor(c) else 8
  }

  /** The operation of the last result started with room for its smallest result. */
  predicate HadRoom(calls: seq<Call>, results: seq<OpResult>, size: nat, lim: Limits)
    requires |results| <= |calls|
  {
    if results == [] then size <= lim.response
    else
      var n := |results| - 1;
      size + TotalBytes(results[..n]) + FloorOf(calls[n], results[n]) <= lim.response
  }

  /** Exactly when a whole compound keeps the limit: each operation only needs room for its
      smallest result where it starts, and the last one that ran is the one to check. */
  lemma {:induction false} ReplyFits(calls: seq<Call>, size: nat, lim: Limits, destroyed: bool)
    requires AllSound(calls)
    ensures var run := RunOps(calls, size, lim, destroyed);
            && |run.results| <= |calls|
            && (size + TotalBytes(run.results) <= lim.response <==> HadRoom(calls, run.results, size, lim))
    decreases |calls|
  {
    hide Kept, OpOf, Bytes, Floor, FloorOf, HadRoom, TotalBytes;
    RoomNone(calls, size, lim);
    if calls != [] && !calls[0].Undecodable? {
      var op := OpOf(calls[0]);
      if destroyed || op == BIND_CONN_TO_SESSION {
        RoomRefused(calls, op, size, lim);
      } else {
        var r := Kept(calls[0], size, lim);
        RoomOne(calls, size, lim);
        if r.status == OK {
          var more := RunOps(calls[1..], size + Bytes(r), lim, destroyed || op == DESTROY_SESSION).results;
          ReplyFits(calls[1..], size + Bytes(r), lim, destroyed || op == DESTROY_SESSION);
          OperationFits(calls[0], size, lim);
          RoomCons(calls, r, more, size, lim);
        }
      }
    }
  }

  lemma RoomNone(calls: seq<Call>, size: nat, lim: Limits)
    ensures HadRoom(calls, [], size, lim) <==> size + TotalBytes([]) <= lim.response
  {
  }

  lemma RoomRefused(calls: seq<Call>, op: nat, size: nat, lim: Limits)
    requires calls != []
    ensures var r := OpResult(op, NOT_ONLY_OP, []);
            HadRoom(calls, [r], size, lim) <==> size + TotalBytes([r]) <= lim.response
  {
    OneResult(OpResult(op, NOT_ONLY_OP, []));
  }

  lemma RoomOne(calls: seq<Call>, size: nat, lim: Limits)
    requires calls != [] && Sound(calls[0]) && !calls[0].Undecodable?
    ensures var r := Kept(calls[0], size, lim);
            HadRoom(calls, [r], size, lim) <==> size + TotalBytes([r]) <= lim.response
  {
    hide Kept, Bytes, Floor, FloorOf;
    OperationFits(calls[0], size, lim);
    FailureFloor(calls[0], size, lim);
    OneResult(Kept(calls[0], size, lim));
  }

  /** BIND_CONN_TO_SESSION, and whatever follows DESTROY_SESSION, is not run. */
  predicate NotRun(calls: seq<Call>, i: nat, destroyed: bool)
    requires i < |calls|
  {
    destroyed || OpOf(calls[i]) == 41 || exists j | 0 <= j < i :: OpOf(calls[j]) == 44
  }

  /** What the reply holds for an operation: the result itself if it leaves sixteen bytes of the
      limit, otherwise an error that says whether caching is to blame. */
  predicate Explained(c: Call, notRun: bool, r: OpResult, before: nat, limit: nat, session: nat, cachethis: bool) {
    if notRun then r == OpResult(OpOf(c), 10081, [])
    else if c.Plain? && !SelfBudgets(c.op) then
      var after := before + 8 + Size(c.body) + 16;
      if after <= limit then r == OpResult(c.word, c.status, c.body)
      else r == OpResult(c.op, if cachethis && after <= session then 10067 else 10066, [])
    else if c.Plain? then r == OpResult(c.word, c.status, [])
    else r.op == OpOf(c)
  }

  lemma {:induction false} ResultsExplained(calls: seq<Call>, size: nat, lim: Limits, destroyed: bool, i: nat)
    requires AllSound(calls) && i < |RunOps(calls, size, lim, destroyed).results|
    ensures var rs := RunOps(calls, size, lim, destroyed).results;
            && i < |calls|
            && Explained(calls[i], NotRun(calls, i, destroyed), rs[i], size + TotalBytes(rs[..i]), lim.response,
                         lim.session, lim.cache)
    decreases |calls|
  {
    hide Kept, Bytes, TotalBytes, Explained, NotRun, OpOf, HadRoom, Sound;
    ReplyFits(calls, size, lim, destroyed);
    var rs, c := RunOps(calls, size, lim, destroyed).results, calls[0];
    if i == 0 {
      TotalNone();
      assert rs[..0] == [];
      FirstExplained(calls, size, lim, destroyed);
    } else {
      var r, rest := Kept(c, size, lim), calls[1..];
      var gone := OpOf(c) == DESTROY_SESSION;
      ResultsExplained(rest, size + Bytes(r), lim, gone, i - 1);
      var more := RunOps(rest, size + Bytes(r), lim, gone).results;
      assert rs == [r] + more && rs[..i] == [r] + more[..i - 1];
      TotalCons(r, more[..i - 1]);
      NotRunRest(calls, i, gone);
    }
  }

  lemma NotRunRest(calls: seq<Call>, i: nat, gone: bool)
    requires 0 < i < |calls| && gone == (OpOf(calls[0]) == 44)
    ensures NotRun(calls[1..], i - 1, gone) <==> NotRun(calls, i, false)
  {
    hide OpOf;
    assert forall j | 1 <= j < i :: calls[j] == calls[1..][j - 1];
    assert forall j | 0 <= j < i - 1 :: calls[1..][j] == calls[j + 1];
  }

  lemma FirstExplained(calls: seq<Call>, size: nat, lim: Limits, destroyed: bool)
    requires AllSound(calls) && RunOps(calls, size, lim, destroyed).results != []
    ensures calls != []
    ensures Explained(calls[0], NotRun(calls, 0, destroyed), RunOps(calls, size, lim, destroyed).results[0], size,
                      lim.response, lim.session, lim.cache)
  {
    hide Readdir.Answer4, Size;
  }

  lemma OneResult(r: OpResult)
    ensures TotalBytes([r]) == Bytes(r) && TotalBytes([]) == 0 && [r][..0] == []
  {
    assert [r][1..] == [];
  }

  /** READ and READ_PLUS do not fail once they run. */
  lemma FailureFloor(c: Call, size: nat, lim: Limits)
    requires Sound(c) && !c.Undecodable?
    ensures FloorOf(c, Kept(c, size, lim)) == Floor(c)
  {
    hide Readdir.Answer4;
  }

  lemma RoomCons(calls: seq<Call>, r: OpResult, more: seq<OpResult>, size: nat, lim: Limits)
    requires calls != [] && r.status == OK && |more| < |calls|
    requires size + Bytes(r) <= lim.response <==> size + Floor(calls[0]) <= lim.response
    ensures TotalBytes([r] + more) == Bytes(r) + TotalBytes(more)
    ensures HadRoom(calls, [r] + more, size, lim) <==> HadRoom(calls[1..], more, size + Bytes(r), lim)
  {
    hide Bytes, Floor, TotalBytes, FloorOf;
    TotalCons(r, more);
    OneResult(r);
    var all := [r] + more;
    if more == [] {
      assert all == [r];
      FloorOfOk(calls[0], r);
    } else {
      var n := |more| - 1;
      TotalCons(r, more[..n]);
      assert all[..n + 1] == [r] + more[..n] && all[n + 1] == more[n] && calls[1..][n] == calls[n + 1];
    }
  }

  lemma FloorOfOk(c: Call, r: OpResult)
    requires r.status == OK
    ensures FloorOf(c, r) == Floor(c)
  {
  }

  lemma TotalCons(r: OpResult, more: seq<OpResult>)
    ensures TotalBytes([r] + more) == Bytes(r) + TotalBytes(more)
  {
    assert ([r] + more)[1..] == more;
  }

  /** So a compound keeps the limit if READ and READ_PLUS come last and SEQUENCE leaves sixteen
      bytes; READDIR may stand anywhere, since it leaves room or ends the compound. */
  lemma {:induction false} ReadLastFits(calls: seq<Call>, size: nat, lim: Limits, destroyed: bool)
    requires AllSound(calls) && size + 16 <= lim.response
    requires forall i | 0 <= i < |calls| - 1 :: !calls[i].Read? && !calls[i].ReadPlus?
    ensures size + TotalBytes(RunOps(calls, size, lim, destroyed).results) <= lim.response
    decreases |calls|
  {
    hide Kept, OpOf;
    if calls != [] && !calls[0].Undecodable? {
      var op := OpOf(calls[0]);
      OneResult(OpResult(op, NOT_ONLY_OP, []));
      if !destroyed && op != BIND_CONN_TO_SESSION {
        var r := Kept(calls[0], size, lim);
        OperationFits(calls[0], size, lim);
        OneResult(r);
        if r.status == OK {
          var rest := calls[1..];
          var more := RunOps(rest, size + Bytes(r), lim, destroyed || op == DESTROY_SESSION).results;
          assert ([r] + more)[1..] == more;
          if rest == [] {
            assert more == [];
          } else {
            LeavesRoom(calls[0], size, lim);
            ReadLastFits(rest, size + Bytes(r), lim, destroyed || op == DESTROY_SESSION);
          }
        }
      }
    }
  }

  // ---- which requests always fit ---------------------------------------------------

  /** What can be seen of an operation in the request: nothing, or its opcode. */
  datatype Kind = Garbled | Code(op: nat)

  function KindOf(c: Call): Kind {
    if c.Undecodable? then Garbled else Code(OpOf(c))
  }

  function Kinds(calls: seq<Call>): (r: seq<Kind>)
    ensures |r| == |calls| && forall i | 0 <= i < |r| :: r[i] == KindOf(calls[i])
  {
    seq(|calls|, i requires 0 <= i < |calls| => KindOf(calls[i]))
  }

  predicate Reading(op: nat) {
    op == READ || op == READ_PLUS
  }

  /** The least room behind a successful operation that started with at least `room` bytes. */
  function Least(op: nat, room: nat): nat
    requires Reading(op) ==> room >= 16
  {
    if op == READDIR then 268
    else if op == READ then Min(room - 16, 241)
    else if op == READ_PLUS then Min(room - 16, 225)
    else 16
  }

  /** No operation of the request can start with less room than its smallest result takes, if
      the first one starts with at least `room` bytes. */
  predicate Safe(kinds: seq<Kind>, room: nat, destroyed: bool)
    decreases |kinds|
  {
    if kinds == [] || kinds[0].Garbled? then true
    else
      var op := kinds[0].op;
      if destroyed || op == BIND_CONN_TO_SESSION then room >= 8
      else
        && room >= (if Reading(op) then 16 else 8)
        && Safe(kinds[1..], Least(op, room), op == DESTROY_SESSION)
  }

  /** What an operation that succeeds leaves. */
  lemma LeastIsLeft(c: Call, size: nat, lim: Limits, room: nat)
    requires Sound(c) && !c.Undecodable? && size + room <= lim.response && Kept(c, size, lim).status == OK
    requires Reading(OpOf(c)) ==> room >= 16
    ensures size + Bytes(Kept(c, size, lim)) + Least(OpOf(c), room) <= lim.response
  {
    match c
    case Read(_, _, _, _) => ReadLeaves(c, size, lim);
    case ReadPlus(_, _, _) => ReadPlusLeaves(c, size, lim);
    case _ => LeavesRoom(c, size, lim);
  }

  lemma ReadLeaves(c: Call, size: nat, lim: Limits)
    requires c.Read?
    ensures var after := size + Bytes(Kept(c, size, lim)); after + 241 <= lim.response || after <= size + 16
  {
    var n := Min(c.got, ReadLength(c.count, c.limit, size, lim));
    TwoSize([Opaque(n)], FlagWord(c.eof), Word(n));
    assert [FlagWord(c.eof), Word(n), Opaque(n)] == [FlagWord(c.eof), Word(n)] + [Opaque(n)];
    assert [Opaque(n)][1..] == [];
  }

  lemma ReadPlusLeaves(c: Call, size: nat, lim: Limits)
    requires c.ReadPlus?
    ensures var after := size + Bytes(Kept(c, size, lim)); after + 225 <= lim.response || after <= size + 16
  {
    ReadPlusBound(c.extent, ReadLength(c.count, c.limit, size, lim));
  }

  lemma LeavesRoom(c: Call, size: nat, lim: Limits)
    requires Sound(c) && !c.Undecodable? && !c.Read? && !c.ReadPlus? && Kept(c, size, lim).status == OK
    ensures size + Bytes(Kept(c, size, lim)) + (if c.ReadDir? then 268 else 16) <= lim.response
  {
    hide Readdir.Fill, Readdir.Listing;
    if c.ReadDir? { ReaddirLeavesRoom(c, size, lim); }
  }

  lemma ReaddirLeavesRoom(c: Call, size: nat, lim: Limits)
    requires c.ReadDir? && Sound(c) && Exec(c, size, lim).status == OK
    ensures size + Bytes(Exec(c, size, lim)) + 268 <= lim.response
  {
    hide Readdir.Fill, Readdir.Listing;
    var budget := Readdir.Budget(c.maxcount, lim.response, size + 4);
    FillWithin(Readdir.Listing(c.dir)[c.at..], Readdir.START4, Readdir.Meter(c.dircount, budget));
    var r := Readdir.Answer4(c.dir, c.at, c.dircount, budget);
    EntryBytes(r.ents);
    SizeAppend(EntryPieces(r.ents), [Word(0), FlagWord(r.eof)]);
    SizeAppend([Hyper(0)], EntryPieces(r.ents) + [Word(0), FlagWord(r.eof)]);
    assert [Word(0), FlagWord(r.eof)][1..] == [FlagWord(r.eof)] && [FlagWord(r.eof)][1..] == [] && [Hyper(0)][1..] == [];
  }

  /** A safe request keeps the limit, whatever its operations find. */
  lemma {:induction false} SafeFits(calls: seq<Call>, room: nat, size: nat, lim: Limits, destroyed: bool)
    requires AllSound(calls) && Safe(Kinds(calls), room, destroyed) && size + room <= lim.response
    ensures size + TotalBytes(RunOps(calls, size, lim, destroyed).results) <= lim.response
    decreases |calls|
  {
    hide Kept, OpOf, Least, TotalBytes, Bytes, Floor;
    TotalNone();
    if calls != [] && !calls[0].Undecodable? {
      var op := OpOf(calls[0]);
      OneResult(OpResult(op, NOT_ONLY_OP, []));
      BareBytes(op);
      if !destroyed && op != BIND_CONN_TO_SESSION {
        var r, rest := Kept(calls[0], size, lim), calls[1..];
        FloorOfKind(calls[0]);
        OperationFits(calls[0], size, lim);
        OneResult(r);
        assert Kinds(calls)[1..] == Kinds(rest);
        if r.status == OK {
          LeastIsLeft(calls[0], size, lim, room);
          SafeFits(rest, Least(op, room), size + Bytes(r), lim, op == DESTROY_SESSION);
          TotalCons(r, RunOps(rest, size + Bytes(r), lim, op == DESTROY_SESSION).results);
        }
      }
    }
  }

  lemma TotalNone()
    ensures TotalBytes([]) == 0
  {
  }

  lemma BareBytes(op: nat)
    ensures Bytes(OpResult(op, NOT_ONLY_OP, [])) == 8
  {
  }

  lemma FloorOfKind(c: Call)
    requires !c.Undecodable?
    ensures Floor(c) <= if Reading(OpOf(c)) then 16 else 8
  {
  }

  /** From exactly `room` bytes the calls exceed every limit. */
  ghost predicate Bursts(calls: seq<Call>, room: nat)
    requires AllSound(calls)
  {
    forall size: nat, lim: Limits | lim.response == size + room ::
      size + TotalBytes(RunOps(calls, size, lim, false).results) > lim.response
  }

  /** An operation that succeeds and takes the room from `room` down to `left`. */
  ghost predicate Takes(c: Call, room: nat, left: nat)
    requires Sound(c)
  {
    !c.Undecodable? && left <= room
    && forall size: nat, lim: Limits | lim.response == size + room ::
         Kept(c, size, lim).status == OK && Bytes(Kept(c, size, lim)) == room - left
  }

  lemma BurstsCons(c: Call, rest: seq<Call>, room: nat, left: nat)
    requires Sound(c) && AllSound(rest) && Takes(c, room, left) && Bursts(rest, left)
    requires OpOf(c) != BIND_CONN_TO_SESSION && OpOf(c) != DESTROY_SESSION
    ensures Bursts([c] + rest, room)
  {
    hide Kept, Bytes, OpOf, TotalBytes;
    var calls := [c] + rest;
    assert calls[1..] == rest;
    forall size: nat, lim: Limits | lim.response == size + room
      ensures size + TotalBytes(RunOps(calls, size, lim, false).results) > lim.response
    {
      var r := Kept(c, size, lim);
      var more := RunOps(rest, size + Bytes(r), lim, false);
      assert lim.response == size + Bytes(r) + left;
      TotalCons(r, more.results);
    }
  }

  lemma PlainTakes(op: nat, room: nat, left: nat)
    requires !SelfBudgets(op) && 16 <= left && left + 8 <= room
    ensures Takes(Plain(op, op, OK, [Encoded(room - left - 8)]), room, left)
  {
    var body := [Encoded(room - left - 8)];
    assert body[1..] == [];
    assert Size(body) == room - left - 8;
  }

  lemma EmptyReadTakes(op: nat, left: nat) returns (c: Call)
    requires Reading(op)
    ensures Sound(c) && OpOf(c) == op && Takes(c, left + 16, left)
  {
    if op == READ {
      c := Read(1, 1, 0, false);
      forall size: nat, lim: Limits | lim.response == size + left + 16
        ensures Kept(c, size, lim).status == OK && Bytes(Kept(c, size, lim)) == 16
      {
        EmptyRead(size, lim);
      }
    } else {
      c := ReadPlus(1, 1, AtEnd(true));
      TwoSize([], FlagWord(true), Word(0));
      assert [FlagWord(true), Word(0)] + [] == [FlagWord(true), Word(0)];
    }
  }

  /** A read that is cut at the budget and padded. */
  lemma DataReadTakes(op: nat, q: nat, left: nat) returns (c: Call, room: nat)
    requires Reading(op) && q > 0 && left >= (if op == READ then 241 else 225)
    ensures room == left + 4 * q + (if op == READ then 16 else 32) && Sound(c) && OpOf(c) == op && Takes(c, room, left)
  {
    var n := 4 * q - 3;
    room := left + 4 * q + (if op == READ then 16 else 32);
    assert Readdir.Aligned4(n) == 4 * q;
    if op == READ {
      c := Read(n, n, n, false);
      TwoSize([Opaque(n)], FlagWord(false), Word(n));
      assert [FlagWord(false), Word(n), Opaque(n)] == [FlagWord(false), Word(n)] + [Opaque(n)];
      assert [Opaque(n)][1..] == [];
      assert Size([Opaque(n)]) == 4 * q;
    } else {
      c := ReadPlus(n, n, Data(n, false));
      ReadPlusSizes(FlagWord(false), n);
    }
  }

  lemma ReadTakes(op: nat, room: nat, left: nat) returns (c: Call, from: nat)
    requires Reading(op) && room >= 16 && left >= Least(op, room)
    ensures Sound(c) && OpOf(c) == op && from >= room && Takes(c, from, left)
  {
    hide Takes;
    if left + 16 >= room {
      c := EmptyReadTakes(op, left);
      from := left + 16;
    } else {
      c, from := DataReadTakes(op, room - left, left);
    }
  }

  const ENTRY: Readdir.Ent := Readdir.Ent("a", 1, 0, 0, true)

  /** A directory with one entry of the given size. */
  function OneEntry(size: nat): Readdir.Dir {
    Readdir.Dir(ENTRY, ENTRY, [ENTRY.(size := size)], (pos, max) => (if pos == 0 && max > 0 then 1 else 0, true))
  }

  lemma OneEntryListing(size: nat)
    ensures var all := Readdir.Listing(OneEntry(size));
            |all| == 3 && all[2..] == [Readdir.Shift(ENTRY.(size := size))]
  {
  }

  lemma OneEntryAnswer(size: nat, budget: nat)
    requires budget >= 128 && 32 + size <= budget
    ensures |Readdir.Listing(OneEntry(size))| == 3
    ensures Readdir.Answer4(OneEntry(size), 2, 16, budget) == Readdir.Listed([Readdir.Shift(ENTRY.(size := size))], true)
  {
    hide Readdir.Listing, OneEntry;
    OneEntryListing(size);
    var e, limit := Readdir.Shift(ENTRY.(size := size)), Readdir.Meter(16, budget);
    VisibleName();
    assert [e][1..] == [] && [] + [e] == [e];
    assert Readdir.Fits(Readdir.Meter(0, 32), Readdir.Cost(Readdir.V4, e), limit);
    var s := Readdir.Offer(Readdir.V4, e, Readdir.START4, limit);
    assert s == Readdir.Scan([e], Readdir.Meter(16, 32 + size), false);
    FillOne(e, Readdir.START4, limit);
  }

  lemma FillOne(e: Readdir.Ent, s: Readdir.Scan, limit: Readdir.Meter)
    requires !s.full
    ensures Readdir.Fill(Readdir.V4, [e], s, limit) == Readdir.Offer(Readdir.V4, e, s, limit)
  {
    hide Readdir.Offer;
    assert [e][1..] == [];
  }

  lemma VisibleName()
    ensures ENTRY.name != "." && ENTRY.name != ".." && |ENTRY.name| == 1
  {
    assert ENTRY.name[0] == 'a' && "."[0] == '.';
  }

  lemma ReaddirTakes(left: nat, room: nat) returns (c: Call, from: nat)
    requires left >= 268
    ensures Sound(c) && OpOf(c) == READDIR && from >= room && Takes(c, from, left)
  {
    from := Max(room, left + 388);
    var size := from - left - 24;
    OneEntryListing(size);
    c := ReadDir(OneEntry(size), 2, 16, from);
    forall s: nat, lim: Limits | lim.response == s + from
      ensures Kept(c, s, lim).status == OK && Bytes(Kept(c, s, lim)) == from - left
    {
      hide Readdir.Listing, Readdir.Answer4;
      var e := Readdir.Shift(ENTRY.(size := size));
      OneEntryAnswer(size, Readdir.Budget(from, lim.response, s + 4));
      OneEntryBytes(e);
    }
  }

  lemma OneEntryBytes(e: Readdir.Ent)
    ensures Size([Hyper(0)] + (EntryPieces([e]) + [Word(0), FlagWord(true)])) == 16 + e.size
  {
    var tail := [Word(0), FlagWord(true)];
    assert [e][..0] == [] && EntryPieces([e]) == [] + [Encoded(e.size)];
    SizeAppend([Hyper(0)], EntryPieces([e]) + tail);
    SizeAppend(EntryPieces([e]), tail);
    EntryBytes([e]);
    TwoSize([], Word(0), FlagWord(true));
    assert tail + [] == tail && [Hyper(0)][1..] == [];
    assert Readdir.EncodedBytes([e]) == Readdir.EncodedBytes([]) + e.size;
  }

  /** The first operation already has too little room. */
  lemma BurstsAtOnce(op: nat, room: nat, rest: seq<Call>) returns (c: Call)
    requires AllSound(rest) && room < (if Reading(op) && op != BIND_CONN_TO_SESSION then 16 else 8)
    ensures Sound(c) && KindOf(c) == Code(op) && Bursts([c] + rest, room)
  {
    if Reading(op) {
      c := if op == READ then Read(1, 1, 0, false) else ReadPlus(1, 1, AtEnd(true));
    } else if op == READDIR {
      OneEntryListing(0);
      c := ReadDir(OneEntry(0), 2, 16, 0);
    } else {
      c := Plain(op, op, OK, []);
    }
    var calls := [c] + rest;
    forall size: nat, lim: Limits | lim.response == size + room
      ensures size + TotalBytes(RunOps(calls, size, lim, false).results) > lim.response
    {
      FirstResult(c, rest, size, lim);
    }
  }

  /** The reply holds at least the smallest result of its first operation. */
  lemma FirstResult(c: Call, rest: seq<Call>, size: nat, lim: Limits)
    requires Sound(c) && AllSound(rest) && !c.Undecodable?
    ensures TotalBytes(RunOps([c] + rest, size, lim, false).results) >= Floor(c)
  {
    hide Kept, OpOf, Bytes, TotalBytes;
    var calls := [c] + rest;
    var op := OpOf(c);
    assert calls[1..] == rest;
    ReadIsNotBind(c);
    BareBytes(op);
    OneResult(OpResult(op, NOT_ONLY_OP, []));
    if op != BIND_CONN_TO_SESSION {
      var r := Kept(c, size, lim);
      KeptFloor(c, size, lim);
      OneResult(r);
      if r.status == OK { TotalCons(r, RunOps(rest, size + Bytes(r), lim, op == DESTROY_SESSION).results); }
    }
  }

  lemma ReadIsNotBind(c: Call)
    ensures OpOf(c) == BIND_CONN_TO_SESSION ==> Floor(c) == 8
  {
  }

  lemma KeptFloor(c: Call, size: nat, lim: Limits)
    requires Sound(c) && !c.Undecodable?
    ensures Bytes(Kept(c, size, lim)) >= Floor(c)
  {
    hide Kept, Bytes;
    if c.Read? || c.ReadPlus? { ReadFloor(c, size, lim); } else { BytesFloor(Kept(c, size, lim)); }
  }

  lemma BytesFloor(r: OpResult)
    ensures Bytes(r) >= 8
  {
  }

  /** An operation that leaves exactly what the rest bursts from. */
  lemma OneTakes(op: nat, room: nat, left: nat) returns (c: Call, from: nat)
    requires (Reading(op) ==> room >= 16) && left >= Least(op, room)
    ensures Sound(c) && KindOf(c) == Code(op) && OpOf(c) == op && from >= room && Takes(c, from, left)
  {
    hide Takes, Least;
    LeastOf(op, room);
    if Reading(op) {
      c, from := ReadTakes(op, room, left);
    } else if op == READDIR {
      c, from := ReaddirTakes(left, room);
    } else {
      from := Max(room, left + 8);
      c := Plain(op, op, OK, [Encoded(from - left - 8)]);
      PlainTakes(op, from, left);
    }
  }

  /** For a request that is not safe there is room, and something its operations can find, with
      which the reply is too long. */
  lemma {:induction false} UnsafeBursts(kinds: seq<Kind>, room: nat) returns (calls: seq<Call>, from: nat)
    requires !Safe(kinds, room, false)
    ensures AllSound(calls) && Kinds(calls) == kinds && from >= room && Bursts(calls, from)
    decreases |kinds|
  {
    hide Bursts, Takes, Least, Sound, OpOf, KindOf;
    var op := kinds[0].op;
    if op == BIND_CONN_TO_SESSION || room < (if Reading(op) then 16 else 8) {
      var rest := AnyCalls(kinds[1..]);
      var c := BurstsAtOnce(op, room, rest);
      calls, from := [c] + rest, room;
    } else {
      DestroyedIsSafe(kinds[1..], op, room);
      var rest, left := UnsafeBursts(kinds[1..], Least(op, room));
      var c;
      c, from := OneTakes(op, room, left);
      BurstsCons(c, rest, from, left);
      calls := [c] + rest;
    }
    assert kinds == [kinds[0]] + kinds[1..];
  }

  lemma LeastOf(op: nat, room: nat)
    requires Reading(op) ==> room >= 16
    ensures op == READDIR ==> Least(op, room) == 268
    ensures !SelfBudgets(op) ==> Least(op, room) == 16
  {
  }

  lemma DestroyedIsSafe(kinds: seq<Kind>, op: nat, room: nat)
    requires Reading(op) ==> room >= 16
    ensures op == DESTROY_SESSION ==> Safe(kinds, Least(op, room), true)
  {
  }

  lemma AnyCalls(kinds: seq<Kind>) returns (calls: seq<Call>)
    ensures AllSound(calls) && Kinds(calls) == kinds
  {
    calls := seq(|kinds|, i requires 0 <= i < |kinds| =>
      if kinds[i].Garbled? then Undecodable else Plain(kinds[i].op, kinds[i].op, BADXDR, []));
  }

  /** Whatever its operations find, the reply to such a request keeps the limit. */
  ghost predicate AlwaysFits(kinds: seq<Kind>) {
    forall calls: seq<Call>, size: nat, lim: Limits |
      AllSound(calls) && Kinds(calls) == kinds && size + 16 <= lim.response ::
      size + TotalBytes(RunOps(calls, size, lim, false).results) <= lim.response
  }

  /** The exact condition on the request alone: with sixteen bytes behind SEQUENCE a request can
      never exceed the limit if and only if it is safe. */
  lemma SafeIff(kinds: seq<Kind>)
    ensures AlwaysFits(kinds) <==> Safe(kinds, 16, false)
  {
    hide RunOps, Safe, TotalBytes;
    if Safe(kinds, 16, false) {
      forall calls: seq<Call>, size: nat, lim: Limits |
        AllSound(calls) && Kinds(calls) == kinds && size + 16 <= lim.response
        ensures size + TotalBytes(RunOps(calls, size, lim, false).results) <= lim.response
      {
        SafeFits(calls, 16, size, lim, false);
      }
    } else {
      var calls, from := UnsafeBursts(kinds, 16);
      var lim := Limits(80 + from, 80 + from, false);
      assert 80 + TotalBytes(RunOps(calls, 80, lim, false).results) > lim.response;
    }
  }

  /** Operations that neither end the compound by themselves nor list directories. */
  predicate Ordinary(kinds: seq<Kind>) {
    forall k | k in kinds :: k.Code? && k.op != READDIR && k.op != BIND_CONN_TO_SESSION && k.op != DESTROY_SESSION
  }

  /** Without READDIR that means: READ and READ_PLUS stand nowhere but in the last place. */
  lemma {:induction false} SafeMeansReadLast(kinds: seq<Kind>)
    requires Ordinary(kinds)
    ensures Safe(kinds, 16, false) <==> forall i | 0 <= i < |kinds| - 1 :: !Reading(kinds[i].op)
  {
    if |kinds| > 1 {
      var rest := kinds[1..];
      assert kinds[0] in kinds && rest[0] in kinds && forall k | k in rest :: k in kinds;
      SafeMeansReadLast(rest);
      assert forall i | 0 <= i < |rest| - 1 :: rest[i] == kinds[i + 1];
      assert forall i | 0 < i < |kinds| - 1 :: kinds[i] == rest[i - 1];
    } else if |kinds| == 1 {
      assert kinds[0] in kinds;
    }
  }

  /** Without READ, READ_PLUS and READDIR the reply stays within the limit, given room for one
      more error result behind SEQUENCE. */
  lemma {:induction false} PlainReplyFits(calls: seq<Call>, size: nat, lim: Limits, destroyed: bool)
    requires AllSound(calls) && size + 8 <= lim.response
    requires forall i | 0 <= i < |calls| :: !SelfBudgets(OpOf(calls[i]))
    ensures size + TotalBytes(RunOps(calls, size, lim, destroyed).results) <= lim.response
    decreases |calls|
  {
    hide Exec, OpOf;
    if calls != [] && !calls[0].Undecodable? {
      var op := OpOf(calls[0]);
      if !destroyed && op != BIND_CONN_TO_SESSION {
        var r := Kept(calls[0], size, lim);
        if r.status == OK {
          PlainReplyFits(calls[1..], size + Bytes(r), lim, destroyed || op == DESTROY_SESSION);
          assert ([r] + RunOps(calls[1..], size + Bytes(r), lim, destroyed || op == DESTROY_SESSION).results)[1..]
              == RunOps(calls[1..], size + Bytes(r), lim, destroyed || op == DESTROY_SESSION).results;
        } else {
          assert [r][1..] == [];
        }
      } else {
        assert [OpResult(op, NOT_ONLY_OP, [])][1..] == [];
      }
    }
  }

  function Reads(k: nat): (calls: seq<Call>)
    ensures |calls| == k && AllSound(calls) && forall i | 0 <= i < k :: calls[i] == Read(1, 1, 0, false)
  {
    seq(k, i => Read(1, 1, 0, false))
  }

  /** However full the reply is, every READ that finds no data succeeds and adds sixteen bytes. */
  lemma {:induction false} ReadsGrow(k: nat, size: nat, lim: Limits)
    ensures var run := RunOps(Reads(k), size, lim, false);
            run.status == OK && |run.results| == k && TotalBytes(run.results) == 16 * k
    decreases k
  {
    hide Kept, Bytes;
    if k > 0 {
      EmptyRead(size, lim);
      var r := Kept(Reads(k)[0], size, lim);
      assert Reads(k)[1..] == Reads(k - 1);
      ReadsGrow(k - 1, size + 16, lim);
      TotalCons(r, RunOps(Reads(k - 1), size + 16, lim, false).results);
    }
  }

  lemma EmptyRead(size: nat, lim: Limits)
    ensures var r := Kept(Read(1, 1, 0, false), size, lim); r.status == OK && Bytes(r) == 16
  {
    TwoSize([Opaque(0)], FlagWord(false), Word(0));
    assert [FlagWord(false), Word(0), Opaque(0)] == [FlagWord(false), Word(0)] + [Opaque(0)];
    assert [Opaque(0)][1..] == [];
  }

  /** Executing one operation in the reply: a self-budgeting one encodes straight into it,
      any other is rolled back when it leaves too little room. */
  method ExecuteInto(enc: XdrEnc, c: Call, lim: Limits) returns (status: nat)
    requires Sound(c) && !c.Undecodable?
    modifies enc
    ensures enc.out == old(enc.out) + Encode(Kept(c, old(Size(enc.out)), lim))
    ensures status == Kept(c, old(Size(enc.out)), lim).status
  {
    hide Exec, OpOf;
    var size := Size(enc.out);
    var mark := |enc.out|;
    var r := Exec(c, size, lim);
    enc.Put(Encode(r));
    status := r.status;
    if !SelfBudgets(OpOf(c)) {
      SizeAppend(old(enc.out), Encode(r));
      EncodeSize(r);
      var now := Size(enc.out);
      if now + 16 > lim.response {
        status := if lim.cache && now + 16 <= lim.session then REP_TOO_BIG_TO_CACHE else REP_TOO_BIG;
        enc.Rollback(mark);
        assert enc.out == old(enc.out);
        enc.Put([Word(OpOf(c)), Word(status)]);
        assert Encode(OpResult(OpOf(c), status, [])) == [Word(OpOf(c)), Word(status)];
      }
    }
  }

  predicate Refuses(c: Call, destroyed: bool) {
    destroyed || OpOf(c) == BIND_CONN_TO_SESSION
  }

  lemma StopsUndecodable(all: Run, so: seq<OpResult>, calls: seq<Call>, size: nat, lim: Limits, destroyed: bool)
    requires AllSound(calls) && calls != [] && calls[0].Undecodable?
    requires Ahead(all, so, RunOps(calls, size, lim, destroyed))
    ensures all == Run(so, BADXDR)
  {
    assert so + [] == so;
  }

  lemma StopsRefused(all: Run, so: seq<OpResult>, calls: seq<Call>, size: nat, lim: Limits, destroyed: bool)
    requires AllSound(calls) && calls != [] && !calls[0].Undecodable? && Refuses(calls[0], destroyed)
    requires Ahead(all, so, RunOps(calls, size, lim, destroyed))
    ensures all == Run(so + [OpResult(OpOf(calls[0]), NOT_ONLY_OP, [])], NOT_ONLY_OP)
  {
  }

  lemma Advances(all: Run, so: seq<OpResult>, calls: seq<Call>, size: nat, lim: Limits, destroyed: bool)
    requires AllSound(calls) && calls != [] && !calls[0].Undecodable? && !Refuses(calls[0], destroyed)
    requires Ahead(all, so, RunOps(calls, size, lim, destroyed))
    ensures var r := Kept(calls[0], size, lim);
            if r.status == OK then
              Ahead(all, so + [r], RunOps(calls[1..], size + Bytes(r), lim, OpOf(calls[0]) == DESTROY_SESSION))
            else all == Run(so + [r], r.status)
  {
    hide Kept, Bytes;
    var r := Kept(calls[0], size, lim);
    if r.status == OK {
      var rest := RunOps(calls[1..], size + Bytes(r), lim, OpOf(calls[0]) == DESTROY_SESSION).results;
      assert so + ([r] + rest) == (so + [r]) + rest;
    }
  }

  lemma Finished(all: Run, so: seq<OpResult>, size: nat, lim: Limits, destroyed: bool)
    ensures Ahead(all, so, RunOps([], size, lim, destroyed)) <==> all == Run(so, OK)
    ensures Ahead(all, [], all)
  {
    assert so + [] == so && [] + all.results == all.results;
  }

  /** The loop over the operations behind SEQUENCE. */
  method RunLoop(enc: XdrEnc, calls: seq<Call>, lim: Limits) returns (status: nat, done: nat)
    requires AllSound(calls)
    modifies enc
    ensures var run := RunOps(calls, old(Size(enc.out)), lim, false);
            enc.out == old(enc.out) + EncodeAll(run.results) && status == run.status && done == 1 + |run.results|
  {
    hide RunOps, Kept, Encode, Size, Bytes, Ahead, OpOf;
    status, done := OK, 1;
    var destroyed, i := false, 0;
    ghost var all := RunOps(calls, Size(enc.out), lim, false);
    ghost var so: seq<OpResult> := [];
    Finished(all, so, Size(enc.out), lim, false);
    assert calls[0..] == calls && enc.out + [] == enc.out;
    while i < |calls| && status == OK
      invariant i <= |calls| && done == 1 + |so| && enc.out == old(enc.out) + EncodeAll(so)
      invariant status == OK ==> Ahead(all, so, RunOps(calls[i..], Size(enc.out), lim, destroyed))
      invariant status != OK ==> all == Run(so, status)
      decreases |calls| - i, if status == OK then 1 else 0
    {
      hide EncodeAll;
      var c := calls[i];
      ghost var rest, size := calls[i..], Size(enc.out);
      assert rest[0] == c && rest[1..] == calls[i + 1..];
      if c.Undecodable? {
        StopsUndecodable(all, so, rest, size, lim, destroyed);
        status := BADXDR;
        break;
      }
      ghost var before := enc.out;
      if destroyed || OpOf(c) == BIND_CONN_TO_SESSION {
        StopsRefused(all, so, rest, size, lim, destroyed);
        ghost var last := OpResult(OpOf(c), NOT_ONLY_OP, []);
        enc.Put([Word(OpOf(c)), Word(NOT_ONLY_OP)]);
        BareResult(OpOf(c), NOT_ONLY_OP);
        AppendResult(old(enc.out), so, last);
        status, done, so := NOT_ONLY_OP, done + 1, so + [last];
        break;
      }
      Advances(all, so, rest, size, lim, destroyed);
      if OpOf(c) == DESTROY_SESSION { destroyed := true; }
      ghost var r := Kept(c, size, lim);
      status := ExecuteInto(enc, c, lim);
      SizeAppend(before, Encode(r));
      EncodeSize(r);
      AppendResult(old(enc.out), so, r);
      so := so + [r];
      i, done := i + 1, done + 1;
    }
    if status == OK {
      assert calls[i..] == [];
      Finished(all, so, Size(enc.out), lim, destroyed);
    }
  }

  lemma BareResult(op: nat, status: nat)
    ensures Encode(OpResult(op, status, [])) == [Word(op), Word(status)]
  {
  }

  /** The whole run is what has been done and what is still ahead. */
  ghost predicate Ahead(all: Run, so: seq<OpResult>, rest: Run) {
    all == Run(so + rest.results, rest.status)
  }

  lemma {:induction false} EncodeAllAppend(results: seq<OpResult>, r: OpResult)
    ensures EncodeAll(results + [r]) == EncodeAll(results) + Encode(r)
  {
    hide Encode;
    if results == [] {
      assert results + [r] == [r] && [r][1..] == [];
      assert EncodeAll([r]) == Encode(r) + EncodeAll([]);
    } else {
      EncodeAllAppend(results[1..], r);
      assert (results + [r])[1..] == results[1..] + [r];
    }
  }

  lemma AppendResult(head: seq<Piece>, results: seq<OpResult>, r: OpResult)
    ensures (head + EncodeAll(results)) + Encode(r) == head + EncodeAll(results + [r])
  {
    hide Encode, EncodeAll;
    EncodeAllAppend(results, r);
  }

  // ---- SEQUENCE and the slot -------------------------------------------------------

  /** What StateMgr::sequence_begin answers.  Only Claimed takes the slot. */
  datatype SeqOutcome =
    | Refused(status: nat)
    | ReplayCached(cached: seq<Piece>)
    | ReplayUncached
    | Claimed(maxRequest: nat, maxResponse: nat, maxCached: nat, maxOps: nat)

  datatype Event = Abort | Complete(cached: seq<Piece>) | Send(reply: seq<Piece>)

  const RPC_HEADER: Piece := Encoded(24)

  /** The reply up to the result list: RPC header, status, tag, number of results. */
  function Header(tag: nat, status: nat, count: nat): seq<Piece> {
    [RPC_HEADER, Word(status), Encoded(4 + Readdir.Aligned4(tag)), Word(count)]
  }

  /** SEQUENCE's own result: session id and five words. */
  function SequenceResult(slot: seq<Piece>): OpResult {
    OpResult(SEQUENCE, OK, slot)
  }

  function Failing(tag: nat, status: nat): seq<Piece> {
    Header(tag, status, 1) + [Word(SEQUENCE), Word(status)]
  }

  /** A refused compound says so twice: in its header, with one result, and in that result, which is
      SEQUENCE's. */
  lemma FailingSays(tag: nat, status: nat)
    ensures var reply := Failing(tag, status);
            && |reply| == 6 && reply[1] == Word(status) && reply[3] == Word(1)
            && reply[4] == Word(53) && reply[5] == Word(status)
            && Size(reply) == 24 + 4 + (4 + Readdir.Aligned4(tag)) + 4 + 8
  {
    hide Readdir.Aligned4;
    var tagged := Encoded(4 + Readdir.Aligned4(tag));
    TwoSize([tagged, Word(1), Word(SEQUENCE), Word(status)], RPC_HEADER, Word(status));
    TwoSize([Word(SEQUENCE), Word(status)], tagged, Word(1));
    TwoSize([], Word(SEQUENCE), Word(status));
    assert [Word(SEQUENCE), Word(status)] + [] == [Word(SEQUENCE), Word(status)];
    assert [tagged, Word(1)] + [Word(SEQUENCE), Word(status)] == [tagged, Word(1), Word(SEQUENCE), Word(status)];
    assert Failing(tag, status) == [RPC_HEADER, Word(status)] + [tagged, Word(1), Word(SEQUENCE), Word(status)];
  }

  function LimitsOf(s: SeqOutcome, cachethis: bool): Limits
    requires s.Claimed?
  {
    Limits(if cachethis then Min(s.maxResponse, s.maxCached) else s.maxResponse, s.maxResponse, cachethis)
  }

  /** Whether a claimed slot is given back unused, and with which status. */
  function Unused(s: SeqOutcome, requestSize: nat, numops: nat, cachethis: bool): nat
    requires s.Claimed?
  {
    if requestSize > s.maxRequest then REQ_TOO_BIG
    else if numops > s.maxOps then TOO_MANY_OPS
    else if cachethis && s.maxCached < 128 then REP_TOO_BIG_TO_CACHE
    else OK
  }

  /** The complete reply of a compound that ran. */
  function FullReply(tag: nat, slot: seq<Piece>, run: Run): seq<Piece> {
    Header(tag, run.status, 1 + |run.results|) + (Encode(SequenceResult(slot)) + EncodeAll(run.results))
  }

  function StartSize(tag: nat, slot: seq<Piece>): nat {
    Size(Header(tag, 0, 0) + Encode(SequenceResult(slot)))
  }

  /** What the session negotiated, kept by the events of a compound that ran: the reply is cached
      whole if asked for, without its 24 header bytes; each result is there or refused as
      `Explained` says; the size keeps the bound, and the limit itself if the request is safe. */
  ghost predicate Honours(events: seq<Event>, s: SeqOutcome, cachethis: bool, tag: nat, slot: seq<Piece>, calls: seq<Call>,
                          run: Run)
    requires s.Claimed? && AllSound(calls)
  {
    var limit := if cachethis && s.maxCached < s.maxResponse then s.maxCached else s.maxResponse;
    var start, reply := StartSize(tag, slot), FullReply(tag, slot, run);
    && |events| == 2 && events[1] == Send(reply) && events[0].Complete?
    && (if cachethis then 24 + Size(events[0].cached) == Size(reply) else events[0].cached == [])
    && Size(reply) == start + TotalBytes(run.results)
    && Size(reply) <= Max(limit, start) + 16 * |run.results|
    && (start + 16 <= limit && Safe(Kinds(calls), 16, false) ==> Size(reply) <= limit)
    && |run.results| <= |calls|
    && forall i | 0 <= i < |run.results| ::
         Explained(calls[i], NotRun(calls, i, false), run.results[i], start + TotalBytes(run.results[..i]), limit,
                   s.maxResponse, cachethis)
  }

  lemma RunHonours(s: SeqOutcome, cachethis: bool, tag: nat, slot: seq<Piece>, calls: seq<Call>)
    requires s.Claimed? && AllSound(calls)
    ensures var run := RunOps(calls, StartSize(tag, slot), LimitsOf(s, cachethis), false);
            var reply := FullReply(tag, slot, run);
            Honours([Complete(if cachethis then reply[1..] else []), Send(reply)], s, cachethis, tag, slot, calls, run)
  {
    hide RunOps, Explained, NotRun, TotalBytes, StartSize, Safe, Kinds, FullReply, Size;
    var start, lim := StartSize(tag, slot), LimitsOf(s, cachethis);
    var run := RunOps(calls, start, lim, false);
    ReplyIsSound(tag, slot, calls, lim);
    ReplyFits(calls, start, lim, false);
    if start + 16 <= lim.response && Safe(Kinds(calls), 16, false) { SafeFits(calls, 16, start, lim, false); }
    forall i | 0 <= i < |run.results|
      ensures Explained(calls[i], NotRun(calls, i, false), run.results[i], start + TotalBytes(run.results[..i]),
                        lim.response, s.maxResponse, cachethis)
    {
      ResultsExplained(calls, start, lim, false, i);
    }
    BodySize(tag, slot, run);
  }

  lemma BodySize(tag: nat, slot: seq<Piece>, run: Run)
    ensures var reply := FullReply(tag, slot, run); reply != [] && 24 + Size(reply[1..]) == Size(reply)
  {
    hide Encode, EncodeAll;
    var reply := FullReply(tag, slot, run);
    assert reply[0] == RPC_HEADER;
  }

  /** A compound that starts with SEQUENCE.  A claimed slot is settled by exactly one abort or
      complete before the one reply is sent; what is cached is what is sent, without the RPC
      header. */
  method SessionCompound(tag: nat, requestSize: nat, globalMaxOps: nat, s: SeqOutcome, cachethis: bool,
                         slot: seq<Piece>, calls: seq<Call>) returns (events: seq<Event>)
    requires AllSound(calls)
    ensures 1 + |calls| > globalMaxOps ==> events == [Send(Failing(tag, TOO_MANY_OPS))]
    ensures 1 + |calls| <= globalMaxOps ==>
              match s
              case Refused(status) => status != OK ==> events == [Send(Failing(tag, status))]
              case ReplayCached(cached) => cached != [] ==> events == [Send([RPC_HEADER] + cached)]
              case ReplayUncached => events == [Send(Failing(tag, RETRY_UNCACHED_REP))]
              case Claimed(_, _, _, _) =>
                if requestSize > s.maxRequest then events == [Abort, Send(Failing(tag, 10065))]
                else if 1 + |calls| > s.maxOps then events == [Abort, Send(Failing(tag, 10070))]
                else if cachethis && s.maxCached < 128 then events == [Abort, Send(Failing(tag, 10067))]
                else
                  var reply := FullReply(tag, slot, RunOps(calls, StartSize(tag, slot), LimitsOf(s, cachethis), false));
                  events == [Complete(if cachethis then reply[1..] else []), Send(reply)]
    ensures 1 + |calls| <= globalMaxOps && s.Claimed? && |events| == 2 && events[0].Complete? ==>
              exists run :: Honours(events, s, cachethis, tag, slot, calls, run)
  {
    hide Honours;
    if 1 + |calls| > globalMaxOps { return [Send(Failing(tag, TOO_MANY_OPS))]; }
    match s {
      case Refused(status) => return [Send(Failing(tag, status))];
      case ReplayCached(cached) =>
        if cached != [] { return [Send([RPC_HEADER] + cached)]; }
        return [Send(Failing(tag, RETRY_UNCACHED_REP))];
      case ReplayUncached => return [Send(Failing(tag, RETRY_UNCACHED_REP))];
      case Claimed(_, _, _, _) =>
        var code := Unused(s, requestSize, 1 + |calls|, cachethis);
        if code != OK { return [Abort, Send(Failing(tag, code))]; }
        var reply := RunClaimed(tag, LimitsOf(s, cachethis), slot, calls);
        RunHonours(s, cachethis, tag, slot, calls);
        return [Complete(if cachethis then reply[1..] else []), Send(reply)];
    }
  }

  method RunClaimed(tag: nat, lim: Limits, slot: seq<Piece>, calls: seq<Call>) returns (reply: seq<Piece>)
    requires AllSound(calls)
    ensures reply == FullReply(tag, slot, RunOps(calls, StartSize(tag, slot), lim, false))
  {
    hide RunOps, Encode, EncodeAll, Size;
    var enc := new XdrEnc(Header(tag, 0, 0));
    enc.Put(Encode(SequenceResult(slot)));
    var status, done := RunLoop(enc, calls, lim);
    ghost var run := RunOps(calls, StartSize(tag, slot), lim, false);
    reply := enc.out[1 := Word(status)][3 := Word(done)];
    Patched(tag, status, done, Encode(SequenceResult(slot)), EncodeAll(run.results));
  }

  lemma Patched(tag: nat, status: nat, count: nat, a: seq<Piece>, b: seq<Piece>)
    ensures (Header(tag, 0, 0) + a + b)[1 := Word(status)][3 := Word(count)] == Header(tag, status, count) + (a + b)
  {
  }

  lemma {:induction false} EncodedBytes(results: seq<OpResult>)
    ensures Size(EncodeAll(results)) == TotalBytes(results)
  {
    hide Encode, Bytes;
    if results != [] {
      EncodeSize(results[0]);
      EncodedBytes(results[1..]);
      SizeAppend(Encode(results[0]), EncodeAll(results[1..]));
    }
  }

  lemma HeaderSize(tag: nat, status: nat, count: nat)
    ensures Size(Header(tag, status, count)) == Size(Header(tag, 0, 0))
  {
    TwoSize([Encoded(4 + Readdir.Aligned4(tag)), Word(count)], RPC_HEADER, Word(status));
    TwoSize([Encoded(4 + Readdir.Aligned4(tag)), Word(0)], RPC_HEADER, Word(0));
    TwoSize([], Encoded(4 + Readdir.Aligned4(tag)), Word(count));
    TwoSize([], Encoded(4 + Readdir.Aligned4(tag)), Word(0));
    assert forall a: Piece, b: Piece :: [a, b] + [] == [a, b];
    assert Header(tag, status, count) == [RPC_HEADER, Word(status)] + [Encoded(4 + Readdir.Aligned4(tag)), Word(count)];
    assert Header(tag, 0, 0) == [RPC_HEADER, Word(0)] + [Encoded(4 + Readdir.Aligned4(tag)), Word(0)];
  }

  /** The reply of a compound that ran: its header states the status and the number of results
      that follow, these are well shaped, and its size keeps the bound. */
  lemma ReplyIsSound(tag: nat, slot: seq<Piece>, calls: seq<Call>, lim: Limits)
    requires AllSound(calls)
    ensures var start := StartSize(tag, slot);
            var run := RunOps(calls, start, lim, false);
            var reply := FullReply(tag, slot, run);
            && reply[1] == Word(run.status) && reply[3] == Word(1 + |run.results|) && WellShaped(calls, run)
            && Size(reply) == start + TotalBytes(run.results) <= Max(lim.response, start) + 16 * |run.results|
  {
    hide RunOps, Encode, EncodeAll, Size, WellShaped, TotalBytes;
    var start := StartSize(tag, slot);
    var run := RunOps(calls, start, lim, false);
    ResultShape(calls, start, lim, false);
    ReplyBound(calls, start, lim, false);
    var first := Encode(SequenceResult(slot));
    HeaderSize(tag, run.status, 1 + |run.results|);
    SizeAppend(Header(tag, run.status, 1 + |run.results|), first + EncodeAll(run.results));
    SizeAppend(first, EncodeAll(run.results));
    SizeAppend(Header(tag, 0, 0), first);
    EncodedBytes(run.results);
  }

  // ---- a reply over the limit ------------------------------------------------------

  const PUTFH: nat := 22
  const READLINK: nat := 27

  /** PUTFH link, READLINK of `len` bytes, PUTFH file, and reads of the file. */
  function Filling(len: nat, k: nat): (calls: seq<Call>)
    ensures AllSound(calls) && |calls| == 3 + k
  {
    [Plain(PUTFH, PUTFH, OK, []), Plain(READLINK, READLINK, OK, [Word(len), Opaque(len)]), Plain(PUTFH, PUTFH, OK, [])]
      + Reads(k)
  }

  /** A successful operation that leaves sixteen bytes is kept, and the run goes on behind it. */
  lemma PlainRuns(op: nat, body: seq<Piece>, rest: seq<Call>, size: nat, lim: Limits)
    requires AllSound(rest) && !SelfBudgets(op) && op != BIND_CONN_TO_SESSION && op != DESTROY_SESSION
    requires size + 8 + Size(body) + 16 <= lim.response
    ensures var calls := [Plain(op, op, OK, body)] + rest;
            && AllSound(calls)
            && var run, more := RunOps(calls, size, lim, false), RunOps(rest, size + 8 + Size(body), lim, false);
            && run.status == more.status && |run.results| == 1 + |more.results|
            && TotalBytes(run.results) == 8 + Size(body) + TotalBytes(more.results)
  {
    hide Size, TotalBytes;
    var calls := [Plain(op, op, OK, body)] + rest;
    assert calls[1..] == rest;
    TotalCons(Kept(calls[0], size, lim), RunOps(rest, size + 8 + Size(body), lim, false).results);
  }

  lemma LinkSize(len: nat)
    ensures Size([Word(len), Opaque(len)]) == 4 + Readdir.Aligned4(len) && Size([]) == 0
  {
    TwoSize([], Word(len), Opaque(len));
    assert [Word(len), Opaque(len)] + [] == [Word(len), Opaque(len)];
  }

  lemma FillingRuns(len: nat, k: nat, size: nat, lim: Limits)
    requires size + 44 + Readdir.Aligned4(len) == lim.response
    ensures var run := RunOps(Filling(len, k), size, lim, false);
            run.status == OK && |run.results| == 3 + k && size + TotalBytes(run.results) == lim.response - 16 + 16 * k
  {
    hide RunOps, Size, TotalBytes;
    var link := [Word(len), Opaque(len)];
    var last := [Plain(PUTFH, PUTFH, OK, [])] + Reads(k);
    var middle := [Plain(READLINK, READLINK, OK, link)] + last;
    LinkSize(len);
    var s1 := size + 8;
    var s2 := s1 + 12 + Readdir.Aligned4(len);
    ReadsGrow(k, s2 + 8, lim);
    PlainRuns(PUTFH, [], Reads(k), s2, lim);
    PlainRuns(READLINK, link, last, s1, lim);
    PlainRuns(PUTFH, [], middle, size, lim);
    assert Filling(len, k) == [Plain(PUTFH, PUTFH, OK, [])] + middle;
  }

  /** The limit is really exceeded: in a session whose limit a link text of `len` bytes fills up
      to sixteen bytes, k reads behind it give a reply that is 16 * (k - 1) bytes too long. */
  lemma FilledReplyOverflows(tag: nat, slot: seq<Piece>, lim: Limits, len: nat, k: nat)
    requires StartSize(tag, slot) + 44 + Readdir.Aligned4(len) == lim.response
    ensures Size(FullReply(tag, slot, RunOps(Filling(len, k), StartSize(tag, slot), lim, false)))
         == lim.response - 16 + 16 * k
  {
    hide RunOps, Size, Filling, FullReply;
    FillingRuns(len, k, StartSize(tag, slot), lim);
    ReplyIsSound(tag, slot, Filling(len, k), lim);
  }

  /** Such a compound: an empty tag, a 1024-byte session, a link of 900 bytes and two READs. */
  method OverfullCompound() returns (events: seq<Event>)
    ensures |events| == 2 && events[1].Send? && Size(events[1].reply) == 1024 + 16
  {
    hide RunOps, FullReply, Filling;
    var slot := [Encoded(36)];
    SmallStart();
    var s := Claimed(4096, 1024, 0, 16);
    FilledReplyOverflows(0, slot, LimitsOf(s, false), 900, 2);
    events := SessionCompound(0, 256, 16, s, false, slot, Filling(900, 2));
  }

  lemma SmallStart()
    ensures StartSize(0, [Encoded(36)]) == 80
  {
    var slot := [Encoded(36)];
    SizeAppend(Header(0, 0, 0), Encode(SequenceResult(slot)));
    EncodeSize(SequenceResult(slot));
    assert slot[1..] == [] && Size(slot) == 36;
    TwoSize([Encoded(4), Word(0)], RPC_HEADER, Word(0));
    TwoSize([], Encoded(4), Word(0));
    assert [Encoded(4), Word(0)] + [] == [Encoded(4), Word(0)];
    assert Header(0, 0, 0) == [RPC_HEADER, Word(0)] + [Encoded(4), Word(0)];
  }
}
