/** The filehandle and stateid registers of a COMPOUND (section 16.2.3.1.2 of RFC 8881):
    exec_op_impl, resolve_current and the operations that set the registers in
    src/nfsv4/engine.cpp.

    The state manager is known by what it promises: a stateid belongs to the file it was issued
    for, and CLOSE, OPEN_DOWNGRADE, LOCK and LOCKU succeed only on a stateid of the file they
    are told to expect.  `issued` records which file each stateid was given out for, in this
    compound or an earlier one. */
module Stateids {

  type Sid = nat

  datatype File = File(fsid: nat, oid: nat)

  /** A filehandle register: unset, a node of the synthesized tree, or a file of an export. */
  datatype Fh = Unset | Pseudo(node: nat) | Of(file: File)

  datatype Registers = Registers(cfh: Fh, sfh: Fh, current: Sid, currentValid: bool, saved: Sid, savedValid: bool)

  datatype State = State(regs: Registers, issued: map<Sid, File>)

  /** A stateid argument: the special "current stateid" or one the client names. */
  datatype SidArg = Placeholder | Named(sid: Sid)

  datatype Outcome<T> = Done(value: T) | Fails(status: nat)

  datatype Opened = Opened(file: File, sid: Sid)

  const OK: nat := 0
  const BAD_STATEID: nat := 10025
  const NOFILEHANDLE: nat := 10020
  const RESTOREFH: nat := 10030

  /** An operation with what the backend or the state manager answers, if it is asked. */
  datatype Op =
    | PutFh(answer: Outcome<Fh>)            // PUTFH, PUTROOTFH, PUTPUBFH
    | Walk(answer: Outcome<Fh>)             // LOOKUP, LOOKUPP, CREATE
    | Secinfo(found: Outcome<()>)           // SECINFO, SECINFO_NO_NAME
    | SaveFh
    | RestoreFh
    | Open(got: Outcome<Opened>)
    | Restamp(arg: SidArg, stamped: Outcome<Sid>)   // CLOSE, OPEN_DOWNGRADE, LOCK, LOCKU
    | Use(arg: SidArg, status: nat)         // READ, WRITE, SETATTR, ...
    | Copy(src: SidArg, dst: SidArg, status: nat)
    | Other(status: nat)

  function ResolveCurrent(r: Registers, arg: SidArg): Outcome<Sid> {
    match arg
    case Named(sid) => Done(sid)
    case Placeholder => if r.currentValid then Done(r.current) else Fails(BAD_STATEID)
  }

  /** COPY and CLONE take a placeholder source from the saved register if it is valid. */
  function ResolveSource(r: Registers, arg: SidArg): Outcome<Sid> {
    if arg.Placeholder? && r.savedValid then Done(r.saved) else ResolveCurrent(r, arg)
  }

  predicate IssuedFor(issued: map<Sid, File>, sid: Sid, file: File) {
    sid in issued && issued[sid] == file
  }

  /** What the answers may be: an opened file gets a stateid of its own, and a stateid is
      exchanged only for another one of the file the current filehandle names. */
  predicate Allowed(s: State, op: Op) {
    match op
    case Open(Done(o)) => o.sid !in s.issued || s.issued[o.sid] == o.file
    case Restamp(arg, Done(out)) =>
      var used := ResolveCurrent(s.regs, arg);
      s.regs.cfh.Of? && used.Done? ==>
        IssuedFor(s.issued, used.value, s.regs.cfh.file) && (out !in s.issued || s.issued[out] == s.regs.cfh.file)
    case _ => true
  }

  /** The registers and the stateids given out after an operation, and its status. */
  function Next(s: State, op: Op): (State, nat) {
    var r := s.regs;
    match op
    case PutFh(answer) =>
      var off := r.(currentValid := false);
      (match answer
       case Done(fh) => (s.(regs := off.(cfh := fh)), OK)
       case Fails(code) => (s.(regs := off), code))
    case Walk(answer) =>
      var off := r.(currentValid := false);
      if r.cfh.Unset? then (s.(regs := off), NOFILEHANDLE)
      else
        (match answer
         case Done(fh) => (s.(regs := off.(cfh := fh)), OK)
         case Fails(code) => (s.(regs := off), code))
    case Secinfo(answer) =>
      var off := r.(currentValid := false);
      if r.cfh.Unset? then (s.(regs := off), NOFILEHANDLE)
      else if answer.Done? then (s.(regs := off.(cfh := Unset)), OK)
      else (s.(regs := off), answer.status)
    case SaveFh =>
      if r.cfh.Unset? then (s, NOFILEHANDLE)
      else (s.(regs := r.(sfh := r.cfh, saved := r.current, savedValid := r.currentValid)), OK)
    case RestoreFh =>
      if r.sfh.Unset? then (s, RESTOREFH)
      else (s.(regs := r.(cfh := r.sfh, current := r.saved, currentValid := r.savedValid)), OK)
    case Open(answer) =>
      if r.cfh.Unset? then (s, NOFILEHANDLE)
      else
        (match answer
         case Done(o) =>
           (State(r.(cfh := Of(o.file), current := o.sid, currentValid := true), s.issued[o.sid := o.file]), OK)
         case Fails(code) => (s, code))
    case Restamp(arg, answer) =>
      if r.cfh.Unset? then (s, NOFILEHANDLE)
      else if r.cfh.Pseudo? then (s, BAD_STATEID)
      else
        var used := ResolveCurrent(r, arg);
        if used.Fails? then (s, used.status)
        else
          (match answer
           case Done(out) =>
             (State(r.(current := out, currentValid := true), s.issued[out := r.cfh.file]), OK)
           case Fails(code) => (s, code))
    case Use(arg, answer) =>
      if r.cfh.Unset? then (s, NOFILEHANDLE)
      else
        var used := ResolveCurrent(r, arg);
        (s, if used.Fails? then used.status else answer)
    case Copy(src, dst, answer) =>
      if r.cfh.Unset? || r.sfh.Unset? then (s, NOFILEHANDLE)
      else
        var from, to := ResolveSource(r, src), ResolveCurrent(r, dst);
        (s, if from.Fails? then from.status else if to.Fails? then to.status else answer)
    case Other(answer) => (s, answer)
  }

  // ---- the class the engine keeps per COMPOUND -------------------------------------

  class Ctx {
    var cfh: Fh
    var sfh: Fh
    var currentSid: Sid
    var currentValid: bool
    var savedSid: Sid
    var savedValid: bool
    ghost var issued: map<Sid, File>

    ghost function Value(): State
      reads this
    {
      State(Registers(cfh, sfh, currentSid, currentValid, savedSid, savedValid), issued)
    }

    /** A new compound; earlier ones may have left stateids behind. */
    constructor (ghost issued: map<Sid, File>)
      ensures Value() == State(START, issued)
    {
      cfh, sfh, currentSid, currentValid, savedSid, savedValid := Unset, Unset, 0, false, 0, false;
      this.issued := issued;
    }

    method Resolve(arg: SidArg) returns (r: Outcome<Sid>)
      ensures r == ResolveCurrent(Value().regs, arg)
    {
      if arg.Named? { return Done(arg.sid); }
      if !currentValid { return Fails(BAD_STATEID); }
      return Done(currentSid);
    }

    method ExecOp(op: Op) returns (status: nat)
      modifies this
      ensures (Value(), status) == Next(old(Value()), op)
    {
      match op {
        case PutFh(answer) =>
          currentValid := false;
          if answer.Fails? { return answer.status; }
          cfh := answer.value;
          return OK;
        case Walk(answer) =>
          currentValid := false;
          if cfh.Unset? { return NOFILEHANDLE; }
          if answer.Fails? { return answer.status; }
          cfh := answer.value;
          return OK;
        case Secinfo(answer) =>
          currentValid := false;
          if cfh.Unset? { return NOFILEHANDLE; }
          if answer.Fails? { return answer.status; }
          cfh := Unset;
          return OK;
        case SaveFh =>
          if cfh.Unset? { return NOFILEHANDLE; }
          sfh, savedSid, savedValid := cfh, currentSid, currentValid;
          return OK;
        case RestoreFh =>
          if sfh.Unset? { return RESTOREFH; }
          cfh, currentSid, currentValid := sfh, savedSid, savedValid;
          return OK;
        case Open(answer) =>
          if cfh.Unset? { return NOFILEHANDLE; }
          if answer.Fails? { return answer.status; }
          cfh, currentSid, currentValid := Of(answer.value.file), answer.value.sid, true;
          issued := issued[answer.value.sid := answer.value.file];
          return OK;
        case Restamp(arg, answer) =>
          if cfh.Unset? { return NOFILEHANDLE; }
          if cfh.Pseudo? { return BAD_STATEID; }
          var used := Resolve(arg);
          if used.Fails? { return used.status; }
          if answer.Fails? { return answer.status; }
          currentSid, currentValid := answer.value, true;
          issued := issued[answer.value := cfh.file];
          return OK;
        case Use(arg, answer) =>
          if cfh.Unset? { return NOFILEHANDLE; }
          var used := Resolve(arg);
          return if used.Fails? then used.status else answer;
        case Copy(src, dst, answer) =>
          if cfh.Unset? || sfh.Unset? { return NOFILEHANDLE; }
          if !(src.Placeholder? && savedValid) {
            var from := Resolve(src);
            if from.Fails? { return from.status; }
          }
          var to := Resolve(dst);
          return if to.Fails? then to.status else answer;
        case Other(answer) => return answer;
      }
    }
  }

  // ---- every run -------------------------------------------------------------------

  /** The registers at the start of a compound. */
  const START: Registers := Registers(Unset, Unset, 0, false, 0, false)

  /** A valid stateid register belongs to the file its filehandle register names. */
  predicate Matches(s: State) {
    && (s.regs.currentValid ==> s.regs.cfh.Of? && IssuedFor(s.issued, s.regs.current, s.regs.cfh.file))
    && (s.regs.savedValid ==> s.regs.sfh.Of? && IssuedFor(s.issued, s.regs.saved, s.regs.sfh.file))
  }

  /** A compound: it starts with empty registers, whatever stateids earlier compounds got. */
  predicate IsRun(run: seq<State>, ops: seq<Op>) {
    && |run| == |ops| + 1 && run[0].regs == START
    && forall i | 0 <= i < |ops| :: Allowed(run[i], ops[i]) && run[i + 1] == Next(run[i], ops[i]).0
  }

  /** No operation separates a register pair, and no stateid changes its file. */
  lemma StepMatches(s: State, op: Op)
    requires Matches(s) && Allowed(s, op)
    ensures Matches(Next(s, op).0)
    ensures forall sid | sid in s.issued :: IssuedFor(Next(s, op).0.issued, sid, s.issued[sid])
  {
  }

  lemma {:induction false} RunsMatch(run: seq<State>, ops: seq<Op>, i: nat)
    requires IsRun(run, ops) && i < |run|
    ensures Matches(run[i])
  {
    if i > 0 {
      RunsMatch(run, ops, i - 1);
      StepMatches(run[i - 1], ops[i - 1]);
    }
  }

  lemma {:induction false} IssuedForever(run: seq<State>, ops: seq<Op>, i: nat, j: nat, sid: Sid)
    requires IsRun(run, ops) && i <= j < |run| && sid in run[i].issued
    ensures IssuedFor(run[j].issued, sid, run[i].issued[sid])
    decreases j - i
  {
    if i < j {
      IssuedForever(run, ops, i, j - 1, sid);
      RunsMatch(run, ops, j - 1);
      StepMatches(run[j - 1], ops[j - 1]);
    }
  }

  predicate NamesFile(fh: Fh, issued: map<Sid, File>, sid: Sid) {
    fh.Of? && IssuedFor(issued, sid, fh.file)
  }

  /** Wherever an operation falls back on the current stateid, that stateid was issued for the
      file named by the current filehandle.  A COPY or CLONE source falls back on the saved
      stateid, and without one on the current stateid, which is the destination's: what it gets
      was issued for the source file exactly when a stateid was saved or both filehandles are
      the same. */
  lemma PlaceholderFitsFile(run: seq<State>, ops: seq<Op>, i: nat)
    requires IsRun(run, ops) && i < |run|
    ensures var r, issued := run[i].regs, run[i].issued;
            var used, from := ResolveCurrent(r, Placeholder), ResolveSource(r, Placeholder);
            && (used.Done? ==> NamesFile(r.cfh, issued, used.value))
            && (from.Done? <==> r.savedValid || r.currentValid)
            && (from.Done? ==> (NamesFile(r.sfh, issued, from.value) <==> r.savedValid || r.sfh == r.cfh))
  {
    RunsMatch(run, ops, i);
  }

  const SOURCE: File := File(1, 1)
  const TARGET: File := File(1, 2)

  /** PUTFH source, SAVEFH, PUTFH target, OPEN target. */
  function CopyOps(): seq<Op> {
    [PutFh(Done(Of(SOURCE))), SaveFh, PutFh(Done(Of(TARGET))), Open(Done(Opened(TARGET, 7)))]
  }

  function Trace(s: State, ops: seq<Op>): (run: seq<State>)
    ensures |run| == |ops| + 1 && run[0] == s
    ensures forall i | 0 <= i < |ops| :: run[i + 1] == Next(run[i], ops[i]).0
    decreases |ops|
  {
    if ops == [] then [s] else [s] + Trace(Next(s, ops[0]).0, ops[1..])
  }

  /** A COPY after a SAVEFH without a stateid: its source placeholder resolves to a stateid of
      the target, whatever stateids are around. */
  lemma SourceFallsOnTarget(issued: map<Sid, File>)
    requires 7 !in issued
    ensures var ops := CopyOps();
            var run := Trace(State(START, issued), ops);
            var from := ResolveSource(run[4].regs, Placeholder);
            && IsRun(run, ops) && run[4].regs.sfh == Of(SOURCE)
            && from.Done? && IssuedFor(run[4].issued, from.value, TARGET) && !IssuedFor(run[4].issued, from.value, SOURCE)
  {
    var ops := CopyOps();
    var run := Trace(State(START, issued), ops);
    assert run[1] == Next(run[0], ops[0]).0 && run[2] == Next(run[1], ops[1]).0;
    assert run[3] == Next(run[2], ops[2]).0 && run[4] == Next(run[3], ops[3]).0;
  }

  /** PUTFH file, LOCK with the stateid of an earlier compound, READ with the placeholder. */
  function LockOps(file: File, sid: Sid, stamped: Sid): seq<Op> {
    [PutFh(Done(Of(file))), Restamp(Named(sid), Done(stamped)), Use(Placeholder, OK)]
  }

  /** The ordinary use of a stateid from an earlier compound: the READ succeeds and uses the new
      stateid, which belongs to the same file. */
  lemma EarlierStateidCarries(issued: map<Sid, File>, file: File, sid: Sid, stamped: Sid)
    requires IssuedFor(issued, sid, file) && (stamped !in issued || issued[stamped] == file)
    ensures var ops := LockOps(file, sid, stamped);
            var run := Trace(State(START, issued), ops);
            && IsRun(run, ops) && Next(run[2], ops[2]).1 == OK
            && ResolveCurrent(run[2].regs, Placeholder) == Done(stamped) && IssuedFor(run[2].issued, stamped, file)
  {
    var ops := LockOps(file, sid, stamped);
    var run := Trace(State(START, issued), ops);
    assert run[1] == Next(run[0], ops[0]).0 && run[2] == Next(run[1], ops[1]).0 && run[3] == Next(run[2], ops[2]).0;
  }

  /** SAVEFH, then any operations that do not save again, then RESTOREFH bring back the pair. */
  lemma {:induction false} SaveRestore(run: seq<State>, ops: seq<Op>, i: nat, j: nat)
    requires IsRun(run, ops) && i < j < |ops| && ops[i] == SaveFh && ops[j] == RestoreFh && !run[i].regs.cfh.Unset?
    requires forall k | i < k < j :: ops[k] != SaveFh
    ensures var a, b := run[i].regs, run[j + 1].regs;
            b.cfh == a.cfh && b.current == a.current && b.currentValid == a.currentValid
  {
    SavedStays(run, ops, i + 1, j);
  }

  lemma {:induction false} SavedStays(run: seq<State>, ops: seq<Op>, i: nat, j: nat)
    requires IsRun(run, ops) && i <= j < |run| && forall k | i <= k < j :: ops[k] != SaveFh
    ensures var a, b := run[i].regs, run[j].regs; b.sfh == a.sfh && b.saved == a.saved && b.savedValid == a.savedValid
    decreases j - i
  {
    if i < j { SavedStays(run, ops, i, j - 1); }
  }

  // ---- which file the current filehandle names -------------------------------------

  /** The filehandle an operation that succeeds leaves behind, if it sets one. */
  ghost predicate SetsTo(op: Op, fh: Fh) {
    || (op.PutFh? && op.answer == Done(fh)) || (op.Walk? && op.answer == Done(fh))
    || (op.Open? && op.got.Done? && fh == Of(op.got.value.file)) || (op.Secinfo? && fh == Unset)
  }

  predicate Moves(op: Op) {
    op.PutFh? || op.Walk? || op.Open? || op.Secinfo? || op.RestoreFh?
  }

  ghost predicate Succeeds(run: seq<State>, ops: seq<Op>, i: nat)
    requires i < |ops| && i < |run|
  {
    Next(run[i], ops[i]).1 == OK
  }

  /** The last SAVEFH before operation i that succeeded. */
  ghost predicate SavedAt(run: seq<State>, ops: seq<Op>, i: nat, k: nat)
    requires |run| == |ops| + 1 && i <= |ops|
  {
    && k < i && ops[k] == SaveFh && Succeeds(run, ops, k)
    && forall j | k < j < i :: ops[j] != SaveFh || !Succeeds(run, ops, j)
  }

  /** In every run: a successful PUTFH, LOOKUP, CREATE or OPEN makes the object it found the
      current one, SECINFO leaves none, RESTOREFH goes back to what the last successful SAVEFH
      saw, and nothing else moves the current filehandle; nor does an operation that fails. */
  lemma FilehandleFollows(run: seq<State>, ops: seq<Op>, i: nat)
    requires IsRun(run, ops) && i < |ops|
    requires forall k | 0 <= k < |ops| :: HonestStatus(ops[k])
    ensures var before, after := run[i].regs.cfh, run[i + 1].regs.cfh;
            if !Succeeds(run, ops, i) || !Moves(ops[i]) then after == before
            else if ops[i].RestoreFh? then exists k: nat :: SavedAt(run, ops, i, k) && after == run[k].regs.cfh
            else SetsTo(ops[i], after)
  {
    if Succeeds(run, ops, i) && ops[i].RestoreFh? { var k := SavedSince(run, ops, i); }
  }

  /** An answer that is a failure carries a failing status. */
  predicate HonestStatus(op: Op) {
    match op
    case PutFh(answer) => answer != Fails(OK)
    case Walk(answer) => answer != Fails(OK)
    case Secinfo(found) => found != Fails(OK)
    case Open(got) => got != Fails(OK)
    case _ => true
  }

  lemma {:induction false} SavedSince(run: seq<State>, ops: seq<Op>, i: nat) returns (k: nat)
    requires IsRun(run, ops) && i <= |ops| && !run[i].regs.sfh.Unset?
    ensures SavedAt(run, ops, i, k) && run[i].regs.sfh == run[k].regs.cfh
    decreases i
  {
    var n := i - 1;
    if ops[n] == SaveFh && Succeeds(run, ops, n) {
      k := n;
    } else {
      k := SavedSince(run, ops, n);
    }
  }

  /** Where there is no current stateid the placeholder is an error: READ and its like answer
      NFS4ERR_BAD_STATEID, and so does COPY for its target, and for its source unless a stateid was
      saved.  With one, the operation's own status is the answer. */
  lemma PlaceholderNeedsStateid(s: State, status: nat)
    requires !s.regs.cfh.Unset?
    ensures Next(s, Use(Placeholder, status)).1 == if s.regs.currentValid then status else 10025
    ensures !s.regs.sfh.Unset? ==>
              Next(s, Copy(Placeholder, Placeholder, status)).1 == if s.regs.currentValid then status else 10025
    ensures !s.regs.sfh.Unset? ==> forall sid ::
              Next(s, Copy(Placeholder, Named(sid), status)).1
              == if s.regs.savedValid || s.regs.currentValid then status else 10025
    ensures forall sid :: Next(s, Use(Named(sid), status)).1 == status
  {
  }
}
