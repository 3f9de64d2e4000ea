// Log space reservation: how begin_op, log_write and end_op of any number of interleaved system
// calls share the in-memory log header.
module Reservation {
  import opened Options
  import Counting

  /** MAXOPBLOCKS, LOGSIZE and log.size. */
  datatype Params = Params(maxop: nat, logsize: nat, size: nat)

  /** A system call inside a transaction may still log `unspent` new blocks. */
  datatype Op = Live(unspent: nat) | Done

  datatype LogState = LogState(logged: seq<nat>, ops: seq<Op>, committing: bool)

  datatype Action = Begin | Write(op: nat, b: nat) | End(op: nat) | Committed

  function Unspent(ops: seq<Op>): nat {
    if ops == [] then 0
    else Unspent(ops[..|ops|-1]) + if ops[|ops|-1].Live? then ops[|ops|-1].unspent else 0
  }

  function Outstanding(ops: seq<Op>): nat {
    if ops == [] then 0
    else Outstanding(ops[..|ops|-1]) + if ops[|ops|-1].Live? then 1 else 0
  }

  lemma {:induction false} CountsAfterUpdate(ops: seq<Op>, i: nat, o: Op)
    requires i < |ops|
    ensures Unspent(ops[i := o]) == Unspent(ops) - Cost(ops[i]) + Cost(o)
    ensures Outstanding(ops[i := o]) == Outstanding(ops) - Weight(ops[i]) + Weight(o)
    ensures Unspent(ops) >= Cost(ops[i]) && Outstanding(ops) >= Weight(ops[i])
  {
    var n := |ops| - 1;
    if i == n {
      assert ops[i := o][..n] == ops[..n];
    } else {
      CountsAfterUpdate(ops[..n], i, o);
      assert ops[i := o][..n] == ops[..n][i := o];
    }
  }

  function Cost(o: Op): nat { if o.Live? then o.unspent else 0 }
  function Weight(o: Op): nat { if o.Live? then 1 else 0 }

  lemma CountsAfterAppend(ops: seq<Op>, o: Op)
    ensures Unspent(ops + [o]) == Unspent(ops) + Cost(o)
    ensures Outstanding(ops + [o]) == Outstanding(ops) + Weight(o)
  {
    assert (ops + [o])[..|ops|] == ops;
  }

  lemma {:induction false} UnspentBound(ops: seq<Op>, maxop: nat)
    requires forall i :: 0 <= i < |ops| ==> Cost(ops[i]) <= maxop
    ensures Unspent(ops) <= Outstanding(ops) * maxop
  {
    if ops != [] {
      UnspentBound(ops[..|ops|-1], maxop);
    }
  }

  // ---- Steps ----------------------------------------------------------------------------------

  predicate BeginSleeps(p: Params, s: LogState) {
    s.committing || |s.logged| + (Outstanding(s.ops) + 1) * p.maxop > p.logsize
  }

  /** log_write's capacity test. */
  predicate TooBig(p: Params, s: LogState) {
    |s.logged| >= p.logsize || |s.logged| >= p.size - 1
  }

  /** What a system call that keeps to its reservation may do; None if it may not, sleeps or panics. */
  function Step(p: Params, s: LogState, a: Action): Option<LogState> {
    match a
    case Begin =>
      if BeginSleeps(p, s) then None else Some(s.(ops := s.ops + [Live(p.maxop)]))
    case Write(op, b) =>
      if op < |s.ops| && s.ops[op].Live? && (b in s.logged || s.ops[op].unspent > 0) && !TooBig(p, s)
      then Some(LogWritten(s, op, b)) else None
    case End(op) =>
      if op < |s.ops| && s.ops[op].Live? && !s.committing then Some(Ended(s, op)) else None
    case Committed =>
      if s.committing then Some(s.(logged := [], committing := false)) else None
  }

  function LogWritten(s: LogState, op: nat, b: nat): LogState
    requires op < |s.ops| && s.ops[op].Live? && (b in s.logged || s.ops[op].unspent > 0)
  {
    if b in s.logged then s  // absorbed
    else s.(logged := s.logged + [b], ops := s.ops[op := Live(s.ops[op].unspent - 1)])
  }

  function Ended(s: LogState, op: nat): LogState
    requires op < |s.ops|
  {
    var ops := s.ops[op := Done];
    s.(ops := ops, committing := s.committing || Outstanding(ops) == 0)
  }

  function Initial(): LogState { LogState([], [], false) }

  /** Blocks logged plus the unspent budgets of outstanding calls fit in the log. */
  ghost predicate Reserved(p: Params, s: LogState) {
    && |s.logged| + Unspent(s.ops) <= p.logsize
    && (forall i :: 0 <= i < |s.ops| ==> Cost(s.ops[i]) <= p.maxop)
    && (forall i, j :: 0 <= i < j < |s.logged| ==> s.logged[i] != s.logged[j])
    && (s.logged == [] || |s.logged| <= p.size - 1)
    && (s.committing ==> Outstanding(s.ops) == 0)
    && (Outstanding(s.ops) == 0 && !s.committing ==> s.logged == [])
  }

  lemma BeginFits(p: Params, s: LogState)
    requires Reserved(p, s) && !BeginSleeps(p, s)
    ensures |s.logged| + Unspent(s.ops) + p.maxop <= p.logsize && !s.committing
  {
    UnspentBound(s.ops, p.maxop);
    var out := Outstanding(s.ops);
    assert (out + 1) * p.maxop == out * p.maxop + p.maxop;
  }

  lemma StepKeepsReserved(p: Params, s: LogState, a: Action)
    requires Reserved(p, s) && Step(p, s, a).Some?
    ensures Reserved(p, Step(p, s, a).value)
  {
    hide BeginSleeps, Unspent, Outstanding;
    match a
    case Begin =>
      BeginFits(p, s);
      CountsAfterAppend(s.ops, Live(p.maxop));
    case Write(op, b) =>
      CountsAfterUpdate(s.ops, op, s.ops[op]);
      if b !in s.logged {
        CountsAfterUpdate(s.ops, op, Live(s.ops[op].unspent - 1));
      }
    case End(op) =>
      CountsAfterUpdate(s.ops, op, Done);
    case Committed =>
  }

  lemma BeginStep(p: Params, s: LogState, out: nat)
    requires Reserved(p, s) && out == Outstanding(s.ops)
    ensures BeginSleeps(p, s) <==> s.committing || |s.logged| + (out + 1) * p.maxop > p.logsize
    ensures !BeginSleeps(p, s) ==>
              var t := s.(ops := s.ops + [Live(p.maxop)]);
              Step(p, s, Begin) == Some(t) && Reserved(p, t) && Outstanding(t.ops) == out + 1
  {
    if !BeginSleeps(p, s) {
      StepKeepsReserved(p, s, Begin);
      CountsAfterAppend(s.ops, Live(p.maxop));
    }
  }

  lemma WriteStep(p: Params, s: LogState, op: nat, b: nat)
    requires Reserved(p, s) && op < |s.ops| && s.ops[op].Live? && (b in s.logged || s.ops[op].unspent > 0)
    ensures Outstanding(s.ops) >= 1
    ensures !TooBig(p, s) ==>
              && Step(p, s, Write(op, b)) == Some(LogWritten(s, op, b))
              && Reserved(p, LogWritten(s, op, b))
              && Outstanding(LogWritten(s, op, b).ops) == Outstanding(s.ops)
  {
    CountsAfterUpdate(s.ops, op, s.ops[op]);
    if !TooBig(p, s) {
      StepKeepsReserved(p, s, Write(op, b));
      if b !in s.logged {
        CountsAfterUpdate(s.ops, op, Live(s.ops[op].unspent - 1));
      }
    }
  }

  lemma EndStep(p: Params, s: LogState, op: nat)
    requires Reserved(p, s) && op < |s.ops| && s.ops[op].Live?
    ensures Outstanding(s.ops) >= 1 && !s.committing
    ensures Step(p, s, End(op)) == Some(Ended(s, op)) && Reserved(p, Ended(s, op))
    ensures Outstanding(s.ops[op := Done]) == Outstanding(s.ops) - 1
    ensures Ended(s, op) == s.(ops := s.ops[op := Done], committing := Outstanding(s.ops) == 1)
    ensures Outstanding(s.ops) == 1 ==> Reserved(p, Ended(s, op).(logged := [], committing := false))
  {
    CountsAfterUpdate(s.ops, op, Done);
    StepKeepsReserved(p, s, End(op));
    if Outstanding(s.ops) == 1 {
      StepKeepsReserved(p, Ended(s, op), Committed);
    }
  }

  // ---- Runs -----------------------------------------------------------------------------------

  /** The action leaves the acting call with at least `keep` entries it never uses. log_write of a block
      that is logged already uses none. */
  predicate Thrifty(s: LogState, a: Action, keep: nat) {
    a.Write? && a.op < |s.ops| && s.ops[a.op].Live? && a.b !in s.logged ==> s.ops[a.op].unspent > keep
  }

  /** The actions can happen in this order, lead to s, and every call keeps `keep` entries back. */
  ghost predicate Reaches(p: Params, actions: seq<Action>, keep: nat, s: LogState)
    decreases |actions|
  {
    if actions == [] then s == Initial()
    else
      var before, a := actions[..|actions|-1], actions[|actions|-1];
      exists t :: Reaches(p, before, keep, t) && Thrifty(t, a, keep) && Step(p, t, a) == Some(s)
  }

  lemma {:induction false} RunKeepsReserved(p: Params, actions: seq<Action>, keep: nat, s: LogState)
    requires Reaches(p, actions, keep, s)
    ensures Reserved(p, s)
    decreases |actions|
  {
    hide Step, Thrifty;
    if actions != [] {
      var before, a := actions[..|actions|-1], actions[|actions|-1];
      var t :| Reaches(p, before, keep, t) && Thrifty(t, a, keep) && Step(p, t, a) == Some(s);
      RunKeepsReserved(p, before, keep, t);
      StepKeepsReserved(p, t, a);
    }
  }

  lemma Extend(p: Params, actions: seq<Action>, s: LogState, a: Action, t: LogState, keep: nat)
    requires Reaches(p, actions, keep, s) && Thrifty(s, a, keep) && Step(p, s, a) == Some(t)
    ensures Reaches(p, actions + [a], keep, t)
  {
    hide Step, Thrifty;
    assert (actions + [a])[..|actions|] == actions;
  }

  /** Some call that keeps `keep` entries back is about to make a log_write that panics: of a new block,
      or of one that is logged already, which the capacity test does not tell apart. */
  ghost predicate Trips(p: Params, s: LogState, keep: nat) {
    TooBig(p, s) && exists op: nat, b: nat :: WriteDue(s, op, b, keep)
  }

  predicate WriteDue(s: LogState, op: nat, b: nat, keep: nat) {
    op < |s.ops| && s.ops[op].Live? && (b in s.logged || s.ops[op].unspent > keep)
  }

  ghost predicate SomeRunTrips(p: Params, keep: nat) {
    exists actions, s :: Reaches(p, actions, keep, s) && Trips(p, s, keep)
  }

  /** The same, for log_writes of calls that have an entry left; a log_write of a new block is one. */
  ghost predicate SomeRunTripsEarly(p: Params) {
    exists actions, s :: Reaches(p, actions, 0, s) && TripsEarly(p, s)
  }

  ghost predicate TripsEarly(p: Params, s: LogState) {
    TooBig(p, s) && exists op :: 0 <= op < |s.ops| && s.ops[op].Live? && s.ops[op].unspent > 0
  }

  lemma {:induction false} SomeoneCanWrite(ops: seq<Op>) returns (op: nat)
    requires Unspent(ops) > 0
    ensures op < |ops| && ops[op].Live? && ops[op].unspent > 0
  {
    var n := |ops| - 1;
    if ops[n].Live? && ops[n].unspent > 0 {
      op := n;
    } else {
      op := SomeoneCanWrite(ops[..n]);
    }
  }

  /** A call that has an entry left always finds room exactly when the log area holds LOGSIZE blocks
      besides its header. (LOGSIZE is a positive multiple of MAXOPBLOCKS.) */
  lemma EarlyWritesFitIffRoom(p: Params, calls: nat)
    requires p.maxop > 0 && calls > 0 && p.logsize == calls * p.maxop
    ensures !SomeRunTripsEarly(p) <==> p.size >= p.logsize + 1
  {
    hide Reaches, Reserved, Step, TripsEarly;
    if p.size >= p.logsize + 1 {
      forall actions, s | Reaches(p, actions, 0, s) ensures !TripsEarly(p, s) {
        RunKeepsReserved(p, actions, 0, s);
        RoomForEarly(p, s);
      }
    } else {
      var actions, s := AllBegin(p, calls, calls);
      var full, t := FillUp(p, actions, s, 0);
      EarlyTrips(p, t);
    }
  }

  lemma RoomForEarly(p: Params, s: LogState)
    requires Reserved(p, s) && p.size >= p.logsize + 1
    ensures !TripsEarly(p, s)
  {
    if TripsEarly(p, s) {
      var op :| 0 <= op < |s.ops| && s.ops[op].Live? && s.ops[op].unspent > 0;
      CountsAfterUpdate(s.ops, op, Done);
      assert false;
    }
  }

  /** The blocks a call has written so far. */
  function Past(actions: seq<Action>, op: nat): set<nat> {
    if actions == [] then {}
    else
      var a := actions[|actions|-1];
      Past(actions[..|actions|-1], op) + if a.Write? && a.op == op then {a.b} else {}
  }

  /** Of a call that is not over, what it has written is still logged, and it has spent at most an entry
      for each of these blocks. */
  ghost predicate Tallied(p: Params, actions: seq<Action>, s: LogState, op: nat) {
    && (op >= |s.ops| ==> Past(actions, op) == {})
    && (op < |s.ops| && s.ops[op].Live? ==>
          (forall b :: b in Past(actions, op) ==> b in s.logged) && s.ops[op].unspent + |Past(actions, op)| >= p.maxop)
  }

  lemma StepKeepsTallied(p: Params, before: seq<Action>, t: LogState, a: Action, actions: seq<Action>, s: LogState, op: nat)
    requires actions == before + [a] && Reserved(p, t) && Step(p, t, a) == Some(s) && Tallied(p, before, t, op)
    ensures Tallied(p, actions, s, op)
  {
    hide BeginSleeps, TooBig;
    assert actions[..|actions|-1] == before;
    if a == Committed && op < |t.ops| {
      CountsAfterUpdate(t.ops, op, t.ops[op]);
    }
  }

  lemma {:induction false} RunTallies(p: Params, actions: seq<Action>, s: LogState, op: nat)
    requires Reaches(p, actions, 0, s)
    ensures Tallied(p, actions, s, op)
    decreases |actions|
  {
    hide Step, Thrifty, Reserved, Tallied;
    if actions == [] {
      StartTallied(p, op);
    } else {
      var before, a := actions[..|actions|-1], actions[|actions|-1];
      var t :| Reaches(p, before, 0, t) && Thrifty(t, a, 0) && Step(p, t, a) == Some(s);
      RunKeepsReserved(p, before, 0, t);
      RunTallies(p, before, t, op);
      StepKeepsTallied(p, before, t, a, actions, s, op);
    }
  }

  lemma StartTallied(p: Params, op: nat)
    ensures Tallied(p, [], Initial(), op)
  {
  }

  /** Whatever the others do, a call that has logged fewer than MAXOPBLOCKS different blocks so far can
      make another log_write, of any block, if the log area holds LOGSIZE blocks besides its header. */
  lemma FewLoggedFit(p: Params, actions: seq<Action>, s: LogState, op: nat)
    requires Reaches(p, actions, 0, s) && p.size >= p.logsize + 1
    requires op < |s.ops| && s.ops[op].Live? && |Past(actions, op)| < p.maxop
    ensures !TooBig(p, s)
  {
    hide Reaches, Reserved;
    RunKeepsReserved(p, actions, 0, s);
    RunTallies(p, actions, s, op);
    RoomForEarly(p, s);
  }

  /** A call that logs at most MAXOPBLOCKS blocks, one of them with its last log_write only, never panics. */
  lemma LastEntryFits(p: Params, actions: seq<Action>, s: LogState, op: nat, log: set<nat>, last: nat)
    requires Reaches(p, actions, 0, s) && p.size >= p.logsize + 1 && op < |s.ops| && s.ops[op].Live?
    requires |log - {last}| < p.maxop && Past(actions, op) <= log - {last}
    ensures !TooBig(p, s)
  {
    hide Reaches, TooBig;
    Counting.SubsetSize(Past(actions, op), log - {last});
    FewLoggedFit(p, actions, s, op);
  }

  lemma EarlyTrips(p: Params, s: LogState)
    requires TooBig(p, s) && Unspent(s.ops) > 0
    ensures TripsEarly(p, s)
  {
    var op := SomeoneCanWrite(s.ops);
  }

  lemma Multiples(k: nat, n: nat, m: nat)
    requires 0 < k <= n
    ensures (k - 1) * m + m == k * m <= n * m
  {
    assert k * m <= n * m;
  }

  /** `k` of the `calls` that the log has room for have begun and written nothing. */
  lemma {:induction false} AllBegin(p: Params, calls: nat, k: nat) returns (actions: seq<Action>, s: LogState)
    requires p.maxop > 0 && k <= calls && p.logsize == calls * p.maxop
    ensures Reaches(p, actions, 0, s)
    ensures s.logged == [] && !s.committing && Outstanding(s.ops) == k && Unspent(s.ops) == k * p.maxop
  {
    if k == 0 {
      actions, s := [], Initial();
    } else {
      var before, t := AllBegin(p, calls, k - 1);
      actions, s := OneBegins(p, calls, k, before, t);
    }
  }

  lemma OneBegins(p: Params, calls: nat, k: nat, before: seq<Action>, t: LogState) returns (actions: seq<Action>, s: LogState)
    requires 0 < k <= calls && p.logsize == calls * p.maxop && Reaches(p, before, 0, t)
    requires t.logged == [] && !t.committing && Outstanding(t.ops) == k - 1 && Unspent(t.ops) == (k - 1) * p.maxop
    ensures Reaches(p, actions, 0, s)
    ensures s.logged == [] && !s.committing && Outstanding(s.ops) == k && Unspent(s.ops) == k * p.maxop
  {
    hide Reaches, Unspent, Outstanding;
    Multiples(k, calls, p.maxop);
    s := t.(ops := t.ops + [Live(p.maxop)]);
    CountsAfterAppend(t.ops, Live(p.maxop));
    Extend(p, before, t, Begin, s, 0);
    actions := before + [Begin];
  }

  /** Outstanding calls log new blocks until the capacity test fails. */
  lemma {:induction false} FillUp(p: Params, actions: seq<Action>, s: LogState, unused: nat) returns (full: seq<Action>, t: LogState)
    requires Reaches(p, actions, 0, s)
    requires p.size <= p.logsize && |s.logged| + Unspent(s.ops) == p.logsize && p.logsize > 0
    requires |s.logged| <= p.size - 1 || s.logged == []
    requires forall b :: b in s.logged ==> b < unused
    ensures Reaches(p, full, 0, t) && TooBig(p, t) && Unspent(t.ops) > 0
    decreases p.logsize - |s.logged|
  {
    hide Reaches;
    if TooBig(p, s) {
      full, t := actions, s;
    } else {
      var op := SomeoneCanWrite(s.ops);
      var s1 := LogWritten(s, op, unused);
      Extend(p, actions, s, Write(op, unused), s1, 0);
      CountsAfterUpdate(s.ops, op, Live(s.ops[op].unspent - 1));
      full, t := FillUp(p, actions + [Write(op, unused)], s1, unused + 1);
    }
  }

  // ---- Writes that are absorbed -----------------------------------------------------------------

  /** The entries outstanding calls will still use, each keeping `keep` back. */
  function Due(ops: seq<Op>, keep: nat): nat {
    if ops == [] then 0 else Due(ops[..|ops|-1], keep) + DueOf(ops[|ops|-1], keep)
  }

  function DueOf(o: Op, keep: nat): nat {
    if o.Live? && o.unspent > keep then o.unspent - keep else 0
  }

  lemma {:induction false} DueAfterUpdate(ops: seq<Op>, i: nat, o: Op, keep: nat)
    requires i < |ops|
    ensures Due(ops[i := o], keep) == Due(ops, keep) - DueOf(ops[i], keep) + DueOf(o, keep)
  {
    var n := |ops| - 1;
    if i == n {
      assert ops[i := o][..n] == ops[..n];
    } else {
      DueAfterUpdate(ops[..n], i, o, keep);
      assert ops[i := o][..n] == ops[..n][i := o];
    }
  }

  lemma {:induction false} DueBound(ops: seq<Op>, maxop: nat, keep: nat)
    requires keep <= maxop && forall i :: 0 <= i < |ops| ==> Cost(ops[i]) <= maxop
    ensures Due(ops, keep) <= Outstanding(ops) * (maxop - keep)
  {
    if ops != [] {
      var rest, m := ops[..|ops|-1], maxop - keep;
      DueBound(rest, maxop, keep);
      assert Cost(ops[|ops|-1]) <= maxop;
      assert (Outstanding(rest) + 1) * m == Outstanding(rest) * m + m;
    }
  }

  /** The most calls that certainly hold entries back at once: a second call begins only beside a first. */
  function Holding(calls: nat): nat { if calls == 1 then 1 else 2 }

  /** As many blocks as can ever be logged while a call is outstanding. */
  function Most(p: Params, calls: nat, keep: nat): int { p.logsize - Holding(calls) * keep }

  ghost predicate Thin(p: Params, s: LogState, calls: nat, keep: nat) {
    && Reserved(p, s)
    && (Outstanding(s.ops) > 0 ==> |s.logged| + Due(s.ops, keep) <= Most(p, calls, keep))
  }

  lemma RoomLeft(n: nat, due: nat, out: nat, calls: nat, maxop: nat, keep: nat)
    requires maxop > keep && calls > 0 && n + (out + 1) * maxop <= calls * maxop
    requires due <= out * (maxop - keep) && (out == 0 ==> n == 0)
    ensures n + due + (maxop - keep) <= calls * maxop - Holding(calls) * keep
  {
    var spend, h := maxop - keep, Holding(calls);
    if out == 0 {
      Multiples(h, calls, maxop);
      assert h * maxop == h * spend + h * keep;
    } else {
      assert out * spend + spend == (out + 1) * spend;
      assert (out + 1) * maxop == (out + 1) * spend + (out + 1) * keep;
      assert (out + 1) * keep >= 2 * keep;
    }
  }

  lemma CallsFit(p: Params, s: LogState, calls: nat, keep: nat)
    requires p.maxop > keep && calls > 0 && p.logsize == calls * p.maxop && Thin(p, s, calls, keep) && !BeginSleeps(p, s)
    ensures |s.logged| + Due(s.ops, keep) + p.maxop - keep <= Most(p, calls, keep)
  {
    DueBound(s.ops, p.maxop, keep);
    RoomLeft(|s.logged|, Due(s.ops, keep), Outstanding(s.ops), calls, p.maxop, keep);
  }

  lemma StepKeepsThin(p: Params, s: LogState, a: Action, calls: nat, keep: nat)
    requires p.maxop > keep && calls > 0 && p.logsize == calls * p.maxop
    requires Thin(p, s, calls, keep) && Thrifty(s, a, keep) && Step(p, s, a).Some?
    ensures Thin(p, Step(p, s, a).value, calls, keep)
  {
    hide Most, BeginSleeps;
    StepKeepsReserved(p, s, a);
    match a
    case Begin =>
      CallsFit(p, s, calls, keep);
      assert (s.ops + [Live(p.maxop)])[..|s.ops|] == s.ops;
    case Write(op, b) =>
      CountsAfterUpdate(s.ops, op, s.ops[op]);
      if b !in s.logged {
        DueAfterUpdate(s.ops, op, Live(s.ops[op].unspent - 1), keep);
      }
    case End(op) =>
      CountsAfterUpdate(s.ops, op, Done);
      DueAfterUpdate(s.ops, op, Done, keep);
    case Committed =>
  }

  lemma {:induction false} RunKeepsThin(p: Params, actions: seq<Action>, s: LogState, calls: nat, keep: nat)
    requires p.maxop > keep && calls > 0 && p.logsize == calls * p.maxop && Reaches(p, actions, keep, s)
    ensures Thin(p, s, calls, keep)
    decreases |actions|
  {
    hide Step, Thin, Thrifty;
    if actions == [] {
      InitialThin(p, calls, keep);
    } else {
      var prefix, a := actions[..|actions|-1], actions[|actions|-1];
      var t :| Reaches(p, prefix, keep, t) && Thrifty(t, a, keep) && Step(p, t, a) == Some(s);
      RunKeepsThin(p, prefix, t, calls, keep);
      StepKeepsThin(p, t, a, calls, keep);
    }
  }

  lemma InitialThin(p: Params, calls: nat, keep: nat)
    ensures Thin(p, Initial(), calls, keep)
  {
  }

  /** Only block numbers below the length are logged, so the length itself names a new block. */
  predicate Low(s: LogState) {
    forall i :: 0 <= i < |s.logged| ==> s.logged[i] < |s.logged|
  }

  /** Call op logs j new blocks, unless a write that is due would panic before that. */
  lemma {:induction false} Pour(p: Params, actions: seq<Action>, s: LogState, op: nat, j: nat, keep: nat)
      returns (more: seq<Action>, t: LogState)
    requires Reaches(p, actions, keep, s) && Low(s) && op < |s.ops| && s.ops[op] == Live(keep + j)
    ensures Reaches(p, more, keep, t)
    ensures Trips(p, t, keep) || (Low(t) && |t.logged| == |s.logged| + j && t.ops == s.ops[op := Live(keep)] && t.committing == s.committing)
    decreases j
  {
    hide Reaches;
    more, t := actions, s;
    if j > 0 {
      var b := |s.logged|;
      if TooBig(p, s) {
        assert WriteDue(s, op, b, keep);
      } else {
        var s1 := LogWritten(s, op, b);
        Extend(p, actions, s, Write(op, b), s1, keep);
        more, t := Pour(p, actions + [Write(op, b)], s1, op, j - 1, keep);
        assert s1.ops[op := Live(keep)] == s.ops[op := Live(keep)];
      }
    } else {
      assert s.ops[op := Live(keep)] == s.ops;
    }
  }

  /** One idle call, and finished ones. */
  predicate Idle(p: Params, s: LogState) {
    && Low(s) && !s.committing && |s.ops| > 0 && s.ops[0] == Live(p.maxop)
    && (forall i :: 1 <= i < |s.ops| ==> s.ops[i] == Done)
  }

  lemma {:induction false} IdleCounts(ops: seq<Op>)
    requires |ops| > 0 && ops[0].Live? && (forall i :: 1 <= i < |ops| ==> ops[i] == Done)
    ensures Outstanding(ops) == 1
    decreases |ops|
  {
    if |ops| > 1 { IdleCounts(ops[..|ops|-1]); } else { assert ops[..0] == []; }
  }

  /** Beside an idle call, others come and go and leave k blocks logged. */
  lemma {:induction false} Leave(p: Params, k: nat, keep: nat) returns (actions: seq<Action>, s: LogState)
    requires p.maxop > keep && k + 2 * p.maxop <= p.logsize
    ensures Reaches(p, actions, keep, s) && (Trips(p, s, keep) || (Idle(p, s) && |s.logged| == k))
    decreases k
  {
    if k == 0 {
      assert Reaches(p, [], keep, Initial());
      s := Initial().(ops := [Live(p.maxop)]);
      assert Initial().ops + [Live(p.maxop)] == [Live(p.maxop)];
      Extend(p, [], Initial(), Begin, s, keep);
      actions := [] + [Begin];
    } else {
      var before, s0 := Leave(p, k - 1, keep);
      if Trips(p, s0, keep) { return before, s0; }
      actions, s := Visit(p, before, s0, keep);
    }
  }

  /** A call begins, logs a block and ends. */
  lemma Visit(p: Params, before: seq<Action>, s0: LogState, keep: nat) returns (actions: seq<Action>, s: LogState)
    requires p.maxop > keep && Reaches(p, before, keep, s0) && Idle(p, s0) && |s0.logged| + 2 * p.maxop <= p.logsize
    ensures Reaches(p, actions, keep, s) && (Trips(p, s, keep) || (Idle(p, s) && |s.logged| == |s0.logged| + 1))
  {
    hide Reaches;
    var n, b := |s0.ops|, |s0.logged|;
    IdleCounts(s0.ops);
    var s1 := s0.(ops := s0.ops + [Live(p.maxop)]);
    Extend(p, before, s0, Begin, s1, keep);
    actions, s := before + [Begin], s1;
    if TooBig(p, s1) {
      assert WriteDue(s1, n, b, keep);
    } else {
      var s2 := LogWritten(s1, n, b);
      Extend(p, actions, s1, Write(n, b), s2, keep);
      actions := actions + [Write(n, b)];
      s := s2.(ops := s2.ops[n := Done]);
      assert s.ops == s0.ops + [Done];
      IdleCounts(s.ops);
      Extend(p, actions, s2, End(n), s, keep);
      actions := actions + [End(n)];
    }
  }

  /** A run that logs as many blocks as can be, with a call still outstanding. */
  lemma FillMost(p: Params, calls: nat, keep: nat) returns (actions: seq<Action>, s: LogState)
    requires p.maxop > keep && calls > 0 && p.logsize == calls * p.maxop
    ensures Reaches(p, actions, keep, s)
    ensures Trips(p, s, keep) || (|s.logged| == Most(p, calls, keep) > 0 && |s.ops| > 0 && s.ops[0].Live?)
  {
    hide Reaches, Trips;
    if calls == 1 {
      actions, s := FillOne(p, keep);
    } else {
      Multiples(2, calls, p.maxop);
      actions, s := Leave(p, p.logsize - 2 * p.maxop, keep);
      if !Trips(p, s, keep) { actions, s := FillTwo(p, actions, s, keep); }
    }
  }

  lemma FillOne(p: Params, keep: nat) returns (actions: seq<Action>, s: LogState)
    requires p.maxop > keep && p.logsize == p.maxop
    ensures Reaches(p, actions, keep, s)
    ensures Trips(p, s, keep) || (|s.logged| == p.logsize - keep && |s.ops| > 0 && s.ops[0].Live?)
  {
    assert Reaches(p, [], keep, Initial());
    s := Initial().(ops := [Live(p.maxop)]);
    assert Initial().ops + [Live(p.maxop)] == [Live(p.maxop)];
    Extend(p, [], Initial(), Begin, s, keep);
    actions, s := Pour(p, [] + [Begin], s, 0, p.maxop - keep, keep);
  }

  lemma FillTwo(p: Params, before: seq<Action>, s0: LogState, keep: nat) returns (actions: seq<Action>, s: LogState)
    requires p.maxop > keep && Reaches(p, before, keep, s0) && Idle(p, s0) && |s0.logged| + 2 * p.maxop == p.logsize
    ensures Reaches(p, actions, keep, s)
    ensures Trips(p, s, keep) || (|s.logged| == p.logsize - 2 * keep && |s.ops| > 0 && s.ops[0].Live?)
  {
    hide Reaches, Trips;
    var n := |s0.ops|;
    IdleCounts(s0.ops);
    s := s0.(ops := s0.ops + [Live(p.maxop)]);
    Extend(p, before, s0, Begin, s, keep);
    actions, s := Pour(p, before + [Begin], s, 0, p.maxop - keep, keep);
    if !Trips(p, s, keep) {
      actions, s := Pour(p, actions, s, n, p.maxop - keep, keep);
    }
  }

  /** If every call keeps `keep` of its MAXOPBLOCKS entries unused, no run reaches the panic exactly when
      keep is positive and the log area is large enough for what is then left. */
  lemma PanicFreeIff(p: Params, calls: nat, keep: nat)
    requires p.maxop > keep && calls > 0 && p.logsize == calls * p.maxop
    ensures !SomeRunTrips(p, keep) <==> keep > 0 && p.size >= Most(p, calls, keep) + 2
  {
    hide Reaches, Step, Thin;
    if keep > 0 && p.size >= Most(p, calls, keep) + 2 {
      forall actions, s | Reaches(p, actions, keep, s) ensures !Trips(p, s, keep) {
        RunKeepsThin(p, actions, s, calls, keep);
        ThinQuiet(p, s, calls, keep);
      }
    } else {
      var actions, s := FillMost(p, calls, keep);
      if !Trips(p, s, keep) { FullTrips(p, s, calls, keep); }
    }
  }

  /** With that many blocks logged, writing one of them again is due and panics. */
  lemma FullTrips(p: Params, s: LogState, calls: nat, keep: nat)
    requires |s.logged| == Most(p, calls, keep) > 0 && |s.ops| > 0 && s.ops[0].Live?
    requires keep == 0 || p.size < Most(p, calls, keep) + 2
    ensures Trips(p, s, keep)
  {
    assert WriteDue(s, 0, s.logged[0], keep);
  }

  lemma ThinQuiet(p: Params, s: LogState, calls: nat, keep: nat)
    requires Thin(p, s, calls, keep) && calls > 0 && keep > 0 && p.size >= Most(p, calls, keep) + 2
    ensures !Trips(p, s, keep)
  {
    if Trips(p, s, keep) {
      var op: nat, b: nat :| WriteDue(s, op, b, keep);
      CountsAfterUpdate(s.ops, op, s.ops[op]);
      assert false;
    }
  }

  /** With room for LOGSIZE blocks, the only log_write that panics is one of a block logged already, when
      the log is full and every outstanding call has used all its entries. */
  lemma OnlyAbsorbedTrip(p: Params, calls: nat, actions: seq<Action>, s: LogState, op: nat, b: nat)
    requires p.maxop > 0 && calls > 0 && p.logsize == calls * p.maxop && p.size >= p.logsize + 1
    requires Reaches(p, actions, 0, s) && TooBig(p, s) && WriteDue(s, op, b, 0)
    ensures b in s.logged && |s.logged| == p.logsize && Unspent(s.ops) == 0
  {
    hide Reaches;
    RunKeepsThin(p, actions, s, calls, 0);
    CountsAfterUpdate(s.ops, op, s.ops[op]);
  }

  /** The shipped constants: with MAXOPBLOCKS 10, LOGSIZE 30 and the 30-block log that mkfs lays out, or
      one of 31, calls that log up to ten blocks each can reach the panic; calls that log at most nine
      cannot. */
  lemma ShippedLog()
    ensures SomeRunTrips(Params(10, 30, 30), 0) && !SomeRunTrips(Params(10, 30, 30), 1)
    ensures SomeRunTrips(Params(10, 30, 31), 0) && !SomeRunTrips(Params(10, 30, 31), 1)
  {
    PanicFreeIff(Params(10, 30, 30), 3, 0);
    PanicFreeIff(Params(10, 30, 30), 3, 1);
    PanicFreeIff(Params(10, 30, 31), 3, 0);
    PanicFreeIff(Params(10, 30, 31), 3, 1);
  }

  // ---- Commits and buffers ----------------------------------------------------------------------

  /** Some run comes to a commit whose pinned blocks, with as many again as others refer to, leave no
      buffer for the log's own blocks. */
  ghost predicate SomeCommitStuck(p: Params, nbuf: nat, others: nat) {
    exists actions, s :: Reaches(p, actions, 0, s) && s.committing && s.logged != [] && |s.logged| + others >= nbuf
  }

  lemma {:induction false} SomeoneLive(ops: seq<Op>) returns (op: nat)
    requires Outstanding(ops) > 0
    ensures op < |ops| && ops[op].Live?
  {
    var n := |ops| - 1;
    if ops[n].Live? { op := n; } else { op := SomeoneLive(ops[..n]); }
  }

  /** The outstanding calls end one after the other, and the commit begins. */
  lemma {:induction false} EndAll(p: Params, actions: seq<Action>, s: LogState) returns (more: seq<Action>, t: LogState)
    requires Reaches(p, actions, 0, s) && Outstanding(s.ops) > 0
    ensures Reaches(p, more, 0, t) && t.committing && t.logged == s.logged
    decreases Outstanding(s.ops)
  {
    hide Reaches, Reserved, Step;
    RunKeepsReserved(p, actions, 0, s);
    var op := SomeoneLive(s.ops);
    EndStep(p, s, op);
    t := Ended(s, op);
    Extend(p, actions, s, End(op), t, 0);
    more := actions + [End(op)];
    if Outstanding(s.ops) > 1 { more, t := EndAll(p, more, t); }
  }

  /** The calls fill the log as far as it goes. */
  lemma FillLog(p: Params, calls: nat) returns (actions: seq<Action>, s: LogState)
    requires p.maxop > 0 && calls > 0 && p.logsize == calls * p.maxop && p.size >= 2
    ensures Reaches(p, actions, 0, s) && Outstanding(s.ops) > 0
    ensures |s.logged| == if p.logsize < p.size - 1 then p.logsize else p.size - 1
  {
    hide Reaches;
    actions, s := FillMost(p, calls, 0);
    RunKeepsReserved(p, actions, 0, s);
    var op: nat;
    if Trips(p, s, 0) {
      var o: nat, b: nat :| WriteDue(s, o, b, 0);
      op := o;
    } else {
      op := 0;
    }
    CountsAfterUpdate(s.ops, op, s.ops[op]);
  }

  /** Every commit finds the buffer it needs exactly when the buffers outnumber the blocks the log holds
      and the blocks that others, such as readers, refer to at the time. */
  lemma CommitsFitIff(p: Params, calls: nat, nbuf: nat, others: nat)
    requires p.maxop > 0 && calls > 0 && p.logsize == calls * p.maxop
    ensures !SomeCommitStuck(p, nbuf, others) <==> p.size <= 1 || nbuf > p.logsize + others || nbuf > p.size - 1 + others
  {
    hide Reaches;
    if p.size <= 1 || nbuf > p.logsize + others || nbuf > p.size - 1 + others {
      forall actions, s | Reaches(p, actions, 0, s) ensures !(s.logged != [] && |s.logged| + others >= nbuf) {
        RunKeepsReserved(p, actions, 0, s);
      }
    } else {
      var actions, s := FillLog(p, calls);
      actions, s := EndAll(p, actions, s);
    }
  }

  /** NBUF is LOGSIZE: with the shipped log a commit never runs out of buffers while no one else refers to
      one, but can as soon as one other block is being read; with a log one block longer, which could
      hold LOGSIZE blocks, it can by itself. */
  lemma ShippedBuffers()
    ensures !SomeCommitStuck(Params(10, 30, 30), 30, 0) && SomeCommitStuck(Params(10, 30, 30), 30, 1)
    ensures SomeCommitStuck(Params(10, 30, 31), 30, 0)
  {
    CommitsFitIff(Params(10, 30, 30), 3, 30, 0);
    CommitsFitIff(Params(10, 30, 30), 3, 30, 1);
    CommitsFitIff(Params(10, 30, 31), 3, 30, 0);
  }
}
