/** When callbacks run, on the unbounded clock: over all runs, exactly when a live entry is called, missed or called
    early; never early, and once per pass when due, for runs whose delays, returned delays and gaps between task
    calls meet stated bounds; and two runs that show why delays and gaps below 2^31 ms are not enough. */
module DeferredTimes {
  import opened DeferredModel
  import opened DeferredProofs

  const HALF: int := 0x8000_0000

  // ---------------------------------------------------------------- conditions on delays

  function DelayOf(op: Op): (d: nat) {
    match op
    case Defer(delay, callback, arg) => delay
    case Extend(token, delay) => delay
    case Cancel(token) => 0
  }

  /** Operation `j` of a callback entered with `token` may set the due time of its own entry: it extends
      the token, or queues an execution after the token was cancelled. */
  predicate Retimes(ops: seq<TimedOp>, j: nat, token: nat)
    requires j < |ops|
  {
    || (ops[j].op.Extend? && ops[j].op.token == token)
    || (ops[j].op.Defer? && exists i :: 0 <= i < j && ops[i].op == Cancel(token))
  }

  /** From a task call at `now` the operation reaches less than 2^31 ms ahead, `extra` included. */
  predicate Near(op: TimedOp, now: int, extra: nat) {
    now <= op.time && (op.op.Cancel? || op.time + DelayOf(op.op) + extra < now + HALF)
  }

  /** A callback called at `now`: its delays stay below 2^31 ms, and so does the sum when a delay it gives its
      own entry is followed by the delay it returns. */
  predicate Modest(r: Reaction, token: nat, now: int) {
    && r.delay < HALF
    && forall j :: 0 <= j < |r.ops| ==> Near(r.ops[j], now, if Retimes(r.ops, j, token) then r.delay else 0)
  }

  /** Every callback among the first `n` slots of a pass is modest. */
  predicate ModestPass(cb: Callbacks, s: State, n: nat, now: int)
    requires n <= |s.table|
  {
    n == 0 ||
    (var p := Pass(cb, s, n - 1, now);
     && ModestPass(cb, s, n - 1, now)
     && (IsDue(p.table[n - 1], now) ==> Modest(cb(p.calls), p.table[n - 1].token, now)))
  }

  /** Every callback among the first `n` slots returns 0 or a delay of at least `gap`. */
  predicate PacedPass(cb: Callbacks, s: State, n: nat, now: int, gap: int)
    requires n <= |s.table|
  {
    n == 0 ||
    (var p := Pass(cb, s, n - 1, now);
     && PacedPass(cb, s, n - 1, now, gap)
     && (IsDue(p.table[n - 1], now) ==> cb(p.calls).delay == 0 || cb(p.calls).delay >= gap))
  }

  function TimeOf(c: Command): int {
    match c
    case Ask(op) => op.time
    case Tick(now) => now
  }

  function ClockOf(commands: seq<Command>): int {
    if commands == [] then 0 else TimeOf(commands[|commands| - 1])
  }

  /** The clock does not go back, and delays are modest. */
  predicate ModestRun(cb: Callbacks, size: nat, commands: seq<Command>) {
    commands == [] ||
    (var before, c := commands[..|commands| - 1], commands[|commands| - 1];
     var s := Run(cb, size, before);
     && ModestRun(cb, size, before) && ClockOf(before) <= TimeOf(c)
     && (c.Ask? ==> DelayOf(c.op.op) < HALF)
     && (c.Tick? && Ahead(c.now, s.last) > 0 ==> ModestPass(cb, s.(last := c.now), |s.table|, c.now)))
  }

  /** The same, gaps between task calls are below 2^31 ms, and a callback that asks to be called again asks for
      at least the gap before the task call it runs in. */
  predicate PacedRun(cb: Callbacks, size: nat, commands: seq<Command>) {
    commands == [] ||
    (var before, c := commands[..|commands| - 1], commands[|commands| - 1];
     var s := Run(cb, size, before);
     && PacedRun(cb, size, before) && ModestRun(cb, size, commands)
     && (c.Tick? ==> c.now - s.last < HALF && PacedPass(cb, s.(last := c.now), |s.table|, c.now, c.now - s.last)))
  }

  // ---------------------------------------------------------------- the clock

  lemma AheadIsExact(a: int, b: int)
    requires -HALF <= a - b < HALF
    ensures Ahead(a, b) == a - b
  {}

  /** A live entry is run at its turn exactly when it is late, modulo 2^32 ms, by at most 2^31 ms. */
  lemma DueModulo(e: Entry, now: int)
    requires e.token != 0
    ensures IsDue(e, now) <==> (now - e.due) % 0x1_0000_0000 <= HALF
  {
    var u := (e.due - now) % 0x1_0000_0000;
    assert (now - e.due) % 0x1_0000_0000 == if u == 0 then 0 else 0x1_0000_0000 - u;
  }

  /** Live timers lie less than 2^31 ms ahead. */
  predicate Below(table: seq<Entry>, now: int) {
    forall i :: 0 <= i < |table| && table[i].token != 0 ==> table[i].due < now + HALF
  }

  /** Live timers in visited slots are due after `now`, the others after `prev`, the task call before. */
  predicate Above(table: seq<Entry>, n: nat, prev: int, now: int) {
    forall i :: 0 <= i < |table| && table[i].token != 0 ==> (if i < n then now else prev) < table[i].due
  }

  /** A timer less than 2^31 ms ahead is not run before it is due. */
  lemma DueIsDue(e: Entry, now: int)
    requires e.token != 0 && e.due < now + HALF
    ensures IsDue(e, now) ==> e.due <= now
    ensures now - HALF <= e.due ==> (IsDue(e, now) <==> e.due <= now)
  {
    if -HALF <= e.due - now { AheadIsExact(e.due, now); }
  }

  // ---------------------------------------------------------------- one callback

  /** A slot as it was, free, or written since `now` and not due. */
  predicate Touched(was: Entry, e: Entry, now: int) {
    e == was || e.token == 0 || now < e.due < now + HALF
  }

  predicate AllTouched(was: seq<Entry>, table: seq<Entry>, n: nat, now: int) {
    |table| == |was| && forall j :: n <= j < |table| ==> Touched(was[j], table[j], now)
  }

  predicate AllNear(ops: seq<TimedOp>, now: int) {
    forall j :: 0 <= j < |ops| ==> Near(ops[j], now, 0)
  }

  lemma DoTouches(was: seq<Entry>, s: State, op: TimedOp, n: nat, now: int)
    requires AllTouched(was, s.table, n, now) && Near(op, now, 0)
    ensures AllTouched(was, Do(s, op).table, n, now)
  {}

  lemma {:induction false} DoAllTouches(was: seq<Entry>, s: State, ops: seq<TimedOp>, n: nat, now: int)
    requires AllTouched(was, s.table, n, now) && AllNear(ops, now)
    ensures AllTouched(was, DoAll(s, ops).table, n, now)
  {
    if ops != [] {
      DoAllTouches(was, s, ops[..|ops| - 1], n, now);
      DoTouches(was, DoAll(s, ops[..|ops| - 1]), ops[|ops| - 1], n, now);
    }
  }

  predicate Cancels(ops: seq<TimedOp>, token: nat) {
    exists j :: 0 <= j < |ops| && ops[j].op == Cancel(token)
  }

  /** The entry still carries its token: as it was, or so that the returned delay fits. */
  predicate OwnEntry(was: Entry, e: Entry, delay: nat, now: int) {
    e.token == was.token ==> e.due == was.due || now < e.due < now + HALF - delay
  }

  lemma DoOwn(was: Entry, s: State, op: TimedOp, i: nat, delay: nat, now: int, cancelled: bool)
    requires i < |s.table| && was.token != 0
    requires OwnEntry(was, s.table[i], delay, now) && (!cancelled ==> s.table[i].token == was.token)
    requires var own := (op.op.Extend? && op.op.token == was.token) || (op.op.Defer? && cancelled);
             Near(op, now, if own then delay else 0)
    ensures OwnEntry(was, Do(s, op).table[i], delay, now)
    ensures !cancelled && op.op != Cancel(was.token) ==> Do(s, op).table[i].token == was.token
  {}

  /** While a callback runs, its own entry changes only by operations that count the returned delay. */
  lemma {:induction false} DoAllOwn(was: Entry, s: State, r: Reaction, n: nat, i: nat, now: int)
    requires i < |s.table| && s.table[i] == was && was.token != 0 && Modest(r, was.token, now) && n <= |r.ops|
    ensures var e := DoAll(s, r.ops[..n]).table[i];
            OwnEntry(was, e, r.delay, now) && (!Cancels(r.ops[..n], was.token) ==> e.token == was.token)
  {
    if n > 0 {
      DoAllOwn(was, s, r, n - 1, i, now);
      var ops, op := r.ops[..n - 1], r.ops[n - 1];
      assert r.ops[..n][..n - 1] == ops;
      assert op.op.Defer? && Cancels(ops, was.token) ==> Retimes(r.ops, n - 1, was.token);
      DoOwn(was, DoAll(s, ops), op, i, r.delay, now, Cancels(ops, was.token));
      assert r.ops[..n] == ops + [op];
    }
  }

  lemma ModestIsNear(r: Reaction, token: nat, now: int)
    requires Modest(r, token, now)
    ensures AllNear(r.ops, now)
  {}

  lemma {:induction false} DoAllKeepsRest(s: State, ops: seq<TimedOp>)
    ensures DoAll(s, ops).last == s.last && DoAll(s, ops).calls == s.calls
  {
    if ops != [] { DoAllKeepsRest(s, ops[..|ops| - 1]); }
  }

  /** One iteration of the task loop: other slots are touched at most, and what is live in the visited slot
      is due later if it was due after `prev` and the callback keeps pace. */
  lemma VisitTimes(cb: Callbacks, s: State, i: nat, now: int)
    requires i < |s.table| && Below(s.table, now)
    requires IsDue(s.table[i], now) ==> Modest(cb(s.calls), s.table[i].token, now)
    ensures var v := Visit(cb, s, i, now);
            && Below(v.table, now) && v.last == s.last
            && AllTouched(s.table[..i], v.table[..i], 0, now)
            && AllTouched(s.table, v.table, i + 1, now)
  {
    if s.table[i].token != 0 { DueIsDue(s.table[i], now); }
    if IsDue(s.table[i], now) {
      var s1, r, e := Enter(s, i, now), cb(s.calls), s.table[i];
      ModestIsNear(r, e.token, now);
      DoAllTouches(s.table, s1, r.ops, 0, now);
      DoAllOwn(e, s1, r, |r.ops|, i, now);
      assert r.ops[..|r.ops|] == r.ops;
      DoAllKeepsRest(s1, r.ops);
      var t := DoAll(s1, r.ops).table;
      assert forall j :: 0 <= j < |t| ==> Touched(s.table[j], t[j], now);
      var v := Visit(cb, s, i, now).table;
      assert forall j :: 0 <= j < |t| && j != i ==> v[j] == t[j];
    }
  }

  lemma VisitPaces(cb: Callbacks, s: State, i: nat, prev: int, now: int)
    requires i < |s.table| && Below(s.table, now) && Above(s.table, i, prev, now) && now - HALF <= prev < now
    requires IsDue(s.table[i], now) ==> Modest(cb(s.calls), s.table[i].token, now)
    requires IsDue(s.table[i], now) ==> cb(s.calls).delay == 0 || cb(s.calls).delay >= now - prev
    ensures Above(Visit(cb, s, i, now).table, i + 1, prev, now)
  {
    VisitTimes(cb, s, i, now);
    var v := Visit(cb, s, i, now).table;
    forall j | 0 <= j < i ensures Touched(s.table[j], v[j], now) {
      assert s.table[..i][j] == s.table[j] && v[..i][j] == v[j];
    }
    VisitedSlot(cb, s, i, prev, now);
  }

  lemma VisitedSlot(cb: Callbacks, s: State, i: nat, prev: int, now: int)
    requires i < |s.table| && Below(s.table, now) && now - HALF <= prev < now
    requires s.table[i].token != 0 ==> prev < s.table[i].due
    requires IsDue(s.table[i], now) ==> Modest(cb(s.calls), s.table[i].token, now)
    requires IsDue(s.table[i], now) ==> cb(s.calls).delay == 0 || cb(s.calls).delay >= now - prev
    ensures var e := Visit(cb, s, i, now).table[i]; e.token != 0 ==> now < e.due
  {
    if s.table[i].token != 0 { DueIsDue(s.table[i], now); }
    if IsDue(s.table[i], now) {
      var s1, r, e := Enter(s, i, now), cb(s.calls), s.table[i];
      ModestIsNear(r, e.token, now);
      DoAllTouches(s.table, s1, r.ops, i, now);
      DoAllOwn(e, s1, r, |r.ops|, i, now);
      assert r.ops[..|r.ops|] == r.ops;
      assert Touched(e, DoAll(s1, r.ops).table[i], now);
    }
  }

  // ---------------------------------------------------------------- one pass

  /** A pass that has visited `n` slots: nothing lies too far ahead, unvisited slots are touched at most. */
  lemma {:induction false} PassTimes(cb: Callbacks, s: State, n: nat, now: int)
    requires n <= |s.table| && Below(s.table, now) && ModestPass(cb, s, n, now)
    ensures var p := Pass(cb, s, n, now);
            Below(p.table, now) && p.last == s.last && AllTouched(s.table, p.table, n, now)
  {
    hide Visit, Modest, IsDue;
    if n > 0 {
      PassTimes(cb, s, n - 1, now);
      VisitTimes(cb, Pass(cb, s, n - 1, now), n - 1, now);
    }
  }

  lemma {:induction false} PassPaces(cb: Callbacks, s: State, n: nat, prev: int, now: int)
    requires n <= |s.table| && Below(s.table, now) && Above(s.table, 0, prev, now) && now - HALF <= prev < now
    requires ModestPass(cb, s, n, now) && PacedPass(cb, s, n, now, now - prev)
    ensures Above(Pass(cb, s, n, now).table, n, prev, now)
  {
    hide Visit, Modest, IsDue;
    if n > 0 {
      PassPaces(cb, s, n - 1, prev, now);
      PassTimes(cb, s, n - 1, now);
      VisitPaces(cb, Pass(cb, s, n - 1, now), n - 1, prev, now);
    }
  }

  // ---------------------------------------------------------------- never early

  /** No callback was called before its timer was due. */
  predicate NeverEarly(log: seq<Happening>) {
    forall p :: 0 <= p < |log| && log[p].Called? ==> log[p].timer.due <= log[p].now
  }

  lemma {:induction false} DoAllNeverEarly(s: State, ops: seq<TimedOp>)
    requires NeverEarly(s.log)
    ensures NeverEarly(DoAll(s, ops).log)
  {
    if ops != [] {
      DoAllNeverEarly(s, ops[..|ops| - 1]);
      var s1, op := DoAll(s, ops[..|ops| - 1]), ops[|ops| - 1];
      DoNeverEarly(s1, op);
    }
  }

  lemma DoNeverEarly(s: State, op: TimedOp)
    requires NeverEarly(s.log)
    ensures NeverEarly(Do(s, op).log)
  {}

  lemma VisitNeverEarly(cb: Callbacks, s: State, i: nat, now: int)
    requires i < |s.table| && Below(s.table, now) && NeverEarly(s.log)
    ensures NeverEarly(Visit(cb, s, i, now).log)
  {
    if IsDue(s.table[i], now) {
      DueIsDue(s.table[i], now);
      DoAllNeverEarly(Enter(s, i, now), cb(s.calls).ops);
    }
  }

  lemma {:induction false} PassNeverEarly(cb: Callbacks, s: State, n: nat, now: int)
    requires n <= |s.table| && Below(s.table, now) && ModestPass(cb, s, n, now) && NeverEarly(s.log)
    ensures NeverEarly(Pass(cb, s, n, now).log)
  {
    hide Visit, Modest, IsDue;
    if n > 0 {
      PassNeverEarly(cb, s, n - 1, now);
      PassTimes(cb, s, n - 1, now);
      VisitNeverEarly(cb, Pass(cb, s, n - 1, now), n - 1, now);
    }
  }

  lemma AskTimes(s: State, op: TimedOp, clock: int)
    requires Below(s.table, clock) && NeverEarly(s.log) && clock <= op.time && DelayOf(op.op) < HALF
    ensures Below(Do(s, op).table, op.time) && NeverEarly(Do(s, op).log) && Do(s, op).last == s.last
  {
    DoNeverEarly(s, op);
  }

  /** Over every run with modest delays, whatever the gaps between task calls, no callback is called before it
      is due on the unbounded clock. */
  lemma {:induction false} RunNeverEarly(cb: Callbacks, size: nat, commands: seq<Command>)
    requires ModestRun(cb, size, commands)
    ensures var s := Run(cb, size, commands);
            NeverEarly(s.log) && Below(s.table, ClockOf(commands)) && s.last <= ClockOf(commands)
  {
    if commands != [] {
      hide Pass, Do, ModestPass;
      var before, c := commands[..|commands| - 1], commands[|commands| - 1];
      RunNeverEarly(cb, size, before);
      var s := Run(cb, size, before);
      if c.Ask? {
        AskTimes(s, c.op, ClockOf(before));
      } else if Ahead(c.now, s.last) > 0 {
        PassTimes(cb, s.(last := c.now), |s.table|, c.now);
        PassNeverEarly(cb, s.(last := c.now), |s.table|, c.now);
      }
    }
  }

  // ---------------------------------------------------------------- once when due

  lemma AskPaces(s: State, op: TimedOp)
    requires Above(s.table, |s.table|, s.last, s.last) && s.last <= op.time
    ensures Above(Do(s, op).table, |s.table|, s.last, s.last)
  {}

  /** A task call is throttled exactly when the unbounded clock has not advanced. */
  lemma TaskThrottles(cb: Callbacks, s: State, now: int)
    requires 0 <= now - s.last < HALF
    ensures Task(cb, s, now) == if now == s.last then s else Pass(cb, s.(last := now), |s.table|, now)
  {
    AheadIsExact(now, s.last);
  }

  /** In a paced run every live timer is due after the last task call that was not throttled: none falls behind. */
  lemma {:induction false} RunKeepsPace(cb: Callbacks, size: nat, commands: seq<Command>)
    requires PacedRun(cb, size, commands)
    ensures var s := Run(cb, size, commands); Above(s.table, |s.table|, s.last, s.last)
    ensures ModestRun(cb, size, commands)
  {
    if commands != [] {
      hide Pass, Do, ModestPass, PacedPass;
      var before, c := commands[..|commands| - 1], commands[|commands| - 1];
      RunKeepsPace(cb, size, before);
      RunNeverEarly(cb, size, before);
      var s := Run(cb, size, before);
      if c.Ask? {
        AskPaces(s, c.op);
      } else {
        TaskThrottles(cb, s, c.now);
        if c.now > s.last {
          AheadIsExact(c.now, s.last);
          PassPaces(cb, s.(last := c.now), |s.table|, s.last, c.now);
          PassTimes(cb, s.(last := c.now), |s.table|, c.now);
        }
      }
    }
  }

  /** How often the callback of a slot was called. */
  function CallsOf(log: seq<Happening>, slot: nat): nat {
    if log == [] then 0
    else
      var h := log[|log| - 1];
      CallsOf(log[..|log| - 1], slot) + (if h.Called? && h.slot == slot then 1 else 0)
  }

  lemma CallsGrow(log: seq<Happening>, h: Happening, slot: nat)
    ensures CallsOf(log + [h], slot) == CallsOf(log, slot) + (if h.Called? && h.slot == slot then 1 else 0)
  {
    assert (log + [h])[..|log|] == log;
  }

  lemma {:induction false} DoAllCallsNothing(s: State, ops: seq<TimedOp>, slot: nat)
    ensures CallsOf(DoAll(s, ops).log, slot) == CallsOf(s.log, slot)
  {
    if ops != [] {
      var s1, op := DoAll(s, ops[..|ops| - 1]), ops[|ops| - 1];
      DoAllCallsNothing(s, ops[..|ops| - 1], slot);
      if Do(s1, op).log != s1.log {
        var h := Do(s1, op).log[|s1.log|];
        assert Do(s1, op).log == s1.log + [h];
        CallsGrow(s1.log, h, slot);
      }
    }
  }

  lemma VisitCalls(cb: Callbacks, s: State, i: nat, now: int, slot: nat)
    requires i < |s.table|
    ensures CallsOf(Visit(cb, s, i, now).log, slot) ==
            CallsOf(s.log, slot) + (if IsDue(s.table[i], now) && slot == i then 1 else 0)
  {
    if IsDue(s.table[i], now) {
      var e := s.table[i];
      var s1 := Enter(s, i, now);
      var s2 := DoAll(s1, cb(s.calls).ops);
      CallsGrow(s.log, s1.log[|s.log|], slot);
      DoAllCallsNothing(s1, cb(s.calls).ops, slot);
      CallsGrow(s2.log, Repeated(e.token, cb(s.calls).delay), slot);
      CallsGrow(s2.log, Finished(e.token), slot);
    }
  }

  lemma {:induction false} PassCalls(cb: Callbacks, s: State, n: nat, now: int, slot: nat)
    requires n <= |s.table|
    ensures CallsOf(Pass(cb, s, n, now).log, slot) ==
            CallsOf(s.log, slot) + (if slot < n && IsDue(Pass(cb, s, slot, now).table[slot], now) then 1 else 0)
  {
    hide Visit;
    if n > 0 {
      PassCalls(cb, s, n - 1, now, slot);
      VisitCalls(cb, Pass(cb, s, n - 1, now), n - 1, now, slot);
    }
  }

  /** How often the callback of the slot is called by a task call at `now` after the commands. */
  function CallsAt(cb: Callbacks, size: nat, before: seq<Command>, now: int, slot: nat): int {
    CallsOf(Run(cb, size, before + [Tick(now)]).log, slot) - CallsOf(Run(cb, size, before).log, slot)
  }

  /** The state when the turn of the slot comes in a task call that is not throttled. */
  function AtTurn(cb: Callbacks, size: nat, before: seq<Command>, now: int, slot: nat): (p: State)
    requires slot < |Run(cb, size, before).table|
    ensures slot < |p.table|
  {
    Pass(cb, Run(cb, size, before).(last := now), slot, now)
  }

  /** The time of the last task call that was not throttled. */
  function LastTask(commands: seq<Command>): int {
    if commands == [] then 0
    else
      var before := LastTask(commands[..|commands| - 1]);
      match commands[|commands| - 1]
      case Ask(op) => before
      case Tick(now) => if Ahead(now, before) > 0 then now else before
  }

  lemma {:induction false} LastIsLastTask(cb: Callbacks, size: nat, commands: seq<Command>)
    ensures Run(cb, size, commands).last == LastTask(commands)
  {
    hide Ahead;
    if commands != [] {
      var before, c := commands[..|commands| - 1], commands[|commands| - 1];
      LastIsLastTask(cb, size, before);
      var s := Run(cb, size, before);
      match c
      case Ask(op) => assert Do(s, op).last == s.last;
      case Tick(now) => PassKeepsLast(cb, s.(last := now), |s.table|, now);
    }
  }

  lemma {:induction false} PassKeepsLast(cb: Callbacks, s: State, n: nat, now: int)
    requires n <= |s.table|
    ensures Pass(cb, s, n, now).last == s.last
  {
    hide DoAll;
    if n > 0 {
      PassKeepsLast(cb, s, n - 1, now);
      var p := Pass(cb, s, n - 1, now);
      DoAllKeepsRest(Enter(p, n - 1, now), cb(p.calls).ops);
    }
  }

  /** Over every run, with any callers, callbacks and times: a task call runs the callback of a slot exactly once if
      it is not throttled and the slot is live at its turn and late, modulo 2^32 ms, by at most 2^31 ms; and else
      not at all. */
  lemma CalledIff(cb: Callbacks, size: nat, before: seq<Command>, now: int, slot: nat)
    requires slot < |Run(cb, size, before).table|
    ensures var e := AtTurn(cb, size, before, now, slot).table[slot];
            CallsAt(cb, size, before, now, slot) ==
            (if Ahead(now, LastTask(before)) > 0 && e.token != 0 && (now - e.due) % 0x1_0000_0000 <= HALF
             then 1 else 0)
  {
    hide Pass, IsDue, CallsOf, Ahead;
    LastIsLastTask(cb, size, before);
    var s := Run(cb, size, before);
    RunOne(cb, size, before, Tick(now));
    PassCalls(cb, s.(last := now), |s.table|, now, slot);
    TurnDue(AtTurn(cb, size, before, now, slot).table[slot], now);
  }

  lemma TurnDue(e: Entry, now: int)
    ensures IsDue(e, now) <==> e.token != 0 && (now - e.due) % 0x1_0000_0000 <= HALF
  {
    if e.token != 0 { DueModulo(e, now); }
  }

  /** The number of callback invocations in a history. */
  function Invocations(log: seq<Happening>): nat {
    if log == [] then 0
    else Invocations(log[..|log| - 1]) + (if log[|log| - 1].Called? then 1 else 0)
  }

  lemma InvocationsGrow(log: seq<Happening>, h: Happening)
    ensures Invocations(log + [h]) == Invocations(log) + (if h.Called? then 1 else 0)
  {
    assert (log + [h])[..|log|] == log;
  }

  /** Every invocation is counted. */
  predicate Counted(s: State) {
    s.calls == Invocations(s.log)
  }

  lemma DoCounted(s: State, op: TimedOp)
    requires Counted(s)
    ensures Counted(Do(s, op))
  {
    if Do(s, op).log != s.log {
      var h := Do(s, op).log[|s.log|];
      assert Do(s, op).log == s.log + [h];
      InvocationsGrow(s.log, h);
    }
  }

  lemma {:induction false} DoAllCounted(s: State, ops: seq<TimedOp>)
    requires Counted(s)
    ensures Counted(DoAll(s, ops))
  {
    hide Counted, Do;
    if ops != [] {
      DoAllCounted(s, ops[..|ops| - 1]);
      DoCounted(DoAll(s, ops[..|ops| - 1]), ops[|ops| - 1]);
    }
  }

  lemma VisitCounted(cb: Callbacks, s: State, i: nat, now: int)
    requires Counted(s) && i < |s.table|
    ensures Counted(Visit(cb, s, i, now))
  {
    hide DoAll, Invocations;
    if IsDue(s.table[i], now) {
      var e := s.table[i];
      InvocationsGrow(s.log, Enter(s, i, now).log[|s.log|]);
      DoAllCounted(Enter(s, i, now), cb(s.calls).ops);
      var left := DoAll(Enter(s, i, now), cb(s.calls).ops);
      InvocationsGrow(left.log, Repeated(e.token, cb(s.calls).delay));
      InvocationsGrow(left.log, Finished(e.token));
    }
  }

  lemma {:induction false} PassCounted(cb: Callbacks, s: State, n: nat, now: int)
    requires Counted(s) && n <= |s.table|
    ensures Counted(Pass(cb, s, n, now))
  {
    hide Visit, Counted;
    if n > 0 {
      PassCounted(cb, s, n - 1, now);
      VisitCounted(cb, Pass(cb, s, n - 1, now), n - 1, now);
    }
  }

  /** Over every run each invocation has a reaction of its own: the number of the next one is the number of
      invocations so far. */
  lemma {:induction false} EachInvocationReacts(cb: Callbacks, size: nat, commands: seq<Command>)
    ensures var s := Run(cb, size, commands); s.calls == Invocations(s.log)
  {
    hide Do, Pass;
    if commands != [] {
      var before, c := commands[..|commands| - 1], commands[|commands| - 1];
      EachInvocationReacts(cb, size, before);
      var s := Run(cb, size, before);
      match c
      case Ask(op) => DoCounted(s, op);
      case Tick(now) => PassCounted(cb, s.(last := now), |s.table|, now);
    }
  }

  /** The due time last given to the token by queueing or extending it. */
  function SetDue(log: seq<Happening>, token: nat): int {
    if log == [] then 0
    else
      match log[|log| - 1]
      case Queued(t, timer) => if t == token then timer.due else SetDue(log[..|log| - 1], token)
      case Extended(t, due) => if t == token then due else SetDue(log[..|log| - 1], token)
      case _ => SetDue(log[..|log| - 1], token)
  }

  /** The sum of the delays its callback returned since. */
  function Returned(log: seq<Happening>, token: nat): nat {
    if log == [] then 0
    else
      match log[|log| - 1]
      case Queued(t, timer) => if t == token then 0 else Returned(log[..|log| - 1], token)
      case Extended(t, due) => if t == token then 0 else Returned(log[..|log| - 1], token)
      case Repeated(t, delay) => Returned(log[..|log| - 1], token) + (if t == token then delay else 0)
      case _ => Returned(log[..|log| - 1], token)
  }

  /** In a legal history a live timer is due when it was last set to be, plus what its callback returned since. */
  lemma {:induction false} DueFromHistory(log: seq<Happening>, token: nat)
    requires LegalLog(log) && token in Replay(log)
    ensures Replay(log)[token].due == SetDue(log, token) + Returned(log, token)
  {
    if log != [] {
      var before, h := log[..|log| - 1], log[|log| - 1];
      if token in Replay(before) { DueFromHistory(before, token); }
    }
  }

  /** Queueing or extending at a time sets a due time that is no earlier. */
  lemma SetsDue(s: State, op: TimedOp, token: nat)
    requires || (op.op.Defer? && token != 0 &&
             DoDefer(s, op.op.delay, op.op.callback, op.op.arg, op.time).token == token)
             || (op.op.Extend? && op.op.token == token && Do(s, op).log != s.log)
    ensures op.time <= SetDue(Do(s, op).log, token) == op.time + DelayOf(op.op)
  {}

  lemma TurnHistory(cb: Callbacks, size: nat, before: seq<Command>, now: int, slot: nat)
    requires slot < |Run(cb, size, before).table|
    ensures var p := AtTurn(cb, size, before, now, slot); var e := p.table[slot];
            e.token != 0 ==> e.due == SetDue(p.log, e.token) + Returned(p.log, e.token)
  {
    hide Pass, SetDue, Returned;
    RunIsFaithful(cb, size, before);
    var s1 := Run(cb, size, before).(last := now);
    assert Faithful(s1);
    PassFaithful(cb, s1, slot, now);
    var p := AtTurn(cb, size, before, now, slot);
    if p.table[slot].token != 0 { DueFromHistory(p.log, p.table[slot].token); }
  }

  /** Over every run: a live entry that is due at its turn in a task call that is not throttled is missed if and only
      if its lag, modulo 2^32 ms, exceeds 2^31 ms; the lag is the time since the due time last set, less the delays
      its callback returned since. */
  lemma MissedIff(cb: Callbacks, size: nat, before: seq<Command>, now: int, slot: nat)
    requires slot < |Run(cb, size, before).table| && Ahead(now, Run(cb, size, before).last) > 0
    requires var e := AtTurn(cb, size, before, now, slot).table[slot]; e.token != 0 && e.due <= now
    ensures var p := AtTurn(cb, size, before, now, slot);
            var token := p.table[slot].token;
            var lag := now - SetDue(p.log, token) - Returned(p.log, token);
            CallsAt(cb, size, before, now, slot) == 0 <==> lag % 0x1_0000_0000 > HALF
  {
    hide Pass, IsDue, CallsAt, AtTurn, SetDue, Returned, Ahead;
    LastIsLastTask(cb, size, before);
    CalledIff(cb, size, before, now, slot);
    TurnHistory(cb, size, before, now, slot);
  }

  /** Over every run: a live entry that is not due yet at its turn is called early if and only if it lies ahead, modulo
      2^32 ms, by at least 2^31 ms or by nothing. */
  lemma EarlyIff(cb: Callbacks, size: nat, before: seq<Command>, now: int, slot: nat)
    requires slot < |Run(cb, size, before).table| && Ahead(now, Run(cb, size, before).last) > 0
    requires var e := AtTurn(cb, size, before, now, slot).table[slot]; e.token != 0 && now < e.due
    ensures var p := AtTurn(cb, size, before, now, slot);
            var token := p.table[slot].token;
            var ahead := (SetDue(p.log, token) + Returned(p.log, token) - now) % 0x1_0000_0000;
            CallsAt(cb, size, before, now, slot) == 1 <==> ahead >= HALF || ahead == 0
  {
    hide Pass, IsDue, CallsAt, AtTurn, SetDue, Returned, Ahead;
    LastIsLastTask(cb, size, before);
    CalledIff(cb, size, before, now, slot);
    TurnHistory(cb, size, before, now, slot);
    Opposite(now, AtTurn(cb, size, before, now, slot).table[slot].due);
  }

  lemma Opposite(a: int, b: int)
    ensures (a - b) % 0x1_0000_0000 <= HALF <==> (b - a) % 0x1_0000_0000 >= HALF || (b - a) % 0x1_0000_0000 == 0
  {
    var u := (b - a) % 0x1_0000_0000;
    assert (a - b) % 0x1_0000_0000 == if u == 0 then 0 else 0x1_0000_0000 - u;
  }

  /** Over every run: an entry last queued or extended no more than 2^31 ms ago is never missed. */
  lemma RecentlySetNeverMissed(cb: Callbacks, size: nat, before: seq<Command>, now: int, slot: nat)
    requires slot < |Run(cb, size, before).table| && Ahead(now, Run(cb, size, before).last) > 0
    requires var p := AtTurn(cb, size, before, now, slot); var e := p.table[slot];
             e.token != 0 && e.due <= now && now - SetDue(p.log, e.token) <= HALF
    ensures CallsAt(cb, size, before, now, slot) == 1
  {
    hide Pass, IsDue, CallsAt, AtTurn, SetDue, Returned, Ahead;
    LastIsLastTask(cb, size, before);
    CalledIff(cb, size, before, now, slot);
    TurnHistory(cb, size, before, now, slot);
    var e := AtTurn(cb, size, before, now, slot).table[slot];
    Small(now - e.due);
  }

  lemma Small(d: int)
    requires 0 <= d <= HALF
    ensures d % 0x1_0000_0000 == d
  {}

  /** Over every run with modest delays, whatever the gaps: in a task call that is not throttled the callback of a slot
      runs exactly once if the slot is live and late, modulo 2^32 ms, by at most 2^31 ms when its turn comes, and not
      at all otherwise; and what runs is due, and was there, with that due time, when the call began. */
  lemma EachDueEntryOnce(cb: Callbacks, size: nat, before: seq<Command>, now: int, slot: nat)
    requires ModestRun(cb, size, before + [Tick(now)]) && slot < |Run(cb, size, before).table|
    requires Ahead(now, Run(cb, size, before).last) > 0
    ensures var s := Run(cb, size, before);
            var e := AtTurn(cb, size, before, now, slot).table[slot];
            var calls := CallsAt(cb, size, before, now, slot);
            && calls == (if e.token != 0 && (now - e.due) % 0x1_0000_0000 <= HALF then 1 else 0)
            && (calls == 1 ==> e.due <= now && e == s.table[slot])
  {
    hide Pass, ModestPass, CallsAt, Near;
    var all := before + [Tick(now)];
    assert all[..|all| - 1] == before;
    var s := Run(cb, size, before);
    var s1 := s.(last := now);
    LastIsLastTask(cb, size, before);
    CalledIff(cb, size, before, now, slot);
    RunNeverEarly(cb, size, before);
    ModestPrefix(cb, s1, slot, |s.table|, now);
    PassTimes(cb, s1, slot, now);
    var e := AtTurn(cb, size, before, now, slot).table[slot];
    assert Touched(s.table[slot], e, now);
    TurnDue(e, now);
    if e.token != 0 { DueIsDue(e, now); }
  }

  /** In a paced run nothing is missed: the callback of a slot runs exactly once if the slot is live and due when its
      turn comes, and not at all otherwise. */
  lemma PacedEntryOnce(cb: Callbacks, size: nat, before: seq<Command>, now: int, slot: nat)
    requires PacedRun(cb, size, before + [Tick(now)]) && slot < |Run(cb, size, before).table|
    requires now > Run(cb, size, before).last
    ensures var e := AtTurn(cb, size, before, now, slot).table[slot];
            CallsAt(cb, size, before, now, slot) == if e.token != 0 && e.due <= now then 1 else 0
  {
    hide Pass, ModestPass, PacedPass, CallsAt;
    var all := before + [Tick(now)];
    assert all[..|all| - 1] == before;
    var s := Run(cb, size, before);
    RunKeepsPace(cb, size, before);
    RunNeverEarly(cb, size, before);
    AheadIsExact(now, s.last);
    EachDueEntryOnce(cb, size, before, now, slot);
    ModestPrefix(cb, s.(last := now), slot, |s.table|, now);
    PassTimes(cb, s.(last := now), slot, now);
    var e := AtTurn(cb, size, before, now, slot).table[slot];
    assert Touched(s.table[slot], e, now);
    TurnDue(e, now);
    if e.token != 0 { DueIsDue(e, now); }
  }

  lemma {:induction false} ModestPrefix(cb: Callbacks, s: State, n: nat, m: nat, now: int)
    requires n <= m <= |s.table| && ModestPass(cb, s, m, now)
    ensures ModestPass(cb, s, n, now)
    decreases m
  {
    hide Pass, Modest, IsDue;
    if n < m { ModestPrefix(cb, s, n, m - 1, now); }
  }

  // ---------------------------------------------------------------- delays and gaps below 2^31 ms do not suffice

  const LAGGING: Callbacks := (k: nat) => Reaction([], 1)
  const QUEUE := Ask(TimedOp(Defer(1, 1, 0), 0))
  const FIRST := Tick(0x7FFF_FFFF)
  const SECOND := Tick(0xFFFF_FFFE)

  lemma RunOne(cb: Callbacks, size: nat, before: seq<Command>, c: Command)
    ensures Run(cb, size, before + [c]) == Step(cb, Run(cb, size, before), c)
  {
    assert (before + [c])[..|before|] == before;
  }

  lemma OneSlotPass(cb: Callbacks, s: State, now: int)
    requires |s.table| == 1
    ensures Pass(cb, s, 1, now) == Visit(cb, s, 0, now)
  {
    assert Pass(cb, s, 0, now) == s;
  }

  lemma LaggingStart()
    ensures var s := Run(LAGGING, 1, [QUEUE]);
            s.table == [Entry(1, 1, 1, 0)] && s.last == 0 && s.calls == 0
  {
    RunOne(LAGGING, 1, [], QUEUE);
    assert [] + [QUEUE] == [QUEUE];
    var s := Initial(1);
    assert s.table == [FREE] && SlotOf(s.table, 0) == 0;
    assert TokenCanBeUsed(s.table, 1) && NextToken(0) == 1;
    assert AllocateToken(s.table, 0) == 1;
    assert s.table[0 := Entry(1, 1, 1, 0)] == [Entry(1, 1, 1, 0)];
  }

  lemma LaggingFirst()
    ensures var s := Run(LAGGING, 1, [QUEUE, FIRST]);
            s.table == [Entry(1, 2, 1, 0)] && s.last == 0x7FFF_FFFF
  {
    LaggingStart();
    RunOne(LAGGING, 1, [QUEUE], FIRST);
    assert [QUEUE] + [FIRST] == [QUEUE, FIRST];
    var s := Run(LAGGING, 1, [QUEUE]);
    var s1 := s.(last := 0x7FFF_FFFF);
    OneSlotPass(LAGGING, s1, 0x7FFF_FFFF);
    assert DoAll(Enter(s1, 0, 0x7FFF_FFFF), []) == Enter(s1, 0, 0x7FFF_FFFF);
    assert s1.table[0 := Entry(1, 2, 1, 0)] == [Entry(1, 2, 1, 0)];
  }

  /** Delays and gaps between task calls below 2^31 ms do not suffice: a callback that asks for 1 ms while the
      task is called every 2^31 - 1 ms falls behind, and the second call skips an entry that is due. */
  lemma LaggingTimerMissed()
    ensures var s := Run(LAGGING, 1, [QUEUE, FIRST]);
            && s.table == [Entry(1, 2, 1, 0)]
            && Run(LAGGING, 1, [QUEUE, FIRST, SECOND]) == s.(last := 0xFFFF_FFFE)
  {
    LaggingFirst();
    RunOne(LAGGING, 1, [QUEUE, FIRST], SECOND);
    assert [QUEUE, FIRST] + [SECOND] == [QUEUE, FIRST, SECOND];
    var s := Run(LAGGING, 1, [QUEUE, FIRST]);
    OneSlotPass(LAGGING, s.(last := 0xFFFF_FFFE), 0xFFFF_FFFE);
  }

  /** A callback that extends its own entry by 2^31 - 1 ms and returns the same delay. */
  const FAR: Callbacks := (k: nat) => Reaction([TimedOp(Extend(1, 0x7FFF_FFFF), k + 1)], 0x7FFF_FFFF)

  lemma FarStart()
    ensures var s := Run(FAR, 1, [QUEUE]);
            s.table == [Entry(1, 1, 1, 0)] && s.last == 0 && s.calls == 0
  {
    RunOne(FAR, 1, [], QUEUE);
    RunOne(LAGGING, 1, [], QUEUE);
    assert [] + [QUEUE] == [QUEUE];
    assert Run(FAR, 1, [QUEUE]) == Run(LAGGING, 1, [QUEUE]);
    LaggingStart();
  }

  lemma FarFirst()
    ensures var s := Run(FAR, 1, [QUEUE, Tick(1)]);
            s.table == [Entry(1, 0xFFFF_FFFF, 1, 0)] && s.last == 1
  {
    FarStart();
    RunOne(FAR, 1, [QUEUE], Tick(1));
    assert [QUEUE] + [Tick(1)] == [QUEUE, Tick(1)];
    var s1 := Run(FAR, 1, [QUEUE]).(last := 1);
    OneSlotPass(FAR, s1, 1);
    var extend := TimedOp(Extend(1, 0x7FFF_FFFF), 1);
    var s2 := Enter(s1, 0, 1);
    assert [extend][..0] == [];
    assert DoAll(s2, [extend]) == Do(s2, extend);
    assert SlotOf(s2.table, 1) == 0;
    assert Do(s2, extend).table == [Entry(1, 0x8000_0000, 1, 0)];
    assert [Entry(1, 0x8000_0000, 1, 0)][0 := Entry(1, 0xFFFF_FFFF, 1, 0)] == [Entry(1, 0xFFFF_FFFF, 1, 0)];
  }

  /** All delays below 2^31 ms and all gaps 1 ms, and yet a callback is called 49 days before it is due: the delay
      it gave its own entry and the delay it returned add up. */
  lemma EarlyCall()
    ensures var s := Run(FAR, 1, [QUEUE, Tick(1)]);
            var log := Run(FAR, 1, [QUEUE, Tick(1), Tick(2)]).log;
            |log| > |s.log| && log[|s.log|] == Called(1, Timer(0xFFFF_FFFF, 1, 0), 2, 0)
  {
    FarFirst();
    RunOne(FAR, 1, [QUEUE, Tick(1)], Tick(2));
    assert [QUEUE, Tick(1)] + [Tick(2)] == [QUEUE, Tick(1), Tick(2)];
    var s1 := Run(FAR, 1, [QUEUE, Tick(1)]).(last := 2);
    OneSlotPass(FAR, s1, 2);
    var s2 := Enter(s1, 0, 2);
    var r := FAR(s1.calls);
    LogOnlyGrows(s2, r.ops);
    assert s2.log <= AfterCallback(DoAll(s2, r.ops), 0, 1, r.delay).log;
  }

  lemma {:induction false} LogOnlyGrows(s: State, ops: seq<TimedOp>)
    ensures s.log <= DoAll(s, ops).log
  {
    if ops != [] { LogOnlyGrows(s, ops[..|ops| - 1]); }
  }
}
