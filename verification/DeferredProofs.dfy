/** The scheduler behaves as a map from tokens to timers: whatever callers and callbacks do, the log of
    a run is a legal history of that map, and the table holds exactly its final contents. */
module DeferredProofs {
  import opened DeferredModel

  // ---------------------------------------------------------------- token allocation

  predicate InTable(table: seq<Entry>, token: nat) {
    exists i :: 0 <= i < |table| && table[i].token == token
  }

  function Nth(token: nat, k: nat): (t: nat)
    ensures t < TOKENS
  {
    (token + k) % TOKENS
  }

  /** `t` is the first usable token among the first `n` from `token` on, or 0 if there is none. */
  predicate FirstUsable(table: seq<Entry>, token: nat, n: nat, t: nat) {
    if t == 0 then forall k :: 0 <= k < n ==> !TokenCanBeUsed(table, Nth(token, k))
    else
      exists k :: 0 <= k < n && t == Nth(token, k) && TokenCanBeUsed(table, t)
                  && forall j :: 0 <= j < k ==> !TokenCanBeUsed(table, Nth(token, j))
  }

  lemma FirstUsableLater(table: seq<Entry>, token: nat, n: nat, t: nat)
    requires token < TOKENS && !TokenCanBeUsed(table, token) && n < TOKENS
    requires FirstUsable(table, NextToken(token), n, t)
    ensures FirstUsable(table, token, n + 1, t)
  {
    var next := NextToken(token);
    forall k | 1 <= k <= n ensures Nth(token, k) == Nth(next, k - 1) {}
    assert Nth(token, 0) == token;
    if t != 0 {
      var k :| 0 <= k < n && t == Nth(next, k) && TokenCanBeUsed(table, t)
               && forall j :: 0 <= j < k ==> !TokenCanBeUsed(table, Nth(next, j));
      assert t == Nth(token, k + 1);
    }
  }

  lemma {:induction false} SearchFinds(table: seq<Entry>, token: nat, left: nat)
    requires token < TOKENS && left < TOKENS
    ensures FirstUsable(table, token, left + 1, Search(table, token, left))
    decreases left
  {
    assert Nth(token, 0) == token;
    if !TokenCanBeUsed(table, token) && left > 0 {
      SearchFinds(table, NextToken(token), left - 1);
      FirstUsableLater(table, token, left, Search(table, token, left));
    }
  }

  /** `allocate_token` returns an unused non-zero token, and fails only when all of 1..255 are in use. */
  lemma AllocateTokenComplete(table: seq<Entry>, current: nat)
    ensures var t := AllocateToken(table, current);
            if t != 0 then t < TOKENS && TokenCanBeUsed(table, t)
            else forall u :: 1 <= u < TOKENS ==> InTable(table, u)
  {
    var first := NextToken(current);
    SearchFinds(table, first, TOKENS - 1);
    if AllocateToken(table, current) == 0 {
      forall u | 1 <= u < TOKENS ensures InTable(table, u) {
        var k := (u - first) % TOKENS;
        assert Nth(first, k) == u;
        assert !TokenCanBeUsed(table, u);
      }
    }
  }

  // ---------------------------------------------------------------- the map behind the table

  type Timers = map<nat, Timer>

  function Effect(m: Timers, h: Happening): (m': Timers) {
    match h
    case Queued(token, timer) => m[token := timer]
    case Extended(token, due) => if token in m then m[token := m[token].(due := due)] else m
    case Cancelled(token) => m - {token}
    case Called(token, timer, now, slot) => m
    case Repeated(token, delay) => if token in m then m[token := m[token].(due := m[token].due + delay)] else m
    case Finished(token) => m - {token}
  }

  /** A new token is non-zero and not live; everything else concerns a live token, in particular no
      cancelled one is called; a callback is called with its own timer. */
  predicate Legal(m: Timers, h: Happening) {
    match h
    case Queued(token, timer) => token != 0 && token !in m
    case Extended(token, due) => token in m
    case Cancelled(token) => token in m
    case Called(token, timer, now, slot) => token in m && m[token] == timer
    case Repeated(token, delay) => token in m
    case Finished(token) => token in m
  }

  function Replay(log: seq<Happening>): (m: Timers) {
    if log == [] then map[] else Effect(Replay(log[..|log| - 1]), log[|log| - 1])
  }

  predicate LegalLog(log: seq<Happening>) {
    log == [] ||
    (var before := log[..|log| - 1]; LegalLog(before) && Legal(Replay(before), log[|log| - 1]))
  }

  lemma LogGrows(log: seq<Happening>, h: Happening)
    ensures Replay(log + [h]) == Effect(Replay(log), h)
    ensures LegalLog(log + [h]) == (LegalLog(log) && Legal(Replay(log), h))
  {
    assert (log + [h])[..|log|] == log;
  }

  /** Everything in a legal log was legal when it happened. */
  lemma {:induction false} LegalAt(log: seq<Happening>, p: nat)
    requires LegalLog(log) && p < |log|
    ensures Legal(Replay(log[..p]), log[p])
    decreases |log|
  {
    if p < |log| - 1 {
      assert log[..|log| - 1][..p] == log[..p];
      LegalAt(log[..|log| - 1], p);
    }
  }

  function TimerOf(e: Entry): Timer {
    Timer(e.due, e.callback, e.arg)
  }

  /** Live tokens are pairwise distinct. */
  predicate Distinct(table: seq<Entry>) {
    forall i, j :: 0 <= i < j < |table| && table[i].token != 0 ==> table[i].token != table[j].token
  }

  /** The table holds exactly the timers of the map, each in one slot. */
  predicate Holds(table: seq<Entry>, m: Timers) {
    && Distinct(table)
    && (forall i :: 0 <= i < |table| && table[i].token != 0 ==>
      table[i].token in m && m[table[i].token] == TimerOf(table[i]))
    && (forall t :: t in m ==> t != 0 && InTable(table, t))
  }

  lemma SlotChanges(table: seq<Entry>, m: Timers, i: nat, e: Entry, m': Timers)
    requires Holds(table, m) && i < |table|
    requires e.token != 0 ==> (TokenCanBeUsed(table, e.token) || e.token == table[i].token)
    requires m' == (var m1 := if table[i].token != 0 then m - {table[i].token} else m;
                    if e.token != 0 then m1[e.token := TimerOf(e)] else m1)
    ensures Holds(table[i := e], m')
  {
    var table' := table[i := e];
    forall t | t in m' ensures t != 0 && InTable(table', t) {
      if t == e.token {
        assert table'[i].token == t;
      } else {
        var j :| 0 <= j < |table| && table[j].token == t;
        assert table'[j].token == t;
      }
    }
  }

  /** The invariant of every run: the log is legal and the table is what it leaves behind. */
  predicate Faithful(s: State) {
    LegalLog(s.log) && Holds(s.table, Replay(s.log))
  }

  lemma SlotOfToken(table: seq<Entry>, token: nat)
    ensures SlotOf(table, token) < |table| <==> InTable(table, token)
  {}

  /** A live slot gets another due time. */
  lemma RetimeSlot(s: State, i: nat, due: int, h: Happening)
    requires Faithful(s) && i < |s.table| && s.table[i].token != 0
    requires h == Extended(s.table[i].token, due) ||
             (h.Repeated? && h.token == s.table[i].token && due == s.table[i].due + h.delay)
    ensures Faithful(s.(table := s.table[i := s.table[i].(due := due)], log := s.log + [h]))
  {
    SlotChanges(s.table, Replay(s.log), i, s.table[i].(due := due), Effect(Replay(s.log), h));
    LogGrows(s.log, h);
  }

  /** A live slot is freed. */
  lemma FreeSlot(s: State, i: nat, h: Happening)
    requires Faithful(s) && i < |s.table| && s.table[i].token != 0
    requires h == Cancelled(s.table[i].token) || h == Finished(s.table[i].token)
    ensures Faithful(s.(table := s.table[i := FREE], log := s.log + [h]))
    ensures Replay(s.log + [h]) == Replay(s.log) - {s.table[i].token}
  {
    SlotChanges(s.table, Replay(s.log), i, FREE, Replay(s.log) - {s.table[i].token});
    LogGrows(s.log, h);
  }

  /** A free slot gets a new token. */
  lemma FillSlot(s: State, i: nat, e: Entry, current: nat)
    requires Faithful(s) && i < |s.table| && s.table[i].token == 0 && TokenCanBeUsed(s.table, e.token)
    ensures Faithful(s.(current := current, table := s.table[i := e], log := s.log + [Queued(e.token, TimerOf(e))]))
    ensures e.token !in Replay(s.log)
    ensures Replay(s.log + [Queued(e.token, TimerOf(e))]) == Replay(s.log)[e.token := TimerOf(e)]
  {
    var m := Replay(s.log);
    assert e.token in m ==> InTable(s.table, e.token);
    SlotChanges(s.table, m, i, e, m[e.token := TimerOf(e)]);
    LogGrows(s.log, Queued(e.token, TimerOf(e)));
  }

  /** `defer_exec_advanced` adds a timer under a fresh token, or changes nothing and returns 0. */
  lemma DeferFaithful(s: State, delay: nat, callback: nat, arg: int, time: int)
    requires Faithful(s)
    ensures var a := DoDefer(s, delay, callback, arg, time);
            && Faithful(a.state)
            && (a.token == 0 ==> a.state.table == s.table && a.state.log == s.log)
            && (a.token != 0 ==> a.token !in Replay(s.log) && a.token < TOKENS)
            && (a.token != 0 ==> Replay(a.state.log) == Replay(s.log)[a.token := Timer(time + delay, callback, arg)])
  {
    var a := DoDefer(s, delay, callback, arg, time);
    if a.token != 0 {
      var i, e := SlotOf(s.table, 0), Entry(a.token, time + delay, callback, arg);
      AllocateTokenComplete(s.table, s.current);
      FillSlot(s, i, e, a.state.current);
      assert a.state == s.(current := a.state.current, table := s.table[i := e],
        log := s.log + [Queued(e.token, TimerOf(e))]);
    } else {
      assert a.state == s.(current := a.state.current);
    }
  }

  /** `extend_deferred_exec_advanced` moves the due time of a live token, or changes nothing. */
  lemma ExtendFaithful(s: State, token: nat, delay: nat, time: int)
    requires Faithful(s)
    ensures var s' := DoExtend(s, token, delay, time);
            && Faithful(s')
            && (delay > 0 && token in Replay(s.log) ==>
              Replay(s'.log) == Effect(Replay(s.log), Extended(token, time + delay)))
            && (delay == 0 || token !in Replay(s.log) ==> s' == s)
  {
    hide LegalLog, Legal, Replay;
    SlotOfToken(s.table, token);
    if token in Replay(s.log) && delay > 0 {
      RetimeSlot(s, SlotOf(s.table, token), time + delay, Extended(token, time + delay));
      LogGrows(s.log, Extended(token, time + delay));
    }
  }

  /** `cancel_deferred_exec_advanced` removes a live token, or changes nothing. */
  lemma CancelFaithful(s: State, token: nat)
    requires Faithful(s)
    ensures var s' := DoCancel(s, token);
            && Faithful(s')
            && (token in Replay(s.log) ==> Replay(s'.log) == Replay(s.log) - {token})
            && (token !in Replay(s.log) ==> s' == s)
  {
    SlotOfToken(s.table, token);
    if token in Replay(s.log) {
      FreeSlot(s, SlotOf(s.table, token), Cancelled(token));
    }
  }

  lemma DoFaithful(s: State, op: TimedOp)
    requires Faithful(s)
    ensures Faithful(Do(s, op))
  {
    match op.op
    case Defer(delay, callback, arg) => DeferFaithful(s, delay, callback, arg, op.time);
    case Extend(token, delay) => ExtendFaithful(s, token, delay, op.time);
    case Cancel(token) => CancelFaithful(s, token);
  }

  lemma {:induction false} DoAllFaithful(s: State, ops: seq<TimedOp>)
    requires Faithful(s)
    ensures Faithful(DoAll(s, ops))
  {
    if ops != [] {
      DoAllFaithful(s, ops[..|ops| - 1]);
      DoFaithful(DoAll(s, ops[..|ops| - 1]), ops[|ops| - 1]);
    }
  }

  lemma AfterCallbackFaithful(s: State, i: nat, token: nat, delay: nat)
    requires Faithful(s) && i < |s.table| && token != 0
    ensures Faithful(AfterCallback(s, i, token, delay))
  {
    if s.table[i].token == token {
      if delay > 0 {
        RetimeSlot(s, i, s.table[i].due + delay, Repeated(token, delay));
      } else {
        FreeSlot(s, i, Finished(token));
      }
    }
  }

  // ---------------------------------------------------------------- whole runs

  lemma EnterFaithful(s: State, i: nat, now: int)
    requires Faithful(s) && i < |s.table| && s.table[i].token != 0
    ensures Faithful(Enter(s, i, now))
  {
    LogGrows(s.log, Enter(s, i, now).log[|s.log|]);
  }

  lemma VisitFaithful(cb: Callbacks, s: State, i: nat, now: int)
    requires Faithful(s) && i < |s.table|
    ensures Faithful(Visit(cb, s, i, now))
  {
    if IsDue(s.table[i], now) {
      var s1, r := Enter(s, i, now), cb(s.calls);
      EnterFaithful(s, i, now);
      DoAllFaithful(s1, r.ops);
      AfterCallbackFaithful(DoAll(s1, r.ops), i, s.table[i].token, r.delay);
    }
  }

  lemma {:induction false} PassFaithful(cb: Callbacks, s: State, n: nat, now: int)
    requires Faithful(s) && n <= |s.table|
    ensures Faithful(Pass(cb, s, n, now))
  {
    hide Visit;
    if n > 0 {
      PassFaithful(cb, s, n - 1, now);
      VisitFaithful(cb, Pass(cb, s, n - 1, now), n - 1, now);
    }
  }

  /** Over every run, with any callers, callbacks and times: the log is a legal history of a map from tokens
      to timers, so live tokens are non-zero and distinct, only live tokens are called, and with their own
      timer; and the table holds exactly the timers the history leaves behind. */
  lemma {:induction false} RunIsFaithful(cb: Callbacks, size: nat, commands: seq<Command>)
    ensures Faithful(Run(cb, size, commands))
  {
    if commands != [] {
      var before, c := commands[..|commands| - 1], commands[|commands| - 1];
      RunIsFaithful(cb, size, before);
      var s := Run(cb, size, before);
      match c
      case Ask(op) => DoFaithful(s, op);
      case Tick(now) => PassFaithful(cb, s.(last := now), |s.table|, now);
    }
  }

  // ---------------------------------------------------------------- no drift

  predicate Concerns(h: Happening, token: nat) {
    h.token == token
  }

  function Repeats(log: seq<Happening>, from: nat, token: nat): nat {
    if |log| <= from then 0
    else
      var h := log[|log| - 1];
      Repeats(log[..|log| - 1], from, token) + (if h.Repeated? && h.token == token then 1 else 0)
  }

  /** From position `from` on, the token is only called and repeated, always with delay `d`. */
  predicate OnlyRepeats(log: seq<Happening>, from: nat, token: nat, d: nat) {
    forall p :: from <= p < |log| && Concerns(log[p], token) ==> log[p].Called? || log[p] == Repeated(token, d)
  }

  lemma OneMoreRepeats(log: seq<Happening>, from: nat, token: nat, d: nat)
    requires from < |log| && OnlyRepeats(log, from, token, d)
    ensures OnlyRepeats(log[..|log| - 1], from, token, d)
    ensures var h := log[|log| - 1]; h.token != token || h.Called? || h == Repeated(token, d)
  {
    assert Concerns(log[|log| - 1], token) <==> log[|log| - 1].token == token;
  }

  lemma {:induction false} DueAfterRepeats(log: seq<Happening>, from: nat, token: nat, timer: Timer, d: nat)
    requires from < |log| && log[from] == Queued(token, timer)
    requires OnlyRepeats(log, from + 1, token, d)
    ensures token in Replay(log)
    ensures Replay(log)[token] == timer.(due := timer.due + d * Repeats(log, from + 1, token))
    decreases |log|
  {
    if |log| > from + 1 {
      var before := log[..|log| - 1];
      OneMoreRepeats(log, from + 1, token, d);
      hide OnlyRepeats;
      DueAfterRepeats(before, from, token, timer, d);
    }
  }

  /** No drift: in a legal history, a timer queued for `t0` whose callback always returns `d`, and which is
      never extended, is called for due time t0 + k*d after k repetitions. */
  lemma NoDrift(log: seq<Happening>, from: nat, at: nat, timer: Timer, d: nat)
    requires LegalLog(log) && from < at < |log|
    requires log[at].Called? && log[from] == Queued(log[at].token, timer)
    requires OnlyRepeats(log[..at], from + 1, log[at].token, d)
    ensures log[at].timer == timer.(due := timer.due + d * Repeats(log[..at], from + 1, log[at].token))
  {
    assert log[..at][from] == log[from];
    DueAfterRepeats(log[..at], from, log[at].token, timer, d);
    LegalAt(log, at);
  }

  // ---------------------------------------------------------------- a callback that re-queues itself

  /** Every token after `current` and before `token`, in the order of allocation, is in use. */
  predicate AllUsedBefore(table: seq<Entry>, current: nat, token: nat) {
    var first := NextToken(current);
    forall k :: 0 <= k < (token - first) % TOKENS ==> !TokenCanBeUsed(table, Nth(first, k))
  }

  /** Token allocation returns a given free token exactly when all tokens before it are in use. */
  lemma AllocatesThis(table: seq<Entry>, current: nat, token: nat)
    requires token < TOKENS && TokenCanBeUsed(table, token)
    ensures AllocateToken(table, current) == token <==> AllUsedBefore(table, current, token)
  {
    hide TokenCanBeUsed, InTable, Search;
    var first := NextToken(current);
    SearchFinds(table, first, TOKENS - 1);
    var t, d := AllocateToken(table, current), (token - first) % TOKENS;
    NthAt(first, d, token);
    assert t != 0;
    var k :| 0 <= k < TOKENS && t == Nth(first, k) && TokenCanBeUsed(table, t)
             && forall j :: 0 <= j < k ==> !TokenCanBeUsed(table, Nth(first, j));
    NthAt(first, k, token);
    hide Nth;
  }

  /** Each token has one place behind the first. */
  lemma NthAt(first: nat, k: nat, token: nat)
    requires first < TOKENS && k < TOKENS && token < TOKENS
    ensures Nth(first, k) == token <==> k == (token - first) % TOKENS
  {}

  /** Queueing succeeds exactly for a positive delay and a callback, with a free slot and a free token; and the
      search for the next token goes on from the one just found. */
  lemma DeferIff(s: State, delay: nat, callback: nat, arg: int, time: int)
    ensures var a := DoDefer(s, delay, callback, arg, time);
            && (a.token != 0 <==>
                && delay > 0 && callback != 0 && InTable(s.table, 0)
                && exists t :: 1 <= t < TOKENS && !InTable(s.table, t))
            && (a.token != 0 ==> a.state.current == a.token)
  {
    AllocateTokenComplete(s.table, s.current);
    SlotOfToken(s.table, 0);
    var t := AllocateToken(s.table, s.current);
    assert t != 0 ==> 1 <= t < TOKENS && !InTable(s.table, t);
  }

  /** Once a slot is freed its token can be allocated again, so allocation succeeds. */
  lemma FreedToken(table: seq<Entry>, current: nat, i: nat)
    requires Distinct(table) && i < |table| && table[i].token != 0 && table[i].token < TOKENS
    ensures TokenCanBeUsed(table[i := FREE], table[i].token)
    ensures AllocateToken(table[i := FREE], current) != 0
    ensures SlotOf(table, table[i].token) == i && SlotOf(table[i := FREE], 0) <= i
  {
    var freed := table[i := FREE];
    assert freed[i].token == 0;
    AllocateTokenComplete(freed, current);
    assert TokenCanBeUsed(freed, table[i].token);
    assert !InTable(freed, table[i].token);
  }

  lemma DoAllTwo(s: State, a: TimedOp, b: TimedOp)
    ensures DoAll(s, [a, b]) == Do(Do(s, a), b)
  {
    assert [a, b][..1] == [a] && [a][..0] == [];
    assert DoAll(s, [a]) == Do(s, a);
  }

  /** The table after the two operations of a callback that cancels itself and queues a new execution. */
  lemma CancelThenDefer(s: State, i: nat, delay: nat, callback: nat, arg: int, now: int)
    requires Distinct(s.table) && i < |s.table| && s.table[i].token != 0 && s.table[i].token < TOKENS
    requires delay > 0 && callback != 0
    ensures SlotOf(s.table[i := FREE], 0) < |s.table|
    ensures var freed := s.table[i := FREE];
            DoAll(s, [TimedOp(Cancel(s.table[i].token), now), TimedOp(Defer(delay, callback, arg), now)]).table
            == freed[SlotOf(freed, 0) := Entry(AllocateToken(freed, s.current), now + delay, callback, arg)]
  {
    hide AllocateToken, Distinct;
    DoAllTwo(s, TimedOp(Cancel(s.table[i].token), now), TimedOp(Defer(delay, callback, arg), now));
    FreedToken(s.table, s.current, i);
  }

  /** A callback that cancels its own token, queues a new execution and returns 0: the new execution
      survives the return of the callback if and only if an earlier slot was free or some token between
      `current_token` and the callback's own token was free. Otherwise the new execution gets the same
      token in the same slot, and the task loop clears it. */
  lemma SelfRequeueSurvivesIff(cb: Callbacks, s: State, i: nat, now: int, delay: nat, callback: nat, arg: int)
    requires Distinct(s.table) && i < |s.table| && IsDue(s.table[i], now) && s.table[i].token < TOKENS
    requires delay > 0 && callback != 0
    requires cb(s.calls) ==
             Reaction([TimedOp(Cancel(s.table[i].token), now), TimedOp(Defer(delay, callback, arg), now)], 0)
    ensures var freed := s.table[i := FREE];
            InTable(Visit(cb, s, i, now).table, AllocateToken(freed, s.current)) <==>
            InTable(s.table[..i], 0) || !AllUsedBefore(freed, s.current, s.table[i].token)
  {
    var token := s.table[i].token;
    var freed := s.table[i := FREE];
    var f, t := SlotOf(freed, 0), AllocateToken(freed, s.current);
    FreedToken(s.table, s.current, i);
    CancelThenDefer(Enter(s, i, now), i, delay, callback, arg, now);
    AllocatesThis(freed, s.current, token);
    var table := Visit(cb, s, i, now).table;
    var queued := freed[f := Entry(t, now + delay, callback, arg)];
    if f == i && t == token {
      assert table == queued[i := FREE] == freed;
      assert forall j :: 0 <= j < i ==> s.table[..i][j] == freed[j];
    } else {
      assert table == queued && table[f].token == t;
      if f < i { assert s.table[..i][f].token == 0; }
    }
  }
}
