/** Which executions survive a call of their callback, over all runs and for every slot, and that a repeating
    execution that nobody cancels lives for ever. */
module DeferredRepeats {
  import opened DeferredModel
  import opened DeferredProofs
  import opened DeferredTimes

  // ---------------------------------------------------------------- one turn

  /** The state when the operations of the callback called at the turn of the slot are done. */
  function Left(cb: Callbacks, s: State, i: nat, now: int): (s': State)
    requires i < |s.table|
    ensures |s'.table| == |s.table|
  {
    DoAll(Enter(s, i, now), cb(s.calls).ops)
  }

  /** The timers after the callback of a token returned a delay to its slot. */
  function Kept(m: Timers, same: bool, token: nat, delay: nat): (m': Timers)
    requires same ==> token in m
  {
    if !same then m else if delay > 0 then m[token := m[token].(due := m[token].due + delay)] else m - {token}
  }

  lemma LiveInSlot(s: State, i: nat)
    requires Faithful(s) && i < |s.table| && s.table[i].token != 0
    ensures s.table[i].token in Replay(s.log)
  {}

  lemma ReturnKeeps(s: State, i: nat, token: nat, delay: nat)
    requires Faithful(s) && i < |s.table| && token != 0
    ensures s.table[i].token == token ==> token in Replay(s.log)
    ensures Replay(AfterCallback(s, i, token, delay).log) ==
            Kept(Replay(s.log), s.table[i].token == token, token, delay)
  {
    hide Replay, Holds, LegalLog;
    if s.table[i].token == token { LiveInSlot(s, i); }
    LogGrows(s.log, Repeated(token, delay));
    LogGrows(s.log, Finished(token));
  }

  lemma LeftFaithful(cb: Callbacks, s: State, i: nat, now: int)
    requires Faithful(s) && i < |s.table| && s.table[i].token != 0
    ensures Faithful(Left(cb, s, i, now))
  {
    EnterFaithful(s, i, now);
    DoAllFaithful(Enter(s, i, now), cb(s.calls).ops);
  }

  lemma TurnFaithful(cb: Callbacks, size: nat, before: seq<Command>, now: int, slot: nat)
    requires slot < |Run(cb, size, before).table|
    ensures Faithful(AtTurn(cb, size, before, now, slot))
  {
    hide Pass;
    RunIsFaithful(cb, size, before);
    assert Faithful(Run(cb, size, before).(last := now));
    PassFaithful(cb, Run(cb, size, before).(last := now), slot, now);
  }

  /** The timers when the turn of the slot has ended. */
  function AfterTurn(cb: Callbacks, size: nat, before: seq<Command>, now: int, slot: nat): (m: Timers)
    requires slot < |Run(cb, size, before).table|
  {
    Replay(Pass(cb, Run(cb, size, before).(last := now), slot + 1, now).log)
  }

  /** Over every run, for every slot whose callback is called: if its operations leave the token in its slot, the
      token is still live at the end of the turn if and only if the callback returned a positive delay, and is then
      due that much later than the operations left it; every other timer, and every one if the token has left its
      slot, is as the operations left it. */
  lemma SurvivesIff(cb: Callbacks, size: nat, before: seq<Command>, now: int, slot: nat)
    requires slot < |Run(cb, size, before).table|
    requires IsDue(AtTurn(cb, size, before, now, slot).table[slot], now)
    ensures var p := AtTurn(cb, size, before, now, slot);
            var token, delay, left := p.table[slot].token, cb(p.calls).delay, Left(cb, p, slot, now);
            var m, m' := Replay(left.log), AfterTurn(cb, size, before, now, slot);
            && (left.table[slot].token == token ==>
                  && token in m && (token in m' <==> delay > 0)
                  && (delay > 0 ==> m'[token] == m[token].(due := m[token].due + delay)))
            && (left.table[slot].token != token ==> m' == m)
            && (forall t :: t != token ==> (t in m' <==> t in m) && (t in m ==> m'[t] == m[t]))
  {
    hide Faithful, Replay, Pass, DoAll, AfterCallback, IsDue;
    var p := AtTurn(cb, size, before, now, slot);
    DueIsLive(p.table[slot], now);
    TurnFaithful(cb, size, before, now, slot);
    LeftFaithful(cb, p, slot, now);
    ReturnKeeps(Left(cb, p, slot, now), slot, p.table[slot].token, cb(p.calls).delay);
    PassStep(cb, Run(cb, size, before).(last := now), slot, now);
  }

  lemma DueIsLive(e: Entry, now: int)
    requires IsDue(e, now)
    ensures e.token != 0
  {}

  lemma PassStep(cb: Callbacks, s: State, slot: nat, now: int)
    requires slot < |s.table|
    ensures Pass(cb, s, slot + 1, now) == Visit(cb, Pass(cb, s, slot, now), slot, now)
  {}

  // ---------------------------------------------------------------- a repeating execution

  predicate SparesOps(ops: seq<TimedOp>, t: nat) {
    forall j :: 0 <= j < |ops| ==> ops[j].op != Cancel(t)
  }

  lemma {:induction false} DoAllKeepsSlot(s: State, ops: seq<TimedOp>, i: nat)
    requires i < |s.table| && s.table[i].token != 0 && SparesOps(ops, s.table[i].token)
    ensures DoAll(s, ops).table[i].token == s.table[i].token
  {
    if ops != [] {
      DoAllKeepsSlot(s, ops[..|ops| - 1], i);
      DoKeepsSlot(DoAll(s, ops[..|ops| - 1]), ops[|ops| - 1], i);
    }
  }

  lemma DoKeepsSlot(s: State, op: TimedOp, i: nat)
    requires i < |s.table| && s.table[i].token != 0 && op.op != Cancel(s.table[i].token)
    ensures Do(s, op).table[i].token == s.table[i].token
  {}

  /** A callback that cancels neither its token nor returns 0 keeps it: the hypothesis of `SurvivesIff` on its slot. */
  lemma StaysInSlot(cb: Callbacks, s: State, i: nat, now: int)
    requires i < |s.table| && s.table[i].token != 0 && SparesOps(cb(s.calls).ops, s.table[i].token)
    ensures Left(cb, s, i, now).table[i].token == s.table[i].token
  {
    DoAllKeepsSlot(Enter(s, i, now), cb(s.calls).ops, i);
  }

  lemma DoKeepsLive(s: State, op: TimedOp, t: nat)
    requires Faithful(s) && t in Replay(s.log) && op.op != Cancel(t)
    ensures t in Replay(Do(s, op).log)
  {
    hide Faithful, Replay, DoDefer, DoExtend, DoCancel;
    match op.op
    case Defer(delay, callback, arg) => DeferKeeps(s, delay, callback, arg, op.time, t);
    case Extend(token, delay) => ExtendKeeps(s, token, delay, op.time, t);
    case Cancel(token) => CancelKeeps(s, token, t);
  }

  lemma DeferKeeps(s: State, delay: nat, callback: nat, arg: int, time: int, t: nat)
    requires Faithful(s) && t in Replay(s.log)
    ensures t in Replay(DoDefer(s, delay, callback, arg, time).state.log)
  {
    DeferFaithful(s, delay, callback, arg, time);
  }

  lemma ExtendKeeps(s: State, token: nat, delay: nat, time: int, t: nat)
    requires Faithful(s) && t in Replay(s.log)
    ensures t in Replay(DoExtend(s, token, delay, time).log)
  {
    ExtendFaithful(s, token, delay, time);
  }

  lemma CancelKeeps(s: State, token: nat, t: nat)
    requires Faithful(s) && t in Replay(s.log) && t != token
    ensures t in Replay(DoCancel(s, token).log)
  {
    CancelFaithful(s, token);
  }

  lemma {:induction false} DoAllKeepsLive(s: State, ops: seq<TimedOp>, t: nat)
    requires Faithful(s) && t in Replay(s.log) && SparesOps(ops, t)
    ensures t in Replay(DoAll(s, ops).log)
  {
    hide Faithful, Replay, Do;
    if ops != [] {
      DoAllKeepsLive(s, ops[..|ops| - 1], t);
      DoAllFaithful(s, ops[..|ops| - 1]);
      DoKeepsLive(DoAll(s, ops[..|ops| - 1]), ops[|ops| - 1], t);
    }
  }

  /** The callbacks called among the first `n` slots do not cancel the token, and its own asks to be called again. */
  predicate SparesPass(cb: Callbacks, s: State, n: nat, now: int, t: nat)
    requires n <= |s.table|
  {
    n == 0 ||
    (var p := Pass(cb, s, n - 1, now);
     && SparesPass(cb, s, n - 1, now, t)
     && (IsDue(p.table[n - 1], now) ==>
           SparesOps(cb(p.calls).ops, t) && (p.table[n - 1].token == t ==> cb(p.calls).delay > 0)))
  }

  /** From `before` on nobody cancels the token, and its callback always asks to be called again. */
  predicate Spares(cb: Callbacks, size: nat, before: seq<Command>, more: seq<Command>, t: nat) {
    forall j :: 0 <= j < |more| ==>
      var s := Run(cb, size, before + more[..j]);
      && (more[j].Ask? ==> more[j].op.op != Cancel(t))
      && (more[j].Tick? ==> SparesPass(cb, s.(last := more[j].now), |s.table|, more[j].now, t))
  }

  lemma EnterKeeps(s: State, i: nat, now: int)
    requires i < |s.table|
    ensures Replay(Enter(s, i, now).log) == Replay(s.log)
  {
    LogGrows(s.log, Enter(s, i, now).log[|s.log|]);
  }

  lemma VisitKeepsLive(cb: Callbacks, s: State, i: nat, now: int, t: nat)
    requires Faithful(s) && i < |s.table| && t in Replay(s.log)
    requires IsDue(s.table[i], now) ==>
               SparesOps(cb(s.calls).ops, t) && (s.table[i].token == t ==> cb(s.calls).delay > 0)
    ensures t in Replay(Visit(cb, s, i, now).log)
  {
    hide Faithful, Replay, DoAll, AfterCallback, SparesOps, Enter;
    if IsDue(s.table[i], now) {
      EnterKeeps(s, i, now);
      EnterFaithful(s, i, now);
      DoAllKeepsLive(Enter(s, i, now), cb(s.calls).ops, t);
      LeftFaithful(cb, s, i, now);
      ReturnKeeps(Left(cb, s, i, now), i, s.table[i].token, cb(s.calls).delay);
    }
  }

  lemma {:induction false} PassKeepsLive(cb: Callbacks, s: State, n: nat, now: int, t: nat)
    requires Faithful(s) && n <= |s.table| && t in Replay(s.log) && SparesPass(cb, s, n, now, t)
    ensures t in Replay(Pass(cb, s, n, now).log)
  {
    hide Faithful, Replay, Visit, SparesOps, IsDue;
    if n > 0 {
      PassKeepsLive(cb, s, n - 1, now, t);
      PassFaithful(cb, s, n - 1, now);
      VisitKeepsLive(cb, Pass(cb, s, n - 1, now), n - 1, now, t);
    }
  }

  /** Over every run: an execution whose callback always asks to be called again, and that nobody cancels,
    stays live. */
  lemma {:induction false} RepeatingLives(cb: Callbacks, size: nat, before: seq<Command>, more: seq<Command>, t: nat)
    requires t in Replay(Run(cb, size, before).log) && Spares(cb, size, before, more, t)
    ensures t in Replay(Run(cb, size, before + more).log)
    decreases |more|
  {
    hide Faithful, Replay, Run, Pass, Do, SparesPass;
    if more == [] {
      assert before + more == before;
    } else {
      var init, c := more[..|more| - 1], more[|more| - 1];
      assert forall j :: 0 <= j < |init| ==> init[..j] == more[..j];
      assert before + more == before + init + [c];
      RepeatingLives(cb, size, before, init, t);
      var s := Run(cb, size, before + init);
      RunIsFaithful(cb, size, before + init);
      RunOne(cb, size, before + init, c);
      match c
      case Ask(op) => DoKeepsLive(s, op, t);
      case Tick(now) =>
        OtherLast(s, now);
        PassKeepsLive(cb, s.(last := now), |s.table|, now, t);
    }
  }

  lemma OtherLast(s: State, now: int)
    requires Faithful(s)
    ensures Faithful(s.(last := now))
  {}
}
