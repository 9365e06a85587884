/** `quantum/deferred_exec.c` in its own form: a static token counter, a table that is searched and
    updated in place, and a task loop whose callbacks call back into the scheduler. */
module DeferredEngine {
  import opened DeferredModel

  class Scheduler {
    const callbacks: Callbacks
    const table: array<Entry>
    var current: nat
    var last: int
    var calls: nat
    ghost var log: seq<Happening>

    ghost function View(): (s: State)
      reads this, table
    {
      State(current, table[..], last, calls, log)
    }

    constructor (callbacks: Callbacks, size: nat)
      ensures fresh(table) && View() == Initial(size) && this.callbacks == callbacks
    {
      this.callbacks := callbacks;
      table := new Entry[size](_ => FREE);
      current, last, calls, log := 0, 0, 0, [];
    }

    method TokenCanBeUsed(token: nat) returns (usable: bool)
      ensures usable == DeferredModel.TokenCanBeUsed(table[..], token)
    {
      if token == 0 { return false; }
      for i := 0 to table.Length
        invariant forall j :: 0 <= j < i ==> table[j].token != token
      {
        if table[i].token == token { return false; }
      }
      return true;
    }

    method AllocateToken() returns (token: nat)
      modifies `current
      ensures token == DeferredModel.AllocateToken(table[..], old(current))
      ensures current == CurrentAfter(table[..], old(current))
    {
      current := NextToken(current);
      var first := current;
      ghost var tried := 0;
      var usable := TokenCanBeUsed(current);
      while !usable
        invariant tried < TOKENS && first == NextToken(old(current))
        invariant current == if first + tried < TOKENS then first + tried else first + tried - TOKENS
        invariant usable == DeferredModel.TokenCanBeUsed(table[..], current)
        invariant Search(table[..], first, TOKENS - 1) == Search(table[..], current, TOKENS - 1 - tried)
        decreases TOKENS - tried
      {
        current := NextToken(current);
        if current == first {
          return 0;
        }
        tried := tried + 1;
        usable := TokenCanBeUsed(current);
      }
      return current;
    }

    method DeferExecAdvanced(delay: nat, callback: nat, arg: int, time: int) returns (token: nat)
      modifies `current, `log, table
      ensures var a := DoDefer(old(View()), delay, callback, arg, time);
              View() == a.state && token == a.token
    {
      if table.Length == 0 || delay == 0 || callback == 0 { return 0; }
      for i := 0 to table.Length
        invariant View() == old(View())
        invariant forall j :: 0 <= j < i ==> table[j].token != 0
      {
        if table[i].token == 0 {
          assert SlotOf(table[..], 0) == i;
          token := AllocateToken();
          if token == 0 { return 0; }
          table[i] := Entry(current, time + delay, callback, arg);
          log := log + [Queued(token, Timer(time + delay, callback, arg))];
          return current;
        }
      }
      return 0;
    }

    method ExtendDeferredExecAdvanced(token: nat, delay: nat, time: int) returns (extended: bool)
      modifies `log, table
      ensures View() == DoExtend(old(View()), token, delay, time)
      ensures extended == (delay > 0 && token != 0 && exists i :: 0 <= i < table.Length && old(table[i].token) == token)
    {
      if table.Length == 0 || delay == 0 || token == 0 { return false; }
      for i := 0 to table.Length
        invariant View() == old(View())
        invariant forall j :: 0 <= j < i ==> table[j].token != token
      {
        if table[i].token == token {
          assert SlotOf(table[..], token) == i;
          table[i] := table[i].(due := time + delay);
          log := log + [Extended(token, time + delay)];
          return true;
        }
      }
      return false;
    }

    method CancelDeferredExecAdvanced(token: nat) returns (cancelled: bool)
      modifies `log, table
      ensures View() == DoCancel(old(View()), token)
      ensures cancelled == (token != 0 && exists i :: 0 <= i < table.Length && old(table[i].token) == token)
    {
      if table.Length == 0 || token == 0 { return false; }
      for i := 0 to table.Length
        invariant View() == old(View())
        invariant forall j :: 0 <= j < i ==> table[j].token != token
      {
        if table[i].token == token {
          assert SlotOf(table[..], token) == i;
          table[i] := FREE;
          log := log + [Cancelled(token)];
          return true;
        }
      }
      return false;
    }

    /** The operations a callback performs while it runs. */
    method PerformAll(ops: seq<TimedOp>)
      modifies `current, `log, table
      ensures View() == DoAll(old(View()), ops)
    {
      for k := 0 to |ops|
        invariant View() == DoAll(old(View()), ops[..k])
      {
        assert ops[..k + 1][..k] == ops[..k];
        match ops[k].op {
          case Defer(delay, callback, arg) => var _ := DeferExecAdvanced(delay, callback, arg, ops[k].time);
          case Extend(token, delay) => var _ := ExtendDeferredExecAdvanced(token, delay, ops[k].time);
          case Cancel(token) => var _ := CancelDeferredExecAdvanced(token);
        }
      }
      assert ops[..|ops|] == ops;
    }

    /** The callback of a slot: it may do anything the scheduler offers, and returns a delay. */
    method Invoke(i: nat, now: int) returns (delay: nat)
      requires i < table.Length
      modifies this, table
      ensures View() == DoAll(Enter(old(View()), i, now), callbacks(old(calls)).ops)
      ensures delay == callbacks(old(calls)).delay
    {
      var reaction := callbacks(calls);
      var e := table[i];
      calls := calls + 1;
      log := log + [Called(e.token, Timer(e.due, e.callback, e.arg), now, i)];
      assert View() == Enter(old(View()), i, now);
      PerformAll(reaction.ops);
      return reaction.delay;
    }

    method VisitSlot(i: nat, now: int)
      requires i < table.Length
      modifies this, table
      ensures View() == Visit(callbacks, old(View()), i, now)
    {
      var currToken := table[i].token;
      if currToken != 0 && Ahead(table[i].due, now) <= 0 {
        var delay := Invoke(i, now);
        if table[i].token != currToken { return; }
        if delay > 0 {
          table[i] := table[i].(due := table[i].due + delay);
          log := log + [Repeated(currToken, delay)];
        } else {
          table[i] := FREE;
          log := log + [Finished(currToken)];
        }
      }
    }

    method DeferredExecAdvancedTask(now: int)
      modifies this, table
      ensures View() == Task(callbacks, old(View()), now)
    {
      if Ahead(now, last) > 0 {
        last := now;
        ghost var start := View();
        for i := 0 to table.Length
          invariant View() == Pass(callbacks, start, i, now)
        {
          VisitSlot(i, now);
        }
      }
    }
  }
}
