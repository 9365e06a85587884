/** The deferred-execution scheduler of `quantum/deferred_exec.c` as functions on values: token
    allocation, queueing, extending and cancelling, the task loop, and whole runs. */
module DeferredModel {

  /** One slot of the executor table. Token 0 marks a free slot, callback 0 is the null pointer.
      `due` is the trigger time on the unbounded millisecond clock; the firmware stores its low 32
      bits and only ever looks at signed 32-bit differences (`Ahead`). */
  datatype Entry = Entry(token: nat, due: int, callback: nat, arg: int)

  const FREE := Entry(0, 0, 0, 0)
  const TOKENS: nat := 256

  /** `(int32_t)TIMER_DIFF_32(a, b)` */
  function Ahead(a: int, b: int): (d: int) {
    var u := (a - b) % 0x1_0000_0000;
    if u < 0x8000_0000 then u else u - 0x1_0000_0000
  }

  /** What a caller or a running callback may ask of the scheduler. */
  datatype Op =
    | Defer(delay: nat, callback: nat, arg: int)
    | Extend(token: nat, delay: nat)
    | Cancel(token: nat)

  datatype TimedOp = TimedOp(op: Op, time: int)

  /** What one invocation of a callback does: operations, each at its own time, and the returned delay. */
  datatype Reaction = Reaction(ops: seq<TimedOp>, delay: nat)

  /** The reactions of the callbacks, invocation by invocation; theorems hold for every such stream. */
  type Callbacks = nat -> Reaction

  /** A queued execution, without its token. */
  datatype Timer = Timer(due: int, callback: nat, arg: int)

  /** What happened, in order. */
  datatype Happening =
    | Queued(token: nat, timer: Timer)
    | Extended(token: nat, due: int)
    | Cancelled(token: nat)
    | Called(token: nat, timer: Timer, now: int, slot: nat)
    | Repeated(token: nat, delay: nat)
    | Finished(token: nat)

  /** `current_token`, the table, the last execution time, the number of callback invocations, and
      the log. */
  datatype State = State(current: nat, table: seq<Entry>, last: int, calls: nat, log: seq<Happening>)

  predicate TokenCanBeUsed(table: seq<Entry>, token: nat) {
    token != 0 && forall i :: 0 <= i < |table| ==> table[i].token != token
  }

  function NextToken(token: nat): (t: nat)
    ensures t < TOKENS
  {
    (token + 1) % TOKENS
  }

  /** The search of `allocate_token`: from `token` on, with `left` increments before it is back at the
      first one. The result is the token, or 0. */
  function Search(table: seq<Entry>, token: nat, left: nat): (t: nat)
    decreases left
  {
    if TokenCanBeUsed(table, token) then token
    else if left == 0 then 0
    else Search(table, NextToken(token), left - 1)
  }

  /** `allocate_token`: the new value of `current_token` is the token found, or the first one tried. */
  function AllocateToken(table: seq<Entry>, current: nat): (t: nat) {
    Search(table, NextToken(current), TOKENS - 1)
  }

  function CurrentAfter(table: seq<Entry>, current: nat): (t: nat) {
    var t := AllocateToken(table, current);
    if t != 0 then t else NextToken(current)
  }

  /** The first slot with the given token, or the length. */
  function SlotOf(table: seq<Entry>, token: nat): (i: nat)
    ensures i <= |table|
    ensures i < |table| ==> table[i].token == token
    ensures forall j :: 0 <= j < i ==> table[j].token != token
  {
    if table == [] then 0
    else if table[0].token == token then 0
    else
      var i := SlotOf(table[1..], token);
      assert forall j :: 1 <= j < i + 1 ==> table[j] == table[1..][j - 1];
      i + 1
  }

  datatype Answer = Answer(state: State, token: nat)

  /** `defer_exec_advanced` */
  function DoDefer(s: State, delay: nat, callback: nat, arg: int, time: int): (a: Answer) {
    if s.table == [] || delay == 0 || callback == 0 then Answer(s, 0)
    else
      var i := SlotOf(s.table, 0);
      if i == |s.table| then Answer(s, 0)
      else
        var token := AllocateToken(s.table, s.current);
        var current := CurrentAfter(s.table, s.current);
        if token == 0 then Answer(s.(current := current), 0)
        else
          var timer := Timer(time + delay, callback, arg);
          var table := s.table[i := Entry(token, time + delay, callback, arg)];
          Answer(s.(current := current, table := table, log := s.log + [Queued(token, timer)]), token)
  }

  /** `extend_deferred_exec_advanced` */
  function DoExtend(s: State, token: nat, delay: nat, time: int): (s': State) {
    if s.table == [] || delay == 0 || token == 0 then s
    else
      var i := SlotOf(s.table, token);
      if i == |s.table| then s
      else s.(table := s.table[i := s.table[i].(due := time + delay)], log := s.log + [Extended(token, time + delay)])
  }

  /** `cancel_deferred_exec_advanced` */
  function DoCancel(s: State, token: nat): (s': State) {
    if s.table == [] || token == 0 then s
    else
      var i := SlotOf(s.table, token);
      if i == |s.table| then s
      else s.(table := s.table[i := FREE], log := s.log + [Cancelled(token)])
  }

  function Do(s: State, op: TimedOp): (s': State)
    ensures |s'.table| == |s.table|
  {
    match op.op
    case Defer(delay, callback, arg) => DoDefer(s, delay, callback, arg, op.time).state
    case Extend(token, delay) => DoExtend(s, token, delay, op.time)
    case Cancel(token) => DoCancel(s, token)
  }

  function DoAll(s: State, ops: seq<TimedOp>): (s': State)
    ensures |s'.table| == |s.table|
  {
    if ops == [] then s else Do(DoAll(s, ops[..|ops| - 1]), ops[|ops| - 1])
  }

  /** After the callback of slot `i`, entered with `token`, returned `delay`. */
  function AfterCallback(s: State, i: nat, token: nat, delay: nat): (s': State)
    requires i < |s.table|
    ensures |s'.table| == |s.table|
  {
    var entry := s.table[i];
    if entry.token != token then s
    else if delay > 0 then
      s.(table := s.table[i := entry.(due := entry.due + delay)], log := s.log + [Repeated(token, delay)])
    else s.(table := s.table[i := FREE], log := s.log + [Finished(token)])
  }

  predicate IsDue(entry: Entry, now: int) {
    entry.token != 0 && Ahead(entry.due, now) <= 0
  }

  /** Entering the callback of slot `i`. */
  function Enter(s: State, i: nat, now: int): (s': State)
    requires i < |s.table|
  {
    var e := s.table[i];
    s.(calls := s.calls + 1, log := s.log + [Called(e.token, Timer(e.due, e.callback, e.arg), now, i)])
  }

  /** One iteration of the task loop. */
  function Visit(cb: Callbacks, s: State, i: nat, now: int): (s': State)
    requires i < |s.table|
    ensures |s'.table| == |s.table|
  {
    if !IsDue(s.table[i], now) then s
    else
      var r := cb(s.calls);
      AfterCallback(DoAll(Enter(s, i, now), r.ops), i, s.table[i].token, r.delay)
  }

  /** The task loop over the first `n` slots. */
  function Pass(cb: Callbacks, s: State, n: nat, now: int): (s': State)
    requires n <= |s.table|
    ensures |s'.table| == |s.table|
  {
    if n == 0 then s else Visit(cb, Pass(cb, s, n - 1, now), n - 1, now)
  }

  /** `deferred_exec_advanced_task` */
  function Task(cb: Callbacks, s: State, now: int): (s': State) {
    if Ahead(now, s.last) > 0 then Pass(cb, s.(last := now), |s.table|, now) else s
  }

  datatype Command = Ask(op: TimedOp) | Tick(now: int)

  function Step(cb: Callbacks, s: State, c: Command): (s': State) {
    match c
    case Ask(op) => Do(s, op)
    case Tick(now) => Task(cb, s, now)
  }

  /** An empty table of `size` slots. */
  function Initial(size: nat): (s: State) {
    State(0, seq(size, _ => FREE), 0, 0, [])
  }

  function Run(cb: Callbacks, size: nat, commands: seq<Command>): (s: State) {
    if commands == [] then Initial(size)
    else Step(cb, Run(cb, size, commands[..|commands| - 1]), commands[|commands| - 1])
  }
}
