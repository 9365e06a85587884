/** Replaying concrete runs. The tapping term is 200 ms, and permissive hold and hold-on-other-key-press are off. */
module TappingReplay {
  import opened TappingModel
  import opened TappingVerdict

  function Terms(quick: nat): Config {
    Config((k: Key) => 200, (k: Key) => quick)
  }

  const TAP_HOLD: Answers := (n: nat) => Answer(true, false, false, false)

  const A: Key := Key(0, 0)
  const B: Key := Key(0, 1)
  const C: Key := Key(0, 2)

  function Press(k: Key, time: nat, rank: nat): Event { Event(k, time, KeyEvent, true, rank) }
  function Release(k: Key, time: nat, rank: nat): Event { Event(k, time, KeyEvent, false, rank) }

  /** A record whose press was interrupted, and one whose press was not. */
  function Held(e: Event, count: nat): Record { Record(e, Tap(true, count)) }
  function Plain(e: Event, count: nat): Record { Record(e, Tap(false, count)) }

  function Quiet(t: Record, waiting: seq<Record>, out: seq<Emission>, calls: nat): State {
    State(t, waiting, out, [], calls)
  }

  /** Ranked events at strictly increasing times that fit in sixteen bits. */
  predicate Tidy(inputs: seq<Event>) {
    && (forall i :: 0 <= i < |inputs| ==> Ranked(inputs[..i], inputs[i]) && inputs[i].time < 0x1_0000)
    && (forall i :: 1 <= i < |inputs| ==> inputs[i - 1].time < inputs[i].time)
  }

  lemma RanksStart(inputs: seq<Event>)
    ensures forall k :: RankOf(inputs[..0], k) == 0
  {}

  lemma RankStep(inputs: seq<Event>, i: nat, k: Key)
    requires i < |inputs|
    ensures RankOf(inputs[..i + 1], k) ==
            RankOf(inputs[..i], k) + (if IsEvent(inputs[i]) && inputs[i].key == k then 1 else 0)
  {
    assert inputs[..i + 1][..i] == inputs[..i];
  }

  lemma RunStep(cfg: Config, answers: Answers, inputs: seq<Event>, i: nat)
    requires i < |inputs|
    ensures Run(cfg, answers, inputs[..i + 1]) == Process(cfg, answers, Run(cfg, answers, inputs[..i]), inputs[i])
  {
    assert inputs[..i + 1][..i] == inputs[..i];
  }

  predicate SameFields(s: State, d: State) {
    s.tapping == d.tapping && s.waiting == d.waiting && s.out == d.out && s.lost == d.lost && s.calls == d.calls
  }

  /** The drain consumes the front record and goes on from `d`. */
  lemma Drains(cfg: Config, answers: Answers, s: State, d: State)
    requires s.waiting != [] && FrontOutcome(cfg, answers, s).consumed
    requires SameFields(PutBack(s, FrontOutcome(cfg, answers, s)), d)
    ensures Drain(cfg, answers, s) == Drain(cfg, answers, d)
  {}

  /** The drain stops at the front record, in `d`. */
  lemma Stops(cfg: Config, answers: Answers, s: State, d: State)
    requires s.waiting != [] && !FrontOutcome(cfg, answers, s).consumed
    requires SameFields(PutBack(s, FrontOutcome(cfg, answers, s)), d)
    ensures Drain(cfg, answers, s) == d
  {}
}

/** A run with alternating events, strictly increasing times and no clock wrap in which the second press
    of A is processed as a tap and its release as a hold: the drain of the buffer stops with no tapping
    key and that press waiting, and the release overtakes it. */
module TappingOvertaken {
  import opened TappingModel
  import opened TappingVerdict
  import opened TappingReplay

  const DEFAULT := Terms(200)

  const DOWN_B1 := Press(B, 100, 0)
  const DOWN_A1 := Press(A, 200, 0)
  const UP_A1 := Release(A, 210, 1)
  const DOWN_A2 := Press(A, 410, 2)
  const UP_A2 := Release(A, 460, 3)
  const DOWN_A3 := Press(A, 470, 4)
  const UP_A3 := Release(A, 570, 5)

  const STATE_1 := Quiet(Plain(DOWN_B1, 0), [], [], 1)
  const STATE_2 := Quiet(Held(DOWN_B1, 0), [Plain(DOWN_A1, 0)], [], 3)
  const STATE_3 := Quiet(Held(DOWN_B1, 0), [Plain(DOWN_A1, 0), Plain(UP_A1, 0)], [], 5)
  const STATE_4 := Quiet(NO_RECORD, [Plain(DOWN_A2, 0)], [Real(Held(DOWN_B1, 0)), Real(Plain(DOWN_A1, 1)),
      Real(Plain(UP_A1, 1))], 9)
  const STATE_5 := Quiet(Plain(DOWN_A2, 0), [], [Real(Held(DOWN_B1, 0)), Real(Plain(DOWN_A1, 1)),
      Real(Plain(UP_A1, 1)), Real(Plain(UP_A2, 0))], 11)
  const STATE_6 := Quiet(Held(DOWN_A2, 0), [Plain(DOWN_A3, 0)], [Real(Held(DOWN_B1, 0)), Real(Plain(DOWN_A1, 1)),
      Real(Plain(UP_A1, 1)), Real(Plain(UP_A2, 0))], 13)
  const STATE_7 := Quiet(Plain(UP_A3, 1), [], [Real(Held(DOWN_B1, 0)), Real(Plain(DOWN_A1, 1)),
      Real(Plain(UP_A1, 1)), Real(Plain(UP_A2, 0)), Real(Held(DOWN_A2, 1)), Real(Plain(DOWN_A3, 1)),
      Real(Plain(UP_A3, 1))], 16)

  lemma Step1()
    ensures Process(DEFAULT, TAP_HOLD, INITIAL, DOWN_B1) == STATE_1
  {
    assert SameFields(Deliver(DEFAULT, TAP_HOLD, INITIAL, DOWN_B1), STATE_1);
  }

  lemma Step2()
    ensures Process(DEFAULT, TAP_HOLD, STATE_1, DOWN_A1) == STATE_2
  {
    var d0 := Quiet(Held(DOWN_B1, 0), [Plain(DOWN_A1, 0)], [], 2);
    assert SameFields(Deliver(DEFAULT, TAP_HOLD, STATE_1, DOWN_A1), d0);
    assert d0.waiting[1..] == [];
    Stops(DEFAULT, TAP_HOLD, d0, STATE_2);
  }

  lemma Step3()
    ensures Process(DEFAULT, TAP_HOLD, STATE_2, UP_A1) == STATE_3
  {
    assert STATE_2.waiting[0].event == DOWN_A1;
    var d0 := Quiet(Held(DOWN_B1, 0), [Plain(DOWN_A1, 0), Plain(UP_A1, 0)], [], 4);
    assert SameFields(Deliver(DEFAULT, TAP_HOLD, STATE_2, UP_A1), d0);
    assert d0.waiting[1..] == [Plain(UP_A1, 0)];
    Stops(DEFAULT, TAP_HOLD, d0, STATE_3);
  }

  lemma Step4()
    ensures Process(DEFAULT, TAP_HOLD, STATE_3, DOWN_A2) == STATE_4
  {
    var d0 := Quiet(NO_RECORD, [Plain(DOWN_A1, 0), Plain(UP_A1, 0), Plain(DOWN_A2, 0)], [Real(Held(DOWN_B1, 0))], 6);
    var d1 := Quiet(Plain(DOWN_A1, 1), [Plain(UP_A1, 1), Plain(DOWN_A2, 0)], [Real(Held(DOWN_B1, 0)),
        Real(Plain(DOWN_A1, 1))], 7);
    var d2 := Quiet(Plain(UP_A1, 1), [Plain(DOWN_A2, 0)], [Real(Held(DOWN_B1, 0)), Real(Plain(DOWN_A1, 1)),
        Real(Plain(UP_A1, 1))], 8);
    assert SameFields(Deliver(DEFAULT, TAP_HOLD, STATE_3, DOWN_A2), d0);
    assert d0.waiting[1..] == [Plain(UP_A1, 0), Plain(DOWN_A2, 0)];
    Drains(DEFAULT, TAP_HOLD, d0, d1);
    assert d1.waiting[1..] == [Plain(DOWN_A2, 0)];
    Drains(DEFAULT, TAP_HOLD, d1, d2);
    assert d2.waiting[1..] == [];
    Stops(DEFAULT, TAP_HOLD, d2, STATE_4);
  }

  lemma Step5()
    ensures Process(DEFAULT, TAP_HOLD, STATE_4, UP_A2) == STATE_5
  {
    assert STATE_4.waiting[0].event == DOWN_A2;
    var d0 := Quiet(NO_RECORD, [Plain(DOWN_A2, 0)], [Real(Held(DOWN_B1, 0)), Real(Plain(DOWN_A1, 1)),
        Real(Plain(UP_A1, 1)), Real(Plain(UP_A2, 0))], 10);
    assert SameFields(Deliver(DEFAULT, TAP_HOLD, STATE_4, UP_A2), d0);
    assert d0.waiting[1..] == [];
    Drains(DEFAULT, TAP_HOLD, d0, STATE_5);
  }

  lemma Step6()
    ensures Process(DEFAULT, TAP_HOLD, STATE_5, DOWN_A3) == STATE_6
  {
    var d0 := Quiet(Held(DOWN_A2, 0), [Plain(DOWN_A3, 0)], [Real(Held(DOWN_B1, 0)), Real(Plain(DOWN_A1, 1)),
        Real(Plain(UP_A1, 1)), Real(Plain(UP_A2, 0))], 12);
    assert SameFields(Deliver(DEFAULT, TAP_HOLD, STATE_5, DOWN_A3), d0);
    assert d0.waiting[1..] == [];
    Stops(DEFAULT, TAP_HOLD, d0, STATE_6);
  }

  lemma Step7()
    ensures Process(DEFAULT, TAP_HOLD, STATE_6, UP_A3) == STATE_7
  {
    assert STATE_6.waiting[0].event == DOWN_A3;
    var d0 := Quiet(Held(DOWN_A2, 1), [Plain(DOWN_A3, 0), Held(UP_A3, 1)], [Real(Held(DOWN_B1, 0)),
        Real(Plain(DOWN_A1, 1)), Real(Plain(UP_A1, 1)), Real(Plain(UP_A2, 0)), Real(Held(DOWN_A2, 1))], 14);
    var d1 := Quiet(Plain(DOWN_A3, 1), [Held(UP_A3, 1)], [Real(Held(DOWN_B1, 0)), Real(Plain(DOWN_A1, 1)),
        Real(Plain(UP_A1, 1)), Real(Plain(UP_A2, 0)), Real(Held(DOWN_A2, 1)), Real(Plain(DOWN_A3, 1))], 15);
    assert SameFields(Deliver(DEFAULT, TAP_HOLD, STATE_6, UP_A3), d0);
    assert d0.waiting[1..] == [Held(UP_A3, 1)];
    Drains(DEFAULT, TAP_HOLD, d0, d1);
    assert d1.waiting[1..] == [];
    Drains(DEFAULT, TAP_HOLD, d1, STATE_7);
  }

  const RUN := [DOWN_B1, DOWN_A1, UP_A1, DOWN_A2, UP_A2, DOWN_A3, UP_A3]

  lemma RunIsTidy()
    ensures Tidy(RUN)
  {
    hide RankOf;
    RanksStart(RUN);
    RankStep(RUN, 0, A); RankStep(RUN, 0, B);
    RankStep(RUN, 1, A); RankStep(RUN, 1, B);
    RankStep(RUN, 2, A); RankStep(RUN, 2, B);
    RankStep(RUN, 3, A); RankStep(RUN, 3, B);
    RankStep(RUN, 4, A); RankStep(RUN, 4, B);
    RankStep(RUN, 5, A); RankStep(RUN, 5, B);
    RankStep(RUN, 6, A); RankStep(RUN, 6, B);
  }

  lemma RunStarts()
    ensures Run(DEFAULT, TAP_HOLD, RUN[..3]) == STATE_3
  {
    hide Process;
    RunStep(DEFAULT, TAP_HOLD, RUN, 0); Step1();
    RunStep(DEFAULT, TAP_HOLD, RUN, 1); Step2();
    RunStep(DEFAULT, TAP_HOLD, RUN, 2); Step3();
  }

  lemma RunEnds()
    ensures Run(DEFAULT, TAP_HOLD, RUN) == STATE_7
  {
    hide Process;
    RunStarts();
    RunStep(DEFAULT, TAP_HOLD, RUN, 3); Step4();
    RunStep(DEFAULT, TAP_HOLD, RUN, 4); Step5();
    RunStep(DEFAULT, TAP_HOLD, RUN, 5); Step6();
    RunStep(DEFAULT, TAP_HOLD, RUN, 6); Step7();
    assert RUN[..7] == RUN;
  }

  /** Every event is in order, and yet press and release of A disagree. */
  lemma OvertakenRelease()
    ensures Tidy(RUN) && !Agree(A, Run(DEFAULT, TAP_HOLD, RUN).out)
  {
    RunIsTidy();
    RunEnds();
    var out := STATE_7.out;
    assert out[4].record == Held(DOWN_A2, 1) && out[3].record == Plain(UP_A2, 0);
  }
}

/** Another such run: a tapping key that starts anew without a search of the buffer leaves the release of
    C unstamped, and a later release of C is taken for it. */
module TappingSkipped {
  import opened TappingModel
  import opened TappingVerdict
  import opened TappingReplay

  const NO_QUICK_TAP := Terms(0)

  const DOWN_A1 := Press(A, 10, 0)
  const DOWN_C1 := Press(C, 60, 0)
  const UP_C1 := Release(C, 61, 1)
  const DOWN_C2 := Press(C, 161, 2)
  const DOWN_B1 := Press(B, 171, 0)
  const UP_C2 := Release(C, 172, 3)
  const DOWN_C3 := Press(C, 272, 4)
  const UP_C3 := Release(C, 273, 5)
  const DOWN_C4 := Press(C, 453, 6)

  const STATE_1 := Quiet(Plain(DOWN_A1, 0), [], [], 1)
  const STATE_2 := Quiet(Held(DOWN_A1, 0), [Plain(DOWN_C1, 0)], [], 3)
  const STATE_3 := Quiet(Held(DOWN_A1, 0), [Plain(DOWN_C1, 0), Plain(UP_C1, 0)], [], 5)
  const STATE_4 := Quiet(Held(DOWN_A1, 0), [Plain(DOWN_C1, 0), Plain(UP_C1, 0), Plain(DOWN_C2, 0)], [], 7)
  const STATE_5 := Quiet(Held(DOWN_A1, 0), [Plain(DOWN_C1, 0), Plain(UP_C1, 0), Plain(DOWN_C2, 0),
      Plain(DOWN_B1, 0)], [], 9)
  const STATE_6 := Quiet(Held(DOWN_A1, 0), [Plain(DOWN_C1, 0), Plain(UP_C1, 0), Plain(DOWN_C2, 0), Plain(DOWN_B1, 0),
      Plain(UP_C2, 0)], [], 11)
  const STATE_7 := Quiet(Held(DOWN_C2, 0), [Plain(DOWN_B1, 0), Plain(UP_C2, 0),
      Plain(DOWN_C3, 0)], [Real(Held(DOWN_A1, 0)), Real(Plain(DOWN_C1, 1)), Real(Plain(UP_C1, 1))], 16)
  const STATE_8 := Quiet(Plain(DOWN_B1, 0), [Plain(UP_C2, 0), Plain(DOWN_C3, 0),
      Held(UP_C3, 1)], [Real(Held(DOWN_A1, 0)), Real(Plain(DOWN_C1, 1)), Real(Plain(UP_C1, 1)),
      Real(Held(DOWN_C2, 1))], 19)
  const STATE_9 := Quiet(Plain(DOWN_C4, 0), [], [Real(Held(DOWN_A1, 0)), Real(Plain(DOWN_C1, 1)),
      Real(Plain(UP_C1, 1)), Real(Held(DOWN_C2, 1)), Real(Plain(DOWN_B1, 0)), Real(Plain(UP_C2, 0)),
      Real(Plain(DOWN_C3, 1)), Real(Plain(UP_C3, 1))], 24)

  lemma Step1()
    ensures Process(NO_QUICK_TAP, TAP_HOLD, INITIAL, DOWN_A1) == STATE_1
  {
    assert SameFields(Deliver(NO_QUICK_TAP, TAP_HOLD, INITIAL, DOWN_A1), STATE_1);
  }

  lemma Step2()
    ensures Process(NO_QUICK_TAP, TAP_HOLD, STATE_1, DOWN_C1) == STATE_2
  {
    var d0 := Quiet(Held(DOWN_A1, 0), [Plain(DOWN_C1, 0)], [], 2);
    assert SameFields(Deliver(NO_QUICK_TAP, TAP_HOLD, STATE_1, DOWN_C1), d0);
    assert d0.waiting[1..] == [];
    Stops(NO_QUICK_TAP, TAP_HOLD, d0, STATE_2);
  }

  lemma Step3()
    ensures Process(NO_QUICK_TAP, TAP_HOLD, STATE_2, UP_C1) == STATE_3
  {
    assert STATE_2.waiting[0].event == DOWN_C1;
    var d0 := Quiet(Held(DOWN_A1, 0), [Plain(DOWN_C1, 0), Plain(UP_C1, 0)], [], 4);
    assert SameFields(Deliver(NO_QUICK_TAP, TAP_HOLD, STATE_2, UP_C1), d0);
    assert d0.waiting[1..] == [Plain(UP_C1, 0)];
    Stops(NO_QUICK_TAP, TAP_HOLD, d0, STATE_3);
  }

  lemma Step4()
    ensures Process(NO_QUICK_TAP, TAP_HOLD, STATE_3, DOWN_C2) == STATE_4
  {
    var d0 := Quiet(Held(DOWN_A1, 0), [Plain(DOWN_C1, 0), Plain(UP_C1, 0), Plain(DOWN_C2, 0)], [], 6);
    assert SameFields(Deliver(NO_QUICK_TAP, TAP_HOLD, STATE_3, DOWN_C2), d0);
    assert d0.waiting[1..] == [Plain(UP_C1, 0), Plain(DOWN_C2, 0)];
    Stops(NO_QUICK_TAP, TAP_HOLD, d0, STATE_4);
  }

  lemma Step5()
    ensures Process(NO_QUICK_TAP, TAP_HOLD, STATE_4, DOWN_B1) == STATE_5
  {
    var d0 := Quiet(Held(DOWN_A1, 0), [Plain(DOWN_C1, 0), Plain(UP_C1, 0), Plain(DOWN_C2, 0),
        Plain(DOWN_B1, 0)], [], 8);
    assert SameFields(Deliver(NO_QUICK_TAP, TAP_HOLD, STATE_4, DOWN_B1), d0);
    assert d0.waiting[1..] == [Plain(UP_C1, 0), Plain(DOWN_C2, 0), Plain(DOWN_B1, 0)];
    Stops(NO_QUICK_TAP, TAP_HOLD, d0, STATE_5);
  }

  lemma Step6()
    ensures Process(NO_QUICK_TAP, TAP_HOLD, STATE_5, UP_C2) == STATE_6
  {
    assert STATE_5.waiting[0].event == DOWN_C1;
    var d0 := Quiet(Held(DOWN_A1, 0), [Plain(DOWN_C1, 0), Plain(UP_C1, 0), Plain(DOWN_C2, 0), Plain(DOWN_B1, 0),
        Plain(UP_C2, 0)], [], 10);
    assert SameFields(Deliver(NO_QUICK_TAP, TAP_HOLD, STATE_5, UP_C2), d0);
    assert d0.waiting[1..] == [Plain(UP_C1, 0), Plain(DOWN_C2, 0), Plain(DOWN_B1, 0), Plain(UP_C2, 0)];
    Stops(NO_QUICK_TAP, TAP_HOLD, d0, STATE_6);
  }

  lemma Step7()
    ensures Process(NO_QUICK_TAP, TAP_HOLD, STATE_6, DOWN_C3) == STATE_7
  {
    var d0 := Quiet(NO_RECORD, [Plain(DOWN_C1, 0), Plain(UP_C1, 0), Plain(DOWN_C2, 0), Plain(DOWN_B1, 0),
        Plain(UP_C2, 0), Plain(DOWN_C3, 0)], [Real(Held(DOWN_A1, 0))], 12);
    var d1 := Quiet(Plain(DOWN_C1, 1), [Plain(UP_C1, 1), Plain(DOWN_C2, 0), Plain(DOWN_B1, 0), Plain(UP_C2, 0),
        Plain(DOWN_C3, 0)], [Real(Held(DOWN_A1, 0)), Real(Plain(DOWN_C1, 1))], 13);
    var d2 := Quiet(Plain(UP_C1, 1), [Plain(DOWN_C2, 0), Plain(DOWN_B1, 0), Plain(UP_C2, 0),
        Plain(DOWN_C3, 0)], [Real(Held(DOWN_A1, 0)), Real(Plain(DOWN_C1, 1)), Real(Plain(UP_C1, 1))], 14);
    var d3 := Quiet(Plain(DOWN_C2, 0), [Plain(DOWN_B1, 0), Plain(UP_C2, 0),
        Plain(DOWN_C3, 0)], [Real(Held(DOWN_A1, 0)), Real(Plain(DOWN_C1, 1)), Real(Plain(UP_C1, 1))], 15);
    assert SameFields(Deliver(NO_QUICK_TAP, TAP_HOLD, STATE_6, DOWN_C3), d0);
    assert d0.waiting[1..] == [Plain(UP_C1, 0), Plain(DOWN_C2, 0), Plain(DOWN_B1, 0), Plain(UP_C2, 0),
        Plain(DOWN_C3, 0)];
    Drains(NO_QUICK_TAP, TAP_HOLD, d0, d1);
    assert d1.waiting[1..] == [Plain(DOWN_C2, 0), Plain(DOWN_B1, 0), Plain(UP_C2, 0), Plain(DOWN_C3, 0)];
    Drains(NO_QUICK_TAP, TAP_HOLD, d1, d2);
    assert d2.waiting[1..] == [Plain(DOWN_B1, 0), Plain(UP_C2, 0), Plain(DOWN_C3, 0)];
    Drains(NO_QUICK_TAP, TAP_HOLD, d2, d3);
    assert d3.waiting[1..] == [Plain(UP_C2, 0), Plain(DOWN_C3, 0)];
    Stops(NO_QUICK_TAP, TAP_HOLD, d3, STATE_7);
  }

  lemma Step8()
    ensures Process(NO_QUICK_TAP, TAP_HOLD, STATE_7, UP_C3) == STATE_8
  {
    assert STATE_7.waiting[2].event == DOWN_C3;
    var d0 := Quiet(Held(DOWN_C2, 1), [Plain(DOWN_B1, 0), Plain(UP_C2, 0), Plain(DOWN_C3, 0),
        Held(UP_C3, 1)], [Real(Held(DOWN_A1, 0)), Real(Plain(DOWN_C1, 1)), Real(Plain(UP_C1, 1)),
        Real(Held(DOWN_C2, 1))], 17);
    var d1 := Quiet(Plain(DOWN_B1, 0), [Plain(UP_C2, 0), Plain(DOWN_C3, 0), Held(UP_C3, 1)], [Real(Held(DOWN_A1, 0)),
        Real(Plain(DOWN_C1, 1)), Real(Plain(UP_C1, 1)), Real(Held(DOWN_C2, 1))], 18);
    assert SameFields(Deliver(NO_QUICK_TAP, TAP_HOLD, STATE_7, UP_C3), d0);
    assert d0.waiting[1..] == [Plain(UP_C2, 0), Plain(DOWN_C3, 0), Held(UP_C3, 1)];
    Drains(NO_QUICK_TAP, TAP_HOLD, d0, d1);
    assert d1.waiting[1..] == [Plain(DOWN_C3, 0), Held(UP_C3, 1)];
    Stops(NO_QUICK_TAP, TAP_HOLD, d1, STATE_8);
  }

  lemma Step9()
    ensures Process(NO_QUICK_TAP, TAP_HOLD, STATE_8, DOWN_C4) == STATE_9
  {
    var d0 := Quiet(NO_RECORD, [Plain(UP_C2, 0), Plain(DOWN_C3, 0), Held(UP_C3, 1),
        Plain(DOWN_C4, 0)], [Real(Held(DOWN_A1, 0)), Real(Plain(DOWN_C1, 1)), Real(Plain(UP_C1, 1)),
        Real(Held(DOWN_C2, 1)), Real(Plain(DOWN_B1, 0))], 20);
    var d1 := Quiet(NO_RECORD, [Plain(DOWN_C3, 0), Held(UP_C3, 1), Plain(DOWN_C4, 0)], [Real(Held(DOWN_A1, 0)),
        Real(Plain(DOWN_C1, 1)), Real(Plain(UP_C1, 1)), Real(Held(DOWN_C2, 1)), Real(Plain(DOWN_B1, 0)),
        Real(Plain(UP_C2, 0))], 21);
    var d2 := Quiet(Plain(DOWN_C3, 1), [Held(UP_C3, 1), Plain(DOWN_C4, 0)], [Real(Held(DOWN_A1, 0)),
        Real(Plain(DOWN_C1, 1)), Real(Plain(UP_C1, 1)), Real(Held(DOWN_C2, 1)), Real(Plain(DOWN_B1, 0)),
        Real(Plain(UP_C2, 0)), Real(Plain(DOWN_C3, 1))], 22);
    var d3 := Quiet(Plain(UP_C3, 1), [Plain(DOWN_C4, 0)], [Real(Held(DOWN_A1, 0)), Real(Plain(DOWN_C1, 1)),
        Real(Plain(UP_C1, 1)), Real(Held(DOWN_C2, 1)), Real(Plain(DOWN_B1, 0)), Real(Plain(UP_C2, 0)),
        Real(Plain(DOWN_C3, 1)), Real(Plain(UP_C3, 1))], 23);
    assert SameFields(Deliver(NO_QUICK_TAP, TAP_HOLD, STATE_8, DOWN_C4), d0);
    assert d0.waiting[1..] == [Plain(DOWN_C3, 0), Held(UP_C3, 1), Plain(DOWN_C4, 0)];
    Drains(NO_QUICK_TAP, TAP_HOLD, d0, d1);
    assert d1.waiting[1..] == [Held(UP_C3, 1), Plain(DOWN_C4, 0)];
    Drains(NO_QUICK_TAP, TAP_HOLD, d1, d2);
    assert d2.waiting[1..] == [Plain(DOWN_C4, 0)];
    Drains(NO_QUICK_TAP, TAP_HOLD, d2, d3);
    assert d3.waiting[1..] == [];
    Drains(NO_QUICK_TAP, TAP_HOLD, d3, STATE_9);
  }

  const RUN := [DOWN_A1, DOWN_C1, UP_C1, DOWN_C2, DOWN_B1, UP_C2, DOWN_C3, UP_C3, DOWN_C4]

  lemma RunIsTidy()
    ensures Tidy(RUN)
  {
    hide RankOf;
    RanksStart(RUN);
    RankStep(RUN, 0, A); RankStep(RUN, 0, B); RankStep(RUN, 0, C);
    RankStep(RUN, 1, A); RankStep(RUN, 1, B); RankStep(RUN, 1, C);
    RankStep(RUN, 2, A); RankStep(RUN, 2, B); RankStep(RUN, 2, C);
    RankStep(RUN, 3, A); RankStep(RUN, 3, B); RankStep(RUN, 3, C);
    RankStep(RUN, 4, A); RankStep(RUN, 4, B); RankStep(RUN, 4, C);
    RankStep(RUN, 5, A); RankStep(RUN, 5, B); RankStep(RUN, 5, C);
    RankStep(RUN, 6, A); RankStep(RUN, 6, B); RankStep(RUN, 6, C);
    RankStep(RUN, 7, A); RankStep(RUN, 7, B); RankStep(RUN, 7, C);
    RankStep(RUN, 8, A); RankStep(RUN, 8, B); RankStep(RUN, 8, C);
  }

  lemma RunStarts()
    ensures Run(NO_QUICK_TAP, TAP_HOLD, RUN[..4]) == STATE_4
  {
    hide Process;
    RunStep(NO_QUICK_TAP, TAP_HOLD, RUN, 0); Step1();
    RunStep(NO_QUICK_TAP, TAP_HOLD, RUN, 1); Step2();
    RunStep(NO_QUICK_TAP, TAP_HOLD, RUN, 2); Step3();
    RunStep(NO_QUICK_TAP, TAP_HOLD, RUN, 3); Step4();
  }

  lemma RunEnds()
    ensures Run(NO_QUICK_TAP, TAP_HOLD, RUN) == STATE_9
  {
    hide Process;
    RunStarts();
    RunStep(NO_QUICK_TAP, TAP_HOLD, RUN, 4); Step5();
    RunStep(NO_QUICK_TAP, TAP_HOLD, RUN, 5); Step6();
    RunStep(NO_QUICK_TAP, TAP_HOLD, RUN, 6); Step7();
    RunStep(NO_QUICK_TAP, TAP_HOLD, RUN, 7); Step8();
    RunStep(NO_QUICK_TAP, TAP_HOLD, RUN, 8); Step9();
    assert RUN[..9] == RUN;
  }

  /** Every event is in order, and yet press and release of C disagree. */
  lemma SkippedRelease()
    ensures Tidy(RUN) && !Agree(C, Run(NO_QUICK_TAP, TAP_HOLD, RUN).out)
  {
    RunIsTidy();
    RunEnds();
    var out := STATE_9.out;
    assert out[3].record == Held(DOWN_C2, 1) && out[5].record == Plain(UP_C2, 0);
  }
}

/** A third such run: a release is processed with the count of another press of its key, its own press having been
    processed before as a hold. All presses but the last are those of tap-hold keys. */
module TappingMistaken {
  import opened TappingModel
  import opened TappingVerdict
  import opened TappingReplay

  const NO_QUICK_TAP := Terms(0)
  const ANSWERS: Answers := (n: nat) => Answer(n != 16, false, false, false)

  const DOWN_B1 := Press(B, 150, 0)
  const DOWN_A1 := Press(A, 160, 0)
  const UP_A1 := Release(A, 200, 1)
  const DOWN_A2 := Press(A, 205, 2)
  const UP_A2 := Release(A, 210, 3)
  const DOWN_A3 := Press(A, 310, 4)
  const UP_A3 := Release(A, 460, 5)
  const DOWN_A4 := Press(A, 500, 6)
  const UP_A4 := Release(A, 510, 7)

  const STATE_1 := Quiet(Plain(DOWN_B1, 0), [], [], 1)
  const STATE_2 := Quiet(Held(DOWN_B1, 0), [Plain(DOWN_A1, 0)], [], 3)
  const STATE_3 := Quiet(Held(DOWN_B1, 0), [Plain(DOWN_A1, 0), Plain(UP_A1, 0)], [], 5)
  const STATE_4 := Quiet(Held(DOWN_B1, 0), [Plain(DOWN_A1, 0), Plain(UP_A1, 0), Plain(DOWN_A2, 0)], [], 7)
  const STATE_5 := Quiet(Held(DOWN_B1, 0), [Plain(DOWN_A1, 0), Plain(UP_A1, 0), Plain(DOWN_A2, 0), Plain(UP_A2, 0)], [],
    9)
  const STATE_6 := Quiet(Held(DOWN_B1, 0),
    [Plain(DOWN_A1, 0), Plain(UP_A1, 0), Plain(DOWN_A2, 0), Plain(UP_A2, 0), Plain(DOWN_A3, 0)], [], 11)
  const STATE_7 := Quiet(Plain(DOWN_A2, 1), [Plain(UP_A2, 1), Plain(DOWN_A3, 0), Plain(UP_A3, 0)],
    [Real(Held(DOWN_B1, 0)), Real(Plain(DOWN_A1, 1)), Real(Plain(UP_A1, 1)), Real(Plain(DOWN_A2, 1))], 16)
  const STATE_8 := Quiet(Plain(DOWN_A3, 1), [Plain(UP_A3, 1)],
    [Real(Held(DOWN_B1, 0)), Real(Plain(DOWN_A1, 1)), Real(Plain(UP_A1, 1)), Real(Plain(DOWN_A2, 1)),
      Real(Plain(DOWN_A4, 0)), Real(Plain(UP_A2, 1)), Real(Plain(DOWN_A3, 1))], 20)
  const STATE_9 := Quiet(NO_RECORD, [],
    [Real(Held(DOWN_B1, 0)), Real(Plain(DOWN_A1, 1)), Real(Plain(UP_A1, 1)), Real(Plain(DOWN_A2, 1)),
      Real(Plain(DOWN_A4, 0)), Real(Plain(UP_A2, 1)), Real(Plain(DOWN_A3, 1)), Real(Plain(UP_A4, 1)),
        Real(Plain(UP_A3, 1))], 22)

  lemma Step1()
    ensures Process(NO_QUICK_TAP, ANSWERS, INITIAL, DOWN_B1) == STATE_1
  {
    assert SameFields(Deliver(NO_QUICK_TAP, ANSWERS, INITIAL, DOWN_B1), STATE_1);
  }

  lemma Step2()
    ensures Process(NO_QUICK_TAP, ANSWERS, STATE_1, DOWN_A1) == STATE_2
  {
    var d0 := Quiet(Held(DOWN_B1, 0), [Plain(DOWN_A1, 0)], [], 2);
    assert SameFields(Deliver(NO_QUICK_TAP, ANSWERS, STATE_1, DOWN_A1), d0);
    assert d0.waiting[1..] == [];
    Stops(NO_QUICK_TAP, ANSWERS, d0, STATE_2);
  }

  lemma Step3()
    ensures Process(NO_QUICK_TAP, ANSWERS, STATE_2, UP_A1) == STATE_3
  {
    assert STATE_2.waiting[0].event == DOWN_A1;
    var d0 := Quiet(Held(DOWN_B1, 0), [Plain(DOWN_A1, 0), Plain(UP_A1, 0)], [], 4);
    assert SameFields(Deliver(NO_QUICK_TAP, ANSWERS, STATE_2, UP_A1), d0);
    assert d0.waiting[1..] == [Plain(UP_A1, 0)];
    Stops(NO_QUICK_TAP, ANSWERS, d0, STATE_3);
  }

  lemma Step4()
    ensures Process(NO_QUICK_TAP, ANSWERS, STATE_3, DOWN_A2) == STATE_4
  {
    var d0 := Quiet(Held(DOWN_B1, 0), [Plain(DOWN_A1, 0), Plain(UP_A1, 0), Plain(DOWN_A2, 0)], [], 6);
    assert SameFields(Deliver(NO_QUICK_TAP, ANSWERS, STATE_3, DOWN_A2), d0);
    assert d0.waiting[1..] == [Plain(UP_A1, 0), Plain(DOWN_A2, 0)];
    Stops(NO_QUICK_TAP, ANSWERS, d0, STATE_4);
  }

  lemma Step5()
    ensures Process(NO_QUICK_TAP, ANSWERS, STATE_4, UP_A2) == STATE_5
  {
    assert STATE_4.waiting[0].event == DOWN_A1;
    var d0 := Quiet(Held(DOWN_B1, 0), [Plain(DOWN_A1, 0), Plain(UP_A1, 0), Plain(DOWN_A2, 0), Plain(UP_A2, 0)], [], 8);
    assert SameFields(Deliver(NO_QUICK_TAP, ANSWERS, STATE_4, UP_A2), d0);
    assert d0.waiting[1..] == [Plain(UP_A1, 0), Plain(DOWN_A2, 0), Plain(UP_A2, 0)];
    Stops(NO_QUICK_TAP, ANSWERS, d0, STATE_5);
  }

  lemma Step6()
    ensures Process(NO_QUICK_TAP, ANSWERS, STATE_5, DOWN_A3) == STATE_6
  {
    var d0 := Quiet(Held(DOWN_B1, 0),
      [Plain(DOWN_A1, 0), Plain(UP_A1, 0), Plain(DOWN_A2, 0), Plain(UP_A2, 0), Plain(DOWN_A3, 0)], [], 10);
    assert SameFields(Deliver(NO_QUICK_TAP, ANSWERS, STATE_5, DOWN_A3), d0);
    assert d0.waiting[1..] == [Plain(UP_A1, 0), Plain(DOWN_A2, 0), Plain(UP_A2, 0), Plain(DOWN_A3, 0)];
    Stops(NO_QUICK_TAP, ANSWERS, d0, STATE_6);
  }

  lemma Step7()
    ensures Process(NO_QUICK_TAP, ANSWERS, STATE_6, UP_A3) == STATE_7
  {
    assert STATE_6.waiting[0].event == DOWN_A1;
    var d0 := Quiet(NO_RECORD,
      [Plain(DOWN_A1, 0), Plain(UP_A1, 0), Plain(DOWN_A2, 0), Plain(UP_A2, 0), Plain(DOWN_A3, 0), Plain(UP_A3, 0)],
        [Real(Held(DOWN_B1, 0))], 12);
    var d1 := Quiet(Plain(DOWN_A1, 1),
      [Plain(UP_A1, 1), Plain(DOWN_A2, 0), Plain(UP_A2, 0), Plain(DOWN_A3, 0), Plain(UP_A3, 0)],
        [Real(Held(DOWN_B1, 0)), Real(Plain(DOWN_A1, 1))], 13);
    var d2 := Quiet(Plain(UP_A1, 1), [Plain(DOWN_A2, 0), Plain(UP_A2, 0), Plain(DOWN_A3, 0), Plain(UP_A3, 0)],
      [Real(Held(DOWN_B1, 0)), Real(Plain(DOWN_A1, 1)), Real(Plain(UP_A1, 1))], 14);
    var d3 := Quiet(Plain(DOWN_A2, 0), [Plain(UP_A2, 0), Plain(DOWN_A3, 0), Plain(UP_A3, 0)],
      [Real(Held(DOWN_B1, 0)), Real(Plain(DOWN_A1, 1)), Real(Plain(UP_A1, 1))], 15);
    assert SameFields(Deliver(NO_QUICK_TAP, ANSWERS, STATE_6, UP_A3), d0);
    assert d0.waiting[1..] == [Plain(UP_A1, 0), Plain(DOWN_A2, 0), Plain(UP_A2, 0), Plain(DOWN_A3, 0), Plain(UP_A3, 0)];
    Drains(NO_QUICK_TAP, ANSWERS, d0, d1);
    assert d1.waiting[1..] == [Plain(DOWN_A2, 0), Plain(UP_A2, 0), Plain(DOWN_A3, 0), Plain(UP_A3, 0)];
    Drains(NO_QUICK_TAP, ANSWERS, d1, d2);
    assert d2.waiting[1..] == [Plain(UP_A2, 0), Plain(DOWN_A3, 0), Plain(UP_A3, 0)];
    Drains(NO_QUICK_TAP, ANSWERS, d2, d3);
    assert d3.waiting[1..] == [Plain(DOWN_A3, 0), Plain(UP_A3, 0)];
    Stops(NO_QUICK_TAP, ANSWERS, d3, STATE_7);
  }

  lemma Step8()
    ensures Process(NO_QUICK_TAP, ANSWERS, STATE_7, DOWN_A4) == STATE_8
  {
    var d0 := Quiet(Plain(DOWN_A2, 1), [Plain(UP_A2, 1), Plain(DOWN_A3, 0), Plain(UP_A3, 0)],
      [Real(Held(DOWN_B1, 0)), Real(Plain(DOWN_A1, 1)), Real(Plain(UP_A1, 1)), Real(Plain(DOWN_A2, 1)),
        Real(Plain(DOWN_A4, 0))], 17);
    var d1 := Quiet(Plain(UP_A2, 1), [Plain(DOWN_A3, 0), Plain(UP_A3, 0)],
      [Real(Held(DOWN_B1, 0)), Real(Plain(DOWN_A1, 1)), Real(Plain(UP_A1, 1)), Real(Plain(DOWN_A2, 1)),
        Real(Plain(DOWN_A4, 0)), Real(Plain(UP_A2, 1))], 18);
    var d2 := Quiet(Plain(DOWN_A3, 0), [Plain(UP_A3, 0)],
      [Real(Held(DOWN_B1, 0)), Real(Plain(DOWN_A1, 1)), Real(Plain(UP_A1, 1)), Real(Plain(DOWN_A2, 1)),
        Real(Plain(DOWN_A4, 0)), Real(Plain(UP_A2, 1))], 19);
    assert SameFields(Deliver(NO_QUICK_TAP, ANSWERS, STATE_7, DOWN_A4), d0);
    assert d0.waiting[1..] == [Plain(DOWN_A3, 0), Plain(UP_A3, 0)];
    Drains(NO_QUICK_TAP, ANSWERS, d0, d1);
    assert d1.waiting[1..] == [Plain(UP_A3, 0)];
    Drains(NO_QUICK_TAP, ANSWERS, d1, d2);
    assert d2.waiting[1..] == [];
    Stops(NO_QUICK_TAP, ANSWERS, d2, STATE_8);
  }

  lemma Step9()
    ensures Process(NO_QUICK_TAP, ANSWERS, STATE_8, UP_A4) == STATE_9
  {
    var d0 := Quiet(NO_RECORD, [Plain(UP_A3, 1)],
      [Real(Held(DOWN_B1, 0)), Real(Plain(DOWN_A1, 1)), Real(Plain(UP_A1, 1)), Real(Plain(DOWN_A2, 1)),
        Real(Plain(DOWN_A4, 0)), Real(Plain(UP_A2, 1)), Real(Plain(DOWN_A3, 1)), Real(Plain(UP_A4, 1))], 21);
    assert SameFields(Deliver(NO_QUICK_TAP, ANSWERS, STATE_8, UP_A4), d0);
    assert d0.waiting[1..] == [];
    Drains(NO_QUICK_TAP, ANSWERS, d0, STATE_9);
  }

  const RUN := [DOWN_B1, DOWN_A1, UP_A1, DOWN_A2, UP_A2, DOWN_A3, UP_A3, DOWN_A4, UP_A4]

  lemma RunIsTidy()
    ensures Tidy(RUN)
  {
    hide RankOf;
    RanksStart(RUN);
    RankStep(RUN, 0, A); RankStep(RUN, 0, B);
    RankStep(RUN, 1, A); RankStep(RUN, 1, B);
    RankStep(RUN, 2, A); RankStep(RUN, 2, B);
    RankStep(RUN, 3, A); RankStep(RUN, 3, B);
    RankStep(RUN, 4, A); RankStep(RUN, 4, B);
    RankStep(RUN, 5, A); RankStep(RUN, 5, B);
    RankStep(RUN, 6, A); RankStep(RUN, 6, B);
    RankStep(RUN, 7, A); RankStep(RUN, 7, B);
    RankStep(RUN, 8, A); RankStep(RUN, 8, B);
  }

  lemma RunStarts()
    ensures Run(NO_QUICK_TAP, ANSWERS, RUN[..4]) == STATE_4
  {
    hide Process;
    RunStep(NO_QUICK_TAP, ANSWERS, RUN, 0); Step1();
    RunStep(NO_QUICK_TAP, ANSWERS, RUN, 1); Step2();
    RunStep(NO_QUICK_TAP, ANSWERS, RUN, 2); Step3();
    RunStep(NO_QUICK_TAP, ANSWERS, RUN, 3); Step4();
  }

  lemma RunEnds()
    ensures Run(NO_QUICK_TAP, ANSWERS, RUN) == STATE_9
  {
    hide Process;
    RunStarts();
    RunStep(NO_QUICK_TAP, ANSWERS, RUN, 4); Step5();
    RunStep(NO_QUICK_TAP, ANSWERS, RUN, 5); Step6();
    RunStep(NO_QUICK_TAP, ANSWERS, RUN, 6); Step7();
    RunStep(NO_QUICK_TAP, ANSWERS, RUN, 7); Step8();
    RunStep(NO_QUICK_TAP, ANSWERS, RUN, 8); Step9();
    assert RUN[..9] == RUN;
  }

  /** Every event is in order, and yet the last press of A and its release disagree. */
  lemma MistakenRelease()
    ensures Tidy(RUN) && !Agree(A, Run(NO_QUICK_TAP, ANSWERS, RUN).out)
  {
    RunIsTidy();
    RunEnds();
    var out := STATE_9.out;
    assert out[4].record == Plain(DOWN_A4, 0) && out[7].record == Plain(UP_A4, 1);
  }
}
