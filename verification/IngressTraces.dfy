/** Properties of whole command traces: replay order, non-interference between
    sources, and what the fixed-window rate limit really bounds. */
module IngressTraces {
  import opened Machine
  import opened CommandIngress
  import opened FixedWindow

  // ---------------------------------------------------------------- locality

  ghost predicate Admitted(g: Gate, trace: seq<Timed>, i: nat)
    requires i < |trace|
  {
    DecisionAt(g, trace, i).Ok?
  }

  /** A decision, and its effect on the sender's slot, depend on that slot only;
      every other slot is left alone. */
  lemma StepIsLocal(g: Gate, s1: Sources, s2: Sources, t: Timed, src: u64)
    requires var k := SourceIndex(g.policy, src); k.Some? ==> s1[k.value] == s2[k.value]
    ensures var k := SourceIndex(g.policy, src);
            k.Some? && t.command.sourceId != src ==> Step(g, s1, t.command, t.nowNs)[k.value] == s1[k.value]
    ensures var k := SourceIndex(g.policy, src);
            t.command.sourceId == src ==>
              && Decide(g, s1, t.command, t.nowNs) == Decide(g, s2, t.command, t.nowNs)
              && (k.Some? ==>
                    Step(g, s1, t.command, t.nowNs)[k.value] == Step(g, s2, t.command, t.nowNs)[k.value])
  {
  }

  /** A slot changes exactly when a command of its own source is admitted. */
  lemma SlotEffect(g: Gate, sources: Sources, t: Timed, src: u64)
    requires SourceIndex(g.policy, src).Some?
    ensures var k := SourceIndex(g.policy, src).value;
            var s' := Step(g, sources, t.command, t.nowNs)[k];
            if t.command.sourceId == src && Decide(g, sources, t.command, t.nowNs).Ok?
            then s' == Charged(g, sources[k], t.command, t.nowNs) && !RateExhausted(g, sources[k], t.nowNs)
            else s' == sources[k]
  {
    StepIsLocal(g, sources, sources, t, src);
  }

  // --------------------------------------------------------------- filtering

  ghost function Filter<T>(s: seq<T>, keep: seq<bool>): seq<T>
    requires |s| == |keep|
  {
    if s == [] then []
    else
      var n := |s| - 1;
      Filter(s[..n], keep[..n]) + if keep[n] then [s[n]] else []
  }

  ghost function Decisions(g: Gate, trace: seq<Timed>): (ds: seq<Decision>)
    ensures |ds| == |trace|
  {
    if trace == [] then []
    else
      var n := |trace| - 1;
      Decisions(g, trace[..n]) + [DecisionAt(g, trace, n)]
  }

  /** Decisions on the commands of one source, in order. */
  ghost function DecisionsOf(g: Gate, trace: seq<Timed>, src: u64): seq<Decision> {
    if trace == [] then []
    else
      var n := |trace| - 1;
      DecisionsOf(g, trace[..n], src)
      + if trace[n].command.sourceId == src then [DecisionAt(g, trace, n)] else []
  }

  ghost predicate KeepsAdmitted(g: Gate, trace: seq<Timed>, keep: seq<bool>, src: u64)
    requires |trace| == |keep|
  {
    forall i :: 0 <= i < |trace| && trace[i].command.sourceId == src && Admitted(g, trace, i) ==> keep[i]
  }

  lemma KeepsAdmittedPrefix(g: Gate, trace: seq<Timed>, keep: seq<bool>, src: u64)
    requires |trace| == |keep| > 0 && KeepsAdmitted(g, trace, keep, src)
    ensures var n := |trace| - 1; KeepsAdmitted(g, trace[..n], keep[..n], src)
  {
    var n := |trace| - 1;
    forall i | 0 <= i < n && trace[i].command.sourceId == src && Admitted(g, trace[..n], i)
      ensures keep[i]
    {
      assert trace[..n][..i] == trace[..i];
      assert Admitted(g, trace, i);
    }
  }

  /** Dropping any commands other than a source's admitted ones, whoever sent
      them, leaves that source's state as it was. */
  lemma {:induction false} FilterKeepsState(g: Gate, trace: seq<Timed>, keep: seq<bool>, src: u64)
    requires |trace| == |keep| && KeepsAdmitted(g, trace, keep, src)
    ensures var k := SourceIndex(g.policy, src);
            k.Some? ==> After(g, Filter(trace, keep))[k.value] == After(g, trace)[k.value]
    decreases |trace|
  {
    if trace != [] {
      var n := |trace| - 1;
      KeepsAdmittedPrefix(g, trace, keep, src);
      FilterKeepsState(g, trace[..n], keep[..n], src);
      var kept := Filter(trace[..n], keep[..n]);
      StepIsLocal(g, After(g, trace[..n]), After(g, kept), trace[n], src);
      StepIsLocal(g, After(g, kept), After(g, trace[..n]), trace[n], src);
      if keep[n] {
        assert Filter(trace, keep)[..|kept|] == kept;
      } else {
        assert Filter(trace, keep) == kept;
        assert !(trace[n].command.sourceId == src && Admitted(g, trace, n));
      }
    }
  }

  ghost function FromSource(trace: seq<Timed>, src: u64): seq<bool> {
    seq(|trace|, i requires 0 <= i < |trace| => trace[i].command.sourceId == src)
  }

  /** Non-interference: what one source gets is what it would get if it were the
      only one sending. */
  lemma {:induction false} SourcesDoNotInterfere(g: Gate, trace: seq<Timed>, src: u64)
    ensures DecisionsOf(g, trace, src) == Decisions(g, Filter(trace, FromSource(trace, src)))
    decreases |trace|
  {
    if trace != [] {
      var n := |trace| - 1;
      var keep := FromSource(trace, src);
      assert keep[..n] == FromSource(trace[..n], src);
      SourcesDoNotInterfere(g, trace[..n], src);
      var alone := Filter(trace[..n], keep[..n]);
      if keep[n] {
        FilterKeepsState(g, trace[..n], keep[..n], src);
        StepIsLocal(g, After(g, trace[..n]), After(g, alone), trace[n], src);
        assert Filter(trace, keep)[..|alone|] == alone;
      } else {
        assert Filter(trace, keep) == alone;
      }
    }
  }

  /** Deleting any set of rejected commands changes no remaining decision. */
  lemma {:induction false} RejectedCommandsLeaveNoTrace(g: Gate, trace: seq<Timed>, keep: seq<bool>)
    requires |trace| == |keep|
    requires forall i :: 0 <= i < |trace| && Admitted(g, trace, i) ==> keep[i]
    ensures Decisions(g, Filter(trace, keep)) == Filter(Decisions(g, trace), keep)
    decreases |trace|
  {
    hide Step, Decide, SourceIndex;
    if trace != [] {
      var n := |trace| - 1;
      var src := trace[n].command.sourceId;
      forall i | 0 <= i < n && Admitted(g, trace[..n], i) ensures keep[..n][i] {
        assert trace[..n][..i] == trace[..i];
        assert Admitted(g, trace, i);
      }
      RejectedCommandsLeaveNoTrace(g, trace[..n], keep[..n]);
      var kept := Filter(trace[..n], keep[..n]);
      assert Decisions(g, trace)[..n] == Decisions(g, trace[..n]);
      if keep[n] {
        FilterKeepsState(g, trace[..n], keep[..n], src);
        StepIsLocal(g, After(g, trace[..n]), After(g, kept), trace[n], src);
        assert Filter(trace, keep)[..|kept|] == kept;
      } else {
        assert Filter(trace, keep) == kept;
      }
    }
  }

  // ------------------------------------------------------------ replay order

  ghost predicate Precedes(a: Command, b: Command) {
    a.permitEpoch < b.permitEpoch || (a.permitEpoch == b.permitEpoch && a.sequence < b.sequence)
  }

  /** The stored order mark of a source is at or past everything it was granted. */
  lemma {:induction false} OrderMark(g: Gate, trace: seq<Timed>, i: nat)
    requires i < |trace| && Admitted(g, trace, i)
    ensures SourceIndex(g.policy, trace[i].command.sourceId).Some?
    ensures var c := trace[i].command;
            var s := After(g, trace)[SourceIndex(g.policy, c.sourceId).value];
            c.permitEpoch < s.lastEpoch || (c.permitEpoch == s.lastEpoch && c.sequence <= s.lastSequence)
    decreases |trace|
  {
    hide StaticRefusal, SourceIndex;
    var n := |trace| - 1;
    if i < n {
      assert trace[..n][..i] == trace[..i];
      OrderMark(g, trace[..n], i);
      StepIsLocal(g, After(g, trace[..n]), After(g, trace[..n]), trace[n], trace[i].command.sourceId);
    }
  }

  /** The admitted (epoch, sequence) pairs of one source strictly increase over
      the whole run, so none is ever admitted twice, even if the policy lists the
      source more than once. */
  lemma AdmittedPairsIncrease(g: Gate, trace: seq<Timed>, i: nat, j: nat)
    requires i < j < |trace| && Admitted(g, trace, i) && Admitted(g, trace, j)
    requires trace[i].command.sourceId == trace[j].command.sourceId
    ensures Precedes(trace[i].command, trace[j].command)
  {
    assert trace[..j][..i] == trace[..i];
    OrderMark(g, trace[..j], i);
  }

  // -------------------------------------------------------------- rate limit

  ghost predicate ClockNeverGoesBack(trace: seq<Timed>) {
    forall i, j :: 0 <= i <= j < |trace| ==> trace[i].nowNs <= trace[j].nowNs
  }

  /** Times at which commands of one source were admitted. */
  ghost function AdmissionTimes(g: Gate, trace: seq<Timed>, src: u64): seq<nat> {
    if trace == [] then []
    else
      var n := |trace| - 1;
      AdmissionTimes(g, trace[..n], src)
      + if trace[n].command.sourceId == src && Admitted(g, trace, n) then [trace[n].nowNs] else []
  }

  /** Every source starts with a window that was opened at time zero. */
  ghost function Marks(times: seq<nat>): seq<nat> { [0] + times }

  /** Admissions charged to the window of mark `j`, up to and including it. */
  ghost function Charge(marks: seq<nat>, w: nat, j: nat): nat
    requires j < |marks|
  {
    var s := Start(marks, w, j);
    j - s + if s == 0 then 0 else 1
  }

  ghost predicate WithinBudget(marks: seq<nat>, w: nat, budget: nat) {
    forall j :: 0 <= j < |marks| ==> Charge(marks, w, j) <= budget
  }

  ghost predicate RateFacts(g: Gate, s: SourceState, times: seq<nat>) {
    var marks, w := Marks(times), g.policy.rateWindowNs;
    && NonDecreasing(marks)
    && s.windowStartNs == marks[Start(marks, w, |times|)]
    && s.acceptedInWindow == Charge(marks, w, |times|)
    && WithinBudget(marks, w, g.policy.maxCommandsPerWindow)
  }

  lemma BudgetStep(marks: seq<nat>, w: nat, budget: nat, now: nat)
    requires marks != [] && budget >= 1 && WithinBudget(marks, w, budget)
    requires var n := |marks| - 1;
             now - marks[Start(marks, w, n)] < w ==> Charge(marks, w, n) < budget
    ensures var n := |marks| - 1;
            var s := Start(marks, w, n);
            Start(marks + [now], w, n + 1) == if now - marks[s] < w then s else n + 1
    ensures WithinBudget(marks + [now], w, budget)
  {
    var marks' := marks + [now];
    forall j | 0 <= j < |marks| ensures Start(marks', w, j) == Start(marks, w, j) {
      assert marks'[..j + 1] == marks[..j + 1];
      StartPrefix(marks', marks, w, j);
    }
    forall j | 0 <= j < |marks'| ensures Charge(marks', w, j) <= budget {
      if j < |marks| { assert Charge(marks', w, j) == Charge(marks, w, j); }
    }
  }

  lemma RateFactsStep(g: Gate, s: SourceState, times: seq<nat>, c: Command, now: u64)
    requires RateFacts(g, s, times) && !RateExhausted(g, s, now)
    requires Marks(times)[|times|] <= now
    ensures RateFacts(g, Charged(g, s, c, now), times + [now])
  {
    var marks, w := Marks(times), g.policy.rateWindowNs;
    hide Start, WithinBudget;
    assert Marks(times + [now]) == marks + [now];
    assert marks[Start(marks, w, |times|)] <= marks[|times|] <= now;
    BudgetStep(marks, w, g.policy.maxCommandsPerWindow, now);
    assert Charge(marks + [now], w, |times| + 1) <= g.policy.maxCommandsPerWindow;
  }

  lemma BudgetAtStart(g: Gate)
    ensures RateFacts(g, EMPTY_SOURCE, [])
  {
    assert Charge(Marks([]), g.policy.rateWindowNs, 0) == 0;
  }

  lemma {:induction false} RateFactsHold(g: Gate, trace: seq<Timed>, src: u64)
    requires ClockNeverGoesBack(trace) && SourceIndex(g.policy, src).Some?
    ensures var times := AdmissionTimes(g, trace, src);
            && RateFacts(g, After(g, trace)[SourceIndex(g.policy, src).value], times)
            && (forall t :: t in times ==> trace != [] && t <= trace[|trace| - 1].nowNs)
    decreases |trace|
  {
    hide Step, Decide, SourceIndex, Charged, RateExhausted, RateFacts;
    if trace == [] {
      BudgetAtStart(g);
    } else {
      var n := |trace| - 1;
      RateFactsHold(g, trace[..n], src);
      SlotEffect(g, After(g, trace[..n]), trace[n], src);
      var s := After(g, trace[..n])[SourceIndex(g.policy, src).value];
      var times := AdmissionTimes(g, trace[..n], src);
      if trace[n].command.sourceId == src && Admitted(g, trace, n) {
        if times != [] {
          assert Marks(times)[|times|] == times[|times| - 1] && times[|times| - 1] in times;
          assert trace[n - 1].nowNs <= trace[n].nowNs;
        }
        RateFactsStep(g, s, times, trace[n].command, trace[n].nowNs);
      } else {
        assert AdmissionTimes(g, trace, src) == times;
        if n > 0 { assert trace[n - 1].nowNs <= trace[n].nowNs; }
      }
    }
  }

  /** The moment the current window of a source opened, from its admissions alone. */
  ghost function WindowOpened(g: Gate, times: seq<nat>): nat {
    Marks(times)[Start(Marks(times), g.policy.rateWindowNs, |times|)]
  }

  lemma WindowCount(times: seq<nat>, w: nat, now: nat)
    requires w >= 1 && NonDecreasing(Marks(times)) && forall t :: t in times ==> t <= now
    ensures var marks := Marks(times);
            CountIn(times, marks[Start(marks, w, |times|)], now + 1) == Charge(marks, w, |times|)
  {
    var marks, n := Marks(times), |times|;
    var s0 := Start(marks, w, n);
    var m := if s0 == 0 then 0 else s0 - 1;
    hide Start, CountIn;
    forall i | 0 <= i < m ensures times[i] < marks[s0] {
      WindowsApart(marks, w, n);
      InsideWindow(marks, w, s0 - 1);
      assert times[i] == marks[i + 1] <= marks[s0 - 1];
    }
    forall i | m <= i < n ensures marks[s0] <= times[i] < now + 1 {
      assert times[i] == marks[i + 1] && times[i] in times;
    }
    CountSuffix(times, marks[s0], now + 1, m);
  }

  /** The rate limit is exact: a command that passes every other check is refused
      for its rate if and only if the source's current window, opened less than a
      window length ago, already holds exactly the permitted number of admissions. */
  lemma RateLimitedIff(g: Gate, trace: seq<Timed>, i: nat)
    requires i < |trace| && ClockNeverGoesBack(trace)
    ensures var c := trace[i].command;
            var now := trace[i].nowNs;
            var times := AdmissionTimes(g, trace[..i], c.sourceId);
            var since := WindowOpened(g, times);
            DecisionAt(g, trace, i) == Err(RateLimited) <==>
              && StaticRefusal(g, c, now).None?
              && ReplayRefusal(After(g, trace[..i])[SourceIndex(g.policy, c.sourceId).value], c).None?
              && since <= now < since + g.policy.rateWindowNs
              && CountIn(times, since, now + 1) == g.policy.maxCommandsPerWindow
  {
    hide StaticRefusal, ReplayRefusal, AdmissionTimes, CountIn, Start;
    var c, now := trace[i].command, trace[i].nowNs;
    if StaticRefusal(g, c, now).None? {
      var times := AdmissionTimes(g, trace[..i], c.sourceId);
      RateFactsHold(g, trace[..i], c.sourceId);
      var s := After(g, trace[..i])[SourceIndex(g.policy, c.sourceId).value];
      var marks := Marks(times);
      forall t | t in times ensures t <= now { assert trace[i - 1].nowNs <= now; }
      var at := Start(marks, g.policy.rateWindowNs, |times|);
      assert marks[at] <= now by {
        if at > 0 { assert marks[at] == times[at - 1] && times[at - 1] in times; }
      }
      WindowCount(times, g.policy.rateWindowNs, now);
      assert Charge(marks, g.policy.rateWindowNs, |times|) <= g.policy.maxCommandsPerWindow;
    }
  }

  /** Admissions twice the window budget apart are a window length apart. */
  lemma SpacedAdmissions(marks: seq<nat>, w: nat, budget: nat, i: nat)
    requires NonDecreasing(marks) && WithinBudget(marks, w, budget)
    requires 1 <= i && i + 2 * budget < |marks|
    ensures marks[i + 2 * budget] >= marks[i] + w
  {
    var j := i + 2 * budget;
    assert Charge(marks, w, j) <= budget;
    var s1 := Start(marks, w, j);
    assert s1 > i + budget;
    assert Charge(marks, w, s1 - 1) <= budget;
    var s0 := Start(marks, w, s1 - 1);
    assert s0 > i;
    WindowsApart(marks, w, j);
    assert marks[i] <= marks[s0] && marks[s1] <= marks[j];
  }

  lemma BudgetBoundsCount(times: seq<nat>, w: nat, budget: nat, from: int)
    requires NonDecreasing(Marks(times)) && WithinBudget(Marks(times), w, budget)
    ensures CountIn(times, from, from + w) <= 2 * budget
  {
    hide WithinBudget, CountIn;
    var marks := Marks(times);
    assert forall i :: 0 <= i < |times| ==> times[i] == marks[i + 1];
    forall i {:trigger times[i]} | 0 <= i && i + 2 * budget < |times|
      ensures times[i + 2 * budget] >= times[i] + w
    {
      SpacedAdmissions(marks, w, budget, i + 1);
    }
    SpacedCount(times, w, 2 * budget, from);
  }

  /** No half-open interval one window long ever holds more than twice the window
      budget of admissions of one source. */
  lemma AtMostTwiceTheBudget(g: Gate, trace: seq<Timed>, src: u64, from: int)
    requires ClockNeverGoesBack(trace)
    ensures CountIn(AdmissionTimes(g, trace, src), from, from + g.policy.rateWindowNs)
         <= 2 * g.policy.maxCommandsPerWindow
  {
    hide After, AdmissionTimes, SourceIndex, WithinBudget, Marks;
    if SourceIndex(g.policy, src).None? {
      UnauthorizedNeverAdmitted(g, trace, src);
    } else {
      RateFactsHold(g, trace, src);
      BudgetBoundsCount(AdmissionTimes(g, trace, src), g.policy.rateWindowNs,
                        g.policy.maxCommandsPerWindow, from);
    }
  }

  lemma {:induction false} UnauthorizedNeverAdmitted(g: Gate, trace: seq<Timed>, src: u64)
    requires SourceIndex(g.policy, src).None?
    ensures AdmissionTimes(g, trace, src) == []
    decreases |trace|
  {
    if trace != [] { UnauthorizedNeverAdmitted(g, trace[..|trace| - 1], src); }
  }
}
