/** Concurrent calls to the weighted round-robin. Each call draws positions one at a time from a counter that all calls
    share, and reads a backend's health after drawing it; health may be changed between any two steps. */
module BalancerRace {
  import opened Common
  import opened Bits
  import opened Balancer

  /** A call with draws left, one about to read the health of the backend it drew, or its result. */
  datatype Pc = Trying(left: nat) | Checking(left: nat, backend: nat) | Picked(backend: nat) | Failed

  datatype State = State(counter: nat, health: seq<bool>, calls: map<nat, Pc>)

  datatype Step = Call(call: nat) | Draw(call: nat) | Check(call: nat) | Mark(backend: nat, up: bool)

  predicate Enabled(list: seq<nat>, s: State, step: Step) {
    match step
    case Call(c) => c !in s.calls
    case Draw(c) => c in s.calls && s.calls[c].Trying? && list != []
    case Check(c) => c in s.calls && s.calls[c].Checking? && s.calls[c].backend < |s.health|
    case Mark(b, _) => b < |s.health|
  }

  /** What reading the health of the drawn backend makes of a call. */
  function AfterCheck(left: nat, backend: nat, healthy: bool): (pc: Pc) {
    if healthy then Picked(backend) else if left <= 1 then Failed else Trying(left - 1)
  }

  function Apply(list: seq<nat>, s: State, step: Step): (t: State)
    requires Enabled(list, s, step)
  {
    match step
    case Call(c) => s.(calls := s.calls[c := if list == [] then Failed else Trying(|list|)])
    case Draw(c) =>
      var pc := Checking(s.calls[c].left, Slot(list, s.counter));
      s.(counter := Tick(s.counter), calls := s.calls[c := pc])
    case Check(c) =>
      var b := s.calls[c].backend;
      s.(calls := s.calls[c := AfterCheck(s.calls[c].left, b, s.health[b])])
    case Mark(b, up) => s.(health := s.health[b := up])
  }

  /** The state after a sequence of steps from a new balancer, if each was enabled in turn. */
  function Run(list: seq<nat>, health: seq<bool>, steps: seq<Step>): (r: Option<State>) {
    if steps == [] then Some(State(0, health, map[]))
    else
      var n := |steps| - 1;
      var s := Run(list, health, steps[..n]);
      if s.Some? && Enabled(list, s.value, steps[n]) then Some(Apply(list, s.value, steps[n])) else None
  }

  lemma {:induction false} Extend(list: seq<nat>, health: seq<bool>, steps: seq<Step>, step: Step)
    requires Run(list, health, steps).Some? && Enabled(list, Run(list, health, steps).value, step)
    ensures Run(list, health, steps + [step]) == Some(Apply(list, Run(list, health, steps).value, step))
  {
    assert (steps + [step])[..|steps|] == steps;
  }

  // ---------- What the steps of a run say ----------

  /** How often the counter was advanced. */
  function DrawsIn(steps: seq<Step>): (r: nat) {
    if steps == [] then 0 else DrawsIn(steps[..|steps| - 1]) + (if steps[|steps| - 1].Draw? then 1 else 0)
  }

  /** Health after the marks among the steps. */
  function HealthAfter(health: seq<bool>, steps: seq<Step>): (r: seq<bool>)
    ensures |r| == |health|
  {
    if steps == [] then health
    else
      var was, last := HealthAfter(health, steps[..|steps| - 1]), steps[|steps| - 1];
      if last.Mark? && last.backend < |health| then was[last.backend := last.up] else was
  }

  /** The backend that the latest draw of call c selects: draws take the positions of the list in turn. */
  function LastDrawn(list: seq<nat>, steps: seq<Step>, c: nat): (r: nat)
    requires list != []
  {
    if steps == [] then 0
    else
      var n := |steps| - 1;
      if steps[n] == Draw(c) then Slot(list, DrawsIn(steps[..n]) % WORD) else LastDrawn(list, steps[..n], c)
  }

  /** A backend and whether it was healthy at the moment a call looked. */
  datatype Reading = Reading(backend: nat, healthy: bool)

  /** What call c found at each of its checks, given the marks before each. */
  function Readings(list: seq<nat>, health: seq<bool>, steps: seq<Step>, c: nat): (r: seq<Reading>)
    requires list != []
  {
    if steps == [] then []
    else
      var n := |steps| - 1;
      var was := Readings(list, health, steps[..n], c);
      if steps[n] == Check(c) then
        var b := LastDrawn(list, steps[..n], c);
        was + [Reading(b, b < |health| && HealthAfter(health, steps[..n])[b])]
      else was
  }

  ghost predicate AllDown(found: seq<Reading>) {
    forall i :: 0 <= i < |found| ==> !found[i].healthy
  }

  ghost predicate Listed(list: seq<nat>, found: seq<Reading>) {
    forall i :: 0 <= i < |found| ==> found[i].backend in list
  }

  // ---------- What any interleaving guarantees ----------

  /** Where a call is, given what it found: it goes on while all it found was unhealthy, picks the first healthy
      backend it finds, and fails when as many checks as the list is long have found none. */
  ghost predicate Explained(list: seq<nat>, pc: Pc, found: seq<Reading>, drawn: nat) {
    Listed(list, found) &&
    match pc
    case Trying(left) => left >= 1 && |found| + left == |list| && AllDown(found)
    case Checking(left, b) => left >= 1 && |found| + left == |list| && AllDown(found) && b == drawn && b in list
    case Picked(b) =>
      && 0 < |found| <= |list| && AllDown(found[..|found| - 1])
      && found[|found| - 1] == Reading(b, true)
    case Failed => |found| == |list| && AllDown(found)
  }

  ghost predicate Consistent(list: seq<nat>, health: seq<bool>, steps: seq<Step>, s: State)
    requires list != []
  {
    && s.counter == DrawsIn(steps) % WORD && s.health == HealthAfter(health, steps)
    && (forall c :: c in s.calls ==>
          Explained(list, s.calls[c], Readings(list, health, steps, c), LastDrawn(list, steps, c)))
    && (forall c :: c !in s.calls ==> Readings(list, health, steps, c) == [])
  }

  lemma {:induction false} SlotListed(list: seq<nat>, v: nat)
    requires list != []
    ensures Slot(list, v) in list
  {
  }

  lemma {:induction false} CheckExplained(list: seq<nat>, left: nat, b: nat, found: seq<Reading>, healthy: bool)
    requires Explained(list, Checking(left, b), found, b)
    ensures Explained(list, AfterCheck(left, b, healthy), found + [Reading(b, healthy)], b)
  {
    assert (found + [Reading(b, healthy)])[..|found|] == found;
  }

  lemma {:induction false} CountersStep(list: seq<nat>, health: seq<bool>, steps: seq<Step>, s: State, step: Step)
    requires Enabled(list, s, step) && s.counter == DrawsIn(steps) % WORD && s.health == HealthAfter(health, steps)
    ensures var t := Apply(list, s, step);
            t.counter == DrawsIn(steps + [step]) % WORD && t.health == HealthAfter(health, steps + [step])
  {
    hide Slot, Tick, AfterCheck;
    assert (steps + [step])[..|steps|] == steps;
    WrappedTick(DrawsIn(steps));
  }

  lemma {:induction false} CallStep(list: seq<nat>, health: seq<bool>, steps: seq<Step>, s: State, step: Step, c: nat)
    requires list != [] && Consistent(list, health, steps, s) && Enabled(list, s, step)
    ensures var t, all := Apply(list, s, step), steps + [step];
            if c in t.calls
            then Explained(list, t.calls[c], Readings(list, health, all, c), LastDrawn(list, all, c))
            else Readings(list, health, all, c) == []
  {
    hide Slot, Tick, AfterCheck, DrawsIn, HealthAfter;
    assert (steps + [step])[..|steps|] == steps;
    if step == Draw(c) {
      SlotListed(list, s.counter);
    } else if step == Check(c) {
      var pc, found := s.calls[c], Readings(list, health, steps, c);
      CheckExplained(list, pc.left, pc.backend, found, s.health[pc.backend]);
    }
    hide Listed, AllDown;
  }

  lemma {:induction false} HistoryStep(list: seq<nat>, health: seq<bool>, steps: seq<Step>, s: State, step: Step)
    requires list != [] && Consistent(list, health, steps, s) && Enabled(list, s, step)
    ensures Consistent(list, health, steps + [step], Apply(list, s, step))
  {
    hide Slot, Tick, AfterCheck, Apply, Explained, Readings, LastDrawn, DrawsIn, HealthAfter;
    CountersStep(list, health, steps, s, step);
    forall c ensures var t, all := Apply(list, s, step), steps + [step];
                     if c in t.calls
                     then Explained(list, t.calls[c], Readings(list, health, all, c), LastDrawn(list, all, c))
                     else Readings(list, health, all, c) == []
    {
      CallStep(list, health, steps, s, step, c);
    }
  }

  /** In every interleaving with marks at any moment, the counter is the number of draws and health is what the marks
      made it; a pick was healthy when its call looked at it, and every backend the call found before was not; and a
      call that reports an error looked as often as the list is long and found each backend it drew unhealthy at that
      moment. */
  lemma {:induction false} RunHistory(list: seq<nat>, health: seq<bool>, steps: seq<Step>)
    requires list != [] && Run(list, health, steps).Some?
    ensures Consistent(list, health, steps, Run(list, health, steps).value)
  {
    if steps != [] {
      var n := |steps| - 1;
      RunHistory(list, health, steps[..n]);
      hide Consistent, Apply, Enabled;
      assert steps[..n] + [steps[n]] == steps;
      HistoryStep(list, health, steps[..n], Run(list, health, steps[..n]).value, steps[n]);
    }
  }

  // ---------- Fixed health ----------

  predicate NoMarks(steps: seq<Step>) {
    forall i :: 0 <= i < |steps| ==> !steps[i].Mark?
  }

  lemma {:induction false} FixedHealth(health: seq<bool>, steps: seq<Step>)
    requires NoMarks(steps)
    ensures HealthAfter(health, steps) == health
  {
    if steps != [] { FixedHealth(health, steps[..|steps| - 1]); }
  }

  lemma {:induction false} FixedReadings(list: seq<nat>, health: seq<bool>, steps: seq<Step>, c: nat)
    requires list != [] && NoMarks(steps)
    ensures forall r :: r in Readings(list, health, steps, c) ==>
              (r.healthy <==> r.backend < |health| && health[r.backend])
  {
    if steps != [] {
      FixedReadings(list, health, steps[..|steps| - 1], c);
      FixedHealth(health, steps[..|steps| - 1]);
    }
  }

  ghost predicate HasUnhealthy(list: seq<nat>, health: seq<bool>)
    requires Fits(list, health)
  {
    exists i :: 0 <= i < |list| && !health[list[i]]
  }

  lemma {:induction false} OnlyFailures(health: seq<bool>, steps: seq<Step>, c: nat)
    requires Run([], health, steps).Some? && c in Run([], health, steps).value.calls
    ensures Run([], health, steps).value.calls[c] == Failed
  {
    var n := |steps| - 1;
    if c in Run([], health, steps[..n]).value.calls { OnlyFailures(health, steps[..n], c); }
  }

  /** With fixed health, in every interleaving a pick is a healthy backend of the list, and an error means that some
      backend is not healthy or that there is none. */
  lemma {:induction false} RunOk(list: seq<nat>, health: seq<bool>, steps: seq<Step>, c: nat)
    requires Fits(list, health) && NoMarks(steps)
    requires Run(list, health, steps).Some? && c in Run(list, health, steps).value.calls
    ensures match Run(list, health, steps).value.calls[c]
            case Picked(b) => b in list && b < |health| && health[b]
            case Failed => list == [] || HasUnhealthy(list, health)
            case _ => list != []
  {
    if list == [] {
      OnlyFailures(health, steps, c);
    } else {
      RunHistory(list, health, steps);
      FixedReadings(list, health, steps, c);
      var found := Readings(list, health, steps, c);
      if Run(list, health, steps).value.calls[c].Failed? {
        assert found[0] in found && found[0].backend in list;
        var i :| 0 <= i < |list| && list[i] == found[0].backend;
      }
    }
  }

  // ---------- A call that no other draw interrupts ----------

  /** The outcome of a sequential call, as a call's end. */
  function EndOf(r: Option<nat>): (pc: Pc) {
    if r.Some? then Picked(r.value) else Failed
  }

  ghost predicate Only(more: seq<Step>, c: nat) {
    forall i :: 0 <= i < |more| ==> more[i] == Draw(c) || more[i] == Check(c)
  }

  /** A call that draws without interference ends as the sequential search does, after as many draws. */
  lemma {:induction false} AloneIsProbe(list: seq<nat>, health: seq<bool>, steps: seq<Step>, c: nat)
    returns (more: seq<Step>)
    requires Run(list, health, steps).Some? && list != [] && Fits(list, Run(list, health, steps).value.health)
    requires c in Run(list, health, steps).value.calls && Run(list, health, steps).value.calls[c].Trying?
    requires Run(list, health, steps).value.calls[c].left >= 1
    ensures Only(more, c) && Run(list, health, steps + more).Some?
    ensures var s, t := Run(list, health, steps).value, Run(list, health, steps + more).value;
            && var (counter, found) := ProbeWord(list, s.health, s.counter, s.calls[c].left);
               t == State(counter, s.health, s.calls[c := EndOf(found)])
    decreases Run(list, health, steps).value.calls[c].left
  {
    hide Run, Slot, Tick;
    var s := Run(list, health, steps).value;
    var two := [Draw(c)] + [Check(c)];
    SlotListed(list, s.counter);
    Extend(list, health, steps, Draw(c));
    Extend(list, health, steps + [Draw(c)], Check(c));
    assert steps + [Draw(c)] + [Check(c)] == steps + two;
    var t := Run(list, health, steps + two).value;
    if t.calls[c].Trying? {
      var rest := AloneIsProbe(list, health, steps + two, c);
      more := two + rest;
      assert steps + two + rest == steps + more;
      var end := EndOf(ProbeWord(list, s.health, s.counter, s.calls[c].left).1);
      assert t.calls[c := end] == s.calls[c := end];
    } else {
      more := two;
      assert ProbeWord(list, s.health, Tick(s.counter), 0) == (Tick(s.counter), None);
    }
  }

  /** A new call alone ends as the sequential Next from the counter it finds; unless the counter wraps in between, it
      errs exactly if none is healthy. */
  lemma {:induction false} AloneIsNext(list: seq<nat>, health: seq<bool>, steps: seq<Step>, c: nat)
    returns (more: seq<Step>)
    requires |list| < WORD && Run(list, health, steps).Some? && Fits(list, Run(list, health, steps).value.health)
    requires c !in Run(list, health, steps).value.calls
    ensures Only(more, c) && Run(list, health, steps + [Call(c)] + more).Some?
    ensures var s, t := Run(list, health, steps).value, Run(list, health, steps + [Call(c)] + more).value;
            && c in t.calls && t.calls[c] == EndOf(NextWord(list, s.health, s.counter).1)
            && (Smooth(|list|, s.counter, |list|) ==>
                  (t.calls[c].Failed? <==> forall i :: 0 <= i < |list| ==> !s.health[list[i]]))
  {
    hide Run;
    Extend(list, health, steps, Call(c));
    var s := Run(list, health, steps).value;
    if list == [] {
      more := [];
      assert steps + [Call(c)] + more == steps + [Call(c)];
    } else {
      CounterIsDraws(list, health, steps);
      WordErrorIff(list, s.health, s.counter);
      more := AloneIsProbe(list, health, steps + [Call(c)], c);
    }
  }

  /** No call but c draws. */
  predicate NoOtherDraw(steps: seq<Step>, c: nat) {
    forall i :: 0 <= i < |steps| ==> steps[i].Draw? ==> steps[i] == Draw(c)
  }

  /** The draws of a call that no other interrupts take consecutive positions, whatever happens to health. */
  ghost predicate InTurn(list: seq<nat>, first: nat, draws: nat, pc: Pc, found: seq<Reading>, drawn: nat)
    requires list != []
  {
    && (forall i :: 0 <= i < |found| ==> found[i].backend == list[Drawn(|list|, first, i)])
    && draws == |found| + (if pc.Checking? then 1 else 0)
    && (pc.Checking? ==> drawn == list[Drawn(|list|, first, |found|)])
  }

  lemma {:induction false} DrawnAt(list: seq<nat>, before: nat, i: nat)
    requires list != []
    ensures Slot(list, (before + i) % WORD) == list[Drawn(|list|, before % WORD, i)]
  {
    var q, r := before / WORD, before % WORD;
    assert before + i == (q + (r + i) / WORD) * WORD + (r + i) % WORD;
    DivModUnique(before + i, WORD, q + (r + i) / WORD, (r + i) % WORD);
  }

  lemma {:induction false} NoReadingsYet(list: seq<nat>, health: seq<bool>, pre: seq<Step>, c: nat)
    requires list != [] && Run(list, health, pre + [Call(c)]).Some?
    ensures Run(list, health, pre).Some? && c !in Run(list, health, pre).value.calls
    ensures var s := Run(list, health, pre + [Call(c)]).value; c in s.calls && s.calls[c] == Trying(|list|)
    ensures Readings(list, health, pre + [Call(c)], c) == [] && DrawsIn(pre + [Call(c)]) == DrawsIn(pre)
  {
    assert (pre + [Call(c)])[..|pre|] == pre;
    RunHistory(list, health, pre);
  }

  lemma {:induction false} InTurnStep(list: seq<nat>, health: seq<bool>, steps: seq<Step>, step: Step, s: State, c: nat,
                                      before: nat)
    requires list != [] && Enabled(list, s, step) && c in s.calls && (step.Draw? ==> step == Draw(c))
    requires DrawsIn(steps) >= before && s.counter == DrawsIn(steps) % WORD
    requires InTurn(list, before % WORD, DrawsIn(steps) - before, s.calls[c], Readings(list, health, steps, c),
                    LastDrawn(list, steps, c))
    ensures var t, all := Apply(list, s, step), steps + [step];
            && c in t.calls && DrawsIn(all) >= before
            && InTurn(list, before % WORD, DrawsIn(all) - before, t.calls[c], Readings(list, health, all, c),
                      LastDrawn(list, all, c))
  {
    hide Slot, Tick, Drawn, HealthAfter;
    var all := steps + [step];
    assert all[..|all| - 1] == steps;
    if step == Draw(c) { DrawnAt(list, before, DrawsIn(steps) - before); }
  }

  lemma {:induction false} StaysInTurn(list: seq<nat>, health: seq<bool>, pre: seq<Step>, c: nat, post: seq<Step>)
    requires list != [] && Run(list, health, pre + [Call(c)] + post).Some? && NoOtherDraw(post, c)
    ensures var all := pre + [Call(c)] + post;
            var s := Run(list, health, all).value;
            && c in s.calls && DrawsIn(all) >= DrawsIn(pre)
            && InTurn(list, DrawsIn(pre) % WORD, DrawsIn(all) - DrawsIn(pre), s.calls[c],
                      Readings(list, health, all, c), LastDrawn(list, all, c))
    decreases |post|
  {
    hide InTurn, Readings, LastDrawn, DrawsIn, Apply;
    var all := pre + [Call(c)] + post;
    if post == [] {
      assert all == pre + [Call(c)];
      NoReadingsYet(list, health, pre, c);
      StartsInTurn(list, DrawsIn(pre) % WORD, |list|, LastDrawn(list, all, c));
    } else {
      var n := |post| - 1;
      var was := pre + [Call(c)] + post[..n];
      assert all[..|all| - 1] == was && was + [post[n]] == all;
      StaysInTurn(list, health, pre, c, post[..n]);
      CounterIsDraws(list, health, was);
      InTurnStep(list, health, was, post[n], Run(list, health, was).value, c, DrawsIn(pre));
    }
  }

  lemma {:induction false} StartsInTurn(list: seq<nat>, first: nat, left: nat, drawn: nat)
    requires list != []
    ensures InTurn(list, first, 0, Trying(left), [], drawn)
  {
  }

  lemma {:induction false} CounterIsDraws(list: seq<nat>, health: seq<bool>, steps: seq<Step>)
    requires list != [] && Run(list, health, steps).Some?
    ensures Run(list, health, steps).value.counter == DrawsIn(steps) % WORD
  {
    RunHistory(list, health, steps);
  }

  /** If no other call draws during a call and the counter does not wrap, an error means that the call found every
      backend of the list unhealthy at some moment, however health changed meanwhile. */
  lemma {:induction false} AloneErrorSawAllDown(list: seq<nat>, health: seq<bool>, pre: seq<Step>, c: nat,
                                                post: seq<Step>, i: nat)
    requires |list| < WORD && Run(list, health, pre + [Call(c)] + post).Some?
    requires NoOtherDraw(post, c) && Smooth(|list|, DrawsIn(pre) % WORD, |list|) && i < |list|
    requires var s := Run(list, health, pre + [Call(c)] + post).value; c in s.calls && s.calls[c].Failed?
    ensures Reading(list[i], false) in Readings(list, health, pre + [Call(c)] + post, c)
  {
    hide Readings, DrawsIn, Drawn, Missed, Smooth, LastDrawn, Run;
    var n, first, all := |list|, DrawsIn(pre) % WORD, pre + [Call(c)] + post;
    StaysInTurn(list, health, pre, c, post);
    RunHistory(list, health, all);
    SmoothIff(n, first);
    var d := NotMissedIsDrawn(n, first, i);
    var found := Readings(list, health, all, c);
    assert found[d] == Reading(list[i], false);
  }

  // ---------- A call beside others ----------

  /** Other calls can take the next k values of the counter while call c waits. */
  lemma {:induction false} OthersDraw(list: seq<nat>, health: seq<bool>, steps: seq<Step>, c: nat, k: nat)
    returns (more: seq<Step>)
    requires list != [] && Run(list, health, steps).Some? && c in Run(list, health, steps).value.calls
    ensures Run(list, health, steps + more).Some? && NoMarks(more)
    ensures var s, t := Run(list, health, steps).value, Run(list, health, steps + more).value;
            && c in t.calls && t.calls[c] == s.calls[c] && t.health == s.health
            && t.counter == (s.counter + k) % WORD
    decreases k
  {
    hide Run, Slot, DrawsIn;
    var s := Run(list, health, steps).value;
    CounterIsDraws(list, health, steps);
    if k == 0 {
      more := [];
      assert steps + more == steps;
    } else {
      var d := FreshId(s.calls.Keys);
      Extend(list, health, steps, Call(d));
      Extend(list, health, steps + [Call(d)], Draw(d));
      var rest := OthersDraw(list, health, steps + [Call(d)] + [Draw(d)], c, k - 1);
      more := [Call(d)] + [Draw(d)] + rest;
      assert steps + [Call(d)] + [Draw(d)] + rest == steps + more;
      TickThen(s.counter, k);
    }
  }

  lemma {:induction false} TickThen(v: nat, k: nat)
    requires v < WORD && k > 0
    ensures (Tick(v) + (k - 1)) % WORD == (v + k) % WORD
  {
    if v + 1 == WORD {
      DivModUnique(v + k, WORD, (k - 1) / WORD + 1, (k - 1) % WORD);
    }
  }

  /** After so many draws the counter selects position j. */
  lemma {:induction false} TurnComes(v: nat, n: nat, j: nat) returns (k: nat)
    requires v < WORD && j < n < WORD
    ensures (v + k) % WORD % n == j
  {
    k := TurnsUntil(v, n, j);
    if v + k < WORD {
      DivModUnique(v + k, WORD, 0, v + k);
    } else {
      k := WORD - v + j;
      DivModUnique(v + k, WORD, 1, j);
      DivModUnique(j, n, 0, j);
    }
  }

  /** Beside others, a call can be made to draw one unhealthy position until it gives up, without any mark. */
  lemma {:induction false} CanExhaust(list: seq<nat>, health: seq<bool>, steps: seq<Step>, c: nat, j: nat)
    returns (more: seq<Step>)
    requires Run(list, health, steps).Some? && |list| < WORD && Fits(list, Run(list, health, steps).value.health)
    requires j < |list| && !Run(list, health, steps).value.health[list[j]]
    requires c in Run(list, health, steps).value.calls && Run(list, health, steps).value.calls[c].Trying?
    ensures Run(list, health, steps + more).Some? && NoMarks(more)
    ensures var t := Run(list, health, steps + more).value; c in t.calls && t.calls[c].Failed?
    decreases Run(list, health, steps).value.calls[c].left
  {
    hide Run, DrawsIn;
    CounterIsDraws(list, health, steps);
    var k := TurnComes(Run(list, health, steps).value.counter, |list|, j);
    var others := OthersDraw(list, health, steps, c, k);
    var two := [Draw(c)] + [Check(c)];
    assert Slot(list, Run(list, health, steps + others).value.counter) == list[j];
    Extend(list, health, steps + others, Draw(c));
    Extend(list, health, steps + others + [Draw(c)], Check(c));
    more := others + two;
    assert steps + others + [Draw(c)] + [Check(c)] == steps + more;
    if Run(list, health, steps + more).value.calls[c].Trying? {
      var rest := CanExhaust(list, health, steps + more, c, j);
      assert steps + more + rest == steps + (more + rest);
      more := more + rest;
    }
  }

  ghost predicate Fails(list: seq<nat>, health: seq<bool>, steps: seq<Step>, c: nat) {
    && Run(list, health, steps).Some? && c in Run(list, health, steps).value.calls
    && Run(list, health, steps).value.calls[c].Failed?
  }

  /** Whatever the healthy backends, and even if none is marked meanwhile, some interleaving makes a call report an
      error exactly when the list is empty or one backend in it is not healthy. */
  lemma {:induction false} CanFailIff(list: seq<nat>, health: seq<bool>)
    requires Fits(list, health) && |list| < WORD
    ensures (exists steps, c :: NoMarks(steps) && Fails(list, health, steps, c)) <==>
            list == [] || HasUnhealthy(list, health)
  {
    if steps, c :| NoMarks(steps) && Fails(list, health, steps, c) {
      RunOk(list, health, steps, c);
    }
    if list == [] || HasUnhealthy(list, health) {
      hide Run;
      var none: seq<Step> := [];
      NewBalancer(list, health, none);
      Extend(list, health, none, Call(0));
      var first := none + [Call(0)];
      if list == [] {
        assert NoMarks(first) && Fails(list, health, first, 0);
      } else {
        var j :| 0 <= j < |list| && !health[list[j]];
        var more := CanExhaust(list, health, first, 0, j);
        assert NoMarks(first + more) && Fails(list, health, first + more, 0);
      }
    }
  }

  lemma {:induction false} NewBalancer(list: seq<nat>, health: seq<bool>, none: seq<Step>)
    requires none == []
    ensures Run(list, health, none) == Some(State(0, health, map[]))
  {
  }
}
