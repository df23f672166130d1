/** Logical-effort sizing of the delay chain: how many inverter stages of a
    given fanout produce a required delay, an even-stage chain for the
    sense-enable path, and a balanced rise/fall fanout list.  Delays are in
    units of a minimum inverter's delay; `pinv` is the inverter's parasitic
    delay, a non-negative technology constant. */
module DelaySizing {
  import opened Results
  import opened Arith

  /** Slack factor on the wordline delay (`wl_timing_tolerance`). */
  const WlTimingTolerance: real := 1.0

  /** Fanout of every stage of the even-stage chain. */
  const DelayFanout: nat := 3

  /** Fanout difference above which the balancing loop falls back to the
      fanouts it recorded when the stage counts first came within one. */
  const WarningFanoutDiff: nat := 5

  /** Delay of one stage: the fanout load, the stage's own input, and the
      parasitic delay. */
  function StageDelay(fanout: nat, pinv: real): (d: real)
    requires pinv >= 0.0
    ensures d >= 1.0
  {
    fanout as real + 1.0 + pinv
  }

  /** `n` stages of one fanout produce at least `required`, or `required`
      is within one minimum stage, where any chain will do. */
  predicate Covers(n: int, fanout: nat, required: real, pinv: real)
    requires pinv >= 0.0
  {
    required <= 3.0 + pinv || n as real * StageDelay(fanout, pinv) >= required
  }

  /** `calculate_stages_with_fixed_fanout`: one stage when the requirement
      is within a minimum stage, otherwise the fewest stages of this fanout
      whose delay reaches the requirement. */
  function CalculateStagesWithFixedFanout(required: real, fanout: nat, pinv: real): (s: nat)
    requires pinv >= 0.0
    ensures s >= 1
    ensures required <= 3.0 + pinv ==> s == 1
    ensures required > 3.0 + pinv ==> s as real * StageDelay(fanout, pinv) >= required
    ensures required > 3.0 + pinv ==> (s - 1) as real * StageDelay(fanout, pinv) < required
  {
    if required <= 3.0 + pinv then 1
    else
      var d := StageDelay(fanout, pinv);
      CeilQuotient(required, d);
      Ceil(required / d)
  }

  /** The rounded-up quotient is the fewest whole stages of delay `d`
      reaching `required`. */
  lemma CeilQuotient(required: real, d: real)
    requires d > 0.0 && required > 0.0
    ensures Ceil(required / d) >= 1
    ensures Ceil(required / d) as real * d >= required
    ensures (Ceil(required / d) - 1) as real * d < required
  {
    var q := required / d;
    var s := Ceil(q);
    assert q * d == required;
    assert q <= s as real;
    StageBound(q, s as real, d);
    assert q * d <= s as real * d;
    assert (s - 1) as real < q;
    StageBound((s - 1) as real, q, d);
    assert (s - 1) as real * d < q * d;
    assert (s - 1) as real * d < required;
    assert (Ceil(required / d) - 1) as real * d < required;
  }

  /** Scaling both sides of `a <= b` by a positive stage delay. */
  lemma StageBound(a: real, b: real, d: real)
    requires d > 0.0
    ensures a <= b ==> a * d <= b * d
    ensures a < b ==> a * d < b * d
  {
  }

  /** Any stage count whose delay reaches the requirement is at least the
      computed one. */
  lemma StagesLeast(required: real, fanout: nat, pinv: real, n: nat)
    requires pinv >= 0.0
    requires required > 3.0 + pinv
    requires n as real * StageDelay(fanout, pinv) >= required
    ensures CalculateStagesWithFixedFanout(required, fanout, pinv) <= n
  {
    var s := CalculateStagesWithFixedFanout(required, fanout, pinv);
    var d := StageDelay(fanout, pinv);
    if s - 1 >= n {
      StageBound(n as real, (s - 1) as real, d);
      assert (s - 1) as real * d < required;
    }
  }

  /** A bound reached with the smaller of two stage delays is reached with
      the larger. */
  lemma ScaleLeft(c: real, a: real, b: real, r: real)
    requires c >= 0.0 && a <= b && r <= c * a
    ensures r <= c * b
  {
    assert c * b - c * a == c * (b - a);
  }

  lemma LessThrough(a: real, b: real, c: real)
    requires a <= b < c
    ensures a < c
  {
  }

  /** The stage count never grows when the fanout does. */
  lemma StagesAntitone(required: real, f1: nat, f2: nat, pinv: real)
    requires pinv >= 0.0
    requires f1 <= f2
    ensures CalculateStagesWithFixedFanout(required, f2, pinv) <= CalculateStagesWithFixedFanout(required, f1, pinv)
  {
    if required > 3.0 + pinv {
      var s1 := CalculateStagesWithFixedFanout(required, f1, pinv);
      var s2 := CalculateStagesWithFixedFanout(required, f2, pinv);
      var d1 := StageDelay(f1, pinv);
      var d2 := StageDelay(f2, pinv);
      ScaleLeft(s1 as real, d1, d2, required);
      StagesLeast(required, f2, pinv, s1);
    }
  }

  /** More than one stage means the fanout is still below the requirement. */
  lemma SeveralStagesBoundFanout(required: real, fanout: nat, pinv: real)
    requires pinv >= 0.0
    requires CalculateStagesWithFixedFanout(required, fanout, pinv) >= 2
    ensures fanout < Ceil(required)
  {
    var s := CalculateStagesWithFixedFanout(required, fanout, pinv);
    var d := StageDelay(fanout, pinv);
    assert required > 3.0 + pinv;
    StageBound(1.0, (s - 1) as real, d);
    assert 1.0 <= (s - 1) as real;
    assert 1.0 * d <= (s - 1) as real * d;
    assert (s - 1) as real * d < required;
    LessThrough(d, (s - 1) as real * d, required);
  }

  /** Requirement on a delay chain that follows an earlier chain of
      `previousStages` stages of `previousFanout`: the wordline delay,
      less the part of the sense-enable delay the earlier chain does not
      account for. */
  function RequiredDelay(wlDelay: real, senDelay: real, previousDelay: real): (r: real)
    ensures r > 0.0 <==> senDelay < wlDelay * WlTimingTolerance + previousDelay
  {
    wlDelay * WlTimingTolerance - (senDelay - previousDelay)
  }

  /** The requirement grows with the wordline delay and with the earlier
      chain, and shrinks as the sense-enable path gets slower. */
  lemma RequiredDelayMonotone(wlDelay: real, wlDelay': real, senDelay: real, senDelay': real,
                              previousDelay: real, previousDelay': real)
    requires wlDelay <= wlDelay' && senDelay' <= senDelay && previousDelay <= previousDelay'
    ensures RequiredDelay(wlDelay, senDelay, previousDelay) <= RequiredDelay(wlDelay', senDelay', previousDelay')
  {
  }

  /** `get_dynamic_delay_chain_size`: fails when the requirement is not
      positive; otherwise the least even number of fanout-3 stages whose
      delay reaches the requirement. */
  function DynamicDelayChainSize(wlDelay: real, senDelay: real, previousStages: nat,
                                 previousFanout: nat, pinv: real): (r: Result<(nat, nat), string>)
    requires pinv >= 0.0
    ensures var required := RequiredDelay(wlDelay, senDelay, previousStages as real * StageDelay(previousFanout, pinv));
      r.Success? <==> required > 0.0
    ensures var required := RequiredDelay(wlDelay, senDelay, previousStages as real * StageDelay(previousFanout, pinv));
      r.Success? ==>
        && r.value.1 == DelayFanout
        && r.value.0 >= 2 && r.value.0 % 2 == 0
        && r.value.0 as real * StageDelay(DelayFanout, pinv) >= required
        && (r.value.0 - 2) as real * StageDelay(DelayFanout, pinv) < required
  {
    var previousDelay := StageDelay(previousFanout, pinv) * previousStages as real;
    var required := RequiredDelay(wlDelay, senDelay, previousDelay);
    if required <= 0.0 then Failure("Cannot size delay chain to have negative delay")
    else
      var d := StageDelay(DelayFanout, pinv);
      CeilQuotient(required, d);
      var s := Ceil(required / d);
      assert s as real * d >= required;
      var even: nat := if s % 2 == 1 then s + 1 else s;
      assert s <= even && even - 2 <= s - 1;
      StageBound(s as real, even as real, d);
      assert even as real * d >= required;
      StageBound((even - 2) as real, (s - 1) as real, d);
      assert (even - 2) as real * d < required;
      Success((even, DelayFanout))
  }

  /** Outcome of the rise/fall balancing loop: the last stage counts it
      computed, the fanouts it settled on, and whether it fell back to the
      recorded safe fanouts. */
  datatype Balanced = Balanced(stagesFall: nat, stagesRise: nat,
                               fanoutFall: nat, fanoutRise: nat, restored: bool)

  function Max2(a: int, b: int): int {
    if a >= b then a else b
  }

  function Abs(a: int): nat {
    if a >= 0 then a else -a
  }

  /** Fanout steps left before the side with more stages stops having
      more. */
  function Gap(requiredFall: real, requiredRise: real, fanoutFall: nat, fanoutRise: nat, pinv: real): nat
    requires pinv >= 0.0
  {
    var sf := CalculateStagesWithFixedFanout(requiredFall, fanoutFall, pinv);
    var sr := CalculateStagesWithFixedFanout(requiredRise, fanoutRise, pinv);
    if sf > sr && Ceil(requiredFall) > fanoutFall then Ceil(requiredFall) - fanoutFall
    else if sr > sf && Ceil(requiredRise) > fanoutRise then Ceil(requiredRise) - fanoutRise
    else 0
  }

  /** The `while True` loop of `get_dynamic_delay_fanout_list`: raise the
      fanout of whichever edge needs more stages until the stage counts
      agree; the first time they are within one, record the fanouts, and if
      they are within one while the fanouts differ by more than
      WarningFanoutDiff, fall back to the recorded fanouts and stop. */
  function Balance(requiredFall: real, requiredRise: real, pinv: real,
                   fanoutFall: nat, fanoutRise: nat,
                   close: bool, safeFall: nat, safeRise: nat): (r: Balanced)
    requires pinv >= 0.0
    requires close ==> safeFall <= fanoutFall && safeRise <= fanoutRise
    ensures fanoutFall <= r.fanoutFall || r.restored
    ensures fanoutRise <= r.fanoutRise || r.restored
    ensures r.stagesFall == CalculateStagesWithFixedFanout(requiredFall, r.fanoutFall, pinv) || r.restored
    ensures r.stagesRise == CalculateStagesWithFixedFanout(requiredRise, r.fanoutRise, pinv) || r.restored
    ensures !r.restored ==> r.stagesFall == r.stagesRise
    ensures r.restored ==> Abs(r.stagesFall - r.stagesRise) == 1
    decreases Max2(CalculateStagesWithFixedFanout(requiredFall, fanoutFall, pinv),
                   CalculateStagesWithFixedFanout(requiredRise, fanoutRise, pinv)),
              Gap(requiredFall, requiredRise, fanoutFall, fanoutRise, pinv)
  {
    var sf := CalculateStagesWithFixedFanout(requiredFall, fanoutFall, pinv);
    var sr := CalculateStagesWithFixedFanout(requiredRise, fanoutRise, pinv);
    var firstClose := Abs(sf - sr) == 1 && !close;
    var close' := close || firstClose;
    var safeFall' := if firstClose then fanoutFall else safeFall;
    var safeRise' := if firstClose then fanoutRise else safeRise;
    if sf == sr then
      Balanced(sf, sr, fanoutFall, fanoutRise, false)
    else if Abs(sf - sr) == 1 && WarningFanoutDiff < Abs(fanoutFall - fanoutRise) then
      Balanced(sf, sr, safeFall', safeRise', true)
    else if sf > sr then
      StagesAntitone(requiredFall, fanoutFall, fanoutFall + 1, pinv);
      SeveralStagesBoundFanout(requiredFall, fanoutFall, pinv);
      Balance(requiredFall, requiredRise, pinv, fanoutFall + 1, fanoutRise, close', safeFall', safeRise')
    else
      StagesAntitone(requiredRise, fanoutRise, fanoutRise + 1, pinv);
      SeveralStagesBoundFanout(requiredRise, fanoutRise, pinv);
      Balance(requiredFall, requiredRise, pinv, fanoutFall, fanoutRise + 1, close', safeFall', safeRise')
  }

  /** Creates the interleaved fanout list: fall stages at even positions,
      rise stages at odd ones. */
  function Interleave(n: nat, fanoutFall: nat, fanoutRise: nat): (s: seq<nat>)
    ensures |s| == n
    ensures forall i :: 0 <= i < n ==> s[i] == if i % 2 == 0 then fanoutFall else fanoutRise
  {
    seq(n, i requires 0 <= i < n => if i % 2 == 0 then fanoutFall else fanoutRise)
  }

  /** Starting fanout of both edges. */
  const StartFanout: nat := 2

  /** The requirement on each edge: the wordline delay less the
      sense-enable delay not already covered by half the earlier chain.
      Crediting only half, it never exceeds the requirement computed with
      the whole earlier chain, and equals it only when there is none. */
  function EdgeRequirement(wlDelay: real, senDelay: real, previousStages: nat,
                           previousFanout: nat, pinv: real): (r: real)
    requires pinv >= 0.0
    ensures var full := RequiredDelay(wlDelay, senDelay, previousStages as real * StageDelay(previousFanout, pinv));
      r <= full && (r == full <==> previousStages == 0)
  {
    RequiredDelay(wlDelay, senDelay, StageDelay(previousFanout, pinv) * previousStages as real / 2.0)
  }

  /** `get_dynamic_delay_fanout_list` as written: twice as many stages as
      the larger of the loop's last stage counts, with the loop's final
      fanouts, even after it fell back to the smaller recorded ones. */
  function DynamicDelayFanoutListAsWritten(requiredFall: real, requiredRise: real, pinv: real): (s: seq<nat>)
    requires pinv >= 0.0
    ensures var b := Balance(requiredFall, requiredRise, pinv, StartFanout, StartFanout, false, 0, 0);
      && |s| == 2 * Max2(b.stagesFall, b.stagesRise)
      && forall i :: 0 <= i < |s| ==> s[i] == if i % 2 == 0 then b.fanoutFall else b.fanoutRise
  {
    var b := Balance(requiredFall, requiredRise, pinv, StartFanout, StartFanout, false, 0, 0);
    Interleave(2 * Max2(b.stagesFall, b.stagesRise), b.fanoutFall, b.fanoutRise)
  }

  /** `get_dynamic_delay_fanout_list` with the stage counts recomputed for
      the fanouts the list is built from. */
  function DynamicDelayFanoutList(requiredFall: real, requiredRise: real, pinv: real): (s: seq<nat>)
    requires pinv >= 0.0
    ensures var b := Balance(requiredFall, requiredRise, pinv, StartFanout, StartFanout, false, 0, 0);
      && |s| % 2 == 0
      && forall i :: 0 <= i < |s| ==> s[i] == if i % 2 == 0 then b.fanoutFall else b.fanoutRise
  {
    var b := Balance(requiredFall, requiredRise, pinv, StartFanout, StartFanout, false, 0, 0);
    var sf := CalculateStagesWithFixedFanout(requiredFall, b.fanoutFall, pinv);
    var sr := CalculateStagesWithFixedFanout(requiredRise, b.fanoutRise, pinv);
    Interleave(2 * Max2(sf, sr), b.fanoutFall, b.fanoutRise)
  }

  /** Delay through the stages at even (`parity` 0) or odd (`parity` 1)
      positions of a fanout list. */
  function EdgeDelay(s: seq<nat>, parity: nat, pinv: real): real
    requires pinv >= 0.0
    requires parity < 2
  {
    if |s| == 0 then 0.0
    else
      var here := if (|s| - 1) % 2 == parity then StageDelay(s[|s| - 1], pinv) else 0.0;
      EdgeDelay(s[..|s| - 1], parity, pinv) + here
  }

  /** In an interleaved list of `2n` stages, each edge passes `n` stages of
      its own fanout. */
  lemma {:induction false} EdgeDelayInterleave(n: nat, fanoutFall: nat, fanoutRise: nat, pinv: real)
    requires pinv >= 0.0
    ensures EdgeDelay(Interleave(2 * n, fanoutFall, fanoutRise), 0, pinv) == n as real * StageDelay(fanoutFall, pinv)
    ensures EdgeDelay(Interleave(2 * n, fanoutFall, fanoutRise), 1, pinv) == n as real * StageDelay(fanoutRise, pinv)
  {
    if n > 0 {
      var fall, rise := StageDelay(fanoutFall, pinv), StageDelay(fanoutRise, pinv);
      var u := Interleave(2 * (n - 1), fanoutFall, fanoutRise);
      InterleavePair(n - 1, fanoutFall, fanoutRise);
      EdgeDelayPair(u, fanoutFall, fanoutRise, pinv);
      EdgeDelayInterleave(n - 1, fanoutFall, fanoutRise, pinv);
      OneMore(n, fall);
      OneMore(n, rise);
    }
  }

  lemma InterleavePair(n: nat, fanoutFall: nat, fanoutRise: nat)
    ensures Interleave(2 * n + 2, fanoutFall, fanoutRise)
         == Interleave(2 * n, fanoutFall, fanoutRise) + [fanoutFall, fanoutRise]
  {
    assert (2 * n) % 2 == 0 && (2 * n + 1) % 2 == 1;
  }

  lemma OneMore(n: nat, d: real)
    requires n > 0
    ensures (n - 1) as real * d + d == n as real * d
  {
  }

  /** Appending a (fall, rise) pair to a list of whole pairs adds one stage
      to each edge. */
  lemma EdgeDelayPair(u: seq<nat>, a: nat, b: nat, pinv: real)
    requires pinv >= 0.0
    requires |u| % 2 == 0
    ensures EdgeDelay(u + [a, b], 0, pinv) == EdgeDelay(u, 0, pinv) + StageDelay(a, pinv)
    ensures EdgeDelay(u + [a, b], 1, pinv) == EdgeDelay(u, 1, pinv) + StageDelay(b, pinv)
  {
    assert (u + [a, b])[..|u| + 1] == u + [a];
    assert (u + [a])[..|u|] == u;
  }

  /** A fanout list meets both requirements: the fall edge through the
      even positions, the rise edge through the odd ones. */
  predicate ListCovers(s: seq<nat>, requiredFall: real, requiredRise: real, pinv: real)
    requires pinv >= 0.0
  {
    && (requiredFall <= 3.0 + pinv || EdgeDelay(s, 0, pinv) >= requiredFall)
    && (requiredRise <= 3.0 + pinv || EdgeDelay(s, 1, pinv) >= requiredRise)
  }

  /** An interleaved list with at least as many stage pairs as either
      edge needs meets both requirements. */
  lemma InterleaveCovers(n: nat, fanoutFall: nat, fanoutRise: nat,
                         requiredFall: real, requiredRise: real, pinv: real)
    requires pinv >= 0.0
    requires CalculateStagesWithFixedFanout(requiredFall, fanoutFall, pinv) <= n
    requires CalculateStagesWithFixedFanout(requiredRise, fanoutRise, pinv) <= n
    ensures ListCovers(Interleave(2 * n, fanoutFall, fanoutRise), requiredFall, requiredRise, pinv)
  {
    EdgeDelayInterleave(n, fanoutFall, fanoutRise, pinv);
    EdgeCovers(n, fanoutFall, requiredFall, pinv);
    EdgeCovers(n, fanoutRise, requiredRise, pinv);
  }

  lemma EdgeCovers(n: nat, fanout: nat, required: real, pinv: real)
    requires pinv >= 0.0
    requires CalculateStagesWithFixedFanout(required, fanout, pinv) <= n
    ensures required <= 3.0 + pinv || n as real * StageDelay(fanout, pinv) >= required
  {
    var s := CalculateStagesWithFixedFanout(required, fanout, pinv);
    StageBound(s as real, n as real, StageDelay(fanout, pinv));
  }

  /** The corrected list always meets both requirements. */
  lemma FanoutListCovers(requiredFall: real, requiredRise: real, pinv: real)
    requires pinv >= 0.0
    ensures ListCovers(DynamicDelayFanoutList(requiredFall, requiredRise, pinv), requiredFall, requiredRise, pinv)
  {
    var b := Balance(requiredFall, requiredRise, pinv, StartFanout, StartFanout, false, 0, 0);
    var sf := CalculateStagesWithFixedFanout(requiredFall, b.fanoutFall, pinv);
    var sr := CalculateStagesWithFixedFanout(requiredRise, b.fanoutRise, pinv);
    InterleaveCovers(Max2(sf, sr), b.fanoutFall, b.fanoutRise, requiredFall, requiredRise, pinv);
  }

  /** Without the fallback the list as written meets both requirements,
      and agrees with the corrected one. */
  lemma AsWrittenCoversUnlessRestored(requiredFall: real, requiredRise: real, pinv: real)
    requires pinv >= 0.0
    requires !Balance(requiredFall, requiredRise, pinv, StartFanout, StartFanout, false, 0, 0).restored
    ensures DynamicDelayFanoutListAsWritten(requiredFall, requiredRise, pinv)
            == DynamicDelayFanoutList(requiredFall, requiredRise, pinv)
    ensures ListCovers(DynamicDelayFanoutListAsWritten(requiredFall, requiredRise, pinv),
                       requiredFall, requiredRise, pinv)
  {
    FanoutListCovers(requiredFall, requiredRise, pinv);
  }

  /** With a parasitic delay of 0.5, a fall requirement of 161.5 and a
      rise requirement of 63 (a wordline fall delay of 161.5 and rise delay
      of 63, no sense-enable delay and no earlier chain), the loop raises
      the fall fanout to 8, finds 17 against 18 stages with fanouts 8 and 2,
      and falls back to fanouts 7 and 2 while keeping 18 stage pairs:
      18 fall stages of fanout 7 give 153, short of 161.5. */
  lemma AsWrittenFallChainTooShort()
    ensures EdgeRequirement(161.5, 0.0, 0, 0, 0.5) == 161.5
    ensures EdgeRequirement(63.0, 0.0, 0, 0, 0.5) == 63.0
    ensures Balance(161.5, 63.0, 0.5, StartFanout, StartFanout, false, 0, 0).restored
    ensures |DynamicDelayFanoutListAsWritten(161.5, 63.0, 0.5)| == 36
    ensures !ListCovers(DynamicDelayFanoutListAsWritten(161.5, 63.0, 0.5), 161.5, 63.0, 0.5)
    ensures ListCovers(DynamicDelayFanoutList(161.5, 63.0, 0.5), 161.5, 63.0, 0.5)
  {
    assert CalculateStagesWithFixedFanout(63.0, 2, 0.5) == 18;
    assert CalculateStagesWithFixedFanout(161.5, 2, 0.5) == 47;
    assert CalculateStagesWithFixedFanout(161.5, 3, 0.5) == 36;
    assert CalculateStagesWithFixedFanout(161.5, 4, 0.5) == 30;
    assert CalculateStagesWithFixedFanout(161.5, 5, 0.5) == 25;
    assert CalculateStagesWithFixedFanout(161.5, 6, 0.5) == 22;
    assert CalculateStagesWithFixedFanout(161.5, 7, 0.5) == 19;
    assert CalculateStagesWithFixedFanout(161.5, 8, 0.5) == 17;
    var b := Balance(161.5, 63.0, 0.5, 8, 2, true, 7, 2);
    assert b == Balanced(17, 18, 7, 2, true);
    assert Balance(161.5, 63.0, 0.5, 7, 2, false, 0, 0) == b;
    assert Balance(161.5, 63.0, 0.5, 6, 2, false, 0, 0) == b;
    assert Balance(161.5, 63.0, 0.5, 5, 2, false, 0, 0) == b;
    assert Balance(161.5, 63.0, 0.5, 4, 2, false, 0, 0) == b;
    assert Balance(161.5, 63.0, 0.5, 3, 2, false, 0, 0) == b;
    assert Balance(161.5, 63.0, 0.5, 2, 2, false, 0, 0) == b;
    EdgeDelayInterleave(18, 7, 2, 0.5);
    FanoutListCovers(161.5, 63.0, 0.5);
  }
}
