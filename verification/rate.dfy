/** The integer part of the network rate computation (src/main.rs:273-293): on each
    tick the interfaces' received and transmitted readings are summed, and the byte
    delta is the saturating difference between this tick's sum and the previous tick's,
    taken only once a previous sum exists for both directions. The previous sums are
    replaced on every tick. What the metrics library's readings count is outside the
    model: nothing here depends on whether they are running totals. The division by
    1024 and by the elapsed seconds is floating point and is not part of this module. */
module Rate {
  import opened Base

  /** `u64::saturating_sub`: the difference, or zero when the new sum is the smaller. */
  function SaturatingSub(a: nat, b: nat): (r: nat)
    ensures a >= b ==> b + r == a
    ensures a < b ==> r == 0
  {
    if a >= b then a - b else 0
  }

  /** The totals seen on the previous tick (`prev_total_received`, `prev_total_transmitted`). */
  datatype Counters = Counters(prevReceived: Option<nat>, prevTransmitted: Option<nat>)

  /** Before the first tick nothing has been seen. */
  const Start: Counters := Counters(None, None)

  /** Bytes received and transmitted since the previous tick. */
  datatype Deltas = Deltas(received: nat, transmitted: nat)

  /** The outcome of one tick: the totals to remember, and the deltas when there was a
      previous sample in both directions (otherwise both rates are `0.0`). */
  datatype RateStep = RateStep(next: Counters, deltas: Option<Deltas>)

  /** One tick of the rate estimator. */
  function Step(c: Counters, received: nat, transmitted: nat): (r: RateStep)
    ensures r.next == Counters(Some(received), Some(transmitted))
    ensures r.deltas.Some? <==> c.prevReceived.Some? && c.prevTransmitted.Some?
    ensures r.deltas.Some? && received >= c.prevReceived.value ==>
              c.prevReceived.value + r.deltas.value.received == received
    ensures r.deltas.Some? && received < c.prevReceived.value ==> r.deltas.value.received == 0
    ensures r.deltas.Some? && transmitted >= c.prevTransmitted.value ==>
              c.prevTransmitted.value + r.deltas.value.transmitted == transmitted
    ensures r.deltas.Some? && transmitted < c.prevTransmitted.value ==> r.deltas.value.transmitted == 0
  {
    var deltas :=
      if c.prevReceived.Some? && c.prevTransmitted.Some? then
        Some(Deltas(SaturatingSub(received, c.prevReceived.value),
                    SaturatingSub(transmitted, c.prevTransmitted.value)))
      else None;
    RateStep(Counters(Some(received), Some(transmitted)), deltas)
  }

  /** The first tick yields no rate, and every later tick yields one. */
  lemma FirstTickHasNoRate(received: nat, transmitted: nat, received': nat, transmitted': nat)
    ensures Step(Start, received, transmitted).deltas.None?
    ensures Step(Step(Start, received, transmitted).next, received', transmitted').deltas.Some?
  {
  }

  /** The bytes received counted over a run of ticks, each tick's totals given in order. */
  function ReceivedOver(c: Counters, totals: seq<(nat, nat)>): nat
    decreases |totals|
  {
    if |totals| == 0 then 0
    else
      var s := Step(c, totals[0].0, totals[0].1);
      (if s.deltas.Some? then s.deltas.value.received else 0) + ReceivedOver(s.next, totals[1..])
  }

  /** The received totals never go down along the run, starting from `from`. */
  predicate NonDecreasingFrom(from: nat, totals: seq<(nat, nat)>) {
    && (|totals| > 0 ==> from <= totals[0].0)
    && forall i :: 0 <= i < |totals| - 1 ==> totals[i].0 <= totals[i + 1].0
  }

  /** While the received sum never falls, the per-tick deltas add up to its overall
      growth: the subtraction neither loses nor double-counts a difference. */
  lemma {:induction false} DeltasTelescope(c: Counters, totals: seq<(nat, nat)>)
    requires c.prevReceived.Some? && c.prevTransmitted.Some?
    requires |totals| > 0
    requires NonDecreasingFrom(c.prevReceived.value, totals)
    ensures ReceivedOver(c, totals) == totals[|totals| - 1].0 - c.prevReceived.value
    decreases |totals|
  {
    var s := Step(c, totals[0].0, totals[0].1);
    if |totals| > 1 {
      assert NonDecreasingFrom(totals[0].0, totals[1..]) by {
        assert forall i :: 0 <= i < |totals[1..]| - 1 ==> totals[1..][i] == totals[i + 1];
      }
      DeltasTelescope(s.next, totals[1..]);
    }
  }
}
