/** What the samples of a MeterValues message mean, and that this is what is stored and published of them. */
module Readings {
  import opened Sequences
  import opened Ports
  import opened MeterStore
  import opened Handling

  /** The sample reads this amount: kilowatts of power drawn, watt-hours on the register, or amperes drawn. */
  predicate Means(sv: Sampled, q: Quantity, amount: real) {
    sv.number.Some? &&
    match q
    case PowerKW =>
      && sv.measurand == "Power.Active.Import"
      && (((sv.unit == "W" || sv.unit == "") && sv.number.value == 1000.0 * amount)
          || (sv.unit == "kW" && sv.number.value == amount))
    case EnergyWh =>
      && (sv.measurand == "Energy.Active.Import.Register" || sv.measurand == "")
      && (((sv.unit == "Wh" || sv.unit == "") && sv.number.value == amount)
          || (sv.unit == "kWh" && 1000.0 * sv.number.value == amount))
    case CurrentA =>
      sv.measurand == "Current.Import" && sv.number.value == amount
  }

  lemma ReadingIff(sv: Sampled, q: Quantity, amount: real)
    requires amount > 0.0
    ensures Reading(sv, q) == amount <==> Means(sv, q, amount)
  {
  }

  /** A sample is about one quantity and reads one amount of it. */
  lemma MeansOneThing(sv: Sampled, q: Quantity, q': Quantity, a: real, a': real)
    requires Means(sv, q, a) && Means(sv, q', a')
    ensures q == q' && a == a'
  {
  }

  function AmountOf(f: Fold, q: Quantity): real {
    match q
    case PowerKW => f.powerKW
    case EnergyWh => f.energyWh
    case CurrentA => f.currentA
  }

  /** The sample at i is the last of the message with a positive amount of this quantity. */
  ghost predicate LastOf(xs: seq<(int, Sampled)>, q: Quantity, i: nat, amount: real) {
    && i < |xs| && Means(xs[i].1, q, amount)
    && forall j, a: real :: i < j < |xs| && a > 0.0 ==> !Means(xs[j].1, q, a)
  }

  lemma NoneMeansNothing(xs: seq<(int, Sampled)>, q: Quantity, i: nat)
    requires i < |xs|
    ensures Reading(xs[i].1, q) <= 0.0 <==> forall a: real :: a > 0.0 ==> !Means(xs[i].1, q, a)
  {
    forall a: real | a > 0.0 ensures Means(xs[i].1, q, a) <==> Reading(xs[i].1, q) == a {
      ReadingIff(xs[i].1, q, a);
    }
    if Reading(xs[i].1, q) > 0.0 {
      assert Means(xs[i].1, q, Reading(xs[i].1, q));
    }
  }

  /**
   A message publishes a positive amount of a quantity exactly when that is what its last sample with a positive
   amount of it reads, whatever unit that is in, and 0 exactly when it has no such sample.
   */
  lemma {:induction false} PublishedIff(
    groups: seq<MeterGroup>, now: int, p: Target, sessionID: string, q: Quantity, amount: real)
    requires amount > 0.0
    ensures var xs, f := Samples(groups, now), Taken(Samples(groups, now), p, sessionID);
            && (AmountOf(f, q) == amount <==> exists i :: LastOf(xs, q, i, amount))
            && (AmountOf(f, q) == 0.0 <==> forall i, a: real :: 0 <= i < |xs| && a > 0.0 ==> !Means(xs[i].1, q, a))
            && AmountOf(f, q) >= 0.0
  {
    var xs := Samples(groups, now);
    LastPositiveMeaning(xs, q);
    forall i: nat | i < |xs|
      ensures Reading(xs[i].1, q) <= 0.0 <==> forall a: real :: a > 0.0 ==> !Means(xs[i].1, q, a)
      ensures Means(xs[i].1, q, amount) <==> Reading(xs[i].1, q) == amount
    {
      NoneMeansNothing(xs, q, i);
      ReadingIff(xs[i].1, q, amount);
    }
    if i :| LastOf(xs, q, i, amount) {
      LastOneWins(xs, q, i, amount);
    }
    if LastPositive(xs, q) > 0.0 {
      var i: nat :| i < |xs| && Reading(xs[i].1, q) == LastPositive(xs, q) &&
                    forall j :: i < j < |xs| ==> Reading(xs[j].1, q) <= 0.0;
      ReadingIff(xs[i].1, q, LastPositive(xs, q));
      assert LastPositive(xs, q) == amount ==> LastOf(xs, q, i, amount);
    }
  }

  lemma {:induction false} LastOneWins(xs: seq<(int, Sampled)>, q: Quantity, i: nat, amount: real)
    requires amount > 0.0 && LastOf(xs, q, i, amount)
    ensures LastPositive(xs, q) == amount
  {
    if i == |xs| - 1 {
      ReadingIff(xs[i].1, q, amount);
    } else {
      NoneMeansNothing(xs, q, |xs| - 1);
      LastOneWins(Front(xs), q, i, amount);
    }
  }

  // ---------------------------------------------------------------------------
  // Storage
  // ---------------------------------------------------------------------------

  /** What is stored of a sample: its own fields, a missing measurand being the energy register. */
  function ValueOf(sv: Sampled, p: Target, sessionID: string, ts: int): MeterValue
    requires sv.number.Some?
  {
    MeterValue(p.0, p.1, sessionID, ts,
               if sv.measurand == "" then "Energy.Active.Import.Register" else sv.measurand,
               sv.number.value, sv.unit, sv.phase)
  }

  /** The samples that are numbers. */
  function Numbers(xs: seq<(int, Sampled)>): (ys: seq<(int, Sampled)>)
    ensures forall i :: 0 <= i < |ys| ==> ys[i].1.number.Some?
  {
    if xs == [] then []
    else if Last(xs).1.number.Some? then Numbers(Front(xs)) + [Last(xs)]
    else Numbers(Front(xs))
  }

  /**
   Of the samples of a message exactly those that are numbers are stored, each once, in order, with its own fields.
   */
  lemma {:induction false} StoredExactly(xs: seq<(int, Sampled)>, p: Target, sessionID: string)
    ensures |AllStored(xs, p, sessionID)| == |Numbers(xs)|
    ensures forall i :: 0 <= i < |Numbers(xs)| ==>
              AllStored(xs, p, sessionID)[i] == ValueOf(Numbers(xs)[i].1, p, sessionID, Numbers(xs)[i].0)
  {
    if xs != [] {
      StoredExactly(Front(xs), p, sessionID);
    }
  }

  lemma {:induction false} StampedIs(g: MeterGroup, now: int, k: nat)
    requires k <= |g.samples|
    ensures |Stamped(g, now, k)| == k
    ensures forall i :: 0 <= i < k ==>
              Stamped(g, now, k)[i] == (if g.timestamp.Some? then g.timestamp.value else now, g.samples[i])
  {
    if k > 0 {
      StampedIs(g, now, k - 1);
    }
  }

  /** A message's samples are those of its groups one after the other, each with its group's time or that of arrival. */
  lemma {:induction false} SamplesInOrder(groups: seq<MeterGroup>, now: int, g: MeterGroup)
    ensures var before, all := Samples(groups, now), Samples(groups + [g], now);
            && before <= all && |all| == |before| + |g.samples|
            && forall i :: 0 <= i < |g.samples| ==>
                 all[|before| + i] == (if g.timestamp.Some? then g.timestamp.value else now, g.samples[i])
  {
    assert Front(groups + [g]) == groups;
    StampedIs(g, now, |g.samples|);
  }
}
