/** The derived values shown and broadcast: gestation progress, and the
    human-readable remaining-time text. */
module Progress {
  import opened Wrappers
  import opened Decimal
  import opened Gestation
  import opened ChildRecord

  /** The gestation length in seconds: duration times the unit's seconds. */
  function TotalSeconds(c: ChildInfo): real {
    c.gestationTime * SecondsPerUnit(c.gestation) as real
  }

  /** A progress value: a number, or the negative infinity that dividing a
      negative elapsed time by a positive zero length gives. */
  datatype Fraction = Finite(value: real) | NegativeInfinity

  /** `get_gestation_progress_fraction`: elapsed over total, capped at 1; 0
      without children or without a conception time. With a positive zero
      length the division gives infinity (capped to 1), NaN at zero elapsed
      time (which `f64::min` also turns into 1), or negative infinity before
      the conception time. */
  function ProgressFraction(cell: Cell, now: int): (r: Fraction)
    ensures r.Finite? ==> r.value <= 1.0
    ensures CountOf(cell) == 0 || ConceptionOf(cell).None? ==> r == Finite(0.0)
    ensures r.NegativeInfinity? <==>
              CountOf(cell) > 0 && ConceptionOf(cell).Some? && TotalSeconds(cell.value) == 0.0
              && now < ConceptionOf(cell).value
    ensures (CountOf(cell) > 0 && ConceptionOf(cell).Some? && TotalSeconds(cell.value) == 0.0
             && now >= ConceptionOf(cell).value) ==> r == Finite(1.0)
    ensures CountOf(cell) > 0 && ConceptionOf(cell).Some? && TotalSeconds(cell.value) > 0.0 ==>
              && r.Finite?
              && (now >= ConceptionOf(cell).value ==> r.value >= 0.0)
              && (r.value == 1.0 <==> (now - ConceptionOf(cell).value) as real >= TotalSeconds(cell.value))
  {
    if CountOf(cell) == 0 then Finite(0.0)
    else
      var total := TotalSeconds(cell.value);
      match ConceptionOf(cell)
      case None => Finite(0.0)
      case Some(t) =>
        if total == 0.0 then
          if now - t >= 0 then Finite(1.0) else NegativeInfinity
        else
          var ratio := (now - t) as real / total;
          RatioAtLeastOne(now - t, total);
          Finite(if ratio < 1.0 then ratio else 1.0)
  }

  lemma RatioAtLeastOne(elapsed: int, total: real)
    requires total != 0.0
    ensures total > 0.0 ==> (elapsed as real / total >= 1.0 <==> elapsed as real >= total)
    ensures total > 0.0 && elapsed >= 0 ==> elapsed as real / total >= 0.0
  {
    if total > 0.0 {
      var q := elapsed as real / total;
      assert q * total == elapsed as real;
      if q >= 1.0 {
        assert q * total >= 1.0 * total;
      } else {
        assert q * total < 1.0 * total;
      }
    }
  }

  /** With a positive length, progress never decreases as time passes. */
  lemma {:induction false} ProgressMonotone(cell: Cell, now1: int, now2: int)
    requires cell.Some? && TotalSeconds(cell.value) > 0.0
    requires now1 <= now2
    ensures ProgressFraction(cell, now1).value <= ProgressFraction(cell, now2).value
  {
    if CountOf(cell) > 0 && ConceptionOf(cell).Some? {
      var t := ConceptionOf(cell).value;
      var total := TotalSeconds(cell.value);
      var q1 := (now1 - t) as real / total;
      var q2 := (now2 - t) as real / total;
      DivideMonotone((now1 - t) as real, (now2 - t) as real, total);
      assert ProgressFraction(cell, now1) == Finite(if q1 < 1.0 then q1 else 1.0);
      assert ProgressFraction(cell, now2) == Finite(if q2 < 1.0 then q2 else 1.0);
    }
  }

  /** Dividing by a positive number keeps the order. */
  lemma DivideMonotone(a: real, b: real, d: real)
    requires a <= b && d > 0.0
    ensures a / d <= b / d
  {
  }

  // ---------------------------------------------------------------------
  // format_duration_human

  const SecondsPerMonth: nat := 2592000
  const SecondsPerDay: nat := 86400
  const SecondsPerHour: nat := 3600
  const SecondsPerMinute: nat := 60

  /** A duration split into 30-day months, days, hours, minutes and seconds. */
  datatype Breakdown = Breakdown(months: nat, days: nat, hours: nat, minutes: nat, seconds: nat)

  /** Every component below months is smaller than the next unit up. */
  predicate Normal(b: Breakdown) {
    b.days < 30 && b.hours < 24 && b.minutes < 60 && b.seconds < 60
  }

  /** The number of seconds a breakdown stands for. */
  function TotalOf(b: Breakdown): nat {
    b.months * SecondsPerMonth + b.days * SecondsPerDay + b.hours * SecondsPerHour
      + b.minutes * SecondsPerMinute + b.seconds
  }

  /** The arithmetic of `format_duration_human`: negative durations count as
      zero, then each unit takes what it can from the remainder. */
  function Decompose(secs: int): (b: Breakdown)
    ensures Normal(b)
    ensures TotalOf(b) == if secs > 0 then secs else 0
  {
    var s0: nat := if secs > 0 then secs else 0;
    var months := s0 / SecondsPerMonth;
    var s1 := s0 % SecondsPerMonth;
    var days := s1 / SecondsPerDay;
    var s2 := s1 % SecondsPerDay;
    var hours := s2 / SecondsPerHour;
    var s3 := s2 % SecondsPerHour;
    var minutes := s3 / SecondsPerMinute;
    var seconds := s3 % SecondsPerMinute;
    assert s1 < 30 * SecondsPerDay;
    assert s2 < 24 * SecondsPerHour;
    assert s3 < 60 * SecondsPerMinute;
    Breakdown(months, days, hours, minutes, seconds)
  }

  /** Quotient and remainder are the only such pair. */
  lemma DivModUnique(n: nat, d: nat, q: nat, r: nat)
    requires d > 0 && r < d && n == q * d + r
    ensures n / d == q && n % d == r
  {
    var q', r' := n / d, n % d;
    assert (q - q') * d == r' - r;
    if q > q' {
      MulAtLeast(q - q', d);
    } else if q < q' {
      MulAtLeast(q' - q, d);
    }
  }

  lemma MulAtLeast(x: int, d: int)
    requires x >= 1 && d >= 0
    ensures x * d >= d
  {
  }

  /** The normal breakdown of a duration is unique: decomposing the total of
      a normal breakdown gives that breakdown. */
  lemma DecomposeTotal(b: Breakdown)
    requires Normal(b)
    ensures Decompose(TotalOf(b)) == b
  {
    var n := TotalOf(b);
    var r3 := b.minutes * SecondsPerMinute + b.seconds;
    var r2 := b.hours * SecondsPerHour + r3;
    var r1 := b.days * SecondsPerDay + r2;
    assert r3 < SecondsPerHour;
    assert r2 < SecondsPerDay;
    assert r1 < SecondsPerMonth;
    DivModUnique(n, SecondsPerMonth, b.months, r1);
    DivModUnique(r1, SecondsPerDay, b.days, r2);
    DivModUnique(r2, SecondsPerHour, b.hours, r3);
    DivModUnique(r3, SecondsPerMinute, b.minutes, b.seconds);
  }

  /** "n unit", with an "s" unless n is 1. */
  function UnitPhrase(n: nat, unit: string): string {
    NatToString(n) + " " + unit + (if n != 1 then "s" else "")
  }

  /** A phrase is the decimal of its count, which reads back as the count, a
      space, then the unit name, plural unless the count is 1. */
  lemma UnitPhraseShape(n: nat, unit: string)
    ensures var p, k := UnitPhrase(n, unit), |NatToString(n)|;
            && k < |p| && p[..k] == NatToString(n) && p[k] == ' '
            && AllDigits(p[..k]) && DigitsValue(p[..k]) == n
            && p[k + 1..] == if n == 1 then unit else unit + "s"
  {
    NatToStringRoundTrip(n);
  }

  /** The components of a breakdown with their unit names, largest first. */
  function Components(b: Breakdown): seq<(nat, string)> {
    [(b.months, "month"), (b.days, "day"), (b.hours, "hour"), (b.minutes, "minute"), (b.seconds, "second")]
  }

  /** The components whose count is not zero, in order. */
  function NonZero(cs: seq<(nat, string)>): (r: seq<(nat, string)>)
    ensures |r| <= |cs|
    ensures forall i :: 0 <= i < |r| ==> r[i].0 > 0
  {
    if |cs| == 0 then []
    else (if cs[0].0 > 0 then [cs[0]] else []) + NonZero(cs[1..])
  }

  /** One phrase per component. */
  function Render(cs: seq<(nat, string)>): (ps: seq<string>)
    ensures |ps| == |cs|
    ensures forall i :: 0 <= i < |cs| ==> ps[i] == UnitPhrase(cs[i].0, cs[i].1)
  {
    if |cs| == 0 then [] else [UnitPhrase(cs[0].0, cs[0].1)] + Render(cs[1..])
  }

  /** The phrases of the non-zero components, largest unit first; seconds
      also appear when nothing else does. */
  function Phrases(b: Breakdown): (ps: seq<string>)
    ensures 1 <= |ps| <= 5
  {
    var ps := (if b.months > 0 then [UnitPhrase(b.months, "month")] else [])
      + (if b.days > 0 then [UnitPhrase(b.days, "day")] else [])
      + (if b.hours > 0 then [UnitPhrase(b.hours, "hour")] else [])
      + (if b.minutes > 0 then [UnitPhrase(b.minutes, "minute")] else []);
    if b.seconds > 0 || |ps| == 0 then ps + [UnitPhrase(b.seconds, "second")] else ps
  }

  /** `parts.join(sep)`. */
  function Join(parts: seq<string>, sep: string): string {
    if |parts| == 0 then ""
    else if |parts| == 1 then parts[0]
    else parts[0] + sep + Join(parts[1..], sep)
  }

  /** `format_duration_human`, on a duration in whole seconds: "0 seconds"
      for a duration of zero or less, otherwise the phrases of the non-zero
      components of its decomposition, joined by ", ". */
  function FormatDurationHuman(secs: int): (s: string)
    ensures secs <= 0 ==> s == "0 seconds"
    ensures secs > 0 ==> |NonZero(Components(Decompose(secs)))| >= 1
    ensures secs > 0 ==> s == Join(Render(NonZero(Components(Decompose(secs)))), ", ")
  {
    var b := Decompose(secs);
    assert secs <= 0 ==> b == Breakdown(0, 0, 0, 0, 0);
    assert NatToString(0) == "0";
    NonZeroEmpty(b);
    PhrasesMatchComponents(b);
    Join(Phrases(b), ", ")
  }

  /** The number of components a breakdown shows. */
  function Shown(b: Breakdown): nat {
    (if b.months > 0 then 1 else 0) + (if b.days > 0 then 1 else 0) + (if b.hours > 0 then 1 else 0)
      + (if b.minutes > 0 then 1 else 0) + (if b.seconds > 0 then 1 else 0)
  }

  /** One phrase per non-zero component, or the single zero-seconds phrase. */
  lemma PhraseCount(b: Breakdown)
    ensures |Phrases(b)| == if Shown(b) == 0 then 1 else Shown(b)
    ensures Shown(b) == 0 ==> Phrases(b) == [UnitPhrase(0, "second")]
  {
  }

  /** A component's place in the list: itself when non-zero, else nothing. */
  function Keep(n: nat, unit: string): seq<(nat, string)> {
    if n > 0 then [(n, unit)] else []
  }

  lemma NonZeroCons(x: (nat, string), rest: seq<(nat, string)>)
    ensures NonZero([x] + rest) == Keep(x.0, x.1) + NonZero(rest)
  {
    assert ([x] + rest)[1..] == rest;
  }

  lemma RenderAppend(a: seq<(nat, string)>, b: seq<(nat, string)>)
    ensures Render(a + b) == Render(a) + Render(b)
  {
    assert forall i :: 0 <= i < |a + b| ==> (a + b)[i] == if i < |a| then a[i] else b[i - |a|];
  }

  /** The non-zero components of a breakdown, in order. */
  lemma {:induction false} PhrasesByComponent(b: Breakdown)
    ensures NonZero(Components(b))
         == Keep(b.months, "month") + (Keep(b.days, "day") + (Keep(b.hours, "hour")
            + (Keep(b.minutes, "minute") + Keep(b.seconds, "second"))))
  {
    var c5: seq<(nat, string)> := [(b.seconds, "second")];
    var c4 := [(b.minutes, "minute")] + c5;
    var c3 := [(b.hours, "hour")] + c4;
    var c2 := [(b.days, "day")] + c3;
    assert Components(b) == [(b.months, "month")] + c2;
    NonZeroCons((b.seconds, "second"), []);
    assert [(b.seconds, "second")] + [] == c5;
    assert NonZero(c5) == Keep(b.seconds, "second");
    NonZeroCons((b.minutes, "minute"), c5);
    NonZeroCons((b.hours, "hour"), c4);
    NonZeroCons((b.days, "day"), c3);
    NonZeroCons((b.months, "month"), c2);
  }

  lemma RenderKeep(n: nat, unit: string)
    ensures Render(Keep(n, unit)) == if n > 0 then [UnitPhrase(n, unit)] else []
  {
  }

  /** The body of `Phrases` in terms of the rendered components. */
  lemma PhrasesAsRendered(b: Breakdown)
    ensures var ps := Render(Keep(b.months, "month")) + Render(Keep(b.days, "day"))
                      + Render(Keep(b.hours, "hour")) + Render(Keep(b.minutes, "minute"));
            Phrases(b) == if b.seconds > 0 || |ps| == 0 then ps + [UnitPhrase(b.seconds, "second")] else ps
  {
    RenderKeep(b.months, "month");
    RenderKeep(b.days, "day");
    RenderKeep(b.hours, "hour");
    RenderKeep(b.minutes, "minute");
  }

  /** Rendering the non-zero components, one component at a time. */
  lemma {:induction false} NonZeroRendered(b: Breakdown)
    ensures Render(NonZero(Components(b)))
         == Render(Keep(b.months, "month")) + Render(Keep(b.days, "day")) + Render(Keep(b.hours, "hour"))
            + Render(Keep(b.minutes, "minute")) + Render(Keep(b.seconds, "second"))
  {
    PhrasesByComponent(b);
    var k1, k2, k3, k4, k5 := Keep(b.months, "month"), Keep(b.days, "day"), Keep(b.hours, "hour"),
                              Keep(b.minutes, "minute"), Keep(b.seconds, "second");
    RenderAppend(k1, k2 + (k3 + (k4 + k5)));
    RenderAppend(k2, k3 + (k4 + k5));
    RenderAppend(k3, k4 + k5);
    RenderAppend(k4, k5);
    Associate(Render(k1), Render(k2), Render(k3), Render(k4), Render(k5));
  }

  /** The phrases are those of the non-zero components, largest unit first,
      each "n unit" with the plural rule of `UnitPhrase`; a breakdown with no
      non-zero component reads as the single phrase "0 seconds". */
  lemma {:induction false} PhrasesMatchComponents(b: Breakdown)
    ensures Phrases(b) == if |NonZero(Components(b))| == 0 then [UnitPhrase(0, "second")]
                          else Render(NonZero(Components(b)))
  {
    PhrasesAsRendered(b);
    NonZeroRendered(b);
    RenderKeep(b.seconds, "second");
    var ps := Render(Keep(b.months, "month")) + Render(Keep(b.days, "day"))
              + Render(Keep(b.hours, "hour")) + Render(Keep(b.minutes, "minute"));
    var rs := Render(NonZero(Components(b)));
    assert |rs| == |NonZero(Components(b))|;
    if b.seconds > 0 {
      assert rs == ps + [UnitPhrase(b.seconds, "second")];
    } else {
      assert rs == ps + [];
      assert ps + [] == ps;
    }
  }

  lemma Associate<T>(a: seq<T>, b: seq<T>, c: seq<T>, d: seq<T>, e: seq<T>)
    ensures a + (b + (c + (d + e))) == a + b + c + d + e
  {
  }

  /** No component is shown only when the breakdown stands for zero seconds. */
  lemma NonZeroEmpty(b: Breakdown)
    ensures |NonZero(Components(b))| == 0 <==> TotalOf(b) == 0
  {
    PhrasesByComponent(b);
  }

  /** The example of the source's doc comment: 5457906 seconds reads as the
      phrases "2 months", "3 days", "4 hours", "5 minutes", "6 seconds". */
  lemma FormatDocExample()
    ensures FormatDurationHuman(5457906)
         == Join(["2 months", "3 days", "4 hours", "5 minutes", "6 seconds"], ", ")
  {
    var b := Breakdown(2, 3, 4, 5, 6);
    assert TotalOf(b) == 5457906;
    DecomposeTotal(b);
    ExamplePhrases();
  }

  lemma ExamplePhrases()
    ensures Phrases(Breakdown(2, 3, 4, 5, 6)) == ["2 months", "3 days", "4 hours", "5 minutes", "6 seconds"]
  {
    assert UnitPhrase(2, "month") == "2 months" by { assert NatToString(2) == "2"; }
    assert UnitPhrase(3, "day") == "3 days" by { assert NatToString(3) == "3"; }
    assert UnitPhrase(4, "hour") == "4 hours" by { assert NatToString(4) == "4"; }
    assert UnitPhrase(5, "minute") == "5 minutes" by { assert NatToString(5) == "5"; }
    assert UnitPhrase(6, "second") == "6 seconds" by { assert NatToString(6) == "6"; }
  }
}
