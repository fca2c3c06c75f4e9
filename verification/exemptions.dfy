/**
 The exemption schedule seen as a set: each exemption a household can
 check, its scheduled amount, and the sum of the amounts of a set of
 exemptions, defined without any order among them. `TotalExemptions`
 adds the four flags in one fixed order; this module shows that it
 equals the order-free sum over the claimed set, and so equals the sum
 of the claimed amounts taken in any order.
 */
module Exemptions {
  import opened Calculator

  /** The four exemptions in the schedule. */
  datatype Exemption = Homeowner | Senior | DisabledPerson | ReturningVeteran

  const AllExemptions: set<Exemption> := {Homeowner, Senior, DisabledPerson, ReturningVeteran}

  /** The scheduled dollar amount of an exemption. */
  function Amount(e: Exemption): (a: real)
    ensures a > 0.0
  {
    match e
    case Homeowner => HomeownerExemptionAmount
    case Senior => SeniorExemptionAmount
    case DisabledPerson => DisabledPersonExemptionAmount
    case ReturningVeteran => ReturningVeteranExemptionAmount
  }

  /** Whether the household has checked exemption `e`. */
  predicate Claims(home: HomeParams, e: Exemption) {
    match e
    case Homeowner => home.homeownerExemption
    case Senior => home.seniorExemption
    case DisabledPerson => home.disabledPersonExemption
    case ReturningVeteran => home.returningVeteranExemption
  }

  /** The household with exemption `e` checked (`on`) or unchecked, and nothing else changed. */
  function WithExemption(home: HomeParams, e: Exemption, on: bool): (h: HomeParams)
    ensures Claims(h, e) == on
    ensures forall x :: x != e ==> Claims(h, x) == Claims(home, x)
    ensures h.marketValue == home.marketValue
  {
    match e
    case Homeowner => home.(homeownerExemption := on)
    case Senior => home.(seniorExemption := on)
    case DisabledPerson => home.(disabledPersonExemption := on)
    case ReturningVeteran => home.(returningVeteranExemption := on)
  }

  /** The set of exemptions the household has checked. */
  function Claimed(home: HomeParams): (s: set<Exemption>)
    ensures forall e :: e in s <==> Claims(home, e)
  {
    set e | e in AllExemptions && Claims(home, e)
  }

  /** The sum of the amounts of the exemptions in `s`, taken in no particular order. */
  ghost function SumAmounts(s: set<Exemption>): real
    decreases s
  {
    if s == {} then 0.0
    else
      var e :| e in s;
      Amount(e) + SumAmounts(s - {e})
  }

  /** The sum of the amounts of the exemptions listed in `es`, in the order listed. */
  function SumInOrder(es: seq<Exemption>): real
  {
    if |es| == 0 then 0.0 else Amount(es[0]) + SumInOrder(es[1..])
  }

  /** No exemption is listed twice. */
  predicate Distinct(es: seq<Exemption>) {
    forall i, j :: 0 <= i < j < |es| ==> es[i] != es[j]
  }

  /** Any member of the set can be the one taken out first. */
  lemma {:induction false} SumAmountsRemove(s: set<Exemption>, e: Exemption)
    requires e in s
    ensures SumAmounts(s) == Amount(e) + SumAmounts(s - {e})
    decreases s
  {
    var x :| x in s && SumAmounts(s) == Amount(x) + SumAmounts(s - {x});
    if x != e {
      SumAmountsRemove(s - {x}, e);
      SumAmountsRemove(s - {e}, x);
      assert s - {x} - {e} == s - {e} - {x};
    }
  }

  /** Adding a new exemption to a set adds its amount to the sum. */
  lemma {:induction false} SumAmountsAdd(s: set<Exemption>, e: Exemption)
    requires e !in s
    ensures SumAmounts(s + {e}) == SumAmounts(s) + Amount(e)
  {
    SumAmountsRemove(s + {e}, e);
    assert s + {e} - {e} == s;
  }

  /** Listing distinct exemptions in any order gives the order-free sum of their set. */
  lemma {:induction false} SumInOrderIsSumAmounts(es: seq<Exemption>)
    requires Distinct(es)
    ensures SumInOrder(es) == SumAmounts(set i | 0 <= i < |es| :: es[i])
    decreases |es|
  {
    var s := set i | 0 <= i < |es| :: es[i];
    if |es| == 0 {
      assert s == {};
    } else {
      var rest := es[1..];
      var t := set i | 0 <= i < |rest| :: rest[i];
      assert Distinct(rest);
      SumInOrderIsSumAmounts(rest);
      assert es[0] in s;
      assert s - {es[0]} == t by {
        forall x | x in s - {es[0]} ensures x in t {
          var i :| 0 <= i < |es| && es[i] == x;
          assert rest[i - 1] == x;
        }
        forall x | x in t ensures x in s - {es[0]} {
          var i :| 0 <= i < |rest| && rest[i] == x;
          assert es[i + 1] == x;
        }
      }
      SumAmountsRemove(s, es[0]);
    }
  }

  /** The fixed-order total equals the order-free sum of the claimed amounts. */
  lemma {:induction false} TotalIsSumOfClaimed(home: HomeParams)
    ensures TotalExemptions(home) == SumAmounts(Claimed(home))
  {
    var s1 := if home.homeownerExemption then {Homeowner} else {};
    var s2 := if home.seniorExemption then s1 + {Senior} else s1;
    var s3 := if home.disabledPersonExemption then s2 + {DisabledPerson} else s2;
    var s4 := if home.returningVeteranExemption then s3 + {ReturningVeteran} else s3;
    if home.homeownerExemption {
      SumAmountsAdd({}, Homeowner);
      assert {} + {Homeowner} == s1;
    }
    if home.seniorExemption {
      SumAmountsAdd(s1, Senior);
    }
    if home.disabledPersonExemption {
      SumAmountsAdd(s2, DisabledPerson);
    }
    if home.returningVeteranExemption {
      SumAmountsAdd(s3, ReturningVeteran);
    }
    assert s4 == Claimed(home);
  }

  /**
   Whatever order the claimed exemptions are added in, the sum is the
   total `TotalExemptions` computes.
   */
  lemma {:induction false} TotalIsOrderIndependent(home: HomeParams, es: seq<Exemption>)
    requires Distinct(es)
    requires forall e :: e in es <==> Claims(home, e)
    ensures SumInOrder(es) == TotalExemptions(home)
  {
    SumInOrderIsSumAmounts(es);
    TotalIsSumOfClaimed(home);
    var s := set i | 0 <= i < |es| :: es[i];
    assert s == Claimed(home) by {
      forall x | x in Claimed(home) ensures x in s {
        var i :| 0 <= i < |es| && es[i] == x;
      }
    }
  }

  /** Checking exemption `e` adds exactly its scheduled amount to the total. */
  lemma {:induction false} TotalExemptionsToggle(home: HomeParams, e: Exemption)
    ensures TotalExemptions(WithExemption(home, e, true))
      == TotalExemptions(WithExemption(home, e, false)) + Amount(e)
  {
    var on := WithExemption(home, e, true);
    var off := WithExemption(home, e, false);
    TotalIsSumOfClaimed(on);
    TotalIsSumOfClaimed(off);
    assert Claimed(on) == Claimed(off) + {e};
    SumAmountsAdd(Claimed(off), e);
  }

  /** The totals the schedule gives for no exemption, the homeowner exemption alone, and all four. */
  lemma {:induction false} TotalExemptionsExamples(marketValue: real)
    ensures TotalExemptions(HomeParams(marketValue, false, false, false, false)) == 0.0
    ensures TotalExemptions(HomeParams(marketValue, true, false, false, false)) == 10000.0
    ensures TotalExemptions(HomeParams(marketValue, true, true, true, true)) == 25000.0
    ensures MaxExemptions == 25000.0
  {
  }
}
