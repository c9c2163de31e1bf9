/**
 * The order form's client-side logic (src/app/page.tsx): the price of a
 * bundle and validity period, the service toggle, and when the form may be
 * submitted. The React state is reduced to its two relevant parts, the
 * bundle (a list of service ids) and the number of days.
 */
module Storefront {

  datatype Service = Service(id: string, price: nat)

  /** The three services offered, with their prices in dollars. */
  const Catalogue: seq<Service> := [Service("flight", 15), Service("hotel", 12), Service("insurance", 7)]

  /** The slider's range (lines 227-228). */
  const MinTtlDays: int := 1
  const MaxTtlDays: int := 14

  predicate IsOffered(id: string)
  {
    exists k :: 0 <= k < |Catalogue| && Catalogue[k].id == id
  }

  // ---------------------------------------------------------------------
  // calculatePrice (lines 97-104)

  /** Two dollars for every day beyond the first three. */
  function Surcharge(ttlDays: int): nat
  {
    if ttlDays > 3 then (ttlDays - 3) * 2 else 0
  }

  /** The prices of the entries of `services` that the bundle includes. */
  function ServicesTotal(services: seq<Service>, bundle: seq<string>): nat
  {
    if services == [] then 0
    else (if services[0].id in bundle then services[0].price else 0) + ServicesTotal(services[1..], bundle)
  }

  /** The reference price: every catalogue service the bundle includes, plus the surcharge. */
  function Price(bundle: seq<string>, ttlDays: int): nat
  {
    ServicesTotal(Catalogue, bundle) + Surcharge(ttlDays)
  }

  /** The catalogue total written out service by service. */
  lemma CatalogueTotal(bundle: seq<string>)
    ensures ServicesTotal(Catalogue, bundle) ==
      (if "flight" in bundle then 15 else 0) + (if "hotel" in bundle then 12 else 0) + (if "insurance" in bundle then 7 else 0)
  {
    var c := Catalogue;
    assert c[0] == Service("flight", 15) && c[1..][0] == Service("hotel", 12) && c[1..][1..][0] == Service("insurance", 7);
    assert c[1..][1..][1..] == [];
    assert ServicesTotal(c[1..][1..], bundle) == if "insurance" in bundle then 7 else 0;
    assert ServicesTotal(c[1..], bundle) == (if "hotel" in bundle then 12 else 0) + ServicesTotal(c[1..][1..], bundle);
  }

  /** The form's running total, built up one `+=` at a time. */
  method CalculatePrice(bundle: seq<string>, ttlDays: int) returns (price: int)
    ensures price == Price(bundle, ttlDays)
  {
    price := 0;
    if "flight" in bundle {
      price := price + 15;
    }
    if "hotel" in bundle {
      price := price + 12;
    }
    if "insurance" in bundle {
      price := price + 7;
    }
    if ttlDays > 3 {
      price := price + (ttlDays - 3) * 2;
    }
    CatalogueTotal(bundle);
  }

  /** The total over a list of services only asks which ids the bundle includes. */
  lemma {:induction false} ServicesTotalByMembership(services: seq<Service>, b1: seq<string>, b2: seq<string>)
    requires forall s :: s in b1 <==> s in b2
    ensures ServicesTotal(services, b1) == ServicesTotal(services, b2)
  {
    if services != [] {
      ServicesTotalByMembership(services[1..], b1, b2);
    }
  }

  /** The price ignores the order of the bundle, repeated entries and ids that are not offered. */
  lemma PriceBySelection(b1: seq<string>, b2: seq<string>, ttlDays: int)
    requires forall id :: IsOffered(id) ==> (id in b1 <==> id in b2)
    ensures Price(b1, ttlDays) == Price(b2, ttlDays)
  {
    assert IsOffered("flight") by { assert Catalogue[0].id == "flight"; }
    assert IsOffered("hotel") by { assert Catalogue[1].id == "hotel"; }
    assert IsOffered("insurance") by { assert Catalogue[2].id == "insurance"; }
    CatalogueTotal(b1);
    CatalogueTotal(b2);
  }

  /** The price never falls as the validity grows, and an empty bundle for at most three days is free. */
  lemma PriceMonotone(bundle: seq<string>, ttl1: int, ttl2: int)
    requires ttl1 <= ttl2
    ensures Price(bundle, ttl1) <= Price(bundle, ttl2)
    ensures Price(bundle, ttl2) - Price(bundle, ttl1) == Surcharge(ttl2) - Surcharge(ttl1)
    ensures ttl2 <= 3 ==> Price([], ttl2) == 0
  {
    assert Catalogue[1..][1..][1..] == [];
  }

  /** Within the slider's range the price is at most 34 for the services plus 22 for eleven extra days. */
  lemma PriceBounded(bundle: seq<string>, ttlDays: int)
    requires MinTtlDays <= ttlDays <= MaxTtlDays
    ensures Price(bundle, ttlDays) <= 56
    ensures Surcharge(ttlDays) <= 22
  {
    CatalogueTotal(bundle);
  }

  // ---------------------------------------------------------------------
  // handleBundleChange (lines 88-95)

  /** `bundle.filter(s => s !== service)`. */
  function Without(bundle: seq<string>, service: string): (rest: seq<string>)
    ensures |rest| <= |bundle|
  {
    if bundle == [] then []
    else (if bundle[0] == service then [] else [bundle[0]]) + Without(bundle[1..], service)
  }

  function ToggleService(bundle: seq<string>, service: string): seq<string>
  {
    if service in bundle then Without(bundle, service) else bundle + [service]
  }

  /**
   * Removing keeps every other entry, as often as it occurred and in its
   * order, and drops every occurrence of the service.
   */
  lemma {:induction false} WithoutCorrect(bundle: seq<string>, service: string)
    ensures service !in Without(bundle, service)
    ensures forall x :: x != service ==> multiset(Without(bundle, service))[x] == multiset(bundle)[x]
    ensures service !in bundle ==> Without(bundle, service) == bundle
  {
    if bundle != [] {
      WithoutCorrect(bundle[1..], service);
      assert bundle == [bundle[0]] + bundle[1..];
    }
  }

  /** Filtering a concatenation filters each part: the survivors keep their order. */
  lemma {:induction false} WithoutAppend(b1: seq<string>, b2: seq<string>, service: string)
    ensures Without(b1 + b2, service) == Without(b1, service) + Without(b2, service)
  {
    if b1 != [] {
      WithoutAppend(b1[1..], b2, service);
      assert (b1 + b2)[1..] == b1[1..] + b2;
    } else {
      assert b1 + b2 == b2;
    }
  }

  /** Toggling flips the service's membership and leaves every other membership alone. */
  lemma ToggleFlips(bundle: seq<string>, service: string)
    ensures service in ToggleService(bundle, service) <==> service !in bundle
    ensures forall x :: x != service ==> (x in ToggleService(bundle, service) <==> x in bundle)
    ensures service !in bundle ==> ToggleService(bundle, service) == bundle + [service]
  {
    WithoutCorrect(bundle, service);
    forall x | x != service
      ensures x in ToggleService(bundle, service) <==> x in bundle
    {
      assert x in bundle <==> multiset(bundle)[x] > 0;
      assert x in Without(bundle, service) <==> multiset(Without(bundle, service))[x] > 0;
    }
  }

  /** Toggling an absent service twice gives back the bundle it started from. */
  lemma ToggleTwiceRestores(bundle: seq<string>, service: string)
    requires service !in bundle
    ensures ToggleService(ToggleService(bundle, service), service) == bundle
  {
    WithoutAppend(bundle, [service], service);
    WithoutCorrect(bundle, service);
    assert Without([service], service) == [];
  }

  predicate NoDuplicates(bundle: seq<string>)
  {
    forall i, j :: 0 <= i < j < |bundle| ==> bundle[i] != bundle[j]
  }

  /** Toggling never introduces a duplicate entry. */
  lemma {:induction false} ToggleKeepsNoDuplicates(bundle: seq<string>, service: string)
    requires NoDuplicates(bundle)
    ensures NoDuplicates(ToggleService(bundle, service))
  {
    if service in bundle {
      WithoutKeepsNoDuplicates(bundle, service);
    }
  }

  lemma {:induction false} WithoutKeepsNoDuplicates(bundle: seq<string>, service: string)
    requires NoDuplicates(bundle)
    ensures NoDuplicates(Without(bundle, service))
  {
    if bundle != [] {
      WithoutKeepsNoDuplicates(bundle[1..], service);
      WithoutCorrect(bundle[1..], service);
      var rest := Without(bundle[1..], service);
      if bundle[0] != service {
        assert bundle[0] !in bundle[1..];
        assert multiset(bundle[1..])[bundle[0]] == 0;
        assert bundle[0] !in rest by {
          assert multiset(rest)[bundle[0]] == 0;
        }
      }
    }
  }

  /** The bundle after clicking the given checkboxes, in order, on the initially empty form. */
  function AfterClicks(clicks: seq<string>): seq<string>
  {
    if clicks == [] then [] else ToggleService(AfterClicks(clicks[..|clicks| - 1]), clicks[|clicks| - 1])
  }

  /**
   * Any bundle the form can reach holds offered services only, each at most
   * once; so a bundle the form can submit costs at least 7 and, within the
   * slider's range, at most 56.
   */
  lemma {:induction false} ReachableBundles(clicks: seq<string>, ttlDays: int)
    requires forall k :: 0 <= k < |clicks| ==> IsOffered(clicks[k])
    ensures NoDuplicates(AfterClicks(clicks))
    ensures forall id :: id in AfterClicks(clicks) ==> IsOffered(id)
    ensures |AfterClicks(clicks)| > 0 ==> Price(AfterClicks(clicks), ttlDays) >= 7
  {
    if clicks != [] {
      var before := AfterClicks(clicks[..|clicks| - 1]);
      var c := clicks[|clicks| - 1];
      ReachableBundles(clicks[..|clicks| - 1], ttlDays);
      ToggleKeepsNoDuplicates(before, c);
      ToggleFlips(before, c);
      var after := AfterClicks(clicks);
      if |after| > 0 {
        var id := after[0];
        assert IsOffered(id);
        var k :| 0 <= k < |Catalogue| && Catalogue[k].id == id;
        CatalogueTotal(after);
      }
    }
  }

  // ---------------------------------------------------------------------
  // The submit button (line 286) and the price summary (lines 271-279)

  predicate SubmitDisabled(isLoading: bool, bundle: seq<string>)
  {
    isLoading || |bundle| == 0
  }

  predicate ShowsPriceSummary(bundle: seq<string>)
  {
    |bundle| > 0
  }

  /**
   * A bundle reached by clicking offered services can be submitted exactly
   * when the form is idle and the price summary is shown; it then costs the
   * surcharge plus between 7 and 34 for the services.
   */
  lemma SubmittableBundleIsPriced(clicks: seq<string>, isLoading: bool, ttlDays: int)
    requires forall k :: 0 <= k < |clicks| ==> IsOffered(clicks[k])
    ensures !SubmitDisabled(isLoading, AfterClicks(clicks)) <==> !isLoading && ShowsPriceSummary(AfterClicks(clicks))
    ensures !SubmitDisabled(isLoading, AfterClicks(clicks)) ==>
      7 + Surcharge(ttlDays) <= Price(AfterClicks(clicks), ttlDays) <= 34 + Surcharge(ttlDays)
  {
    var bundle := AfterClicks(clicks);
    ReachableBundles(clicks, ttlDays);
    CatalogueTotal(bundle);
    if |bundle| > 0 {
      assert IsOffered(bundle[0]);
    }
  }
}
