/**
 * `app/reports.py`: the per-device compliance summary and the per-device view of the
 * catalog, both computed from the base catalog and the device's review overrides
 * (item_index -> review).
 */
module Reports {
  import opened Wrappers
  import opened Catalog
  import opened Text
  import S = Status
  import Store

  type Reviews = map<int, Store.Review>

  /**
   * The status an item starts from before validation: the override's status when the index
   * has a review, otherwise `item.get("status", "Not Reviewed")` (None for a JSON `null`).
   */
  function RawStatus(item: Item, idx: int, reviews: Reviews): Option<string> {
    if idx in reviews then Some(reviews[idx].status) else Get(item.status, "Not Reviewed")
  }

  /** The status the summary counts item `idx` under. */
  function EffectiveStatus(items: seq<Item>, reviews: Reviews, idx: int): S.Status
    requires 0 <= idx < |items|
  {
    S.Normalize(RawStatus(items[idx], idx, reviews))
  }

  /** `base_item.get("section", "Unknown")`: the key an item is grouped under. */
  function SectionKey(item: Item): Option<string> {
    Get(item.section, "Unknown")
  }

  /** Number of the first `n` items whose effective status is `st`. */
  function CountStatus(items: seq<Item>, reviews: Reviews, st: S.Status, n: nat): (c: nat)
    requires n <= |items|
    ensures c <= n
  {
    if n == 0 then 0
    else CountStatus(items, reviews, st, n - 1) + (if EffectiveStatus(items, reviews, n - 1) == st then 1 else 0)
  }

  /** Number of the first `n` items that are Non Compliant and sit in section `key`. */
  function NonCompliantIn(items: seq<Item>, reviews: Reviews, key: Option<string>, n: nat): (c: nat)
    requires n <= |items|
    ensures c <= CountStatus(items, reviews, S.NonCompliant, n)
  {
    if n == 0 then 0
    else
      NonCompliantIn(items, reviews, key, n - 1)
      + (if EffectiveStatus(items, reviews, n - 1) == S.NonCompliant && SectionKey(items[n - 1]) == key then 1 else 0)
  }

  /** `section_non_compliant` after the first `n` items. */
  function SectionCounts(items: seq<Item>, reviews: Reviews, n: nat): map<Option<string>, nat>
    requires n <= |items|
  {
    if n == 0 then map[]
    else
      var m := SectionCounts(items, reviews, n - 1);
      if EffectiveStatus(items, reviews, n - 1) == S.NonCompliant then
        var key := SectionKey(items[n - 1]);
        m[key := (if key in m then m[key] else 0) + 1]
      else m
  }

  /**
   * The percentage before `round(.., 1)`: compliant plus non-applicable over the reviewed
   * items, or over all items when none is reviewed; 0 for an empty catalog.
   */
  function CompliancePct(total: int, reviewed: int, compliant: int, nonApplicable: int): real
  {
    if total > 0 then
      var denom := if reviewed > 0 then reviewed else total;
      ((compliant + nonApplicable) as real / denom as real) * 100.0
    else 0.0
  }

  datatype Summary = Summary(
    totalItems: nat,
    reviewed: int,
    notReviewed: nat,
    compliant: nat,
    nonCompliant: nat,
    nonApplicable: nat,
    compliancePct: real,
    sectionNonCompliant: map<Option<string>, nat>)

  /** The summary `compute_device_summary` returns, as a function of its inputs. */
  function Summarize(items: seq<Item>, reviews: Reviews): Summary {
    var n := |items|;
    var nr := CountStatus(items, reviews, S.NotReviewed, n);
    var c := CountStatus(items, reviews, S.Compliant, n);
    var nc := CountStatus(items, reviews, S.NonCompliant, n);
    var na := CountStatus(items, reviews, S.NonApplicable, n);
    Summary(n, n - nr, nr, c, nc, na, CompliancePct(n, n - nr, c, na), SectionCounts(items, reviews, n))
  }

  /** `compute_device_summary(checklist_items, reviews)`. */
  method ComputeDeviceSummary(items: seq<Item>, reviews: Reviews) returns (s: Summary)
    ensures s == Summarize(items, reviews)
  {
    var notReviewed, compliant, nonCompliant, nonApplicable := 0, 0, 0, 0;
    var sections: map<Option<string>, nat> := map[];
    var idx := 0;
    while idx < |items|
      invariant 0 <= idx <= |items|
      invariant notReviewed == CountStatus(items, reviews, S.NotReviewed, idx)
      invariant compliant == CountStatus(items, reviews, S.Compliant, idx)
      invariant nonCompliant == CountStatus(items, reviews, S.NonCompliant, idx)
      invariant nonApplicable == CountStatus(items, reviews, S.NonApplicable, idx)
      invariant sections == SectionCounts(items, reviews, idx)
    {
      var section := SectionKey(items[idx]);
      var status := RawStatus(items[idx], idx, reviews);
      if status.None? || !S.IsStatusString(status.value) {
        status := Some("Not Reviewed");
      }
      if status.value == "Not Reviewed" {
        notReviewed := notReviewed + 1;
      } else if status.value == "Compliant" {
        compliant := compliant + 1;
      } else if status.value == "Non Compliant" {
        nonCompliant := nonCompliant + 1;
      } else {
        nonApplicable := nonApplicable + 1;
      }
      if status.value == "Non Compliant" {
        sections := sections[section := (if section in sections then sections[section] else 0) + 1];
      }
      idx := idx + 1;
    }
    var total := |items|;
    var reviewed := total - notReviewed;
    var pct := CompliancePct(total, reviewed, compliant, nonApplicable);
    s := Summary(total, reviewed, notReviewed, compliant, nonCompliant, nonApplicable, pct, sections);
  }

  /** Every item falls under exactly one of the four statuses. */
  lemma {:induction false} CountsPartition(items: seq<Item>, reviews: Reviews, n: nat)
    requires n <= |items|
    ensures CountStatus(items, reviews, S.NotReviewed, n) + CountStatus(items, reviews, S.Compliant, n)
          + CountStatus(items, reviews, S.NonCompliant, n) + CountStatus(items, reviews, S.NonApplicable, n) == n
  {
    if n > 0 {
      CountsPartition(items, reviews, n - 1);
    }
  }

  /**
   * The four counts sum to `total_items`, `reviewed + not_reviewed == total_items`, and the
   * compliant and non-applicable items are among the reviewed ones.
   */
  lemma SummaryPartition(items: seq<Item>, reviews: Reviews)
    ensures var s := Summarize(items, reviews);
      && s.compliant + s.nonCompliant + s.nonApplicable + s.notReviewed == s.totalItems
      && s.reviewed + s.notReviewed == s.totalItems
      && 0 <= s.compliant + s.nonApplicable <= s.reviewed
  {
    CountsPartition(items, reviews, |items|);
  }

  /** The unrounded percentage lies in [0, 100]. */
  lemma PctBounds(items: seq<Item>, reviews: Reviews)
    ensures 0.0 <= Summarize(items, reviews).compliancePct <= 100.0
  {
    var s := Summarize(items, reviews);
    SummaryPartition(items, reviews);
    if s.totalItems > 0 && s.reviewed > 0 {
      RatioPercentBounds((s.compliant + s.nonApplicable) as real, s.reviewed as real);
    }
  }

  lemma RatioPercentBounds(x: real, d: real)
    requires 0.0 <= x <= d && d > 0.0
    ensures 0.0 <= (x / d) * 100.0 <= 100.0
  {
    assert (x / d) * d == x;
    assert x / d <= 1.0;
  }

  /** With nothing reviewed the percentage is 0 (the numerator is empty, not the denominator). */
  lemma PctWhenNothingReviewed(items: seq<Item>, reviews: Reviews)
    requires Summarize(items, reviews).reviewed == 0
    ensures Summarize(items, reviews).compliancePct == 0.0
  {
    SummaryPartition(items, reviews);
  }

  /** With at least one reviewed item, the denominator is the reviewed count. */
  lemma PctOverReviewed(items: seq<Item>, reviews: Reviews)
    requires Summarize(items, reviews).reviewed > 0
    ensures var s := Summarize(items, reviews);
      s.compliancePct * s.reviewed as real == (s.compliant + s.nonApplicable) as real * 100.0
  {
    var s := Summarize(items, reviews);
    SummaryPartition(items, reviews);
    var x := (s.compliant + s.nonApplicable) as real;
    var d := s.reviewed as real;
    assert (x / d) * d == x;
  }

  /** An item's effective status: the override if present, else the base; invalid ones are Not Reviewed. */
  lemma EffectiveStatusCases(items: seq<Item>, reviews: Reviews, idx: int)
    requires 0 <= idx < |items|
    ensures var e := EffectiveStatus(items, reviews, idx);
      && (idx in reviews && S.IsStatusString(reviews[idx].status) ==> S.ToString(e) == reviews[idx].status)
      && (idx in reviews && !S.IsStatusString(reviews[idx].status) ==> e == S.NotReviewed)
      && (idx !in reviews && items[idx].status.Present? && S.IsStatusString(items[idx].status.value)
          ==> S.ToString(e) == items[idx].status.value)
      && (idx !in reviews && !(items[idx].status.Present? && S.IsStatusString(items[idx].status.value))
          ==> e == S.NotReviewed)
  {
  }

  /** `section_non_compliant` has a key exactly for sections with a Non Compliant item, holding their count. */
  lemma {:induction false} SectionCountsMeaning(items: seq<Item>, reviews: Reviews, n: nat)
    requires n <= |items|
    ensures forall k :: k in SectionCounts(items, reviews, n) <==> NonCompliantIn(items, reviews, k, n) > 0
    ensures forall k :: k in SectionCounts(items, reviews, n) ==>
      SectionCounts(items, reviews, n)[k] == NonCompliantIn(items, reviews, k, n) >= 1
  {
    if n > 0 {
      SectionCountsMeaning(items, reviews, n - 1);
    }
  }

  /** Sum of the values of a finite map. */
  ghost function MapSum(m: map<Option<string>, nat>): nat
    decreases |m|
  {
    if m == map[] then 0
    else
      var k :| k in m;
      m[k] + MapSum(m - {k})
  }

  /** The sum does not depend on which key is taken out first. */
  lemma {:induction false} MapSumRemove(m: map<Option<string>, nat>, k: Option<string>)
    requires k in m
    ensures MapSum(m) == m[k] + MapSum(m - {k})
    decreases |m|
  {
    var j :| j in m && MapSum(m) == m[j] + MapSum(m - {j});
    if j != k {
      var mj := m - {j};
      var mk := m - {k};
      assert k in mj && j in mk;
      MapSumRemove(mj, k);
      MapSumRemove(mk, j);
      assert mj - {k} == mk - {j};
    }
  }

  /** Adding one to a key's count (0 if missing) adds one to the sum. */
  lemma MapSumIncrement(m: map<Option<string>, nat>, k: Option<string>)
    ensures MapSum(m[k := (if k in m then m[k] else 0) + 1]) == MapSum(m) + 1
  {
    var m' := m[k := (if k in m then m[k] else 0) + 1];
    MapSumRemove(m', k);
    if k in m {
      MapSumRemove(m, k);
      assert m' - {k} == m - {k};
    } else {
      assert m' - {k} == m;
    }
  }

  /** The per-section counts add up to `non_compliant`. */
  lemma {:induction false} SectionCountsSum(items: seq<Item>, reviews: Reviews, n: nat)
    requires n <= |items|
    ensures MapSum(SectionCounts(items, reviews, n)) == CountStatus(items, reviews, S.NonCompliant, n)
  {
    if n > 0 {
      SectionCountsSum(items, reviews, n - 1);
      if EffectiveStatus(items, reviews, n - 1) == S.NonCompliant {
        MapSumIncrement(SectionCounts(items, reviews, n - 1), SectionKey(items[n - 1]));
      }
    }
  }

  /** The catalog used by the summary examples: statuses NR, C, NC, NA over two sections. */
  function SampleItems(): seq<Item> {
    [ Item(Present("Section 1"), Present("1.1"), Present("Test 1"), Absent, Absent, Present("Not Reviewed"), Absent, Absent),
      Item(Present("Section 1"), Present("1.2"), Present("Test 2"), Absent, Absent, Present("Compliant"), Absent, Absent),
      Item(Present("Section 2"), Present("2.1"), Present("Test 3"), Absent, Absent, Present("Non Compliant"), Absent, Absent),
      Item(Present("Section 2"), Present("2.2"), Present("Test 4"), Absent, Absent, Present("Non Applicable"), Absent, Absent) ]
  }

  /** Without overrides: 3 reviewed, 1 of each status. */
  lemma SampleDefaults()
    ensures var s := Summarize(SampleItems(), map[]);
      s.totalItems == 4 && s.reviewed == 3 && s.notReviewed == 1
      && s.compliant == 1 && s.nonCompliant == 1 && s.nonApplicable == 1
  {
    var items := SampleItems();
    assert EffectiveStatus(items, map[], 0) == S.NotReviewed;
    assert EffectiveStatus(items, map[], 1) == S.Compliant;
    assert EffectiveStatus(items, map[], 2) == S.NonCompliant;
    assert EffectiveStatus(items, map[], 3) == S.NonApplicable;
  }

  /** Overrides C, C, NC, NA: 2 compliant plus 1 non-applicable out of 4 reviewed is 75. */
  lemma SamplePercentage()
    ensures Summarize(SampleItems(), map[0 := Store.Review("Compliant", Some("")),
                                          1 := Store.Review("Compliant", Some("")),
                                          2 := Store.Review("Non Compliant", Some("")),
                                          3 := Store.Review("Non Applicable", Some(""))]).compliancePct == 75.0
  {
    var items := SampleItems();
    var r := map[0 := Store.Review("Compliant", Some("")), 1 := Store.Review("Compliant", Some("")),
                 2 := Store.Review("Non Compliant", Some("")), 3 := Store.Review("Non Applicable", Some(""))];
    assert EffectiveStatus(items, r, 0) == S.Compliant;
    assert EffectiveStatus(items, r, 1) == S.Compliant;
    assert EffectiveStatus(items, r, 2) == S.NonCompliant;
    assert EffectiveStatus(items, r, 3) == S.NonApplicable;
    assert CountStatus(items, r, S.NotReviewed, 2) == 0;
    assert CountStatus(items, r, S.NotReviewed, 4) == 0;
    assert CountStatus(items, r, S.Compliant, 2) == 2;
    assert CountStatus(items, r, S.Compliant, 4) == 2;
    assert CountStatus(items, r, S.NonApplicable, 2) == 0;
    assert CountStatus(items, r, S.NonApplicable, 4) == 1;
  }

  /** Overrides NC on items 0 and 2: one Non Compliant item in each section. */
  lemma SampleSections()
    ensures var m := Summarize(SampleItems(), map[0 := Store.Review("Non Compliant", Some("")),
                                                  2 := Store.Review("Non Compliant", Some(""))]).sectionNonCompliant;
      m == map[Some("Section 1") := 1, Some("Section 2") := 1]
  {
    var items := SampleItems();
    var r := map[0 := Store.Review("Non Compliant", Some("")), 2 := Store.Review("Non Compliant", Some(""))];
    assert EffectiveStatus(items, r, 0) == S.NonCompliant;
    assert EffectiveStatus(items, r, 1) == S.Compliant;
    assert EffectiveStatus(items, r, 2) == S.NonCompliant;
    assert EffectiveStatus(items, r, 3) == S.NonApplicable;
    assert SectionCounts(items, r, 1) == map[Some("Section 1") := 1];
    assert SectionCounts(items, r, 3) == map[Some("Section 1") := 1, Some("Section 2") := 1];
  }

  /** An item of the per-device view: the base item with its position. */
  datatype DeviceItem = DeviceItem(item: Item, index: int)

  /**
   * One iteration of `build_device_items`: status is the override's status (unvalidated) or
   * `item.get("status", "Not Reviewed")`; comment is the override's note if truthy, else "".
   */
  function ViewItem(base: Item, idx: int, reviews: Reviews): DeviceItem {
    var status :=
      if idx in reviews then Present(reviews[idx].status)
      else if base.status.Absent? then Present("Not Reviewed")
      else base.status;
    var comment := if idx in reviews && Truthy(reviews[idx].note) then reviews[idx].note.value else "";
    DeviceItem(base.(status := status, comment := Present(comment)), idx)
  }

  /** `build_device_items(checklist_items, reviews)`. */
  method BuildDeviceItems(items: seq<Item>, reviews: Reviews) returns (view: seq<DeviceItem>)
    ensures |view| == |items|
    ensures forall i :: 0 <= i < |items| ==> view[i] == ViewItem(items[i], i, reviews)
  {
    view := [];
    var idx := 0;
    while idx < |items|
      invariant 0 <= idx <= |items|
      invariant |view| == idx
      invariant forall i :: 0 <= i < idx ==> view[i] == ViewItem(items[i], i, reviews)
    {
      var item := items[idx];
      var status := Get(item.status, "Not Reviewed");
      var comment := "";
      if idx in reviews {
        status := Some(reviews[idx].status);
        if Truthy(reviews[idx].note) {
          comment := reviews[idx].note.value;
        }
      }
      var statusField := if status.Some? then Present(status.value) else Null;
      view := view + [DeviceItem(item.(status := statusField, comment := Present(comment)), idx)];
      idx := idx + 1;
    }
  }

  /**
   * Only the status and comment of a base item change in its view; the index is its
   * position; the base comment never shows; an override's status is passed through even
   * when it is not one of the four statuses; a null base status stays null.
   */
  lemma ViewItemFields(base: Item, idx: int, reviews: Reviews)
    ensures var v := ViewItem(base, idx, reviews);
      && v.index == idx
      && v.item == base.(status := v.item.status, comment := v.item.comment)
      && (idx in reviews ==> v.item.status == Present(reviews[idx].status))
      && (idx !in reviews && base.status.Present? ==> v.item.status == base.status)
      && (idx !in reviews && base.status.Absent? ==> v.item.status == Present("Not Reviewed"))
      && (idx !in reviews && base.status.Null? ==> v.item.status == Null)
      && v.item.comment == (if idx in reviews && Truthy(reviews[idx].note) then Present(reviews[idx].note.value) else Present(""))
  {
  }

  /** The view's status, once validated, is the status the summary counts for the same item. */
  lemma ViewAgreesWithSummary(items: seq<Item>, reviews: Reviews, idx: int)
    requires 0 <= idx < |items|
    ensures S.Normalize(Lookup(ViewItem(items[idx], idx, reviews).item.status)) == EffectiveStatus(items, reviews, idx)
  {
  }
}
