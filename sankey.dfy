/**
 * `sankeyLinks`: volume from each basin to each (shortened) delivery place.
 * The pair is kept as one map key `basin__delivery` and split back with
 * `split("__")` when the links are built; each link is coloured by the
 * basin's group; the forty largest links are kept.
 */
module Sankey {
  import opened Wrappers
  import opened Text
  import opened Offers
  import opened Fields
  import opened Groups
  import opened Sorting

  /** The map key of an offer, for a given delivery-name shortener. */
  function LinkKey(shorten: string -> string): Offer -> string {
    (o: Offer) => Trim(TextOr(o, BasinKeys, "N/A")) + "__" + shorten(Trim(TextOr(o, DeliveryKeys, "N/A")))
  }

  /** "__" occurs at position `i` of `s`. */
  predicate SepAt(s: string, i: int) {
    0 <= i && i + 1 < |s| && s[i] == '_' && s[i + 1] == '_'
  }

  /** The first position at or after `from` where "__" occurs, or -1. */
  function SepFrom(s: string, from: nat): (r: int)
    ensures r == -1 || (from <= r && SepAt(s, r))
    ensures forall i :: from <= i && (r == -1 || i < r) ==> !SepAt(s, i)
    decreases |s| - from
  {
    if from + 1 >= |s| then -1
    else if SepAt(s, from) then from
    else SepFrom(s, from + 1)
  }

  /**
   * The first two parts of `k.split("__")`: the text before the first "__",
   * and the text between it and the next "__" (or the end), absent when
   * there is no "__".
   */
  function SplitKey(k: string): (string, Option<string>) {
    var i := SepFrom(k, 0);
    if i < 0 then (k, None)
    else
      var j := SepFrom(k, i + 2);
      (k[..i], Some(k[i + 2..if j < 0 then |k| else j]))
  }

  /** `s` holds no "__". */
  predicate NoSep(s: string) {
    forall i :: 0 <= i < |s| ==> !SepAt(s, i)
  }

  const GroupColors: map<string, string> := map[
    "Neuquina" := "#22c55e",
    "Golfo San Jorge" := "#3b82f6",
    "Austral" := "#ef4444",
    "Noroeste" := "#a855f7",
    "Cuyana" := "#f59e0b",
    "Otro" := "#94a3b8"
  ]

  /** `getBasinGroup(source) || "Otro"`, then `groupColors[g] || groupColors["Otro"]`. */
  function LinkColor(basinGroup: string -> Option<string>, source: string): (c: string)
    ensures c in GroupColors.Values
  {
    var g := match basinGroup(source) case None => "Otro" case Some(x) => if x == [] then "Otro" else x;
    if g in GroupColors then GroupColors[g] else GroupColors["Otro"]
  }

  datatype SankeyLink = SankeyLink(source: string, target: Option<string>, value: real, color: string)

  function LinkValue(l: SankeyLink): real { l.value }

  /** One link per map entry, in entry order. */
  function Links(g: Sums, conv: real -> real, basinGroup: string -> Option<string>): seq<SankeyLink>
    requires forall k :: k in g.keys ==> k in g.total
  {
    seq(|g.keys|, i requires 0 <= i < |g.keys| =>
      var parts := SplitKey(g.keys[i]);
      SankeyLink(parts.0, parts.1, conv(g.total[g.keys[i]]), LinkColor(basinGroup, parts.0)))
  }

  /** `sankeyLinks` as a value: the forty largest links. */
  function SankeyView(filtered: seq<Offer>, conv: real -> real, shorten: string -> string,
                      basinGroup: string -> Option<string>): seq<SankeyLink>
  {
    GroupValid(filtered, LinkKey(shorten), Volume);
    Take(SortDesc(Links(Group(filtered, LinkKey(shorten), Volume), conv, basinGroup), LinkValue), 40)
  }

  method SankeyLinks(filtered: seq<Offer>, conv: real -> real, shorten: string -> string,
                     basinGroup: string -> Option<string>) returns (links: seq<SankeyLink>)
    ensures links == SankeyView(filtered, conv, shorten, basinGroup)
  {
    var g := SumBy(filtered, LinkKey(shorten), Volume);
    GroupValid(filtered, LinkKey(shorten), Volume);
    links := Take(SortDesc(Links(g, conv, basinGroup), LinkValue), 40);
  }

  // ------------------------------------------------------------ key round trip

  /**
   * Splitting `basin__delivery` gives back the pair when neither part holds
   * "__" and the basin does not end in "_".
   */
  lemma SplitJoin(basin: string, delivery: string)
    requires NoSep(basin) && NoSep(delivery)
    requires basin == [] || basin[|basin| - 1] != '_'
    ensures SplitKey(basin + "__" + delivery) == (basin, Some(delivery))
  {
    var k := basin + "__" + delivery;
    var n := |basin|;
    forall i | 0 <= i < n ensures !SepAt(k, i) {
      if i + 1 < n {
        assert !SepAt(basin, i);
      }
    }
    assert SepAt(k, n);
    assert SepFrom(k, 0) == n;
    forall i | n + 2 <= i < |k| - 1 ensures !SepAt(k, i) {
      assert k[i] == delivery[i - n - 2] && k[i + 1] == delivery[i - n - 1];
      assert !SepAt(delivery, i - n - 2);
    }
    assert SepFrom(k, n + 2) == -1;
    assert k[..n] == basin;
    assert k[n + 2..|k|] == delivery;
    assert SplitKey(k) == (k[..n], Some(k[n + 2..|k|]));
  }

  /** A basin ending in "_" loses it: "x_" joined with "y" splits into "x" and "_y". */
  lemma SplitShiftsUnderscore(k: string)
    requires k == "x_" + "__" + "y"
    ensures SplitKey(k) == ("x", Some("_y"))
  {
    assert SepAt(k, 1) && !SepAt(k, 0);
    assert SepFrom(k, 0) == 1;
    assert SepFrom(k, 3) == -1;
    assert k[..1] == "x" && k[3..|k|] == "_y";
  }

  /** A delivery name holding "__" is cut at it: "a__b__c" splits into "a" and "b". */
  lemma SplitDropsTail(k: string)
    requires k == "a" + "__" + "b__c"
    ensures SplitKey(k) == ("a", Some("b"))
  {
    assert SepAt(k, 1) && !SepAt(k, 0);
    assert SepFrom(k, 0) == 1;
    assert !SepAt(k, 3) && SepAt(k, 4);
    assert SepFrom(k, 3) == 4;
    assert k[..1] == "a" && k[3..4] == "b";
  }

  /** Every map key has a target: the key always holds "__". */
  lemma KeyHasTarget(shorten: string -> string, o: Offer)
    ensures SplitKey(LinkKey(shorten)(o)).1.Some?
  {
    var b := Trim(TextOr(o, BasinKeys, "N/A"));
    var k := LinkKey(shorten)(o);
    assert k == b + "__" + shorten(Trim(TextOr(o, DeliveryKeys, "N/A")));
    assert SepAt(k, |b|);
  }

  // --------------------------------------------------------------- the view

  /** Forty links, or one per key when there are fewer, largest first; none left out is larger than one kept. */
  lemma SankeyShape(filtered: seq<Offer>, conv: real -> real, shorten: string -> string,
                    basinGroup: string -> Option<string>)
    ensures var g := Group(filtered, LinkKey(shorten), Volume);
      var r := SankeyView(filtered, conv, shorten, basinGroup);
      (forall k :: k in g.keys ==> k in g.total) &&
      |r| == (if |g.keys| <= 40 then |g.keys| else 40) && NonIncreasing(r, LinkValue) &&
      (var sorted := SortDesc(Links(g, conv, basinGroup), LinkValue);
       multiset(sorted) == multiset(Links(g, conv, basinGroup)) &&
       forall i, j :: 0 <= i < |r| <= j < |sorted| ==> r[i].value >= sorted[j].value)
  {
    var g := Group(filtered, LinkKey(shorten), Volume);
    GroupValid(filtered, LinkKey(shorten), Volume);
    var rows := Links(g, conv, basinGroup);
    SortDescProps(rows, LinkValue);
    var sorted := SortDesc(rows, LinkValue);
    TakeNonIncreasing(sorted, 40, LinkValue);
    TakeTop(sorted, 40, LinkValue);
  }

  /** Each link comes from the key of some offer and is coloured from the palette. */
  lemma SankeyLinkSource(filtered: seq<Offer>, conv: real -> real, shorten: string -> string,
                         basinGroup: string -> Option<string>, l: SankeyLink)
    requires l in SankeyView(filtered, conv, shorten, basinGroup)
    ensures exists i :: 0 <= i < |filtered| && SplitKey(LinkKey(shorten)(filtered[i])) == (l.source, l.target)
    ensures l.color in GroupColors.Values
  {
    SankeyShape(filtered, conv, shorten, basinGroup);
    var g := Group(filtered, LinkKey(shorten), Volume);
    var rows := Links(g, conv, basinGroup);
    assert l in multiset(rows);
    var j :| 0 <= j < |rows| && rows[j] == l;
    GroupKeys(filtered, LinkKey(shorten), Volume, g.keys[j]);
  }

  /** Each link carries the converted sum of the volumes under its key. */
  lemma SankeyLinkValue(filtered: seq<Offer>, conv: real -> real, shorten: string -> string,
                        basinGroup: string -> Option<string>, l: SankeyLink)
    requires l in SankeyView(filtered, conv, shorten, basinGroup)
    ensures exists k ::
      SplitKey(k) == (l.source, l.target) && l.value == conv(BucketSum(filtered, LinkKey(shorten), Volume, k))
  {
    SankeyShape(filtered, conv, shorten, basinGroup);
    var g := Group(filtered, LinkKey(shorten), Volume);
    var rows := Links(g, conv, basinGroup);
    assert l in multiset(rows);
    var j :| 0 <= j < |rows| && rows[j] == l;
    var k := g.keys[j];
    GroupTotals(filtered, LinkKey(shorten), Volume, k);
    assert SplitKey(k) == (l.source, l.target);
  }

  /**
   * Before the cut, an offer whose basin and short delivery name are clean
   * has a link from exactly that basin to exactly that place.
   */
  lemma CleanOfferLinked(filtered: seq<Offer>, conv: real -> real, shorten: string -> string,
                         basinGroup: string -> Option<string>, i: nat)
    requires i < |filtered|
    requires var b := Trim(TextOr(filtered[i], BasinKeys, "N/A"));
      NoSep(b) && (b == [] || b[|b| - 1] != '_') &&
      NoSep(shorten(Trim(TextOr(filtered[i], DeliveryKeys, "N/A"))))
    ensures var g := Group(filtered, LinkKey(shorten), Volume);
      (forall k :: k in g.keys ==> k in g.total) &&
      exists l :: l in Links(g, conv, basinGroup) &&
        l.source == Trim(TextOr(filtered[i], BasinKeys, "N/A")) &&
        l.target == Some(shorten(Trim(TextOr(filtered[i], DeliveryKeys, "N/A"))))
  {
    var g := Group(filtered, LinkKey(shorten), Volume);
    GroupValid(filtered, LinkKey(shorten), Volume);
    var b := Trim(TextOr(filtered[i], BasinKeys, "N/A"));
    var d := shorten(Trim(TextOr(filtered[i], DeliveryKeys, "N/A")));
    var k := LinkKey(shorten)(filtered[i]);
    assert k == b + "__" + d;
    GroupHasKey(filtered, LinkKey(shorten), Volume, i);
    var j :| 0 <= j < |g.keys| && g.keys[j] == k;
    SplitJoin(b, d);
    assert Links(g, conv, basinGroup)[j].source == b;
  }
}
