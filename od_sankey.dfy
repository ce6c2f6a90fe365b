/**
 * The origin-destination Sankey chart's input preparation: the node names
 * (every non-empty link end, once, in order of first appearance), the links
 * rewritten to node indices (only those with both ends and a positive
 * value), and the total of the kept values.
 */
module OdSankey {
  import opened Groups

  /** A link as the chart receives it. */
  datatype Link = Link(source: string, target: string, value: real)

  /** A link by node index; -1 is `indexOf` finding nothing. */
  datatype IndexedLink = IndexedLink(source: int, target: int, value: real)

  datatype Node = Node(name: string)

  /** `s.filter(p)`. */
  function Filter<T>(s: seq<T>, p: T -> bool): seq<T>
    decreases |s|
  {
    if s == [] then []
    else Filter(s[..|s| - 1], p) + (if p(s[|s| - 1]) then [s[|s| - 1]] else [])
  }

  /** `links.flatMap((l) => [l.source, l.target])`. */
  function Ends(links: seq<Link>): seq<string>
    decreases |links|
  {
    if links == [] then []
    else
      var l := links[|links| - 1];
      Ends(links[..|links| - 1]) + [l.source, l.target]
  }

  function NonEmpty(s: string): bool { s != [] }

  /** `Array.from(new Set(ends.filter(Boolean)))`. */
  function NodeNames(links: seq<Link>): seq<string> {
    Dedupe(Filter(Ends(links), NonEmpty))
  }

  function Nodes(names: seq<string>): (r: seq<Node>)
    ensures |r| == |names| && forall i :: 0 <= i < |r| ==> r[i].name == names[i]
  {
    seq(|names|, i requires 0 <= i < |names| => Node(names[i]))
  }

  /** `names.indexOf(name)`: the first position holding `name`, or -1. */
  function IndexOf(names: seq<string>, name: string): (r: int)
    ensures -1 <= r < |names|
    ensures r >= 0 ==> names[r] == name && forall j :: 0 <= j < r ==> names[j] != name
    ensures r < 0 ==> name !in names
    decreases |names|
  {
    if names == [] then -1
    else if names[0] == name then 0
    else
      var k := IndexOf(names[1..], name);
      if k < 0 then -1 else k + 1
  }

  /** The first filter: both ends non-empty and a positive value. */
  function Drawable(l: Link): bool {
    l.source != [] && l.target != [] && l.value > 0.0
  }

  /** The `map` to indices. */
  function Indexed(names: seq<string>, links: seq<Link>): (r: seq<IndexedLink>)
    ensures |r| == |links|
  {
    seq(|links|, i requires 0 <= i < |links| =>
      IndexedLink(IndexOf(names, links[i].source), IndexOf(names, links[i].target), links[i].value))
  }

  /** The last filter: both indices found. */
  function Found(l: IndexedLink): bool {
    l.source >= 0 && l.target >= 0
  }

  /** `iLinks`. */
  function ILinks(links: seq<Link>): seq<IndexedLink> {
    Filter(Indexed(NodeNames(links), Filter(links, Drawable)), Found)
  }

  /** `iLinks.reduce((acc, l) => acc + (l.value || 0), 0)`. */
  function Total(ls: seq<IndexedLink>): real
    decreases |ls|
  {
    if ls == [] then 0.0 else Total(ls[..|ls| - 1]) + ls[|ls| - 1].value
  }

  // --------------------------------------------------------------- properties

  /** The filter keeps exactly the elements `p` accepts. */
  lemma {:induction false} FilterMembers<T>(s: seq<T>, p: T -> bool, x: T)
    ensures x in Filter(s, p) <==> x in s && p(x)
    decreases |s|
  {
    if s != [] {
      var init := s[..|s| - 1];
      FilterMembers(init, p, x);
      assert s == init + [s[|s| - 1]];
    }
  }

  /** The filter keeps the order: filtering a concatenation concatenates the filtered parts. */
  lemma {:induction false} FilterAppend<T>(a: seq<T>, b: seq<T>, p: T -> bool)
    ensures Filter(a + b, p) == Filter(a, p) + Filter(b, p)
    decreases |b|
  {
    if b == [] {
      assert a + b == a;
    } else {
      var b' := b[..|b| - 1];
      FilterAppend(a, b', p);
      assert (a + b)[..|a + b| - 1] == a + b';
    }
  }

  /** A filter that accepts every element changes nothing. */
  lemma {:induction false} FilterAll<T>(s: seq<T>, p: T -> bool)
    requires forall i :: 0 <= i < |s| ==> p(s[i])
    ensures Filter(s, p) == s
    decreases |s|
  {
    if s != [] {
      FilterAll(s[..|s| - 1], p);
    }
  }

  /** The list of ends holds each link's source and target. */
  lemma {:induction false} EndsMembers(links: seq<Link>, x: string)
    ensures x in Ends(links) <==> exists i :: 0 <= i < |links| && (links[i].source == x || links[i].target == x)
    decreases |links|
  {
    if links != [] {
      var init := links[..|links| - 1];
      EndsMembers(init, x);
      if exists i :: 0 <= i < |init| && (init[i].source == x || init[i].target == x) {
        var i :| 0 <= i < |init| && (init[i].source == x || init[i].target == x);
        assert links[i] == init[i];
      }
      if exists i :: 0 <= i < |links| && (links[i].source == x || links[i].target == x) {
        var i :| 0 <= i < |links| && (links[i].source == x || links[i].target == x);
        if i < |init| { assert init[i] == links[i]; }
      }
    }
  }

  /** The node names hold no repeats and are exactly the non-empty link ends. */
  lemma NodeNamesProps(links: seq<Link>, x: string)
    ensures Unique(NodeNames(links))
    ensures x in NodeNames(links) <==>
      x != [] && exists i :: 0 <= i < |links| && (links[i].source == x || links[i].target == x)
  {
    var ends := Filter(Ends(links), NonEmpty);
    DedupeProps(ends);
    FilterMembers(Ends(links), NonEmpty, x);
    EndsMembers(links, x);
  }

  /** The node names of a longer list of links begin with those of its prefix: first appearance decides the order. */
  lemma NodeNamesExtend(links: seq<Link>, more: seq<Link>)
    ensures |NodeNames(links)| <= |NodeNames(links + more)|
    ensures NodeNames(links + more)[..|NodeNames(links)|] == NodeNames(links)
  {
    EndsAppend(links, more);
    FilterAppend(Ends(links), Ends(more), NonEmpty);
    DedupePrefix(Filter(Ends(links), NonEmpty), Filter(Ends(more), NonEmpty));
  }

  lemma {:induction false} EndsAppend(a: seq<Link>, b: seq<Link>)
    ensures Ends(a + b) == Ends(a) + Ends(b)
    decreases |b|
  {
    if b == [] {
      assert a + b == a;
    } else {
      var b' := b[..|b| - 1];
      EndsAppend(a, b');
      assert (a + b)[..|a + b| - 1] == a + b';
    }
  }

  /**
   * Every drawable link is found: the last filter drops nothing, and each
   * indexed link points at the nodes named by its ends and keeps its value.
   */
  lemma ILinksIndices(links: seq<Link>)
    ensures var kept := Filter(links, Drawable);
      var names := NodeNames(links);
      var r := ILinks(links);
      |r| == |kept| &&
      forall i :: 0 <= i < |r| ==>
        0 <= r[i].source < |Nodes(names)| && Nodes(names)[r[i].source].name == kept[i].source &&
        0 <= r[i].target < |Nodes(names)| && Nodes(names)[r[i].target].name == kept[i].target &&
        r[i].value == kept[i].value
  {
    var kept := Filter(links, Drawable);
    var names := NodeNames(links);
    var ix := Indexed(names, kept);
    forall i | 0 <= i < |kept|
      ensures kept[i].source in names && kept[i].target in names
    {
      FilterMembers(links, Drawable, kept[i]);
      var j :| 0 <= j < |links| && links[j] == kept[i];
      NodeNamesProps(links, kept[i].source);
      NodeNamesProps(links, kept[i].target);
    }
    FilterAll(ix, Found);
  }

  /** A link is drawn exactly when both its ends are non-empty and its value is positive. */
  lemma DrawnLinks(links: seq<Link>, l: Link)
    ensures l in Filter(links, Drawable) <==> l in links && l.source != [] && l.target != [] && l.value > 0.0
  {
    FilterMembers(links, Drawable, l);
  }

  /** The total is the sum of the drawn values, which are all positive, so it is never negative. */
  lemma {:induction false} TotalNonNegative(ls: seq<IndexedLink>)
    requires forall i :: 0 <= i < |ls| ==> ls[i].value > 0.0
    ensures Total(ls) >= 0.0
    ensures ls != [] ==> Total(ls) > 0.0
    decreases |ls|
  {
    if ls != [] {
      TotalNonNegative(ls[..|ls| - 1]);
    }
  }

  /** The chart's total is not negative, and is positive once some link is drawn. */
  lemma ChartTotal(links: seq<Link>)
    ensures Total(ILinks(links)) >= 0.0
    ensures Filter(links, Drawable) != [] ==> Total(ILinks(links)) > 0.0
  {
    ILinksIndices(links);
    var kept := Filter(links, Drawable);
    forall i | 0 <= i < |kept| ensures kept[i].value > 0.0 {
      FilterMembers(links, Drawable, kept[i]);
    }
    TotalNonNegative(ILinks(links));
  }
}
