/**
 * The overview projector (`renderArticleOverview` in src/pages/docs.tsx):
 * one outline entry per node, whose nested list holds the entries of the
 * node's events, methods, non-`Object` properties, `Object` properties and
 * classes, in that order.
 */
module Overview {
  import opened ApiDocs
  import opened Elements

  /**
   * One `<li>` of the outline: the link's `href` (`#name`), the link text,
   * whether the `api-key__item--has-children` class is set, and the nested
   * `<ul>` when there is one.
   */
  datatype OverviewItem = OverviewItem(
    href: string,
    text: string,
    hasChildren: bool,
    sublist: Option<seq<OverviewItem>>)
  {
    /** The nested entries; an entry without a nested list has none. */
    function Children(): seq<OverviewItem> {
      if sublist.Some? then sublist.value else []
    }
  }

  /** The property type that the overview lists after all the others. */
  const ObjectType := "Object"

  /**
   * `properties.filter(o => (o.type === 'Object') == objects)`: the
   * properties of one pass, in input order.
   */
  function SelectProps(ps: seq<Node>, objects: bool): (r: seq<Node>)
    ensures |r| <= |ps|
  {
    if ps == [] then []
    else
      var last := ps[|ps| - 1];
      SelectProps(ps[..|ps| - 1], objects) + (if (last.kind == ObjectType) == objects then [last] else [])
  }

  /**
   * Which children of one collection a `.map` visits: all of them, or one of
   * the two property passes.
   */
  datatype Pass = Every | NonObjects | OnlyObjects

  function Selected(ns: seq<Node>, pass: Pass): (r: seq<Node>)
    ensures |r| <= |ns|
  {
    match pass
    case Every => ns
    case NonObjects => SelectProps(ns, false)
    case OnlyObjects => SelectProps(ns, true)
  }

  /** Whether a pass visits a node. */
  predicate Visits(pass: Pass, x: Node) {
    match pass
    case Every => true
    case NonObjects => x.kind != ObjectType
    case OnlyObjects => x.kind == ObjectType
  }

  lemma SelectedSnoc(ns: seq<Node>, x: Node, pass: Pass)
    ensures Selected(ns + [x], pass) == Selected(ns, pass) + (if Visits(pass, x) then [x] else [])
  {
    assert (ns + [x])[..|ns|] == ns;
  }

  /** The entry built for a node from the entries of its children. */
  function Entry(n: Node, children: seq<OverviewItem>): (r: OverviewItem)
    ensures r.Children() == children
    ensures r.hasChildren <==> r.sublist.Some?
  {
    OverviewItem("#" + n.name, Label(n), |children| > 0, if |children| > 0 then Some(children) else None)
  }

  /**
   * The outline entry of a node: its events, methods, non-`Object`
   * properties, `Object` properties and classes are projected depth first.
   */
  function OverviewOf(n: Node): (r: OverviewItem)
    ensures r.hasChildren <==> r.sublist.Some?
    ensures r.sublist != Some([])
    decreases n, 0
  {
    Entry(n, Group(n.events, Every) + Group(n.methods, Every)
             + Group(n.properties, NonObjects) + Group(n.properties, OnlyObjects)
             + Group(n.classes, Every))
  }

  /** The entries one pass contributes from a collection; an absent one contributes none. */
  function Group(c: Coll, pass: Pass): (r: seq<OverviewItem>)
    decreases c, |Items(c)| + 1
  {
    if c.Present? then Visit(c.items, pass, |c.items|) else []
  }

  /** The entries of the first `k` nodes of `ns` that a pass visits, in order. */
  function Visit(ns: seq<Node>, pass: Pass, k: nat): (r: seq<OverviewItem>)
    requires k <= |ns|
    ensures |r| <= k
    // `ns` is wrapped in `Present` so that each `ns[i]` ranks below the measure.
    decreases Present(ns), k
  {
    if k == 0 then []
    else Visit(ns, pass, k - 1) + (if Visits(pass, ns[k - 1]) then [OverviewOf(ns[k - 1])] else [])
  }

  /** One outline entry per node, in order. */
  function Outlines(ns: seq<Node>): (r: seq<OverviewItem>)
    ensures |r| == |ns|
  {
    OutlinesAt(ns, |ns|);
    Visit(ns, Every, |ns|)
  }

  lemma {:induction false} OutlinesAt(ns: seq<Node>, k: nat)
    requires k <= |ns|
    ensures |Visit(ns, Every, k)| == k
    ensures forall i :: 0 <= i < k ==> Visit(ns, Every, k)[i] == OverviewOf(ns[i])
  {
    if k > 0 {
      OutlinesAt(ns, k - 1);
      var prev, out := Visit(ns, Every, k - 1), Visit(ns, Every, k);
      assert out == prev + [OverviewOf(ns[k - 1])];
      forall i | 0 <= i < k
        ensures out[i] == OverviewOf(ns[i])
      {
        if i < k - 1 {
          assert out[i] == prev[i];
        }
      }
    }
  }

  /** The walk over a prefix does not look past it. */
  lemma {:induction false} VisitPrefix(a: seq<Node>, b: seq<Node>, pass: Pass, k: nat)
    requires k <= |a|
    ensures Visit(a + b, pass, k) == Visit(a, pass, k)
  {
    if k > 0 {
      VisitPrefix(a, b, pass, k - 1);
      assert (a + b)[k - 1] == a[k - 1];
    }
  }

  /** Walking a prefix is projecting what the pass selects from it. */
  lemma {:induction false} VisitSelected(ns: seq<Node>, pass: Pass, k: nat)
    requires k <= |ns|
    ensures Visit(ns, pass, k) == Outlines(Selected(ns[..k], pass))
  {
    if k == 0 {
      assert ns[..0] == [];
      assert Selected([], pass) == [];
    } else {
      var pre, x := ns[..k - 1], ns[k - 1];
      VisitSelected(ns, pass, k - 1);
      assert ns[..k] == pre + [x];
      assert ns[..k - 1] == pre;
      SelectedOutlinesSnoc(pre, x, pass);
      assert Visit(ns, pass, k)
          == Visit(ns, pass, k - 1) + (if Visits(pass, x) then [OverviewOf(x)] else []);
    }
  }

  lemma SelectedOutlinesSnoc(ns: seq<Node>, x: Node, pass: Pass)
    ensures Outlines(Selected(ns + [x], pass))
         == Outlines(Selected(ns, pass)) + (if Visits(pass, x) then [OverviewOf(x)] else [])
  {
    SelectedSnoc(ns, x, pass);
    if Visits(pass, x) {
      assert Selected(ns + [x], pass) == Selected(ns, pass) + [x];
      OutlinesSnoc(Selected(ns, pass), x);
    } else {
      assert Selected(ns + [x], pass) == Selected(ns, pass);
    }
  }

  lemma OutlinesSnoc(ns: seq<Node>, x: Node)
    ensures Outlines(ns + [x]) == Outlines(ns) + [OverviewOf(x)]
  {
    VisitPrefix(ns, [x], Every, |ns|);
    assert (ns + [x])[|ns|] == x;
  }

  lemma {:induction false} OutlinesConcat(a: seq<Node>, b: seq<Node>)
    ensures Outlines(a + b) == Outlines(a) + Outlines(b)
  {
    if b == [] {
      assert a + b == a;
    } else {
      var init, x := b[..|b| - 1], b[|b| - 1];
      OutlinesConcat(a, init);
      assert b == init + [x];
      assert a + b == (a + init) + [x];
      OutlinesSnoc(a + init, x);
      OutlinesSnoc(init, x);
    }
  }

  /** A group is the projection of what its pass selects from the collection. */
  lemma GroupSelected(c: Coll, pass: Pass)
    ensures Group(c, pass) == Outlines(Selected(Items(c), pass))
  {
    if c.Present? {
      VisitSelected(c.items, pass, |c.items|);
      assert c.items[..|c.items|] == c.items;
    } else {
      assert Selected([], pass) == [];
    }
  }

  // Properties of `OverviewOf`.

  /** The two passes split the properties: together they keep each one exactly once. */
  lemma {:induction false} SelectPropsPartition(ps: seq<Node>)
    ensures |SelectProps(ps, false)| + |SelectProps(ps, true)| == |ps|
    ensures multiset(SelectProps(ps, false)) + multiset(SelectProps(ps, true)) == multiset(ps)
  {
    if ps != [] {
      var init, last := ps[..|ps| - 1], ps[|ps| - 1];
      SelectPropsPartition(init);
      assert ps == init + [last];
      assert multiset(ps) == multiset(init) + multiset{last};
      if last.kind == ObjectType {
        assert SelectProps(ps, true) == SelectProps(init, true) + [last];
        assert SelectProps(ps, false) == SelectProps(init, false);
      } else {
        assert SelectProps(ps, false) == SelectProps(init, false) + [last];
        assert SelectProps(ps, true) == SelectProps(init, true);
      }
    }
  }

  /** A pass keeps exactly the properties of its group. */
  lemma {:induction false} SelectPropsMembers(ps: seq<Node>, objects: bool, x: Node)
    ensures x in SelectProps(ps, objects) <==> x in ps && ((x.kind == ObjectType) == objects)
  {
    if ps != [] {
      var init := ps[..|ps| - 1];
      SelectPropsMembers(init, objects, x);
      assert ps == init + [ps[|ps| - 1]];
    }
  }

  /**
   * A pass commutes with concatenation, so each group keeps the input's
   * relative order.
   */
  lemma {:induction false} SelectPropsConcat(a: seq<Node>, b: seq<Node>, objects: bool)
    ensures SelectProps(a + b, objects) == SelectProps(a, objects) + SelectProps(b, objects)
  {
    if b == [] {
      assert a + b == a;
    } else {
      var init := b[..|b| - 1];
      SelectPropsConcat(a, init, objects);
      assert (a + b)[..|a + b| - 1] == a + init;
      assert (a + b)[|a + b| - 1] == b[|b| - 1];
    }
  }

  /**
   * The nested entries of a node are those of its events, its methods, its
   * non-`Object` properties, its `Object` properties and its classes, one
   * per child, each group in input order; modules and miscs add none.
   */
  lemma OverviewChildren(n: Node)
    ensures OverviewOf(n).Children()
         == Outlines(Items(n.events)) + Outlines(Items(n.methods))
          + Outlines(SelectProps(Items(n.properties), false))
          + Outlines(SelectProps(Items(n.properties), true))
          + Outlines(Items(n.classes))
    ensures |OverviewOf(n).Children()|
         == |Items(n.events)| + |Items(n.methods)| + |Items(n.properties)| + |Items(n.classes)|
  {
    GroupSelected(n.events, Every);
    GroupSelected(n.methods, Every);
    GroupSelected(n.properties, NonObjects);
    GroupSelected(n.properties, OnlyObjects);
    GroupSelected(n.classes, Every);
    SelectPropsPartition(Items(n.properties));
  }

  /**
   * Exactly the nodes with at least one event, method, property or class get
   * a nested list and the has-children class; the nested list is never empty.
   */
  lemma HasChildrenIff(n: Node)
    ensures OverviewOf(n).hasChildren <==> OverviewOf(n).sublist.Some?
    ensures OverviewOf(n).sublist != Some([])
    ensures OverviewOf(n).hasChildren
        <==> |Items(n.events)| + |Items(n.methods)| + |Items(n.properties)| + |Items(n.classes)| > 0
  {
    OverviewChildren(n);
  }

  /** The entry links to the anchor `#name` and shows the node's label. */
  lemma OverviewLink(n: Node)
    ensures OverviewOf(n).href == "#" + n.name && OverviewOf(n).text == Label(n)
  {
  }

  /** Modules and miscs are never visited: replacing them leaves the entry unchanged. */
  lemma OverviewIgnoresModulesAndMiscs(n: Node, modules: Coll, miscs: Coll)
    ensures OverviewOf(n.(modules := modules, miscs := miscs)) == OverviewOf(n)
  {
  }

  lemma SplitThreeProperties(a: Node, b: Node, c: Node)
    requires a.kind == ObjectType && b.kind == "string" && c.kind == ObjectType
    ensures SelectProps([a, b, c], false) == [b] && SelectProps([a, b, c], true) == [a, c]
  {
    var ps := [a, b, c];
    assert ps[..2] == [a, b] && [a, b][..1] == [a] && [a][..0] == [];
    assert SelectProps([a], false) == [] && SelectProps([a], true) == [a];
    assert SelectProps([a, b], false) == [b] && SelectProps([a, b], true) == [a];
  }

  /**
   * Properties `[a: Object, b: string, c: Object]` are listed as `b, a, c`.
   */
  lemma ObjectPropertiesListedLast(a: Node, b: Node, c: Node, parent: Node)
    requires a.kind == ObjectType && b.kind == "string" && c.kind == ObjectType
    requires parent.properties == Present([a, b, c])
    requires parent.events.Absent? && parent.methods.Absent? && parent.classes.Absent?
    ensures OverviewOf(parent).Children() == [OverviewOf(b), OverviewOf(a), OverviewOf(c)]
  {
    SplitThreeProperties(a, b, c);
    OverviewChildren(parent);
    assert Outlines([]) == [];
    assert Outlines([b]) == [OverviewOf(b)] by {
      OutlinesAt([b], 1);
    }
    assert Outlines([a, c]) == [OverviewOf(a), OverviewOf(c)] by {
      OutlinesAt([a, c], 2);
    }
  }

  /**
   * `renderArticleOverview(obj, overview)`: builds the entries of the
   * children into a fresh list, then pushes the one entry of `obj` onto the
   * caller's list and returns that same list.
   */
  method RenderArticleOverview(obj: Node, overview: ElementList<OverviewItem>)
      returns (r: ElementList<OverviewItem>)
    modifies overview
    ensures r == overview
    ensures overview.items == old(overview.items) + [OverviewOf(obj)]
    decreases obj, 1
  {
    var children := new ElementList<OverviewItem>();
    RenderEach(obj.events, Every, children);
    RenderEach(obj.methods, Every, children);
    RenderEach(obj.properties, NonObjects, children);
    RenderEach(obj.properties, OnlyObjects, children);
    RenderEach(obj.classes, Every, children);
    assert children.items == Group(obj.events, Every) + Group(obj.methods, Every)
      + Group(obj.properties, NonObjects) + Group(obj.properties, OnlyObjects)
      + Group(obj.classes, Every);
    overview.Push(Entry(obj, children.items));
    r := overview;
  }

  /**
   * `if (c) c.filter(…).map(x => renderArticleOverview(x, children))`: the
   * `map` is run only for the entries it pushes onto `children`.
   */
  method RenderEach(c: Coll, pass: Pass, children: ElementList<OverviewItem>)
    modifies children
    ensures children.items == old(children.items) + Group(c, pass)
    decreases c, |Items(c)| + 2
  {
    if c.Present? {
      var ns := c.items;
      for i := 0 to |ns|
        invariant children.items == old(children.items) + Visit(ns, pass, i)
      {
        if Visits(pass, ns[i]) {
          var _ := RenderArticleOverview(ns[i], children);
        }
      }
    }
  }
}
