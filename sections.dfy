/**
 * The section renderer (`renderArticleSections` in src/pages/docs.tsx):
 * for each page, a separator at depth 0, then one `<section>` holding a
 * depth-dependent heading, a kind-labelled body item and the sections of the
 * page's events, methods, properties, classes and modules one level deeper.
 */
module Sections {
  import opened ApiDocs
  import opened Elements

  /**
   * The rendered markup: `<hr/>`, a heading `<hN>` with its text, the body
   * `<li id=…>Kind: (type) <p>desc</p></li>`, and a `<section>` of children.
   */
  datatype Elem =
    | Hr
    | Heading(level: nat, text: string)
    | Body(kindLabel: string, typeText: string, id: string, paragraph: Option<string>)
    | Section(children: seq<Elem>)

  /** The word a body item starts with for each kind. */
  function KindLabel(k: DocKind): string {
    match k
    case ModuleDoc => "Module"
    case MethodDoc => "Method"
    case EventDoc => "Event"
    case ClassDoc => "Class"
    case PropertyDoc => "Property"
  }

  /** The heading pushed at a depth: `h2` … `h6` for depths 0 … 4, none deeper. */
  function HeadingPart(page: Node, depth: nat): (r: seq<Elem>)
    ensures |r| == (if depth <= 4 then 1 else 0)
    ensures forall i :: 0 <= i < |r| ==> r[i].Heading? && 2 <= r[i].level <= 6
  {
    if depth <= 4 then [Heading(depth + 2, Label(page))] else []
  }

  /** The body item of a page. */
  function BodyItem(page: Node): Elem {
    Body(KindLabel(KindOf(page)), page.kind, page.name, Paragraph(page))
  }

  /** What the `<section>` of a page at a depth holds. */
  function SectionContent(page: Node, depth: nat): (r: seq<Elem>)
    decreases page, 1
  {
    HeadingPart(page, depth) + [BodyItem(page)]
    + GroupSections(page.events, depth + 1) + GroupSections(page.methods, depth + 1)
    + GroupSections(page.properties, depth + 1) + GroupSections(page.classes, depth + 1)
    + GroupSections(page.modules, depth + 1)
  }

  /** The sections of one child collection; a missing collection renders nothing. */
  function GroupSections(c: Coll, depth: nat): (r: seq<Elem>)
    decreases c, |Items(c)| + 2
  {
    if c.Present? then SectionsOf(c.items, depth) else []
  }

  /** What one page adds to the output list. */
  function PageElems(page: Node, depth: nat): (r: seq<Elem>)
    ensures |r| == (if depth == 0 then 2 else 1)
    decreases page, 2
  {
    (if depth == 0 then [Hr] else []) + [Section(SectionContent(page, depth))]
  }

  /** What a list of pages adds to the output list, page after page. */
  function SectionsOf(pages: seq<Node>, depth: nat): (r: seq<Elem>)
    ensures |r| == (if depth == 0 then 2 else 1) * |pages|
    // `pages` is wrapped in `Present` so that each `pages[i]` ranks below the measure.
    decreases Present(pages), |pages| + 1
  {
    SectionsUpTo(pages, depth, |pages|)
  }

  /** What the first `k` pages add to the output list. */
  function SectionsUpTo(pages: seq<Node>, depth: nat, k: nat): (r: seq<Elem>)
    requires k <= |pages|
    ensures |r| == (if depth == 0 then 2 else 1) * k
    // `pages` is wrapped in `Present` so that each `pages[i]` ranks below the measure.
    decreases Present(pages), k
  {
    if k == 0 then [] else SectionsUpTo(pages, depth, k - 1) + PageElems(pages[k - 1], depth)
  }

  /** The output for a prefix does not look past it. */
  lemma {:induction false} SectionsUpToPrefix(a: seq<Node>, b: seq<Node>, depth: nat, k: nat)
    requires k <= |a|
    ensures SectionsUpTo(a + b, depth, k) == SectionsUpTo(a, depth, k)
  {
    if k > 0 {
      SectionsUpToPrefix(a, b, depth, k - 1);
      assert (a + b)[k - 1] == a[k - 1];
    }
  }

  lemma SectionsSnoc(pages: seq<Node>, p: Node, depth: nat)
    ensures SectionsOf(pages + [p], depth) == SectionsOf(pages, depth) + PageElems(p, depth)
  {
    SectionsUpToPrefix(pages, [p], depth, |pages|);
    assert (pages + [p])[|pages|] == p;
  }

  // Properties of `SectionsOf`.

  lemma SectionsSingleton(p: Node, depth: nat)
    ensures SectionsOf([p], depth) == PageElems(p, depth)
  {
    SectionsSnoc([], p, depth);
    assert [] + [p] == [p];
  }

  /**
   * Each page adds one `<section>`, in input order; at depth 0 an `<hr/>`
   * stands immediately before it, at other depths nothing else is added.
   */
  lemma SectionsLayout(pages: seq<Node>, depth: nat)
    ensures |SectionsOf(pages, depth)| == (if depth == 0 then 2 else 1) * |pages|
    ensures depth == 0 ==> forall i :: 0 <= i < |pages| ==>
      SectionsOf(pages, depth)[2 * i] == Hr
      && SectionsOf(pages, depth)[2 * i + 1] == Section(SectionContent(pages[i], depth))
    ensures depth > 0 ==> forall i :: 0 <= i < |pages| ==>
      SectionsOf(pages, depth)[i] == Section(SectionContent(pages[i], depth))
  {
    if depth == 0 {
      TopLayout(pages, |pages|);
    } else {
      DeepLayout(pages, depth, |pages|);
    }
  }

  lemma {:induction false} TopLayout(pages: seq<Node>, k: nat)
    requires k <= |pages|
    ensures |SectionsUpTo(pages, 0, k)| == 2 * k
    ensures forall i :: 0 <= i < k ==>
      SectionsUpTo(pages, 0, k)[2 * i] == Hr
      && SectionsUpTo(pages, 0, k)[2 * i + 1] == Section(SectionContent(pages[i], 0))
  {
    if k > 0 {
      TopLayout(pages, k - 1);
      TopLayoutStep(pages, k, SectionsUpTo(pages, 0, k - 1), SectionsUpTo(pages, 0, k));
    }
  }

  /** One step of the depth-0 layout: appending the last page's pair. */
  lemma TopLayoutStep(pages: seq<Node>, k: nat, prev: seq<Elem>, out: seq<Elem>)
    requires 0 < k <= |pages| && |prev| == 2 * k - 2
    requires out == prev + PageElems(pages[k - 1], 0)
    requires forall i :: 0 <= i < k - 1 ==>
      prev[2 * i] == Hr && prev[2 * i + 1] == Section(SectionContent(pages[i], 0))
    ensures |out| == 2 * k
    ensures forall i :: 0 <= i < k ==>
      out[2 * i] == Hr && out[2 * i + 1] == Section(SectionContent(pages[i], 0))
  {
    assert PageElems(pages[k - 1], 0) == [Hr, Section(SectionContent(pages[k - 1], 0))];
  }

  lemma {:induction false} DeepLayout(pages: seq<Node>, depth: nat, k: nat)
    requires depth > 0 && k <= |pages|
    ensures |SectionsUpTo(pages, depth, k)| == k
    ensures forall i :: 0 <= i < k ==>
      SectionsUpTo(pages, depth, k)[i] == Section(SectionContent(pages[i], depth))
  {
    if k > 0 {
      DeepLayout(pages, depth, k - 1);
      var prev, out := SectionsUpTo(pages, depth, k - 1), SectionsUpTo(pages, depth, k);
      var last := [Section(SectionContent(pages[k - 1], depth))];
      assert out == prev + last;
      forall i | 0 <= i < k
        ensures out[i] == Section(SectionContent(pages[i], depth))
      {
        if i < k - 1 {
          assert out[i] == prev[i];
        } else {
          assert out[i] == last[0];
        }
      }
    }
  }

  /** Below depth 0 the output holds sections only: no separator, no bare heading. */
  lemma DeepOutputIsSections(pages: seq<Node>, depth: nat)
    requires depth > 0
    ensures forall e :: e in SectionsOf(pages, depth) ==> e.Section?
  {
    SectionsLayout(pages, depth);
  }

  lemma DeepGroupIsSections(c: Coll, depth: nat)
    requires depth > 0
    ensures forall e :: e in GroupSections(c, depth) ==> e.Section?
  {
    if c.Present? {
      DeepOutputIsSections(c.items, depth);
    }
  }

  /**
   * A page's section opens with a heading of level depth + 2 when the depth
   * is at most 4, followed by its body item; from depth 5 on it has no
   * heading at all and opens with the body item.
   */
  lemma SectionHeading(page: Node, depth: nat)
    ensures depth <= 4 ==>
      SectionContent(page, depth)[0] == Heading(depth + 2, Label(page))
      && SectionContent(page, depth)[1] == BodyItem(page)
    ensures depth > 4 ==>
      SectionContent(page, depth)[0] == BodyItem(page)
      && forall e :: e in SectionContent(page, depth) ==> !e.Heading? && !e.Hr?
  {
    if depth > 4 {
      DeepGroupIsSections(page.events, depth + 1);
      DeepGroupIsSections(page.methods, depth + 1);
      DeepGroupIsSections(page.properties, depth + 1);
      DeepGroupIsSections(page.classes, depth + 1);
      DeepGroupIsSections(page.modules, depth + 1);
      assert HeadingPart(page, depth) == [];
    }
  }

  /**
   * The body item is labelled by the first kind test that holds (module,
   * method, event, class), otherwise `Property`; it carries the name as its
   * id, the raw type string, and a paragraph only for a non-empty `desc`.
   */
  lemma BodyItemDescribesPage(page: Node)
    ensures BodyItem(page).id == page.name && BodyItem(page).typeText == page.kind
    ensures BodyItem(page).kindLabel == "Module" <==> IsModuleObj(page)
    ensures BodyItem(page).kindLabel == "Method" <==> IsMethodObj(page)
    ensures BodyItem(page).kindLabel == "Event" <==> IsEventObj(page)
    ensures BodyItem(page).kindLabel == "Class" <==> IsClassObj(page)
    ensures BodyItem(page).kindLabel == "Property"
        <==> !IsModuleObj(page) && !IsMethodObj(page) && !IsEventObj(page) && !IsClassObj(page)
    ensures BodyItem(page).paragraph.Some? <==> page.desc.Some? && page.desc.value != ""
  {
  }

  /** The miscs of a page are never rendered. */
  lemma SectionsIgnoreMiscs(page: Node, miscs: Coll, depth: nat)
    ensures SectionContent(page.(miscs := miscs), depth) == SectionContent(page, depth)
  {
  }

  /**
   * A module with a method child with an event grandchild renders as the
   * module's section holding the method's section holding the event's, with
   * headings of levels 2, 3 and 4 and labels Module, Method and Event.
   */
  lemma NestedModuleExample()
    ensures
      var e := Leaf("event", "close", "close");
      var f := Leaf("method", "open", "open").(events := Present([e]));
      var m := Leaf("module", "fs", "fs").(methods := Present([f]));
      SectionsOf([m], 0)
      == [Hr, Section([Heading(2, "fs"), Body("Module", "module", "fs", None),
             Section([Heading(3, "open"), Body("Method", "method", "open", None),
               Section([Heading(4, "close"), Body("Event", "event", "close", None)])])])]
  {
    var e := Leaf("event", "close", "close");
    var f := Leaf("method", "open", "open").(events := Present([e]));
    var m := Leaf("module", "fs", "fs").(methods := Present([f]));
    SectionsSingleton(e, 2);
    SectionsSingleton(f, 1);
    SectionsSingleton(m, 0);
    var ce := [Heading(4, "close"), Body("Event", "event", "close", None)];
    assert SectionContent(e, 2) == ce;
    assert GroupSections(f.events, 2) == [Section(ce)];
    var cf := [Heading(3, "open"), Body("Method", "method", "open", None), Section(ce)];
    assert SectionContent(f, 1) == cf;
    assert GroupSections(m.methods, 1) == [Section(cf)];
    var cm := [Heading(2, "fs"), Body("Module", "module", "fs", None), Section(cf)];
    assert SectionContent(m, 0) == cm;
    assert PageElems(m, 0) == [Hr, Section(cm)];
  }

  // Every node the renderer reaches gets exactly one section.

  function Sum(xs: seq<nat>): nat {
    if xs == [] then 0 else Sum(xs[..|xs| - 1]) + xs[|xs| - 1]
  }

  lemma {:induction false} SumConcat(a: seq<nat>, b: seq<nat>)
    ensures Sum(a + b) == Sum(a) + Sum(b)
  {
    if b == [] {
      assert a + b == a;
    } else {
      SumConcat(a, b[..|b| - 1]);
      assert (a + b)[..|a + b| - 1] == a + b[..|b| - 1];
    }
  }

  /** The number of nodes in a tree, counted through the five rendered collections. */
  function TreeSize(n: Node): nat
    decreases n, 2
  {
    1 + GroupSize(n.events) + GroupSize(n.methods) + GroupSize(n.properties)
      + GroupSize(n.classes) + GroupSize(n.modules)
  }

  function GroupSize(c: Coll): nat
    decreases c, 1
  {
    if c.Present? then ForestSize(c.items) else 0
  }

  function ForestSize(ns: seq<Node>): nat
    // `ns` is wrapped in `Present` so that each `ns[i]` ranks below the measure.
    decreases Present(ns), 0
  {
    Sum(seq(|ns|, i requires 0 <= i < |ns| => TreeSize(ns[i])))
  }

  /** The number of `<section>` elements in a list, at any nesting. */
  function SectionCount(es: seq<Elem>): nat
    // `es` is wrapped in `Section` so that each `es[i]` ranks below the measure.
    decreases Section(es), 0
  {
    Sum(seq(|es|, i requires 0 <= i < |es| => ElemSectionCount(es[i])))
  }

  function ElemSectionCount(e: Elem): nat
    decreases e, 1
  {
    if e.Section? then 1 + SectionCount(e.children) else 0
  }

  lemma SectionCountConcat(a: seq<Elem>, b: seq<Elem>)
    ensures SectionCount(a + b) == SectionCount(a) + SectionCount(b)
  {
    var f := i requires 0 <= i < |a + b| => ElemSectionCount((a + b)[i]);
    var xs := seq(|a + b|, f);
    assert xs == seq(|a|, i requires 0 <= i < |a| => ElemSectionCount(a[i]))
               + seq(|b|, i requires 0 <= i < |b| => ElemSectionCount(b[i]));
    SumConcat(seq(|a|, i requires 0 <= i < |a| => ElemSectionCount(a[i])),
              seq(|b|, i requires 0 <= i < |b| => ElemSectionCount(b[i])));
  }

  lemma ForestSizeSnoc(ns: seq<Node>, x: Node)
    ensures ForestSize(ns + [x]) == ForestSize(ns) + TreeSize(x)
  {
    var xs := seq(|ns + [x]|, i requires 0 <= i < |ns + [x]| => TreeSize((ns + [x])[i]));
    assert xs[..|ns|] == seq(|ns|, i requires 0 <= i < |ns| => TreeSize(ns[i]));
  }

  lemma SectionCountSingleton(e: Elem)
    ensures SectionCount([e]) == ElemSectionCount(e)
  {
    var xs := seq(|[e]|, i requires 0 <= i < |[e]| => ElemSectionCount([e][i]));
    assert xs == [ElemSectionCount(e)];
    assert xs[..0] == [];
    assert Sum(xs) == Sum(xs[..0]) + xs[0];
  }

  /** Summing page by page, given the count of each page. */
  lemma {:induction false} SectionCountByPage(pages: seq<Node>, depth: nat)
    requires forall i :: 0 <= i < |pages| ==> SectionCount(PageElems(pages[i], depth)) == TreeSize(pages[i])
    ensures SectionCount(SectionsOf(pages, depth)) == ForestSize(pages)
  {
    if pages != [] {
      var init, last := pages[..|pages| - 1], pages[|pages| - 1];
      assert pages == init + [last];
      SectionCountByPage(init, depth);
      SectionsSnoc(init, last, depth);
      ForestSizeSnoc(init, last);
      SectionCountConcat(SectionsOf(init, depth), PageElems(last, depth));
    }
  }

  /**
   * The output for a list of pages holds exactly one `<section>` per node of
   * their trees (through events, methods, properties, classes and modules).
   */
  lemma {:induction false} OneSectionPerNode(pages: seq<Node>, depth: nat)
    ensures SectionCount(SectionsOf(pages, depth)) == ForestSize(pages)
    // `pages` is wrapped in `Present` so that each `pages[i]` ranks below the measure.
    decreases Present(pages), 0
  {
    forall i | 0 <= i < |pages|
      ensures SectionCount(PageElems(pages[i], depth)) == TreeSize(pages[i])
    {
      OneSectionPerPage(pages[i], depth);
    }
    SectionCountByPage(pages, depth);
  }

  lemma {:induction false} OneSectionPerPage(page: Node, depth: nat)
    ensures SectionCount(PageElems(page, depth)) == TreeSize(page)
    decreases page, 2
  {
    var content := SectionContent(page, depth);
    ContentCount(page, depth);
    SectionCountConcat(if depth == 0 then [Hr] else [], [Section(content)]);
    SectionCountSingleton(Section(content));
    SectionCountSingleton(Hr);
  }

  lemma HeadAndBodyHaveNoSections(page: Node, depth: nat)
    ensures SectionCount(HeadingPart(page, depth) + [BodyItem(page)]) == 0
  {
    SectionCountConcat(HeadingPart(page, depth), [BodyItem(page)]);
    SectionCountSingleton(BodyItem(page));
    if depth <= 4 {
      SectionCountSingleton(Heading(depth + 2, Label(page)));
    }
  }

  lemma {:induction false} ContentCount(page: Node, depth: nat)
    ensures SectionCount(SectionContent(page, depth)) + 1 == TreeSize(page)
    decreases page, 1
  {
    var hb := HeadingPart(page, depth) + [BodyItem(page)];
    var ev, me, pr := GroupSections(page.events, depth + 1), GroupSections(page.methods, depth + 1),
                      GroupSections(page.properties, depth + 1);
    var cl, mo := GroupSections(page.classes, depth + 1), GroupSections(page.modules, depth + 1);
    assert SectionContent(page, depth) == hb + ev + me + pr + cl + mo;
    HeadAndBodyHaveNoSections(page, depth);
    OneSectionPerGroup(page.events, depth + 1);
    OneSectionPerGroup(page.methods, depth + 1);
    OneSectionPerGroup(page.properties, depth + 1);
    OneSectionPerGroup(page.classes, depth + 1);
    OneSectionPerGroup(page.modules, depth + 1);
    SectionCountConcat(hb, ev);
    SectionCountConcat(hb + ev, me);
    SectionCountConcat(hb + ev + me, pr);
    SectionCountConcat(hb + ev + me + pr, cl);
    SectionCountConcat(hb + ev + me + pr + cl, mo);
  }

  lemma {:induction false} OneSectionPerGroup(c: Coll, depth: nat)
    ensures SectionCount(GroupSections(c, depth)) == GroupSize(c)
    decreases c, 1
  {
    if c.Present? {
      OneSectionPerNode(c.items, depth);
    }
  }

  /**
   * `renderArticleSections(pages, sections, depth)`: pushes the elements of
   * every page onto `sections` and returns that same list.
   */
  method RenderArticleSections(pages: seq<Node>, sections: ElementList<Elem>, depth: nat)
      returns (r: ElementList<Elem>)
    modifies sections
    ensures r == sections
    ensures sections.items == old(sections.items) + SectionsOf(pages, depth)
    // `pages` is wrapped in `Present` so that each `pages[i]` ranks below the measure.
    decreases Present(pages), |pages| + 3
  {
    for i := 0 to |pages|
      invariant sections.items == old(sections.items) + SectionsUpTo(pages, depth, i)
    {
      RenderPage(pages[i], sections, depth);
    }
    r := sections;
  }

  /** The body of the loop over `pages`: everything one page adds. */
  method RenderPage(page: Node, sections: ElementList<Elem>, depth: nat)
    modifies sections
    ensures sections.items == old(sections.items) + PageElems(page, depth)
    decreases page, 5
  {
    var children := new ElementList<Elem>();
    PushHeading(page, depth, sections, children);
    PushBody(page, children);
    assert children.items == HeadingPart(page, depth) + [BodyItem(page)];

    RenderGroup(page.events, children, depth + 1);
    RenderGroup(page.methods, children, depth + 1);
    RenderGroup(page.properties, children, depth + 1);
    RenderGroup(page.classes, children, depth + 1);
    RenderGroup(page.modules, children, depth + 1);
    assert children.items == SectionContent(page, depth);

    sections.Push(Section(children.items));
  }

  /** `if (c) renderArticleSections(c, children, depth)`. */
  method RenderGroup(c: Coll, children: ElementList<Elem>, depth: nat)
    modifies children
    ensures children.items == old(children.items) + GroupSections(c, depth)
    decreases c, |Items(c)| + 4
  {
    if c.Present? {
      var _ := RenderArticleSections(c.items, children, depth);
    }
  }

  /**
   * The depth test of the loop body: at depth 0 an `<hr/>` onto `sections`,
   * and the heading `h2` … `h6` for depths 0 … 4 onto `children`.
   */
  method PushHeading(page: Node, depth: nat, sections: ElementList<Elem>, children: ElementList<Elem>)
    requires sections != children
    modifies sections, children
    ensures sections.items == old(sections.items) + (if depth == 0 then [Hr] else [])
    ensures children.items == old(children.items) + HeadingPart(page, depth)
  {
    if depth == 0 {
      sections.Push(Hr);
      children.Push(Heading(2, Label(page)));
    } else if depth == 1 {
      children.Push(Heading(3, Label(page)));
    } else if depth == 2 {
      children.Push(Heading(4, Label(page)));
    } else if depth == 3 {
      children.Push(Heading(5, Label(page)));
    } else if depth == 4 {
      children.Push(Heading(6, Label(page)));
    }
  }

  /** The kind test of the loop body: the first matching label, else `Property`. */
  method PushBody(page: Node, children: ElementList<Elem>)
    modifies children
    ensures children.items == old(children.items) + [BodyItem(page)]
  {
    if IsModuleObj(page) {
      children.Push(Body("Module", page.kind, page.name, Paragraph(page)));
    } else if IsMethodObj(page) {
      children.Push(Body("Method", page.kind, page.name, Paragraph(page)));
    } else if IsEventObj(page) {
      children.Push(Body("Event", page.kind, page.name, Paragraph(page)));
    } else if IsClassObj(page) {
      children.Push(Body("Class", page.kind, page.name, Paragraph(page)));
    } else {
      children.Push(Body("Property", page.kind, page.name, Paragraph(page)));
    }
  }
}
