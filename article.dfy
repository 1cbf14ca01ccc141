/**
 * The article for the selected page (`renderArticle` in src/pages/docs.tsx):
 * a title, an outline made of the page's own entry and one entry per direct
 * module, the page's description, and the sections of `[page]`.
 */
module Article {
  import opened ApiDocs
  import opened Elements
  import opened Overview
  import opened Sections

  datatype ArticleView =
    /** The static installation article shown while no page is selected. */
    | InstallGuide(version: string)
    | ApiArticle(title: string, outline: seq<OverviewItem>, intro: Option<string>, sections: seq<Elem>)

  /** The outline of a selected page: its own entry, then one per direct module. */
  function ArticleOutline(page: Node): (r: seq<OverviewItem>)
    ensures |r| == 1 + |Items(page.modules)| && r[0] == OverviewOf(page)
  {
    [OverviewOf(page)] + Outlines(Items(page.modules))
  }

  /**
   * The outline has one entry more than the page has direct modules: the
   * page's own entry first, then the modules' entries in order.
   */
  lemma {:induction false} ArticleOutlineShape(page: Node)
    ensures |ArticleOutline(page)| == 1 + |Items(page.modules)|
    ensures ArticleOutline(page)[0] == OverviewOf(page)
    ensures forall i :: 0 <= i < |Items(page.modules)| ==>
      ArticleOutline(page)[i + 1] == OverviewOf(Items(page.modules)[i])
  {
    var mods := Items(page.modules);
    var out, rest := ArticleOutline(page), Visit(mods, Every, |mods|);
    OutlinesAt(mods, |mods|);
    assert out == [OverviewOf(page)] + rest;
    forall i | 0 <= i < |mods|
      ensures out[i + 1] == OverviewOf(mods[i])
    {
      assert out[i + 1] == rest[i];
    }
  }

  method RenderArticle(page: Option<Node>, version: string) returns (a: ArticleView)
    ensures page.None? ==> a == InstallGuide(version)
    ensures page.Some? ==>
      a == ApiArticle(Label(page.value), ArticleOutline(page.value), Paragraph(page.value),
                      SectionsOf([page.value], 0))
  {
    if page.None? {
      return InstallGuide(version);
    }
    var p := page.value;
    var overview := new ElementList<OverviewItem>();
    var _ := RenderArticleOverview(p, overview);
    var outline := overview.items;
    if p.modules.Present? {
      var mods := p.modules.items;
      for i := 0 to |mods|
        invariant outline == [OverviewOf(p)] + Outlines(mods[..i])
      {
        var acc := new ElementList<OverviewItem>();
        var entries := RenderArticleOverview(mods[i], acc);
        outline := outline + entries.items;
        OutlinesSnoc(mods[..i], mods[i]);
        assert mods[..i + 1] == mods[..i] + [mods[i]];
      }
      assert mods[..|mods|] == mods;
    }
    var sections := new ElementList<Elem>();
    var _ := RenderArticleSections([p], sections, 0);
    a := ApiArticle(Label(p), outline, Paragraph(p), sections.items);
  }

  /**
   * The reading pane of a selected page is one separator and one section,
   * which opens with the page's `h2` heading and its body item.
   */
  lemma ArticleSectionsShape(page: Node)
    ensures SectionsOf([page], 0) == [Hr, Section(SectionContent(page, 0))]
    ensures SectionContent(page, 0)[0] == Heading(2, Label(page))
    ensures SectionContent(page, 0)[1] == BodyItem(page)
  {
    SectionsSingleton(page, 0);
    SectionHeading(page, 0);
  }
}
