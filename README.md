# API docs page: documentation-tree rendering, modelled in Dafny

This project models the core of the API documentation page of the Node.js
website prototype:

- the documentation node and its kind tests, from `src/hooks/useApiDocs.tsx`
  (module `ApiDocs`);
- the overview projector `renderArticleOverview` (module `Overview`), as a
  method that pushes onto a mutable accumulator;
- the section renderer `renderArticleSections` (module `Sections`), also a
  method that pushes onto a mutable accumulator;
- the article composition inside `renderArticle` (module `Article`);
- the release filter, the version choice, the selection state and the sidebar
  built by `sideBarSection` (module `DocsPage`).

The JSX arrays that the renderers create and pass to each other are modelled
by `Elements.ElementList`, a class whose `items` field each `Push`
extends. Each renderer is a method whose postcondition ties the new list
contents to a pure specification function (`OverviewOf`, `SectionsOf`). What
the page promises is then proved about those functions:

- the order of the children and the two-pass split of the properties;
- one entry per child and one `<section>` per node;
- the `<hr/>` and heading rules at each depth;
- the kind labels;
- the sidebar links and the version rules.

A documentation node is the datatype `ApiDocs.Node`. Its JSON field `type`
is named `kind`, because `type` is a Dafny keyword. An optional child
collection is `Coll`: `Absent` is a missing key, and `Present([])` is an empty
array, which JavaScript treats as truthy. The rendered markup is abstract:

- `OverviewItem(href, text, hasChildren, sublist)` for an outline `<li>`,
  whose `href` is `#` followed by the node's name;
- `Elem = Hr | Heading(level, text) | Body(kindLabel, typeText, id, paragraph) | Section(children)`
  for the reading pane.

JavaScript truthiness is modelled where the code relies on it:

- `displayName || name` also falls back to the name when `displayName` is the
  empty string;
- `desc && <p/>` adds no paragraph for an empty `desc`;
- in `version || (releases[0] && releases[0].version) || null`, an empty
  string counts as unset.

Two layout rules of the section renderer:

- Headings are `h2` … `h6` for depths 0 … 4; a page at depth 5 or deeper
  gets no heading (`src/pages/docs.tsx:82-113`).
- The output of a recursive call is nested inside the parent's `<section>`
  (`src/pages/docs.tsx:152-168`).

## Model

| member | source | states |
|---|---|---|
| ApiDocs.Leaf | src/hooks/useApiDocs.tsx:7-21 | a node needs only `type`, `name` and `textRaw`; display name, description, meta, `introduced_in`, the child collections, signatures, params and stability may all be absent |
| ApiDocs.Items | src/hooks/useApiDocs.tsx:15-20 | a missing child collection has no elements; a present one has exactly its array's elements |
| ApiDocs.KindOf | src/pages/docs.tsx:115-150 | the kind is the first test that holds in the order module, method, event, class, and property when none holds; each direction of each of the five cases |
| ApiDocs.IsMethodObj | src/hooks/useApiDocs.tsx:32-34 | the method test holds iff the type is `method`; `ApiDocs.KindTestsPassed` proves it excludes the other three tests |
| ApiDocs.IsEventObj | src/hooks/useApiDocs.tsx:43-45 | the event test holds iff the type is `event`; `ApiDocs.KindTestsPassed` proves it excludes the other three tests |
| ApiDocs.IsClassObj | src/hooks/useApiDocs.tsx:52-54 | the class test holds iff the type is `class`; `ApiDocs.KindTestsPassed` proves it excludes the other three tests |
| ApiDocs.IsModuleObj | src/hooks/useApiDocs.tsx:66-68 | the module test holds iff the type is `module`; `ApiDocs.KindTestsPassed` proves it excludes the other three tests |
| ApiDocs.KindTestsPassed | src/hooks/useApiDocs.tsx:32-68 | at most one of the four kind tests holds for any node, and exactly one holds iff the type is `method`, `event`, `class` or `module` |
| ApiDocs.OtherKindsPassNoTest | src/hooks/useApiDocs.tsx:32-68 | a node of any other type (`misc`, `Object`, `string`, …) passes no kind test and is labelled a property |
| ApiDocs.TaggedShapesAreRecognised | src/hooks/useApiDocs.tsx:27-68 | a node with the method or class shape (tag plus signatures with params), the module shape (tag plus stability and its text), the event tag or the misc tag is recognised by exactly the matching test, or by none for misc |
| ApiDocs.BucketOf | src/hooks/useApiDocs.tsx:70-76 | each of the five bucket names selects its own list of the response |
| ApiDocs.InitialResponse | src/hooks/useApiDocs.tsx:87-93 | before any document has arrived, all five buckets are empty |
| ApiDocs.Label | src/pages/docs.tsx:86 | the label is the display name when it is present and non-empty, else the name; a non-empty name gives a non-empty label |
| ApiDocs.Paragraph | src/pages/docs.tsx:119 | a description paragraph exists iff `desc` is present and non-empty, and it carries `desc` unchanged |
| Elements.ElementList.constructor | src/pages/docs.tsx:28 | a new accumulator is empty |
| Elements.ElementList.Push | src/pages/docs.tsx:54-55 | `push` appends one element and keeps the earlier ones in place |
| Overview.SelectProps | src/pages/docs.tsx:39-45 | a property pass keeps no more elements than it is given |
| Overview.SelectPropsPartition | src/pages/docs.tsx:39-45 | the non-`Object` pass and the `Object` pass together keep every property exactly once: their sizes add up and their multisets sum to the input's |
| Overview.SelectPropsMembers | src/pages/docs.tsx:39-45 | a property is in a pass iff it is one of the inputs and its type is (for the second pass) or is not (for the first) `Object` |
| Overview.SelectPropsConcat | src/pages/docs.tsx:39-45 | a pass commutes with concatenation, so each pass keeps the input order |
| Overview.Entry | src/pages/docs.tsx:54-68 | the `<li>` keeps exactly the children it is built from as its nested entries, and has the has-children class exactly when it has a nested `<ul>` |
| Overview.Visit | src/pages/docs.tsx:29-51 | the side-effecting `filter`/`map` walk over the first k nodes adds at most k entries; `Overview.VisitSelected` states that it is the projection of what the pass selects |
| Overview.Group | src/pages/docs.tsx:29-51 | the entries one `if (obj.x)` guarded pass contributes, none for a missing key; its meaning is stated by `Overview.GroupSelected` |
| Overview.Outlines | src/pages/docs.tsx:570-573 | `page.modules.map(renderArticleOverview)` yields one entry per module; `Overview.OutlinesAt` states that entry i is module i's own |
| Overview.OverviewOf | src/pages/docs.tsx:24-71 | an entry has the has-children class exactly when it has a nested list, and a nested list is never empty; its children are characterised by `Overview.OverviewChildren` |
| Overview.OutlinesAt | src/pages/docs.tsx:570-573 | mapping the projector over a list yields one entry per node, the i-th being the node's own entry |
| Overview.VisitSelected | src/pages/docs.tsx:39-45 | the map over the first k children visited by a pass equals the projection of what the filter selects from those k children |
| Overview.GroupSelected | src/pages/docs.tsx:28-51 | a group of entries is the projection of what its pass selects, and an absent collection gives none |
| Overview.OutlinesConcat | src/pages/docs.tsx:28-51 | projecting a concatenation is concatenating the projections |
| Overview.OverviewChildren | src/pages/docs.tsx:28-52 | the nested entries are those of the events, methods, non-`Object` properties, `Object` properties and classes, in that order, each group in input order; there is one entry per event, method, property and class |
| Overview.HasChildrenIff | src/pages/docs.tsx:54-70 | an entry has the has-children class iff it has a nested list, the nested list is never empty, and both hold iff the node has at least one event, method, property or class |
| Overview.OverviewLink | src/pages/docs.tsx:61-62 | the entry links to `#name` and shows the node's label |
| Overview.OverviewIgnoresModulesAndMiscs | src/pages/docs.tsx:28-52 | replacing a node's modules and miscs never changes its entry |
| Overview.ObjectPropertiesListedLast | src/pages/docs.tsx:39-45 | properties `[a: Object, b: string, c: Object]` are listed `b, a, c` |
| Overview.RenderArticleOverview | src/pages/docs.tsx:24-71 | the projector pushes exactly one entry, the node's specified entry, onto the list it is given, leaves the earlier entries in place, and returns that same list |
| Overview.RenderEach | src/pages/docs.tsx:29-51 | `filter` then `map` over a present collection appends, in order, the entries of exactly the children the pass visits; an absent collection appends nothing |
| Sections.KindLabel | src/pages/docs.tsx:115-150 | the word a body item starts with for each kind: `Module`, `Method`, `Event`, `Class` or `Property` |
| Sections.HeadingPart | src/pages/docs.tsx:82-113 | one heading for depths 0 … 4 and none deeper, at a level between 2 and 6; `Sections.SectionHeading` states the exact level `depth + 2` |
| Sections.BodyItem | src/pages/docs.tsx:115-150 | the body item of a page; `Sections.BodyItemDescribesPage` states its label, id, type text and paragraph |
| Sections.SectionContent | src/pages/docs.tsx:80-166 | a page's `<section>` holds its heading part, then its body item, then the sections of its events, methods, properties, classes and modules at depth + 1, in that order; miscs are never rendered (`Sections.SectionsIgnoreMiscs`) |
| Sections.GroupSections | src/pages/docs.tsx:152-166 | the `if (page.x)` guard: a missing collection adds nothing, a present one adds the sections of its nodes; counted by `Sections.OneSectionPerGroup` |
| Sections.PageElems | src/pages/docs.tsx:81-168 | one loop iteration adds two elements at depth 0 (the `<hr/>` and the section) and one deeper |
| Sections.SectionsSnoc | src/pages/docs.tsx:79-169 | the output for one more page is the earlier output followed by that page's elements |
| Sections.SectionsSingleton | src/pages/docs.tsx:79-169 | the output for a single page is exactly that page's elements |
| Sections.SectionsOf | src/pages/docs.tsx:73-172 | a list of n pages adds 2·n elements at depth 0 (an `<hr/>` and a section each) and n deeper; their order and contents are stated by `Sections.SectionsLayout` |
| Sections.SectionsLayout | src/pages/docs.tsx:79-83 | at depth 0 the output has 2·n elements, an `<hr/>` at every even position followed by the i-th page's section; deeper, it has n elements, the i-th being the i-th page's section |
| Sections.TopLayout | src/pages/docs.tsx:82-83 | the depth-0 layout holds for every prefix of the pages |
| Sections.DeepLayout | src/pages/docs.tsx:168 | the deeper layout holds for every prefix of the pages |
| Sections.DeepOutputIsSections | src/pages/docs.tsx:82-83 | below depth 0 the output holds sections only: no separator and no bare heading |
| Sections.SectionHeading | src/pages/docs.tsx:82-113 | at depths 0 … 4 a section opens with a heading of level depth + 2 and then the body item; from depth 5 it opens with the body item, and neither a heading nor a separator appears anywhere at its own level |
| Sections.BodyItemDescribesPage | src/pages/docs.tsx:115-150 | the body item's label is Module, Method, Event or Class iff that test is the first to hold, and Property otherwise; its id is the name, it shows the raw type, and it has a paragraph iff `desc` is non-empty |
| Sections.SectionsIgnoreMiscs | src/pages/docs.tsx:152-166 | a page's miscs never change its section |
| Sections.NestedModuleExample | src/pages/docs.tsx:73-172 | a module `fs` with a method `open` with an event `close` renders as `<hr/>` and three nested sections, with headings h2, h3, h4 and labels Module, Method, Event |
| Sections.SectionCountConcat | src/pages/docs.tsx:152-168 | the number of sections in a concatenation is the sum of the numbers |
| Sections.SectionCountByPage | src/pages/docs.tsx:79-169 | when each page's elements hold one section per node of its tree, so does the output for all the pages |
| Sections.OneSectionPerNode | src/pages/docs.tsx:152-168 | the output for a list of pages holds exactly one `<section>` per node of their trees, counted through events, methods, properties, classes and modules |
| Sections.OneSectionPerPage | src/pages/docs.tsx:82-83 | one page's elements hold exactly one section per node of its tree; the separator adds none |
| Sections.HeadAndBodyHaveNoSections | src/pages/docs.tsx:82-150 | the heading and the body item are not sections |
| Sections.ContentCount | src/pages/docs.tsx:152-166 | a page's section content holds one section per node of its tree other than the page itself |
| Sections.OneSectionPerGroup | src/pages/docs.tsx:152-166 | a child collection renders one section per node of its trees, and none when absent |
| Sections.RenderArticleSections | src/pages/docs.tsx:73-172 | the renderer pushes the specified elements of every page, in order, after the list's earlier contents, and returns that same list |
| Sections.RenderPage | src/pages/docs.tsx:80-168 | one loop iteration appends the page's elements: a separator at depth 0, then its section |
| Sections.RenderGroup | src/pages/docs.tsx:152-166 | `if (c) renderArticleSections(c, children, depth + 1)` appends the collection's sections, or nothing when it is absent |
| Sections.PushHeading | src/pages/docs.tsx:82-113 | at depth 0 one `<hr/>` goes onto the output list; the heading for the depth, or none from depth 5, goes onto the section's own list |
| Sections.PushBody | src/pages/docs.tsx:115-150 | exactly the page's body item is pushed |
| Article.ArticleOutline | src/pages/docs.tsx:568-574 | the outline has one entry more than the page has direct modules, and the first is the page's own entry |
| Article.ArticleOutlineShape | src/pages/docs.tsx:568-574 | the article outline has one entry more than the page has direct modules: the page's own entry first, then each module's entry in order |
| Article.RenderArticle | src/pages/docs.tsx:565-578 | with no page selected the installation article is shown for the version; otherwise the article has the page's label as title, the outline, the description paragraph and the sections of `[page]` |
| Article.ArticleSectionsShape | src/pages/docs.tsx:576 | the reading pane of a selected page is one separator and one section, which opens with the page's `h2` heading and its body item |
| DocsPage.LeadingDigits | src/pages/docs.tsx:622 | the digits `parseInt` reads are the longest run of decimal digits at the start of the string |
| DocsPage.MajorVersionOfReleaseName | src/pages/docs.tsx:622 | a release named `v<n><rest>`, with `rest` not starting with a digit, has major version n |
| DocsPage.MajorVersion | src/pages/docs.tsx:622 | a major version is read exactly when the character after the first one is a decimal digit; "first character" is one code point here, where `slice(1)` drops one UTF-16 code unit |
| DocsPage.IsListedRelease | src/pages/docs.tsx:622 | a listed release has a decimal digit after its first character; listing means a major version of at least 6 |
| DocsPage.ListedReleases | src/pages/docs.tsx:621-623 | the filter keeps no more releases than the history holds; membership and order are stated by `DocsPage.ListedReleasesMembers` and `DocsPage.ListedReleasesConcat` |
| DocsPage.ListedReleasesMembers | src/pages/docs.tsx:621-623 | a release is listed iff it is in the history and its major version is at least 6 |
| DocsPage.ListedReleasesConcat | src/pages/docs.tsx:621-623 | the filter commutes with concatenation, so it keeps the history's order |
| DocsPage.ListedReleasesSnoc | src/pages/docs.tsx:621-623 | one more release extends the listed ones by itself exactly when it is listed |
| DocsPage.ListedReleaseIsNonEmpty | src/pages/docs.tsx:622-626 | a listed release name has at least two characters, so it never counts as an unset version |
| DocsPage.ExampleListedNames | src/pages/docs.tsx:622 | `v14.2.0` and `v6.0.0` are listed |
| DocsPage.ExampleUnlistedNames | src/pages/docs.tsx:622 | `v5.12.0` and `latest` are not listed |
| DocsPage.ListedReleasesExample | src/pages/docs.tsx:621-623 | the history `v14.2.0, v5.12.0, v6.0.0, latest` lists `v14.2.0, v6.0.0` |
| DocsPage.CurrentVersion | src/pages/docs.tsx:625-626 | the version shown is the user's choice when it is set and non-empty, else the first listed release when there is one with a non-empty name, else none |
| DocsPage.InitialState | src/pages/docs.tsx:616-617 | the page starts with no version chosen and no page selected |
| DocsPage.ChangeVersion | src/pages/docs.tsx:639-642 | choosing a version clears the selected page and records the choice |
| DocsPage.VersionShown | src/pages/docs.tsx:619-642 | before any choice the first listed release is shown (none when no release is listed); after a non-empty choice that version is shown and no page is selected |
| DocsPage.SideBarSection | src/pages/docs.tsx:581-610 | a sidebar section carries its title and one link per node of the bucket, in bucket order; link i targets node i, shows its label and points to `#temporary_path_for_<name>` |
| DocsPage.SideBar | src/pages/docs.tsx:653-657 | the sidebar is five sections, in the order Globals, Methods, Misc, Modules, Classes, each built from its own bucket |
| DocsPage.Click | src/pages/docs.tsx:599 | a click selects the link's node and keeps the chosen version |
| DocsPage.ClickShowsBucketElement | src/pages/docs.tsx:594-606 | clicking the i-th link of a section selects exactly the i-th node of its bucket |
| DocsPage.InitialSideBarIsEmpty | src/pages/docs.tsx:653-657 | before any document arrives, all five sidebar sections are empty |

## Left out

- The installation article shown while no page is selected (`src/pages/docs.tsx:182-563`) is fixed markup built with `downloadUrlByOs` and `detectOS`, whose source is not part of this model. `Article.InstallGuide` records only the version it is rendered for.
- `RenderArticle` takes as its version the string the page passes (`currentVersionSelected || ''`); the model does not repeat that one-line conversion.
- The fetch of `all.json`, the calendar request and the `useEffect` scheduling in `useApiData` (`src/hooks/useApiDocs.tsx:95-118`) are network I/O and React effects. Only the initial empty response is modelled.
- `useReleaseHistory` is not part of this model. The release history is an input list of version strings.
- React state wiring, JSX keys and CSS class strings are not modelled, except the has-children flag. The description is an opaque string: `dangerouslySetInnerHTML` is not interpreted. The type-specific `api-key__item--<type>` and `api-docs__title--<type>` classes are not modelled.
- DocsPage.MajorVersion: models `parseInt(s, 10)` as the leading run of decimal digits after the first character, with no digits giving no number. Leading whitespace, a sign and the other `parseInt` details are not modelled. Names are sequences of code points, so `slice(1)` is modelled as dropping the first code point; the page drops one UTF-16 code unit, and a name starting with a character outside the Basic Multilingual Plane (such as `"\U{1F600}14.0.0"`) reads 14 here where the page gets NaN and filters it out.
- `stability` is a JavaScript number; the model uses an unbounded integer. Floating-point values are not modelled.
- The TypeScript type-guard annotation of `isEventObj` (it narrows to `ApiDocsClass`) has no runtime effect. Only the runtime string test is modelled.
- `src/components/Header/index.tsx` is static navigation markup plus a theme toggle. It has no logic to model.
- The shapes of `ApiDocsMethod`, `ApiDocsClass`, `ApiDocsModule` and `ApiDocsSignature` are ghost predicates over the one `Node` datatype. The datatype does not enforce them, just as the JSON does not.
- The model does not capture aliasing between the accumulators the page passes around. Each renderer writes only to the lists its `modifies` clause names, and the fresh lists it creates cannot alias the caller's.
