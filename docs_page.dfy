/**
 * The API docs page (`APIDocsPage` and `sideBarSection` in
 * src/pages/docs.tsx): the release filter, the version shown, the selection
 * state and the sidebar built from the five buckets.
 */
module DocsPage {
  import opened ApiDocs

  // Releases: `parseInt(version.slice(1), 10) >= 6`.

  predicate IsDigit(c: char) {
    '0' <= c <= '9'
  }

  /** The maximal run of decimal digits at the start of a string. */
  function LeadingDigits(s: string): (r: string)
    ensures |r| <= |s| && r == s[..|r|]
    ensures forall k :: 0 <= k < |r| ==> IsDigit(r[k])
    ensures |r| < |s| ==> !IsDigit(s[|r|])
  {
    if s == [] || !IsDigit(s[0]) then [] else [s[0]] + LeadingDigits(s[1..])
  }

  function DigitValue(c: char): nat
    requires IsDigit(c)
  {
    c as int - '0' as int
  }

  /** The value of a string of decimal digits. */
  function DigitsValue(ds: string): nat
    requires forall k :: 0 <= k < |ds| ==> IsDigit(ds[k])
  {
    if ds == [] then 0
    else DigitsValue(ds[..|ds| - 1]) * 10 + DigitValue(ds[|ds| - 1])
  }

  /**
   * The major version read from a release name: the leading digits after its
   * first character, or nothing when there are none (`parseInt` gives NaN).
   */
  function MajorVersion(version: string): (r: Option<nat>)
    ensures r.Some? <==> |version| >= 2 && IsDigit(version[1])
  {
    var ds := LeadingDigits(if version == [] then [] else version[1..]);
    if ds == [] then None else Some(DigitsValue(ds))
  }

  /** The releases the version selector offers. */
  predicate IsListedRelease(version: string): (r: bool)
    ensures r ==> |version| >= 2 && IsDigit(version[1])
  {
    var major := MajorVersion(version);
    major.Some? && major.value >= 6
  }

  /** `useReleaseHistory().filter(…)`: the listed releases, in history order. */
  function ListedReleases(history: seq<string>): (r: seq<string>)
    ensures |r| <= |history|
  {
    if history == [] then []
    else
      var last := history[|history| - 1];
      ListedReleases(history[..|history| - 1]) + (if IsListedRelease(last) then [last] else [])
  }

  /** A release is listed exactly when its major version is at least 6. */
  lemma {:induction false} ListedReleasesMembers(history: seq<string>, v: string)
    ensures v in ListedReleases(history) <==> v in history && IsListedRelease(v)
  {
    if history != [] {
      var init := history[..|history| - 1];
      ListedReleasesMembers(init, v);
      assert history == init + [history[|history| - 1]];
    }
  }

  /** The filter keeps the history's order: it commutes with concatenation. */
  lemma {:induction false} ListedReleasesConcat(a: seq<string>, b: seq<string>)
    ensures ListedReleases(a + b) == ListedReleases(a) + ListedReleases(b)
  {
    if b == [] {
      assert a + b == a;
    } else {
      var init, x := b[..|b| - 1], b[|b| - 1];
      var keep := if IsListedRelease(x) then [x] else [];
      assert b == init + [x];
      calc {
        ListedReleases(a + b);
        { assert a + b == (a + init) + [x]; }
        ListedReleases((a + init) + [x]);
        { ListedReleasesSnoc(a + init, x); }
        ListedReleases(a + init) + keep;
        { ListedReleasesConcat(a, init); }
        ListedReleases(a) + ListedReleases(init) + keep;
        { ListedReleasesSnoc(init, x); }
        ListedReleases(a) + ListedReleases(b);
      }
    }
  }

  lemma ListedReleasesSnoc(history: seq<string>, x: string)
    ensures ListedReleases(history + [x]) == ListedReleases(history) + (if IsListedRelease(x) then [x] else [])
  {
    assert (history + [x])[..|history|] == history;
  }

  /** The decimal digits of a number, most significant first, without leading zeros. */
  function Decimal(n: nat): (r: string)
    ensures |r| > 0
    ensures forall k :: 0 <= k < |r| ==> IsDigit(r[k])
  {
    var d := ['0' + (n % 10) as char];
    if n < 10 then d else Decimal(n / 10) + d
  }

  lemma {:induction false} DecimalValue(n: nat)
    ensures DigitsValue(Decimal(n)) == n
  {
    var d := ['0' + (n % 10) as char];
    if n < 10 {
      assert Decimal(n) == d && d[..0] == [];
    } else {
      DecimalValue(n / 10);
      var r := Decimal(n / 10) + d;
      assert r[..|r| - 1] == Decimal(n / 10);
    }
  }

  lemma {:induction false} LeadingDigitsOf(ds: string, rest: string)
    requires forall k :: 0 <= k < |ds| ==> IsDigit(ds[k])
    requires rest == [] || !IsDigit(rest[0])
    ensures LeadingDigits(ds + rest) == ds
  {
    if ds != [] {
      LeadingDigitsOf(ds[1..], rest);
      assert (ds + rest)[1..] == ds[1..] + rest;
    } else {
      assert ds + rest == rest;
    }
  }

  /**
   * A release named `v<n><rest>`, where `rest` does not start with a digit
   * (`.1.0`, say), has major version n.
   */
  lemma MajorVersionOfReleaseName(n: nat, rest: string)
    requires rest == [] || !IsDigit(rest[0])
    ensures MajorVersion("v" + Decimal(n) + rest) == Some(n)
  {
    var name := "v" + Decimal(n) + rest;
    assert name[1..] == Decimal(n) + rest;
    LeadingDigitsOf(Decimal(n), rest);
    DecimalValue(n);
  }

  /** A listed release name is never empty: it has a digit after its first character. */
  lemma ListedReleaseIsNonEmpty(v: string)
    requires IsListedRelease(v)
    ensures |v| >= 2
  {
  }

  /** `v14.2.0` and `v6.0.0` are listed. */
  lemma ExampleListedNames()
    ensures IsListedRelease("v14.2.0") && IsListedRelease("v6.0.0")
  {
    ListedVersion14();
    ListedVersion6();
  }

  lemma ListedVersion14()
    ensures MajorVersion("v14.2.0") == Some(14)
  {
    MajorVersionOfReleaseName(14, ".2.0");
    assert "v" + Decimal(14) + ".2.0" == "v14.2.0";
  }

  lemma ListedVersion6()
    ensures MajorVersion("v6.0.0") == Some(6)
  {
    MajorVersionOfReleaseName(6, ".0.0");
    assert "v" + Decimal(6) + ".0.0" == "v6.0.0";
  }

  /** `v5.12.0` and `latest` are not. */
  lemma ExampleUnlistedNames()
    ensures !IsListedRelease("v5.12.0") && !IsListedRelease("latest")
  {
    MajorVersionOfReleaseName(5, ".12.0");
    assert "v" + Decimal(5) + ".12.0" == "v5.12.0";
    assert "latest"[1..] == "atest";
  }

  lemma ListedReleasesOfFour(a: string, b: string, c: string, d: string)
    ensures ListedReleases([a, b, c, d])
         == (if IsListedRelease(a) then [a] else []) + (if IsListedRelease(b) then [b] else [])
          + (if IsListedRelease(c) then [c] else []) + (if IsListedRelease(d) then [d] else [])
  {
    var h := [a, b, c, d];
    assert h[..3] == [a, b, c] && h[..3][..2] == [a, b] && h[..2][..1] == [a] && h[..1][..0] == [];
    assert ListedReleases([a]) == (if IsListedRelease(a) then [a] else []);
    assert ListedReleases([a, b]) == ListedReleases([a]) + (if IsListedRelease(b) then [b] else []);
    assert ListedReleases([a, b, c]) == ListedReleases([a, b]) + (if IsListedRelease(c) then [c] else []);
  }

  lemma ListedReleasesExample()
    ensures ListedReleases(["v14.2.0", "v5.12.0", "v6.0.0", "latest"]) == ["v14.2.0", "v6.0.0"]
  {
    ExampleListedNames();
    ExampleUnlistedNames();
    ListedReleasesOfFour("v14.2.0", "v5.12.0", "v6.0.0", "latest");
  }

  // The version shown and the selection state.

  /**
   * `version || (releases[0] && releases[0].version) || null`: the user's
   * choice unless it is unset or empty, else the first listed release.
   */
  function CurrentVersion(choice: Option<string>, releases: seq<string>): (r: Option<string>)
    ensures choice.Some? && choice.value != "" ==> r == choice
    ensures (choice.None? || choice.value == "") && releases != [] && releases[0] != "" ==> r == Some(releases[0])
    ensures (choice.None? || choice.value == "") && (releases == [] || releases[0] == "") ==> r.None?
  {
    if choice.Some? && choice.value != "" then choice
    else if releases != [] && releases[0] != "" then Some(releases[0])
    else None
  }

  /** The page's React state: the version picked in the selector and the node shown. */
  datatype PageState = PageState(version: Option<string>, page: Option<Node>)

  function InitialState(): (s: PageState)
    ensures s.version.None? && s.page.None?
  {
    PageState(None, None)
  }

  /** The selector's `onChange`: clear the page, then record the chosen version. */
  function ChangeVersion(s: PageState, chosen: string): (s': PageState)
    ensures s'.page.None? && s'.version == Some(chosen)
  {
    s.(page := None, version := Some(chosen))
  }

  /**
   * Before any choice the first listed release is shown; after a non-empty
   * choice that version is shown and no page is selected.
   */
  lemma VersionShown(s: PageState, history: seq<string>, chosen: string)
    ensures ListedReleases(history) != [] ==>
      CurrentVersion(InitialState().version, ListedReleases(history)) == Some(ListedReleases(history)[0])
    ensures ListedReleases(history) == [] ==>
      CurrentVersion(InitialState().version, ListedReleases(history)).None?
    ensures chosen != "" ==>
      CurrentVersion(ChangeVersion(s, chosen).version, ListedReleases(history)) == Some(chosen)
      && ChangeVersion(s, chosen).page.None?
  {
    var rs := ListedReleases(history);
    if rs != [] {
      ListedReleasesMembers(history, rs[0]);
      ListedReleaseIsNonEmpty(rs[0]);
    }
  }

  // The sidebar.

  /** One sidebar link: its href, its text and the node a click selects. */
  datatype SidebarItem = SidebarItem(href: string, text: string, target: Node)

  datatype SidebarSection = SidebarSection(title: string, items: seq<SidebarItem>)

  /** `sideBarSection(title, section, data, setPage)`: one link per node of the bucket. */
  function SideBarSection(title: string, section: Bucket, data: ApiResponse): (r: SidebarSection)
    ensures r.title == title
    ensures |r.items| == |BucketOf(data, section)|
    ensures forall i :: 0 <= i < |r.items| ==>
      r.items[i].target == BucketOf(data, section)[i]
      && r.items[i].text == Label(BucketOf(data, section)[i])
      && r.items[i].href == "#temporary_path_for_" + BucketOf(data, section)[i].name
  {
    var ns := BucketOf(data, section);
    SidebarSection(title, seq(|ns|, i requires 0 <= i < |ns| =>
      SidebarItem("#temporary_path_for_" + ns[i].name, Label(ns[i]), ns[i])))
  }

  /** The five sidebar sections, in the order the page lists them. */
  function SideBar(data: ApiResponse): (r: seq<SidebarSection>)
    ensures |r| == 5
    ensures [r[0].title, r[1].title, r[2].title, r[3].title, r[4].title]
         == ["Globals", "Methods", "Misc", "Modules", "Classes"]
    ensures r[0] == SideBarSection("Globals", Globals, data)
    ensures r[1] == SideBarSection("Methods", Methods, data)
    ensures r[2] == SideBarSection("Misc", Miscs, data)
    ensures r[3] == SideBarSection("Modules", Modules, data)
    ensures r[4] == SideBarSection("Classes", Classes, data)
  {
    [SideBarSection("Globals", Globals, data), SideBarSection("Methods", Methods, data),
     SideBarSection("Misc", Miscs, data), SideBarSection("Modules", Modules, data),
     SideBarSection("Classes", Classes, data)]
  }

  /** A link's `onClick`: `setPage(module)`. */
  function Click(s: PageState, item: SidebarItem): (s': PageState)
    ensures s'.page == Some(item.target) && s'.version == s.version
  {
    s.(page := Some(item.target))
  }

  /** Clicking the i-th link of a section shows exactly the i-th node of its bucket. */
  lemma ClickShowsBucketElement(s: PageState, title: string, section: Bucket, data: ApiResponse, i: nat)
    requires i < |BucketOf(data, section)|
    ensures i < |SideBarSection(title, section, data).items|
    ensures Click(s, SideBarSection(title, section, data).items[i]).page == Some(BucketOf(data, section)[i])
    ensures Click(s, SideBarSection(title, section, data).items[i]).version == s.version
  {
  }

  /** Before any document arrives, every sidebar section is empty. */
  lemma InitialSideBarIsEmpty()
    ensures forall k :: 0 <= k < 5 ==> SideBar(InitialResponse())[k].items == []
  {
  }
}
