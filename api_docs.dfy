/**
 * The documentation tree fetched for one release: the node interfaces of
 * src/hooks/useApiDocs.tsx as one recursive datatype, the four kind tests,
 * and the five-bucket response with its initial (empty) value.
 */
module ApiDocs {

  datatype Option<T> = None | Some(value: T)

  /** `meta` of a node: the versions that added and changed the entry. */
  datatype Meta = Meta(added: seq<string>, changes: seq<string>)

  /**
   * An optional child collection. `Absent` is a missing key in the JSON;
   * `Present([])` is an empty array (which JavaScript treats as truthy).
   */
  datatype Coll = Absent | Present(items: seq<Node>)

  /**
   * One documentation node. Every node has a `kind` (the JSON field `type`),
   * a `name` and a `textRaw`; everything else is optional. `signatures` is
   * carried by methods and classes, `params` by signatures, `stability` and
   * `stabilityText` by modules.
   */
  datatype Node = Node(
    kind: string,
    name: string,
    textRaw: string,
    displayName: Option<string>,
    desc: Option<string>,
    meta: Option<Meta>,
    introducedIn: Option<string>,
    modules: Coll,
    events: Coll,
    methods: Coll,
    classes: Coll,
    properties: Coll,
    miscs: Coll,
    signatures: Coll,
    params: Coll,
    stability: Option<int>,
    stabilityText: Option<string>)

  /** The elements of a collection; a missing collection has none. */
  function Items(c: Coll): (r: seq<Node>)
    ensures c.Absent? ==> r == []
    ensures c.Present? ==> r == c.items
  {
    if c.Present? then c.items else []
  }

  /** A node with only the three mandatory fields set. */
  function Leaf(kind: string, name: string, textRaw: string): (n: Node)
    ensures n.kind == kind && n.name == name && n.textRaw == textRaw
    ensures n.displayName.None? && n.desc.None? && n.meta.None? && n.introducedIn.None?
    ensures n.modules.Absent? && n.events.Absent? && n.methods.Absent?
    ensures n.classes.Absent? && n.properties.Absent? && n.miscs.Absent?
    ensures n.signatures.Absent? && n.params.Absent?
    ensures n.stability.None? && n.stabilityText.None?
  {
    Node(kind, name, textRaw, None, None, None, None,
         Absent, Absent, Absent, Absent, Absent, Absent, Absent, Absent, None, None)
  }

  // The four runtime kind tests: each compares `type` with one fixed string.

  predicate IsMethodObj(n: Node) { n.kind == "method" }

  predicate IsEventObj(n: Node) { n.kind == "event" }

  predicate IsClassObj(n: Node) { n.kind == "class" }

  predicate IsModuleObj(n: Node) { n.kind == "module" }

  /** The label families the section renderer distinguishes. */
  datatype DocKind = ModuleDoc | MethodDoc | EventDoc | ClassDoc | PropertyDoc

  /**
   * The first kind test that holds, tried in the renderer's order (module,
   * method, event, class); a node none of them accepts is a property.
   */
  function KindOf(n: Node): (k: DocKind)
    ensures k == ModuleDoc <==> IsModuleObj(n)
    ensures k == MethodDoc <==> IsMethodObj(n)
    ensures k == EventDoc <==> IsEventObj(n)
    ensures k == ClassDoc <==> IsClassObj(n)
    ensures k == PropertyDoc <==> !IsModuleObj(n) && !IsMethodObj(n) && !IsEventObj(n) && !IsClassObj(n)
  {
    if IsModuleObj(n) then ModuleDoc
    else if IsMethodObj(n) then MethodDoc
    else if IsEventObj(n) then EventDoc
    else if IsClassObj(n) then ClassDoc
    else PropertyDoc
  }

  /** The number of kind tests a node passes. */
  function KindTestsPassed(n: Node): (c: nat)
    ensures c <= 1
    ensures c == 1 <==> n.kind in {"method", "event", "class", "module"}
  {
    (if IsMethodObj(n) then 1 else 0) + (if IsEventObj(n) then 1 else 0)
    + (if IsClassObj(n) then 1 else 0) + (if IsModuleObj(n) then 1 else 0)
  }

  /** Any other type string (`misc`, `Object`, `string`, ...) passes none of the tests. */
  lemma OtherKindsPassNoTest(n: Node)
    requires n.kind !in {"method", "event", "class", "module"}
    ensures !IsMethodObj(n) && !IsEventObj(n) && !IsClassObj(n) && !IsModuleObj(n)
    ensures KindOf(n) == PropertyDoc
  {
  }

  // The shapes the node interfaces promise, beyond the fields every node has.

  /** `ApiDocsSignature`: a node whose `params` is a list of property nodes. */
  ghost predicate IsSignatureShape(s: Node) {
    s.params.Present?
  }

  /** `ApiDocsMethod` / `ApiDocsClass`: the kind tag plus a list of signatures. */
  ghost predicate IsCallableShape(n: Node, tag: string) {
    n.kind == tag && n.signatures.Present?
    && forall s :: s in n.signatures.items ==> IsSignatureShape(s)
  }

  /** `ApiDocsModule`: the module tag plus a numeric stability and its text. */
  ghost predicate IsModuleShape(n: Node) {
    n.kind == "module" && n.stability.Some? && n.stabilityText.Some?
  }

  /**
   * A node built to one of the tagged interfaces is recognised by exactly
   * the matching kind test.
   */
  lemma TaggedShapesAreRecognised(n: Node)
    ensures IsCallableShape(n, "method") ==> KindOf(n) == MethodDoc && KindTestsPassed(n) == 1
    ensures IsCallableShape(n, "class") ==> KindOf(n) == ClassDoc && KindTestsPassed(n) == 1
    ensures IsModuleShape(n) ==> KindOf(n) == ModuleDoc && KindTestsPassed(n) == 1
    ensures n.kind == "event" ==> KindOf(n) == EventDoc && KindTestsPassed(n) == 1
    ensures n.kind == "misc" ==> KindOf(n) == PropertyDoc && KindTestsPassed(n) == 0
  {
  }

  /** `APIResponse`: the five independent top-level buckets. */
  datatype ApiResponse = ApiResponse(
    classes: seq<Node>,
    globals: seq<Node>,
    methods: seq<Node>,
    miscs: seq<Node>,
    modules: seq<Node>)

  /** The names of the buckets (`keyof APIResponse`). */
  datatype Bucket = Classes | Globals | Methods | Miscs | Modules

  function BucketOf(data: ApiResponse, b: Bucket): (r: seq<Node>)
    ensures b == Classes ==> r == data.classes
    ensures b == Globals ==> r == data.globals
    ensures b == Methods ==> r == data.methods
    ensures b == Miscs ==> r == data.miscs
    ensures b == Modules ==> r == data.modules
  {
    match b
    case Classes => data.classes
    case Globals => data.globals
    case Methods => data.methods
    case Miscs => data.miscs
    case Modules => data.modules
  }

  /** The value the data hook holds before any document has arrived. */
  function InitialResponse(): (r: ApiResponse)
    ensures forall b :: BucketOf(r, b) == []
  {
    ApiResponse([], [], [], [], [])
  }

  /** `displayName || name`: an absent or empty display name falls back to the name. */
  function Label(n: Node): (r: string)
    ensures n.displayName.Some? && n.displayName.value != "" ==> r == n.displayName.value
    ensures (n.displayName.None? || n.displayName.value == "") ==> r == n.name
    ensures n.name != "" ==> r != ""
  {
    if n.displayName.Some? && n.displayName.value != "" then n.displayName.value else n.name
  }

  /** `desc && <p …/>`: the description paragraph, present only for a non-empty `desc`. */
  function Paragraph(n: Node): (r: Option<string>)
    ensures r.Some? <==> n.desc.Some? && n.desc.value != ""
    ensures r.Some? ==> r.value == n.desc.value
  {
    if n.desc.Some? && n.desc.value != "" then n.desc else None
  }
}
