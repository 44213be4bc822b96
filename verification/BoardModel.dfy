/** Project items as GitHub lists them, and the board issues built from them. */
module BoardModel {
  import opened Text

  type Url = string

  /** Deepest level, counted from a root, whose children are still expanded. */
  const MAX_TREE_DEPTH: nat := 10

  /** Budget of visited nodes, and of counted hidden nodes. */
  const MAX_COUNT_NODES: nat := 100_000

  datatype SubIssue = SubIssue(number: nat, title: string, url: Url)

  datatype Item = Item(
    number: nat,
    title: string,
    url: Url,
    labels: seq<string>,
    status: Option<string>,
    area: Option<string>,
    kind: Option<string>,
    dependsOn: Option<nat>,
    subIssues: seq<SubIssue>)

  /** Items by URL. */
  type Index = m: map<Url, Item> | forall u | u in m :: m[u].url == u

  datatype Layer = Planning | Design | Frontend | Backend | Unassigned

  datatype Status = Backlog | Ready | InProgress | InReview | Done

  datatype Issue = Issue(
    number: nat,
    title: string,
    url: Url,
    layer: Layer,
    status: Status,
    children: seq<Issue>,
    kind: Option<string>,
    dependsOn: Option<nat>,
    childrenTruncated: bool)

  function MapStatus(status: string): Option<Status> {
    match AsciiLower(Trim(status))
    case "backlog" => Some(Backlog)
    case "ready" => Some(Ready)
    case "in progress" => Some(InProgress)
    case "in review" => Some(InReview)
    case "done" => Some(Done)
    case _ => None
  }

  function MapArea(area: string): Option<Layer> {
    match Trim(area)
    case "기획" => Some(Planning)
    case "디자인" => Some(Design)
    case "프론트엔드" => Some(Frontend)
    case "프론트" => Some(Frontend)
    case "백엔드" => Some(Backend)
    case _ => None
  }

  function LayerFromLabel(name: string): Option<Layer> {
    match AsciiLower(Trim(name))
    case "layer:planning" => Some(Planning)
    case "layer:design" => Some(Design)
    case "layer:frontend" => Some(Frontend)
    case "layer:backend" => Some(Backend)
    case _ => None
  }

  function FirstLabelledLayer(labels: seq<string>): Option<Layer> {
    if labels == [] then None
    else if LayerFromLabel(labels[0]).Some? then LayerFromLabel(labels[0])
    else FirstLabelledLayer(labels[1..])
  }

  /** The area field wins, then the first layer label, then the triage lane. */
  function LayerOf(item: Item): Layer {
    var byArea := if item.area.Some? then MapArea(item.area.value) else None;
    if byArea.Some? then byArea.value
    else
      var byLabel := FirstLabelledLayer(item.labels);
      if byLabel.Some? then byLabel.value else Unassigned
  }

  function StatusOf(item: Item): Option<Status> {
    if item.status.Some? then MapStatus(item.status.value) else None
  }

  /** The issue an item with a recognised status is shown as. */
  function Shown(item: Item, children: seq<Issue>, childrenTruncated: bool): Issue
    requires StatusOf(item).Some?
  {
    Issue(item.number, item.title, item.url, LayerOf(item), StatusOf(item).value, children,
          item.kind, item.dependsOn, childrenTruncated)
  }

  /** The URLs shown anywhere in a forest. */
  function Urls(forest: seq<Issue>): set<Url> {
    if forest == [] then {}
    else {forest[0].url} + Urls(forest[0].children) + Urls(forest[1..])
  }

  function Size(forest: seq<Issue>): nat {
    if forest == [] then 0
    else 1 + Size(forest[0].children) + Size(forest[1..])
  }

  /** Number of levels. */
  function Height(forest: seq<Issue>): nat {
    if forest == [] then 0
    else
      var here := 1 + Height(forest[0].children);
      var rest := Height(forest[1..]);
      if here > rest then here else rest
  }

  /** No root-to-leaf path repeats a URL or uses one of `above`. */
  predicate PathsSimple(forest: seq<Issue>, above: set<Url>) {
    forest != [] ==>
      && forest[0].url !in above
      && PathsSimple(forest[0].children, above + {forest[0].url})
      && PathsSimple(forest[1..], above)
  }

  /** Some node says that children of it are hidden. */
  predicate SomeFlagged(forest: seq<Issue>) {
    forest != [] &&
    (forest[0].childrenTruncated || SomeFlagged(forest[0].children) || SomeFlagged(forest[1..]))
  }

  lemma SingleIssue(x: Issue)
    ensures Urls([x]) == {x.url} + Urls(x.children)
    ensures SomeFlagged([x]) <==> x.childrenTruncated || SomeFlagged(x.children)
  {
    assert [x][1..] == [];
  }

  lemma {:induction false} UrlsConcat(a: seq<Issue>, b: seq<Issue>)
    ensures Urls(a + b) == Urls(a) + Urls(b)
    ensures Size(a + b) == Size(a) + Size(b)
    ensures Height(a + b) == if Height(a) > Height(b) then Height(a) else Height(b)
    ensures SomeFlagged(a + b) <==> SomeFlagged(a) || SomeFlagged(b)
  {
    if a == [] {
      assert a + b == b;
    } else {
      UrlsConcat(a[1..], b);
      assert (a + b)[1..] == a[1..] + b;
    }
  }

  lemma {:induction false} PathsSimpleConcat(a: seq<Issue>, b: seq<Issue>, above: set<Url>)
    ensures PathsSimple(a + b, above) <==> PathsSimple(a, above) && PathsSimple(b, above)
  {
    if a == [] {
      assert a + b == b;
    } else {
      PathsSimpleConcat(a[1..], b, above);
      assert (a + b)[1..] == a[1..] + b;
    }
  }

  // ---- Names ----

  function StatusName(status: Status): string {
    match status
    case Backlog => "backlog"
    case Ready => "ready"
    case InProgress => "in progress"
    case InReview => "in review"
    case Done => "done"
  }

  /** A status is recognised by its name, whatever its case and the white space around it. */
  lemma StatusByName(text: string, status: Status)
    ensures MapStatus(text) == Some(status) <==> AsciiLower(Trim(text)) == StatusName(status)
  {
  }

  function LabelOf(layer: Layer): Option<string> {
    match layer
    case Planning => Some("layer:planning")
    case Design => Some("layer:design")
    case Frontend => Some("layer:frontend")
    case Backend => Some("layer:backend")
    case Unassigned => None
  }

  /** A layer is recognised by its label, and the triage lane by none. */
  lemma LayerByLabel(name: string, layer: Layer)
    ensures LayerFromLabel(name) == Some(layer) <==> LabelOf(layer) == Some(AsciiLower(Trim(name)))
  {
  }

  function AreaNames(layer: Layer): set<string> {
    match layer
    case Planning => {"기획"}
    case Design => {"디자인"}
    case Frontend => {"프론트엔드", "프론트"}
    case Backend => {"백엔드"}
    case Unassigned => {}
  }

  lemma LayerByArea(area: string, layer: Layer)
    ensures MapArea(area) == Some(layer) <==> Trim(area) in AreaNames(layer)
  {
  }

  /** The layer of an item is its area's; or else its first label's that names one; or else none. */
  lemma {:induction false} FirstLabelWins(labels: seq<string>)
    ensures match FirstLabelledLayer(labels)
      case None => forall i | 0 <= i < |labels| :: LayerFromLabel(labels[i]).None?
      case Some(layer) => exists i :: 0 <= i < |labels| && LayerFromLabel(labels[i]) == Some(layer)
                                      && forall j | 0 <= j < i :: LayerFromLabel(labels[j]).None?
  {
    if labels != [] && LayerFromLabel(labels[0]).None? {
      FirstLabelWins(labels[1..]);
      if FirstLabelledLayer(labels).Some? {
        var layer := FirstLabelledLayer(labels).value;
        var i :| 0 <= i < |labels[1..]| && LayerFromLabel(labels[1..][i]) == Some(layer)
                 && forall j | 0 <= j < i :: LayerFromLabel(labels[1..][j]).None?;
        assert LayerFromLabel(labels[i + 1]) == Some(layer);
        forall j | 0 <= j < i + 1 ensures LayerFromLabel(labels[j]).None? {
          assert j > 0 ==> labels[j] == labels[1..][j - 1];
        }
      }
    }
  }

  lemma AreaBeforeLabels(item: Item)
    ensures item.area.Some? && MapArea(item.area.value).Some? ==> LayerOf(item) == MapArea(item.area.value).value
    ensures item.area.None? || MapArea(item.area.value).None? ==>
      LayerOf(item)
        == (if FirstLabelledLayer(item.labels).Some? then FirstLabelledLayer(item.labels).value else Unassigned)
  {
  }

  /** A shown issue is its item, as far as a board tells. */
  lemma ShownTellsTheItem(item: Item, children: seq<Issue>, hidden: bool)
    requires StatusOf(item).Some?
    ensures var issue := Shown(item, children, hidden);
      && issue.number == item.number && issue.title == item.title && issue.url == item.url
      && issue.kind == item.kind && issue.dependsOn == item.dependsOn
      && item.status.Some? && MapStatus(item.status.value) == Some(issue.status) && issue.layer == LayerOf(item)
      && issue.children == children && issue.childrenTruncated == hidden
  {
  }
}
