/**
  A flow draft: its defaults, validity, the entry-trigger selector and its
  rendering as Graphviz DOT text.
 */
module Flows {
  import opened Base
  import opened Strings
  import opened Seqs

  /**
    A node record.  Each field is `None` when the record's dict lacks that
    key; present values are strings.
   */
  datatype Node = Node(id: Option<string>, caption: Option<string>, kind: Option<string>)

  /** An edge record, with the same reading of absent keys. */
  datatype Edge = Edge(source: Option<string>, target: Option<string>, condition: Option<string>)

  /** A flow draft.  The `state_preview` and `test_harness` dicts carry no logic and are left out. */
  datatype Flow = Flow(
    id: string,
    name: string,
    description: string,
    version: string,
    entryEvent: string,
    nodes: seq<Node>,
    edges: seq<Edge>,
    createdAt: string)

  const EntryEvents: seq<string> := ["manual", "webhook", "schedule", "event"]

  const DefaultNodes: seq<Node> := [
    Node(Some("start"), Some("Start"), Some("event")),
    Node(Some("task_a"), Some("Task A"), Some("task")),
    Node(Some("human_gate"), Some("Human check"), Some("approval")),
    Node(Some("end"), Some("End"), Some("event"))
  ]

  const DefaultEdges: seq<Edge> := [
    Edge(Some("start"), Some("task_a"), Some("always")),
    Edge(Some("task_a"), Some("human_gate"), Some("needs_approval")),
    Edge(Some("human_gate"), Some("end"), Some("approved"))
  ]

  /** A flow created with only a name, a fresh random id and the creation time supplied by the caller. */
  function NewFlow(name: string, freshId: string, now: string): (f: Flow)
    ensures StartsWith(f.id, "F_") && f.id[2..] == freshId
    ensures f.name == name && f.version == "v1" && f.entryEvent == "manual" && f.description == ""
    ensures |f.nodes| == 4 && |f.edges| == 3
    ensures f.nodes == DefaultNodes && f.edges == DefaultEdges && f.createdAt == now
    ensures f.entryEvent in EntryEvents
  {
    var id := "F_" + freshId;
    assert id[..2] == "F_";
    Flow(id, name, "", "v1", "manual", DefaultNodes, DefaultEdges, now)
  }

  /** `is_valid`: a flow is valid iff it has a name. */
  predicate IsValid(f: Flow)
  {
    f.name != ""
  }

  /** A new flow's graph is connected as drawn: every edge joins two of its nodes. */
  lemma NewFlowEdgesJoinNodes(name: string, freshId: string, now: string)
    ensures var f := NewFlow(name, freshId, now);
      forall j :: 0 <= j < |f.edges| ==>
        exists a, b :: 0 <= a < |f.nodes| && 0 <= b < |f.nodes| &&
          f.edges[j].source == f.nodes[a].id && f.edges[j].target == f.nodes[b].id
  {
    var f := NewFlow(name, freshId, now);
    assert f.edges[0].source == f.nodes[0].id && f.edges[0].target == f.nodes[1].id;
    assert f.edges[1].source == f.nodes[1].id && f.edges[1].target == f.nodes[2].id;
    assert f.edges[2].source == f.nodes[2].id && f.edges[2].target == f.nodes[3].id;
  }

  /** The selector's initial index: the position of the entry trigger, or 0 for an unknown one. */
  function EntryIndex(entry: string): (i: nat)
    ensures i < |EntryEvents|
    ensures entry in EntryEvents ==> EntryEvents[i] == entry
    ensures entry !in EntryEvents ==> i == 0
  {
    if entry == "manual" then 0
    else if entry == "webhook" then 1
    else if entry == "schedule" then 2
    else if entry == "event" then 3
    else 0
  }

  /** A flow keeps a selected trigger: choosing the option at its own index changes nothing. */
  lemma EntryIndexRoundTrip(i: nat)
    requires i < |EntryEvents|
    ensures EntryIndex(EntryEvents[i]) == i
  {
  }

  /** How an f-string shows an optional value: the string itself, or `None`. */
  function Show(v: Option<string>): string
  {
    if v.Some? then v.value else "None"
  }

  /** A node's type, `task` when the node has none. */
  function KindOf(n: Node): string
  {
    n.kind.GetOr("task")
  }

  /** Task and approval nodes are boxes; every other type is an ellipse. */
  function Shape(n: Node): (shape: string)
    ensures shape == "box" <==> KindOf(n) == "task" || KindOf(n) == "approval"
    ensures shape == "box" || shape == "ellipse"
  {
    if KindOf(n) in ["task", "approval"] then "box" else "ellipse"
  }

  /** One fill colour per class: tasks, approvals, and all other types. */
  function Color(n: Node): (color: string)
    ensures color == "#7f5af0" <==> KindOf(n) == "task"
    ensures color == "#f25f4c" <==> KindOf(n) == "approval"
    ensures color == "#94d2bd" <==> KindOf(n) != "task" && KindOf(n) != "approval"
  {
    if KindOf(n) == "task" then "#7f5af0"
    else if KindOf(n) == "approval" then "#f25f4c"
    else "#94d2bd"
  }

  /** A node without a type is drawn as a task. */
  lemma UntypedNodeIsTask(id: Option<string>, caption: Option<string>)
    ensures Shape(Node(id, caption, None)) == "box" && Color(Node(id, caption, None)) == "#7f5af0"
  {
  }

  /** A node's label, falling back to its id when it has none. */
  function NodeLabel(n: Node): (text: string)
    ensures n.caption.Some? ==> text == n.caption.value
    ensures n.caption.None? ==> text == Show(n.id)
  {
    if n.caption.Some? then n.caption.value else Show(n.id)
  }

  function NodeLine(n: Node): string
  {
    "  \"" + Show(n.id) + "\" [label=\"" + NodeLabel(n) + "\" shape=" + Shape(n)
      + " style=filled fillcolor=\"" + Color(n) + "\"];"
  }

  /** An edge's condition, empty when it has none. */
  function EdgeLabel(e: Edge): (text: string)
    ensures e.condition.None? ==> text == ""
    ensures e.condition.Some? ==> text == e.condition.value
  {
    e.condition.GetOr("")
  }

  function EdgeLine(e: Edge): string
  {
    "  \"" + Show(e.source) + "\" -> \"" + Show(e.target) + "\" [label=\"" + EdgeLabel(e) + "\"];"
  }

  function NodeLines(nodes: seq<Node>): (r: seq<string>)
    ensures |r| == |nodes|
    ensures forall i :: 0 <= i < |nodes| ==> r[i] == NodeLine(nodes[i])
  {
    if |nodes| == 0 then [] else [NodeLine(nodes[0])] + NodeLines(nodes[1..])
  }

  function EdgeLines(edges: seq<Edge>): (r: seq<string>)
    ensures |r| == |edges|
    ensures forall i :: 0 <= i < |edges| ==> r[i] == EdgeLine(edges[i])
  {
    if |edges| == 0 then [] else [EdgeLine(edges[0])] + EdgeLines(edges[1..])
  }

  const Header := "digraph Flow {"
  const RankDir := "  rankdir=\"LR\";"

  /**
    The lines `as_graphviz` joins: header, rank direction, one line per
    node in order, one line per edge in order, closing brace.
   */
  function GraphLines(nodes: seq<Node>, edges: seq<Edge>): (r: seq<string>)
    ensures |r| == 3 + |nodes| + |edges|
    ensures r[0] == Header && r[1] == RankDir && r[|r| - 1] == "}"
    ensures forall i :: 0 <= i < |nodes| ==> r[2 + i] == NodeLine(nodes[i])
    ensures forall j :: 0 <= j < |edges| ==> r[2 + |nodes| + j] == EdgeLine(edges[j])
  {
    var nl, el := NodeLines(nodes), EdgeLines(edges);
    ConcatSlices([Header, RankDir], nl, el, ["}"]);
    [Header, RankDir] + nl + el + ["}"]
  }

  /**
    `as_graphviz(nodes, edges)`: an empty (or absent) argument falls back
    to the flow's own list.
   */
  function AsGraphviz(f: Flow, nodes: seq<Node>, edges: seq<Edge>): (r: string)
    ensures Header <= r && |r| > 0 && r[|r| - 1] == '}'
  {
    var lines := GraphLines(DrawnNodes(f, nodes), DrawnEdges(f, edges));
    JoinFramed(lines, "\n", Header, '}');
    Join(lines, "\n")
  }

  /** The nodes `as_graphviz` draws: the argument, or the flow's own when the argument is empty. */
  function DrawnNodes(f: Flow, nodes: seq<Node>): seq<Node>
  {
    if |nodes| > 0 then nodes else f.nodes
  }

  /** The edges `as_graphviz` draws, chosen the same way. */
  function DrawnEdges(f: Flow, edges: seq<Edge>): seq<Edge>
  {
    if |edges| > 0 then edges else f.edges
  }

  /** No string a node carries holds a line break. */
  predicate NodeOneLine(n: Node)
  {
    '\n' !in Show(n.id) && '\n' !in NodeLabel(n) && '\n' !in KindOf(n)
  }

  /** No string an edge carries holds a line break. */
  predicate EdgeOneLine(e: Edge)
  {
    '\n' !in Show(e.source) && '\n' !in Show(e.target) && '\n' !in EdgeLabel(e)
  }

  lemma NodeLineOneLine(n: Node)
    requires NodeOneLine(n)
    ensures '\n' !in NodeLine(n)
  {
    var head := "  \"" + Show(n.id) + "\" [label=\"" + NodeLabel(n) + "\" shape=";
    var tail := " style=filled fillcolor=\"" + Color(n) + "\"];";
    assert '\n' !in Shape(n) && '\n' !in Color(n);
    assert '\n' !in head && '\n' !in tail;
    assert NodeLine(n) == head + Shape(n) + tail;
  }

  lemma EdgeLineOneLine(e: Edge)
    requires EdgeOneLine(e)
    ensures '\n' !in EdgeLine(e)
  {
  }

  /**
    When no node or edge text holds a line break, splitting the DOT text at
    line breaks gives back exactly the graph lines, so the text has
    3 + |nodes| + |edges| lines.
   */
  lemma GraphvizLines(nodes: seq<Node>, edges: seq<Edge>)
    requires forall i :: 0 <= i < |nodes| ==> NodeOneLine(nodes[i])
    requires forall j :: 0 <= j < |edges| ==> EdgeOneLine(edges[j])
    ensures Split(Join(GraphLines(nodes, edges), "\n"), '\n') == GraphLines(nodes, edges)
    ensures |Split(Join(GraphLines(nodes, edges), "\n"), '\n')| == 3 + |nodes| + |edges|
  {
    var lines := GraphLines(nodes, edges);
    GraphLinesOneLine(nodes, edges);
    assert "\n" == ['\n'];
    SplitJoin(lines, '\n');
  }

  lemma FixedLinesOneLine()
    ensures '\n' !in Header && '\n' !in RankDir && '\n' !in "}"
  {
  }

  lemma GraphLinesOneLine(nodes: seq<Node>, edges: seq<Edge>)
    requires forall i :: 0 <= i < |nodes| ==> NodeOneLine(nodes[i])
    requires forall j :: 0 <= j < |edges| ==> EdgeOneLine(edges[j])
    ensures forall k :: 0 <= k < |GraphLines(nodes, edges)| ==> '\n' !in GraphLines(nodes, edges)[k]
  {
    var lines := GraphLines(nodes, edges);
    FixedLinesOneLine();
    forall k | 0 <= k < |lines|
      ensures '\n' !in lines[k]
    {
      if k < 2 {
      } else if k < 2 + |nodes| {
        assert lines[k] == NodeLine(nodes[k - 2]);
        NodeLineOneLine(nodes[k - 2]);
      } else if k < |lines| - 1 {
        assert lines[k] == EdgeLine(edges[k - 2 - |nodes|]);
        EdgeLineOneLine(edges[k - 2 - |nodes|]);
      }
    }
  }

  /** An empty argument and the flow's own list draw the same graph. */
  lemma AsGraphvizFallback(f: Flow, nodes: seq<Node>, edges: seq<Edge>)
    ensures AsGraphviz(f, [], edges) == AsGraphviz(f, f.nodes, edges)
    ensures AsGraphviz(f, nodes, []) == AsGraphviz(f, nodes, f.edges)
  {
  }

  /**
    The DOT text of a flow whose records hold no line breaks splits back
    into the header, the rank direction, its node lines, its edge lines and
    the closing brace.
   */
  lemma AsGraphvizLines(f: Flow)
    requires forall i :: 0 <= i < |f.nodes| ==> NodeOneLine(f.nodes[i])
    requires forall j :: 0 <= j < |f.edges| ==> EdgeOneLine(f.edges[j])
    ensures Split(AsGraphviz(f, [], []), '\n') == GraphLines(f.nodes, f.edges)
  {
    AsGraphvizLinesOf(f, [], []);
  }

  /**
    For any arguments, the DOT text splits back into the graph lines of
    the nodes and edges it draws (explicit ones, or the flow's own in
    place of an empty argument), when none of those hold a line break.
   */
  lemma AsGraphvizLinesOf(f: Flow, nodes: seq<Node>, edges: seq<Edge>)
    requires forall i :: 0 <= i < |DrawnNodes(f, nodes)| ==> NodeOneLine(DrawnNodes(f, nodes)[i])
    requires forall j :: 0 <= j < |DrawnEdges(f, edges)| ==> EdgeOneLine(DrawnEdges(f, edges)[j])
    ensures Split(AsGraphviz(f, nodes, edges), '\n') == GraphLines(DrawnNodes(f, nodes), DrawnEdges(f, edges))
    ensures |nodes| > 0 && |edges| > 0 ==> Split(AsGraphviz(f, nodes, edges), '\n') == GraphLines(nodes, edges)
  {
    GraphvizLines(DrawnNodes(f, nodes), DrawnEdges(f, edges));
  }

  /** The name field's change handler: the widget's value, or the old name when there is none. */
  function UpdateName(f: Flow, widget: Option<string>): (g: Flow)
    ensures g.name == widget.GetOr(f.name)
    ensures g == f.(name := g.name)
  {
    f.(name := widget.GetOr(f.name))
  }

  /** The flow stays valid under a renaming exactly when the new name (or the kept old one) is non-empty. */
  lemma UpdateNameValidity(f: Flow, widget: Option<string>)
    ensures IsValid(UpdateName(f, widget)) <==> (if widget.Some? then widget.value != "" else IsValid(f))
  {
  }

  /** The description field's change handler, read the same way as the name's. */
  function UpdateDescription(f: Flow, widget: Option<string>): (g: Flow)
    ensures g.description == widget.GetOr(f.description)
    ensures g == f.(description := g.description)
  {
    f.(description := widget.GetOr(f.description))
  }

  /** The trigger selector's change handler. */
  function UpdateEntry(f: Flow, widget: Option<string>): (g: Flow)
    ensures g.entryEvent == widget.GetOr(f.entryEvent)
    ensures g == f.(entryEvent := g.entryEvent)
  {
    f.(entryEvent := widget.GetOr(f.entryEvent))
  }

  /** A selector only offers the four triggers, so a flow whose trigger is known keeps a known one. */
  lemma UpdateEntryKeepsKnown(f: Flow, widget: Option<string>)
    requires f.entryEvent in EntryEvents
    requires widget.Some? ==> widget.value in EntryEvents
    ensures EntryEvents[EntryIndex(UpdateEntry(f, widget).entryEvent)] == UpdateEntry(f, widget).entryEvent
  {
  }
}
