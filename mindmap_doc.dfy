/** The editor's view of a mind map (frontend-react/src/pages/MindmapPage.js):
    loading a stored map into editor nodes and edges, building the save
    payload, the per-node and per-topic edits, the theme recolouring, and the
    module-level counter that names new nodes `node-N`.

    Positions are kept abstract: an editor node's coordinate has the type
    parameter `P`, loading reads it from the stored CSS length with `parse`
    (standing for `parseFloat`), and saving writes it back with `format`
    (standing for the `${x}px` template). */
module MindmapDoc {
  import opened Wrappers
  import opened JsText
  import opened MapSchema

  datatype FlowTopic = FlowTopic(text: string, links: seq<Link>, isEditing: bool)

  datatype NodeData = NodeData(topics: seq<FlowTopic>, nodeColor: Option<string>, fontColor: Option<string>)

  datatype FlowNode<P> = FlowNode(id: string, x: P, y: P, data: NodeData)

  datatype FlowEdge = FlowEdge(id: Option<string>, source: Option<string>, target: Option<string>,
                               edgeType: string, animated: bool)

  datatype FlowDoc<P> = FlowDoc(nodes: seq<FlowNode<P>>, edges: seq<FlowEdge>)

  /** What the save button hands to the map provider. */
  datatype SavePayload = SavePayload(id: Option<MapId>, title: string, nodes: seq<SavedNode>,
                                     connections: seq<Connection>)

  /** The topic-menu state: which topic of which node was right-clicked. */
  datatype NodeMenu = NodeMenu(nodeId: string, topicIndex: int)

  const NewTopicText := "Novo Tópico"
  const EdgeType := "smoothstep"

  // ---------------------------------------------------------------- loading

  function LoadTopics(ts: seq<Topic>): (r: seq<FlowTopic>)
    ensures |r| == |ts|
    ensures forall j :: 0 <= j < |ts| ==> r[j].text == ts[j].text && r[j].links == ts[j].links && !r[j].isEditing
  {
    seq(|ts|, j requires 0 <= j < |ts| => FlowTopic(ts[j].text, ts[j].links, false))
  }

  function LoadNode<P>(n: SavedNode, parse: string -> P): FlowNode<P> {
    FlowNode(n.id, parse(n.left), parse(n.top), NodeData(LoadTopics(n.topics), None, None))
  }

  function LoadEdge(c: Connection): FlowEdge {
    FlowEdge(c.id, c.source, c.target, EdgeType, true)
  }

  function LoadEdges(cs: seq<Connection>): (r: seq<FlowEdge>)
    ensures |r| == |cs| && forall i :: 0 <= i < |cs| ==> r[i] == LoadEdge(cs[i])
  {
    seq(|cs|, i requires 0 <= i < |cs| => LoadEdge(cs[i]))
  }

  /** `convertToFlowData`'s nodes and edges for a stored map. */
  function Load<P>(m: MindMap, parse: string -> P): (r: FlowDoc<P>)
    ensures |r.nodes| == |m.nodes| && |r.edges| == |m.connections|
    ensures forall i :: 0 <= i < |m.nodes| ==>
      var n, f := m.nodes[i], r.nodes[i];
      && f.id == n.id && f.x == parse(n.left) && f.y == parse(n.top)
      && f.data.nodeColor.None? && f.data.fontColor.None?
      && |f.data.topics| == |n.topics|
      && forall j :: 0 <= j < |n.topics| ==>
           f.data.topics[j].text == n.topics[j].text && f.data.topics[j].links == n.topics[j].links
           && !f.data.topics[j].isEditing
    ensures forall i :: 0 <= i < |m.connections| ==>
      var c, e := m.connections[i], r.edges[i];
      e.id == c.id && e.source == c.source && e.target == c.target && e.edgeType == EdgeType && e.animated
  {
    FlowDoc(seq(|m.nodes|, i requires 0 <= i < |m.nodes| => LoadNode(m.nodes[i], parse)),
            LoadEdges(m.connections))
  }

  // ----------------------------------------------------------------- saving

  function SaveTopics(ts: seq<FlowTopic>): (r: seq<Topic>)
    ensures |r| == |ts|
    ensures forall j :: 0 <= j < |ts| ==> r[j] == Topic(ts[j].text, ts[j].links)
  {
    seq(|ts|, j requires 0 <= j < |ts| => Topic(ts[j].text, ts[j].links))
  }

  function SaveNode<P>(n: FlowNode<P>, format: P -> string): SavedNode {
    SavedNode(n.id, format(n.x), format(n.y), SaveTopics(n.data.topics))
  }

  /** The payload's nodes: one per editor node, in order, each topic without
      its `isEditing` flag. */
  function SaveNodes<P>(nodes: seq<FlowNode<P>>, format: P -> string): (r: seq<SavedNode>)
    ensures |r| == |nodes|
    ensures forall i :: 0 <= i < |nodes| ==>
      r[i].id == nodes[i].id && r[i].left == format(nodes[i].x) && r[i].top == format(nodes[i].y)
      && |r[i].topics| == |nodes[i].data.topics|
      && forall j :: 0 <= j < |nodes[i].data.topics| ==>
           r[i].topics[j] == Topic(nodes[i].data.topics[j].text, nodes[i].data.topics[j].links)
  {
    seq(|nodes|, i requires 0 <= i < |nodes| => SaveNode(nodes[i], format))
  }

  /** An edge is saved only when it has an id, a source and a target. */
  predicate Complete(e: FlowEdge) {
    Truthy(e.id) && Truthy(e.source) && Truthy(e.target)
  }

  /** The payload's connections: the complete edges, in order, cut down to
      their id, source and target. */
  function SaveConnections(edges: seq<FlowEdge>): (r: seq<Connection>)
    ensures |r| <= |edges|
  {
    if edges == [] then []
    else
      var e := edges[0];
      (if Complete(e) then [Connection(e.id, e.source, e.target)] else []) + SaveConnections(edges[1..])
  }

  /** The saved connections are exactly the complete edges, cut down to id,
      source and target. */
  lemma {:induction false} SaveConnectionsMembers(edges: seq<FlowEdge>)
    ensures forall c :: c in SaveConnections(edges) <==>
      exists e :: e in edges && Complete(e) && c == Connection(e.id, e.source, e.target)
    ensures forall c :: c in SaveConnections(edges) ==> Truthy(c.id) && Truthy(c.source) && Truthy(c.target)
  {
    if edges != [] {
      SaveConnectionsMembers(edges[1..]);
      assert forall q :: q in edges <==> q == edges[0] || q in edges[1..];
    }
  }

  /** `handleSave`'s `mapToSave`. */
  function Payload<P>(currentId: Option<MapId>, title: string, doc: FlowDoc<P>, format: P -> string): (r: SavePayload)
    ensures r.id == currentId && r.title == title
    ensures |r.nodes| == |doc.nodes| && forall i :: 0 <= i < |doc.nodes| ==> r.nodes[i].id == doc.nodes[i].id
    ensures |r.connections| <= |doc.edges|
    ensures r.nodes == SaveNodes(doc.nodes, format) && r.connections == SaveConnections(doc.edges)
  {
    SavePayload(currentId, title, SaveNodes(doc.nodes, format), SaveConnections(doc.edges))
  }

  /** The connections keep the order of the edges. */
  lemma {:induction false} SaveConnectionsAppend(e1: seq<FlowEdge>, e2: seq<FlowEdge>)
    ensures SaveConnections(e1 + e2) == SaveConnections(e1) + SaveConnections(e2)
  {
    if e1 == [] {
      assert e1 + e2 == e2;
    } else {
      var e, t := e1[0], e1[1..];
      calc {
        SaveConnections(e1 + e2);
        == { assert e1 + e2 == [e] + (t + e2); SaveConnectionsCons(e, t + e2); }
        Saved(e) + SaveConnections(t + e2);
        == { SaveConnectionsAppend(t, e2); }
        Saved(e) + (SaveConnections(t) + SaveConnections(e2));
        (Saved(e) + SaveConnections(t)) + SaveConnections(e2);
        == { assert e1 == [e] + t; SaveConnectionsCons(e, t); }
        SaveConnections(e1) + SaveConnections(e2);
      }
    }
  }

  /** What one edge contributes to the saved connections. */
  function Saved(e: FlowEdge): seq<Connection> {
    if Complete(e) then [Connection(e.id, e.source, e.target)] else []
  }

  /** Saving `[e] + rest` is e's contribution followed by saving `rest`. */
  lemma SaveConnectionsCons(e: FlowEdge, rest: seq<FlowEdge>)
    ensures SaveConnections([e] + rest) == Saved(e) + SaveConnections(rest)
  {
    assert ([e] + rest)[1..] == rest;
  }

  predicate CompleteConnection(c: Connection) {
    Truthy(c.id) && Truthy(c.source) && Truthy(c.target)
  }

  /** Loading then saving gives the stored map's nodes back, provided writing
      a parsed coordinate reproduces its text, and gives its complete
      connections back. */
  lemma {:induction false} SaveAfterLoad<P>(m: MindMap, parse: string -> P, format: P -> string)
    requires forall i :: 0 <= i < |m.nodes| ==>
      format(parse(m.nodes[i].left)) == m.nodes[i].left && format(parse(m.nodes[i].top)) == m.nodes[i].top
    requires forall i :: 0 <= i < |m.connections| ==> CompleteConnection(m.connections[i])
    ensures SaveNodes(Load(m, parse).nodes, format) == m.nodes
    ensures SaveConnections(Load(m, parse).edges) == m.connections
  {
    var doc := Load(m, parse);
    var saved := SaveNodes(doc.nodes, format);
    forall i | 0 <= i < |m.nodes| ensures saved[i] == m.nodes[i] {
      assert saved[i].topics == m.nodes[i].topics;
    }
    LoadedEdgesSave(m.connections);
  }

  lemma {:induction false} LoadedEdgesSave(cs: seq<Connection>)
    requires forall i :: 0 <= i < |cs| ==> CompleteConnection(cs[i])
    ensures SaveConnections(LoadEdges(cs)) == cs
  {
    var es := LoadEdges(cs);
    if cs != [] {
      assert es[1..] == LoadEdges(cs[1..]);
      LoadedEdgesSave(cs[1..]);
      assert Complete(es[0]);
      assert cs == [cs[0]] + cs[1..];
    }
  }

  // ------------------------------------------------------------------ edits

  /** `updateNodeData`: every node with id `nodeId` gets `newTopics`. */
  function UpdateNodeData<P>(nodes: seq<FlowNode<P>>, nodeId: string, newTopics: seq<FlowTopic>): (r: seq<FlowNode<P>>)
    ensures |r| == |nodes|
    ensures forall i :: 0 <= i < |nodes| ==>
      && r[i].id == nodes[i].id && r[i].x == nodes[i].x && r[i].y == nodes[i].y
      && r[i].data.nodeColor == nodes[i].data.nodeColor && r[i].data.fontColor == nodes[i].data.fontColor
      && (nodes[i].id == nodeId ==> r[i].data.topics == newTopics)
      && (nodes[i].id != nodeId ==> r[i] == nodes[i])
  {
    seq(|nodes|, i requires 0 <= i < |nodes| =>
      var n := nodes[i];
      if n.id == nodeId then n.(data := n.data.(topics := newTopics)) else n)
  }

  /** A second update of the same node overrides the first. */
  lemma UpdateNodeDataOverrides<P>(nodes: seq<FlowNode<P>>, nodeId: string, a: seq<FlowTopic>, b: seq<FlowTopic>)
    ensures UpdateNodeData(UpdateNodeData(nodes, nodeId, a), nodeId, b) == UpdateNodeData(nodes, nodeId, b)
  {
  }

  /** The node's `id`. */
  function NodeKey<P>(n: FlowNode<P>): string {
    n.id
  }

  /** The first node with the given id (`nodes.find`). */
  function FindNode<P>(nodes: seq<FlowNode<P>>, nodeId: string): Option<FlowNode<P>> {
    Find(nodes, NodeKey, nodeId)
  }

  /** The menu points at an existing topic: the first node with the menu's id
      has a topic at the menu's index. */
  predicate TopicExists<P>(nodes: seq<FlowNode<P>>, menu: NodeMenu) {
    match FindNode(nodes, menu.nodeId)
    case None => false
    case Some(n) => 0 <= menu.topicIndex < |n.data.topics|
  }

  function SelectTopic(ts: seq<FlowTopic>, k: int): (r: seq<FlowTopic>)
    ensures |r| == |ts|
    ensures forall j :: 0 <= j < |ts| ==>
      r[j].text == ts[j].text && r[j].links == ts[j].links && r[j].isEditing == (j == k)
  {
    seq(|ts|, j requires 0 <= j < |ts| => ts[j].(isEditing := j == k))
  }

  /** The topic menu's 'edit' action: no change (None) without a menu or when
      its topic does not exist; otherwise the chosen topic is put in editing
      mode and its siblings out of it, in every node with the chosen id. */
  function EditTopic<P>(nodes: seq<FlowNode<P>>, menu: Option<NodeMenu>): (r: Option<seq<FlowNode<P>>>)
    ensures r.None? <==> menu.None? || !TopicExists(nodes, menu.value)
    ensures r.Some? ==> |r.value| == |nodes|
    ensures r.Some? ==> forall i :: 0 <= i < |nodes| ==>
      var n, e := nodes[i], r.value[i];
      && e.id == n.id && e.x == n.x && e.y == n.y
      && e.data.nodeColor == n.data.nodeColor && e.data.fontColor == n.data.fontColor
      && (n.id != menu.value.nodeId ==> e == n)
      && (n.id == menu.value.nodeId ==>
            |e.data.topics| == |n.data.topics|
            && forall j :: 0 <= j < |n.data.topics| ==>
                 e.data.topics[j].text == n.data.topics[j].text
                 && e.data.topics[j].links == n.data.topics[j].links
                 && e.data.topics[j].isEditing == (j == menu.value.topicIndex))
  {
    if menu.None? || !TopicExists(nodes, menu.value) then None
    else
      Some(seq(|nodes|, i requires 0 <= i < |nodes| => EditNode(nodes[i], menu.value)))
  }

  /** One node under the edit action. */
  function EditNode<P>(n: FlowNode<P>, m: NodeMenu): FlowNode<P> {
    if n.id == m.nodeId then n.(data := n.data.(topics := SelectTopic(n.data.topics, m.topicIndex))) else n
  }

  /** After the edit action exactly one topic of the chosen node is being
      edited, the chosen one. */
  lemma EditTopicSelectsOne<P>(nodes: seq<FlowNode<P>>, menu: NodeMenu, i: int)
    requires TopicExists(nodes, menu)
    requires 0 <= i < |nodes| && FindNode(nodes, menu.nodeId) == Some(nodes[i])
    ensures var r := EditTopic(nodes, Some(menu)).value;
      var ts := r[i].data.topics;
      0 <= menu.topicIndex < |ts| && ts[menu.topicIndex].isEditing
      && forall j :: 0 <= j < |ts| && ts[j].isEditing ==> j == menu.topicIndex
  {
  }

  /** Choosing the same topic again changes nothing further. */
  lemma EditTopicIdempotent<P>(nodes: seq<FlowNode<P>>, menu: NodeMenu)
    requires TopicExists(nodes, menu)
    ensures TopicExists(EditTopic(nodes, Some(menu)).value, menu)
    ensures EditTopic(EditTopic(nodes, Some(menu)).value, Some(menu)) == EditTopic(nodes, Some(menu))
  {
    EditTopicKeepsTopic(nodes, menu);
    var r := EditTopic(nodes, Some(menu)).value;
    var r2 := EditTopic(r, Some(menu)).value;
    forall k | 0 <= k < |r| ensures r2[k] == r[k] {
      SelectTopicTwice(nodes[k].data.topics, menu.topicIndex);
    }
    assert r2 == r;
  }

  /** The edit action keeps the chosen topic in place. */
  lemma EditTopicKeepsTopic<P>(nodes: seq<FlowNode<P>>, menu: NodeMenu)
    requires TopicExists(nodes, menu)
    ensures TopicExists(EditTopic(nodes, Some(menu)).value, menu)
  {
    var r := EditTopic(nodes, Some(menu)).value;
    var n := FindNode(nodes, menu.nodeId).value;
    var i :| 0 <= i < |nodes| && nodes[i] == n && n.id == menu.nodeId &&
             forall j :: 0 <= j < i ==> nodes[j].id != menu.nodeId;
    FindAt(r, NodeKey, menu.nodeId, i);
  }

  /** Selecting a topic is idempotent on one node's topics. */
  lemma SelectTopicTwice(ts: seq<FlowTopic>, k: int)
    ensures SelectTopic(SelectTopic(ts, k), k) == SelectTopic(ts, k)
  {
    var t := SelectTopic(ts, k);
    var t2 := SelectTopic(t, k);
    forall j | 0 <= j < |t| ensures t2[j] == t[j] {
    }
  }

  /** `handleSaveLinks`: the topic at `topicIndex` of every node with id
      `nodeId` gets `newLinks`. */
  function SaveLinks<P>(nodes: seq<FlowNode<P>>, nodeId: string, topicIndex: int, newLinks: seq<Link>): (r: seq<FlowNode<P>>)
    ensures |r| == |nodes|
    ensures forall i :: 0 <= i < |nodes| ==>
      var n, e := nodes[i], r[i];
      && e.id == n.id && e.x == n.x && e.y == n.y
      && e.data.nodeColor == n.data.nodeColor && e.data.fontColor == n.data.fontColor
      && |e.data.topics| == |n.data.topics|
      && (n.id != nodeId ==> e == n)
      && forall j :: 0 <= j < |n.data.topics| ==>
           && e.data.topics[j].text == n.data.topics[j].text
           && e.data.topics[j].isEditing == n.data.topics[j].isEditing
           && e.data.topics[j].links == (if n.id == nodeId && j == topicIndex then newLinks else n.data.topics[j].links)
  {
    seq(|nodes|, i requires 0 <= i < |nodes| =>
      var n := nodes[i];
      if n.id == nodeId then
        n.(data := n.data.(topics := seq(|n.data.topics|, j requires 0 <= j < |n.data.topics| =>
          if j == topicIndex then n.data.topics[j].(links := newLinks) else n.data.topics[j])))
      else n)
  }

  /** The save that follows a link edit writes the new links at exactly that
      topic and leaves every other saved node and topic as it was. */
  lemma SaveLinksPayload<P>(nodes: seq<FlowNode<P>>, nodeId: string, topicIndex: int, newLinks: seq<Link>,
                            format: P -> string)
    ensures var before, after := SaveNodes(nodes, format), SaveNodes(SaveLinks(nodes, nodeId, topicIndex, newLinks), format);
      |after| == |before|
      && forall i :: 0 <= i < |before| ==>
           && after[i].id == before[i].id && after[i].left == before[i].left && after[i].top == before[i].top
           && |after[i].topics| == |before[i].topics|
           && forall j :: 0 <= j < |before[i].topics| ==>
                after[i].topics[j] == (if before[i].id == nodeId && j == topicIndex
                                       then before[i].topics[j].(links := newLinks) else before[i].topics[j])
  {
  }

  /** The theme effect: every node's data gets the theme's colours. */
  function Recolor<P>(nodes: seq<FlowNode<P>>, nodeColor: string, fontColor: string): (r: seq<FlowNode<P>>)
    ensures |r| == |nodes|
    ensures forall i :: 0 <= i < |nodes| ==>
      r[i].id == nodes[i].id && r[i].x == nodes[i].x && r[i].y == nodes[i].y
      && r[i].data.topics == nodes[i].data.topics
      && r[i].data.nodeColor == Some(nodeColor) && r[i].data.fontColor == Some(fontColor)
  {
    seq(|nodes|, i requires 0 <= i < |nodes| =>
      nodes[i].(data := nodes[i].data.(nodeColor := Some(nodeColor), fontColor := Some(fontColor))))
  }

  /** Recolouring twice with the same theme is recolouring once. */
  lemma RecolorIdempotent<P>(nodes: seq<FlowNode<P>>, nodeColor: string, fontColor: string)
    ensures Recolor(Recolor(nodes, nodeColor, fontColor), nodeColor, fontColor) == Recolor(nodes, nodeColor, fontColor)
  {
  }

  /** Neither the theme nor which topic is being edited reaches the saved
      document. */
  lemma {:induction false} PayloadIgnoresViewState<P>(nodes: seq<FlowNode<P>>, nodeColor: string, fontColor: string,
                                                      menu: Option<NodeMenu>, format: P -> string)
    ensures SaveNodes(Recolor(nodes, nodeColor, fontColor), format) == SaveNodes(nodes, format)
    ensures EditTopic(nodes, menu).Some? ==> SaveNodes(EditTopic(nodes, menu).value, format) == SaveNodes(nodes, format)
  {
    var a, b := SaveNodes(Recolor(nodes, nodeColor, fontColor), format), SaveNodes(nodes, format);
    forall i | 0 <= i < |nodes| ensures a[i] == b[i] {
      assert a[i].topics == b[i].topics;
    }
    var r := EditTopic(nodes, menu);
    if r.Some? {
      var c := SaveNodes(r.value, format);
      forall i | 0 <= i < |nodes| ensures c[i] == b[i] {
        assert c[i].topics == b[i].topics;
      }
    }
  }

  // ---------------------------------------------------------------- node ids

  /** The number `convertToFlowData` reads from a node id:
      `parseInt(id.split('-')[1], 10)`, None for NaN. */
  function NodeSuffix(id: string): (r: Option<int>)
    ensures '-' !in id ==> r.None?
  {
    match SecondField(id)
    case None => None
    case Some(f) => ParseInt(f)
  }

  /** The id `addNode` builds from counter value `n`. */
  function NodeIdFor(n: nat): (r: string)
    ensures |r| > 5 && r[..5] == "node-"
    ensures r[5..] != [] && AllDigits(r[5..]) && (|r| > 6 ==> r[5] != '0')
  {
    "node-" + Decimal(n)
  }

  /** The id built for `n` reads back as `n`. */
  lemma NodeIdForSuffix(n: nat)
    ensures NodeSuffix(NodeIdFor(n)) == Some(n)
  {
    var d := Decimal(n);
    assert forall i :: 0 <= i < |d| ==> d[i] != '-';
    assert NodeIdFor(n) == "node" + "-" + d;
    SecondFieldOf("node", d, []);
    assert "node" + "-" + d + [] == "node-" + d;
    ParseDecimal(n);
  }

  /** The `reduce` of `convertToFlowData`: the largest numeric suffix over
      the stored nodes, starting from 0 and skipping NaN. */
  function MaxSuffix(nodes: seq<SavedNode>): (r: int)
    ensures r >= 0
    ensures forall i :: 0 <= i < |nodes| && NodeSuffix(nodes[i].id).Some? ==> NodeSuffix(nodes[i].id).value <= r
    ensures r == 0 || exists i :: 0 <= i < |nodes| && NodeSuffix(nodes[i].id) == Some(r)
  {
    var ks := seq(|nodes|, i requires 0 <= i < |nodes| => NodeSuffix(nodes[i].id));
    var r := MaxOf(ks);
    assert forall i :: 0 <= i < |nodes| ==> ks[i] == NodeSuffix(nodes[i].id);
    r
  }

  /** The same reduce on the parsed suffixes (None for NaN), folded from the
      left: the running maximum, starting at 0. */
  function MaxOf(ks: seq<Option<int>>): (r: int)
    ensures r >= 0
    ensures forall i :: 0 <= i < |ks| && ks[i].Some? ==> ks[i].value <= r
    ensures r == 0 || exists i :: 0 <= i < |ks| && ks[i] == Some(r)
  {
    if ks == [] then 0
    else
      var acc := MaxOf(ks[..|ks| - 1]);
      assert forall i :: 0 <= i < |ks| - 1 ==> ks[i] == ks[..|ks| - 1][i];
      match ks[|ks| - 1]
      case None => acc
      case Some(k) => if k > acc then k else acc
  }

  /** Every numeric suffix among the node ids is below `c`. */
  ghost predicate SuffixesBelow<P>(nodes: seq<FlowNode<P>>, c: int) {
    forall i :: 0 <= i < |nodes| && NodeSuffix(nodes[i].id).Some? ==> NodeSuffix(nodes[i].id).value < c
  }

  /** After loading, the counter is above every suffix of the loaded ids. */
  lemma LoadedBelowCounter<P>(m: MindMap, parse: string -> P)
    ensures SuffixesBelow(Load(m, parse).nodes, MaxSuffix(m.nodes) + 1)
  {
  }

  /** While the counter is above every suffix, the id it names is unused. */
  lemma NewIdIsFresh<P>(nodes: seq<FlowNode<P>>, c: nat)
    requires SuffixesBelow(nodes, c)
    ensures forall i :: 0 <= i < |nodes| ==> nodes[i].id != NodeIdFor(c)
  {
    NodeIdForSuffix(c);
  }

  /** Adding the node named by the counter and then incrementing the counter
      keeps it above every suffix. */
  lemma AddKeepsBelow<P>(nodes: seq<FlowNode<P>>, c: nat, added: FlowNode<P>)
    requires SuffixesBelow(nodes, c) && added.id == NodeIdFor(c)
    ensures SuffixesBelow(nodes + [added], c + 1)
  {
    NodeIdForSuffix(c);
  }

  /** The edits keep node ids, so they keep the counter above every suffix. */
  lemma EditsKeepBelow<P>(nodes: seq<FlowNode<P>>, c: int, nodeId: string, topics: seq<FlowTopic>,
                          menu: Option<NodeMenu>, k: int, links: seq<Link>, nodeColor: string, fontColor: string)
    requires SuffixesBelow(nodes, c)
    ensures SuffixesBelow(UpdateNodeData(nodes, nodeId, topics), c)
    ensures EditTopic(nodes, menu).Some? ==> SuffixesBelow(EditTopic(nodes, menu).value, c)
    ensures SuffixesBelow(SaveLinks(nodes, nodeId, k, links), c)
    ensures SuffixesBelow(Recolor(nodes, nodeColor, fontColor), c)
  {
  }

  /** The module-level `nodeIdCounter`. */
  class NodeIdCounter {
    var next: nat

    constructor ()
      ensures next == 1
    {
      next := 1;
    }

    /** `convertToFlowData`: nothing happens without a map; otherwise the
        editor document is built and the counter is reset past the largest
        suffix. */
    method ConvertToFlowData<P>(initial: Option<MindMap>, parse: string -> P) returns (doc: Option<FlowDoc<P>>)
      modifies this
      ensures initial.None? ==> doc.None? && next == old(next)
      ensures initial.Some? ==> doc == Some(Load(initial.value, parse)) && next == MaxSuffix(initial.value.nodes) + 1
      ensures initial.Some? ==> SuffixesBelow(doc.value.nodes, next)
    {
      if initial.None? {
        return None;
      }
      var m := initial.value;
      doc := Some(Load(m, parse));
      next := MaxSuffix(m.nodes) + 1;
      LoadedBelowCounter(m, parse);
    }

    /** `addNode`: a node named `node-<counter>` with one topic in editing
        mode, at position (`x`, `y`); the counter is post-incremented. */
    method AddNode<P>(x: P, y: P) returns (n: FlowNode<P>)
      modifies this
      ensures next == old(next) + 1
      ensures n.id == NodeIdFor(old(next)) && NodeSuffix(n.id) == Some(old(next))
      ensures n.x == x && n.y == y
      ensures n.data == NodeData([FlowTopic(NewTopicText, [], true)], None, None)
    {
      n := FlowNode(NodeIdFor(next), x, y, NodeData([FlowTopic(NewTopicText, [], true)], None, None));
      NodeIdForSuffix(next);
      next := next + 1;
    }
  }
}
