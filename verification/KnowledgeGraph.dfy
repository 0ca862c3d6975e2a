/** The versioned property graph: node upserts with their history, embeddings, edges and traversal. */
module KnowledgeGraph {
  import opened Dicts

  datatype Node = Node(
    kind: string, title: string, properties: string, corpus: string, createdAt: int, updatedAt: int,
    createdBy: string, version: nat, changeReason: Option<string>, embedding: Option<seq<real>>)

  datatype Snapshot = Snapshot(node: Node, changedAt: int, changedBy: string, changeReason: string)

  datatype Edge = Edge(
    source: string, target: string, rel: string, properties: string, createdAt: int, createdBy: string)

  /** History rows are keyed by node and version. */
  type History = map<(string, nat), Snapshot>

  datatype Graph = Graph(nodes: map<string, Node>, history: History, edges: seq<Edge>)

  /** What a caller writes into a node. */
  datatype Content = Content(
    kind: string, title: string, properties: string, corpus: string, author: string, reason: string)

  datatype Op =
    | UpsertNode(id: string, content: Content, now: int)
    | UpsertEdge(edge: Edge)
    | EmbedNode(node: string, embedder: string -> Option<seq<real>>)

  /** The text an embedding is made from: title and corpus, whichever are there. */
  function JoinedText(title: string, corpus: string): string {
    if title == "" then corpus else if corpus == "" then title else title + " " + corpus
  }

  function EmbeddingText(n: Node): string {
    JoinedText(n.title, n.corpus)
  }

  /** Title, blank, corpus; only one of them, without a blank, when the other is empty. */
  lemma EmbeddingTextIs(n: Node)
    ensures var text := EmbeddingText(n);
            && (n.title == "" ==> text == n.corpus) && (n.corpus == "" ==> text == n.title)
            && (n.title != "" && n.corpus != "" ==>
                  && |text| == |n.title| + 1 + |n.corpus| && text[..|n.title|] == n.title
                  && text[|n.title|] == ' ' && text[|n.title| + 1..] == n.corpus)
  {
    if n.title != "" && n.corpus != "" { assert (n.title + " " + n.corpus)[|n.title| + 1..] == n.corpus; }
  }

  function Created(c: Content, now: int): Node {
    Node(c.kind, c.title, c.properties, c.corpus, now, now, c.author, 1, None, None)
  }

  /** An update keeps kind, creation time and embedding. */
  function Updated(n: Node, c: Content, now: int): Node {
    n.(title := c.title, properties := c.properties, corpus := c.corpus, updatedAt := now,
       createdBy := c.author, version := n.version + 1, changeReason := Some(c.reason))
  }

  function EdgeAt(edges: seq<Edge>, e: Edge): (r: nat)
    ensures r <= |edges|
    ensures r < |edges| ==> edges[r].source == e.source && edges[r].target == e.target && edges[r].rel == e.rel
    ensures forall i :: 0 <= i < r ==>
              edges[i].source != e.source || edges[i].target != e.target || edges[i].rel != e.rel
  {
    if |edges| == 0 then 0
    else if edges[0].source == e.source && edges[0].target == e.target && edges[0].rel == e.rel then 0
    else 1 + EdgeAt(edges[1..], e)
  }

  /** One operation. Statements the database refuses (a history key that is taken, an edge without both
      its nodes) leave the graph as it is. */
  function Apply(g: Graph, op: Op): Graph {
    match op
    case UpsertNode(id, c, now) =>
      if id !in g.nodes then g.(nodes := g.nodes[id := Created(c, now)])
      else
        var n := g.nodes[id];
        if (id, n.version) in g.history then g
        else g.(history := g.history[(id, n.version) := Snapshot(n, now, c.author, c.reason)],
                nodes := g.nodes[id := Updated(n, c, now)])
    case UpsertEdge(e) =>
      if e.source !in g.nodes || e.target !in g.nodes then g
      else
        var i := EdgeAt(g.edges, e);
        if i < |g.edges| then g.(edges := g.edges[i := g.edges[i].(properties := e.properties)])
        else g.(edges := g.edges + [e])
    case EmbedNode(id, embedder) =>
      if id !in g.nodes then g
      else
        var v := embedder(EmbeddingText(g.nodes[id]));
        if v.None? then g else g.(nodes := g.nodes[id := g.nodes[id].(embedding := v)])
  }

  function Empty(): Graph {
    Graph(map[], map[], [])
  }

  function Run(ops: seq<Op>): Graph
    decreases |ops|
  {
    if |ops| == 0 then Empty() else Apply(Run(ops[..|ops| - 1]), ops[|ops| - 1])
  }

  class Store {
    var nodes: map<string, Node>
    var history: History
    var edges: seq<Edge>

    function View(): Graph
      reads this
    {
      Graph(nodes, history, edges)
    }

    constructor ()
      ensures View() == Empty()
    {
      nodes, history, edges := map[], map[], [];
    }

    method Upsert(id: string, c: Content, now: int)
      modifies this
      ensures View() == Apply(old(View()), UpsertNode(id, c, now))
    {
      if id in nodes {
        var n := nodes[id];
        if (id, n.version) in history {
          return;
        }
        history := history[(id, n.version) := Snapshot(n, now, c.author, c.reason)];
        nodes := nodes[id := n.(title := c.title, properties := c.properties, corpus := c.corpus, updatedAt := now,
                                createdBy := c.author, version := n.version + 1, changeReason := Some(c.reason))];
      } else {
        nodes := nodes[id := Node(c.kind, c.title, c.properties, c.corpus, now, now, c.author, 1, None, None)];
      }
    }

    method Connect(e: Edge)
      modifies this
      ensures View() == Apply(old(View()), UpsertEdge(e))
    {
      if e.source !in nodes || e.target !in nodes {
        return;
      }
      var i := EdgeAt(edges, e);
      if i < |edges| {
        edges := edges[i := edges[i].(properties := e.properties)];
      } else {
        edges := edges + [e];
      }
    }

    method Embed(id: string, embedder: string -> Option<seq<real>>) returns (stored: bool)
      modifies this
      ensures View() == Apply(old(View()), EmbedNode(id, embedder))
      ensures stored <==> id in nodes && embedder(EmbeddingText(old(nodes[id]))).Some?
    {
      stored := false;
      if id in nodes {
        var v := embedder(EmbeddingText(nodes[id]));
        if v.Some? {
          nodes := nodes[id := nodes[id].(embedding := v)];
          stored := true;
        }
      }
    }

    /** Breadth-first search as written: the frontier left after a pass excludes everything just visited. */
    method Traverse(root: string, depth: int) returns (found: set<string>, links: seq<Edge>)
      ensures found == if depth <= 0 then {} else Ends(Touching(edges, {root})) * nodes.Keys
      ensures links == if depth <= 0 then [] else Touching(edges, {root})
    {
      found, links := {}, [];
      var visited: set<string> := {};
      var frontier := {root};
      var d := 0;
      while d < depth
        invariant d == 0 ==> visited == {} && frontier == {root} && found == {} && links == []
        invariant d > 0 ==> frontier == {} && found == Ends(Touching(edges, {root})) * nodes.Keys
        invariant d > 0 ==> links == Touching(edges, {root})
        invariant d > 0 ==> depth > 0
      {
        if frontier == {} {
          break;
        }
        var rows := Touching(edges, frontier);
        links := links + rows;
        var next := Ends(rows);
        var unseen := next - visited;
        found := found + unseen * nodes.Keys;
        visited := visited + unseen;
        frontier := next - visited;
        d := d + 1;
      }
    }
  }

  // ---- versions and history over every run ----

  /** The upserts of one node, in order. */
  function Upserts(ops: seq<Op>, id: string): seq<Op>
    ensures forall op :: op in Upserts(ops, id) ==> op.UpsertNode? && op.id == id
    decreases |ops|
  {
    if |ops| == 0 then []
    else
      var last := ops[|ops| - 1];
      Upserts(ops[..|ops| - 1], id) + if last.UpsertNode? && last.id == id then [last] else []
  }

  /** A node after k of its upserts: written by the k-th, created by the first. */
  predicate WrittenBy(n: Node, ups: seq<Op>, k: nat)
    requires 0 < k <= |ups| && forall op :: op in ups ==> op.UpsertNode?
  {
    var first, last := ups[0], ups[k - 1];
    && n.version == k
    && n.kind == first.content.kind && n.createdAt == first.now
    && n.title == last.content.title && n.properties == last.content.properties
    && n.corpus == last.content.corpus && n.createdBy == last.content.author && n.updatedAt == last.now
    && n.changeReason == if k == 1 then None else Some(last.content.reason)
  }

  /** The history row at version k holds the node as the k-th upsert left it, and the author, time and
      reason of the upsert that replaced it. */
  predicate RecordedBy(s: Snapshot, ups: seq<Op>, k: nat)
    requires 0 < k < |ups| && forall op :: op in ups ==> op.UpsertNode?
  {
    && WrittenBy(s.node, ups, k)
    && s.changedAt == ups[k].now && s.changedBy == ups[k].content.author && s.changeReason == ups[k].content.reason
  }

  /** The version law for one node. */
  ghost predicate Versioned(g: Graph, ups: seq<Op>, id: string)
    requires forall op :: op in ups ==> op.UpsertNode?
  {
    && (id in g.nodes <==> |ups| > 0)
    && (id in g.nodes ==> WrittenBy(g.nodes[id], ups, |ups|))
    && (forall k :: (id, k) in g.history <==> 1 <= k < |ups|)
    && (forall k :: 1 <= k < |ups| ==> (id, k) in g.history && RecordedBy(g.history[(id, k)], ups, k))
  }

  lemma UpsertKeeps(g: Graph, ups: seq<Op>, id: string, op: Op)
    requires (forall u :: u in ups ==> u.UpsertNode?) && op.UpsertNode? && op.id == id && Versioned(g, ups, id)
    ensures Versioned(Apply(g, op), ups + [op], id)
  {
    var more, h := ups + [op], Apply(g, op);
    forall k | 1 <= k < |more| ensures (id, k) in h.history && RecordedBy(h.history[(id, k)], more, k) {
      if k < |ups| {
        assert RecordedBy(g.history[(id, k)], ups, k);
      } else {
        assert WrittenBy(g.nodes[id], ups, k);
      }
    }
  }

  lemma OthersKeep(g: Graph, ups: seq<Op>, id: string, op: Op)
    requires (forall u :: u in ups ==> u.UpsertNode?) && !(op.UpsertNode? && op.id == id) && Versioned(g, ups, id)
    ensures Versioned(Apply(g, op), ups, id)
  {
    hide EdgeAt, EmbeddingText;
    var h := Apply(g, op);
    forall k | 1 <= k < |ups| ensures (id, k) in h.history && h.history[(id, k)] == g.history[(id, k)] {
    }
  }

  /** Over any interleaving of upserts, embeddings and edges, a node stands at the version its upserts
      make, with history rows exactly 1 to that version less one, each telling of its own upsert. */
  lemma {:induction false} VersionLaw(ops: seq<Op>, id: string)
    ensures Versioned(Run(ops), Upserts(ops, id), id)
    decreases |ops|
  {
    hide Versioned, Apply;
    if |ops| > 0 {
      var front, last := ops[..|ops| - 1], ops[|ops| - 1];
      VersionLaw(front, id);
      if last.UpsertNode? && last.id == id {
        UpsertKeeps(Run(front), Upserts(front, id), id, last);
      } else {
        OthersKeep(Run(front), Upserts(front, id), id, last);
        assert Upserts(ops, id) == Upserts(front, id);
      }
    } else {
      EmptyVersioned(id);
    }
  }

  lemma EmptyVersioned(id: string)
    ensures Versioned(Empty(), [], id)
  {
  }

  lemma FreshKey(g: Graph, ups: seq<Op>, id: string)
    requires (forall u :: u in ups ==> u.UpsertNode?) && Versioned(g, ups, id) && id in g.nodes
    ensures (id, g.nodes[id].version) !in g.history
  {
    assert WrittenBy(g.nodes[id], ups, |ups|);
  }

  /** No upsert is ever refused, each one to a stored node adds its previous state to the history, and
      whatever the history holds it holds for good. */
  lemma HistoryGrows(ops: seq<Op>, op: Op)
    ensures var g, h := Run(ops), Run(ops + [op]);
            && (op.UpsertNode? && op.id in g.nodes ==>
                  var n := g.nodes[op.id];
                  && (op.id, n.version) !in g.history
                  && (op.id, n.version) in h.history && h.history[(op.id, n.version)].node == n
                  && op.id in h.nodes && h.nodes[op.id].version == n.version + 1
                  && h.nodes[op.id].embedding == n.embedding)
            && (forall key :: key in g.history ==> key in h.history && h.history[key] == g.history[key])
  {
    hide EdgeAt, EmbeddingText, Upserts, Versioned;
    assert (ops + [op])[..|ops|] == ops;
    assert Run(ops + [op]) == Apply(Run(ops), op);
    if op.UpsertNode? && op.id in Run(ops).nodes {
      VersionLaw(ops, op.id);
      FreshKey(Run(ops), Upserts(ops, op.id), op.id);
    }
  }

  // ---- what a snapshot holds ----

  /** Where in a run the k-th upsert of a node is, counting from 0. */
  function UpsertAt(ops: seq<Op>, id: string, k: nat): (u: nat)
    requires k < |Upserts(ops, id)|
    ensures u < |ops| && ops[u] == Upserts(ops, id)[k]
    ensures |Upserts(ops[..u], id)| == k
    decreases |ops|
  {
    var front := ops[..|ops| - 1];
    if k < |Upserts(front, id)| then
      var u := UpsertAt(front, id, k);
      assert ops[..u] == front[..u];
      u
    else |ops| - 1
  }

  /** The history row at version k is the whole node, embedding included, as it was just before its upsert
      number k (from 0) replaced it. */
  lemma {:induction false} SnapshotIsPast(ops: seq<Op>, id: string, k: nat)
    requires 1 <= k < |Upserts(ops, id)|
    ensures var before := Run(ops[..UpsertAt(ops, id, k)]);
            && (id, k) in Run(ops).history && id in before.nodes
            && Run(ops).history[(id, k)].node == before.nodes[id]
    decreases |ops|
  {
    hide EdgeAt, EmbeddingText, Versioned;
    var front, last := ops[..|ops| - 1], ops[|ops| - 1];
    assert front + [last] == ops;
    HistoryGrows(front, last);
    if k < |Upserts(front, id)| {
      SnapshotIsPast(front, id, k);
      var u := UpsertAt(front, id, k);
      assert ops[..u] == front[..u];
    } else {
      assert Upserts(ops, id) == Upserts(front, id) + [last];
      VersionLaw(front, id);
      LastVersion(Run(front), Upserts(front, id), id);
    }
  }

  lemma LastVersion(g: Graph, ups: seq<Op>, id: string)
    requires (forall u :: u in ups ==> u.UpsertNode?) && Versioned(g, ups, id) && |ups| > 0
    ensures id in g.nodes && g.nodes[id].version == |ups|
  {
    assert WrittenBy(g.nodes[id], ups, |ups|);
  }

  // ---- embeddings over every run ----

  function ContentText(c: Content): string {
    JoinedText(c.title, c.corpus)
  }

  /** The operation stores an embedding of the node. */
  predicate Embeds(g: Graph, op: Op, id: string) {
    op.EmbedNode? && op.node == id && id in g.nodes && op.embedder(EmbeddingText(g.nodes[id])).Some?
  }

  /** Where the last successful embedding of a node is in a run; the length of the run if there is none. */
  function LastEmbed(ops: seq<Op>, id: string): (e: nat)
    ensures e <= |ops|
    decreases |ops|
  {
    if |ops| == 0 then 0
    else if Embeds(Run(ops[..|ops| - 1]), ops[|ops| - 1], id) then |ops| - 1
    else
      var e := LastEmbed(ops[..|ops| - 1], id);
      if e < |ops| - 1 then e else |ops|
  }

  /** It is successful, and no later one is. */
  lemma {:induction false} LastEmbedIs(ops: seq<Op>, id: string)
    ensures var e := LastEmbed(ops, id);
            && (e < |ops| ==> Embeds(Run(ops[..e]), ops[e], id))
            && (forall i :: 0 <= i < |ops| && (i > e || e == |ops|) ==> !Embeds(Run(ops[..i]), ops[i], id))
    decreases |ops|
  {
    hide Run, Embeds;
    if |ops| > 0 {
      var front := ops[..|ops| - 1];
      LastEmbedIs(front, id);
      forall i | 0 <= i <= |front| ensures ops[..i] == front[..i] {}
    }
  }

  /** Over every run, a node's embedding is the vector of the text it had at its last successful embedding;
      without one it has none. */
  lemma {:induction false} EmbeddingLaw(ops: seq<Op>, id: string)
    requires id in Run(ops).nodes
    ensures var e, vector := LastEmbed(ops, id), Run(ops).nodes[id].embedding;
            && (e == |ops| ==> vector == None)
            && (e < |ops| ==>
                  && Embeds(Run(ops[..e]), ops[e], id)
                  && vector == ops[e].embedder(EmbeddingText(Run(ops[..e]).nodes[id])) && vector.Some?)
    decreases |ops|
  {
    hide EmbeddingText;
    LastEmbedIs(ops, id);
    var front, last := ops[..|ops| - 1], ops[|ops| - 1];
    EmbeddingStep(Run(front), last, id);
    if !Embeds(Run(front), last, id) && id in Run(front).nodes {
      EmbeddingLaw(front, id);
      var e := LastEmbed(front, id);
      if e < |front| { assert ops[..e] == front[..e]; }
    } else if id !in Run(front).nodes {
      LastEmbedIs(front, id);
      NoEmbedBefore(front, id, LastEmbed(front, id));
    }
  }

  lemma EmbeddingStep(g: Graph, op: Op, id: string)
    requires id in Apply(g, op).nodes
    ensures var vector := Apply(g, op).nodes[id].embedding;
            && (Embeds(g, op, id) ==> vector == op.embedder(EmbeddingText(g.nodes[id])))
            && (!Embeds(g, op, id) ==> vector == if id in g.nodes then g.nodes[id].embedding else None)
  {
    hide EmbeddingText, EdgeAt;
  }

  /** A node that is not there has never been embedded. */
  lemma NoEmbedBefore(ops: seq<Op>, id: string, e: nat)
    requires id !in Run(ops).nodes && e <= |ops| && (e < |ops| ==> id in Run(ops[..e]).nodes)
    ensures e == |ops|
  {
    if e < |ops| { NodesStay(ops, id, e); }
  }

  lemma {:induction false} NodesStay(ops: seq<Op>, id: string, e: nat)
    requires e <= |ops| && id in Run(ops[..e]).nodes
    ensures id in Run(ops).nodes
    decreases |ops|
  {
    hide Apply;
    if e < |ops| {
      assert ops[..e] == ops[..|ops| - 1][..e];
      NodesStay(ops[..|ops| - 1], id, e);
      NodeStays(Run(ops[..|ops| - 1]), ops[|ops| - 1], id);
    } else {
      assert ops[..e] == ops;
    }
  }

  lemma NodeStays(g: Graph, op: Op, id: string)
    requires id in g.nodes
    ensures id in Apply(g, op).nodes
  {
    hide EdgeAt, EmbeddingText;
  }

  /** The text of a node is that of its latest upsert. */
  lemma TextIsLatest(ops: seq<Op>, id: string)
    requires id in Run(ops).nodes
    ensures var ups := Upserts(ops, id);
            |ups| > 0 && EmbeddingText(Run(ops).nodes[id]) == ContentText(ups[|ups| - 1].content)
  {
    VersionLaw(ops, id);
    assert WrittenBy(Run(ops).nodes[id], Upserts(ops, id), |Upserts(ops, id)|);
  }

  lemma {:induction false} UpsertsConcat(a: seq<Op>, b: seq<Op>, id: string)
    ensures Upserts(a + b, id) == Upserts(a, id) + Upserts(b, id)
    decreases |b|
  {
    if |b| == 0 {
      assert a + b == a;
    } else {
      assert (a + b)[..|a + b| - 1] == a + b[..|b| - 1];
      UpsertsConcat(a, b[..|b| - 1], id);
    }
  }

  /** An embedding is current, that is, every embedder would give the node's present text the vector it gave
      the text it was made from, exactly when the node has not been upserted since, or its latest upsert has
      the text it had then. */
  lemma EmbeddingCurrentIff(ops: seq<Op>, id: string)
    requires id in Run(ops).nodes && LastEmbed(ops, id) < |ops|
    ensures Embeds(Run(ops[..LastEmbed(ops, id)]), ops[LastEmbed(ops, id)], id)
    ensures var e := LastEmbed(ops, id);
            var was, now, since := Run(ops[..e]).nodes[id], Run(ops).nodes[id], Upserts(ops[e..], id);
            (forall embedder :: SameVector(embedder, EmbeddingText(was), EmbeddingText(now)))
            <==> |since| == 0 || ContentText(since[|since| - 1].content) == EmbeddingText(was)
  {
    hide Run, EmbeddingText, ContentText, LastEmbed, SameVector, Embeds, Upserts;
    var e := LastEmbed(ops, id);
    LastEmbedIs(ops, id);
    EmbedsStored(Run(ops[..e]), ops[e], id);
    LatestOf(ops, id, e);
    SameVectorIff(EmbeddingText(Run(ops[..e]).nodes[id]), EmbeddingText(Run(ops).nodes[id]));
  }

  /** Since a point in a run, the text is that of the latest upsert, or unchanged without one. */
  lemma LatestOf(ops: seq<Op>, id: string, e: nat)
    requires e <= |ops| && id in Run(ops[..e]).nodes && id in Run(ops).nodes
    ensures var since := Upserts(ops[e..], id);
            EmbeddingText(Run(ops).nodes[id]) == if |since| > 0 then ContentText(since[|since| - 1].content)
                                                 else EmbeddingText(Run(ops[..e]).nodes[id])
  {
    hide Run, EmbeddingText, ContentText, Upserts;
    var before, since := Upserts(ops[..e], id), Upserts(ops[e..], id);
    assert ops == ops[..e] + ops[e..];
    UpsertsConcat(ops[..e], ops[e..], id);
    TextIsLatest(ops[..e], id);
    TextIsLatest(ops, id);
    if |since| > 0 {
      assert (before + since)[|before + since| - 1] == since[|since| - 1];
    } else {
      assert before + since == before;
    }
  }

  lemma EmbedsStored(g: Graph, op: Op, id: string)
    requires Embeds(g, op, id)
    ensures id in g.nodes
  {
  }

  ghost predicate SameVector(embedder: string -> Option<seq<real>>, a: string, b: string) {
    embedder(a) == embedder(b)
  }

  /** All embedders agree on two texts only when they are one text. */
  lemma SameVectorIff(a: string, b: string)
    ensures (forall embedder :: SameVector(embedder, a, b)) <==> a == b
  {
    if a != b {
      var telling: string -> Option<seq<real>> := text => if text == a then Some([1.0]) else None;
      assert !SameVector(telling, a, b);
    }
  }

  /** One upsert of a stored node keeps its embedding, and keeps it current for every embedder exactly when
      it does not change the text. */
  lemma UpsertKeepsCurrentIff(n: Node, c: Content, now: int)
    ensures Updated(n, c, now).embedding == n.embedding
    ensures (forall embedder :: SameVector(embedder, EmbeddingText(n), EmbeddingText(Updated(n, c, now))))
       <==> ContentText(c) == EmbeddingText(n)
  {
    hide SameVector;
    SameVectorIff(EmbeddingText(n), EmbeddingText(Updated(n, c, now)));
  }

  /** A node whose embedding is that of a text it no longer has. */
  lemma StaleEmbedding()
    ensures var embedder: string -> Option<seq<real>> := text => Some([|text| as real]);
            var ops := [UpsertNode("n", Content("paper", "a", "", "", "", ""), 0), EmbedNode("n", embedder),
                        UpsertNode("n", Content("paper", "ab", "", "", "", ""), 1)];
            && "n" in Run(ops).nodes
            && Run(ops).nodes["n"].embedding == Some([1.0])
            && embedder(EmbeddingText(Run(ops).nodes["n"])) == Some([2.0])
  {
    var embedder: string -> Option<seq<real>> := text => Some([|text| as real]);
    var first, last := Content("paper", "a", "", "", "", ""), Content("paper", "ab", "", "", "", "");
    var ops := [UpsertNode("n", first, 0), EmbedNode("n", embedder), UpsertNode("n", last, 1)];
    var n := Created(first, 0);
    assert ops[..2][..1] == [ops[0]] && [ops[0]][..0] == [];
    assert Run([ops[0]]) == Graph(map["n" := n], map[], []);
    assert ops[..2][..|ops[..2]| - 1] == [ops[0]];
    assert EmbeddingText(n) == "a";
    assert Run(ops[..2]) == Graph(map["n" := n.(embedding := Some([1.0]))], map[], []);
    assert Run(ops) == Apply(Run(ops[..2]), ops[2]);
  }

  /** Every edge joins stored nodes, and no two edges share source, target and relation. */
  ghost predicate Grounded(g: Graph) {
    && (forall e :: e in g.edges ==> e.source in g.nodes && e.target in g.nodes)
    && (forall i, j :: 0 <= i < j < |g.edges| ==>
          g.edges[i].source != g.edges[j].source || g.edges[i].target != g.edges[j].target
          || g.edges[i].rel != g.edges[j].rel)
  }

  lemma ApplyGrounded(g: Graph, op: Op)
    requires Grounded(g)
    ensures Grounded(Apply(g, op))
  {
    hide EmbeddingText, EdgeAt, Created, Updated;
    var h := Apply(g, op);
    assert g.nodes.Keys <= h.nodes.Keys;
    if op.UpsertEdge? {
      var i := EdgeAt(g.edges, op.edge);
      forall k | 0 <= k < |h.edges| ensures h.edges[k].source in h.nodes && h.edges[k].target in h.nodes {
        if k < |g.edges| { assert g.edges[k] in g.edges; }
      }
    }
  }

  lemma {:induction false} RunGrounded(ops: seq<Op>)
    ensures Grounded(Run(ops))
    decreases |ops|
  {
    hide Grounded, Apply;
    if |ops| > 0 {
      RunGrounded(ops[..|ops| - 1]);
      ApplyGrounded(Run(ops[..|ops| - 1]), ops[|ops| - 1]);
    } else {
      EmptyGrounded();
    }
  }

  lemma EmptyGrounded()
    ensures Grounded(Empty())
  {
  }

  /** An edge upsert between stored nodes leaves exactly one edge for its triple, with the new properties
      and, if it was there before, its old author and time; every other edge stays as it was. */
  lemma EdgeUpserted(ops: seq<Op>, e: Edge)
    ensures var g, h := Run(ops), Run(ops + [UpsertEdge(e)]);
            var i := EdgeAt(g.edges, e);
            && (e.source in g.nodes && e.target in g.nodes ==>
                  && i < |h.edges| && h.edges[i] == (if i < |g.edges| then g.edges[i] else e).(properties := e.properties)
                  && |h.edges| == (if i < |g.edges| then |g.edges| else |g.edges| + 1)
                  && (forall j :: 0 <= j < |h.edges| && j != i ==>
                        && j < |g.edges| && h.edges[j] == g.edges[j]
                        && (h.edges[j].source != e.source || h.edges[j].target != e.target || h.edges[j].rel != e.rel)))
            && (e.source !in g.nodes || e.target !in g.nodes ==> h == g)
  {
    assert (ops + [UpsertEdge(e)])[..|ops|] == ops;
    RunGrounded(ops);
    assert Run(ops + [UpsertEdge(e)]) == Apply(Run(ops), UpsertEdge(e));
  }

  // ---- traversal against breadth-first search ----

  /** The rows with an end in the set. */
  function Touching(edges: seq<Edge>, ids: set<string>): seq<Edge> {
    if |edges| == 0 then []
    else
      var last := edges[|edges| - 1];
      Touching(edges[..|edges| - 1], ids) + if last.source in ids || last.target in ids then [last] else []
  }

  function Ends(edges: seq<Edge>): set<string> {
    (set e | e in edges :: e.source) + (set e | e in edges :: e.target)
  }

  /** Each of them as often as it is there. */
  lemma {:induction false} TouchingEach(edges: seq<Edge>, ids: set<string>, e: Edge)
    ensures multiset(Touching(edges, ids))[e]
         == if e.source in ids || e.target in ids then multiset(edges)[e] else 0
  {
    if |edges| > 0 {
      TouchingEach(edges[..|edges| - 1], ids, e);
      assert edges == edges[..|edges| - 1] + [edges[|edges| - 1]];
    }
  }

  lemma {:induction false} TouchingAre(edges: seq<Edge>, ids: set<string>)
    ensures forall e :: e in Touching(edges, ids) <==> e in edges && (e.source in ids || e.target in ids)
  {
    if |edges| > 0 {
      TouchingAre(edges[..|edges| - 1], ids);
      assert edges == edges[..|edges| - 1] + [edges[|edges| - 1]];
    }
  }

  /** The nodes within d hops. */
  function Ball(edges: seq<Edge>, root: string, d: nat): set<string> {
    if d == 0 then {root}
    else
      var inner := Ball(edges, root, d - 1);
      inner + Ends(Touching(edges, inner))
  }

  /** No edge leaves the set. */
  predicate Closed(edges: seq<Edge>, ids: set<string>) {
    forall e :: e in edges ==> (e.source in ids <==> e.target in ids)
  }

  lemma {:induction false} BallGrows(edges: seq<Edge>, root: string, d: nat)
    requires d >= 1
    ensures root in Ball(edges, root, 1) && Ball(edges, root, 1) <= Ball(edges, root, d)
  {
    hide Touching, Ends;
    if d > 1 { BallGrows(edges, root, d - 1); }
  }

  lemma {:induction false} ClosedBall(edges: seq<Edge>, root: string, d: nat)
    requires d >= 1 && Closed(edges, Ball(edges, root, 1))
    ensures Ball(edges, root, d) == Ball(edges, root, 1)
  {
    if d > 1 {
      ClosedBall(edges, root, d - 1);
      var ball := Ball(edges, root, 1);
      TouchingAre(edges, ball);
      assert Ends(Touching(edges, ball)) <= ball;
    }
  }

  lemma OpenBall(edges: seq<Edge>, root: string, d: nat)
    requires d >= 2 && !Closed(edges, Ball(edges, root, 1))
    ensures Ball(edges, root, d) != Ball(edges, root, 1)
  {
    var ball := Ball(edges, root, 1);
    var e :| e in edges && !(e.source in ball <==> e.target in ball);
    TouchingAre(edges, ball);
    assert e in Touching(edges, ball);
    var out := if e.source in ball then e.target else e.source;
    assert out in Ball(edges, root, 2);
    BallMonotone(edges, root, 2, d);
  }

  lemma {:induction false} BallMonotone(edges: seq<Edge>, root: string, c: nat, d: nat)
    requires c <= d
    ensures Ball(edges, root, c) <= Ball(edges, root, d)
    decreases d
  {
    hide Touching, Ends;
    if c < d { BallMonotone(edges, root, c, d - 1); }
  }

  /** What traversal returns is the ball of the asked depth exactly when the root has an edge and, beyond
      depth one, no edge leaves the root's neighbourhood: deeper levels are never visited. */
  lemma TraverseIsBallIff(g: Graph, root: string, depth: nat)
    requires Grounded(g) && depth >= 1
    ensures Ends(Touching(g.edges, {root})) * g.nodes.Keys == Ball(g.edges, root, depth)
       <==> Touching(g.edges, {root}) != [] && (depth == 1 || Closed(g.edges, Ball(g.edges, root, 1)))
  {
    var rows, ball := Touching(g.edges, {root}), Ball(g.edges, root, 1);
    TouchingAre(g.edges, {root});
    assert Ball(g.edges, root, 0) == {root};
    assert ball == {root} + Ends(rows);
    assert Ends(rows) <= g.nodes.Keys;
    assert Ends(rows) * g.nodes.Keys == Ends(rows);
    BallGrows(g.edges, root, depth);
    if rows != [] {
      assert rows[0] in rows;
      assert Ends(rows) == ball;
      if Closed(g.edges, ball) {
        ClosedBall(g.edges, root, depth);
      } else if depth >= 2 {
        OpenBall(g.edges, root, depth);
      }
    }
  }

  /** A chain of two edges, searched two hops deep: the far end is missing. */
  lemma TraverseStopsShort()
    ensures var edges := [Edge("a", "b", "r", "", 0, ""), Edge("b", "c", "r", "", 0, "")];
            Ends(Touching(edges, {"a"})) == {"a", "b"} && "c" in Ball(edges, "a", 2)
  {
    var e, f := Edge("a", "b", "r", "", 0, ""), Edge("b", "c", "r", "", 0, "");
    var edges := [e, f];
    TouchingAre(edges, {"a"});
    TouchingAre(edges, Ball(edges, "a", 0));
    TouchingAre(edges, Ball(edges, "a", 1));
    assert e in edges && f in edges;
    assert e in Touching(edges, Ball(edges, "a", 0));
    assert "b" in Ball(edges, "a", 1);
    assert f in Touching(edges, Ball(edges, "a", 1));
  }

  /** A root without edges is within any number of hops of itself, and is not found. */
  lemma LoneRootMissing(depth: nat)
    ensures Ends(Touching([], {"a"})) == {} && "a" in Ball([], "a", depth)
  {
    BallMonotone([], "a", 0, depth);
  }
}
