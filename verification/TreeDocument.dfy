/** Stored section trees: what is written as JSON is read back unchanged. */
module TreeDocument {
  import opened Wrappers

  datatype Tree = Tree(nodeId: string, title: string, level: int, startPage: Option<int>, endPage: Option<int>,
                       summary: Option<string>, children: seq<Tree>)

  datatype Document = Document(sha: string, indexer: string, nodes: seq<Tree>, model: Option<string>, createdAt: string)

  /** A dictionary with the keys a node may have: None for a missing key, Some(None) for
      null. Missing children read as an empty list. */
  datatype NodeDict = NodeDict(nodeId: Option<string>, title: Option<string>, level: Option<Option<int>>,
                               startPage: Option<Option<int>>, endPage: Option<Option<int>>,
                               summary: Option<Option<string>>, children: seq<NodeDict>)

  datatype DocDict = DocDict(sha: Option<string>, indexer: Option<string>, model: Option<Option<string>>,
                             createdAt: Option<string>, nodes: Option<seq<NodeDict>>)

  function OrElse<T>(v: Option<T>, default: T): T {
    if v.Some? then v.value else default
  }

  function ToDict(t: Tree): NodeDict {
    NodeDict(Some(t.nodeId), Some(t.title), Some(Some(t.level)), Some(t.startPage), Some(t.endPage), Some(t.summary),
             AllToDict(t.children))
  }

  function AllToDict(ts: seq<Tree>): seq<NodeDict> {
    if ts == [] then [] else [ToDict(ts[0])] + AllToDict(ts[1..])
  }

  function FromDict(d: NodeDict): Tree {
    Tree(OrElse(d.nodeId, ""), OrElse(d.title, ""), OrElse(OrElse(d.level, Some(0)), 0), OrElse(d.startPage, None),
         OrElse(d.endPage, None), OrElse(d.summary, None),
         AllFromDict(d.children))
  }

  function AllFromDict(ds: seq<NodeDict>): seq<Tree> {
    if ds == [] then [] else [FromDict(ds[0])] + AllFromDict(ds[1..])
  }

  /** The constructor stamps a document that has no creation time. */
  function Stamped(d: Document, now: string): Document {
    if d.createdAt == "" then d.(createdAt := now) else d
  }

  function DocToDict(d: Document): DocDict {
    DocDict(Some(d.sha), Some(d.indexer), Some(d.model), Some(d.createdAt), Some(AllToDict(d.nodes)))
  }

  function DocFromDict(d: DocDict, now: string): Document {
    Stamped(Document(OrElse(d.sha, ""), OrElse(d.indexer, "unknown"),
                     AllFromDict(OrElse(d.nodes, [])), OrElse(d.model, None),
                     OrElse(d.createdAt, "")), now)
  }

  /** Each value is stored under its own key, and the children one by one. */
  lemma NodeKeys(t: Tree)
    ensures var d := ToDict(t);
            && d.nodeId == Some(t.nodeId) && d.title == Some(t.title) && d.level == Some(Some(t.level))
            && d.startPage == Some(t.startPage) && d.endPage == Some(t.endPage) && d.summary == Some(t.summary)
            && |d.children| == |t.children| && forall i :: 0 <= i < |t.children| ==>
               d.children[i] == ToDict(t.children[i])
  {
    ChildKeys(t.children);
  }

  lemma {:induction false} ChildKeys(ts: seq<Tree>)
    ensures |AllToDict(ts)| == |ts| && forall i :: 0 <= i < |ts| ==> AllToDict(ts)[i] == ToDict(ts[i])
    decreases |ts|
  {
    if ts != [] {
      ChildKeys(ts[1..]);
      assert forall i :: 0 < i < |ts| ==> ts[i] == ts[1..][i - 1];
    }
  }

  /** What a dictionary without any of the keys reads as. */
  lemma MissingKeys(now: string)
    ensures FromDict(NodeDict(None, None, None, None, None, None, [])) == Tree("", "", 0, None, None, None, [])
    ensures FromDict(NodeDict(None, None, Some(None), Some(None), Some(None), Some(None), [])).level == 0
    ensures DocFromDict(DocDict(None, None, None, None, None), now) == Document("", "unknown", [], None, now)
  {
  }

  /** Each value of a document is stored under its own key. */
  lemma DocumentKeys(d: Document)
    ensures var x := DocToDict(d);
            && x.sha == Some(d.sha) && x.indexer == Some(d.indexer) && x.model == Some(d.model)
            && x.createdAt == Some(d.createdAt) && x.nodes.Some? && |x.nodes.value| == |d.nodes|
            && forall i :: 0 <= i < |d.nodes| ==> x.nodes.value[i] == ToDict(d.nodes[i])
  {
    ChildKeys(d.nodes);
  }

  lemma {:induction false} TreeReloads(t: Tree)
    ensures FromDict(ToDict(t)) == t
  {
    TreesReload(t.children);
  }

  lemma {:induction false} TreesReload(ts: seq<Tree>)
    ensures AllFromDict(AllToDict(ts)) == ts
  {
    if ts != [] {
      TreeReloads(ts[0]);
      TreesReload(ts[1..]);
      assert AllToDict(ts)[1..] == AllToDict(ts[1..]);
    }
  }

  /** Saving and loading gives a document back exactly when it carries a creation time,
      which every constructed document does. */
  lemma DocumentReloads(d: Document, now: string)
    requires now != ""
    ensures DocFromDict(DocToDict(d), now) == d <==> d.createdAt != ""
    ensures DocFromDict(DocToDict(Stamped(d, now)), now) == Stamped(d, now)
  {
    TreesReload(d.nodes);
  }

  /** Whatever dictionary was loaded, saving and loading it again changes nothing more. */
  lemma ReloadStable(x: DocDict, now: string, later: string)
    requires now != ""
    ensures DocFromDict(DocToDict(DocFromDict(x, now)), later) == DocFromDict(x, now)
  {
    TreesReload(DocFromDict(x, now).nodes);
  }
}
