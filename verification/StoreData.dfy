/** What the vector store and the graph store hold, as far as ingest and retention see it. */
module StoreData {
  import opened CatalogSpec

  type Vector = seq<real>

  datatype PointId = PointId(physical: string, uuid: string)

  /** A point's sparse vector is a function of its text. */
  datatype Point = Point(payload: Chunk, dense: Vector)

  datatype NodeId = NodeId(uuid: string, tenant: string)

  /** A chunk node; it does not carry its collection. */
  datatype Node = Node(document: string, version: string, text: string)

  type Points = map<PointId, Point>

  type Nodes = map<NodeId, Node>

  /** The node a chunk is merged into, and what the merge sets. */
  function NodeEntry(c: Chunk): (NodeId, Node) {
    (NodeId(c.uuid, c.tenant), Node(c.document, c.version, c.text))
  }
}
