/** The stored shapes of the map collection (backend/models/Map.js) and of a
    permission record. They carry no behaviour of their own. */
module MapSchema {
  import opened Wrappers

  type MapId = string
  type UserId = string

  datatype Link = Link(title: string, url: string)

  datatype Topic = Topic(text: string, links: seq<Link>)

  /** A node as stored: `left` and `top` are CSS lengths such as "120px". */
  datatype SavedNode = SavedNode(id: string, left: string, top: string, topics: seq<Topic>)

  /** The schema types `connections` as an untyped array, so a stored entry
      may lack any of its three fields. */
  datatype Connection = Connection(id: Option<string>, source: Option<string>, target: Option<string>)

  datatype MindMap = MindMap(
    id: MapId,
    user: UserId,
    title: string,
    nodes: seq<SavedNode>,
    connections: seq<Connection>,
    isPublic: bool,
    shareId: Option<string>)

  datatype Level = View | Edit

  /** A collaborator's access to one map. */
  datatype Permission = Permission(mapId: MapId, user: UserId, level: Level)
}
