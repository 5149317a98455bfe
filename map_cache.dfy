/** The client-side map cache (frontend-react/src/context/MapProvider.js):
    the user's own maps and the maps shared with them, a loading flag, and
    the fetch, save and delete requests that refresh or edit them. Server
    replies are parameters; each method returns the notification it shows. */
module MapCache {
  import opened Wrappers
  import opened JsText
  import opened MapSchema
  import MindmapDoc

  /** What `res.json()` gives: a parsed JSON body, or a rejection with its
      message when the body is not JSON. */
  datatype Body =
    | MapList(maps: seq<MindMap>)
    | MapValue(value: MindMap)
    | ErrorValue(msg: Option<string>, message: Option<string>)
    | BadJson(reason: string)

  /** What `fetchWithAuth(...)` gives: a response with its status and body,
      or a rejected request (network failure, expired session) with its
      message. */
  datatype Reply = Reply(ok: bool, body: Body) | Failed(reason: string)

  datatype Notice = Notice(message: string, kind: string)

  datatype Method = Put | Post

  /** A request path below the API's base URL. */
  datatype Request = Request(verb: Method, path: string)

  /** The object handed to `saveMap`: `mongoId` is its `_id` key, `id` its
      `id` key. */
  datatype MapData = MapData(mongoId: Option<MapId>, id: Option<MapId>, title: string,
                             nodes: seq<SavedNode>, connections: seq<Connection>)

  /** The editor's `mapToSave` as `saveMap` sees it: it has an `id` key and
      no `_id` key. */
  function FromEditor(p: MindmapDoc.SavePayload): MapData {
    MapData(None, p.id, p.title, p.nodes, p.connections)
  }

  /** `saveMap`'s URL and method: PUT to `/maps/<_id>` exactly when `_id` is
      truthy, POST to `/maps` otherwise. */
  function RequestFor(d: MapData): (r: Request)
    ensures r.verb == Put <==> Truthy(d.mongoId)
    ensures r.path == if Truthy(d.mongoId) then "/maps/" + d.mongoId.value else "/maps"
  {
    if Truthy(d.mongoId) then Request(Put, "/maps/" + d.mongoId.value) else Request(Post, "/maps")
  }

  /** Every save from the editor is a POST to `/maps`, also for a map that
      already exists; the map's id travels in the body's `id`, which is what
      the backend's POST route uses to choose an update. */
  lemma EditorSaveIsPost<P>(currentId: Option<MapId>, title: string, doc: MindmapDoc.FlowDoc<P>, format: P -> string)
    ensures var d := FromEditor(MindmapDoc.Payload(currentId, title, doc, format));
      RequestFor(d) == Request(Post, "/maps") && d.id == currentId && d.mongoId.None?
  {
  }

  /** The map's `_id`. */
  function MapKey(m: MindMap): MapId {
    m.id
  }

  /** `maps.find(m => m._id === mapId)`. */
  function FindById(maps: seq<MindMap>, mapId: MapId): Option<MindMap> {
    Find(maps, MapKey, mapId)
  }

  /** `getMapById`: search the own maps, then the shared ones, so an own
      map takes precedence; the shared maps are consulted only when no own
      map has the id. */
  function GetMapById(myMaps: seq<MindMap>, sharedMaps: seq<MindMap>, mapId: MapId): (r: Option<MindMap>)
    ensures FindById(myMaps, mapId).Some? ==> r == FindById(myMaps, mapId)
    ensures FindById(myMaps, mapId).None? ==> r == FindById(sharedMaps, mapId)
  {
    FindInConcat(myMaps, sharedMaps, MapKey, mapId);
    FindById(myMaps + sharedMaps, mapId)
  }

  /** `prevMaps.filter(m => m._id !== mapId)`. */
  function RemoveById(maps: seq<MindMap>, mapId: MapId): (r: seq<MindMap>)
    ensures |r| <= |maps|
  {
    if maps == [] then []
    else
      KeptMap(maps[0], mapId) + RemoveById(maps[1..], mapId)
  }

  /** What one map contributes to the filtered list. */
  function KeptMap(m: MindMap, mapId: MapId): seq<MindMap> {
    if m.id == mapId then [] else [m]
  }

  /** Removing an id no map has is a no-op. */
  lemma {:induction false} RemoveByIdAbsent(maps: seq<MindMap>, mapId: MapId)
    requires FindById(maps, mapId).None?
    ensures RemoveById(maps, mapId) == maps
  {
    if maps != [] {
      assert FindById(maps[1..], mapId).None?;
      RemoveByIdAbsent(maps[1..], mapId);
      assert maps == [maps[0]] + maps[1..];
    }
  }

  /** The filter keeps exactly the maps with another id. */
  lemma {:induction false} RemoveByIdMembers(maps: seq<MindMap>, mapId: MapId)
    ensures forall m :: m in RemoveById(maps, mapId) <==> m in maps && m.id != mapId
  {
    if maps != [] {
      RemoveByIdMembers(maps[1..], mapId);
      assert forall q :: q in maps <==> q == maps[0] || q in maps[1..];
    }
  }

  /** The filter keeps the surviving maps in place: it distributes over
      concatenation. */
  lemma {:induction false} RemoveByIdAppend(a: seq<MindMap>, b: seq<MindMap>, mapId: MapId)
    ensures RemoveById(a + b, mapId) == RemoveById(a, mapId) + RemoveById(b, mapId)
  {
    if a == [] {
      assert a + b == b;
    } else {
      var m, t := a[0], a[1..];
      calc {
        RemoveById(a + b, mapId);
        == { assert a + b == [m] + (t + b); RemoveByIdCons(m, t + b, mapId); }
        KeptMap(m, mapId) + RemoveById(t + b, mapId);
        == { RemoveByIdAppend(t, b, mapId); }
        KeptMap(m, mapId) + (RemoveById(t, mapId) + RemoveById(b, mapId));
        (KeptMap(m, mapId) + RemoveById(t, mapId)) + RemoveById(b, mapId);
        == { assert a == [m] + t; RemoveByIdCons(m, t, mapId); }
        RemoveById(a, mapId) + RemoveById(b, mapId);
      }
    }
  }

  lemma RemoveByIdCons(m: MindMap, rest: seq<MindMap>, mapId: MapId)
    ensures RemoveById([m] + rest, mapId) == KeptMap(m, mapId) + RemoveById(rest, mapId)
  {
    assert ([m] + rest)[1..] == rest;
  }

  /** `Array.isArray(data) ? data : []`. */
  function ListOr(b: Body): seq<MindMap> {
    if b.MapList? then b.maps else []
  }

  /** The `message` key of an error body (`undefined` on any other body). */
  function MessageOf(b: Body): Option<string> {
    if b.ErrorValue? then b.message else None
  }

  /** The `msg` key of an error body. */
  function MsgOf(b: Body): Option<string> {
    if b.ErrorValue? then b.msg else None
  }

  datatype FetchResult = Loaded(mine: seq<MindMap>, shared: seq<MindMap>) | FetchError(message: string)

  /** What `fetchAllMaps` makes of the two replies, in the source's order:
      a rejected request (own first), then an unparsable own body, then an
      unparsable shared body, then a failed own status, then a failed shared
      status. Both lists load when nothing failed, a non-array body counting
      as an empty list. */
  function Fetched(mine: Reply, shared: Reply): (r: FetchResult)
    ensures r.Loaded? <==>
      mine.Reply? && shared.Reply? && !mine.body.BadJson? && !shared.body.BadJson? && mine.ok && shared.ok
    ensures r.Loaded? ==> r.mine == (if mine.body.MapList? then mine.body.maps else [])
    ensures r.Loaded? ==> r.shared == (if shared.body.MapList? then shared.body.maps else [])
    ensures mine.Failed? ==> r == FetchError(mine.reason)
    ensures mine.Reply? && shared.Failed? ==> r == FetchError(shared.reason)
    ensures mine.Reply? && shared.Reply? && mine.body.BadJson? ==> r == FetchError(mine.body.reason)
    ensures mine.Reply? && shared.Reply? && !mine.body.BadJson? && shared.body.BadJson? ==>
      r == FetchError(shared.body.reason)
    ensures mine.Reply? && shared.Reply? && !mine.body.BadJson? && !shared.body.BadJson? && !mine.ok ==>
      r == FetchError(OrElse(MessageOf(mine.body), "Falha ao buscar seus mapas"))
    ensures mine.Reply? && shared.Reply? && !mine.body.BadJson? && !shared.body.BadJson? && mine.ok && !shared.ok ==>
      r == FetchError(OrElse(MessageOf(shared.body), "Falha ao buscar mapas compartilhados"))
  {
    if mine.Failed? then FetchError(mine.reason)
    else if shared.Failed? then FetchError(shared.reason)
    else if mine.body.BadJson? then FetchError(mine.body.reason)
    else if shared.body.BadJson? then FetchError(shared.body.reason)
    else if !mine.ok then FetchError(OrElse(MessageOf(mine.body), "Falha ao buscar seus mapas"))
    else if !shared.ok then FetchError(OrElse(MessageOf(shared.body), "Falha ao buscar mapas compartilhados"))
    else Loaded(ListOr(mine.body), ListOr(shared.body))
  }

  /** A rejected request outranks every body: `Promise.all` rejects before
      either `res.json()` runs, so neither a bad body nor a failed status of
      the other reply reaches the notice. */
  lemma RejectionFirst(mine: Reply, shared: Reply)
    requires mine.Failed? || shared.Failed?
    ensures Fetched(mine, shared) == FetchError(if mine.Failed? then mine.reason else shared.reason)
  {
  }

  /** With both requests answered, an unparsable body outranks every status,
      and the own body is read before the shared one. */
  lemma BodyBeforeStatus(mine: Reply, shared: Reply)
    requires mine.Reply? && shared.Reply? && (mine.body.BadJson? || shared.body.BadJson?)
    ensures Fetched(mine, shared) ==
      FetchError(if mine.body.BadJson? then mine.body.reason else shared.body.reason)
  {
  }

  /** The message `saveMap` shows for a reply that is not OK. */
  function SaveFailure(m: Method, b: Body): string {
    OrElse(MsgOf(b), "Falha ao " + (if m == Put then "atualizar" else "salvar") + " o mapa")
  }

  class MapProvider {
    var myMaps: seq<MindMap>
    var sharedMaps: seq<MindMap>
    var loading: bool

    constructor ()
      ensures myMaps == [] && sharedMaps == [] && !loading
    {
      myMaps := [];
      sharedMaps := [];
      loading := false;
    }

    /** `getMapById`. */
    method GetMap(mapId: MapId) returns (r: Option<MindMap>)
      ensures r == GetMapById(myMaps, sharedMaps, mapId)
    {
      r := FindById(myMaps + sharedMaps, mapId);
    }

    /** `fetchAllMaps` with the replies to `/maps` and `/maps/shared-with-me`.
        Nothing happens when the user is not authenticated; any failure
        empties both lists. */
    method FetchAllMaps(authenticated: bool, mine: Reply, shared: Reply) returns (notice: Option<Notice>)
      modifies this
      ensures !authenticated ==>
        notice.None? && myMaps == old(myMaps) && sharedMaps == old(sharedMaps) && loading == old(loading)
      ensures authenticated ==> !loading
      ensures authenticated && Fetched(mine, shared).Loaded? ==>
        notice.None? && myMaps == Fetched(mine, shared).mine && sharedMaps == Fetched(mine, shared).shared
      ensures authenticated && Fetched(mine, shared).FetchError? ==>
        notice == Some(Notice(Fetched(mine, shared).message, "error")) && myMaps == [] && sharedMaps == []
    {
      if !authenticated {
        return None;
      }
      loading := true;
      var result := Fetched(mine, shared);
      match result {
        case Loaded(m, s) =>
          myMaps := m;
          sharedMaps := s;
          notice := None;
        case FetchError(message) =>
          notice := Some(Notice(message, "error"));
          myMaps := [];
          sharedMaps := [];
      }
      loading := false;
    }

    /** `saveMap(mapData)` with the server's `reply`. On success the saved
        body is returned and the provider starts a refresh (a concurrent
        `FetchAllMaps`, not part of this call); the cached lists are not
        touched here. */
    method SaveMap(data: MapData, reply: Reply) returns (request: Request, saved: Option<Body>, notice: Notice)
      modifies this
      ensures request == RequestFor(data)
      ensures myMaps == old(myMaps) && sharedMaps == old(sharedMaps) && !loading
      ensures saved.Some? <==> reply.Reply? && reply.ok && !reply.body.BadJson?
      ensures saved.Some? ==> saved.value == reply.body && notice == Notice("Mapa salvo com sucesso!", "success")
      ensures reply.Failed? ==> notice == Notice(reply.reason, "error")
      ensures reply.Reply? && reply.body.BadJson? ==> notice == Notice(reply.body.reason, "error")
      ensures reply.Reply? && !reply.ok && !reply.body.BadJson? ==>
        notice == Notice(SaveFailure(request.verb, reply.body), "error")
    {
      request := RequestFor(data);
      loading := true;
      match reply {
        case Failed(reason) =>
          saved, notice := None, Notice(reason, "error");
        case Reply(ok, body) =>
          if body.BadJson? {
            saved, notice := None, Notice(body.reason, "error");
          } else if !ok {
            saved, notice := None, Notice(SaveFailure(request.verb, body), "error");
          } else {
            saved, notice := Some(body), Notice("Mapa salvo com sucesso!", "success");
          }
      }
      loading := false;
    }

    /** `deleteMap(mapId)`: `confirmed` is the answer to the confirmation
        dialog. A successful delete drops the own maps with that id. */
    method DeleteMap(mapId: MapId, confirmed: bool, reply: Reply) returns (notice: Option<Notice>)
      modifies this
      ensures !confirmed ==>
        notice.None? && myMaps == old(myMaps) && sharedMaps == old(sharedMaps) && loading == old(loading)
      ensures confirmed ==> !loading && sharedMaps == old(sharedMaps)
      ensures confirmed && reply.Reply? && reply.ok ==>
        myMaps == RemoveById(old(myMaps), mapId) && notice == Some(Notice("Mapa deletado com sucesso!", "success"))
      ensures confirmed && reply.Failed? ==> myMaps == old(myMaps) && notice == Some(Notice(reply.reason, "error"))
      ensures confirmed && reply.Reply? && !reply.ok && reply.body.BadJson? ==>
        myMaps == old(myMaps) && notice == Some(Notice(reply.body.reason, "error"))
      ensures confirmed && reply.Reply? && !reply.ok && !reply.body.BadJson? ==>
        myMaps == old(myMaps) && notice == Some(Notice(OrElse(MsgOf(reply.body), "Falha ao deletar o mapa"), "error"))
    {
      if !confirmed {
        return None;
      }
      loading := true;
      match reply {
        case Failed(reason) =>
          notice := Some(Notice(reason, "error"));
        case Reply(ok, body) =>
          if !ok && body.BadJson? {
            notice := Some(Notice(body.reason, "error"));
          } else if !ok {
            notice := Some(Notice(OrElse(MsgOf(body), "Falha ao deletar o mapa"), "error"));
          } else {
            myMaps := RemoveById(myMaps, mapId);
            notice := Some(Notice("Mapa deletado com sucesso!", "success"));
          }
      }
      loading := false;
    }
  }
}
