/** The map routes of the backend (backend/routes/maps.js): saving with its
    ownership and edit-permission gate, the shared-with-me listing, issuing a
    share token, and the owner-only delete that cascades to permissions. The
    map collection and the permission collection are the state of a
    `MapStore`. */
module MapRoutes {
  import opened Wrappers
  import opened JsText
  import opened MapSchema

  datatype SaveOutcome = Saved(saved: MindMap) | SaveNotFound | SaveForbidden

  datatype ShareOutcome = Shared(shareId: string) | ShareNotFound

  datatype DeleteOutcome = Deleted | DeleteNotFound

  /** The permission collection holds an `edit` record of `user` for `mapId`. */
  predicate HasEditPermission(perms: seq<Permission>, mapId: MapId, user: UserId) {
    Permission(mapId, user, Edit) in perms
  }

  /** Who may save over an existing map: its owner or an editor. */
  predicate MaySave(m: MindMap, perms: seq<Permission>, user: UserId) {
    m.user == user || HasEditPermission(perms, m.id, user)
  }

  /** The map after an authorised save: the three request fields replace
      the stored ones. */
  function Updated(m: MindMap, title: string, nodes: seq<SavedNode>, connections: seq<Connection>): (r: MindMap)
    ensures r.id == m.id && r.user == m.user && r.isPublic == m.isPublic && r.shareId == m.shareId
    ensures r.title == title && r.nodes == nodes && r.connections == connections
  {
    m.(title := title, nodes := nodes, connections := connections)
  }

  /** The map after a share request with a freshly drawn `token`: a token
      already present is kept, and the map becomes public. */
  function ShareMap(m: MindMap, token: string): (r: MindMap)
    requires token != ""
    ensures r.isPublic && Truthy(r.shareId)
    ensures Truthy(m.shareId) ==> r.shareId == m.shareId
    ensures r == m.(isPublic := r.isPublic, shareId := r.shareId)
  {
    m.(isPublic := true, shareId := if Truthy(m.shareId) then m.shareId else Some(token))
  }

  /** Sharing twice keeps the first token, whatever the second draw. */
  lemma ShareIsStable(m: MindMap, t1: string, t2: string)
    requires t1 != "" && t2 != ""
    ensures ShareMap(ShareMap(m, t1), t2) == ShareMap(m, t1)
    ensures ShareMap(m, t1).shareId == if Truthy(m.shareId) then m.shareId else Some(t1)
  {
  }

  /** The permissions that do not refer to `mapId`, in their original order. */
  function WithoutMap(perms: seq<Permission>, mapId: MapId): (r: seq<Permission>)
    ensures |r| <= |perms|
  {
    if perms == [] then []
    else KeptRecord(perms[0], mapId) + WithoutMap(perms[1..], mapId)
  }

  /** What one record contributes to the cascade's survivors. */
  function KeptRecord(p: Permission, mapId: MapId): seq<Permission> {
    if p.mapId == mapId then [] else [p]
  }

  /** The cascade keeps exactly the records of other maps. */
  lemma {:induction false} WithoutMapMembers(perms: seq<Permission>, mapId: MapId)
    ensures forall p :: p in WithoutMap(perms, mapId) <==> p in perms && p.mapId != mapId
  {
    if perms != [] {
      WithoutMapMembers(perms[1..], mapId);
      assert forall q :: q in perms <==> q == perms[0] || q in perms[1..];
    }
  }

  /** The cascade keeps the surviving records in place: it distributes over
      concatenation. */
  lemma {:induction false} WithoutMapAppend(p1: seq<Permission>, p2: seq<Permission>, mapId: MapId)
    ensures WithoutMap(p1 + p2, mapId) == WithoutMap(p1, mapId) + WithoutMap(p2, mapId)
  {
    if p1 == [] {
      assert p1 + p2 == p2;
    } else {
      var p, t := p1[0], p1[1..];
      calc {
        WithoutMap(p1 + p2, mapId);
        == { assert p1 + p2 == [p] + (t + p2); WithoutMapCons(p, t + p2, mapId); }
        KeptRecord(p, mapId) + WithoutMap(t + p2, mapId);
        == { WithoutMapAppend(t, p2, mapId); }
        KeptRecord(p, mapId) + (WithoutMap(t, mapId) + WithoutMap(p2, mapId));
        (KeptRecord(p, mapId) + WithoutMap(t, mapId)) + WithoutMap(p2, mapId);
        == { assert p1 == [p] + t; WithoutMapCons(p, t, mapId); }
        WithoutMap(p1, mapId) + WithoutMap(p2, mapId);
      }
    }
  }

  lemma WithoutMapCons(p: Permission, rest: seq<Permission>, mapId: MapId)
    ensures WithoutMap([p] + rest, mapId) == KeptRecord(p, mapId) + WithoutMap(rest, mapId)
  {
    assert ([p] + rest)[1..] == rest;
  }

  /** `permissions.map(p => p.map).filter(map => map != null)` over the
      records of `user`: the maps those records point to, in record order,
      skipping records whose map no longer exists. */
  function SharedMaps(perms: seq<Permission>, maps: map<MapId, MindMap>, user: UserId): (r: seq<MindMap>)
    ensures |r| <= |perms|
  {
    if perms == [] then []
    else
      var p := perms[0];
      Listed(p, maps, user) + SharedMaps(perms[1..], maps, user)
  }

  /** The listing holds exactly the stored maps that one of `user`'s records
      points to, so every listed map is in the collection. */
  lemma {:induction false} SharedMapsMembers(perms: seq<Permission>, maps: map<MapId, MindMap>, user: UserId)
    ensures forall m :: m in SharedMaps(perms, maps, user) ==> m in maps.Values
    ensures forall m :: m in SharedMaps(perms, maps, user) <==>
      exists p :: p in perms && p.user == user && p.mapId in maps && maps[p.mapId] == m
  {
    if perms != [] {
      SharedMapsMembers(perms[1..], maps, user);
      assert forall q :: q in perms <==> q == perms[0] || q in perms[1..];
    }
  }

  /** The listing follows the permission order: it distributes over
      concatenation of permission sequences. */
  lemma {:induction false} SharedMapsAppend(p1: seq<Permission>, p2: seq<Permission>, maps: map<MapId, MindMap>, user: UserId)
    ensures SharedMaps(p1 + p2, maps, user) == SharedMaps(p1, maps, user) + SharedMaps(p2, maps, user)
  {
    if p1 == [] {
      assert p1 + p2 == p2;
    } else {
      var p, t := p1[0], p1[1..];
      calc {
        SharedMaps(p1 + p2, maps, user);
        == { assert p1 + p2 == [p] + (t + p2); SharedMapsCons(p, t + p2, maps, user); }
        Listed(p, maps, user) + SharedMaps(t + p2, maps, user);
        == { SharedMapsAppend(t, p2, maps, user); }
        Listed(p, maps, user) + (SharedMaps(t, maps, user) + SharedMaps(p2, maps, user));
        (Listed(p, maps, user) + SharedMaps(t, maps, user)) + SharedMaps(p2, maps, user);
        == { assert p1 == [p] + t; SharedMapsCons(p, t, maps, user); }
        SharedMaps(p1, maps, user) + SharedMaps(p2, maps, user);
      }
    }
  }

  /** What one record contributes to the listing. */
  function Listed(p: Permission, maps: map<MapId, MindMap>, user: UserId): seq<MindMap> {
    if p.user == user && p.mapId in maps then [maps[p.mapId]] else []
  }

  /** The listing of `[p] + rest` is p's contribution followed by the listing
      of `rest`. */
  lemma SharedMapsCons(p: Permission, rest: seq<Permission>, maps: map<MapId, MindMap>, user: UserId)
    ensures SharedMaps([p] + rest, maps, user) == Listed(p, maps, user) + SharedMaps(rest, maps, user)
  {
    assert ([p] + rest)[1..] == rest;
  }

  /** A map that has been removed from the collection is never listed, even
      while permission records still point to it. */
  lemma DeletedMapNotListed(perms: seq<Permission>, maps: map<MapId, MindMap>, user: UserId, mapId: MapId)
    requires forall k :: k in maps ==> maps[k].id == k
    ensures forall m :: m in SharedMaps(perms, maps - {mapId}, user) ==> m.id != mapId
  {
    SharedMapsMembers(perms, maps - {mapId}, user);
    forall m | m in SharedMaps(perms, maps - {mapId}, user) ensures m.id != mapId {
      var p :| p in perms && p.user == user && p.mapId in maps - {mapId} && (maps - {mapId})[p.mapId] == m;
    }
  }

  class MapStore {
    /** The map collection, by `_id`. */
    var maps: map<MapId, MindMap>
    /** The permission collection, in natural (insertion) order. */
    var permissions: seq<Permission>

    ghost predicate Valid()
      reads this
    {
      forall k :: k in maps ==> maps[k].id == k
    }

    constructor ()
      ensures Valid() && maps == map[] && permissions == []
    {
      maps := map[];
      permissions := [];
    }

    /** POST `/`: with a truthy `id` the request updates that map, if the
        requester owns it or may edit it; without one it creates a map owned
        by the requester under the freshly generated `newId`. */
    method Save(user: UserId, id: Option<MapId>, title: string, nodes: seq<SavedNode>,
                connections: seq<Connection>, newId: MapId) returns (r: SaveOutcome)
      requires Valid()
      requires newId !in maps
      modifies this
      ensures Valid() && permissions == old(permissions)
      ensures !Truthy(id) ==>
        var created := MindMap(newId, user, title, nodes, connections, false, None);
        r == Saved(created) && maps == old(maps)[newId := created]
      ensures Truthy(id) && id.value !in old(maps) ==> r == SaveNotFound && maps == old(maps)
      ensures Truthy(id) && id.value in old(maps) && !MaySave(old(maps)[id.value], permissions, user) ==>
        r == SaveForbidden && maps == old(maps)
      ensures Truthy(id) && id.value in old(maps) && MaySave(old(maps)[id.value], permissions, user) ==>
        var updated := Updated(old(maps)[id.value], title, nodes, connections);
        r == Saved(updated) && maps == old(maps)[id.value := updated]
    {
      if Truthy(id) {
        var key := id.value;
        if key !in maps {
          return SaveNotFound;
        }
        var existing := maps[key];
        var isOwner := existing.user == user;
        var hasPermission := HasEditPermission(permissions, key, user);
        if !isOwner && !hasPermission {
          return SaveForbidden;
        }
        var updated := Updated(existing, title, nodes, connections);
        maps := maps[key := updated];
        r := Saved(updated);
      } else {
        var created := MindMap(newId, user, title, nodes, connections, false, None);
        maps := maps[newId := created];
        r := Saved(created);
      }
    }

    /** GET `/shared-with-me`. */
    method SharedWithMe(user: UserId) returns (r: seq<MindMap>)
      ensures r == SharedMaps(permissions, maps, user)
    {
      r := SharedMaps(permissions, maps, user);
    }

    /** POST `/:mapId/share`: only the owner may share; a token is drawn
        (`token`) only when the map has none. */
    method Share(user: UserId, mapId: MapId, token: string) returns (r: ShareOutcome)
      requires Valid()
      requires token != ""
      modifies this
      ensures Valid() && permissions == old(permissions)
      ensures !(mapId in old(maps) && old(maps)[mapId].user == user) ==>
        r == ShareNotFound && maps == old(maps)
      ensures mapId in old(maps) && old(maps)[mapId].user == user ==>
        var shared := ShareMap(old(maps)[mapId], token);
        maps == old(maps)[mapId := shared] && r == Shared(shared.shareId.value)
    {
      if !(mapId in maps && maps[mapId].user == user) {
        return ShareNotFound;
      }
      var shared := ShareMap(maps[mapId], token);
      maps := maps[mapId := shared];
      r := Shared(shared.shareId.value);
    }

    /** DELETE `/:id`: only the owner may delete; the map goes, and so does
        every permission on it. */
    method Delete(user: UserId, mapId: MapId) returns (r: DeleteOutcome)
      requires Valid()
      modifies this
      ensures Valid()
      ensures !(mapId in old(maps) && old(maps)[mapId].user == user) ==>
        r == DeleteNotFound && maps == old(maps) && permissions == old(permissions)
      ensures mapId in old(maps) && old(maps)[mapId].user == user ==>
        r == Deleted && maps == old(maps) - {mapId} && permissions == WithoutMap(old(permissions), mapId)
    {
      if !(mapId in maps && maps[mapId].user == user) {
        return DeleteNotFound;
      }
      maps := maps - {mapId};
      permissions := WithoutMap(permissions, mapId);
      r := Deleted;
    }
  }
}
