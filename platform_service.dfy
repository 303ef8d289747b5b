/** `PlatformService`: the name guard, lookup, creation, guarded rename, and the
    delete that first removes the platform from each of its games. */
module PlatformService {
  import opened Common
  import opened CatalogEntities
  import opened Catalog

  const PlatformNotFound := NoSuchElement("Platform not found")
  const PlatformNameTaken := IllegalArgument("Platform name already exists")

  /** `throwIfExistsByName`. */
  function ThrowIfExistsByName(store: CatalogStore, name: string): (r: Outcome)
    reads store
    ensures r == Pass <==> forall k :: k in store.platforms ==> store.platforms[k] != name
    ensures r.Fail? ==> r.error == PlatformNameTaken
  {
    if ExistsByName(store.platforms, name) then Fail(PlatformNameTaken) else Pass
  }

  /** `getById`: the platform with its games loaded, or "Platform not found". */
  function GetById(store: CatalogStore, id: PlatformId): (r: Result<Platform>)
    reads store
    ensures r.Ok? <==> id in store.platforms
    ensures r.Err? ==> r.error == PlatformNotFound
    ensures r.Ok? ==> r.value.id == Some(id) && r.value.name == store.platforms[id]
    ensures r.Ok? ==> forall k :: k in r.value.games <==>
                        k in store.games && store.games[k].platforms.Some? && id in store.games[k].platforms.value
  {
    if id in store.platforms then Ok(Platform(Some(id), store.platforms[id], GamesOfPlatform(store.games, id)))
    else Err(PlatformNotFound)
  }

  /** `save`: a taken name is refused; otherwise a new platform with that name and
      no games is stored under the next id. */
  method Save(store: CatalogStore, name: string) returns (r: Result<Platform>)
    requires store.Valid()
    modifies store`platforms, store`nextPlatformId
    ensures store.Valid()
    ensures ExistsByName(old(store.platforms), name) ==>
              r == Err(PlatformNameTaken) && store.platforms == old(store.platforms)
    ensures !ExistsByName(old(store.platforms), name) ==>
              && r == Ok(Platform(Some(old(store.nextPlatformId)), name, {}))
              && store.platforms == old(store.platforms)[old(store.nextPlatformId) := name]
  {
    var check := ThrowIfExistsByName(store, name);
    if check.Fail? {
      return Err(check.error);
    }
    var platform := NewPlatform(name);
    var id := store.nextPlatformId;
    store.platforms := store.platforms[id := platform.name];
    store.nextPlatformId := id + 1;
    r := Ok(platform.(id := Some(id)));
  }

  /** `updateNameById`: the guard runs only when the name actually changes, so
      resubmitting the current name always succeeds. */
  method UpdateNameById(store: CatalogStore, id: PlatformId, name: string) returns (r: Result<Platform>)
    requires store.Valid()
    modifies store`platforms
    ensures store.Valid()
    ensures id !in old(store.platforms) ==> r == Err(PlatformNotFound) && store.platforms == old(store.platforms)
    ensures id in old(store.platforms) && old(store.platforms)[id] == name ==>
              r.Ok? && store.platforms == old(store.platforms)
    ensures id in old(store.platforms) && old(store.platforms)[id] != name && ExistsByName(old(store.platforms), name) ==>
              r == Err(PlatformNameTaken) && store.platforms == old(store.platforms)
    ensures id in old(store.platforms) && old(store.platforms)[id] != name && !ExistsByName(old(store.platforms), name) ==> r.Ok?
    ensures r.Ok? ==> && store.platforms == old(store.platforms)[id := name]
                      && r.value == Platform(Some(id), name, GamesOfPlatform(store.games, id))
  {
    var found := GetById(store, id);
    if found.Err? {
      return Err(found.error);
    }
    var platform := found.value;
    if platform.name != name {
      var check := ThrowIfExistsByName(store, name);
      if check.Fail? {
        return Err(check.error);
      }
    }
    platform := platform.(name := name);
    store.platforms := store.platforms[id := platform.name];
    r := Ok(platform);
  }

  /** `deleteById`: walks the loaded `games` and removes the platform from each
      game's `platforms`, then deletes the platform; games themselves are kept. */
  method DeleteById(store: CatalogStore, id: PlatformId) returns (r: Outcome)
    requires store.Valid()
    modifies store`games, store`platforms
    ensures store.Valid()
    ensures id !in old(store.platforms) ==>
              r == Fail(PlatformNotFound) && store.games == old(store.games) && store.platforms == old(store.platforms)
    ensures id in old(store.platforms) ==>
              && r == Pass
              && store.games == DetachPlatform(old(store.games), id)
              && store.platforms == old(store.platforms) - {id}
  {
    var found := GetById(store, id);
    if found.Err? {
      return Fail(found.error);
    }
    var platform := found.value;
    ghost var before := store.games;
    var pending := platform.games;
    while pending != {}
      modifies store`games
      invariant pending <= platform.games
      invariant store.games.Keys == before.Keys
      invariant forall k :: k in before ==>
                  store.games[k] == if k in pending then before[k] else WithoutPlatform(before[k], id)
      decreases pending
    {
      var k :| k in pending;
      var game := store.games[k];
      store.games := store.games[k := game.(platforms := Some(game.platforms.value - {id}))];
      pending := pending - {k};
    }
    assert store.games == DetachPlatform(before, id);
    DetachPlatformKeepsIntegrity(before, store.developers, store.platforms, store.genres, id);
    store.platforms := store.platforms - {id};
    r := Pass;
  }

  /** Scenario: a platform listed by two games; after the delete both games still
      exist, neither lists the platform, and each keeps its other platforms. */
  lemma DeletedPlatformLeavesBothGames(games: map<GameId, Game>, x: PlatformId, a: GameId, b: GameId)
    requires a in games && b in games
    requires games[a].platforms.Some? && x in games[a].platforms.value
    requires games[b].platforms.Some? && x in games[b].platforms.value
    ensures a in DetachPlatform(games, x) && b in DetachPlatform(games, x)
    ensures DetachPlatform(games, x)[a].platforms == Some(games[a].platforms.value - {x})
    ensures DetachPlatform(games, x)[b].platforms == Some(games[b].platforms.value - {x})
    ensures forall k :: k in DetachPlatform(games, x) && DetachPlatform(games, x)[k].platforms.Some? ==>
              x !in DetachPlatform(games, x)[k].platforms.value
  {
  }
}
