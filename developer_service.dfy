/** `DeveloperService`: lookup, creation with a name guard, rename, and the
    delete that first clears `developer` on each of the developer's games. */
module DeveloperService {
  import opened Common
  import opened CatalogEntities
  import opened Catalog

  const DeveloperNotFound := NoSuchElement("Developer not found")
  const DeveloperNameTaken := IllegalArgument("Developer name already exists")

  /** `getById`: the developer with its games loaded, or "Developer not found". */
  function GetById(store: CatalogStore, id: DeveloperId): (r: Result<Developer>)
    reads store
    ensures r.Ok? <==> id in store.developers
    ensures r.Err? ==> r.error == DeveloperNotFound
    ensures r.Ok? ==> r.value.id == Some(id) && r.value.name == store.developers[id]
    ensures r.Ok? ==> forall k :: k in r.value.games <==> k in store.games && store.games[k].developer == Some(id)
  {
    if id in store.developers then Ok(Developer(Some(id), store.developers[id], GamesOfDeveloper(store.games, id)))
    else Err(DeveloperNotFound)
  }

  /** `save`: a taken name is refused; otherwise a new developer with that name
      and no games is stored under the next id. */
  method Save(store: CatalogStore, name: string) returns (r: Result<Developer>)
    requires store.Valid()
    modifies store`developers, store`nextDeveloperId
    ensures store.Valid()
    ensures ExistsByName(old(store.developers), name) ==>
              r == Err(DeveloperNameTaken) && store.developers == old(store.developers)
    ensures !ExistsByName(old(store.developers), name) ==>
              && r == Ok(Developer(Some(old(store.nextDeveloperId)), name, {}))
              && store.developers == old(store.developers)[old(store.nextDeveloperId) := name]
  {
    if ExistsByName(store.developers, name) {
      return Err(DeveloperNameTaken);
    }
    var developer := NewDeveloper(name);
    var id := store.nextDeveloperId;
    store.developers := store.developers[id := developer.name];
    store.nextDeveloperId := id + 1;
    assert GamesOfDeveloper(store.games, id) == {};
    r := Ok(developer.(id := Some(id)));
  }

  /** `updateName`: sets the name without a duplicate check of its own. A name held
      by another developer is then refused by the unique column when the change
      is flushed, and the transaction rolls back. */
  method UpdateName(store: CatalogStore, id: DeveloperId, name: string) returns (r: Result<Developer>)
    requires store.Valid()
    modifies store`developers
    ensures store.Valid()
    ensures id !in old(store.developers) ==> r == Err(DeveloperNotFound) && store.developers == old(store.developers)
    ensures id in old(store.developers) && (exists k :: k in old(store.developers) && k != id && old(store.developers)[k] == name) ==>
              r == Err(DataIntegrityViolation) && store.developers == old(store.developers)
    ensures id in old(store.developers) && (forall k :: k in old(store.developers) && k != id ==> old(store.developers)[k] != name) ==>
              r.Ok?
    ensures r.Ok? ==> && store.developers == old(store.developers)[id := name]
                      && r.value == Developer(Some(id), name, GamesOfDeveloper(store.games, id))
  {
    var found := GetById(store, id);
    if found.Err? {
      return Err(found.error);
    }
    var developer := found.value.(name := name);
    if exists k :: k in store.developers && k != id && store.developers[k] == name {
      return Err(DataIntegrityViolation);
    }
    store.developers := store.developers[id := developer.name];
    r := Ok(developer);
  }

  /** `deleteById`: walks the loaded `games` and clears `developer` on each, then
      deletes the developer; games themselves are kept. */
  method DeleteById(store: CatalogStore, id: DeveloperId) returns (r: Outcome)
    requires store.Valid()
    modifies store`games, store`developers
    ensures store.Valid()
    ensures id !in old(store.developers) ==>
              r == Fail(DeveloperNotFound) && store.games == old(store.games) && store.developers == old(store.developers)
    ensures id in old(store.developers) ==>
              && r == Pass
              && store.games == DetachDeveloper(old(store.games), id)
              && store.developers == old(store.developers) - {id}
  {
    var found := GetById(store, id);
    if found.Err? {
      return Fail(found.error);
    }
    var developer := found.value;
    ghost var before := store.games;
    var pending := developer.games;
    while pending != {}
      modifies store`games
      invariant pending <= developer.games
      invariant store.games.Keys == before.Keys
      invariant forall k :: k in before ==>
                  store.games[k] == if k in pending then before[k] else WithoutDeveloper(before[k], id)
      decreases pending
    {
      var k :| k in pending;
      var game := store.games[k];
      store.games := store.games[k := game.(developer := None)];
      pending := pending - {k};
    }
    assert store.games == DetachDeveloper(before, id);
    DetachDeveloperKeepsIntegrity(before, store.developers, store.platforms, store.genres, id);
    store.developers := store.developers - {id};
    r := Pass;
  }

  /** After the cleanup and the delete, a game that had the developer still exists,
      has no developer, and is otherwise unchanged. */
  lemma DeletedDeveloperLeavesGamesWithoutDeveloper(games: map<GameId, Game>, d: DeveloperId, k: GameId)
    requires k in games && games[k].developer == Some(d)
    ensures k in DetachDeveloper(games, d)
    ensures DetachDeveloper(games, d)[k] == games[k].(developer := None)
  {
  }
}
