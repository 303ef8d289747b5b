/** `GenreService`: the name guard, lookup, creation, guarded rename, and the
    delete that first removes the genre from each of its games. */
module GenreService {
  import opened Common
  import opened CatalogEntities
  import opened Catalog

  const GenreNotFound := NoSuchElement("Genre not found")
  const GenreNameTaken := IllegalArgument("Genre name already exists")

  /** `throwIfExistsByName`. */
  function ThrowIfExistsByName(store: CatalogStore, name: string): (r: Outcome)
    reads store
    ensures r == Pass <==> forall k :: k in store.genres ==> store.genres[k] != name
    ensures r.Fail? ==> r.error == GenreNameTaken
  {
    if ExistsByName(store.genres, name) then Fail(GenreNameTaken) else Pass
  }

  /** `getById`: the genre with its games loaded, or "Genre not found". */
  function GetById(store: CatalogStore, id: GenreId): (r: Result<Genre>)
    reads store
    ensures r.Ok? <==> id in store.genres
    ensures r.Err? ==> r.error == GenreNotFound
    ensures r.Ok? ==> r.value.id == Some(id) && r.value.name == store.genres[id]
    ensures r.Ok? ==> forall k :: k in r.value.games <==>
                        k in store.games && store.games[k].genres.Some? && id in store.games[k].genres.value
  {
    if id in store.genres then Ok(Genre(Some(id), store.genres[id], GamesOfGenre(store.games, id)))
    else Err(GenreNotFound)
  }

  /** `save`: a taken name is refused; otherwise a new genre with that name and
      no games is stored under the next id. */
  method Save(store: CatalogStore, name: string) returns (r: Result<Genre>)
    requires store.Valid()
    modifies store`genres, store`nextGenreId
    ensures store.Valid()
    ensures ExistsByName(old(store.genres), name) ==>
              r == Err(GenreNameTaken) && store.genres == old(store.genres)
    ensures !ExistsByName(old(store.genres), name) ==>
              && r == Ok(Genre(Some(old(store.nextGenreId)), name, {}))
              && store.genres == old(store.genres)[old(store.nextGenreId) := name]
  {
    var check := ThrowIfExistsByName(store, name);
    if check.Fail? {
      return Err(check.error);
    }
    var genre := NewGenre(name);
    var id := store.nextGenreId;
    store.genres := store.genres[id := genre.name];
    store.nextGenreId := id + 1;
    r := Ok(genre.(id := Some(id)));
  }

  /** `updateNameById`: the guard runs only when the name actually changes, so
      resubmitting the current name always succeeds. */
  method UpdateNameById(store: CatalogStore, id: GenreId, name: string) returns (r: Result<Genre>)
    requires store.Valid()
    modifies store`genres
    ensures store.Valid()
    ensures id !in old(store.genres) ==> r == Err(GenreNotFound) && store.genres == old(store.genres)
    ensures id in old(store.genres) && old(store.genres)[id] == name ==>
              r.Ok? && store.genres == old(store.genres)
    ensures id in old(store.genres) && old(store.genres)[id] != name && ExistsByName(old(store.genres), name) ==>
              r == Err(GenreNameTaken) && store.genres == old(store.genres)
    ensures id in old(store.genres) && old(store.genres)[id] != name && !ExistsByName(old(store.genres), name) ==> r.Ok?
    ensures r.Ok? ==> && store.genres == old(store.genres)[id := name]
                      && r.value == Genre(Some(id), name, GamesOfGenre(store.games, id))
  {
    var found := GetById(store, id);
    if found.Err? {
      return Err(found.error);
    }
    var genre := found.value;
    if genre.name != name {
      var check := ThrowIfExistsByName(store, name);
      if check.Fail? {
        return Err(check.error);
      }
    }
    genre := genre.(name := name);
    store.genres := store.genres[id := genre.name];
    r := Ok(genre);
  }

  /** `deleteById`: walks the loaded `games` and removes the genre from each
      game's `genres`, then deletes the genre; games themselves are kept. */
  method DeleteById(store: CatalogStore, id: GenreId) returns (r: Outcome)
    requires store.Valid()
    modifies store`games, store`genres
    ensures store.Valid()
    ensures id !in old(store.genres) ==>
              r == Fail(GenreNotFound) && store.games == old(store.games) && store.genres == old(store.genres)
    ensures id in old(store.genres) ==>
              && r == Pass
              && store.games == DetachGenre(old(store.games), id)
              && store.genres == old(store.genres) - {id}
  {
    var found := GetById(store, id);
    if found.Err? {
      return Fail(found.error);
    }
    var genre := found.value;
    ghost var before := store.games;
    var pending := genre.games;
    while pending != {}
      modifies store`games
      invariant pending <= genre.games
      invariant store.games.Keys == before.Keys
      invariant forall k :: k in before ==>
                  store.games[k] == if k in pending then before[k] else WithoutGenre(before[k], id)
      decreases pending
    {
      var k :| k in pending;
      var game := store.games[k];
      store.games := store.games[k := game.(genres := Some(game.genres.value - {id}))];
      pending := pending - {k};
    }
    assert store.games == DetachGenre(before, id);
    DetachGenreKeepsIntegrity(before, store.developers, store.platforms, store.genres, id);
    store.genres := store.genres - {id};
    r := Pass;
  }

  /** Scenario: a genre listed by two games; after the delete both games still
      exist, neither lists the genre, and each keeps its other genres. */
  lemma DeletedGenreLeavesBothGames(games: map<GameId, Game>, x: GenreId, a: GameId, b: GameId)
    requires a in games && b in games
    requires games[a].genres.Some? && x in games[a].genres.value
    requires games[b].genres.Some? && x in games[b].genres.value
    ensures a in DetachGenre(games, x) && b in DetachGenre(games, x)
    ensures DetachGenre(games, x)[a].genres == Some(games[a].genres.value - {x})
    ensures DetachGenre(games, x)[b].genres == Some(games[b].genres.value - {x})
    ensures forall k :: k in DetachGenre(games, x) && DetachGenre(games, x)[k].genres.Some? ==>
              x !in DetachGenre(games, x)[k].genres.value
  {
  }
}
