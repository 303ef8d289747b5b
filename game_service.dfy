/** `GameService`: mapping a request onto a game (resolving every referenced id
    before any field is assigned), lookup, creation, update and deletion. */
module GameService {
  import opened Common
  import opened CatalogEntities
  import opened Catalog
  import DeveloperService
  import PlatformService
  import GenreService

  /** `GameDTO`. The title has passed the request's not-blank validation, so it is
      never null; every other field may be. */
  datatype GameDto = GameDto(
    title: string,
    releaseDate: Option<LocalDate>,
    description: Option<string>,
    developerId: Option<DeveloperId>,
    platformIds: Option<set<PlatformId>>,
    genresIds: Option<set<GenreId>>)

  const GameNotFound := NoSuchElement("Game not found")

  /** A null developer id resolves to null; any other id through `developerService.getById`. */
  function ResolveDeveloper(store: CatalogStore, id: Option<DeveloperId>): (r: Result<Option<DeveloperId>>)
    reads store
    ensures r.Ok? <==> id.None? || id.value in store.developers
    ensures r.Ok? ==> r.value == id
    ensures r.Err? ==> r.error == DeveloperService.DeveloperNotFound
  {
    if id.None? then Ok(None)
    else match DeveloperService.GetById(store, id.value)
      case Err(e) => Err(e)
      case Ok(d) => Ok(d.id)
  }

  /** A null id set resolves to null; otherwise every id through `platformService.getById`,
      collected into a set. */
  function ResolvePlatforms(store: CatalogStore, ids: Option<set<PlatformId>>): (r: Result<Option<set<PlatformId>>>)
    reads store
    ensures r.Ok? <==> ids.None? || ids.value <= store.platforms.Keys
    ensures r.Ok? ==> r.value == ids
    ensures r.Err? ==> r.error == PlatformService.PlatformNotFound
  {
    if ids.None? then Ok(None)
    else if forall p :: p in ids.value ==> PlatformService.GetById(store, p).Ok? then
      var loaded := set p | p in ids.value :: PlatformService.GetById(store, p).value.id.value;
      assert forall p :: p in ids.value ==> PlatformService.GetById(store, p).value.id.value == p;
      assert forall p :: p in ids.value ==> p in loaded;
      assert loaded == ids.value;
      Ok(Some(loaded))
    else Err(PlatformService.PlatformNotFound)
  }

  /** A null id set resolves to null; otherwise every id through `genreService.getById`,
      collected into a set. */
  function ResolveGenres(store: CatalogStore, ids: Option<set<GenreId>>): (r: Result<Option<set<GenreId>>>)
    reads store
    ensures r.Ok? <==> ids.None? || ids.value <= store.genres.Keys
    ensures r.Ok? ==> r.value == ids
    ensures r.Err? ==> r.error == GenreService.GenreNotFound
  {
    if ids.None? then Ok(None)
    else if forall x :: x in ids.value ==> GenreService.GetById(store, x).Ok? then
      var loaded := set x | x in ids.value :: GenreService.GetById(store, x).value.id.value;
      assert forall x :: x in ids.value ==> GenreService.GetById(store, x).value.id.value == x;
      assert forall x :: x in ids.value ==> x in loaded;
      assert loaded == ids.value;
      Ok(Some(loaded))
    else Err(GenreService.GenreNotFound)
  }

  /** `mapDtoToGame`: resolves developer, then platforms, then genres; only when all
      three resolve are the six fields of the game replaced. */
  function MapDtoToGame(store: CatalogStore, dto: GameDto, game: Game): (r: Result<Game>)
    reads store
    ensures dto.developerId.Some? && dto.developerId.value !in store.developers ==>
              r == Err(DeveloperService.DeveloperNotFound)
    ensures ResolveDeveloper(store, dto.developerId).Ok? && dto.platformIds.Some?
            && !(dto.platformIds.value <= store.platforms.Keys) ==>
              r == Err(PlatformService.PlatformNotFound)
    ensures ResolveDeveloper(store, dto.developerId).Ok? && ResolvePlatforms(store, dto.platformIds).Ok?
            && dto.genresIds.Some? && !(dto.genresIds.value <= store.genres.Keys) ==>
              r == Err(GenreService.GenreNotFound)
    ensures r.Ok? <==> && ResolveDeveloper(store, dto.developerId).Ok?
                       && ResolvePlatforms(store, dto.platformIds).Ok?
                       && ResolveGenres(store, dto.genresIds).Ok?
    ensures r.Ok? ==> && r.value.id == game.id
                      && r.value.title == Some(dto.title)
                      && r.value.releaseDate == dto.releaseDate
                      && r.value.description == dto.description
                      && r.value.developer == dto.developerId
                      && r.value.platforms == dto.platformIds
                      && r.value.genres == dto.genresIds
    ensures r.Ok? ==> RefersWithin(r.value, store.developers.Keys, store.platforms.Keys, store.genres.Keys)
  {
    match ResolveDeveloper(store, dto.developerId)
    case Err(e) => Err(e)
    case Ok(developer) =>
      match ResolvePlatforms(store, dto.platformIds)
      case Err(e) => Err(e)
      case Ok(platforms) =>
        match ResolveGenres(store, dto.genresIds)
        case Err(e) => Err(e)
        case Ok(genres) =>
          Ok(game.(title := Some(dto.title), releaseDate := dto.releaseDate, description := dto.description,
                   developer := developer, platforms := platforms, genres := genres))
  }

  /** Null references in the request stay null in the game: an absent set is not
      turned into an empty one. */
  lemma NullReferencesStayNull(store: CatalogStore, dto: GameDto, game: Game)
    requires dto.developerId.None? && dto.platformIds.None? && dto.genresIds.None?
    ensures MapDtoToGame(store, dto, game).Ok?
    ensures var g := MapDtoToGame(store, dto, game).value;
            g.developer.None? && g.platforms.None? && g.genres.None?
  {
  }

  /** `getById`: the game, or "Game not found". */
  function GetById(store: CatalogStore, id: GameId): (r: Result<Game>)
    requires store.Valid()
    reads store
    ensures r.Ok? <==> id in store.games
    ensures r.Ok? ==> r.value == store.games[id] && r.value.id == Some(id)
    ensures r.Err? ==> r.error == GameNotFound
  {
    if id in store.games then Ok(store.games[id]) else Err(GameNotFound)
  }

  /** `save`: a new game whose fields are the mapped request, stored under the next id. */
  method Save(store: CatalogStore, dto: GameDto) returns (r: Result<Game>)
    requires store.Valid()
    modifies store`games, store`nextGameId
    ensures store.Valid()
    ensures old(MapDtoToGame(store, dto, NewGame())).Err? ==>
              r == Err(old(MapDtoToGame(store, dto, NewGame())).error) && store.games == old(store.games)
    ensures old(MapDtoToGame(store, dto, NewGame())).Ok? ==>
              && r == Ok(old(MapDtoToGame(store, dto, NewGame())).value.(id := Some(old(store.nextGameId))))
              && store.games == old(store.games)[old(store.nextGameId) := r.value]
  {
    var mapped := MapDtoToGame(store, dto, NewGame());
    if mapped.Err? {
      return Err(mapped.error);
    }
    var id := store.nextGameId;
    var game := mapped.value.(id := Some(id));
    store.games := store.games[id := game];
    store.nextGameId := id + 1;
    r := Ok(game);
  }

  /** `updateById`: an unknown id, or an unresolvable reference, leaves the game as it was. */
  method UpdateById(store: CatalogStore, id: GameId, dto: GameDto) returns (r: Result<Game>)
    requires store.Valid()
    modifies store`games
    ensures store.Valid()
    ensures id !in old(store.games) ==> r == Err(GameNotFound) && store.games == old(store.games)
    ensures id in old(store.games) && old(MapDtoToGame(store, dto, store.games[id])).Err? ==>
              r == Err(old(MapDtoToGame(store, dto, store.games[id])).error) && store.games == old(store.games)
    ensures id in old(store.games) && old(MapDtoToGame(store, dto, store.games[id])).Ok? ==>
              && r == old(MapDtoToGame(store, dto, store.games[id]))
              && r.value.id == Some(id)
              && store.games == old(store.games)[id := r.value]
  {
    var found := GetById(store, id);
    if found.Err? {
      return Err(found.error);
    }
    var mapped := MapDtoToGame(store, dto, found.value);
    if mapped.Err? {
      return Err(mapped.error);
    }
    store.games := store.games[id := mapped.value];
    r := mapped;
  }

  /** `deleteById`: removes that game and nothing else. */
  method DeleteById(store: CatalogStore, id: GameId) returns (r: Outcome)
    requires store.Valid()
    modifies store`games
    ensures store.Valid()
    ensures id !in old(store.games) ==> r == Fail(GameNotFound) && store.games == old(store.games)
    ensures id in old(store.games) ==> r == Pass && store.games == old(store.games) - {id}
  {
    var found := GetById(store, id);
    if found.Err? {
      return Fail(found.error);
    }
    store.games := store.games - {id};
    r := Pass;
  }

  /** Deleting a game drops it from every loaded inverse collection and from nothing else. */
  lemma DeletedGameLeavesInverseSides(games: map<GameId, Game>, id: GameId, d: DeveloperId, x: GenreId, p: PlatformId)
    ensures GamesOfDeveloper(games - {id}, d) == GamesOfDeveloper(games, d) - {id}
    ensures GamesOfGenre(games - {id}, x) == GamesOfGenre(games, x) - {id}
    ensures GamesOfPlatform(games - {id}, p) == GamesOfPlatform(games, p) - {id}
  {
  }
}
