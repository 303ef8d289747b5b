/** The catalog's tables as one store: games with their owning-side references,
    and the names of developers, genres and platforms. The inverse collections
    `games` of a developer, genre or platform are what a fetch with relations
    loads: the games whose owning side points back, derived here from the games
    table, so they always mirror it. */
module Catalog {
  import opened Common
  import opened CatalogEntities

  /** A unique `name` column. */
  ghost predicate UniqueNames(names: map<nat, string>)
  {
    forall a, b :: a in names && b in names && names[a] == names[b] ==> a == b
  }

  /** `existsByName`. */
  function ExistsByName(names: map<nat, string>, name: string): (r: bool)
    ensures r <==> name in names.Values
  {
    exists k :: k in names && names[k] == name
  }

  /** Every row the game references exists. */
  ghost predicate RefersWithin(g: Game, developers: set<DeveloperId>, platforms: set<PlatformId>, genres: set<GenreId>)
  {
    && (g.developer.Some? ==> g.developer.value in developers)
    && (g.platforms.Some? ==> g.platforms.value <= platforms)
    && (g.genres.Some? ==> g.genres.value <= genres)
  }

  /** Referential integrity: each game is stored under its own id and no game
      references a developer, platform or genre that is not stored. */
  ghost predicate Integrity(games: map<GameId, Game>, developers: map<DeveloperId, string>,
                            platforms: map<PlatformId, string>, genres: map<GenreId, string>)
  {
    forall k :: k in games ==> games[k].id == Some(k) && RefersWithin(games[k], developers.Keys, platforms.Keys, genres.Keys)
  }

  /** The loaded `Developer.games`: the games whose `developer` is `d`. */
  function GamesOfDeveloper(games: map<GameId, Game>, d: DeveloperId): (r: set<GameId>)
    ensures forall k :: k in r <==> k in games && games[k].developer == Some(d)
  {
    set k | k in games && games[k].developer == Some(d)
  }

  /** The loaded `Genre.games`: the games whose `genres` contain `g`. */
  function GamesOfGenre(games: map<GameId, Game>, g: GenreId): (r: set<GameId>)
    ensures forall k :: k in r <==> k in games && games[k].genres.Some? && g in games[k].genres.value
  {
    set k | k in games && games[k].genres.Some? && g in games[k].genres.value
  }

  /** The loaded `Platform.games`: the games whose `platforms` contain `p`. */
  function GamesOfPlatform(games: map<GameId, Game>, p: PlatformId): (r: set<GameId>)
    ensures forall k :: k in r <==> k in games && games[k].platforms.Some? && p in games[k].platforms.value
  {
    set k | k in games && games[k].platforms.Some? && p in games[k].platforms.value
  }

  /** One game after `game.setDeveloper(null)` if it was developed by `d`. */
  function WithoutDeveloper(g: Game, d: DeveloperId): (r: Game)
    ensures r == g.(developer := r.developer)
    ensures r.developer != Some(d)
    ensures g.developer == Some(d) ==> r.developer.None?
    ensures g.developer != Some(d) ==> r == g
  {
    if g.developer == Some(d) then g.(developer := None) else g
  }

  /** One game after `game.getGenres().remove(genre)` if it lists `x`. */
  function WithoutGenre(g: Game, x: GenreId): (r: Game)
    ensures r == g.(genres := r.genres)
    ensures r.genres.Some? == g.genres.Some?
    ensures g.genres.Some? ==> r.genres.value == g.genres.value - {x}
  {
    if g.genres.Some? && x in g.genres.value then g.(genres := Some(g.genres.value - {x})) else g
  }

  /** One game after `game.getPlatforms().remove(platform)` if it lists `p`. */
  function WithoutPlatform(g: Game, p: PlatformId): (r: Game)
    ensures r == g.(platforms := r.platforms)
    ensures r.platforms.Some? == g.platforms.Some?
    ensures g.platforms.Some? ==> r.platforms.value == g.platforms.value - {p}
  {
    if g.platforms.Some? && p in g.platforms.value then g.(platforms := Some(g.platforms.value - {p})) else g
  }

  /** The games table after a developer's cleanup: no game is removed, only
      `developer` changes, and it is cleared exactly where it was `d`. */
  function DetachDeveloper(games: map<GameId, Game>, d: DeveloperId): (r: map<GameId, Game>)
    ensures r.Keys == games.Keys
    ensures forall k :: k in r ==> r[k] == games[k].(developer := r[k].developer)
    ensures forall k :: k in r && games[k].developer == Some(d) ==> r[k].developer.None?
    ensures forall k :: k in r && games[k].developer != Some(d) ==> r[k] == games[k]
    ensures GamesOfDeveloper(r, d) == {}
  {
    map k | k in games :: WithoutDeveloper(games[k], d)
  }

  /** The games table after a genre's cleanup: no game is removed, only `genres`
      changes, and it loses `x` and nothing else. */
  function DetachGenre(games: map<GameId, Game>, x: GenreId): (r: map<GameId, Game>)
    ensures r.Keys == games.Keys
    ensures forall k :: k in r ==> r[k] == games[k].(genres := r[k].genres)
    ensures forall k :: k in r ==> r[k].genres.Some? == games[k].genres.Some?
    ensures forall k :: k in r && games[k].genres.Some? ==> r[k].genres.value == games[k].genres.value - {x}
    ensures GamesOfGenre(r, x) == {}
  {
    map k | k in games :: WithoutGenre(games[k], x)
  }

  /** The games table after a platform's cleanup: no game is removed, only
      `platforms` changes, and it loses `p` and nothing else. */
  function DetachPlatform(games: map<GameId, Game>, p: PlatformId): (r: map<GameId, Game>)
    ensures r.Keys == games.Keys
    ensures forall k :: k in r ==> r[k] == games[k].(platforms := r[k].platforms)
    ensures forall k :: k in r ==> r[k].platforms.Some? == games[k].platforms.Some?
    ensures forall k :: k in r && games[k].platforms.Some? ==> r[k].platforms.value == games[k].platforms.value - {p}
    ensures GamesOfPlatform(r, p) == {}
  {
    map k | k in games :: WithoutPlatform(games[k], p)
  }

  /** Cleaning up a developer and then deleting its row leaves no dangling reference. */
  lemma DetachDeveloperKeepsIntegrity(games: map<GameId, Game>, developers: map<DeveloperId, string>,
                                      platforms: map<PlatformId, string>, genres: map<GenreId, string>, d: DeveloperId)
    requires Integrity(games, developers, platforms, genres)
    ensures Integrity(DetachDeveloper(games, d), developers - {d}, platforms, genres)
  {
  }

  /** Cleaning up a genre and then deleting its row leaves no dangling reference. */
  lemma DetachGenreKeepsIntegrity(games: map<GameId, Game>, developers: map<DeveloperId, string>,
                                  platforms: map<PlatformId, string>, genres: map<GenreId, string>, x: GenreId)
    requires Integrity(games, developers, platforms, genres)
    ensures Integrity(DetachGenre(games, x), developers, platforms, genres - {x})
  {
  }

  /** Cleaning up a platform and then deleting its row leaves no dangling reference. */
  lemma DetachPlatformKeepsIntegrity(games: map<GameId, Game>, developers: map<DeveloperId, string>,
                                     platforms: map<PlatformId, string>, genres: map<GenreId, string>, p: PlatformId)
    requires Integrity(games, developers, platforms, genres)
    ensures Integrity(DetachPlatform(games, p), developers, platforms - {p}, genres)
  {
  }

  /** The tables of the catalog and their identity counters. */
  class CatalogStore {
    var games: map<GameId, Game>
    var developers: map<DeveloperId, string>
    var genres: map<GenreId, string>
    var platforms: map<PlatformId, string>
    var nextGameId: GameId
    var nextDeveloperId: DeveloperId
    var nextGenreId: GenreId
    var nextPlatformId: PlatformId

    ghost predicate Valid()
      reads this
    {
      && Integrity(games, developers, platforms, genres)
      && UniqueNames(developers) && UniqueNames(genres) && UniqueNames(platforms)
      && (forall k :: k in games ==> k < nextGameId)
      && (forall k :: k in developers ==> k < nextDeveloperId)
      && (forall k :: k in genres ==> k < nextGenreId)
      && (forall k :: k in platforms ==> k < nextPlatformId)
    }

    constructor ()
      ensures Valid()
      ensures games == map[] && developers == map[] && genres == map[] && platforms == map[]
    {
      games, developers, genres, platforms := map[], map[], map[], map[];
      nextGameId, nextDeveloperId, nextGenreId, nextPlatformId := 1, 1, 1, 1;
    }
  }
}
