/** The catalog entities `Game`, `Genre`, `Platform` and `Developer` as loaded
    from the store, with the id-based `equals`/`hashCode` of the first three.
    The owning side of each association is held by `Game` as ids; a set of ids
    stands for a `Set<Genre>` or `Set<Platform>`, since those sets compare their
    elements by id. */
module CatalogEntities {
  import opened Common

  type GameId = nat
  type DeveloperId = nat
  type GenreId = nat
  type PlatformId = nat

  /** `LocalDate`, compared as a whole value: it is only copied. */
  datatype LocalDate = LocalDate(year: int, month: nat, day: nat)

  /** A game. Every reference field may be null, including both sets. */
  datatype Game = Game(
    id: Option<GameId>,
    title: Option<string>,
    releaseDate: Option<LocalDate>,
    description: Option<string>,
    developer: Option<DeveloperId>,
    platforms: Option<set<PlatformId>>,
    genres: Option<set<GenreId>>)

  /** `new Game()`: the field initialisers give empty platform and genre sets. */
  function NewGame(): (g: Game)
    ensures g.id.None? && g.developer.None?
    ensures g.title.None? && g.releaseDate.None? && g.description.None?
    ensures g.platforms == Some({}) && g.genres == Some({})
  {
    Game(None, None, None, None, None, Some({}), Some({}))
  }

  /** The six-argument constructor: stores what it is given, null included, and no id. */
  function NewGameWith(title: Option<string>, releaseDate: Option<LocalDate>, description: Option<string>,
                       developer: Option<DeveloperId>, platforms: Option<set<PlatformId>>,
                       genres: Option<set<GenreId>>): (g: Game)
    ensures g.id.None?
    ensures g.title == title && g.releaseDate == releaseDate && g.description == description
    ensures g.developer == developer && g.platforms == platforms && g.genres == genres
  {
    Game(None, title, releaseDate, description, developer, platforms, genres)
  }

  /** `Game.equals`. */
  function GameEquals(self: Game, o: ObjectRef<Game>): (r: bool)
    ensures r <==> o.This? || (o.SameClass? && self.id == o.obj.id)
  {
    match o
    case This => true
    case Null => false
    case OtherClass => false
    case SameClass(other) => ObjectsEquals(self.id, other.id)
  }

  /** `Game.hashCode`. */
  function GameHashCode(self: Game): (r: bv32)
    ensures self.id.None? ==> r == 31
    ensures self.id.Some? ==> r == 31 + LongHashCode(LongBits(self.id.value))
  {
    ObjectsHashOfId(self.id)
  }

  /** Equality is reflexive, never holds for null or another class, and otherwise
      compares ids only, so two unsaved games are equal. */
  lemma GameEqualityById(g: Game, h: Game)
    ensures GameEquals(g, This) && GameEquals(g, SameClass(g))
    ensures !GameEquals(g, Null) && !GameEquals(g, OtherClass)
    ensures GameEquals(g, SameClass(h)) <==> g.id == h.id
    ensures g.id.None? && h.id.None? ==> GameEquals(g, SameClass(h))
    ensures GameEquals(g, SameClass(h)) ==> GameEquals(h, SameClass(g))
  {
  }

  /** Equal games have equal hash codes, and the hash depends on the id alone. */
  lemma GameHashConsistent(g: Game, h: Game)
    ensures GameEquals(g, SameClass(h)) ==> GameHashCode(g) == GameHashCode(h)
    ensures g.id == h.id ==> GameHashCode(g) == GameHashCode(h)
  {
  }

  /** A genre with its loaded inverse collection `games`. */
  datatype Genre = Genre(id: Option<GenreId>, name: string, games: set<GameId>)

  /** `new Genre(name)`. */
  function NewGenre(name: string): (g: Genre)
    ensures g.id.None? && g.name == name && g.games == {}
  {
    Genre(None, name, {})
  }

  /** `Genre.equals`. */
  function GenreEquals(self: Genre, o: ObjectRef<Genre>): (r: bool)
    ensures r <==> o.This? || (o.SameClass? && self.id == o.obj.id)
  {
    match o
    case This => true
    case Null => false
    case OtherClass => false
    case SameClass(other) => ObjectsEquals(self.id, other.id)
  }

  /** `Genre.hashCode`. */
  function GenreHashCode(self: Genre): (r: bv32)
    ensures self.id.None? ==> r == 31
    ensures self.id.Some? ==> r == 31 + LongHashCode(LongBits(self.id.value))
  {
    ObjectsHashOfId(self.id)
  }

  /** Genre equality compares ids only; the hash follows it. */
  lemma GenreEqualityById(g: Genre, h: Genre)
    ensures GenreEquals(g, This) && !GenreEquals(g, Null) && !GenreEquals(g, OtherClass)
    ensures GenreEquals(g, SameClass(h)) <==> g.id == h.id
    ensures GenreEquals(g, SameClass(h)) ==> GenreHashCode(g) == GenreHashCode(h)
  {
  }

  /** A platform with its loaded inverse collection `games`. */
  datatype Platform = Platform(id: Option<PlatformId>, name: string, games: set<GameId>)

  /** `new Platform(name)`. */
  function NewPlatform(name: string): (p: Platform)
    ensures p.id.None? && p.name == name && p.games == {}
  {
    Platform(None, name, {})
  }

  /** `Platform.equals`. */
  function PlatformEquals(self: Platform, o: ObjectRef<Platform>): (r: bool)
    ensures r <==> o.This? || (o.SameClass? && self.id == o.obj.id)
  {
    match o
    case This => true
    case Null => false
    case OtherClass => false
    case SameClass(other) => ObjectsEquals(self.id, other.id)
  }

  /** `Platform.hashCode`. */
  function PlatformHashCode(self: Platform): (r: bv32)
    ensures self.id.None? ==> r == 31
    ensures self.id.Some? ==> r == 31 + LongHashCode(LongBits(self.id.value))
  {
    ObjectsHashOfId(self.id)
  }

  /** Platform equality compares ids only; the hash follows it. */
  lemma PlatformEqualityById(p: Platform, q: Platform)
    ensures PlatformEquals(p, This) && !PlatformEquals(p, Null) && !PlatformEquals(p, OtherClass)
    ensures PlatformEquals(p, SameClass(q)) <==> p.id == q.id
    ensures PlatformEquals(p, SameClass(q)) ==> PlatformHashCode(p) == PlatformHashCode(q)
  {
  }

  /** A developer with its loaded inverse collection `games` (equality is not hand-written). */
  datatype Developer = Developer(id: Option<DeveloperId>, name: string, games: set<GameId>)

  /** `new Developer(name)`. */
  function NewDeveloper(name: string): (d: Developer)
    ensures d.id.None? && d.name == name && d.games == {}
  {
    Developer(None, name, {})
  }
}
