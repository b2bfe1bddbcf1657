/**
 * The domain records the form collects and forwards. Their TypeScript
 * definitions live in `src/types`, which is not part of this model; only the
 * fields the form reads or writes are kept.
 */
module Types {
  import opened Wrappers

  /** Record identifiers. Fresh ones come from `Actions.IdSource`. */
  type Id = nat

  /** A browser geolocation fix; only passed through, never inspected. */
  datatype Coordinates = Coordinates(latitude: real, longitude: real)

  /** `Coordinates | null`. */
  type Location = Option<Coordinates>

  datatype Region = Region(id: Id, name: string, location: Location)

  datatype Player = Player(id: Id, name: string, location: Location)

  datatype Game = Game(id: Id, name: string)

  /** A recorded game outcome; `date` is the timestamp of a valid `Date`. */
  datatype Result = Result(
    id: Id,
    regions: seq<Region>,
    winner: Player,
    date: int,
    score: int,
    location: Location,
    game: Game)
}
