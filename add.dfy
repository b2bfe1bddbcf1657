/**
 * The `Add` form component: its state, its change handlers and `newGame`.
 * React's `setState` is taken as applied at once, in program order. The
 * callback props and `history` are the log `emitted`; `generateID` is the
 * counter `ids`; the clock and `props.location` (which the parent may change
 * at any time) are read when `newGame` runs, so they are its parameters.
 */
module AddComponent {
  import opened Wrappers
  import opened Types
  import opened Actions
  import opened AddLogic

  class Add {
    var regions: seq<RegionEntry>
    var winner: seq<PlayerEntry>
    var game: seq<Game>
    var date: Date
    var score: int
    var regionValid: Validation
    var winnerValid: Validation
    var gameValid: Validation

    /** The source of `generateID`'s values. */
    const ids: IdSource
    /** The calls of `newRegion`, `newPlayer`, `newGame` and `history.push`, oldest first. */
    var emitted: seq<Event>

    /** The component's `State` as a value. */
    function State(): FormState
      reads this
    {
      FormState(regions, winner, game, date, score, regionValid, winnerValid, gameValid)
    }

    /**
     * What every reachable state keeps: the date is a valid one (it starts
     * as the current time and is only replaced by valid dates), and the game
     * field is never marked (nothing ever sets it to an error).
     */
    ghost predicate Valid()
      reads this
    {
      date.Some? && gameValid == Unset
    }

    /** The initial state: nothing selected, today's date, score 0, no field marked. */
    constructor (ids: IdSource, now: int)
      ensures Valid()
      ensures State() == FormState([], [], [], Some(now), 0, Unset, Unset, Unset)
      ensures emitted == [] && this.ids == ids
    {
      regions := [];
      winner := [];
      game := [];
      date := Some(now);
      score := 0;
      regionValid := Unset;
      winnerValid := Unset;
      gameValid := Unset;
      this.ids := ids;
      emitted := [];
    }

    /** `regionChange`: replaces the regions and clears their mark. */
    method RegionChange(value: seq<RegionEntry>)
      requires Valid()
      modifies this
      ensures Valid()
      ensures State() == old(State()).(regions := value, regionValid := Unset)
      ensures emitted == old(emitted)
    {
      regions := value;
      regionValid := Unset;
    }

    /** `winnerChange`: replaces the winner list and clears its mark. */
    method WinnerChange(value: seq<PlayerEntry>)
      requires Valid()
      modifies this
      ensures Valid()
      ensures State() == old(State()).(winner := value, winnerValid := Unset)
      ensures emitted == old(emitted)
    {
      winner := value;
      winnerValid := Unset;
    }

    /** `gameChange`: replaces the game list and clears its mark. */
    method GameChange(value: seq<Game>)
      requires Valid()
      modifies this
      ensures Valid()
      ensures State() == old(State()).(game := value, gameValid := Unset)
      ensures emitted == old(emitted)
    {
      game := value;
      gameValid := Unset;
    }

    /** `scoreChange`, given the already parsed number. */
    method ScoreChange(value: int)
      requires Valid()
      modifies this
      ensures Valid()
      ensures State() == old(State()).(score := value)
      ensures emitted == old(emitted)
    {
      score := value;
    }

    /** `dateChange`, given what `DateUtil.fromInput` parsed: only a valid date is taken. */
    method DateChange(parsed: Date)
      requires Valid()
      modifies this
      ensures Valid()
      ensures State() == if parsed.Some? then old(State()).(date := parsed) else old(State())
      ensures emitted == old(emitted)
    {
      if parsed.Some? {
        date := parsed;
      }
    }

    /**
     * `newGame`, at clock reading `now`, with `location` the current
     * `props.location`. A rejection only sets marks, emits
     * nothing and generates no identifier; an acceptance leaves the state
     * alone, emits the events of `Submit` and consumes its identifiers.
     */
    method NewGame(location: Location, now: int)
      requires Valid()
      modifies this, ids
      ensures Valid()
      ensures match Submit(old(State()), location, now, old(ids.next))
        case Rejected(flagged) =>
          State() == flagged && emitted == old(emitted) && ids.next == old(ids.next)
        case Accepted(_, events, next) =>
          State() == old(State()) && emitted == old(emitted) + events && ids.next == next
    {
      var invalid := false;
      if ValidDate(date, now) == Error {
        invalid := true;
      }
      if |regions| < 1 {
        regionValid := Error;
        invalid := true;
      }
      if |winner| != 1 {
        winnerValid := Error;
        invalid := true;
      }
      if |game| != 1 {
        winnerValid := Error;
        invalid := true;
      }
      if invalid {
        return;
      }

      var id := ids.Generate();
      var w := winner[0];
      var converted := MapRegions(location);
      ghost var sub := Submit(old(State()), location, now, id);
      assert sub.Accepted?;

      var res := Result(id, converted, w.player, date.value, score, location, game[0]);
      if w.custom {
        var playerId := ids.Generate();
        res := res.(winner := Player(playerId, w.player.name, location));
        emitted := emitted + [CallNewPlayer(res.winner)];
      }
      emitted := emitted + [CallNewGame(res)];
      emitted := emitted + [HistoryPush("/")];
    }

    /**
     * The `regions.map` of `newGame`: each custom entry is replaced by a new
     * region with a generated identifier at `location`, and `newRegion` is
     * called with it.
     */
    method MapRegions(location: Location) returns (converted: seq<Region>)
      modifies this`emitted, ids
      ensures var m := ConvertRegions(regions, location, old(ids.next));
        converted == m.value && emitted == old(emitted) + m.events && ids.next == m.next
    {
      converted := [];
      var i := 0;
      while i < |regions|
        invariant 0 <= i <= |regions|
        invariant var m := ConvertRegions(regions[..i], location, old(ids.next));
          converted == m.value && emitted == old(emitted) + m.events && ids.next == m.next
      {
        var entry := regions[i];
        var region := entry.region;
        if entry.custom {
          var regionId := ids.Generate();
          region := Region(regionId, entry.region.name, location);
          emitted := emitted + [CallNewRegion(region)];
        }
        converted := converted + [region];
        assert regions[..i + 1][..i] == regions[..i];
        i := i + 1;
      }
      assert regions[..i] == regions;
    }
  }
}
