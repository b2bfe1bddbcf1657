/**
 * The submit-and-validate logic of the `Add` form, as values: the form's
 * state, the checks `newGame` runs, and what it builds and emits when the
 * checks pass. `AddComponent.Add` is the imperative component; its methods
 * are proved against the functions here, and the lemmas here state what the
 * component promises.
 */
module AddLogic {
  import opened Wrappers
  import opened Types

  /** A `Date`: its timestamp, or `None` for an invalid date (`NaN`). */
  type Date = Option<int>

  /** A field's validation state: `null` (`Unset`) or `'error'`. */
  datatype Validation = Unset | Error

  /** A typeahead selection; `custom` is `customOption`: a name the user typed. */
  datatype RegionEntry = RegionEntry(region: Region, custom: bool)

  datatype PlayerEntry = PlayerEntry(player: Player, custom: bool)

  /** The component's `State`. */
  datatype FormState = FormState(
    regions: seq<RegionEntry>,
    winner: seq<PlayerEntry>,
    game: seq<Game>,
    date: Date,
    score: int,
    regionValid: Validation,
    winnerValid: Validation,
    gameValid: Validation)

  /** One call of a callback prop, or the navigation through `history`. */
  datatype Event =
    | CallNewRegion(region: Region)
    | CallNewPlayer(player: Player)
    | CallNewGame(result: Result)
    | HistoryPush(path: string)

  /** A value built with fresh identifiers: the events it fired and the next unused identifier. */
  datatype Minted<T> = Minted(value: T, events: seq<Event>, next: nat)

  /** What one press of "Add Game" does. */
  datatype Submission =
    | Rejected(flagged: FormState)
    | Accepted(result: Result, events: seq<Event>, next: nat)

  /** `validDate`: an invalid date and a date after `now` are errors. */
  function ValidDate(date: Date, now: int): (v: Validation)
    ensures v == Error <==> date.None? || date.value > now
  {
    if date.None? then Error
    else if date.value > now then Error
    else Unset
  }

  /** The four checks of `newGame` all pass. */
  predicate Accepts(s: FormState, now: int): (ok: bool)
    ensures ok <==> s.date.Some? && s.date.value <= now && |s.regions| > 0 && |s.winner| == 1 && |s.game| == 1
  {
    && ValidDate(s.date, now) == Unset
    && |s.regions| >= 1
    && |s.winner| == 1
    && |s.game| == 1
  }

  /** The flags `newGame` sets on rejection, as the code is written: a wrong game count marks the winner field. */
  function Flagged(s: FormState): (t: FormState)
    ensures t.regionValid == Error <==> |s.regions| == 0 || s.regionValid == Error
    ensures t.winnerValid == Error <==> |s.winner| != 1 || |s.game| != 1 || s.winnerValid == Error
    ensures t.gameValid == s.gameValid
    ensures t.(regionValid := s.regionValid, winnerValid := s.winnerValid) == s
  {
    s.(regionValid := if |s.regions| < 1 then Error else s.regionValid,
       winnerValid := if |s.winner| != 1 || |s.game| != 1 then Error else s.winnerValid)
  }

  /** The flags the rejection evidently means to set: each wrong count marks its own field. */
  function IntendedFlagged(s: FormState): (t: FormState)
    ensures t.(regionValid := s.regionValid, winnerValid := s.winnerValid, gameValid := s.gameValid) == s
  {
    s.(regionValid := if |s.regions| < 1 then Error else s.regionValid,
       winnerValid := if |s.winner| != 1 then Error else s.winnerValid,
       gameValid := if |s.game| != 1 then Error else s.gameValid)
  }

  /** The number of custom entries. */
  function CustomCount(entries: seq<RegionEntry>): (n: nat)
    ensures n <= |entries|
  {
    if entries == [] then 0
    else CustomCount(entries[..|entries| - 1]) + (if entries[|entries| - 1].custom then 1 else 0)
  }

  /**
   * Reference definition of the k-th region of the result: a custom entry
   * becomes a new region named as typed, at `location`, whose identifier is
   * the one generated after those of the custom entries before it; any other
   * entry passes through.
   */
  function ExpectedRegion(entries: seq<RegionEntry>, k: nat, location: Location, start: nat): (r: Region)
    requires k < |entries|
    ensures r.name == entries[k].region.name
    ensures entries[k].custom ==> r.location == location && start <= r.id
  {
    if entries[k].custom then Region(start + CustomCount(entries[..k]), entries[k].region.name, location)
    else entries[k].region
  }

  /** The `regions.map` of `newGame`, one entry at a time, with the `newRegion` calls it makes. */
  function ConvertRegions(entries: seq<RegionEntry>, location: Location, next: nat): (m: Minted<seq<Region>>)
    ensures |m.value| == |entries|
    ensures m.next == next + CustomCount(entries) && |m.events| == CustomCount(entries)
  {
    if entries == [] then Minted([], [], next)
    else
      var done := ConvertRegions(entries[..|entries| - 1], location, next);
      var entry := entries[|entries| - 1];
      if entry.custom then
        var region := Region(done.next, entry.region.name, location);
        Minted(done.value + [region], done.events + [CallNewRegion(region)], done.next + 1)
      else
        Minted(done.value + [entry.region], done.events, done.next)
  }

  /** The winner of the result, with the `newPlayer` call a custom winner makes. */
  function ConvertWinner(entry: PlayerEntry, location: Location, next: nat): (m: Minted<Player>)
    ensures m.value.name == entry.player.name
    ensures entry.custom ==> m.value == Player(next, entry.player.name, location) &&
                             m.events == [CallNewPlayer(m.value)] && m.next == next + 1
    ensures !entry.custom ==> m.value == entry.player && m.events == [] && m.next == next
  {
    if entry.custom then
      var player := Player(next, entry.player.name, location);
      Minted(player, [CallNewPlayer(player)], next + 1)
    else
      Minted(entry.player, [], next)
  }

  /**
   * `newGame` run against state `s`, with `location` from the props, the
   * clock reading `now` and `next` the identifier `generateID` returns next.
   */
  function Submit(s: FormState, location: Location, now: int, next: nat): (sub: Submission)
    ensures sub.Accepted? <==> Accepts(s, now)
    ensures sub.Rejected? ==> sub.flagged == Flagged(s)
    ensures sub.Accepted? ==>
      && sub.next > next
      && |sub.events| >= 2
      && sub.events[|sub.events| - 2] == CallNewGame(sub.result)
      && sub.events[|sub.events| - 1] == HistoryPush("/")
  {
    if !Accepts(s, now) then Rejected(Flagged(s))
    else
      var regions := ConvertRegions(s.regions, location, next + 1);
      var winner := ConvertWinner(s.winner[0], location, regions.next);
      var res := Result(next, regions.value, winner.value, s.date.value, s.score, location, s.game[0]);
      Accepted(res, regions.events + winner.events + [CallNewGame(res), HistoryPush("/")], winner.next)
  }

  // ---------------------------------------------------------------------------
  // Custom entries and their identifiers

  /** Custom counts grow along the list, strictly past a custom entry. */
  lemma {:induction false} CustomCountMonotone(entries: seq<RegionEntry>, i: nat, j: nat)
    requires i <= j <= |entries|
    ensures CustomCount(entries[..i]) + (if i < j && entries[i].custom then 1 else 0) <= CustomCount(entries[..j])
    decreases j
  {
    if i < j {
      assert entries[..j][..j - 1] == entries[..j - 1];
      if i < j - 1 {
        CustomCountMonotone(entries, i, j - 1);
      }
    }
  }

  /**
   * The converted list agrees with `ExpectedRegion` at every index (so it
   * keeps the selection's order); the events are `newRegion` calls only, one
   * per custom entry, in list order.
   */
  lemma {:induction false} ConvertRegionsCorrect(entries: seq<RegionEntry>, location: Location, start: nat)
    ensures var m := ConvertRegions(entries, location, start);
      && (forall k :: 0 <= k < |entries| ==> m.value[k] == ExpectedRegion(entries, k, location, start))
      && (forall j :: 0 <= j < |m.events| ==> m.events[j].CallNewRegion?)
      && (forall k :: 0 <= k < |entries| && entries[k].custom ==>
            CustomCount(entries[..k]) < |m.events| &&
            m.events[CustomCount(entries[..k])] == CallNewRegion(m.value[k]))
  {
    if entries != [] {
      var n := |entries| - 1;
      var init := entries[..n];
      ConvertRegionsCorrect(init, location, start);
      var done := ConvertRegions(init, location, start);
      var m := ConvertRegions(entries, location, start);
      assert entries[..n] == init;
      forall k | 0 <= k < n
        ensures m.value[k] == ExpectedRegion(entries, k, location, start)
        ensures entries[k].custom ==>
          CustomCount(entries[..k]) < |m.events| && m.events[CustomCount(entries[..k])] == CallNewRegion(m.value[k])
      {
        assert entries[..k] == init[..k];
        assert m.value[k] == done.value[k];
        assert ExpectedRegion(entries, k, location, start) == ExpectedRegion(init, k, location, start);
      }
    }
  }

  /**
   * The identifiers given to custom regions are fresh: all in
   * `[start, next)`, and increasing along the list, hence pairwise distinct.
   */
  lemma RegionIdsFresh(entries: seq<RegionEntry>, location: Location, start: nat)
    ensures var m := ConvertRegions(entries, location, start);
      && (forall k :: 0 <= k < |entries| && entries[k].custom ==> start <= m.value[k].id < m.next)
      && (forall k1, k2 :: 0 <= k1 < k2 < |entries| && entries[k1].custom && entries[k2].custom ==>
            m.value[k1].id < m.value[k2].id)
  {
    ConvertRegionsCorrect(entries, location, start);
    var m := ConvertRegions(entries, location, start);
    forall k | 0 <= k < |entries| && entries[k].custom
      ensures start <= m.value[k].id < m.next
    {
      CustomCountMonotone(entries, k, |entries|);
      assert entries[..|entries|] == entries;
    }
    forall k1, k2 | 0 <= k1 < k2 < |entries| && entries[k1].custom && entries[k2].custom
      ensures m.value[k1].id < m.value[k2].id
    {
      CustomCountMonotone(entries, k1, k2);
    }
  }

  // ---------------------------------------------------------------------------
  // Rejection

  /** `newGame` rejects exactly when one of its four checks fails. */
  lemma SubmitRejects(s: FormState, location: Location, now: int, next: nat)
    ensures Submit(s, location, now, next).Rejected? <==>
      s.date.None? || s.date.value > now || |s.regions| == 0 || |s.winner| != 1 || |s.game| != 1
  {
  }

  /**
   * On rejection, no region marks the region field; a wrong winner count or
   * a wrong game count marks the winner field; the game field is never
   * marked; an invalid date marks nothing; nothing else changes.
   */
  lemma RejectionFlags(s: FormState, location: Location, now: int, next: nat)
    requires Submit(s, location, now, next).Rejected?
    ensures var t := Submit(s, location, now, next).flagged;
      && t.regionValid == (if |s.regions| == 0 then Error else s.regionValid)
      && t.winnerValid == (if |s.winner| != 1 || |s.game| != 1 then Error else s.winnerValid)
      && t.gameValid == s.gameValid
      && t.(regionValid := s.regionValid, winnerValid := s.winnerValid) == s
      && (|s.regions| >= 1 && |s.winner| == 1 && |s.game| == 1 ==> t == s)
  {
  }

  /** A freshly built form (no selection) is rejected and marks the region and winner fields. */
  lemma InitialRejected(now: int, location: Location, next: nat)
    ensures Submit(FormState([], [], [], Some(now), 0, Unset, Unset, Unset), location, now, next)
      == Rejected(FormState([], [], [], Some(now), 0, Error, Error, Unset))
  {
  }

  /**
   * As written, a missing game with a valid date, one region and one winner
   * marks the winner field and leaves the game field unmarked; the intended
   * rule marks the game field only.
   */
  lemma GameCountMarksWinner()
    ensures var s := FormState([RegionEntry(Region(0, "North", None), false)],
                               [PlayerEntry(Player(1, "Ann", None), false)],
                               [], Some(0), 0, Unset, Unset, Unset);
      && Submit(s, None, 0, 2) == Rejected(s.(winnerValid := Error))
      && IntendedFlagged(s) == s.(gameValid := Error)
  {
  }

  /**
   * The intended rule marks each field exactly when its own check fails (or
   * it was marked already), and agrees with the code on the region field.
   */
  lemma IntendedFlagsOwnField(s: FormState)
    ensures var t := IntendedFlagged(s);
      && (t.regionValid == Error <==> |s.regions| == 0 || s.regionValid == Error)
      && (t.winnerValid == Error <==> |s.winner| != 1 || s.winnerValid == Error)
      && (t.gameValid == Error <==> |s.game| != 1 || s.gameValid == Error)
      && Flagged(s).(winnerValid := t.winnerValid, gameValid := t.gameValid) == t
      && t.(regionValid := s.regionValid, winnerValid := s.winnerValid, gameValid := s.gameValid) == s
  {
  }

  /**
   * The marks play no part in the verdict or in what an accepted submission
   * builds and emits, so the corrected marking rule changes neither.
   */
  lemma SubmitIgnoresMarks(s: FormState, r: Validation, w: Validation, g: Validation,
                           location: Location, now: int, next: nat)
    ensures var t := s.(regionValid := r, winnerValid := w, gameValid := g);
      && (Submit(t, location, now, next).Accepted? <==> Submit(s, location, now, next).Accepted?)
      && (Submit(s, location, now, next).Accepted? ==> Submit(t, location, now, next) == Submit(s, location, now, next))
  {
  }

  // ---------------------------------------------------------------------------
  // Acceptance

  /**
   * On acceptance the result takes its identifier first, its game, date and
   * score from the state and its location from the props; its regions follow
   * `ExpectedRegion`; a custom winner becomes a new player named as typed,
   * at `location`, with the identifier generated after the regions' ones.
   */
  lemma AcceptedResult(s: FormState, location: Location, now: int, next: nat)
    requires Accepts(s, now)
    ensures var sub := Submit(s, location, now, next);
      var res := sub.result;
      var w := s.winner[0];
      && sub.Accepted?
      && res.id == next
      && res.game == s.game[0]
      && s.date == Some(res.date)
      && res.score == s.score
      && res.location == location
      && |res.regions| == |s.regions|
      && (forall k :: 0 <= k < |s.regions| ==> res.regions[k] == ExpectedRegion(s.regions, k, location, next + 1))
      && res.winner == (if w.custom then Player(next + 1 + CustomCount(s.regions), w.player.name, location)
                        else w.player)
  {
    ConvertRegionsCorrect(s.regions, location, next + 1);
  }

  /**
   * On acceptance the events are: one `newRegion` call per custom region
   * entry, in list order, each with the region put in the result; then one
   * `newPlayer` call with the result's winner when the winner is custom;
   * then one `newGame` call with the result; then `push('/')`.
   */
  lemma AcceptedEvents(s: FormState, location: Location, now: int, next: nat)
    requires Accepts(s, now)
    ensures var sub := Submit(s, location, now, next);
      var c := CustomCount(s.regions);
      var w := s.winner[0];
      && sub.Accepted?
      && |sub.events| == c + (if w.custom then 1 else 0) + 2
      && (forall j :: 0 <= j < c ==> sub.events[j].CallNewRegion?)
      && (forall k :: 0 <= k < |s.regions| && s.regions[k].custom ==>
            CustomCount(s.regions[..k]) < c &&
            sub.events[CustomCount(s.regions[..k])] == CallNewRegion(sub.result.regions[k]))
      && (w.custom ==> sub.events[c] == CallNewPlayer(sub.result.winner))
      && sub.events[|sub.events| - 2] == CallNewGame(sub.result)
      && sub.events[|sub.events| - 1] == HistoryPush("/")
  {
    var regions := ConvertRegions(s.regions, location, next + 1);
    var winner := ConvertWinner(s.winner[0], location, regions.next);
    var sub := Submit(s, location, now, next);
    ConvertRegionsCorrect(s.regions, location, next + 1);
    assert sub.events == regions.events + (winner.events + [CallNewGame(sub.result), HistoryPush("/")]);
    forall j | 0 <= j < |regions.events|
      ensures sub.events[j] == regions.events[j] && sub.events[j].CallNewRegion?
    {
      assert ConvertRegions(s.regions, location, next + 1).events[j].CallNewRegion?;
    }
    assert sub.result.winner == winner.value;
    if s.winner[0].custom {
      assert sub.events[|regions.events|] == winner.events[0];
    }
    forall k | 0 <= k < |s.regions| && s.regions[k].custom
      ensures CustomCount(s.regions[..k]) < |regions.events|
      ensures sub.events[CustomCount(s.regions[..k])] == CallNewRegion(sub.result.regions[k])
    {
    }
  }

  /**
   * On acceptance every generated identifier is fresh: the result's comes
   * first, the custom regions' follow in increasing order, a custom winner's
   * is the last, and all of them lie in `[next, sub.next)`.
   */
  lemma AcceptedIdsFresh(s: FormState, location: Location, now: int, next: nat)
    requires Accepts(s, now)
    ensures var sub := Submit(s, location, now, next);
      var res := sub.result;
      var w := s.winner[0];
      && sub.Accepted?
      && sub.next == next + 1 + CustomCount(s.regions) + (if w.custom then 1 else 0)
      && (forall k :: 0 <= k < |s.regions| && s.regions[k].custom ==>
            next < res.regions[k].id < next + 1 + CustomCount(s.regions))
      && (forall k1, k2 :: 0 <= k1 < k2 < |s.regions| && s.regions[k1].custom && s.regions[k2].custom ==>
            res.regions[k1].id < res.regions[k2].id)
      && (w.custom ==> res.winner.id == sub.next - 1)
  {
    ConvertRegionsCorrect(s.regions, location, next + 1);
    RegionIdsFresh(s.regions, location, next + 1);
  }
}
