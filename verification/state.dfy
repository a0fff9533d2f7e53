/**
 * The application's central state: the game record with its partial-update merge and
 * display helpers, and the system record of output flags and change listeners.
 * Listener callbacks are identified by a number; each notification round is logged with
 * the listeners it called and the state they saw.
 */
module State {
  import opened PyText

  /** A moment, held as its `datetime.isoformat()` text; the wall clock is a parameter. */
  type Instant = string

  /** `GameState`: the game record shown on the broadcast graphics. */
  datatype GameState = GameState(
    homeScore: int,
    awayScore: int,
    period: string,
    clock: string,
    homePenalties: seq<int>,
    awayPenalties: seq<int>,
    lastGoal: Option<string>,
    lastUpdate: Option<Instant>)
  {
    /** `to_dict`: the scores under "home" and "away", every other field under its own name. */
    function ToDict(): (d: map<string, Json>)
      ensures d.Keys == {"home", "away", "period", "clock", "home_penalties", "away_penalties", "last_goal", "last_update"}
      ensures d["home"] == JInt(homeScore) && d["away"] == JInt(awayScore)
      ensures d["period"] == JStr(period) && d["clock"] == JStr(clock)
      ensures d["home_penalties"] == JInts(homePenalties) && d["away_penalties"] == JInts(awayPenalties)
      ensures d["last_goal"] == OptionalText(lastGoal) && d["last_update"] == OptionalText(lastUpdate)
    {
      map[
        "home" := JInt(homeScore),
        "away" := JInt(awayScore),
        "period" := JStr(period),
        "clock" := JStr(clock),
        "home_penalties" := JInts(homePenalties),
        "away_penalties" := JInts(awayPenalties),
        "last_goal" := OptionalText(lastGoal),
        "last_update" := OptionalText(lastUpdate)]
    }
  }

  /** An optional text as JSON: the text, or null. */
  function OptionalText(t: Option<string>): Json {
    match t
    case Some(s) => JStr(s)
    case None => JNull
  }

  /** The default-constructed `GameState()`. */
  function DefaultGame(): (g: GameState)
    ensures g.homeScore == 0 && g.awayScore == 0 && g.period == "1" && g.clock == "20:00"
    ensures g.homePenalties == [] && g.awayPenalties == [] && g.lastGoal == None && g.lastUpdate == None
  {
    GameState(0, 0, "1", "20:00", [], [], None, None)
  }

  // ---------------------------------------------------------------- period_display

  /** `str.upper()` on ASCII letters. */
  function Upper(s: string): (r: string)
    ensures |r| == |s|
    ensures forall i :: 0 <= i < |s| ==> r[i] == if 'a' <= s[i] <= 'z' then (s[i] as int - 32) as char else s[i]
  {
    seq(|s|, i requires 0 <= i < |s| => if 'a' <= s[i] <= 'z' then (s[i] as int - 32) as char else s[i])
  }

  const OvertimeNames: set<string> := {"OT", "O", "4"}
  const ShootoutNames: set<string> := {"SO", "S"}

  /** `period_display`: ordinals for the three regulation periods, "OT" and "SO" whatever
      their case, and any other period text as it is. */
  function PeriodDisplay(period: string): (r: string)
    ensures period == "1" ==> r == "1st"
    ensures period == "2" ==> r == "2nd"
    ensures period == "3" ==> r == "3rd"
    ensures r == "OT" <==> Upper(period) in OvertimeNames
    ensures r == "SO" <==> Upper(period) in ShootoutNames
    ensures period !in {"1", "2", "3"} && Upper(period) !in OvertimeNames + ShootoutNames ==> r == period
  {
    UpperFixes(period);
    if period == "1" then "1st"
    else if period == "2" then "2nd"
    else if period == "3" then "3rd"
    else if Upper(period) in OvertimeNames then "OT"
    else if Upper(period) in ShootoutNames then "SO"
    else period
  }

  /** Text with no lower-case ASCII letter is its own upper case. */
  lemma UpperFixes(s: string)
    ensures (forall i :: 0 <= i < |s| ==> !('a' <= s[i] <= 'z')) ==> Upper(s) == s
  {
  }

  lemma UpperIdempotent(s: string)
    ensures Upper(Upper(s)) == Upper(s)
  {
  }

  /** The display text is a fixed point: displaying it again changes nothing. */
  lemma PeriodDisplayIdempotent(period: string)
    ensures PeriodDisplay(PeriodDisplay(period)) == PeriodDisplay(period)
  {
    var r := PeriodDisplay(period);
    if r == "1st" || r == "2nd" || r == "3rd" {
      assert |Upper(r)| == 3;
    }
  }

  /** Apart from text shown as it is, the display ignores letter case. */
  lemma PeriodDisplayIgnoresCase(period: string)
    requires PeriodDisplay(period) != period
    ensures PeriodDisplay(Upper(period)) == PeriodDisplay(period)
  {
    UpperIdempotent(period);
    UpperFixes("1");
    UpperFixes("2");
    UpperFixes("3");
    if Upper(period) == "1" || Upper(period) == "2" || Upper(period) == "3" {
      assert Upper(period)[0] == period[0];
    }
  }

  // ---------------------------------------------------------------- update_game

  /** The attributes of `GameState`. */
  datatype Field = HomeScore | AwayScore | Period | Clock | HomePenalties | AwayPenalties | LastGoal | LastUpdate

  /** One keyword argument of `update_game`: a value for a `GameState` field, or a name
      `GameState` has no attribute for. */
  datatype Kwarg =
    | SetHomeScore(score: int)
    | SetAwayScore(score: int)
    | SetPeriod(text: string)
    | SetClock(text: string)
    | SetHomePenalties(seconds: seq<int>)
    | SetAwayPenalties(seconds: seq<int>)
    | SetLastGoal(side: Option<string>)
    | SetLastUpdate(at: Option<Instant>)
    | Unknown(name: string)
  {
    /** `hasattr(game, key)`: the field the keyword names, if any. */
    function Target(): Option<Field> {
      match this
      case SetHomeScore(_) => Some(HomeScore)
      case SetAwayScore(_) => Some(AwayScore)
      case SetPeriod(_) => Some(Period)
      case SetClock(_) => Some(Clock)
      case SetHomePenalties(_) => Some(HomePenalties)
      case SetAwayPenalties(_) => Some(AwayPenalties)
      case SetLastGoal(_) => Some(LastGoal)
      case SetLastUpdate(_) => Some(LastUpdate)
      case Unknown(_) => None
    }

    /** The value the keyword carries, as JSON. */
    function Value(): Json {
      match this
      case SetHomeScore(n) => JInt(n)
      case SetAwayScore(n) => JInt(n)
      case SetPeriod(t) => JStr(t)
      case SetClock(t) => JStr(t)
      case SetHomePenalties(ps) => JInts(ps)
      case SetAwayPenalties(ps) => JInts(ps)
      case SetLastGoal(g) => OptionalText(g)
      case SetLastUpdate(t) => OptionalText(t)
      case Unknown(_) => JNull
    }
  }

  /** The value of one field, as JSON. */
  function Get(g: GameState, f: Field): Json {
    match f
    case HomeScore => JInt(g.homeScore)
    case AwayScore => JInt(g.awayScore)
    case Period => JStr(g.period)
    case Clock => JStr(g.clock)
    case HomePenalties => JInts(g.homePenalties)
    case AwayPenalties => JInts(g.awayPenalties)
    case LastGoal => OptionalText(g.lastGoal)
    case LastUpdate => OptionalText(g.lastUpdate)
  }

  /** `setattr(game, key, value)` for a keyword naming a field. */
  function Assign(g: GameState, k: Kwarg): (r: GameState)
    requires k.Target().Some?
    ensures Get(r, k.Target().value) == k.Value()
    ensures forall f :: f != k.Target().value ==> Get(r, f) == Get(g, f)
  {
    match k
    case SetHomeScore(n) => g.(homeScore := n)
    case SetAwayScore(n) => g.(awayScore := n)
    case SetPeriod(t) => g.(period := t)
    case SetClock(t) => g.(clock := t)
    case SetHomePenalties(ps) => g.(homePenalties := ps)
    case SetAwayPenalties(ps) => g.(awayPenalties := ps)
    case SetLastGoal(s) => g.(lastGoal := s)
    case SetLastUpdate(t) => g.(lastUpdate := t)
  }

  /** The game after the keyword loop of `update_game` has run over `kwargs`. */
  function Merge(g: GameState, kwargs: seq<Kwarg>): (r: GameState)
    ensures kwargs != [] && kwargs[|kwargs| - 1].Target().Some? ==>
      Get(r, kwargs[|kwargs| - 1].Target().value) == kwargs[|kwargs| - 1].Value()
    ensures kwargs != [] && kwargs[|kwargs| - 1].Target().None? ==> r == Merge(g, kwargs[..|kwargs| - 1])
    decreases |kwargs|
  {
    if kwargs == [] then g
    else
      var before := Merge(g, kwargs[..|kwargs| - 1]);
      var k := kwargs[|kwargs| - 1];
      if k.Target().Some? then Assign(before, k) else before
  }

  /** A field no keyword names keeps its value. */
  lemma {:induction false} MergeKeeps(g: GameState, kwargs: seq<Kwarg>, f: Field)
    requires forall i :: 0 <= i < |kwargs| ==> kwargs[i].Target() != Some(f)
    ensures Get(Merge(g, kwargs), f) == Get(g, f)
    decreases |kwargs|
  {
    if kwargs != [] {
      MergeKeeps(g, kwargs[..|kwargs| - 1], f);
    }
  }

  /** A field named by keywords takes the value of the last keyword that names it. */
  lemma {:induction false} MergeLastWins(g: GameState, kwargs: seq<Kwarg>, i: nat)
    requires i < |kwargs| && kwargs[i].Target().Some?
    requires forall j :: i < j < |kwargs| ==> kwargs[j].Target() != kwargs[i].Target()
    ensures Get(Merge(g, kwargs), kwargs[i].Target().value) == kwargs[i].Value()
    decreases |kwargs|
  {
    if i < |kwargs| - 1 {
      MergeLastWins(g, kwargs[..|kwargs| - 1], i);
    }
  }

  /** Only the keywords that name fields matter. */
  function Known(kwargs: seq<Kwarg>): (r: seq<Kwarg>)
    ensures |r| <= |kwargs|
    ensures forall i :: 0 <= i < |r| ==> r[i].Target().Some?
    ensures (forall i :: 0 <= i < |kwargs| ==> kwargs[i].Target().Some?) ==> r == kwargs
    decreases |kwargs|
  {
    if kwargs == [] then []
    else
      var init := kwargs[..|kwargs| - 1];
      var k := kwargs[|kwargs| - 1];
      assert kwargs == init + [k];
      Known(init) + (if k.Target().Some? then [k] else [])
  }

  /** A keyword is kept exactly when it is given and names a field. */
  lemma {:induction false} KnownMembers(kwargs: seq<Kwarg>)
    ensures forall k :: k in Known(kwargs) <==> k in kwargs && k.Target().Some?
    decreases |kwargs|
  {
    if kwargs != [] {
      var init := kwargs[..|kwargs| - 1];
      KnownMembers(init);
      assert kwargs == init + [kwargs[|kwargs| - 1]];
    }
  }

  /** Filtering keeps the order: the known keywords of two stretches, joined. */
  lemma {:induction false} KnownConcat(a: seq<Kwarg>, b: seq<Kwarg>)
    ensures Known(a + b) == Known(a) + Known(b)
    decreases |b|
  {
    if b == [] {
      assert a + b == a;
    } else {
      var init := b[..|b| - 1];
      var k := b[|b| - 1];
      KnownConcat(a, init);
      assert b == init + [k];
      assert a + b == (a + init) + [k];
      KnownSnoc(a + init, k);
      KnownSnoc(init, k);
      var last: seq<Kwarg> := if k.Target().Some? then [k] else [];
      assert (Known(a) + Known(init)) + last == Known(a) + (Known(init) + last);
    }
  }

  /** One more keyword at the end: kept after the others exactly when it names a field. */
  lemma KnownSnoc(kwargs: seq<Kwarg>, k: Kwarg)
    ensures Known(kwargs + [k]) == Known(kwargs) + (if k.Target().Some? then [k] else [])
  {
    var x := kwargs + [k];
    assert x[..|x| - 1] == kwargs;
  }

  lemma {:induction false} MergeIgnoresUnknown(g: GameState, kwargs: seq<Kwarg>)
    ensures Merge(g, Known(kwargs)) == Merge(g, kwargs)
    decreases |kwargs|
  {
    if kwargs != [] {
      var init := kwargs[..|kwargs| - 1];
      var k := kwargs[|kwargs| - 1];
      MergeIgnoresUnknown(g, init);
      if k.Target().Some? {
        var known := Known(init) + [k];
        assert Known(kwargs) == known;
        assert known[..|known| - 1] == Known(init) && known[|known| - 1] == k;
      } else {
        assert Known(kwargs) == Known(init);
      }
    }
  }

  // ---------------------------------------------------------------- listeners

  /** A change listener, identified by the callback it stands for. */
  type Listener = nat

  /** `list.remove(x)`: the list without the first occurrence of `x`. */
  function RemoveFirst(s: seq<Listener>, x: Listener): (r: seq<Listener>)
    requires x in s
    ensures |r| == |s| - 1
    ensures multiset(r) == multiset(s) - multiset{x}
  {
    if s[0] == x then
      assert s == [s[0]] + s[1..];
      s[1..]
    else
      var r := [s[0]] + RemoveFirst(s[1..], x);
      assert s == [s[0]] + s[1..];
      r
  }

  /** The position of the first occurrence of `x`. */
  function IndexOf(s: seq<Listener>, x: Listener): (i: nat)
    requires x in s
    ensures i < |s| && s[i] == x
    ensures forall j :: 0 <= j < i ==> s[j] != x
  {
    if s[0] == x then 0 else 1 + IndexOf(s[1..], x)
  }

  /** Removal cuts out exactly the first occurrence and keeps the order of the rest. */
  lemma {:induction false} RemoveFirstCuts(s: seq<Listener>, x: Listener)
    requires x in s
    ensures RemoveFirst(s, x) == s[..IndexOf(s, x)] + s[IndexOf(s, x) + 1..]
  {
    if s[0] != x {
      var t := s[1..];
      RemoveFirstCuts(t, x);
      var i := IndexOf(t, x);
      assert IndexOf(s, x) == i + 1;
      assert RemoveFirst(s, x) == [s[0]] + (t[..i] + t[i + 1..]);
      ConsCut(s, i);
    }
  }

  lemma ConsCut(s: seq<Listener>, i: nat)
    requires i + 1 < |s|
    ensures [s[0]] + (s[1..][..i] + s[1..][i + 1..]) == s[..i + 1] + s[i + 2..]
  {
    assert s[..i + 1] == [s[0]] + s[1..][..i];
    assert s[i + 2..] == s[1..][i + 1..];
  }

  /** One notification round: the listeners called, in order, and the state they saw. */
  datatype Round = Round(called: seq<Listener>, seen: map<string, Json>)

  // ---------------------------------------------------------------- the system state

  /** `SystemState`: the game record, the five output flags and the change listeners. */
  class SystemState {
    var game: GameState
    var bugVisible: bool
    var replayActive: bool
    var serialConnected: bool
    var casparConnected: bool
    var simulatorRunning: bool
    var listeners: seq<Listener>
    /** Every notification round so far, oldest first. */
    var rounds: seq<Round>

    constructor ()
      ensures game == DefaultGame()
      ensures bugVisible && !replayActive && !serialConnected && !casparConnected && !simulatorRunning
      ensures listeners == [] && rounds == []
    {
      game := DefaultGame();
      bugVisible := true;
      replayActive := false;
      serialConnected := false;
      casparConnected := false;
      simulatorRunning := false;
      listeners := [];
      rounds := [];
    }

    /** `to_dict`: the game under "game" and each flag under its own name. */
    function ToDict(): (d: map<string, Json>)
      reads this`game, this`bugVisible, this`replayActive, this`serialConnected, this`casparConnected, this`simulatorRunning
      ensures d.Keys == {"game", "bug_visible", "replay_active", "serial_connected", "caspar_connected", "simulator_running"}
      ensures d["game"] == JObject(game.ToDict())
      ensures d["bug_visible"] == JBool(bugVisible) && d["replay_active"] == JBool(replayActive)
      ensures d["serial_connected"] == JBool(serialConnected) && d["caspar_connected"] == JBool(casparConnected)
      ensures d["simulator_running"] == JBool(simulatorRunning)
    {
      map[
        "game" := JObject(game.ToDict()),
        "bug_visible" := JBool(bugVisible),
        "replay_active" := JBool(replayActive),
        "serial_connected" := JBool(serialConnected),
        "caspar_connected" := JBool(casparConnected),
        "simulator_running" := JBool(simulatorRunning)]
    }

    /** `_notify_listeners`: calls every listener once, in order; a failing one does not
        stop the others. */
    method NotifyListeners()
      modifies this`rounds
      ensures rounds == old(rounds) + [Round(listeners, ToDict())]
      ensures game == old(game) && listeners == old(listeners)
      ensures bugVisible == old(bugVisible) && replayActive == old(replayActive)
      ensures serialConnected == old(serialConnected) && casparConnected == old(casparConnected)
      ensures simulatorRunning == old(simulatorRunning)
    {
      var copy := listeners;
      var seen := ToDict();
      var called: seq<Listener> := [];
      for i := 0 to |copy|
        invariant called == copy[..i]
      {
        called := called + [copy[i]];
      }
      assert copy[..|copy|] == copy;
      rounds := rounds + [Round(called, seen)];
    }

    /** The `bug_visible` setter. */
    method SetBugVisible(value: bool)
      modifies this
      ensures bugVisible == value
      ensures game == old(game) && listeners == old(listeners)
      ensures replayActive == old(replayActive) && serialConnected == old(serialConnected)
      ensures casparConnected == old(casparConnected) && simulatorRunning == old(simulatorRunning)
      ensures rounds == old(rounds) + [Round(listeners, ToDict())]
    {
      bugVisible := value;
      NotifyListeners();
    }

    /** The `replay_active` setter. */
    method SetReplayActive(value: bool)
      modifies this
      ensures replayActive == value
      ensures game == old(game) && listeners == old(listeners)
      ensures bugVisible == old(bugVisible) && serialConnected == old(serialConnected)
      ensures casparConnected == old(casparConnected) && simulatorRunning == old(simulatorRunning)
      ensures rounds == old(rounds) + [Round(listeners, ToDict())]
    {
      replayActive := value;
      NotifyListeners();
    }

    /** The `serial_connected` setter. */
    method SetSerialConnected(value: bool)
      modifies this
      ensures serialConnected == value
      ensures game == old(game) && listeners == old(listeners)
      ensures bugVisible == old(bugVisible) && replayActive == old(replayActive)
      ensures casparConnected == old(casparConnected) && simulatorRunning == old(simulatorRunning)
      ensures rounds == old(rounds) + [Round(listeners, ToDict())]
    {
      serialConnected := value;
      NotifyListeners();
    }

    /** The `caspar_connected` setter. */
    method SetCasparConnected(value: bool)
      modifies this
      ensures casparConnected == value
      ensures game == old(game) && listeners == old(listeners)
      ensures bugVisible == old(bugVisible) && replayActive == old(replayActive)
      ensures serialConnected == old(serialConnected) && simulatorRunning == old(simulatorRunning)
      ensures rounds == old(rounds) + [Round(listeners, ToDict())]
    {
      casparConnected := value;
      NotifyListeners();
    }

    /** The `simulator_running` setter. */
    method SetSimulatorRunning(value: bool)
      modifies this
      ensures simulatorRunning == value
      ensures game == old(game) && listeners == old(listeners)
      ensures bugVisible == old(bugVisible) && replayActive == old(replayActive)
      ensures serialConnected == old(serialConnected) && casparConnected == old(casparConnected)
      ensures rounds == old(rounds) + [Round(listeners, ToDict())]
    {
      simulatorRunning := value;
      NotifyListeners();
    }

    /** `update_game`: sets the named fields, skips names `GameState` lacks, stamps the
        update time and notifies once. */
    method UpdateGame(kwargs: seq<Kwarg>, now: Instant)
      modifies this
      ensures game == Merge(old(game), kwargs).(lastUpdate := Some(now))
      ensures listeners == old(listeners)
      ensures bugVisible == old(bugVisible) && replayActive == old(replayActive)
      ensures serialConnected == old(serialConnected) && casparConnected == old(casparConnected)
      ensures simulatorRunning == old(simulatorRunning)
      ensures rounds == old(rounds) + [Round(listeners, ToDict())]
    {
      for i := 0 to |kwargs|
        invariant game == Merge(old(game), kwargs[..i])
        invariant listeners == old(listeners) && rounds == old(rounds)
        invariant bugVisible == old(bugVisible) && replayActive == old(replayActive)
        invariant serialConnected == old(serialConnected) && casparConnected == old(casparConnected)
        invariant simulatorRunning == old(simulatorRunning)
      {
        assert kwargs[..i + 1][..i] == kwargs[..i];
        if kwargs[i].Target().Some? {
          game := Assign(game, kwargs[i]);
        }
      }
      assert kwargs[..|kwargs|] == kwargs;
      game := game.(lastUpdate := Some(now));
      NotifyListeners();
    }

    /** `set_game`: replaces the whole game record, stamps the update time and notifies once. */
    method SetGame(g: GameState, now: Instant)
      modifies this
      ensures game == g.(lastUpdate := Some(now))
      ensures listeners == old(listeners)
      ensures bugVisible == old(bugVisible) && replayActive == old(replayActive)
      ensures serialConnected == old(serialConnected) && casparConnected == old(casparConnected)
      ensures simulatorRunning == old(simulatorRunning)
      ensures rounds == old(rounds) + [Round(listeners, ToDict())]
    {
      game := g;
      game := game.(lastUpdate := Some(now));
      NotifyListeners();
    }

    /** `add_listener`: appends, without notifying. */
    method AddListener(callback: Listener)
      modifies this
      ensures listeners == old(listeners) + [callback]
      ensures game == old(game) && rounds == old(rounds)
      ensures bugVisible == old(bugVisible) && replayActive == old(replayActive)
      ensures serialConnected == old(serialConnected) && casparConnected == old(casparConnected)
      ensures simulatorRunning == old(simulatorRunning)
    {
      listeners := listeners + [callback];
    }

    /** `remove_listener`: drops the first occurrence, if there is one. */
    method RemoveListener(callback: Listener)
      modifies this
      ensures callback in old(listeners) ==> listeners == RemoveFirst(old(listeners), callback)
      ensures callback !in old(listeners) ==> listeners == old(listeners)
      ensures game == old(game) && rounds == old(rounds)
      ensures bugVisible == old(bugVisible) && replayActive == old(replayActive)
      ensures serialConnected == old(serialConnected) && casparConnected == old(casparConnected)
      ensures simulatorRunning == old(simulatorRunning)
    {
      if callback in listeners {
        listeners := RemoveFirst(listeners, callback);
      }
    }
  }
}
