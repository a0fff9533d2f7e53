/**
 * Hockey rules over the decoded game data: which single event an update announces
 * (a goal for either side or a period change), which side scored last, and who is
 * on a power play.
 */
module Hockey {
  import opened PyText
  import MP70

  /** The events `process_update` reports; `Name` is the string the source returns. */
  datatype Event = GoalHome | GoalAway | PeriodChange
  {
    function Name(): string {
      match this
      case GoalHome => "GOAL_HOME"
      case GoalAway => "GOAL_AWAY"
      case PeriodChange => "PERIOD_CHANGE"
    }
  }

  /** The sides `get_last_goal` reports; `Name` is the string the source returns. */
  datatype Side = Home | Away
  {
    function Name(): string {
      match this
      case Home => "HOME"
      case Away => "AWAY"
    }
  }

  /** The event strings differ, so a caller comparing them tells the events apart. */
  lemma EventNamesDistinct(e: Event, f: Event)
    ensures e.Name() == f.Name() <==> e == f
  {
  }

  /** The side strings differ, so a caller comparing them tells the sides apart. */
  lemma SideNamesDistinct(a: Side, b: Side)
    ensures a.Name() == b.Name() <==> a == b
  {
  }

  /** The update's scores, where present, are integers (they are compared with `>`). */
  predicate ScoresAreInts(d: map<string, Json>) {
    && ("home" in d ==> d["home"].JInt?)
    && ("away" in d ==> d["away"].JInt?)
  }

  /** `d.get(key, default)` for an integer entry. */
  function IntOr(d: map<string, Json>, key: string, default: int): (r: int)
    requires key in d ==> d[key].JInt?
    ensures key !in d ==> r == default
    ensures key in d ==> d[key] == JInt(r)
  {
    if key in d then d[key].i else default
  }

  /** `d.get(key, default)`. */
  function GetOr(d: map<string, Json>, key: string, default: Json): (r: Json)
    ensures key !in d ==> r == default
    ensures key in d ==> r == d[key]
  {
    if key in d then d[key] else default
  }

  /** The goal part of the comparison with the previous scores; the home side takes precedence. */
  function GoalOf(prevHome: int, prevAway: int, home: int, away: int): (r: Option<Side>)
    ensures r == Some(Home) <==> home > prevHome
    ensures r == Some(Away) <==> home <= prevHome && away > prevAway
    ensures r == None <==> home <= prevHome && away <= prevAway
  {
    if home > prevHome then Some(Home)
    else if away > prevAway then Some(Away)
    else None
  }

  /** The single event an update announces: a goal first, a period change only without a goal. */
  function Detect(prevHome: int, prevAway: int, prevPeriod: Json, home: int, away: int, period: Json): (r: Option<Event>)
    ensures r == Some(GoalHome) <==> home > prevHome
    ensures r == Some(GoalAway) <==> home <= prevHome && away > prevAway
    ensures r == Some(PeriodChange) <==> home <= prevHome && away <= prevAway && period != prevPeriod
    ensures r == None <==> home <= prevHome && away <= prevAway && period == prevPeriod
  {
    var goal :=
      match GoalOf(prevHome, prevAway, home, away)
      case Some(Home) => Some(GoalHome)
      case Some(Away) => Some(GoalAway)
      case None => None;
    if period != prevPeriod && goal.None? then Some(PeriodChange) else goal
  }

  /** `get_last_goal` names the side whose goal `process_update` would report from the same state. */
  lemma LastGoalAgreesWithEvent(prevHome: int, prevAway: int, prevPeriod: Json, home: int, away: int, period: Json)
    ensures GoalOf(prevHome, prevAway, home, away) == Some(Home) <==> Detect(prevHome, prevAway, prevPeriod, home, away, period) == Some(GoalHome)
    ensures GoalOf(prevHome, prevAway, home, away) == Some(Away) <==> Detect(prevHome, prevAway, prevPeriod, home, away, period) == Some(GoalAway)
    ensures GoalOf(prevHome, prevAway, home, away) == None <==> !Detect(prevHome, prevAway, prevPeriod, home, away, period).Some? || Detect(prevHome, prevAway, prevPeriod, home, away, period) == Some(PeriodChange)
  {
  }

  /** The dict the parser emits is a valid update for the detector: its scores are
      integers, and the detector reads the parsed scores and period from it. */
  lemma ParsedUpdateFeedsDetector(g: MP70.GameData)
    ensures ScoresAreInts(g.ToDict())
    ensures IntOr(g.ToDict(), "home", 0) == g.homeScore && IntOr(g.ToDict(), "away", 0) == g.awayScore
    ensures GetOr(g.ToDict(), "period", JStr("1")) == JStr(g.period)
  {
  }

  /** Replaying an update that was just processed announces nothing. */
  lemma RepeatIsQuiet(home: int, away: int, period: Json)
    ensures Detect(home, away, period, home, away, period) == None
  {
  }

  // ---------------------------------------------------------------- power play

  /** `len([p for p in penalties if p and p > 0])`: the penalties still running. */
  function Active(penalties: seq<int>): (n: nat)
    ensures n <= |penalties|
    ensures n == 0 <==> forall i :: 0 <= i < |penalties| ==> penalties[i] <= 0
    ensures n == |penalties| <==> forall i :: 0 <= i < |penalties| ==> penalties[i] > 0
  {
    if penalties == [] then 0
    else
      var rest := Active(penalties[1..]);
      assert forall i :: 1 <= i < |penalties| ==> penalties[i] == penalties[1..][i - 1];
      (if penalties[0] > 0 then 1 else 0) + rest
  }

  /** Counting running penalties over two stretches is the sum of the counts. */
  lemma {:induction false} ActiveSplit(a: seq<int>, b: seq<int>)
    ensures Active(a + b) == Active(a) + Active(b)
  {
    if a != [] {
      ActiveSplit(a[1..], b);
      assert (a + b)[1..] == a[1..] + b;
    } else {
      assert a + b == b;
    }
  }

  /** The dict `is_power_play` returns. */
  datatype PowerPlay = PowerPlay(homePP: bool, awayPP: bool, homeAdv: int, awayAdv: int)
  {
    function ToDict(): (r: map<string, Json>)
      ensures r.Keys == {"home_pp", "away_pp", "home_adv", "away_adv"}
      ensures r["home_pp"].JBool? && r["away_pp"].JBool? && r["home_adv"].JInt? && r["away_adv"].JInt?
    {
      map["home_pp" := JBool(homePP), "away_pp" := JBool(awayPP),
          "home_adv" := JInt(homeAdv), "away_adv" := JInt(awayAdv)]
    }
  }

  /** `is_power_play`: the side with fewer running penalties has the advantage. */
  function IsPowerPlay(homePenalties: seq<int>, awayPenalties: seq<int>): (r: PowerPlay)
    ensures r.homeAdv == -r.awayAdv
    ensures r.homePP <==> r.homeAdv > 0
    ensures r.awayPP <==> r.awayAdv > 0
    ensures !(r.homePP && r.awayPP)
    ensures Active(homePenalties) == Active(awayPenalties) ==> !r.homePP && !r.awayPP && r.homeAdv == 0
    ensures r.homeAdv <= |awayPenalties| && r.awayAdv <= |homePenalties|
  {
    var home := Active(homePenalties);
    var away := Active(awayPenalties);
    PowerPlay(away > home, home > away, away - home, home - away)
  }

  /** The dict `is_power_play` returns: a side's flag is set exactly when the other side has
      more running penalties, and its advantage is the difference of the counts. */
  lemma PowerPlayDict(homePenalties: seq<int>, awayPenalties: seq<int>)
    ensures var r := IsPowerPlay(homePenalties, awayPenalties).ToDict();
      && r["home_pp"] == JBool(Active(awayPenalties) > Active(homePenalties))
      && r["away_pp"] == JBool(Active(homePenalties) > Active(awayPenalties))
      && r["home_adv"] == JInt(Active(awayPenalties) - Active(homePenalties))
      && r["away_adv"] == JInt(Active(homePenalties) - Active(awayPenalties))
  {
  }

  /** An expired entry (zero or negative seconds) has no bearing on the power play. */
  lemma ExpiredPenaltyIgnored(homePenalties: seq<int>, awayPenalties: seq<int>, p: int)
    requires p <= 0
    ensures IsPowerPlay(homePenalties + [p], awayPenalties) == IsPowerPlay(homePenalties, awayPenalties)
    ensures IsPowerPlay(homePenalties, awayPenalties + [p]) == IsPowerPlay(homePenalties, awayPenalties)
  {
    ActiveSplit(homePenalties, [p]);
    ActiveSplit(awayPenalties, [p]);
  }

  /** A further running penalty against a side shifts the advantage by one to the other side. */
  lemma NewPenaltyShiftsAdvantage(homePenalties: seq<int>, awayPenalties: seq<int>, p: int)
    requires p > 0
    ensures IsPowerPlay(homePenalties + [p], awayPenalties).awayAdv == IsPowerPlay(homePenalties, awayPenalties).awayAdv + 1
    ensures IsPowerPlay(homePenalties, awayPenalties + [p]).homeAdv == IsPowerPlay(homePenalties, awayPenalties).homeAdv + 1
  {
    ActiveSplit(homePenalties, [p]);
    ActiveSplit(awayPenalties, [p]);
  }

  // ---------------------------------------------------------------- the detector

  /** `HockeyLogic`: remembers the previous scores and period between updates. */
  class HockeyLogic {
    var prevHome: int
    var prevAway: int
    var prevPeriod: Json

    constructor ()
      ensures prevHome == 0 && prevAway == 0 && prevPeriod == JStr("1")
    {
      prevHome := 0;
      prevAway := 0;
      prevPeriod := JStr("1");
    }

    /** `process_update`: reports at most one event, then remembers the incoming values,
        with 0, 0 and "1" standing in for missing keys. */
    method ProcessUpdate(newData: map<string, Json>) returns (event: Option<Event>)
      requires ScoresAreInts(newData)
      modifies this
      ensures event == Detect(old(prevHome), old(prevAway), old(prevPeriod),
                              IntOr(newData, "home", 0), IntOr(newData, "away", 0), GetOr(newData, "period", JStr("1")))
      ensures prevHome == IntOr(newData, "home", 0)
      ensures prevAway == IntOr(newData, "away", 0)
      ensures prevPeriod == GetOr(newData, "period", JStr("1"))
    {
      var home := IntOr(newData, "home", 0);
      var away := IntOr(newData, "away", 0);
      var period := GetOr(newData, "period", JStr("1"));
      event := None;
      if home > prevHome {
        event := Some(GoalHome);
      } else if away > prevAway {
        event := Some(GoalAway);
      }
      if period != prevPeriod {
        if event.None? {
          event := Some(PeriodChange);
        }
      }
      prevHome := home;
      prevAway := away;
      prevPeriod := period;
    }

    /** `get_last_goal`: which side just scored, without remembering anything. */
    method GetLastGoal(newData: map<string, Json>) returns (side: Option<Side>)
      requires ScoresAreInts(newData)
      ensures side == Some(Home) <==> IntOr(newData, "home", 0) > prevHome
      ensures side == Some(Away) <==> IntOr(newData, "home", 0) <= prevHome && IntOr(newData, "away", 0) > prevAway
      ensures side == None <==> IntOr(newData, "home", 0) <= prevHome && IntOr(newData, "away", 0) <= prevAway
      ensures side == GoalOf(prevHome, prevAway, IntOr(newData, "home", 0), IntOr(newData, "away", 0))
    {
      var home := IntOr(newData, "home", 0);
      var away := IntOr(newData, "away", 0);
      if home > prevHome {
        return Some(Home);
      } else if away > prevAway {
        return Some(Away);
      }
      return None;
    }

    /** `reset`: back to the state of a new detector. */
    method Reset()
      modifies this
      ensures prevHome == 0 && prevAway == 0 && prevPeriod == JStr("1")
    {
      prevHome := 0;
      prevAway := 0;
      prevPeriod := JStr("1");
    }
  }
}
