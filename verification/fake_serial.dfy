/**
 * The test-bench stand-in for the scoreboard controller: a game simulator that advances
 * one second per tick, and a fake serial port whose input buffer is fed with MP-70
 * packets encoded from the simulated game. Random outcomes are parameters.
 */
module Simulator {
  import opened PyText
  import opened MP70

  // ---------------------------------------------------------------- game simulation

  /** The configuration a `GameSimulator` is built with (the float settings are left out). */
  datatype Config = Config(periodSeconds: int, goalIntervalMin: int, goalIntervalMax: int)

  /** The random outcomes one `tick` consumes. */
  datatype TickDraws = TickDraws(
    homeGoal: bool,       // random.random() < 0.5, read when a goal is due
    nextGoalTime: int,    // random.randint(goal_interval_min, goal_interval_max), read when a goal is due
    penalty: bool,        // random.random() < penalty_chance / 60
    penaltySeconds: int,  // random.choice([120, 120, 120, 300])
    penaltyHome: bool)    // random.random() < 0.5, read when a penalty is called

  /** What the random draws can yield. */
  predicate DrawsFit(cfg: Config, d: TickDraws) {
    && cfg.goalIntervalMin <= d.nextGoalTime <= cfg.goalIntervalMax
    && (d.penaltySeconds == 120 || d.penaltySeconds == 300)
  }

  /** The simulated game: the fields `tick` and `reset` change. */
  datatype Sim = Sim(
    homeScore: int,
    awayScore: int,
    period: int,
    clockSeconds: int,
    homePenalties: seq<int>,  // seconds remaining
    awayPenalties: seq<int>,
    nextGoalTime: int)        // ticks until the next goal

  /** A new or reset game, with the first goal due after `firstGoal` ticks. */
  function Initial(cfg: Config, firstGoal: int): (s: Sim)
    ensures s.homeScore == 0 && s.awayScore == 0 && s.period == 1 && s.clockSeconds == cfg.periodSeconds
    ensures s.homePenalties == [] && s.awayPenalties == [] && s.nextGoalTime == firstGoal
  {
    Sim(0, 0, 1, cfg.periodSeconds, [], [], firstGoal)
  }

  /** What every reachable game satisfies. */
  predicate WellFormed(cfg: Config, s: Sim) {
    && s.homeScore >= 0 && s.awayScore >= 0
    && 1 <= s.period <= 3
    && s.clockSeconds <= cfg.periodSeconds
    && (s.clockSeconds >= 0 || s.clockSeconds == cfg.periodSeconds)
    && PenaltiesFit(s.homePenalties) && PenaltiesFit(s.awayPenalties)
  }

  /** At most two running penalties, each of at most five minutes. */
  predicate PenaltiesFit(ps: seq<int>) {
    |ps| <= 2 && forall i :: 0 <= i < |ps| ==> 0 < ps[i] <= 300
  }

  lemma InitialWellFormed(cfg: Config, firstGoal: int)
    ensures WellFormed(cfg, Initial(cfg, firstGoal))
  {
  }

  function Max0(x: int): (r: int)
    ensures r >= 0 && r >= x && (r == 0 || r == x)
  {
    if x > 0 then x else 0
  }

  /** `[max(0, p - 1) for p in penalties if p > 1]`: one second off every penalty, and
      the ones running out dropped. */
  function CountDown(penalties: seq<int>): (r: seq<int>)
    ensures |r| <= |penalties|
    ensures forall i :: 0 <= i < |r| ==> r[i] >= 1
    decreases |penalties|
  {
    if penalties == [] then []
    else
      var p := penalties[0];
      (if p > 1 then [Max0(p - 1)] else []) + CountDown(penalties[1..])
  }

  /** Every surviving entry is one second below an entry of the input. */
  lemma {:induction false} CountDownDecrements(penalties: seq<int>, bound: int)
    requires forall i :: 0 <= i < |penalties| ==> penalties[i] <= bound
    ensures forall i :: 0 <= i < |CountDown(penalties)| ==> CountDown(penalties)[i] <= bound - 1
    decreases |penalties|
  {
    if penalties != [] {
      CountDownDecrements(penalties[1..], bound);
      var p := penalties[0];
      var head: seq<int> := if p > 1 then [Max0(p - 1)] else [];
      var r := CountDown(penalties);
      assert r == head + CountDown(penalties[1..]);
      forall i | 0 <= i < |r| ensures r[i] <= bound - 1 {
        if i >= |head| {
          assert r[i] == CountDown(penalties[1..])[i - |head|];
        }
      }
    }
  }

  /** Penalties with more than a second left all survive, one second shorter, in order;
      penalties with at most a second left all go. */
  lemma {:induction false} CountDownExact(penalties: seq<int>)
    ensures (forall i :: 0 <= i < |penalties| ==> penalties[i] > 1) ==>
      |CountDown(penalties)| == |penalties| && forall i :: 0 <= i < |penalties| ==> CountDown(penalties)[i] == penalties[i] - 1
    ensures (forall i :: 0 <= i < |penalties| ==> penalties[i] <= 1) ==> CountDown(penalties) == []
  {
    if forall i :: 0 <= i < |penalties| ==> penalties[i] > 1 {
      CountDownLive(penalties);
    }
    if forall i :: 0 <= i < |penalties| ==> penalties[i] <= 1 {
      CountDownExpired(penalties);
    }
  }

  /** Penalties with more than a second left all survive, one second shorter, in order. */
  lemma {:induction false} CountDownLive(penalties: seq<int>)
    requires forall i :: 0 <= i < |penalties| ==> penalties[i] > 1
    ensures |CountDown(penalties)| == |penalties|
    ensures forall i :: 0 <= i < |penalties| ==> CountDown(penalties)[i] == penalties[i] - 1
    decreases |penalties|
  {
    if penalties != [] {
      var tail := penalties[1..];
      assert forall i :: 0 <= i < |tail| ==> tail[i] == penalties[i + 1];
      CountDownLive(tail);
      var rest := CountDown(tail);
      var r := CountDown(penalties);
      assert r == [penalties[0] - 1] + rest;
      forall i | 0 <= i < |penalties| ensures r[i] == penalties[i] - 1 {
        if i > 0 { assert r[i] == rest[i - 1] && tail[i - 1] == penalties[i]; }
      }
    }
  }

  /** Penalties with at most a second left all go. */
  lemma {:induction false} CountDownExpired(penalties: seq<int>)
    requires forall i :: 0 <= i < |penalties| ==> penalties[i] <= 1
    ensures CountDown(penalties) == []
    decreases |penalties|
  {
    if penalties != [] {
      var tail := penalties[1..];
      assert forall i :: 0 <= i < |tail| ==> tail[i] == penalties[i + 1];
      CountDownExpired(tail);
    }
  }

  /** The countdown works entry by entry: counting down two stretches of a list and joining
      the results is counting down the whole, so a mixed list is covered by CountDownExact
      on each of its entries. */
  lemma {:induction false} CountDownConcat(a: seq<int>, b: seq<int>)
    ensures CountDown(a + b) == CountDown(a) + CountDown(b)
    decreases |a|
  {
    if a == [] {
      assert a + b == b;
    } else {
      CountDownConcat(a[1..], b);
      var head: seq<int> := if a[0] > 1 then [Max0(a[0] - 1)] else [];
      assert (a + b)[0] == a[0] && (a + b)[1..] == a[1..] + b;
      assert CountDown(a + b) == head + (CountDown(a[1..]) + CountDown(b));
      assert CountDown(a) == head + CountDown(a[1..]);
    }
  }

  /** The penalty list of one side after a tick: counted down, then the new penalty if it
      was called against this side and the side holds fewer than two. */
  function NextPenalties(penalties: seq<int>, d: TickDraws, home: bool): (r: seq<int>)
    ensures CountDown(penalties) <= r && |r| <= |CountDown(penalties)| + 1
    ensures |r| > |CountDown(penalties)| <==> d.penalty && d.penaltyHome == home && |CountDown(penalties)| < 2
    ensures |r| > |CountDown(penalties)| ==> r[|r| - 1] == d.penaltySeconds
    ensures |r| <= 2 || r == CountDown(penalties)
  {
    var counted := CountDown(penalties);
    if d.penalty && d.penaltyHome == home && |counted| < 2 then counted + [d.penaltySeconds] else counted
  }

  /** `tick`: one second of game time. */
  function Step(cfg: Config, s: Sim, d: TickDraws): (r: Sim)
    ensures r.homeScore >= s.homeScore && r.awayScore >= s.awayScore
    ensures r.homeScore + r.awayScore == s.homeScore + s.awayScore + (if s.nextGoalTime <= 1 then 1 else 0)
    ensures r.period == s.period || r.period == s.period + 1
  {
    var clock := if s.clockSeconds > 0 then s.clockSeconds - 1 else s.clockSeconds;
    var due := s.nextGoalTime - 1;
    var homeScore := if due <= 0 && d.homeGoal then s.homeScore + 1 else s.homeScore;
    var awayScore := if due <= 0 && !d.homeGoal then s.awayScore + 1 else s.awayScore;
    var nextGoal := if due <= 0 then d.nextGoalTime else due;
    var turn := clock <= 0 && s.period < 3;
    Sim(homeScore, awayScore,
        if turn then s.period + 1 else s.period,
        if turn then cfg.periodSeconds else clock,
        NextPenalties(s.homePenalties, d, true),
        NextPenalties(s.awayPenalties, d, false),
        nextGoal)
  }

  /** A tick keeps the game well formed: scores non-negative, the period in 1..3, the clock
      within the period, at most two running penalties per side. */
  lemma StepWellFormed(cfg: Config, s: Sim, d: TickDraws)
    requires WellFormed(cfg, s) && DrawsFit(cfg, d)
    ensures WellFormed(cfg, Step(cfg, s, d))
  {
    CountDownDecrements(s.homePenalties, 300);
    CountDownDecrements(s.awayPenalties, 300);
    var r := Step(cfg, s, d);
    assert PenaltiesFit(r.homePenalties) by {
      var c := CountDown(s.homePenalties);
      assert forall i :: 0 <= i < |c| ==> 0 < c[i] <= 300;
    }
    assert PenaltiesFit(r.awayPenalties) by {
      var c := CountDown(s.awayPenalties);
      assert forall i :: 0 <= i < |c| ==> 0 < c[i] <= 300;
    }
  }

  /** The clock: down by exactly one second while positive, never below zero once
      non-negative, and back to a full period only on a period change. */
  lemma StepClock(cfg: Config, s: Sim, d: TickDraws)
    ensures var r := Step(cfg, s, d);
      && (s.clockSeconds >= 0 ==> r.clockSeconds >= 0 || r.clockSeconds == cfg.periodSeconds)
      && (r.period == s.period ==> r.clockSeconds == if s.clockSeconds > 0 then s.clockSeconds - 1 else s.clockSeconds)
      && (r.period != s.period ==> r.clockSeconds == cfg.periodSeconds)
  {
  }

  /** The period: up by one only when the clock has run out before the third period ends. */
  lemma StepPeriod(cfg: Config, s: Sim, d: TickDraws)
    ensures var r := Step(cfg, s, d);
      && (r.period == s.period || r.period == s.period + 1)
      && (r.period == s.period + 1 <==> s.period < 3 && (s.clockSeconds <= 1))
  {
  }

  /** The scores: never down, at most one of them up, by exactly one, and only when the goal
      countdown runs out, which re-arms it with the drawn delay. */
  lemma StepScores(cfg: Config, s: Sim, d: TickDraws)
    ensures var r := Step(cfg, s, d);
      && r.homeScore >= s.homeScore && r.awayScore >= s.awayScore
      && (r.homeScore - s.homeScore) + (r.awayScore - s.awayScore) == (if s.nextGoalTime <= 1 then 1 else 0)
      && r.nextGoalTime == if s.nextGoalTime <= 1 then d.nextGoalTime else s.nextGoalTime - 1
  {
  }

  /** The penalties: only entries above one second survive, each one second shorter; a new
      penalty is added only to a side that holds fewer than two. */
  lemma StepPenalties(cfg: Config, s: Sim, d: TickDraws)
    ensures var r := Step(cfg, s, d);
      && (r.homePenalties == CountDown(s.homePenalties) || r.homePenalties == CountDown(s.homePenalties) + [d.penaltySeconds])
      && (r.awayPenalties == CountDown(s.awayPenalties) || r.awayPenalties == CountDown(s.awayPenalties) + [d.penaltySeconds])
      && (|r.homePenalties| > |CountDown(s.homePenalties)| ==> d.penalty && d.penaltyHome && |CountDown(s.homePenalties)| < 2)
      && (|r.awayPenalties| > |CountDown(s.awayPenalties)| ==> d.penalty && !d.penaltyHome && |CountDown(s.awayPenalties)| < 2)
  {
  }

  /** The game after a sequence of ticks. */
  function Run(cfg: Config, s: Sim, draws: seq<TickDraws>): Sim
    decreases |draws|
  {
    if draws == [] then s else Run(cfg, Step(cfg, s, draws[0]), draws[1..])
  }

  /** However long the simulation runs, the game stays well formed and neither the scores
      nor the period go down. */
  lemma {:induction false} RunWellFormed(cfg: Config, s: Sim, draws: seq<TickDraws>)
    requires WellFormed(cfg, s)
    requires forall i :: 0 <= i < |draws| ==> DrawsFit(cfg, draws[i])
    ensures WellFormed(cfg, Run(cfg, s, draws))
    ensures Run(cfg, s, draws).homeScore >= s.homeScore && Run(cfg, s, draws).awayScore >= s.awayScore
    ensures Run(cfg, s, draws).period >= s.period
    decreases |draws|
  {
    if draws != [] {
      StepWellFormed(cfg, s, draws[0]);
      RunWellFormed(cfg, Step(cfg, s, draws[0]), draws[1..]);
    }
  }

  // ---------------------------------------------------------------- the state view

  /** `format_clock`: "MM:SS" with both fields zero-padded (floor division, as in Python). */
  function ClockText(seconds: int): (r: string)
    ensures |r| >= 3 && r[|r| - 3] == ':'
    ensures IsDigit(r[|r| - 2]) && IsDigit(r[|r| - 1])
    ensures TwoDigits(DigitValue(r[|r| - 2]), DigitValue(r[|r| - 1])) == seconds % 60
  {
    ZeroPad2Digits(seconds % 60);
    ZeroPad2(seconds / 60) + ":" + ZeroPad2(seconds % 60)
  }

  /** Below 100 minutes the clock text is two digits of minutes, a colon and two digits of
      seconds that read back as the same number of seconds. */
  lemma ClockTextReads(seconds: int)
    requires 0 <= seconds < 6000
    ensures var r := ClockText(seconds);
      && |r| == 5 && r[2] == ':'
      && IsDigit(r[0]) && IsDigit(r[1]) && IsDigit(r[3]) && IsDigit(r[4])
      && TwoDigits(DigitValue(r[0]), DigitValue(r[1])) * 60 + TwoDigits(DigitValue(r[3]), DigitValue(r[4])) == seconds
  {
    ZeroPad2Digits(seconds / 60);
    ZeroPad2Digits(seconds % 60);
  }

  /** The period as `get_state` reports it: its number, or "OT" past the third. */
  function PeriodText(period: int): (r: string)
    ensures r == "OT" <==> period > 3
    ensures 1 <= period <= 3 ==> r == [DigitChar(period)]
  {
    if period <= 3 then IntToString(period) else "OT"
  }

  /** `get_state`: the dict handed to the packet encoder, in the parser's record shape. */
  function View(s: Sim): (v: GameData)
    ensures v.homeScore == s.homeScore && v.awayScore == s.awayScore
    ensures v.period == PeriodText(s.period) && v.clock == ClockText(s.clockSeconds)
    ensures v.homePenalties == s.homePenalties && v.awayPenalties == s.awayPenalties
  {
    GameData(s.homeScore, s.awayScore, PeriodText(s.period), ClockText(s.clockSeconds), s.homePenalties, s.awayPenalties)
  }

  /** `GameSimulator`: the simulated game, advanced by `tick`. */
  class GameSimulator {
    const periodSeconds: int
    const goalIntervalMin: int
    const goalIntervalMax: int
    var homeScore: int
    var awayScore: int
    var period: int
    var clockSeconds: int
    var homePenalties: seq<int>
    var awayPenalties: seq<int>
    var nextGoalTime: int

    function Cfg(): Config {
      Config(periodSeconds, goalIntervalMin, goalIntervalMax)
    }

    /** The fields `tick` and `reset` change. */
    function Snapshot(): Sim
      reads this
    {
      Sim(homeScore, awayScore, period, clockSeconds, homePenalties, awayPenalties, nextGoalTime)
    }

    /** `firstGoal` is the `random.randint` draw that arms the first goal. */
    constructor (periodSeconds: int, goalIntervalMin: int, goalIntervalMax: int, firstGoal: int)
      requires goalIntervalMin <= firstGoal <= goalIntervalMax
      ensures Cfg() == Config(periodSeconds, goalIntervalMin, goalIntervalMax)
      ensures Snapshot() == Initial(Cfg(), firstGoal)
      ensures WellFormed(Cfg(), Snapshot())
    {
      this.periodSeconds := periodSeconds;
      this.goalIntervalMin := goalIntervalMin;
      this.goalIntervalMax := goalIntervalMax;
      homeScore := 0;
      awayScore := 0;
      period := 1;
      clockSeconds := periodSeconds;
      homePenalties := [];
      awayPenalties := [];
      nextGoalTime := firstGoal;
    }

    /** `get_state`. */
    function GetState(): (v: GameData)
      reads this
      ensures v.period == "OT" <==> period > 3
      ensures v == View(Snapshot())
    {
      GameData(homeScore, awayScore, if period <= 3 then IntToString(period) else "OT",
               ClockText(clockSeconds), homePenalties, awayPenalties)
    }

    /** `tick`: advances the game one second and returns its new state. */
    method Tick(d: TickDraws) returns (state: GameData)
      requires DrawsFit(Cfg(), d)
      modifies this
      ensures Snapshot() == Step(Cfg(), old(Snapshot()), d)
      ensures state == View(Snapshot())
    {
      ghost var next := Step(Cfg(), Snapshot(), d);
      if clockSeconds > 0 {
        clockSeconds := clockSeconds - 1;
      }
      homePenalties := CountDown(homePenalties);
      awayPenalties := CountDown(awayPenalties);
      nextGoalTime := nextGoalTime - 1;
      if nextGoalTime <= 0 {
        if d.homeGoal {
          homeScore := homeScore + 1;
        } else {
          awayScore := awayScore + 1;
        }
        nextGoalTime := d.nextGoalTime;
      }
      if d.penalty {
        if d.penaltyHome {
          if |homePenalties| < 2 {
            homePenalties := homePenalties + [d.penaltySeconds];
          }
        } else {
          if |awayPenalties| < 2 {
            awayPenalties := awayPenalties + [d.penaltySeconds];
          }
        }
      }
      if clockSeconds <= 0 && period < 3 {
        period := period + 1;
        clockSeconds := periodSeconds;
      }
      assert homeScore == next.homeScore && awayScore == next.awayScore && nextGoalTime == next.nextGoalTime;
      assert homePenalties == next.homePenalties && awayPenalties == next.awayPenalties;
      assert period == next.period && clockSeconds == next.clockSeconds;
      state := GetState();
    }

    /** `reset`: a new game, with the first goal due after `firstGoal` ticks. */
    method Reset(firstGoal: int)
      requires goalIntervalMin <= firstGoal <= goalIntervalMax
      modifies this
      ensures Snapshot() == Initial(Cfg(), firstGoal)
    {
      homeScore := 0;
      awayScore := 0;
      period := 1;
      clockSeconds := periodSeconds;
      homePenalties := [];
      awayPenalties := [];
      nextGoalTime := firstGoal;
    }
  }

  // ---------------------------------------------------------------- packet encoding

  function Zeros(n: nat): (r: seq<byte>)
    ensures |r| == n && forall i :: 0 <= i < n ==> r[i] == 0
  {
    seq(n, _ => 0)
  }

  /** `text.replace(":", "")`. */
  function RemoveColons(text: string): (r: string)
    ensures |r| <= |text|
    ensures forall i :: 0 <= i < |r| ==> r[i] != ':'
    ensures IsAsciiText(text) ==> IsAsciiText(r)
    decreases |text|
  {
    if text == [] then []
    else
      var rest := RemoveColons(text[1..]);
      assert IsAsciiText(text) ==> IsAsciiText(text[1..]) by {
        assert forall i :: 1 <= i < |text| ==> text[1..][i - 1] == text[i];
      }
      (if text[0] == ':' then [] else [text[0]]) + rest
  }

  /** Removing colons piecewise is removing them from the whole. */
  lemma {:induction false} RemoveColonsConcat(a: string, b: string)
    ensures RemoveColons(a + b) == RemoveColons(a) + RemoveColons(b)
    decreases |a|
  {
    if a == [] {
      assert a + b == b;
    } else {
      RemoveColonsConcat(a[1..], b);
      var head: string := if a[0] == ':' then [] else [a[0]];
      assert (a + b)[0] == a[0] && (a + b)[1..] == a[1..] + b;
      assert RemoveColons(a + b) == head + (RemoveColons(a[1..]) + RemoveColons(b));
      assert RemoveColons(a) == head + RemoveColons(a[1..]);
    }
  }

  /** Text without a colon is left as it is. */
  lemma {:induction false} RemoveColonsNone(text: string)
    requires forall i :: 0 <= i < |text| ==> text[i] != ':'
    ensures RemoveColons(text) == text
    decreases |text|
  {
    if text != [] {
      RemoveColonsNone(text[1..]);
      assert [text[0]] + text[1..] == text;
    }
  }

  /** `bytes.ljust(4)`: padded with spaces up to four bytes. */
  function Ljust4(bytes: seq<byte>): (r: seq<byte>)
    ensures |r| == if |bytes| < 4 then 4 else |bytes|
    ensures forall i :: 0 <= i < |bytes| ==> r[i] == bytes[i]
    ensures forall i :: |bytes| <= i < |r| ==> r[i] == 0x20
  {
    if |bytes| < 4 then bytes + seq(4 - |bytes|, _ => 0x20) else bytes
  }

  /** `f"{score:2d} ".encode("ascii")`. */
  function ScoreBytes(score: int): (r: seq<byte>)
    requires -9 <= score <= 99
    ensures |r| == 3 && r[..2] == AsciiEncode(SpacePad2(score))
  {
    SpacePad2RoundTrip(score);
    var text := SpacePad2(score) + " ";
    assert IsAsciiText(text);
    var r := AsciiEncode(text);
    assert r[..2] == AsciiEncode(SpacePad2(score));
    r
  }

  /** `format_penalty`: four blanks for an expired penalty, MMSS otherwise. */
  function PenaltyText(seconds: int): (r: string)
    ensures IsAsciiText(r)
    ensures seconds <= 0 <==> |r| == 4 && forall i :: 0 <= i < 4 ==> r[i] == ' '
  {
    if seconds <= 0 then "    "
    else
      var minutes := ZeroPad2(seconds / 60);
      var secs := ZeroPad2(seconds % 60);
      ZeroPad2Digits(seconds % 60);
      assert (minutes + secs)[|minutes| + 1] == secs[1];
      minutes + secs
  }

  /** Below 100 minutes a running penalty is four digits that read back as its seconds. */
  lemma PenaltyTextReads(seconds: int)
    requires 0 < seconds < 6000
    ensures var r := PenaltyText(seconds);
      && |r| == 4 && IsDigit(r[0]) && IsDigit(r[1]) && IsDigit(r[2]) && IsDigit(r[3])
      && MmssValue(DigitValue(r[0]), DigitValue(r[1]), DigitValue(r[2]), DigitValue(r[3])) == seconds
  {
    ZeroPad2Digits(seconds / 60);
    ZeroPad2Digits(seconds % 60);
  }

  lemma PenaltyWidth(seconds: int)
    ensures seconds < 6000 ==> |PenaltyText(seconds)| == 4
  {
    if 0 < seconds < 6000 {
      PenaltyTextReads(seconds);
    }
  }

  function PenaltyBytes(seconds: int): (r: seq<byte>)
    requires seconds < 6000
    ensures |r| == 4
  {
    PenaltyWidth(seconds);
    AsciiEncode(PenaltyText(seconds))
  }

  /** The penalties the encoder writes (the first two) fit the four-byte fields. */
  predicate PenaltiesEncodable(penalties: seq<int>) {
    forall i :: 0 <= i < |penalties| && i < 2 ==> penalties[i] < 6000
  }

  /** What the encoder needs to keep the 80-byte layout: scores of at most two columns,
      a period starting with an ASCII character, penalties under 100 minutes, and a clock
      of at most four characters besides its colons. */
  predicate Encodable(state: GameData, clockPacket: bool) {
    if clockPacket then
      IsAsciiText(state.clock) && |RemoveColons(state.clock)| <= 4
    else
      && -9 <= state.homeScore <= 99 && -9 <= state.awayScore <= 99
      && |state.period| > 0 && state.period[0] as int < 128
      && PenaltiesEncodable(state.homePenalties) && PenaltiesEncodable(state.awayPenalties)
  }

  /** The four clock bytes of a clock packet. */
  function ClockBytes(clock: string): (r: seq<byte>)
    requires IsAsciiText(clock) && |RemoveColons(clock)| <= 4
    ensures |r| == 4
  {
    Ljust4(AsciiEncode(RemoveColons(clock)))
  }

  /** The period byte of a full-state packet. */
  function PeriodBytes(period: string): (r: seq<byte>)
    requires |period| > 0 && period[0] as int < 128
    ensures r == [period[0] as int as byte]
  {
    AsciiEncode([period[0]])
  }

  /** Penalty slot `k` of a side as written: the MMSS or blank bytes, or the zero bytes of
      the fresh packet when the side has no such penalty. */
  function SlotBytes(penalties: seq<int>, k: nat): (r: seq<byte>)
    requires k < 2 && PenaltiesEncodable(penalties)
    ensures |r| == 4
  {
    if |penalties| > k then PenaltyBytes(penalties[k]) else Zeros(4)
  }

  /** Byte `i` of the packet `_generate_packet` builds: a zeroed 80-byte buffer framed by
      STX and ETX, with the type byte at 1 and each field at its fixed offset. */
  function PacketByte(state: GameData, clockPacket: bool, i: nat): byte
    requires Encodable(state, clockPacket) && i < 80
  {
    if i == 0 then STX
    else if i == 79 then ETX
    else if clockPacket then
      if i == 1 then ClockType
      else if 2 <= i < 6 then ClockBytes(state.clock)[i - 2]
      else 0
    else if i == 1 then ScoreType
    else if 13 <= i < 16 then ScoreBytes(state.homeScore)[i - 13]
    else if 29 <= i < 32 then ScoreBytes(state.awayScore)[i - 29]
    else if i == 45 then PeriodBytes(state.period)[0]
    else if 52 <= i < 56 then SlotBytes(state.homePenalties, 0)[i - 52]
    else if 57 <= i < 61 then SlotBytes(state.homePenalties, 1)[i - 57]
    else if 62 <= i < 66 then SlotBytes(state.awayPenalties, 0)[i - 62]
    else if 67 <= i < 71 then SlotBytes(state.awayPenalties, 1)[i - 67]
    else 0
  }

  /** `_generate_packet`: the 80 bytes appended to the port's input buffer. */
  function EncodePacket(state: GameData, clockPacket: bool): (r: seq<byte>)
    requires Encodable(state, clockPacket)
    ensures |r| == MinPacketLength && r[0] == STX && r[79] == ETX
    ensures r[1] == if clockPacket then ClockType else ScoreType
  {
    seq(80, i requires 0 <= i < 80 => PacketByte(state, clockPacket, i))
  }

  // ---------------------------------------------------------------- the round trip

  /** A stretch of the packet is the bytes the layout puts there. */
  lemma Window(state: GameData, clockPacket: bool, at: nat, bytes: seq<byte>)
    requires Encodable(state, clockPacket) && at + |bytes| <= 80
    requires forall j :: 0 <= j < |bytes| ==> PacketByte(state, clockPacket, at + j) == bytes[j]
    ensures EncodePacket(state, clockPacket)[at..at + |bytes|] == bytes
  {
  }

  /** Where the scores of a full-state packet land, columns 13-14 and 29-30, and what the
      parser reads there. */
  lemma ScoreColumns(state: GameData, at: nat, score: int)
    requires Encodable(state, false)
    requires (at == 13 && score == state.homeScore) || (at == 29 && score == state.awayScore)
    ensures EncodePacket(state, false)[at..at + 2] == AsciiEncode(SpacePad2(score))
    ensures ScoreField(EncodePacket(state, false)[at..at + 2]) == Some(score)
  {
    var bytes := ScoreBytes(score)[..2];
    if at == 13 {
      Window(state, false, 13, bytes);
    } else {
      Window(state, false, 29, bytes);
    }
    ScoreFieldReads(score);
  }

  /** Where the period of a full-state packet lands, column 45, and what the parser reads there. */
  lemma PeriodColumn(state: GameData)
    requires Encodable(state, false)
    ensures EncodePacket(state, false)[45..46] == PeriodBytes(state.period)
    ensures PeriodField(EncodePacket(state, false)[45..46]) == Some(PeriodRead(state.period))
  {
    Window(state, false, 45, PeriodBytes(state.period));
  }

  /** Where the penalty slots of a full-state packet land: 52 and 57 for the home side,
      62 and 67 for the away side. */
  lemma SlotColumns(state: GameData, at: nat, penalties: seq<int>, k: nat)
    requires Encodable(state, false)
    requires || (at == 52 && penalties == state.homePenalties && k == 0)
             || (at == 57 && penalties == state.homePenalties && k == 1)
             || (at == 62 && penalties == state.awayPenalties && k == 0)
             || (at == 67 && penalties == state.awayPenalties && k == 1)
    ensures EncodePacket(state, false)[at..at + 4] == SlotBytes(penalties, k)
  {
    Window(state, false, at, SlotBytes(penalties, k));
  }

  /** The two penalty slots of one side, at `at` and `at + 5`, read back as the running
      penalties among its first two. */
  lemma SideSlotsRead(state: GameData, at: nat, penalties: seq<int>)
    requires Encodable(state, false)
    requires (at == 52 && penalties == state.homePenalties) || (at == 62 && penalties == state.awayPenalties)
    ensures var p := EncodePacket(state, false);
      Present([ParseMmss(p[at..at + 4]), ParseMmss(p[at + 5..at + 9])]) == Running(FirstTwo(penalties))
  {
    SlotColumns(state, at, penalties, 0);
    SlotColumns(state, at + 5, penalties, 1);
    SlotsDecode(penalties);
  }

  /** Where the clock of a clock packet lands. */
  lemma ClockLayout(state: GameData)
    requires Encodable(state, true)
    ensures EncodePacket(state, true)[2..6] == ClockBytes(state.clock)
  {
    Window(state, true, 2, ClockBytes(state.clock));
  }

  /** A two-column score reads back as itself. */
  lemma ScoreFieldReads(n: int)
    requires -9 <= n <= 99
    ensures ScoreField(AsciiEncode(SpacePad2(n))) == Some(n)
  {
    SpacePad2RoundTrip(n);
  }

  /** A running penalty's bytes are the four digits of its MMSS text. */
  lemma PenaltyBytesDigits(seconds: int)
    requires 0 < seconds < 6000
    ensures var raw := PenaltyBytes(seconds);
      && (forall i :: 0 <= i < 4 ==> IsDigitByte(raw[i]))
      && MmssValue(DigitOf(raw[0]), DigitOf(raw[1]), DigitOf(raw[2]), DigitOf(raw[3])) == seconds
  {
    var raw := PenaltyBytes(seconds);
    var t := PenaltyText(seconds);
    PenaltyTextReads(seconds);
    assert AsciiDecode(raw) == Some(t);
    assert forall i :: 0 <= i < 4 ==> raw[i] as int == t[i] as int;
    assert DigitOf(raw[0]) == DigitValue(t[0]) && DigitOf(raw[1]) == DigitValue(t[1]);
    assert DigitOf(raw[2]) == DigitValue(t[2]) && DigitOf(raw[3]) == DigitValue(t[3]);
  }

  /** A running penalty's MMSS bytes read back as its seconds. */
  lemma PenaltyBytesRead(seconds: int)
    requires 0 < seconds < 6000
    ensures ParseMmss(PenaltyBytes(seconds)) == Some(seconds)
  {
    PenaltyBytesDigits(seconds);
    ParseMmssDigits(PenaltyBytes(seconds));
  }

  /** An expired penalty is written as four blanks, which read as no penalty. */
  lemma ExpiredPenaltyUnread(seconds: int)
    requires seconds <= 0
    ensures ParseMmss(PenaltyBytes(seconds)) == None
  {
    var raw := PenaltyBytes(seconds);
    assert forall i :: 0 <= i < 4 ==> raw[i] == 0x20;
    ParseMmssBlank(raw);
  }

  /** A slot the encoder leaves zeroed reads as no penalty. */
  lemma ZeroSlotUnread()
    ensures ParseMmss(Zeros(4)) == None
  {
    var raw := Zeros(4);
    assert IsStray(raw[0]);
    ParseMmssStray(raw, 0);
  }

  /** A penalty slot reads back as the running penalty written there; a blank slot (an
      expired penalty) and a zeroed slot (no penalty) read as nothing. */
  lemma SlotDecodes(penalties: seq<int>, k: nat)
    requires k < 2 && PenaltiesEncodable(penalties)
    ensures ParseMmss(SlotBytes(penalties, k)) == if |penalties| > k && penalties[k] > 0 then Some(penalties[k]) else None
  {
    if |penalties| <= k {
      ZeroSlotUnread();
    } else if penalties[k] <= 0 {
      ExpiredPenaltyUnread(penalties[k]);
    } else {
      PenaltyBytesRead(penalties[k]);
    }
  }

  /** `[p for p in penalties if p > 0]`: the running penalties, in order. */
  function Running(penalties: seq<int>): (r: seq<int>)
    ensures |r| <= |penalties|
    ensures forall i :: 0 <= i < |r| ==> r[i] > 0
  {
    if penalties == [] then []
    else (if penalties[0] > 0 then [penalties[0]] else []) + Running(penalties[1..])
  }

  /** A list of running penalties is left as it is. */
  lemma {:induction false} RunningKeepsRunning(penalties: seq<int>)
    requires forall i :: 0 <= i < |penalties| ==> penalties[i] > 0
    ensures Running(penalties) == penalties
  {
    if penalties != [] {
      RunningKeepsRunning(penalties[1..]);
      assert [penalties[0]] + penalties[1..] == penalties;
    }
  }

  /** The penalties the encoder looks at: the first two of a side. */
  function FirstTwo(penalties: seq<int>): (r: seq<int>)
    ensures |r| <= 2 && |r| <= |penalties| && r == penalties[..|r|]
    ensures |penalties| <= 2 ==> r == penalties
  {
    if |penalties| <= 2 then penalties else penalties[..2]
  }

  /** The parser's penalty list for one side, spelled out for its two slots. */
  lemma PresentPair(a: Option<int>, b: Option<int>)
    ensures Present([a, b]) == (if a.Some? then [a.value] else []) + (if b.Some? then [b.value] else [])
  {
    assert [a, b][1..] == [b];
    assert [b][1..] == [];
  }

  /** The running penalties among the first two, spelled out. */
  lemma RunningFirstTwo(penalties: seq<int>)
    ensures Running(FirstTwo(penalties)) ==
      (if |penalties| > 0 && penalties[0] > 0 then [penalties[0]] else []) +
      (if |penalties| > 1 && penalties[1] > 0 then [penalties[1]] else [])
  {
    var f := FirstTwo(penalties);
    if |f| == 2 {
      assert f[1..][1..] == [];
      assert Running(f[1..]) == (if f[1] > 0 then [f[1]] else []) + Running([]);
    } else if |f| == 1 {
      assert Running(f[1..]) == [];
    }
  }

  /** The two slots of a side read back as its first two penalties, the expired ones dropped. */
  lemma SlotsDecode(penalties: seq<int>)
    requires PenaltiesEncodable(penalties)
    ensures Present([ParseMmss(SlotBytes(penalties, 0)), ParseMmss(SlotBytes(penalties, 1))]) == Running(FirstTwo(penalties))
  {
    SlotDecodes(penalties, 0);
    SlotDecodes(penalties, 1);
    PresentPair(ParseMmss(SlotBytes(penalties, 0)), ParseMmss(SlotBytes(penalties, 1)));
    RunningFirstTwo(penalties);
  }

  /** What the parser makes of the period byte: the character itself, or "1" for whitespace. */
  function PeriodRead(period: string): (r: string)
    requires |period| > 0 && period[0] as int < 128
    ensures |r| == 1 && !IsSpace(r[0])
  {
    if IsSpace(period[0]) then "1" else [period[0]]
  }

  /** A full-state packet decodes to the state it was encoded from: the scores, the first
      character of the period, and the running penalties among the first two of each side.
      The clock is the one the parser already holds. */
  lemma ScorePacketRoundTrip(state: GameData, clock: string)
    requires Encodable(state, false)
    ensures Decoded(EncodePacket(state, false), clock) ==
      Some(GameData(state.homeScore, state.awayScore, PeriodRead(state.period), clock,
                    Running(FirstTwo(state.homePenalties)), Running(FirstTwo(state.awayPenalties))))
  {
    var p := EncodePacket(state, false);
    ScoreColumns(state, 13, state.homeScore);
    ScoreColumns(state, 29, state.awayScore);
    PeriodColumn(state);
    SideSlotsRead(state, 52, state.homePenalties);
    SideSlotsRead(state, 62, state.awayPenalties);
    DecodedFields(p, clock, state.homeScore, state.awayScore, PeriodRead(state.period));
  }

  /** A full-state packet leaves the parser's clock where it was. */
  lemma ScorePacketKeepsClock(state: GameData, clock: string)
    requires Encodable(state, false)
    ensures NextClock(EncodePacket(state, false), clock) == clock
  {
    KeepsClock(EncodePacket(state, false), clock);
  }

  /** A clock packet decodes to no game data; it moves the parser's clock to the four
      characters left once the colons are dropped, re-read as "MM:SS", unless there are
      fewer than four or the first or last is whitespace. */
  lemma ClockPacketRoundTrip(state: GameData, clock: string)
    requires Encodable(state, true)
    ensures Decoded(EncodePacket(state, true), clock) == None
    ensures var t := RemoveColons(state.clock);
      NextClock(EncodePacket(state, true), clock) ==
        if |t| == 4 && !IsSpace(t[0]) && !IsSpace(t[3]) then t[..2] + ":" + t[2..] else clock
  {
    ClockLayout(state);
    var t := RemoveColons(state.clock);
    var raw := ClockBytes(state.clock);
    var e := AsciiEncode(t);
    assert forall i :: 0 <= i < |t| ==> raw[i] as int == t[i] as int;
    if |t| == 4 {
      assert [raw[0] as char, raw[1] as char, ':', raw[2] as char, raw[3] as char] == t[..2] + ":" + t[2..];
    } else {
      assert raw[3] == 0x20;
    }
  }

  /** What a simulated game looks like after the round trip through a full-state packet:
      everything but the clock, which a full-state packet does not carry. */
  lemma SimulatedScoreRoundTrip(cfg: Config, s: Sim, clock: string)
    requires WellFormed(cfg, s) && s.homeScore <= 99 && s.awayScore <= 99
    ensures Encodable(View(s), false)
    ensures Decoded(EncodePacket(View(s), false), clock) == Some(View(s).(clock := clock))
  {
    var v := View(s);
    ScorePacketRoundTrip(v, clock);
    RunningKeepsRunning(s.homePenalties);
    RunningKeepsRunning(s.awayPenalties);
    assert PeriodRead(v.period) == v.period;
  }

  /** The simulated clock survives a clock packet: the parser's clock becomes the
      simulator's "MM:SS" text. */
  lemma SimulatedClockRoundTrip(s: Sim, clock: string)
    requires 0 <= s.clockSeconds < 6000
    ensures Encodable(View(s), true)
    ensures Decoded(EncodePacket(View(s), true), clock) == None
    ensures NextClock(EncodePacket(View(s), true), clock) == ClockText(s.clockSeconds)
  {
    ClockTextCut(s.clockSeconds);
    ClockPacketRoundTrip(View(s), clock);
  }

  /** Below 100 minutes, the clock text without its colon is four digits, and the parser's
      re-insertion of the colon after the second gives the clock text back. */
  lemma ClockTextCut(seconds: int)
    requires 0 <= seconds < 6000
    ensures var text := ClockText(seconds); var t := RemoveColons(text);
      && IsAsciiText(text) && |t| == 4 && !IsSpace(t[0]) && !IsSpace(t[3])
      && t[..2] + ":" + t[2..] == text
  {
    var mm, ss := ZeroPad2(seconds / 60), ZeroPad2(seconds % 60);
    ZeroPad2Digits(seconds / 60);
    ZeroPad2Digits(seconds % 60);
    ColonCut(mm, ss);
  }

  /** Two digits, a colon and two digits: without the colon, four digits that the parser
      cuts back at the colon's place. */
  lemma ColonCut(mm: string, ss: string)
    requires |mm| == 2 && |ss| == 2
    requires IsDigit(mm[0]) && IsDigit(mm[1]) && IsDigit(ss[0]) && IsDigit(ss[1])
    ensures var text := mm + ":" + ss; var t := RemoveColons(text);
      && IsAsciiText(text) && |t| == 4 && !IsSpace(t[0]) && !IsSpace(t[3])
      && t[..2] + ":" + t[2..] == text
  {
    DigitPairPlain(mm);
    DigitPairPlain(ss);
    ColonDropped(mm, ss);
    var t := mm + ss;
    assert t[..2] == mm && t[2..] == ss;
    AsciiJoin(mm, ":");
    AsciiJoin(mm + ":", ss);
  }

  /** The one colon between two colon-free pieces is the only thing removed. */
  lemma ColonDropped(a: string, b: string)
    requires RemoveColons(a) == a && RemoveColons(b) == b
    ensures RemoveColons(a + ":" + b) == a + b
  {
    assert a + ":" + b == a + (":" + b);
    RemoveColonsConcat(a, ":" + b);
    RemoveColonsSkip(b);
  }

  /** Two digits hold no colon and no whitespace, and colon removal leaves them alone. */
  lemma DigitPairPlain(d: string)
    requires |d| == 2 && IsDigit(d[0]) && IsDigit(d[1])
    ensures RemoveColons(d) == d
    ensures !IsSpace(d[0]) && !IsSpace(d[1]) && IsAsciiText(d)
  {
    assert d == [d[0], d[1]];
    RemoveColonsNone(d);
  }

  /** A leading colon is dropped. */
  lemma RemoveColonsSkip(rest: string)
    ensures RemoveColons(":" + rest) == RemoveColons(rest)
  {
    var text := ":" + rest;
    assert text[0] == ':' && text[1..] == rest;
  }

  // ---------------------------------------------------------------- framing

  /** No character of the text is the ETX control character. */
  predicate NoEtxChar(text: string) {
    forall i :: 0 <= i < |text| ==> text[i] as int != ETX as int
  }

  /** What keeps an encoded packet a single frame: no ETX among the clock characters a
      clock packet carries, and none as the period character of a full-state packet. */
  predicate FrameSafe(state: GameData, clockPacket: bool) {
    if clockPacket then NoEtxChar(state.clock) else |state.period| > 0 && state.period[0] as int != ETX as int
  }

  lemma {:induction false} RemoveColonsNoEtx(text: string)
    requires NoEtxChar(text)
    ensures NoEtxChar(RemoveColons(text))
    decreases |text|
  {
    if text != [] {
      assert NoEtxChar(text[1..]) by {
        assert forall i :: 1 <= i < |text| ==> text[1..][i - 1] == text[i];
      }
      RemoveColonsNoEtx(text[1..]);
      var head: string := if text[0] == ':' then [] else [text[0]];
      var r := RemoveColons(text);
      assert r == head + RemoveColons(text[1..]);
      assert forall i :: |head| <= i < |r| ==> r[i] == RemoveColons(text[1..])[i - |head|];
    }
  }

  lemma ScoreBytesNoEtx(n: int)
    requires -9 <= n <= 99
    ensures forall j :: 0 <= j < 3 ==> ScoreBytes(n)[j] != ETX
  {
    var t := SpacePad2(n) + " ";
    SpacePad2RoundTrip(n);
    assert IsAsciiText(t);
    assert AsciiDecode(ScoreBytes(n)) == Some(t);
    assert forall j :: 0 <= j < 3 ==> IsDigit(t[j]) || t[j] == '-' || t[j] == ' ';
  }

  lemma SlotNoEtx(penalties: seq<int>, k: nat)
    requires k < 2 && PenaltiesEncodable(penalties)
    ensures forall j :: 0 <= j < 4 ==> SlotBytes(penalties, k)[j] != ETX
  {
    if |penalties| > k {
      var seconds := penalties[k];
      var t := PenaltyText(seconds);
      assert AsciiDecode(PenaltyBytes(seconds)) == Some(t);
      if seconds > 0 {
        PenaltyTextReads(seconds);
      }
      assert forall j :: 0 <= j < 4 ==> IsDigit(t[j]) || t[j] == ' ';
    }
  }

  lemma ClockBytesNoEtx(clock: string)
    requires IsAsciiText(clock) && |RemoveColons(clock)| <= 4 && NoEtxChar(clock)
    ensures forall j :: 0 <= j < 4 ==> ClockBytes(clock)[j] != ETX
  {
    var t := RemoveColons(clock);
    RemoveColonsNoEtx(clock);
    assert AsciiDecode(AsciiEncode(t)) == Some(t);
  }

  /** An encoded packet is one complete frame: STX first, ETX last and nowhere else. */
  lemma EncodedIsFrame(state: GameData, clockPacket: bool)
    requires Encodable(state, clockPacket) && FrameSafe(state, clockPacket)
    ensures IsFrame(EncodePacket(state, clockPacket))
  {
    if clockPacket {
      ClockBytesNoEtx(state.clock);
    } else {
      ScoreBytesNoEtx(state.homeScore);
      ScoreBytesNoEtx(state.awayScore);
      SlotNoEtx(state.homePenalties, 0);
      SlotNoEtx(state.homePenalties, 1);
      SlotNoEtx(state.awayPenalties, 0);
      SlotNoEtx(state.awayPenalties, 1);
    }
    var p := EncodePacket(state, clockPacket);
    assert forall i :: 0 <= i < 79 ==> p[i] == PacketByte(state, clockPacket, i);
  }

  /** The encoded packets of a run of states, in order. */
  function EncodeAll(states: seq<GameData>, kinds: seq<bool>): (r: seq<seq<byte>>)
    requires |states| == |kinds| && forall i :: 0 <= i < |states| ==> Encodable(states[i], kinds[i])
    ensures |r| == |states|
    ensures forall i :: 0 <= i < |r| ==> r[i] == EncodePacket(states[i], kinds[i])
  {
    seq(|states|, i requires 0 <= i < |states| => EncodePacket(states[i], kinds[i]))
  }

  /** Packets the fake port writes back to back come out of the parser's extraction as
      exactly those packets, with nothing left over. */
  lemma GeneratedStreamSplits(states: seq<GameData>, kinds: seq<bool>)
    requires |states| == |kinds|
    requires forall i :: 0 <= i < |states| ==> Encodable(states[i], kinds[i]) && FrameSafe(states[i], kinds[i])
    ensures Extract(Concat(EncodeAll(states, kinds))) == (EncodeAll(states, kinds), [])
  {
    var packets := EncodeAll(states, kinds);
    forall i | 0 <= i < |packets| ensures IsFrame(packets[i]) {
      EncodedIsFrame(states[i], kinds[i]);
    }
    ExtractConcatenation(packets);
  }

  /** Text joined from ETX-free pieces is ETX-free. */
  lemma NoEtxJoin(a: string, b: string)
    requires NoEtxChar(a) && NoEtxChar(b)
    ensures NoEtxChar(a + b)
  {
    forall i | 0 <= i < |a + b| ensures (a + b)[i] as int != ETX as int {
      if i >= |a| { assert (a + b)[i] == b[i - |a|]; }
    }
  }

  /** A zero-padded number is digits after an optional sign, so it holds no ETX. */
  lemma ZeroPad2NoEtx(n: int)
    ensures NoEtxChar(ZeroPad2(n))
  {
  }

  /** The simulator's clock text, for any number of seconds, holds no ETX. */
  lemma ClockTextNoEtx(seconds: int)
    ensures NoEtxChar(ClockText(seconds))
  {
    ZeroPad2NoEtx(seconds / 60);
    ZeroPad2NoEtx(seconds % 60);
    NoEtxJoin(ZeroPad2(seconds / 60), ":");
    NoEtxJoin(ZeroPad2(seconds / 60) + ":", ZeroPad2(seconds % 60));
  }

  /** Whatever state the simulator is in, its view is safe to frame as either packet kind:
      the clock is digits, signs and a colon, and the period starts with a digit, a sign
      or the 'O' of "OT". */
  lemma SimulatedFrameSafe(s: Sim)
    ensures FrameSafe(View(s), true) && FrameSafe(View(s), false)
  {
    ClockTextNoEtx(s.clockSeconds);
  }

  /** The views of a run of simulator states, in order. */
  function Views(sims: seq<Sim>): (r: seq<GameData>)
    ensures |r| == |sims| && forall i :: 0 <= i < |sims| ==> r[i] == View(sims[i])
  {
    seq(|sims|, i requires 0 <= i < |sims| => View(sims[i]))
  }

  /** The packet stream the fake port writes for simulator states comes out of the parser's
      extraction as exactly those packets, with nothing left over; no framing premise is
      needed, because every simulator view is frame-safe. */
  lemma SimulatedStreamSplits(sims: seq<Sim>, kinds: seq<bool>)
    requires |sims| == |kinds|
    requires forall i :: 0 <= i < |sims| ==> Encodable(View(sims[i]), kinds[i])
    ensures Extract(Concat(EncodeAll(Views(sims), kinds))) == (EncodeAll(Views(sims), kinds), [])
  {
    var states := Views(sims);
    forall i | 0 <= i < |states| ensures FrameSafe(states[i], kinds[i]) {
      SimulatedFrameSafe(sims[i]);
    }
    GeneratedStreamSplits(states, kinds);
  }

  // ---------------------------------------------------------------- the fake port

  /** `packet[at:at + len(bytes)] = bytes` on the packet buffer, for a slice of the same length. */
  method Put(a: array<byte>, at: nat, bytes: seq<byte>)
    requires at + |bytes| <= a.Length
    modifies a
    ensures forall i :: 0 <= i < a.Length ==> a[i] == if at <= i < at + |bytes| then bytes[i - at] else old(a[i])
  {
    for j := 0 to |bytes|
      invariant forall i :: 0 <= i < a.Length ==> a[i] == if at <= i < at + j then bytes[i - at] else old(a[i])
    {
      a[at + j] := bytes[j];
    }
  }

  /** The packet buffer holds its final bytes from position 2 up to `upTo`, and is still
      zero from there on. */
  ghost predicate Built(a: array<byte>, state: GameData, clockPacket: bool, upTo: nat)
    requires Encodable(state, clockPacket)
    reads a
  {
    && a.Length == 80 && upTo <= 79
    && (forall i :: 2 <= i < upTo ==> a[i] == PacketByte(state, clockPacket, i))
    && (forall i :: upTo <= i < 80 ==> a[i] == 0)
  }

  /** The clock, score and period fields: where each starts, and where the zero bytes that
      follow it end. */
  predicate FieldAt(state: GameData, clockPacket: bool, at: nat, bytes: seq<byte>, upTo: nat)
    requires Encodable(state, clockPacket)
  {
    || (clockPacket && at == 2 && bytes == ClockBytes(state.clock) && upTo == 79)
    || (!clockPacket && at == 13 && bytes == ScoreBytes(state.homeScore) && upTo == 29)
    || (!clockPacket && at == 29 && bytes == ScoreBytes(state.awayScore) && upTo == 45)
    || (!clockPacket && at == 45 && bytes == PeriodBytes(state.period) && upTo == 52)
  }

  /** The penalty slots: where each starts, and which penalty of which side it holds. */
  predicate SlotAt(state: GameData, at: nat, penalties: seq<int>, k: nat) {
    || (at == 52 && penalties == state.homePenalties && k == 0)
    || (at == 57 && penalties == state.homePenalties && k == 1)
    || (at == 62 && penalties == state.awayPenalties && k == 0)
    || (at == 67 && penalties == state.awayPenalties && k == 1)
  }

  lemma FieldBytes(state: GameData, clockPacket: bool, at: nat, bytes: seq<byte>, upTo: nat)
    requires Encodable(state, clockPacket) && FieldAt(state, clockPacket, at, bytes, upTo)
    ensures 2 <= at && at + |bytes| <= upTo <= 79
    ensures forall j :: 0 <= j < |bytes| ==> PacketByte(state, clockPacket, at + j) == bytes[j]
    ensures forall i :: at + |bytes| <= i < upTo ==> PacketByte(state, clockPacket, i) == 0
  {
  }

  lemma SlotBytesAt(state: GameData, at: nat, penalties: seq<int>, k: nat)
    requires Encodable(state, false) && SlotAt(state, at, penalties, k)
    ensures k < 2 && PenaltiesEncodable(penalties) && 52 <= at && at + 5 <= 72
    ensures forall j :: 0 <= j < 4 ==> PacketByte(state, false, at + j) == SlotBytes(penalties, k)[j]
    ensures forall i :: at + 4 <= i < (if at == 67 then 79 else at + 5) ==> PacketByte(state, false, i) == 0
  {
  }

  /** One field written into the packet buffer at its offset. */
  method PutField(a: array<byte>, state: GameData, clockPacket: bool, at: nat, bytes: seq<byte>, upTo: nat)
    requires Encodable(state, clockPacket) && FieldAt(state, clockPacket, at, bytes, upTo)
    requires Built(a, state, clockPacket, at)
    modifies a
    ensures Built(a, state, clockPacket, upTo)
    ensures a[0] == old(a[0]) && a[1] == old(a[1])
  {
    FieldBytes(state, clockPacket, at, bytes, upTo);
    Put(a, at, bytes);
  }

  /** Penalty slot `k` of a side, written only when the side has that many penalties; a
      missing one leaves the zero bytes of the fresh buffer. */
  method PutSlot(a: array<byte>, state: GameData, at: nat, penalties: seq<int>, k: nat)
    requires Encodable(state, false) && SlotAt(state, at, penalties, k)
    requires Built(a, state, false, at)
    modifies a
    ensures Built(a, state, false, if at == 67 then 79 else at + 5)
    ensures a[0] == old(a[0]) && a[1] == old(a[1])
  {
    SlotBytesAt(state, at, penalties, k);
    if |penalties| > k {
      Put(a, at, PenaltyBytes(penalties[k]));
    }
  }

  /** How many bytes `buffer[:size]` takes from a buffer of `n` bytes: Python clamps the
      bound to the buffer, and a negative bound counts from the end. */
  function SliceBound(n: nat, size: int): (k: nat)
    ensures k <= n
    ensures size >= 0 ==> k == if size < n then size else n
    ensures size < 0 ==> k == if n + size > 0 then n + size else 0
  {
    if size >= 0 then (if size < n then size else n)
    else if n + size > 0 then n + size else 0
  }

  /** `FakeSerial`: a serial port whose input buffer the simulator fills with packets. */
  class FakeSerial {
    const simulator: GameSimulator
    var buffer: seq<byte>

    /** The port with its default simulator (20-minute periods, goals every 30 to 90
        seconds); `firstGoal` is the draw that arms the first goal. */
    constructor (firstGoal: int)
      requires 30 <= firstGoal <= 90
      ensures fresh(simulator) && buffer == []
      ensures simulator.Cfg() == Config(1200, 30, 90)
      ensures simulator.Snapshot() == Initial(simulator.Cfg(), firstGoal)
    {
      simulator := new GameSimulator(1200, 30, 90, firstGoal);
      buffer := [];
    }

    /** `_generate_packet`: encodes the state as a clock packet or a full-state packet
        (the random choice is the parameter) and appends it to the input buffer. */
    method GeneratePacket(state: GameData, clockPacket: bool)
      requires Encodable(state, clockPacket)
      modifies this`buffer
      ensures buffer == old(buffer) + EncodePacket(state, clockPacket)
    {
      var packet := new byte[80](_ => 0);
      packet[0] := STX;
      if clockPacket {
        packet[1] := ClockType;
        PutField(packet, state, true, 2, ClockBytes(state.clock), 79);
      } else {
        packet[1] := ScoreType;
        PutField(packet, state, false, 13, ScoreBytes(state.homeScore), 29);
        PutField(packet, state, false, 29, ScoreBytes(state.awayScore), 45);
        PutField(packet, state, false, 45, PeriodBytes(state.period), 52);
        PutSlot(packet, state, 52, state.homePenalties, 0);
        PutSlot(packet, state, 57, state.homePenalties, 1);
        PutSlot(packet, state, 62, state.awayPenalties, 0);
        PutSlot(packet, state, 67, state.awayPenalties, 1);
      }
      assert packet[0] == STX;
      packet[79] := ETX;
      assert forall i :: 0 <= i < 80 ==> packet[i] == PacketByte(state, clockPacket, i);
      assert packet[..] == EncodePacket(state, clockPacket);
      buffer := buffer + packet[..];
    }

    /** `read`: takes up to `size` bytes off the front of the input buffer. */
    method Read(size: int) returns (data: seq<byte>)
      modifies this`buffer
      ensures data + buffer == old(buffer)
      ensures |data| == SliceBound(|old(buffer)|, size)
    {
      if |buffer| == 0 {
        return [];
      }
      var k := SliceBound(|buffer|, size);
      data := buffer[..k];
      buffer := buffer[k..];
    }

    /** `write`: nothing is sent; the whole of `data` is reported written. */
    method Write(data: seq<byte>) returns (n: nat)
      ensures n == |data|
    {
      n := |data|;
    }

    /** `in_waiting`: the bytes ready to be read. */
    function InWaiting(): (n: nat)
      reads this`buffer
      ensures n == |buffer|
    {
      |buffer|
    }

    /** `reset_input_buffer`: drops everything not yet read. */
    method ResetInputBuffer()
      modifies this`buffer
      ensures buffer == []
    {
      buffer := [];
    }
  }
}
