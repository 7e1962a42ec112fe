/**
 * The page of app/game/papope/page.tsx: the five-phase session machine
 * around one game (name entry, intro, countdown, play, result), the request
 * it sends to the score route when a game ends, and the pure text of the
 * result screen.
 */
module PapopePage {
  import opened Options
  import opened JsText
  import ScoresRoute

  datatype Phase = NameInput | Intro | Countdown | Playing | Result

  /** The phase each transition leads to; the cycle closes at the result screen. */
  function Next(p: Phase): (q: Phase)
    ensures q != p
    ensures p == NameInput <==> q == Intro
    ensures p == Result <==> q == NameInput
  {
    match p
    case NameInput => Intro
    case Intro => Countdown
    case Countdown => Playing
    case Playing => Result
    case Result => NameInput
  }

  /** The `slice(0, 32)` (and `maxLength`) of the name field. */
  const MaxInputLength: nat := 32

  /** `String(n)` for a non-negative integer: its decimal digits. */
  function DecimalText(n: nat): JsString {
    if n < 10 then [0x30 + n] else DecimalText(n / 10) + [0x30 + n % 10]
  }

  /** The JSON body `handleGameEnd` posts: the player's name, the final score, "papope". */
  function ScoreRequest(playerName: JsString, finalScore: nat): (b: ScoresRoute.Body)
    ensures b.playerName == ScoresRoute.Str(playerName)
    ensures b.score.Number? && b.score.n == finalScore as real
    ensures b.game == ScoresRoute.Str(ScoresRoute.DefaultGame)
  {
    ScoresRoute.Body(ScoresRoute.Str(playerName),
                     ScoresRoute.Number(finalScore as real, DecimalText(finalScore)),
                     ScoresRoute.Str(ScoresRoute.DefaultGame))
  }

  /**
   * The name check of the score route never rejects what the page sends once
   * a game has been played, and leaves the page's (already trimmed, at most
   * 32 code units) name exactly as it is.
   */
  lemma PageRequestAccepted(playerName: JsString, finalScore: nat)
    requires playerName != [] && |playerName| <= MaxInputLength && Trim(playerName) == playerName
    ensures ScoresRoute.Validate(ScoreRequest(playerName, finalScore))
      == Ok(ScoresRoute.Payload(playerName, finalScore as real, ScoresRoute.Str(ScoresRoute.DefaultGame)))
  {
    assert Slice(playerName, ScoresRoute.MaxNameLength) == playerName;
    assert ScoresRoute.Sanitize(playerName) == playerName;
  }

  /**
   * The page's state. `countdownTimer` is the pending timer that shows the
   * countdown; `playTimer` the one that starts the game at its end. The
   * intro-music timer and the 2/1 digit timers change no modelled state.
   */
  class Page {
    var phase: Phase
    var playerName: JsString
    var nameInput: JsString
    var score: nat
    var isNewBest: bool
    var rank: Option<int>
    var leaderboardKey: nat
    var countdownTimer: bool
    var playTimer: bool

    ghost predicate Valid()
      reads this
    {
      && |nameInput| <= MaxInputLength
      && |playerName| <= MaxInputLength
      && Trim(playerName) == playerName
      && (phase != NameInput ==> playerName != [])
      && (countdownTimer <==> phase == Intro)
      && (playTimer <==> phase == Countdown)
      && (phase != Result ==> score == 0 && !isNewBest && rank == None)
    }

    /** The initial state of every `useState` hook. */
    constructor ()
      ensures Valid()
      ensures phase == NameInput && playerName == [] && nameInput == []
      ensures score == 0 && !isNewBest && rank == None && leaderboardKey == 0
      ensures !countdownTimer && !playTimer
    {
      phase := NameInput;
      playerName := [];
      nameInput := [];
      score := 0;
      isNewBest := false;
      rank := None;
      leaderboardKey := 0;
      countdownTimer := false;
      playTimer := false;
    }

    /** The name field's change handler: it keeps the first 32 code units of what was typed. */
    method EditName(value: JsString)
      requires Valid() && phase == NameInput
      modifies this
      ensures Valid()
      ensures nameInput == Slice(value, MaxInputLength) && |nameInput| <= MaxInputLength
      ensures phase == old(phase) && playerName == old(playerName) && score == old(score)
      ensures isNewBest == old(isNewBest) && rank == old(rank) && leaderboardKey == old(leaderboardKey)
      ensures countdownTimer == old(countdownTimer) && playTimer == old(playTimer)
    {
      nameInput := Slice(value, MaxInputLength);
    }

    /**
     * `startIntro`, from the button or the Enter key: nothing happens for a
     * name that trims to nothing; otherwise the trimmed name becomes the
     * player's name, the phase becomes intro, earlier timers are cleared and
     * the countdown timer is armed.
     */
    method StartIntro()
      requires Valid() && phase == NameInput
      modifies this
      ensures Valid()
      ensures Trim(old(nameInput)) == [] ==>
        phase == NameInput && playerName == old(playerName) && !countdownTimer && !playTimer
      ensures Trim(old(nameInput)) != [] ==>
        phase == Next(old(phase)) && playerName == Trim(old(nameInput)) && countdownTimer && !playTimer
      ensures nameInput == old(nameInput) && score == old(score) && isNewBest == old(isNewBest)
      ensures rank == old(rank) && leaderboardKey == old(leaderboardKey)
    {
      var trimmed := Trim(nameInput);
      if trimmed == [] {
        return;
      }
      TrimIdempotent(nameInput);
      playerName := trimmed;
      phase := Intro;
      // in name entry no timer is pending, so clearing them changes nothing
      countdownTimer := true;
    }

    /** The timer 3.5 s into the intro: it shows the countdown and arms the timer that starts play. */
    method CountdownTimerFires()
      requires Valid() && countdownTimer
      modifies this
      ensures Valid()
      ensures old(phase) == Intro && phase == Countdown && phase == Next(old(phase))
      ensures !countdownTimer && playTimer
      ensures playerName == old(playerName) && nameInput == old(nameInput) && score == old(score)
      ensures isNewBest == old(isNewBest) && rank == old(rank) && leaderboardKey == old(leaderboardKey)
    {
      countdownTimer := false;
      phase := Countdown;
      playTimer := true;
    }

    /** The timer at the end of the countdown: the game starts. */
    method PlayTimerFires()
      requires Valid() && playTimer
      modifies this
      ensures Valid()
      ensures old(phase) == Countdown && phase == Playing && phase == Next(old(phase))
      ensures !countdownTimer && !playTimer
      ensures playerName == old(playerName) && nameInput == old(nameInput) && score == old(score)
      ensures isNewBest == old(isNewBest) && rank == old(rank) && leaderboardKey == old(leaderboardKey)
    {
      playTimer := false;
      phase := Playing;
    }

    /**
     * `handleGameEnd`, the game's end callback: the final score is shown at once
     * and the result phase begins; then the route's reply (None when the fetch
     * or its JSON decoding throws) supplies `isNewBest ?? false` and
     * `rank ?? null`, and a decoded reply refreshes the leaderboard. The
     * request it answers is `ScoreRequest(playerName, finalScore)`.
     */
    method HandleGameEnd(finalScore: nat, reply: Option<ScoresRoute.Response>)
      requires Valid() && phase == Playing
      modifies this
      ensures Valid()
      ensures phase == Result && phase == Next(old(phase)) && score == finalScore
      ensures reply.Some? && reply.value.Saved? ==>
        isNewBest == reply.value.isNewBest && rank == Some(reply.value.rank)
      ensures (reply.None? || !reply.value.Saved?) ==> !isNewBest && rank == None
      ensures leaderboardKey == if reply.Some? then old(leaderboardKey) + 1 else old(leaderboardKey)
      ensures playerName == old(playerName) && nameInput == old(nameInput)
      ensures !countdownTimer && !playTimer
    {
      score := finalScore;
      phase := Result;
      if reply.None? {
        return;
      }
      match reply.value {
        case Saved(_, nb, rk) =>
          isNewBest := nb;
          rank := Some(rk);
        case BadRequest(_) =>
          isNewBest := false;
          rank := None;
        case ServerError(_) =>
          isNewBest := false;
          rank := None;
      }
      leaderboardKey := leaderboardKey + 1;
    }

    /**
     * `handleReplay`, the result screen's button: timers cleared, score,
     * new-best flag and rank reset, back to name entry with the field
     * pre-filled with the last player's name.
     */
    method HandleReplay()
      requires Valid() && phase == Result
      modifies this
      ensures Valid()
      ensures phase == Next(old(phase)) && nameInput == old(playerName) && playerName == old(playerName)
      ensures score == 0 && !isNewBest && rank == None
      ensures !countdownTimer && !playTimer && leaderboardKey == old(leaderboardKey)
    {
      countdownTimer := false;
      playTimer := false;
      score := 0;
      isNewBest := false;
      rank := None;
      phase := NameInput;
      nameInput := playerName;
    }
  }

  /** The lower ends of the result screen's score bands beyond the first (score 0). */
  const Thresholds: seq<int> := [1, 5, 10, 20, 40]

  /** The result screen's messages, band by band. */
  const Messages: seq<string> :=
    ["...vraiment ?", "C'est un début.", "Pas mal du tout.",
     "Tu as des doigts agiles.", "Impressionnant.", "Tu es le Papope."]

  /** How many of the thresholds `t` lie at or below `score`. */
  function CountAtMost(ts: seq<int>, score: int): (n: nat)
    ensures n <= |ts|
  {
    if ts == [] then 0
    else (if ts[0] <= score then 1 else 0) + CountAtMost(ts[1..], score)
  }

  /** The band of a score: 0 for 0, 1 for 1-4, 2 for 5-9, 3 for 10-19, 4 for 20-39, 5 from 40. */
  function Band(score: int): (b: nat)
    ensures b < |Messages|
  {
    CountAtMost(Thresholds, score)
  }

  /** `getMessage`, the result screen's comment on the score. */
  function GetMessage(score: int): string {
    if score == 0 then "...vraiment ?"
    else if score < 5 then "C'est un début."
    else if score < 10 then "Pas mal du tout."
    else if score < 20 then "Tu as des doigts agiles."
    else if score < 40 then "Impressionnant."
    else "Tu es le Papope."
  }

  /** The bands spelled out: thresholds 1, 5, 10, 20 and 40. */
  lemma BandValue(score: int)
    ensures Band(score) ==
      if score < 1 then 0 else if score < 5 then 1 else if score < 10 then 2
      else if score < 20 then 3 else if score < 40 then 4 else 5
  {
    assert Thresholds[1..] == [5, 10, 20, 40];
    assert [5, 10, 20, 40][1..] == [10, 20, 40];
    assert [10, 20, 40][1..] == [20, 40];
    assert [20, 40][1..] == [40];
    assert [40][1..] == [];
    var c4 := CountAtMost([40], score);
    var c3 := CountAtMost([20, 40], score);
    var c2 := CountAtMost([10, 20, 40], score);
    var c1 := CountAtMost([5, 10, 20, 40], score);
    assert c4 == if score >= 40 then 1 else 0;
    assert c3 == (if score >= 20 then 1 else 0) + c4;
    assert c2 == (if score >= 10 then 1 else 0) + c3;
    assert c1 == (if score >= 5 then 1 else 0) + c2;
    assert Band(score) == (if score >= 1 then 1 else 0) + c1;
  }

  /** For every score the game can produce, the message is the one of its band. */
  lemma GetMessageByBand(score: nat)
    ensures GetMessage(score) == Messages[Band(score)]
  {
    BandValue(score);
  }

  /** Counting thresholds at or below a score can only grow with the score. */
  lemma {:induction false} CountAtMostMonotone(ts: seq<int>, s: int, t: int)
    requires s <= t
    ensures CountAtMost(ts, s) <= CountAtMost(ts, t)
  {
    if ts != [] {
      CountAtMostMonotone(ts[1..], s, t);
    }
  }

  /** A higher score never gets an earlier message: the mapping is a monotone step function. */
  lemma MessageMonotone(s: nat, t: nat)
    requires s <= t
    ensures Band(s) <= Band(t)
    ensures GetMessage(s) == Messages[Band(s)] && GetMessage(t) == Messages[Band(t)]
  {
    CountAtMostMonotone(Thresholds, s, t);
    GetMessageByBand(s);
    GetMessageByBand(t);
  }

  /** The six messages are all different, so two scores share a message exactly when they share a band. */
  lemma SameMessageIffSameBand(s: nat, t: nat)
    ensures GetMessage(s) == GetMessage(t) <==> Band(s) == Band(t)
  {
    GetMessageByBand(s);
    GetMessageByBand(t);
    var i, j := Band(s), Band(t);
    if i != j {
      assert Messages[i] != Messages[j] by {
        assert Messages[i][0] != Messages[j][0] || |Messages[i]| != |Messages[j]|;
      }
    }
  }

  /** A negative score, which the game never produces, falls through to the 1-4 message. */
  lemma NegativeScoreMessage(score: int)
    requires score < 0
    ensures GetMessage(score) == Messages[1] && Band(score) == 0
  {
    BandValue(score);
  }

  /** The unit under the score: singular up to one click, plural above. */
  function ClicLabel(score: int): (r: string)
    ensures r == "clic" <==> score <= 1
    ensures r == "clics" <==> score > 1
  {
    if score <= 1 then "clic" else "clics"
  }
}
