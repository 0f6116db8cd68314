/**
 * The game's reactions to the chess clock: the time-over check, the two
 * translations of a raw button signal into a turn-end event, the game
 * loop's dispatch on that event, and the guarded clock calls.  The clock
 * getters are not part of this model: each call's outcome (a value, or an
 * exception) is a parameter.
 */
module Signals {
  import opened Wrappers

  /** The outcome of calling into the clock: a value, or an exception that was raised. */
  datatype Fetched<T> = Got(value: T) | Threw

  /** A remaining time that has run out: present and at most zero (a missing time never runs out). */
  predicate Expired(t: Option<int>)
  {
    t.Some? && t.value <= 0
  }

  /** Which branch of the time-over check is taken. */
  datatype TimeCheck = BlackFlagged | WhiteFlagged | TimeLeft | CheckFailed

  /**
   * `check_time_over`, as both the clock module and the terminal game
   * write it: both times are fetched first, and a failing getter abandons
   * the check; black's time is examined before white's.
   */
  function TimeOverBranch(black: Fetched<Option<int>>, white: Fetched<Option<int>>): TimeCheck
  {
    if black.Threw? || white.Threw? then CheckFailed
    else if Expired(black.value) then BlackFlagged
    else if Expired(white.value) then WhiteFlagged
    else TimeLeft
  }

  /** The boolean the check returns: the game is over when either side was flagged. */
  function CheckTimeOver(black: Fetched<Option<int>>, white: Fetched<Option<int>>): bool
  {
    TimeOverBranch(black, white) in {BlackFlagged, WhiteFlagged}
  }

  /**
   * Time is over exactly when both getters answer and one of the two
   * times is present and not positive; when both have run out, black is
   * the one reported (so white is declared the winner).
   */
  lemma CheckTimeOverSpec(black: Fetched<Option<int>>, white: Fetched<Option<int>>)
    ensures CheckTimeOver(black, white)
        <==> black.Got? && white.Got? && (Expired(black.value) || Expired(white.value))
    ensures black.Got? && white.Got? && Expired(black.value) ==> TimeOverBranch(black, white) == BlackFlagged
    ensures TimeOverBranch(black, white) == WhiteFlagged ==> black.Got? && !Expired(black.value)
    ensures black.Threw? || white.Threw? ==> !CheckTimeOver(black, white)
  {
  }

  /** A missing time is ignored: with black's time absent only white's decides, and the other way round. */
  lemma MissingTimeIgnored(b: Option<int>, w: Option<int>)
    ensures CheckTimeOver(Got(None), Got(w)) == Expired(w)
    ensures CheckTimeOver(Got(b), Got(None)) == Expired(b)
    ensures !CheckTimeOver(Got(None), Got(None))
  {
  }

  /** Once over, time stays over: less time left on either clock keeps the game over. */
  lemma TimeOverMonotone(b: int, w: int, b2: int, w2: int)
    requires CheckTimeOver(Got(Some(b)), Got(Some(w)))
    requires b2 <= b && w2 <= w
    ensures CheckTimeOver(Got(Some(b2)), Got(Some(w2)))
  {
  }

  const BlackTurnEnd := "black_turn_end"
  const WhiteTurnEnd := "white_turn_end"

  /**
   * `check_timer_button_press`: black's button "P1" ends black's turn,
   * white's button "P2" ends white's; anything else, and a failing read,
   * gives nothing.
   */
  function CheckTimerButtonPress(press: Fetched<Option<string>>): (r: Option<string>)
    ensures r == Some(BlackTurnEnd) <==> press == Got(Some("P1"))
    ensures r == Some(WhiteTurnEnd) <==> press == Got(Some("P2"))
    ensures r == None <==> press !in {Got(Some("P1")), Got(Some("P2"))}
  {
    match press
    case Got(Some(s)) =>
      if s == "P1" then Some(BlackTurnEnd)
      else if s == "P2" then Some(WhiteTurnEnd)
      else None
    case _ => None
  }

  /**
   * `_poll_timer_button` in the game loop: a failing read and a falsy
   * signal (none, or the empty text) give nothing, the two buttons are
   * translated, and any other signal passes through unchanged.
   */
  function PollTimerButton(raw: Fetched<Option<string>>): Option<string>
  {
    match raw
    case Threw => None
    case Got(None) => None
    case Got(Some(s)) =>
      if s == "" then None
      else if s == "P1" then Some(BlackTurnEnd)
      else if s == "P2" then Some(WhiteTurnEnd)
      else Some(s)
  }

  /**
   * The polling translation gives nothing exactly for a failing read or a
   * falsy signal; it agrees with `check_timer_button_press` on the two
   * buttons and differs from it only by passing other signals through.
   */
  lemma PollTimerButtonSpec(raw: Fetched<Option<string>>)
    ensures PollTimerButton(raw) == None <==> raw.Threw? || raw.value == None || raw.value == Some("")
    ensures CheckTimerButtonPress(raw).Some? ==> PollTimerButton(raw) == CheckTimerButtonPress(raw)
    ensures CheckTimerButtonPress(raw).None? && PollTimerButton(raw).Some? ==>
      raw.Got? && PollTimerButton(raw) == raw.value && raw.value !in {Some(""), Some("P1"), Some("P2")}
  {
  }

  /** What the game loop does with one polled event. */
  datatype LoopAction = Idle | AnalysePlayerMove | WaitForRobot

  /**
   * The dispatch in `game_loop`: no event sleeps briefly and polls again;
   * only the end of white's turn starts the analysis of the player's
   * move, and every other event waits.
   */
  function Dispatch(signal: Option<string>): LoopAction
  {
    if signal.None? || signal.value == "" then Idle
    else if signal.value == WhiteTurnEnd then AnalysePlayerMove
    else WaitForRobot
  }

  /**
   * Through the polling translation, the player's move is analysed
   * exactly when white's button "P2" is pressed or the clock itself
   * reports the end of white's turn, and black's button never starts it.
   */
  lemma PlayerMoveTrigger(raw: Fetched<Option<string>>)
    ensures Dispatch(PollTimerButton(raw)) == AnalysePlayerMove
        <==> raw == Got(Some("P2")) || raw == Got(Some(WhiteTurnEnd))
    ensures raw == Got(Some("P1")) ==> Dispatch(PollTimerButton(raw)) == WaitForRobot
    ensures Dispatch(PollTimerButton(raw)) == Idle <==> PollTimerButton(raw) == None
  {
  }

  /**
   * `send_timer_move_command` and `wait_for_timer_completion`: the
   * manager's answer, or false when the call raises.
   */
  function GuardedCall(call: Fetched<bool>): (ok: bool)
    ensures ok <==> call == Got(true)
  {
    match call
    case Got(b) => b
    case Threw => false
  }
}
