/**
 * The monitoring server's shared game state: a dictionary from field
 * names to values that the terminal game updates field by field and that
 * the update endpoint merges posted data into.  The clock is a parameter
 * (`now`, the ISO text of the current time); the web pages and the JSON
 * transport are not modelled.  Times are shown with `Timers.FormatTime`.
 */
module Monitor {
  import opened Wrappers

  /** A JSON-like field value. */
  datatype Value = Text(s: string) | Int(i: int) | Bool(b: bool)

  type State = map<string, Value>

  const StartFen := "rnbqkbnr/pppppppp/8/8/8/8/PPPPPPPP/RNBQKBNR w KQkq - 0 1"
  const LastUpdate := "last_update"

  /** The nine fields the state starts with. */
  const Fields: set<string> := {"board_fen", "black_timer", "white_timer", "current_turn",
    "game_status", "last_move", "move_count", LastUpdate, "is_game_active"}

  /** The state before any game: the start position, ten minutes each, white to move, inactive. */
  function InitialState(now: string): (s: State)
    ensures s.Keys == Fields && s[LastUpdate] == Text(now)
  {
    map["board_fen" := Text(StartFen), "black_timer" := Int(600), "white_timer" := Int(600),
        "current_turn" := Text("white"), "game_status" := Text("게임 준비 중"), "last_move" := Text(""),
        "move_count" := Int(0), LastUpdate := Text(now), "is_game_active" := Bool(false)]
  }

  /** The keyword arguments of `update_game_state`; `None` means "leave this field alone". */
  datatype GameUpdate = GameUpdate(
    boardFen: Option<string>, blackTimer: Option<int>, whiteTimer: Option<int>,
    currentTurn: Option<string>, gameStatus: Option<string>, lastMove: Option<string>,
    moveCount: Option<int>, isGameActive: Option<bool>)

  /** One optional field write. */
  function Put(s: State, key: string, v: Option<Value>): State
  {
    if v.Some? then s[key := v.value] else s
  }

  function TextOf(o: Option<string>): Option<Value> { if o.Some? then Some(Text(o.value)) else None }
  function IntOf(o: Option<int>): Option<Value> { if o.Some? then Some(Int(o.value)) else None }
  function BoolOf(o: Option<bool>): Option<Value> { if o.Some? then Some(Bool(o.value)) else None }

  /** The value the update writes to a field, if it writes one. */
  function Written(u: GameUpdate, key: string): Option<Value>
  {
    if key == "board_fen" then TextOf(u.boardFen)
    else if key == "black_timer" then IntOf(u.blackTimer)
    else if key == "white_timer" then IntOf(u.whiteTimer)
    else if key == "current_turn" then TextOf(u.currentTurn)
    else if key == "game_status" then TextOf(u.gameStatus)
    else if key == "last_move" then TextOf(u.lastMove)
    else if key == "move_count" then IntOf(u.moveCount)
    else if key == "is_game_active" then BoolOf(u.isGameActive)
    else None
  }

  /** The writes of the board, the two clocks and the turn, in the order `update_game_state` makes them. */
  function FirstWrites(s: State, u: GameUpdate): State
  {
    Put(Put(Put(Put(s, "board_fen", TextOf(u.boardFen)), "black_timer", IntOf(u.blackTimer)),
            "white_timer", IntOf(u.whiteTimer)), "current_turn", TextOf(u.currentTurn))
  }

  /** The writes of the status, the last move, the move count and the activity flag. */
  function LaterWrites(s: State, u: GameUpdate): State
  {
    Put(Put(Put(Put(s, "game_status", TextOf(u.gameStatus)), "last_move", TextOf(u.lastMove)),
            "move_count", IntOf(u.moveCount)), "is_game_active", BoolOf(u.isGameActive))
  }

  /** The eight optional field writes, then the timestamp. */
  function UpdatedState(s: State, u: GameUpdate, now: string): State
  {
    LaterWrites(FirstWrites(s, u), u)[LastUpdate := Text(now)]
  }

  /** A field is present after a write exactly when it was before or was written. */
  lemma PutSpec(s: State, key: string, v: Option<Value>, k: string)
    ensures k in Put(s, key, v) <==> k in s || (k == key && v.Some?)
    ensures k in Put(s, key, v) ==> Put(s, key, v)[k] == if k == key && v.Some? then v.value else s[k]
  {
  }

  /** Whether `k` is one of the first four fields. */
  predicate EarlyField(k: string)
  {
    k in {"board_fen", "black_timer", "white_timer", "current_turn"}
  }

  lemma FirstWritesSpec(s: State, u: GameUpdate, k: string)
    ensures var t := FirstWrites(s, u);
      (k in t <==> k in s || (EarlyField(k) && Written(u, k).Some?))
      && (k in t ==> t[k] == if EarlyField(k) && Written(u, k).Some? then Written(u, k).value else s[k])
  {
    var s1 := Put(s, "board_fen", TextOf(u.boardFen));
    var s2 := Put(s1, "black_timer", IntOf(u.blackTimer));
    var s3 := Put(s2, "white_timer", IntOf(u.whiteTimer));
    PutSpec(s, "board_fen", TextOf(u.boardFen), k);
    PutSpec(s1, "black_timer", IntOf(u.blackTimer), k);
    PutSpec(s2, "white_timer", IntOf(u.whiteTimer), k);
    PutSpec(s3, "current_turn", TextOf(u.currentTurn), k);
  }

  lemma LaterWritesSpec(s: State, u: GameUpdate, k: string)
    ensures var t := LaterWrites(s, u);
      (k in t <==> k in s || (!EarlyField(k) && Written(u, k).Some?))
      && (k in t ==> t[k] == if !EarlyField(k) && Written(u, k).Some? then Written(u, k).value else s[k])
  {
    var s1 := Put(s, "game_status", TextOf(u.gameStatus));
    var s2 := Put(s1, "last_move", TextOf(u.lastMove));
    var s3 := Put(s2, "move_count", IntOf(u.moveCount));
    PutSpec(s, "game_status", TextOf(u.gameStatus), k);
    PutSpec(s1, "last_move", TextOf(u.lastMove), k);
    PutSpec(s2, "move_count", IntOf(u.moveCount), k);
    PutSpec(s3, "is_game_active", BoolOf(u.isGameActive), k);
  }

  /**
   * `update_game_state` changes exactly the fields it is given a value
   * for, each to that value, and always refreshes the timestamp; every
   * other field keeps its value, and no field disappears.
   */
  lemma UpdatedStateSpec(s: State, u: GameUpdate, now: string, k: string)
    ensures k in UpdatedState(s, u, now) <==> k in s || k == LastUpdate || Written(u, k).Some?
    ensures k == LastUpdate ==> UpdatedState(s, u, now)[k] == Text(now)
    ensures k != LastUpdate && Written(u, k).Some? ==> UpdatedState(s, u, now)[k] == Written(u, k).value
    ensures k != LastUpdate && Written(u, k).None? && k in s ==> UpdatedState(s, u, now)[k] == s[k]
  {
    FirstWritesSpec(s, u, k);
    LaterWritesSpec(FirstWrites(s, u), u, k);
  }

  /** The fields of a state that has them all keep them all. */
  lemma UpdatedStateKeeps(s: State, u: GameUpdate, now: string)
    requires Fields <= s.Keys
    ensures Fields <= UpdatedState(s, u, now).Keys
  {
    forall k | k in Fields ensures k in UpdatedState(s, u, now) {
      UpdatedStateSpec(s, u, now, k);
    }
  }

  /** Giving the same update twice is the same as giving it once. */
  lemma UpdateIdempotent(s: State, u: GameUpdate, now: string)
    ensures UpdatedState(UpdatedState(s, u, now), u, now) == UpdatedState(s, u, now)
  {
    var once := UpdatedState(s, u, now);
    var twice := UpdatedState(once, u, now);
    forall k ensures (k in twice <==> k in once) && (k in twice ==> twice[k] == once[k]) {
      UpdatedStateSpec(s, u, now, k);
      UpdatedStateSpec(once, u, now, k);
    }
  }

  /** Posted data merged in: posted fields win, the timestamp is refreshed. */
  function Merged(s: State, data: State, now: string): State
  {
    (s + data)[LastUpdate := Text(now)]
  }

  /** The outcome of reading the request body: the posted object, none, or an exception. */
  datatype Body = Posted(data: Option<State>) | Unreadable

  /** The shared state and the endpoints that change it. */
  class GameMonitor {
    var state: State

    /** The server starts with the initial state, stamped with the start time. */
    constructor (now: string)
      ensures state == InitialState(now)
    {
      state := InitialState(now);
    }

    /** The fields the state starts with are all still there. */
    predicate Valid()
      reads this
    {
      Fields <= state.Keys
    }

    /** `update_game_state`: each given field is overwritten in turn, then the timestamp. */
    method UpdateGameState(u: GameUpdate, now: string)
      modifies this
      ensures state == UpdatedState(old(state), u, now)
      ensures old(Valid()) ==> Valid()
    {
      state := Put(state, "board_fen", TextOf(u.boardFen));
      state := Put(state, "black_timer", IntOf(u.blackTimer));
      state := Put(state, "white_timer", IntOf(u.whiteTimer));
      state := Put(state, "current_turn", TextOf(u.currentTurn));
      state := Put(state, "game_status", TextOf(u.gameStatus));
      state := Put(state, "last_move", TextOf(u.lastMove));
      state := Put(state, "move_count", IntOf(u.moveCount));
      state := Put(state, "is_game_active", BoolOf(u.isGameActive));
      state := state[LastUpdate := Text(now)];
      if old(Valid()) {
        UpdatedStateKeeps(old(state), u, now);
      }
    }

    /**
     * `api_update_board`: a non-empty posted object is merged in and the
     * timestamp refreshed; no data, or an empty object, changes nothing;
     * a body that cannot be read reports failure and changes nothing.
     */
    method ApiUpdateBoard(body: Body, now: string) returns (success: bool)
      modifies this
      ensures success <==> body.Posted?
      ensures body.Posted? && body.data.Some? && |body.data.value| > 0
        ==> state == Merged(old(state), body.data.value, now)
      ensures !(body.Posted? && body.data.Some? && |body.data.value| > 0) ==> state == old(state)
      ensures old(Valid()) ==> Valid()
    {
      if body.Unreadable? {
        return false;
      }
      if body.data.Some? && |body.data.value| > 0 {
        state := state + body.data.value;
        state := state[LastUpdate := Text(now)];
      }
      success := true;
    }
  }

  /**
   * A merge keeps every field, takes each posted field's value, keeps
   * the value of every field not posted, and stamps the time last, so a
   * posted timestamp is overridden.
   */
  lemma MergedSpec(s: State, data: State, now: string, k: string)
    ensures k in Merged(s, data, now) <==> k in s || k in data || k == LastUpdate
    ensures k == LastUpdate ==> Merged(s, data, now)[k] == Text(now)
    ensures k != LastUpdate && k in data ==> Merged(s, data, now)[k] == data[k]
    ensures k != LastUpdate && k !in data && k in s ==> Merged(s, data, now)[k] == s[k]
  {
  }
}
