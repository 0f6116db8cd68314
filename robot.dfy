/**
 * The robot-arm controller: it turns a move (its move-type record and its
 * UCI text) into the list of commands the arm's firmware understands, and
 * sends them one at a time, each waiting for the arm's answer.  The serial
 * port is not modelled: whether the arm acknowledges the i-th command of a
 * move is the parameter `acks`, and `written` records what was sent.
 */
module Robot {
  import opened Wrappers
  import opened Chess

  /** The UCI texts of the two castlings on each side. */
  predicate KingsideCastle(uci: string) { uci == "e1g1" || uci == "e8g8" }
  predicate QueensideCastle(uci: string) { uci == "e1c1" || uci == "e8c8" }

  /**
   * `_generate_move_commands` as written: the source is `uci[..2]` and
   * the destination `uci[2..]` (a promotion keeps its letter); castling
   * moves the king and then the rook on the king's rank, and an
   * en-passant capture first removes the pawn it names as
   * `from[0] + to[1]`: the source's file on the destination's rank.
   */
  function GenerateMoveCommandsAsWritten(d: MoveTypeDict, uci: string): seq<string>
    requires uci == "" || |uci| >= 4
  {
    if |d| == 0 || uci == "" then []
    else
      var from, to := uci[..2], uci[2..];
      if Flag(d, "is_castling") then
        if KingsideCastle(uci) then [from + "cap", ['h', from[1], 'f', from[1]]]
        else if QueensideCastle(uci) then [from + "cap", ['a', from[1], 'd', from[1]]]
        else []
      else if Flag(d, "is_en_passant") then [[from[0], to[1]] + "cap", from + to]
      else if Flag(d, "is_capture") then [to + "cap", from + to]
      else if Flag(d, "is_promotion") then [from + to]
      else [from + to]
  }

  /**
   * The square of the pawn an en-passant capture takes: on the
   * destination's file and the source's rank (for e5d6 that is d5).
   */
  function EnPassantVictim(uci: string): (sq: string)
    requires |uci| >= 4
    ensures |sq| == 2 && sq[0] == uci[2] && sq[1] == uci[1]
  {
    [uci[2], uci[1]]
  }

  /**
   * The discrepancy: as written, the pawn removed by an en-passant
   * capture is the one named by the source's file and the destination's
   * rank, which is the captured pawn only for a move that does not leave
   * its square; for the capture e5d6 the arm is told to clear e6 instead
   * of d5.
   */
  lemma EnPassantWrongSquare(d: MoveTypeDict, uci: string)
    requires |d| > 0 && |uci| >= 4
    requires !Flag(d, "is_castling") && Flag(d, "is_en_passant")
    ensures GenerateMoveCommandsAsWritten(d, uci)[0] == EnPassantVictim(uci) + "cap"
        <==> uci[0] == uci[2] && uci[1] == uci[3]
    ensures GenerateMoveCommandsAsWritten(d, "e5d6")[0] == "e6cap"
  {
    var c := GenerateMoveCommandsAsWritten(d, uci)[0];
    assert c == [uci[0], uci[3]] + "cap";
    if c == EnPassantVictim(uci) + "cap" {
      assert c[0] == uci[2] && c[1] == uci[1];
    }
  }

  /**
   * `_generate_move_commands` as evidently intended: the same as written
   * except that an en-passant capture removes the pawn it actually takes.
   */
  function GenerateMoveCommands(d: MoveTypeDict, uci: string): seq<string>
    requires uci == "" || |uci| >= 4
  {
    if |d| == 0 || uci == "" then []
    else
      var from, to := uci[..2], uci[2..];
      if Flag(d, "is_castling") then
        if KingsideCastle(uci) then [from + "cap", ['h', from[1], 'f', from[1]]]
        else if QueensideCastle(uci) then [from + "cap", ['a', from[1], 'd', from[1]]]
        else []
      else if Flag(d, "is_en_passant") then [EnPassantVictim(uci) + "cap", from + to]
      else if Flag(d, "is_capture") then [to + "cap", from + to]
      else if Flag(d, "is_promotion") then [from + to]
      else [from + to]
  }

  /** The correction touches only the en-passant removal: every other move gets the same commands. */
  lemma GenerateMoveCommandsAgrees(d: MoveTypeDict, uci: string)
    requires uci == "" || |uci| >= 4
    requires |d| == 0 || uci == "" || Classify(FlagsOf(d)) != EnPassant
    ensures GenerateMoveCommandsAsWritten(d, uci) == GenerateMoveCommands(d, uci)
  {
  }

  /**
   * The commands by move type, under the shared priority castling, en
   * passant, capture, promotion: an empty record or UCI gives none; a
   * castling gives the king's and then the rook's move along the king's
   * rank, or none for an unknown castling; a capture of either kind first
   * clears the taken piece's square; every other move is one command, and
   * every non-castling list ends with the move itself.
   */
  lemma GenerateMoveCommandsSpec(d: MoveTypeDict, uci: string)
    requires uci == "" || |uci| >= 4
    ensures |d| == 0 || uci == "" ==> GenerateMoveCommands(d, uci) == []
    ensures |d| > 0 && uci != "" ==>
      var c, t := GenerateMoveCommands(d, uci), Classify(FlagsOf(d));
      (t == Castling ==>
         (c == [] <==> !KingsideCastle(uci) && !QueensideCastle(uci))
         && (c != [] ==> |c| == 2 && c[0] == uci[..2] + "cap" && |c[1]| == 4
                         && c[1][1] == uci[1] && c[1][3] == uci[1]
                         && (c[1][0] == 'h' <==> KingsideCastle(uci))))
      && (t == EnPassant ==> c == [EnPassantVictim(uci) + "cap", uci])
      && (t == Capture ==> c == [uci[2..] + "cap", uci])
      && (t == Promotion || t == Normal ==> c == [uci])
  {
    if |d| > 0 && uci != "" {
      assert uci[..2] + uci[2..] == uci;
    }
  }

  /** Two records of the same move type give the same commands: only the classification matters. */
  lemma CommandsFollowType(d1: MoveTypeDict, d2: MoveTypeDict, uci: string)
    requires uci == "" || |uci| >= 4
    requires |d1| > 0 && |d2| > 0 && Classify(FlagsOf(d1)) == Classify(FlagsOf(d2))
    ensures GenerateMoveCommands(d1, uci) == GenerateMoveCommands(d2, uci)
  {
    GenerateMoveCommandsSpec(d1, uci);
    GenerateMoveCommandsSpec(d2, uci);
    if uci != "" && Classify(FlagsOf(d1)) == Castling {
      assert Flag(d1, "is_castling") && Flag(d2, "is_castling");
    }
  }

  /** `get_move_description`: unknown for an empty record or UCI, else the name of the move's type. */
  function MoveDescription(d: MoveTypeDict, uci: string): (s: string)
    ensures |d| == 0 || uci == "" ==> s == "알 수 없는 움직임"
    ensures |d| > 0 && uci != "" ==> s == TypeName(Classify(FlagsOf(d)))
  {
    if |d| == 0 || uci == "" then "알 수 없는 움직임"
    else if Flag(d, "is_castling") then "캐슬링"
    else if Flag(d, "is_en_passant") then "앙파상"
    else if Flag(d, "is_capture") then "기물 잡기"
    else if Flag(d, "is_promotion") then "프로모션"
    else "일반 이동"
  }

  /**
   * The description and the commands agree: a move is described as a
   * capture of either kind exactly when its commands first clear a square
   * and then make the move.
   */
  lemma DescriptionMatchesCommands(d: MoveTypeDict, uci: string)
    requires |d| > 0 && |uci| >= 4
    ensures MoveDescription(d, uci) in {"앙파상", "기물 잡기"}
        <==> |GenerateMoveCommands(d, uci)| == 2 && GenerateMoveCommands(d, uci)[1] == uci
  {
    GenerateMoveCommandsSpec(d, uci);
    var t := Classify(FlagsOf(d));
    if t == Castling && GenerateMoveCommands(d, uci) != [] {
      assert GenerateMoveCommands(d, uci)[1][0] in {'h', 'a'};
      assert uci[0] == 'e';
    }
    if t == Castling || t == Promotion || t == Normal {
      assert TypeName(t) !in {"앙파상", "기물 잡기"};
    }
  }

  /** Whether the arm acknowledges the i-th command of a move; a missing answer is a timeout. */
  predicate Ack(acks: seq<bool>, i: nat)
  {
    i < |acks| && acks[i]
  }

  /** The position of the first of `n` commands the arm refuses, or `n` when it accepts them all. */
  function FirstRefused(n: nat, acks: seq<bool>, from: nat): (r: nat)
    requires from <= n
    ensures from <= r <= n
    ensures forall j :: from <= j < r ==> Ack(acks, j)
    ensures r < n ==> !Ack(acks, r)
    decreases n - from
  {
    if from == n || !Ack(acks, from) then from
    else FirstRefused(n, acks, from + 1)
  }

  /** How many of the commands are written: up to and including the first refused one. */
  function Delivered(n: nat, acks: seq<bool>): (k: nat)
    ensures k <= n
    ensures k == n || k == FirstRefused(n, acks, 0) + 1
  {
    var r := FirstRefused(n, acks, 0);
    if r < n then r + 1 else n
  }

  /**
   * The controller.  `isConnected` stands for an open serial connection;
   * `written` is every command sent over it, in order.
   */
  class RobotArm {
    var enabled: bool
    var port: string
    var baudrate: int
    var isConnected: bool
    var isMoving: bool
    var written: seq<string>

    /** A new controller is configured but neither connected nor moving. */
    constructor (enabled: bool, port: string, baudrate: int)
      ensures this.enabled == enabled && this.port == port && this.baudrate == baudrate
      ensures !isConnected && !isMoving && written == []
    {
      this.enabled := enabled;
      this.port := port;
      this.baudrate := baudrate;
      isConnected := false;
      isMoving := false;
      written := [];
    }

    /**
     * `_send_single_command`: without a connection nothing is sent and the
     * command counts as done; otherwise it is written and the arm's
     * answer decides.
     */
    method SendSingleCommand(command: string, ack: bool) returns (ok: bool)
      modifies this`written
      ensures !isConnected ==> ok && written == old(written)
      ensures isConnected ==> ok == ack && written == old(written) + [command]
    {
      if !isConnected {
        return true;
      }
      written := written + [command];
      ok := ack;
    }

    /**
     * `execute_move`: refused while disabled, while already moving, or
     * when the move yields no commands; without a connection the commands
     * are only listed and the move counts as done; otherwise they are sent
     * in order until the arm refuses one.  The commands are those of
     * `_generate_move_commands` as written, so an en-passant capture clears
     * the square `GenerateMoveCommandsAsWritten` names.  The moving flag is
     * raised only during the sending, so it is the same afterwards as before.
     */
    method ExecuteMove(d: MoveTypeDict, uci: string, acks: seq<bool>) returns (ok: bool)
      requires uci == "" || |uci| >= 4
      modifies this
      ensures enabled == old(enabled) && port == old(port) && baudrate == old(baudrate)
      ensures isConnected == old(isConnected) && isMoving == old(isMoving)
      ensures var cmds := GenerateMoveCommandsAsWritten(d, uci);
        var sends := enabled && !isMoving && cmds != [] && isConnected;
        (ok <==> enabled && !isMoving && cmds != [] && (!isConnected || FirstRefused(|cmds|, acks, 0) == |cmds|))
        && written == old(written) + (if sends then cmds[..Delivered(|cmds|, acks)] else [])
    {
      if !enabled || isMoving {
        return false;
      }
      var cmds := GenerateMoveCommandsAsWritten(d, uci);
      if cmds == [] {
        return false;
      }
      if !isConnected {
        return true;
      }
      isMoving := true;
      var i := 0;
      while i < |cmds|
        invariant 0 <= i <= |cmds|
        invariant isConnected && isMoving && enabled == old(enabled) && port == old(port) && baudrate == old(baudrate)
        invariant forall j :: 0 <= j < i ==> Ack(acks, j)
        invariant written == old(written) + cmds[..i]
      {
        var sent := SendSingleCommand(cmds[i], Ack(acks, i));
        assert cmds[..i] + [cmds[i]] == cmds[..i + 1];
        if !sent {
          isMoving := false;
          RefusedAt(|cmds|, acks, i);
          return false;
        }
        i := i + 1;
      }
      isMoving := false;
      AllAccepted(|cmds|, acks);
      assert cmds[..|cmds|] == cmds;
      ok := true;
    }

    /** `configure`: each setting that is given replaces the old one, and nothing else changes. */
    method Configure(enabled: Option<bool>, port: Option<string>, baudrate: Option<int>)
      modifies this
      ensures this.enabled == enabled.GetOr(old(this.enabled))
      ensures this.port == port.GetOr(old(this.port))
      ensures this.baudrate == baudrate.GetOr(old(this.baudrate))
      ensures isConnected == old(isConnected) && isMoving == old(isMoving) && written == old(written)
    {
      if enabled.Some? {
        this.enabled := enabled.value;
      }
      if port.Some? {
        this.port := port.value;
      }
      if baudrate.Some? {
        this.baudrate := baudrate.value;
      }
    }
  }

  /** The first refusal, once found, is where the delivery stops. */
  lemma RefusedAt(n: nat, acks: seq<bool>, i: nat)
    requires i < n && !Ack(acks, i) && forall j :: 0 <= j < i ==> Ack(acks, j)
    ensures FirstRefused(n, acks, 0) == i && Delivered(n, acks) == i + 1
  {
    FirstRefusedIs(n, acks, 0, i);
  }

  /** With every command acknowledged, all of them are delivered. */
  lemma AllAccepted(n: nat, acks: seq<bool>)
    requires forall j :: 0 <= j < n ==> Ack(acks, j)
    ensures FirstRefused(n, acks, 0) == n && Delivered(n, acks) == n
  {
  }

  /** The search from `from` finds the first refusal at or after it. */
  lemma {:induction false} FirstRefusedIs(n: nat, acks: seq<bool>, from: nat, i: nat)
    requires from <= i < n && !Ack(acks, i) && forall j :: from <= j < i ==> Ack(acks, j)
    ensures FirstRefused(n, acks, from) == i
    decreases i - from
  {
    if from < i {
      FirstRefusedIs(n, acks, from + 1, i);
    }
  }
}
