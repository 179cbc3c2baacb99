/** The game model (src/model/Game.js): the bet, the last win, the board and
    the win lines of the last spin, each published to the view through an
    event when it changes.

    The model records every `emit` call, in order, in `emitted`; which
    listeners a call reaches is what `Observable.Observable.Emit` states. The
    HTTP request of `makeBet` is not modelled: `MakeBet` receives the decoded
    response body. */
module Game {
  import opened JsValue
  import opened WinLine

  const MinBet: int := 1
  const MaxBet: int := 10

  /** The value of a `winLines` field: an array of lines, the empty object
      `{}` that `dropState` stores, or `undefined` before anything is stored. */
  datatype WinLinesValue = Lines(lines: seq<WinLine>) | EmptyObject | Undefined

  /** One `emit(name, value)` call of the model. */
  datatype Emission =
    | BetChange(bet: int)
    | BoardChange(board: seq<JsNumber>)
    | WinLinesChange(winLines: WinLinesValue)

  /** The fields of the server's reply that `makeBet` reads. */
  datatype Response = Response(win: int, board: string, winlines: seq<string>)

  /** A press of the plus or the minus button, as passed on by the controller. */
  datatype BetOp = Increase | Decrease

  /** `increaseBet`: `Math.min(bet + 1, 10)`. */
  function Increased(bet: int): (r: int)
    ensures r <= bet + 1 && r <= MaxBet
    ensures r == bet + 1 || r == MaxBet
  {
    if bet + 1 < MaxBet then bet + 1 else MaxBet
  }

  /** `decreaseBet`: `Math.max(bet - 1, 1)`. */
  function Decreased(bet: int): (r: int)
    ensures r >= bet - 1 && r >= MinBet
    ensures r == bet - 1 || r == MinBet
  {
    if bet - 1 > MinBet then bet - 1 else MinBet
  }

  /** The bet after a sequence of presses. */
  function BetAfter(bet: int, ops: seq<BetOp>): int
  {
    if ops == [] then bet
    else
      var prev := BetAfter(bet, ops[..|ops| - 1]);
      if ops[|ops| - 1].Increase? then Increased(prev) else Decreased(prev)
  }

  /** From any bet in [1, 10], and so from the initial bet 1, no sequence of
      presses leaves [1, 10]. */
  lemma {:induction false} BetStaysInRange(bet: int, ops: seq<BetOp>)
    requires MinBet <= bet <= MaxBet
    ensures MinBet <= BetAfter(bet, ops) <= MaxBet
  {
    if ops != [] {
      BetStaysInRange(bet, ops[..|ops| - 1]);
    }
  }

  /** `n` increases add `n` to the bet up to the ceiling of 10. */
  lemma {:induction false} IncreasesSaturate(bet: int, n: nat)
    requires bet <= MaxBet
    ensures BetAfter(bet, seq(n, _ => Increase)) == if bet + n < MaxBet then bet + n else MaxBet
  {
    if n > 0 {
      IncreasesSaturate(bet, n - 1);
      assert seq(n, _ => Increase)[..n - 1] == seq(n - 1, _ => Increase);
    }
  }

  /** `n` decreases take `n` off the bet down to the floor of 1. */
  lemma {:induction false} DecreasesSaturate(bet: int, n: nat)
    requires bet >= MinBet
    ensures BetAfter(bet, seq(n, _ => Decrease)) == if bet - n > MinBet then bet - n else MinBet
  {
    if n > 0 {
      DecreasesSaturate(bet, n - 1);
      assert seq(n, _ => Decrease)[..n - 1] == seq(n - 1, _ => Decrease);
    }
  }

  /** `board.split(',').map(v => v - 1)`: each field coerced to a number and
      decremented. */
  function ParseBoard(s: string): (b: seq<JsNumber>)
    ensures |b| == Count(s, ',') + 1
    ensures forall i :: 0 <= i < |b| ==> b[i] == MinusOne(ToNumber(Split(s, ',')[i]))
  {
    MinusOneEach(ToNumbers(Split(s, ',')))
  }

  function MinusOneEach(ns: seq<JsNumber>): (r: seq<JsNumber>)
    ensures |r| == |ns|
    ensures forall i :: 0 <= i < |ns| ==> r[i] == MinusOne(ns[i])
  {
    if ns == [] then [] else [MinusOne(ns[0])] + MinusOneEach(ns[1..])
  }

  /** A board written as comma-separated 1-based symbol numbers parses to
      the 0-based symbol indexes, in order. */
  lemma ParseBoardOfNumbers(symbols: seq<nat>)
    requires |symbols| >= 1
    ensures var b := ParseBoard(Join(DecimalStrings(symbols), ','));
      && |b| == |symbols|
      && forall i :: 0 <= i < |symbols| ==> b[i] == Num(symbols[i] as int - 1)
  {
    var parts := DecimalStrings(symbols);
    forall i | 0 <= i < |parts|
      ensures ',' !in parts[i]
    {
      DigitsFree(parts[i], ',');
    }
    SplitJoin(parts, ',');
    forall i | 0 <= i < |symbols|
      ensures ToNumber(parts[i]) == Num(symbols[i])
    {
      DecimalRoundTrip(symbols[i]);
    }
  }

  /** An empty board string is not an empty board: `"".split(',')` is
      `[""]`, and `"" - 1` is -1. */
  lemma EmptyBoardStringIsOneCell()
    ensures ParseBoard("") == [Num(-1)]
  {
    assert Split("", ',') == [""];
    assert ToNumber("") == Num(0);
  }

  /** `winlines.map(data => WinLine.deserialize(data))`: the lines in order,
      or the TypeError of the first entry that has no third field. */
  function DeserializeAll(ss: seq<string>): (r: Result<seq<WinLine>>)
    ensures r.Ok? <==> forall i :: 0 <= i < |ss| ==> Deserialize(ss[i]).Ok?
    ensures r.Ok? ==> |r.value| == |ss|
    ensures r.Ok? ==> forall i :: 0 <= i < |ss| ==> Deserialize(ss[i]) == Ok(r.value[i])
  {
    if ss == [] then Ok([])
    else
      match Deserialize(ss[0])
      case TypeError => TypeError
      case Ok(line) =>
        match DeserializeAll(ss[1..])
        case TypeError => TypeError
        case Ok(rest) => Ok([line] + rest)
  }

  class Game {
    var bet: int
    var win: int
    var board: seq<JsNumber>
    var winLines: WinLinesValue
    /** The `emit` calls made so far. */
    var emitted: seq<Emission>

    /** `new Game(url)`; the URL only serves the request, which is not
        modelled. */
    constructor ()
      ensures bet == 1 && win == 0 && board == [] && winLines == Lines([]) && emitted == []
    {
      bet, win, board, winLines, emitted := 1, 0, [], Lines([]), [];
    }

    /** `setBet(b)`: stores the bet, then emits `betChange` with it. */
    method SetBet(b: int)
      modifies this
      ensures bet == b && emitted == old(emitted) + [BetChange(b)]
      ensures win == old(win) && board == old(board) && winLines == old(winLines)
    {
      bet := b;
      emitted := emitted + [BetChange(bet)];
    }

    method IncreaseBet()
      modifies this
      ensures bet == Increased(old(bet)) && emitted == old(emitted) + [BetChange(bet)]
      ensures win == old(win) && board == old(board) && winLines == old(winLines)
    {
      SetBet(if bet + 1 < MaxBet then bet + 1 else MaxBet);
    }

    method DecreaseBet()
      modifies this
      ensures bet == Decreased(old(bet)) && emitted == old(emitted) + [BetChange(bet)]
      ensures win == old(win) && board == old(board) && winLines == old(winLines)
    {
      SetBet(if bet - 1 > MinBet then bet - 1 else MinBet);
    }

    /** `updateBoard(b)`: stores the board, then emits `boardChange`. */
    method UpdateBoard(b: seq<JsNumber>)
      modifies this
      ensures board == b && emitted == old(emitted) + [BoardChange(b)]
      ensures bet == old(bet) && win == old(win) && winLines == old(winLines)
    {
      board := b;
      emitted := emitted + [BoardChange(board)];
    }

    /** `updateWinLines(w)`: stores the lines, then emits `winLinesChange`. */
    method UpdateWinLines(w: WinLinesValue)
      modifies this
      ensures winLines == w && emitted == old(emitted) + [WinLinesChange(w)]
      ensures bet == old(bet) && win == old(win) && board == old(board)
    {
      winLines := w;
      emitted := emitted + [WinLinesChange(winLines)];
    }

    /** `dropState()`: clears the win, publishes an empty board, then
        publishes `{}` (an object, not an empty array) as the win lines. */
    method DropState()
      modifies this
      ensures win == 0 && board == [] && winLines == EmptyObject && bet == old(bet)
      ensures emitted == old(emitted) + [BoardChange([]), WinLinesChange(EmptyObject)]
    {
      win := 0;
      UpdateBoard([]);
      UpdateWinLines(EmptyObject);
    }

    /** `makeBet()` once the reply has arrived. Nothing happens when the bet
        is not positive. Otherwise the state is dropped, the win stored, the
        parsed board published and then the deserialized win lines; `ok` is
        false when a win line has no third field, in which case the call
        throws before the lines are stored, so they stay `{}`. */
    method MakeBet(response: Response) returns (ok: bool)
      modifies this
      ensures old(bet) <= 0 ==>
        ok && bet == old(bet) && win == old(win) && board == old(board)
        && winLines == old(winLines) && emitted == old(emitted)
      ensures old(bet) > 0 ==>
        && ok == DeserializeAll(response.winlines).Ok?
        && bet == old(bet) && win == response.win && board == ParseBoard(response.board)
        && winLines == (if ok then Lines(DeserializeAll(response.winlines).value) else EmptyObject)
        && emitted == old(emitted) + [BoardChange([]), WinLinesChange(EmptyObject), BoardChange(board)]
                      + (if ok then [WinLinesChange(winLines)] else [])
    {
      if bet <= 0 {
        return true;
      }
      DropState();
      win := response.win;
      UpdateBoard(ParseBoard(response.board));
      match DeserializeAll(response.winlines)
      case Ok(lines) =>
        UpdateWinLines(Lines(lines));
        ok := true;
      case TypeError =>
        ok := false;
    }
  }
}
