/** The round logic of the view (src/view/GameView.js), without rendering.

    The view turns board changes from the game into a queue of `start` and
    `stop` transitions, slices the board among the five reels, works out
    which cells to highlight and the score to show after a stop, guards the
    bet and start buttons while a round runs, and resumes its animation
    routines on every tick.

    The reels are represented by the calls the view makes on them
    (`ReelCall`); what a reel does with a call is `ReelComponent.Reel`. The
    promises the view waits on (the timer of `start`, the stop of every
    reel, the highlight of every reel) settle from outside, so each
    settling is a method of its own. */
module GameView {
  import opened JsValue
  import opened WinLine
  import opened Game
  import opened Easing
  import opened Coroutine
  import AQ = ActionQueue

  const ReelCount: nat := 5
  /** Visible cells per reel: reel `i` shows board cells `3i .. 3i + 2`. */
  const RowCount: nat := 3
  const CellCount: nat := 15
  /** Durations, in milliseconds, of the score count-up and of the zoom. */
  const ScoreDuration: real := 800.0
  const ZoomDuration: real := 1200.0

  /** What `boardChangeHandler` enqueues: `() => this.start()` or
      `() => this.stop(board)`. */
  datatype ViewAction = Start | Stop(board: seq<JsNumber>)

  /** A call the view makes on reel `reel`. */
  datatype ReelCall =
    | StartSpin(reel: nat)
    | StopSpin(reel: nat, symbols: seq<JsNumber>)
    | Highlight(reel: nat, flags: seq<bool>)

  datatype Button = Minus | Plus | StartButton

  /** The events the view emits to the controller. */
  datatype Request = DecreaseBet | IncreaseBet | MakeBet

  /** What a routine of the view animates: the score counting up to `win`,
      or the zoom of the score text. */
  datatype Purpose = Score(win: JsNumber) | Zoom

  /** The score text: empty, a number, or `"NaN"`. */
  datatype ScoreText = Blank | Shown(value: real) | NotANumber

  /** The action a board change enqueues: `start` for an empty board,
      `stop` with that board otherwise. */
  function Dispatch(board: seq<JsNumber>): (a: ViewAction)
    ensures a == Start <==> board == []
    ensures a.Stop? ==> a.board == board
  {
    if |board| == 0 then Start else Stop(board)
  }

  /** `board.slice(i * 3, i * 3 + 3)`: the cells reel `i` stops on. */
  function ReelSlice<T>(board: seq<T>, i: nat): (s: seq<T>)
    ensures |s| <= RowCount
    ensures RowCount * (i + 1) <= |board| ==> |s| == RowCount
    ensures |s| > 0 ==> RowCount * i + |s| <= |board|
    ensures forall j :: 0 <= j < |s| ==> s[j] == board[RowCount * i + j]
  {
    Slice(board, RowCount * i, RowCount * i + RowCount)
  }

  /** The slices of the first `n` reels. */
  function Slices<T>(board: seq<T>, n: nat): (ss: seq<seq<T>>)
    ensures |ss| == n && forall i :: 0 <= i < n ==> ss[i] == ReelSlice(board, i)
  {
    if n == 0 then [] else Slices(board, n - 1) + [ReelSlice(board, n - 1)]
  }

  function Flatten<T>(ss: seq<seq<T>>): seq<T>
  {
    if ss == [] then [] else Flatten(ss[..|ss| - 1]) + ss[|ss| - 1]
  }

  /** The number of cells dealt to the first `n` reels of a board of
      `len` cells. */
  function Dealt(len: nat, n: nat): nat
  {
    if len < RowCount * n then len else RowCount * n
  }

  /** The slices of the first `n` reels are the board's first `3n` cells,
      each exactly once and in order. */
  lemma {:induction false} SlicesTileBoard<T>(board: seq<T>, n: nat)
    ensures Flatten(Slices(board, n)) == board[..Dealt(|board|, n)]
  {
    if n > 0 {
      var ss := Slices(board, n);
      assert ss[..n - 1] == Slices(board, n - 1);
      SlicesTileBoard(board, n - 1);
      LastSlice(board, n);
    }
  }

  /** Reel `n - 1` gets the cells after those of the first `n - 1` reels. */
  lemma LastSlice<T>(board: seq<T>, n: nat)
    requires n > 0
    ensures board[..Dealt(|board|, n - 1)] + ReelSlice(board, n - 1) == board[..Dealt(|board|, n)]
  {
    var lo, hi := Dealt(|board|, n - 1), Dealt(|board|, n);
    assert ReelSlice(board, n - 1) == board[lo..hi];
    assert board[..lo] + board[lo..hi] == board[..hi];
  }

  /** A board of at most fifteen cells is dealt out whole to the five reels;
      cells beyond the fifteenth reach no reel. */
  lemma StopDealsBoard(board: seq<JsNumber>)
    ensures |board| <= CellCount ==> Flatten(Slices(board, ReelCount)) == board
    ensures |board| > CellCount ==> Flatten(Slices(board, ReelCount)) == board[..CellCount]
  {
    SlicesTileBoard(board, ReelCount);
    assert board[..|board|] == board;
  }

  /** The calls of `start()`: every reel is told to spin, in order. */
  function StartCalls(n: nat): (cs: seq<ReelCall>)
    ensures |cs| == n && forall i :: 0 <= i < n ==> cs[i] == StartSpin(i)
  {
    if n == 0 then [] else StartCalls(n - 1) + [StartSpin(n - 1)]
  }

  /** The calls of `stop(board)`: reel `i` is told to stop on its slice. */
  function StopCalls(board: seq<JsNumber>, n: nat): (cs: seq<ReelCall>)
    ensures |cs| == n && forall i :: 0 <= i < n ==> cs[i] == StopSpin(i, ReelSlice(board, i))
  {
    if n == 0 then [] else StopCalls(board, n - 1) + [StopSpin(n - 1, ReelSlice(board, n - 1))]
  }

  /** The reel calls an action makes when it starts. */
  function CallsOf(a: ViewAction): seq<ReelCall>
  {
    match a
    case Start => StartCalls(ReelCount)
    case Stop(board) => StopCalls(board, ReelCount)
  }

  /** The reel calls of `next()` on a queue: those of its head, if any. */
  function NextCalls(queue: seq<ViewAction>): seq<ReelCall>
  {
    if queue == [] then [] else CallsOf(queue[0])
  }

  /** `winIndexes`: every index of every win line. */
  ghost function WinIndexes(lines: seq<WinLine>): set<JsNumber>
  {
    set k, x | 0 <= k < |lines| && x in lines[k].boardSymbolIndexes :: x
  }

  /** The nested loops of `winHandler` that fill `winIndexes`. */
  method CollectWinIndexes(lines: seq<WinLine>) returns (indexes: set<JsNumber>)
    ensures forall x :: x in indexes <==> exists k :: 0 <= k < |lines| && x in lines[k].boardSymbolIndexes
    ensures indexes == WinIndexes(lines)
  {
    indexes := {};
    var k := 0;
    while k < |lines|
      invariant 0 <= k <= |lines|
      invariant forall x :: x in indexes <==> exists l :: 0 <= l < k && x in lines[l].boardSymbolIndexes
    {
      var board := lines[k].boardSymbolIndexes;
      var j := 0;
      while j < |board|
        invariant 0 <= j <= |board|
        invariant forall x :: x in indexes <==>
          (exists l :: 0 <= l < k && x in lines[l].boardSymbolIndexes) || x in board[..j]
      {
        assert board[..j + 1] == board[..j] + [board[j]];
        indexes := indexes + {board[j]};
        j := j + 1;
      }
      assert board[..j] == board;
      k := k + 1;
    }
    assert indexes == WinIndexes(lines);
  }

  /** `[...Array(15).keys()].map(i => winIndexes.has(i))`. */
  function HighlightMap(indexes: set<JsNumber>): (m: seq<bool>)
    ensures |m| == CellCount
    ensures forall i :: 0 <= i < CellCount ==> (m[i] <==> Num(i) in indexes)
  {
    seq(CellCount, i => Num(i) in indexes)
  }

  /** Reel `r` of the five is given three flags, and its flag for row `j`
      is set exactly when cell `3r + j` is an index of some win line. NaN
      and out-of-range indexes light nothing. */
  lemma ReelHighlightFlags(lines: seq<WinLine>, r: nat)
    requires r < ReelCount
    ensures var flags := ReelSlice(HighlightMap(WinIndexes(lines)), r);
      && |flags| == RowCount
      && forall j :: 0 <= j < RowCount ==>
           (flags[j] <==> exists k :: 0 <= k < |lines| && Num(RowCount * r + j) in lines[k].boardSymbolIndexes)
  {
    var m := HighlightMap(WinIndexes(lines));
    forall c | RowCount * r <= c < RowCount * r + RowCount
      ensures m[c] <==> exists k :: 0 <= k < |lines| && Num(c) in lines[k].boardSymbolIndexes
    {
      if exists k :: 0 <= k < |lines| && Num(c) in lines[k].boardSymbolIndexes {
        var k :| 0 <= k < |lines| && Num(c) in lines[k].boardSymbolIndexes;
        assert Num(c) in WinIndexes(lines);
      }
    }
  }

  /** The calls of `this.reels.map((reel, i) => reel.highlight(...))`. */
  function HighlightCalls(m: seq<bool>, n: nat): (cs: seq<ReelCall>)
    ensures |cs| == n && forall i :: 0 <= i < n ==> cs[i] == Highlight(i, ReelSlice(m, i))
  {
    if n == 0 then [] else HighlightCalls(m, n - 1) + [Highlight(n - 1, ReelSlice(m, n - 1))]
  }

  /** `Math.max(...winLines.map(l => l.win))` over at least one line: NaN as
      soon as one win is NaN, otherwise the largest win. */
  function MaxWin(lines: seq<WinLine>): (m: JsNumber)
    requires |lines| >= 1
    ensures m.NaN? <==> exists k :: 0 <= k < |lines| && lines[k].win.NaN?
    ensures m.Num? ==> forall k :: 0 <= k < |lines| ==> lines[k].win.value <= m.value
    ensures m.Num? ==> exists k :: 0 <= k < |lines| && lines[k].win == m
  {
    if |lines| == 1 then lines[0].win
    else
      var rest := MaxWin(lines[1..]);
      var w := lines[0].win;
      assert forall k :: 1 <= k < |lines| ==> lines[k] == lines[1..][k - 1];
      if w.NaN? || rest.NaN? then NaN
      else if w.value >= rest.value then w
      else rest
  }

  /** The score text after the count-up action is called with `v`:
      `lerp(0, win, v)`; NaN when the win is. */
  function Display(win: JsNumber, v: real): (t: ScoreText)
    ensures win.NaN? <==> t.NotANumber?
    ensures win.Num? && v == 0.0 ==> t == Shown(0.0)
    ensures win.Num? && v == 1.0 ==> t == Shown(win.value as real)
  {
    if win.NaN? then NotANumber else Shown(Lerp(0.0, win.value as real, v))
  }

  /** The score text after resuming routines with purposes `ps`, in order,
      which made the calls `fs`. Only the count-up routine writes it, with
      the value of its action call. */
  function ScoreAfter(text: ScoreText, ps: seq<Purpose>, fs: seq<seq<Event>>): ScoreText
    requires |ps| == |fs|
  {
    if ps == [] then text
    else
      var prev := ScoreAfter(text, ps[..|ps| - 1], fs[..|fs| - 1]);
      var p, f := ps[|ps| - 1], fs[|fs| - 1];
      if p.Score? && f != [] && f[0].Action? then Display(p.win, f[0].value) else prev
  }

  lemma ScoreSnoc(text: ScoreText, ps: seq<Purpose>, fs: seq<seq<Event>>, p: Purpose, f: seq<Event>)
    requires |ps| == |fs|
    ensures ScoreAfter(text, ps + [p], fs + [f])
         == if p.Score? && f != [] && f[0].Action? then Display(p.win, f[0].value) else ScoreAfter(text, ps, fs)
  {
    assert (ps + [p])[..|ps|] == ps && (fs + [f])[..|fs|] == fs;
  }

  /** When the count-up routine of a win finishes, and no later routine of
      the tick counts up, the score shows the win. */
  lemma {:induction false} FinishedCountShowsWin(text: ScoreText, ps: seq<Purpose>, fs: seq<seq<Event>>, k: nat)
    requires |ps| == |fs| && k < |ps|
    requires ps[k].Score? && fs[k] == [Action(1.0), Callback]
    requires forall j :: k < j < |ps| ==> !ps[j].Score? || fs[j] == []
    ensures ScoreAfter(text, ps, fs) == Display(ps[k].win, 1.0)
  {
    if k < |ps| - 1 {
      FinishedCountShowsWin(text, ps[..|ps| - 1], fs[..|fs| - 1], k);
    }
  }

  /** The elements of `xs` whose routine made no callback in `fs`: the
      routines left in the set after a tick. */
  function Keep<T>(xs: seq<T>, fs: seq<seq<Event>>): (r: seq<T>)
    requires |xs| == |fs|
    ensures |r| <= |xs|
  {
    if xs == [] then []
    else
      var rest := Keep(xs[..|xs| - 1], fs[..|fs| - 1]);
      if Callback in fs[|fs| - 1] then rest else rest + [xs[|xs| - 1]]
  }

  /** A routine is kept exactly when it made no callback. */
  lemma {:induction false} KeepMembers<T>(xs: seq<T>, fs: seq<seq<Event>>, y: T)
    requires |xs| == |fs|
    ensures y in Keep(xs, fs) <==> exists i :: 0 <= i < |xs| && xs[i] == y && Callback !in fs[i]
  {
    if xs != [] {
      var n := |xs| - 1;
      var xs', fs' := xs[..n], fs[..n];
      KeepMembers(xs', fs', y);
      if exists i :: 0 <= i < n && xs[i] == y && Callback !in fs[i] {
        var i :| 0 <= i < n && xs[i] == y && Callback !in fs[i];
        assert xs'[i] == y && Callback !in fs'[i];
      }
      if y in Keep(xs', fs') {
        var i :| 0 <= i < n && xs'[i] == y && Callback !in fs'[i];
        assert xs[i] == y;
      }
    }
  }

  /** Keeping some of a set's routines keeps each of them once. */
  lemma {:induction false} KeepDistinct<T>(xs: seq<T>, fs: seq<seq<Event>>)
    requires |xs| == |fs|
    requires forall i, j :: 0 <= i < j < |xs| ==> xs[i] != xs[j]
    ensures var r := Keep(xs, fs); forall i, j :: 0 <= i < j < |r| ==> r[i] != r[j]
  {
    if xs != [] {
      var n := |xs| - 1;
      KeepDistinct(xs[..n], fs[..n]);
      KeepMembers(xs[..n], fs[..n], xs[n]);
    }
  }

  /** Routine `r`, which had a callback and had not finished, was resumed
      once at `now` and made the calls `f`: it is still valid, it moved on
      as `Step` says, and it has finished exactly when it called back. */
  twostate predicate Resumed(r: Routine, f: seq<Event>, now: real)
    reads r
  {
    && r.Valid() && r.cfg.hasCallback
    && (r.phase, f) == Step(r.cfg, old(r.phase), now)
    && r.trace == old(r.trace) + f
    && (r.phase.Done? <==> Callback in f)
  }

  class GameView {
    const queue: AQ.ActionQueue<ViewAction>
    /** `isRunning`: `undefined`, so falsy, until the first `start`. */
    var isRunning: bool
    /** The win lines last published by the game. */
    var winLines: WinLinesValue
    /** The calls made on the reels so far. */
    var calls: seq<ReelCall>
    /** The routine set, in insertion order, and what each animates. */
    var routines: seq<Routine>
    var purposes: seq<Purpose>
    var scoreText: ScoreText
    /** Whether `winHandler` is waiting for the reels' highlights. */
    var highlighting: bool

    /** Every routine in the set is distinct, valid, has a callback and has
        not finished (it leaves the set when it does); a start that is
        running has set `isRunning`; a highlight belongs to the running
        stop. */
    ghost predicate Valid()
      reads this, queue, routines
    {
      && queue.Valid()
      && |purposes| == |routines|
      && (forall i, j :: 0 <= i < j < |routines| ==> routines[i] != routines[j])
      && (forall r :: r in routines ==> r.Valid() && r.cfg.hasCallback && !r.phase.Done?)
      && (queue.Running() && queue.queue[0] == Start ==> isRunning)
      && (highlighting ==> queue.Running() && queue.queue[0].Stop?)
    }

    constructor ()
      ensures Valid() && fresh(queue)
      ensures queue.queue == [] && !isRunning && winLines == Undefined && calls == []
      ensures routines == [] && scoreText == Blank && !highlighting
    {
      queue := new AQ.ActionQueue();
      isRunning, winLines, calls := false, Undefined, [];
      routines, purposes, scoreText, highlighting := [], [], Blank, false;
    }

    /** The actions `run` that the queue has just started. */
    method Perform(run: seq<ViewAction>)
      requires |run| <= 1
      modifies this`isRunning, this`calls
      ensures calls == old(calls) + (if run == [] then [] else CallsOf(run[0]))
      ensures isRunning == (old(isRunning) || run == [Start])
    {
      if run != [] {
        match run[0]
        case Start => RunStart();
        case Stop(board) => RunStop(board);
      }
    }

    /** `start()`: sets `isRunning` and makes every reel spin. */
    method RunStart()
      modifies this`isRunning, this`calls
      ensures isRunning && calls == old(calls) + StartCalls(ReelCount)
    {
      isRunning := true;
      var i := 0;
      while i < ReelCount
        invariant 0 <= i <= ReelCount && isRunning
        invariant calls == old(calls) + StartCalls(i)
      {
        calls := calls + [StartSpin(i)];
        i := i + 1;
      }
    }

    /** `stop(board)`: each reel stops on its three cells of the board. */
    method RunStop(board: seq<JsNumber>)
      modifies this`calls
      ensures calls == old(calls) + StopCalls(board, ReelCount)
    {
      var i := 0;
      while i < ReelCount
        invariant 0 <= i <= ReelCount
        invariant calls == old(calls) + StopCalls(board, i)
      {
        calls := calls + [StopSpin(i, ReelSlice(board, i))];
        i := i + 1;
      }
    }

    /** `winLinesChangeHandler(winLines)`. */
    method WinLinesChange(w: WinLinesValue)
      requires Valid()
      modifies this`winLines
      ensures Valid() && winLines == w
    {
      winLines := w;
    }

    /** `boardChangeHandler(board)`: enqueues `start` for an empty board and
        `stop(board)` otherwise; it runs at once only if nothing else is
        queued. */
    method BoardChange(board: seq<JsNumber>)
      requires Valid()
      modifies this`isRunning, this`calls, queue
      ensures Valid()
      ensures queue.queue == old(queue.queue) + [Dispatch(board)]
      ensures queue.blocked == old(queue.blocked)
      ensures old(queue.queue) == [] ==> calls == old(calls) + CallsOf(Dispatch(board))
      ensures old(queue.queue) != [] ==> calls == old(calls)
      ensures isRunning == (old(isRunning) || (old(queue.queue) == [] && board == []))
    {
      ghost var q0 := queue.queue;
      var a := Dispatch(board);
      var run := queue.Enqueue(a);
      assert q0 == [] ==> run == [a];
      assert q0 != [] ==> run == [];
      assert run == [Start] <==> q0 == [] && board == [];
      Perform(run);
    }

    /** The promise of `start()` resolves: the queue moves on to the next
        action, if any. */
    method StartDone()
      requires Valid() && queue.Running() && queue.queue[0] == Start
      modifies this`isRunning, this`calls, queue
      ensures Valid()
      ensures queue.queue == old(queue.queue)[1..] && !queue.blocked
      ensures calls == old(calls) + NextCalls(queue.queue)
      ensures isRunning
    {
      var run := queue.Complete();
      Perform(run);
    }

    /** Every reel has stopped, so `winHandler` runs. `[...this.winLines]`
        throws unless the win lines are an array: the promise of `stop`
        rejects, the queue is stuck and `isRunning` keeps its value. With no
        win line the round ends. Otherwise the count-up and zoom routines
        join the set and every reel is told which of its cells to
        highlight. */
    method ReelsStopped() returns (ok: bool)
      requires Valid() && queue.Running() && queue.queue[0].Stop? && !highlighting
      modifies this`isRunning, this`calls, this`routines, this`purposes, this`highlighting, queue
      ensures Valid()
      ensures ok <==> winLines.Lines?
      ensures |routines| >= |old(routines)| && routines[..|old(routines)|] == old(routines)
      ensures !ok ==>
        && queue.blocked && queue.queue == old(queue.queue) && !highlighting
        && isRunning == old(isRunning) && calls == old(calls) && routines == old(routines)
      ensures winLines == Lines([]) ==>
        && queue.queue == old(queue.queue)[1..] && !queue.blocked && !highlighting
        && isRunning == (queue.queue != [] && queue.queue[0] == Start)
        && calls == old(calls) + NextCalls(queue.queue)
        && routines == old(routines)
      ensures ok && winLines.lines != [] ==>
        var lines := winLines.lines;
        var n := |old(routines)|;
        && queue.queue == old(queue.queue) && !queue.blocked && highlighting
        && isRunning == old(isRunning)
        && calls == old(calls) + HighlightCalls(HighlightMap(WinIndexes(lines)), ReelCount)
        && |routines| == n + 2 && fresh(routines[n]) && fresh(routines[n + 1])
        && routines[n].cfg == Configure(Linear, Function, ScoreDuration)
        && routines[n + 1].cfg == Configure(Linear, Function, ZoomDuration)
        && routines[n].phase.NotStarted? && routines[n + 1].phase.NotStarted?
        && purposes == old(purposes) + [Score(MaxWin(lines)), Zoom]
    {
      assert routines[..|routines|] == routines;
      if !winLines.Lines? {
        queue.Fail();
        return false;
      }
      if winLines.lines == [] {
        EndRound();
        return true;
      }
      ShowWin(winLines.lines);
      return true;
    }

    /** The round is over: `isRunning` is cleared, the running action
        resolves and the queue moves on. */
    method EndRound()
      requires Valid() && queue.Running() && !highlighting
      modifies this`isRunning, this`calls, queue
      ensures Valid()
      ensures queue.queue == old(queue.queue)[1..] && !queue.blocked
      ensures isRunning == (queue.queue != [] && queue.queue[0] == Start)
      ensures calls == old(calls) + NextCalls(queue.queue)
    {
      isRunning := false;
      var run := queue.Complete();
      assert run == [Start] <==> queue.queue != [] && queue.queue[0] == Start;
      Perform(run);
    }

    /** The winning branch of `winHandler`: the count-up and the zoom join
        the routine set and every reel is told which of its cells to
        highlight. */
    method ShowWin(lines: seq<WinLine>)
      requires Valid() && queue.Running() && queue.queue[0].Stop? && lines != []
      modifies this`calls, this`routines, this`purposes, this`highlighting
      ensures Valid() && highlighting
      ensures calls == old(calls) + HighlightCalls(HighlightMap(WinIndexes(lines)), ReelCount)
      ensures var n := |old(routines)|;
        && |routines| == n + 2 && routines[..n] == old(routines)
        && fresh(routines[n]) && fresh(routines[n + 1])
        && routines[n].cfg == Configure(Linear, Function, ScoreDuration)
        && routines[n + 1].cfg == Configure(Linear, Function, ZoomDuration)
        && routines[n].phase.NotStarted? && routines[n + 1].phase.NotStarted?
        && purposes == old(purposes) + [Score(MaxWin(lines)), Zoom]
    {
      var indexes := CollectWinIndexes(lines);
      AddWinRoutines(MaxWin(lines));
      calls := calls + HighlightCalls(HighlightMap(indexes), ReelCount);
      highlighting := true;
    }

    /** The count-up of the score to `win` and the zoom join the routine
        set. */
    method AddWinRoutines(win: JsNumber)
      requires Valid()
      modifies this`routines, this`purposes
      ensures Valid()
      ensures var n := |old(routines)|;
        && |routines| == n + 2 && routines[..n] == old(routines)
        && fresh(routines[n]) && fresh(routines[n + 1])
        && routines[n].cfg == Configure(Linear, Function, ScoreDuration)
        && routines[n + 1].cfg == Configure(Linear, Function, ZoomDuration)
        && routines[n].phase.NotStarted? && routines[n + 1].phase.NotStarted?
        && purposes == old(purposes) + [Score(win), Zoom]
    {
      var count := new Routine(Linear, Function, ScoreDuration);
      var zoom := new Routine(Linear, Function, ZoomDuration);
      routines, purposes := routines + [count, zoom], purposes + [Score(win), Zoom];
    }

    /** Every reel has finished its highlight: `winHandler` returns, the
        round ends, and the queue moves on. */
    method HighlightsDone()
      requires Valid() && highlighting
      modifies this`isRunning, this`calls, this`highlighting, queue
      ensures Valid() && !highlighting
      ensures queue.queue == old(queue.queue)[1..] && !queue.blocked
      ensures isRunning == (queue.queue != [] && queue.queue[0] == Start)
      ensures calls == old(calls) + NextCalls(queue.queue)
    {
      highlighting := false;
      EndRound();
    }

    /** A press of a button: the request it emits, nothing while a round
        is running. */
    method Press(b: Button) returns (sent: seq<Request>)
      ensures |sent| <= 1
      ensures sent == [] <==> isRunning
      ensures sent != [] ==> sent[0] == match b
        case Minus => DecreaseBet
        case Plus => IncreaseBet
        case StartButton => MakeBet
    {
      if isRunning {
        return [];
      }
      match b
      case Minus => sent := [DecreaseBet];
      case Plus => sent := [IncreaseBet];
      case StartButton => sent := [MakeBet];
    }

    /** One tick of the ticker with the clock at `now`:
        `for (const routine of this.routines) routine.next()`. Every routine
        in the set is resumed once, in order, and the count-up writes the
        score; a routine whose callback fires deletes itself from the set.
        `fired[i]` are the calls of the `i`-th routine. */
    method Tick(now: real) returns (fired: seq<seq<Event>>)
      requires Valid()
      modifies this`routines, this`purposes, this`scoreText, routines
      ensures Valid()
      ensures |fired| == |old(routines)|
      ensures forall i :: 0 <= i < |old(routines)| ==> Resumed(old(routines)[i], fired[i], now)
      ensures routines == Keep(old(routines), fired) && purposes == Keep(old(purposes), fired)
      ensures scoreText == ScoreAfter(old(scoreText), old(purposes), fired)
    {
      var rs := routines;
      var text;
      fired, text := ResumeEach(rs, purposes, scoreText, now);
      KeepDistinct(rs, fired);
      forall r | r in Keep(rs, fired)
        ensures r.Valid() && r.cfg.hasCallback && !r.phase.Done?
      {
        KeepMembers(rs, fired, r);
      }
      KeepLength(rs, purposes, fired);
      routines, purposes, scoreText := Keep(rs, fired), Keep(purposes, fired), text;
    }
  }

  /** The loop of the ticker over routines `rs` with purposes `ps`, the
      score text being `text` before it; `text'` is the score text after. */
  method ResumeEach(rs: seq<Routine>, ps: seq<Purpose>, text: ScoreText, now: real)
      returns (fired: seq<seq<Event>>, text': ScoreText)
    requires |rs| == |ps|
    requires forall j, k :: 0 <= j < k < |rs| ==> rs[j] != rs[k]
    requires forall r :: r in rs ==> r.Valid() && r.cfg.hasCallback && !r.phase.Done?
    modifies rs
    ensures |fired| == |rs|
    ensures forall i :: 0 <= i < |rs| ==> Resumed(rs[i], fired[i], now)
    ensures text' == ScoreAfter(text, ps, fired)
  {
    fired, text' := [], text;
    var i := 0;
    while i < |rs|
      invariant 0 <= i <= |rs| && |fired| == i
      invariant forall j :: 0 <= j < i ==> Resumed(rs[j], fired[j], now)
      invariant forall j :: i <= j < |rs| ==> unchanged(rs[j])
      invariant text' == ScoreAfter(text, ps[..i], fired)
    {
      var f := rs[i].Resume(now);
      if ps[i].Score? && f != [] && f[0].Action? {
        text' := Display(ps[i].win, f[0].value);
      }
      assert ps[..i + 1] == ps[..i] + [ps[i]];
      ScoreSnoc(text, ps[..i], fired, ps[i], f);
      fired := fired + [f];
      i := i + 1;
    }
    assert ps[..i] == ps;
  }

  lemma {:induction false} KeepLength<T, U>(xs: seq<T>, ys: seq<U>, fs: seq<seq<Event>>)
    requires |xs| == |ys| == |fs|
    ensures |Keep(xs, fs)| == |Keep(ys, fs)|
  {
    if xs != [] {
      KeepLength(xs[..|xs| - 1], ys[..|ys| - 1], fs[..|fs| - 1]);
    }
  }
}
