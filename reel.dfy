/** One reel of the slot machine (src/component/ReelComponent.js): its
    position along the strip, its speed, whether it is starting or stopping,
    the symbols still to show when stopping, the four symbol slots it cycles
    through, and the routine animating it.

    A slot is described by its vertical offset and its texture; a texture is
    an index into the reel's texture list, or `undefined` when a symbol
    number falls outside that list. Sprites, blur and brightness are not
    modelled. Time is the clock value passed to `Update`, and the random
    texture pick is any index of the list. */
module ReelComponent {
  import opened Easing
  import opened Coroutine
  import opened JsValue

  const SlotCount: nat := 4
  const MaxSpeed: real := 10.0
  const Acceleration: real := 20.0
  /** Length of a highlight animation, in milliseconds. */
  const HighlightDuration: real := 1200.0

  datatype ReelState = Starting | Stopping

  datatype Texture = Texture(index: nat) | NoTexture

  datatype Pose = Pose(position: real, speed: real)

  /** What the action and the callback of the reel's routine do, with the
      values their closures captured. */
  datatype Job =
    | Idle
      /** startSpin: speed eases from `fromSpeed` to the maximum. */
    | SpeedRamp(fromSpeed: real)
      /** stopSpin: position moves linearly to `target`, then animateStop. */
    | Approach(fromPosition: real, target: real, stopDuration: real, finish: int)
      /** animateStop: position and speed ease to `finish` and 0. */
    | Settle(fromPosition: real, fromSpeed: real, finish: int)
      /** highlight: only brightness changes. */
    | Glow

  /** `Math.ceil(x)`. */
  function Ceil(x: real): (n: int)
    ensures x <= n as real < x + 1.0
  {
    -((-x).Floor)
  }

  /** The integer part of `q`, rounded toward zero. */
  function Trunc(q: real): (n: int)
    ensures q >= 0.0 ==> 0.0 <= q - n as real < 1.0
    ensures q < 0.0 ==> -1.0 < q - n as real <= 0.0
  {
    if q >= 0.0 then q.Floor else -((-q).Floor)
  }

  /** JavaScript's `x % 4`: the remainder takes the sign of `x`. */
  function JsRem(x: real): (r: real)
    ensures x >= 0.0 ==> 0.0 <= r < 4.0
    ensures x < 0.0 ==> -4.0 < r <= 0.0
    ensures exists q: int :: x == FourTimes(q) + r
  {
    var q := Trunc(x / 4.0);
    x - FourTimes(q)
  }

  function FourTimes(q: int): real
  {
    4.0 * q as real
  }

  /** `((position + i) % 4) * size - size`: where slot `i` is drawn. Ahead
      of the start of the strip it lies in [-size, 3 * size); behind it,
      where the remainder is negative, in (-5 * size, -size]. */
  function SlotOffset(position: real, i: int, size: real): (y: real)
    ensures size > 0.0 && position + i as real >= 0.0 ==> -size <= y < 3.0 * size
    ensures size > 0.0 && position + i as real < 0.0 ==> -5.0 * size < y <= -size
  {
    var r := JsRem(position + i as real);
    if size > 0.0 then
      ScaledRemBounds(r, size);
      r * size - size
    else
      r * size - size
  }

  lemma MulOrder(a: real, b: real, s: real)
    requires a < b && s > 0.0
    ensures a * s < b * s
  {
    MulPositive(b - a, s);
  }

  /** `r * size - size` for a remainder `r` of either sign. */
  lemma ScaledRemBounds(r: real, size: real)
    requires size > 0.0 && -4.0 < r < 4.0
    ensures r >= 0.0 ==> -size <= r * size - size < 3.0 * size
    ensures r <= 0.0 ==> -5.0 * size < r * size - size <= -size
  {
    if r > 0.0 {
      MulPositive(r, size);
      MulPositive(4.0 - r, size);
    } else if r < 0.0 {
      MulPositive(-r, size);
      MulPositive(r + 4.0, size);
    }
  }

  /** Whatever the position, no two slots are drawn at the same offset. */
  lemma SlotOffsetsDistinct(position: real, i: int, j: int, size: real)
    requires 0 <= i < j < SlotCount as int && size > 0.0
    ensures SlotOffset(position, i, size) != SlotOffset(position, j, size)
  {
    RemsDiffer(position + i as real, position + j as real, j - i);
    OffsetsOfDistinctRems(position, i, j, size);
  }

  lemma OffsetsOfDistinctRems(position: real, i: int, j: int, size: real)
    requires size > 0.0 && JsRem(position + i as real) != JsRem(position + j as real)
    ensures SlotOffset(position, i, size) != SlotOffset(position, j, size)
  {
    ScaleInjective(JsRem(position + i as real), JsRem(position + j as real), size);
  }

  lemma ScaleInjective(a: real, b: real, s: real)
    requires a != b && s > 0.0
    ensures a * s - s != b * s - s
  {
    if a < b {
      MulOrder(a, b, s);
    } else {
      MulOrder(b, a, s);
    }
  }

  /** Numbers less than 4 apart leave different remainders modulo 4. */
  lemma RemsDiffer(x: real, y: real, d: int)
    requires 0 < d < 4 && y == x + d as real
    ensures JsRem(x) != JsRem(y)
  {
    var kx, ky := Trunc(x / 4.0), Trunc(y / 4.0);
    assert JsRem(y) - JsRem(x) == d as real - 4.0 * (ky - kx) as real;
  }

  /** The four slot offsets at `position`. */
  function Offsets(position: real, size: real): seq<real>
  {
    seq(SlotCount, i => SlotOffset(position, i, size))
  }

  /** A slot wraps round from the bottom to the top: its texture is then
      replaced. */
  predicate Crosses(prev: real, y: real, size: real)
  {
    y < 0.0 && prev > size
  }

  /** The slots among the first `n` that wrap round when the reel moves to
      `position`, in slot order. */
  function Swaps(prevYs: seq<real>, position: real, size: real, n: nat): (s: seq<nat>)
    requires n <= |prevYs|
    ensures forall j :: 0 <= j < |s| ==> s[j] < n
    ensures forall j, k :: 0 <= j < k < |s| ==> s[j] < s[k]
    ensures forall i :: 0 <= i < n ==> (i in s <==> Crosses(prevYs[i], SlotOffset(position, i, size), size))
  {
    if n == 0 then []
    else
      Swaps(prevYs, position, size, n - 1)
      + if Crosses(prevYs[n - 1], SlotOffset(position, n - 1, size), size) then [n - 1] else []
  }

  /** `symbolTextures[k]`: the texture, or `undefined` for an index outside
      the list (including NaN and the -1 of an empty board field). */
  function Lookup(k: JsNumber, count: nat): (t: Texture)
    ensures t.Texture? <==> k.Num? && 0 <= k.value < count
    ensures t.Texture? ==> t.index == k.value
  {
    if k.Num? && 0 <= k.value < count then Texture(k.value) else NoTexture
  }

  /** What `getRandomSymbolTexture` may return: any texture of the list;
      `undefined` when the list is empty. */
  predicate RandomPick(t: Texture, count: nat)
  {
    if count == 0 then t == NoTexture else t.Texture? && t.index < count
  }

  function Min(a: nat, b: nat): nat
  {
    if a < b then a else b
  }

  /** Whether the `j`-th texture a redraw fetches is `undefined`: the
      queued symbol has no texture, or, once the queue is empty, the list
      is. `updateTexture(undefined)` then throws a TypeError. */
  predicate Missing(prevSeq: seq<JsNumber>, j: nat, count: nat)
  {
    if j < |prevSeq| then Lookup(prevSeq[j], count).NoTexture? else count == 0
  }

  /** The texture `t` of the slot that makes the `j`-th wrap, which had
      `prior`: the front of the queued symbols, or a random texture once
      they are used up; a missing texture leaves `prior`, as `updateTexture`
      throws before it assigns. */
  predicate Fetch(prevSeq: seq<JsNumber>, j: nat, count: nat, prior: Texture, t: Texture)
  {
    if Missing(prevSeq, j, count) then t == prior
    else if j < |prevSeq| then t == Lookup(prevSeq[j], count)
    else RandomPick(t, count)
  }

  /** Every slot among the first `n` that wraps round fetches a defined
      texture. */
  predicate AllFetched(prevYs: seq<real>, prevSeq: seq<JsNumber>, position: real, size: real,
                       count: nat, n: nat)
    requires n <= |prevYs|
  {
    || n == 0
    || (&& AllFetched(prevYs, prevSeq, position, size, count, n - 1)
        && (Crosses(prevYs[n - 1], SlotOffset(position, n - 1, size), size) ==>
              !Missing(prevSeq, |Swaps(prevYs, position, size, n - 1)|, count)))
  }

  /** A texture missing among the first `n` slots is missing among more. */
  lemma {:induction false} MissingPersists(prevYs: seq<real>, prevSeq: seq<JsNumber>, position: real,
                                           size: real, count: nat, n: nat, m: nat)
    requires n <= m <= |prevYs|
    requires !AllFetched(prevYs, prevSeq, position, size, count, n)
    ensures !AllFetched(prevYs, prevSeq, position, size, count, m)
    decreases m - n
  {
    if n < m {
      MissingPersists(prevYs, prevSeq, position, size, count, n, m - 1);
    }
  }

  /** `updateSymbols` done on the first `n` slots: those redrawn at the new
      offset, each slot that wrapped round given the next texture as `Fetch`
      says, the others untouched. */
  ghost predicate SlotsAdvanced(prevYs: seq<real>, prevTex: seq<Texture>, prevSeq: seq<JsNumber>,
                                ys: seq<real>, tex: seq<Texture>, symbolSeq: seq<JsNumber>,
                                position: real, size: real, count: nat, n: nat)
    requires n <= |prevYs| == |prevTex| == |ys| == |tex|
  {
    var swaps := Swaps(prevYs, position, size, n);
    && (forall i :: 0 <= i < n ==> ys[i] == SlotOffset(position, i, size))
    && (forall i :: n <= i < |ys| ==> ys[i] == prevYs[i] && tex[i] == prevTex[i])
    && (forall i :: 0 <= i < n && i !in swaps ==> tex[i] == prevTex[i])
    && (forall j :: 0 <= j < |swaps| ==> Fetch(prevSeq, j, count, prevTex[swaps[j]], tex[swaps[j]]))
    && symbolSeq == prevSeq[Min(|swaps|, |prevSeq|)..]
  }

  /** How many of the first `n` slots the loop of `updateSymbols` redraws:
      all of them, or up to and including the first that throws. */
  function SlotsReached(prevYs: seq<real>, prevSeq: seq<JsNumber>, position: real, size: real,
                        count: nat, n: nat): (m: nat)
    requires n <= |prevYs|
    ensures m <= n
    ensures AllFetched(prevYs, prevSeq, position, size, count, n) ==> m == n
  {
    if n == 0 then 0
    else if AllFetched(prevYs, prevSeq, position, size, count, n - 1) then n
    else SlotsReached(prevYs, prevSeq, position, size, count, n - 1)
  }

  /** The loop stops at the first slot that throws, however many follow. */
  lemma {:induction false} ReachedStops(prevYs: seq<real>, prevSeq: seq<JsNumber>, position: real,
                                        size: real, count: nat, n: nat, m: nat)
    requires 0 < n <= m <= |prevYs|
    requires AllFetched(prevYs, prevSeq, position, size, count, n - 1)
    requires !AllFetched(prevYs, prevSeq, position, size, count, n)
    ensures SlotsReached(prevYs, prevSeq, position, size, count, m) == n
    decreases m
  {
    if n < m {
      MissingPersists(prevYs, prevSeq, position, size, count, n, m - 1);
      ReachedStops(prevYs, prevSeq, position, size, count, n, m - 1);
    }
  }

  /** The outcome of `updateSymbols`: `ok` iff every wrap fetched a
      texture; the slots the loop reached are redrawn, which is all four,
      at their offsets, when it did not throw. */
  ghost predicate Redrawn(prevYs: seq<real>, prevTex: seq<Texture>, prevSeq: seq<JsNumber>,
                          ys: seq<real>, tex: seq<Texture>, symbolSeq: seq<JsNumber>,
                          position: real, size: real, count: nat, ok: bool)
    requires SlotCount == |prevYs| == |prevTex| == |ys| == |tex|
  {
    && (ok <==> AllFetched(prevYs, prevSeq, position, size, count, SlotCount))
    && (ok ==> ys == Offsets(position, size))
    && SlotsAdvanced(prevYs, prevTex, prevSeq, ys, tex, symbolSeq, position, size, count,
                     SlotsReached(prevYs, prevSeq, position, size, count, SlotCount))
  }

  /** Where the loop of `updateSymbols` ends: after the last slot, or just
      after the slot that threw. */
  lemma LoopOutcome(prevYs: seq<real>, prevTex: seq<Texture>, prevSeq: seq<JsNumber>,
                    ys: seq<real>, tex: seq<Texture>, symbolSeq: seq<JsNumber>,
                    position: real, size: real, count: nat, i: nat, ok: bool)
    requires SlotCount == |prevYs| == |prevTex| == |ys| == |tex| && i <= SlotCount
    requires SlotsAdvanced(prevYs, prevTex, prevSeq, ys, tex, symbolSeq, position, size, count, i)
    requires ok <==> AllFetched(prevYs, prevSeq, position, size, count, i)
    requires ok ==> i == SlotCount
    requires !ok ==> i > 0 && AllFetched(prevYs, prevSeq, position, size, count, i - 1)
    ensures Redrawn(prevYs, prevTex, prevSeq, ys, tex, symbolSeq, position, size, count, ok)
  {
    if ok {
      assert ys == Offsets(position, size);
    } else {
      MissingPersists(prevYs, prevSeq, position, size, count, i, SlotCount);
      ReachedStops(prevYs, prevSeq, position, size, count, i, SlotCount);
    }
  }

  /** Redrawing slot `n` extends `SlotsAdvanced` from the first `n` slots to
      the first `n + 1`; `fetched` is what `getNextSymbolTexture` returned
      if the slot wrapped round. Whether it is defined decides whether the
      first `n + 1` slots all fetched a texture. */
  lemma SlotsAdvancedStep(prevYs: seq<real>, prevTex: seq<Texture>, prevSeq: seq<JsNumber>,
                          ys: seq<real>, tex: seq<Texture>, symbolSeq: seq<JsNumber>,
                          ys': seq<real>, tex': seq<Texture>, symbolSeq': seq<JsNumber>,
                          position: real, size: real, count: nat, n: nat, fetched: Texture)
    requires n < |prevYs| == |prevTex| == |ys| == |tex|
    requires SlotsAdvanced(prevYs, prevTex, prevSeq, ys, tex, symbolSeq, position, size, count, n)
    requires ys' == ys[n := SlotOffset(position, n, size)]
    requires !Crosses(ys[n], ys'[n], size) ==> tex' == tex && symbolSeq' == symbolSeq
    requires Crosses(ys[n], ys'[n], size) ==>
      && tex' == (if fetched.Texture? then tex[n := fetched] else tex)
      && (symbolSeq != [] ==> fetched == Lookup(symbolSeq[0], count) && symbolSeq' == symbolSeq[1..])
      && (symbolSeq == [] ==> RandomPick(fetched, count) && symbolSeq' == [])
    ensures |ys'| == |tex'| == |ys|
    ensures SlotsAdvanced(prevYs, prevTex, prevSeq, ys', tex', symbolSeq', position, size, count, n + 1)
    ensures AllFetched(prevYs, prevSeq, position, size, count, n) ==>
      (AllFetched(prevYs, prevSeq, position, size, count, n + 1) <==>
       !Crosses(ys[n], ys'[n], size) || fetched.Texture?)
  {
    if Crosses(ys[n], ys'[n], size) {
      WrapStep(prevYs, prevTex, prevSeq, ys, tex, symbolSeq, ys', tex', symbolSeq', position, size, count, n, fetched);
      WrapFetched(prevYs, prevSeq, symbolSeq, position, size, count, n, fetched);
    } else {
      var before := Swaps(prevYs, position, size, n);
      assert Swaps(prevYs, position, size, n + 1) == before;
    }
  }

  /** `SlotsAdvancedStep` for a slot that wraps round. */
  lemma WrapStep(prevYs: seq<real>, prevTex: seq<Texture>, prevSeq: seq<JsNumber>,
                 ys: seq<real>, tex: seq<Texture>, symbolSeq: seq<JsNumber>,
                 ys': seq<real>, tex': seq<Texture>, symbolSeq': seq<JsNumber>,
                 position: real, size: real, count: nat, n: nat, fetched: Texture)
    requires n < |prevYs| == |prevTex| == |ys| == |tex|
    requires SlotsAdvanced(prevYs, prevTex, prevSeq, ys, tex, symbolSeq, position, size, count, n)
    requires ys' == ys[n := SlotOffset(position, n, size)]
    requires Crosses(ys[n], ys'[n], size)
    requires tex' == (if fetched.Texture? then tex[n := fetched] else tex)
    requires symbolSeq != [] ==> fetched == Lookup(symbolSeq[0], count) && symbolSeq' == symbolSeq[1..]
    requires symbolSeq == [] ==> RandomPick(fetched, count) && symbolSeq' == []
    ensures SlotsAdvanced(prevYs, prevTex, prevSeq, ys', tex', symbolSeq', position, size, count, n + 1)
  {
    var before := Swaps(prevYs, position, size, n);
    var after := Swaps(prevYs, position, size, n + 1);
    assert after == before + [n];
    WrapFetch(prevSeq, symbolSeq, symbolSeq', |before|, count, prevTex[n], fetched);
    var t := if fetched.Texture? then fetched else prevTex[n];
    assert tex' == tex[n := t];
    ExtendTextures(prevTex, tex, prevSeq, count, before, n, t);
    forall i | 0 <= i < n + 1
      ensures ys'[i] == SlotOffset(position, i, size)
    {
    }
  }

  /** Giving slot `n` the texture the next wrap fetches extends the
      texture part of `SlotsAdvanced` by one wrap. */
  lemma ExtendTextures(prevTex: seq<Texture>, tex: seq<Texture>, prevSeq: seq<JsNumber>, count: nat,
                       before: seq<nat>, n: nat, t: Texture)
    requires n < |prevTex| == |tex|
    requires forall j :: 0 <= j < |before| ==> before[j] < n
    requires forall i :: n <= i < |tex| ==> tex[i] == prevTex[i]
    requires forall i :: 0 <= i < n && i !in before ==> tex[i] == prevTex[i]
    requires forall j :: 0 <= j < |before| ==> Fetch(prevSeq, j, count, prevTex[before[j]], tex[before[j]])
    requires Fetch(prevSeq, |before|, count, prevTex[n], t)
    ensures forall i :: n + 1 <= i < |tex| ==> tex[n := t][i] == prevTex[i]
    ensures forall i :: 0 <= i < n + 1 && i !in before + [n] ==> tex[n := t][i] == prevTex[i]
    ensures forall j :: 0 <= j < |before| + 1 ==>
      Fetch(prevSeq, j, count, prevTex[(before + [n])[j]], tex[n := t][(before + [n])[j]])
  {
    var after := before + [n];
    forall j | 0 <= j < |after|
      ensures Fetch(prevSeq, j, count, prevTex[after[j]], tex[n := t][after[j]])
    {
      if j < |before| {
        assert after[j] == before[j] < n;
      }
    }
  }

  /** A slot that wraps round keeps every texture fetched so far defined
      exactly when `getNextSymbolTexture` returned a defined one. */
  lemma WrapFetched(prevYs: seq<real>, prevSeq: seq<JsNumber>, symbolSeq: seq<JsNumber>,
                    position: real, size: real, count: nat, n: nat, fetched: Texture)
    requires n < |prevYs|
    requires Crosses(prevYs[n], SlotOffset(position, n, size), size)
    requires symbolSeq == prevSeq[Min(|Swaps(prevYs, position, size, n)|, |prevSeq|)..]
    requires symbolSeq != [] ==> fetched == Lookup(symbolSeq[0], count)
    requires symbolSeq == [] ==> RandomPick(fetched, count)
    ensures AllFetched(prevYs, prevSeq, position, size, count, n) ==>
      (AllFetched(prevYs, prevSeq, position, size, count, n + 1) <==> fetched.Texture?)
  {
    var j := |Swaps(prevYs, position, size, n)|;
    if j < |prevSeq| {
      assert symbolSeq[0] == prevSeq[j];
    }
  }

  /** What the `j`-th wrap takes from the queued symbols: the texture `Fetch`
      names, missing exactly when `Missing` says, and one symbol fewer. */
  lemma WrapFetch(prevSeq: seq<JsNumber>, symbolSeq: seq<JsNumber>, symbolSeq': seq<JsNumber>,
                  j: nat, count: nat, prior: Texture, fetched: Texture)
    requires symbolSeq == prevSeq[Min(j, |prevSeq|)..]
    requires symbolSeq != [] ==> fetched == Lookup(symbolSeq[0], count) && symbolSeq' == symbolSeq[1..]
    requires symbolSeq == [] ==> RandomPick(fetched, count) && symbolSeq' == []
    ensures symbolSeq' == prevSeq[Min(j + 1, |prevSeq|)..]
    ensures fetched.NoTexture? <==> Missing(prevSeq, j, count)
    ensures Fetch(prevSeq, j, count, prior, if fetched.Texture? then fetched else prior)
  {
    if j < |prevSeq| {
      assert symbolSeq[0] == prevSeq[j];
      assert symbolSeq[1..] == prevSeq[j + 1..];
    }
  }

  /** The effect of the routine's `action(v)` on position and speed. */
  function ActionPose(job: Job, pose: Pose, v: real): (r: Pose)
    ensures job.SpeedRamp? ==> r.position == pose.position
    ensures job.Approach? ==> r.speed == pose.speed
    ensures job.Idle? || job.Glow? ==> r == pose
    ensures v == 1.0 && job.SpeedRamp? ==> r.speed == MaxSpeed
    ensures v == 1.0 && job.Approach? ==> r.position == job.target
    ensures v == 1.0 && job.Settle? ==> r == Pose(job.finish as real, 0.0)
  {
    match job
    case SpeedRamp(from) => Pose(pose.position, Lerp(from, MaxSpeed, v))
    case Approach(from, target, _, _) => Pose(Lerp(from, target, v), pose.speed)
    case Settle(fromPosition, fromSpeed, finish) =>
      Pose(Lerp(fromPosition, finish as real, v), Lerp(fromSpeed, 0.0, v))
    case _ => pose
  }

  /** The pose after the routine made the calls `fired`: only the action
      changes it, and a resume makes at most one action call. */
  function Animated(job: Job, pose: Pose, fired: seq<Event>): Pose
  {
    if fired != [] && fired[0].Action? then ActionPose(job, pose, fired[0].value) else pose
  }

  /** `Math.ceil(position + 3)`: the whole position where a stop ends, at
      least three symbols further on. */
  function Finish(position: real): (f: int)
    ensures position + 3.0 <= f as real < position + 4.0
  {
    Ceil(position + 3.0)
  }

  /** Where the linear approach of a stop hands over to the settle, at
      speed `speed`. */
  function Target(position: real, speed: real): (t: real)
    ensures Finish(position) as real - t == speed * speed / (2.0 * Acceleration)
  {
    Finish(position) as real - 0.5 * speed * (speed / Acceleration)
  }

  lemma MulMono(a: real, b: real, c: real, d: real)
    requires 0.0 <= a <= c && 0.0 <= b <= d
    ensures a * b <= c * d
  {
    if a > 0.0 && b < d {
      MulOrder(b, d, a);
    }
    if b > 0.0 && a < c {
      MulOrder(a, c, b);
    }
  }

  /** At any speed up to the maximum, the target is ahead of the reel, so
      the approach moves forward and lasts a positive time, during which
      the reel keeps its speed. */
  lemma ApproachMovesForward(position: real, speed: real)
    requires 0.0 < speed <= MaxSpeed
    ensures Target(position, speed) > position
    ensures (Target(position, speed) - position) / speed * 1000.0 > 0.0
    ensures (Target(position, speed) - position) / speed * 1000.0 * speed / 1000.0 == Target(position, speed) - position
  {
    MulMono(speed, speed / Acceleration, MaxSpeed, MaxSpeed / Acceleration);
    var d := Target(position, speed) - position;
    assert (d / speed) * speed == d;
  }

  /** No slot number occurs twice. */
  predicate Distinct(s: seq<nat>)
  {
    forall j, k :: 0 <= j < k < |s| ==> s[j] != s[k]
  }

  /** Sorted by offset, largest first. */
  predicate Descending(ys: seq<real>, s: seq<nat>)
    requires forall k :: 0 <= k < |s| ==> s[k] < |ys|
  {
    forall j, k :: 0 <= j < k < |s| ==> ys[s[j]] >= ys[s[k]]
  }

  /** Targets of `highlight`: slot numbers sorted by offset, largest first;
      equal offsets keep slot order, as `Array.prototype.sort` is stable. */
  function SortByOffset(ys: seq<real>, idx: seq<nat>): (s: seq<nat>)
    requires forall k :: 0 <= k < |idx| ==> idx[k] < |ys|
    ensures |s| == |idx| && multiset(s) == multiset(idx)
    ensures forall k :: 0 <= k < |s| ==> s[k] < |ys|
    ensures Descending(ys, s)
  {
    if idx == [] then []
    else
      var prefix := idx[..|idx| - 1];
      var x := idx[|idx| - 1];
      assert idx == prefix + [x];
      InsertPermutes(ys, x, SortByOffset(ys, prefix));
      InsertDescending(ys, x, SortByOffset(ys, prefix));
      Insert(ys, x, SortByOffset(ys, prefix))
  }

  /** Places `x` after every slot whose offset is at least its own. */
  function Insert(ys: seq<real>, x: nat, s: seq<nat>): (r: seq<nat>)
    requires x < |ys| && forall k :: 0 <= k < |s| ==> s[k] < |ys|
    ensures |r| == |s| + 1
    ensures forall k :: 0 <= k < |r| ==> r[k] < |ys|
    ensures r[0] == x || (s != [] && r[0] == s[0])
  {
    if s == [] then [x]
    else if ys[s[0]] >= ys[x] then [s[0]] + Insert(ys, x, s[1..])
    else [x] + s
  }

  /** Inserting into slots sorted by offset keeps them sorted. */
  lemma {:induction false} InsertDescending(ys: seq<real>, x: nat, s: seq<nat>)
    requires x < |ys| && forall k :: 0 <= k < |s| ==> s[k] < |ys|
    requires Descending(ys, s)
    ensures Descending(ys, Insert(ys, x, s))
  {
    if s != [] && ys[s[0]] >= ys[x] {
      DescendingTail(ys, s);
      InsertDescending(ys, x, s[1..]);
      var rest := Insert(ys, x, s[1..]);
      assert rest[0] == x || (|s| > 1 && rest[0] == s[1]);
      ConsDescending(ys, s[0], rest);
    } else if s != [] {
      ConsDescending(ys, x, s);
    }
  }

  lemma DescendingTail(ys: seq<real>, s: seq<nat>)
    requires s != [] && forall k :: 0 <= k < |s| ==> s[k] < |ys|
    requires Descending(ys, s)
    ensures Descending(ys, s[1..])
  {
    var tail := s[1..];
    forall j, k | 0 <= j < k < |tail|
      ensures ys[tail[j]] >= ys[tail[k]]
    {
      assert tail[j] == s[j + 1] && tail[k] == s[k + 1];
    }
  }

  lemma ConsMultiset(h: nat, rest: seq<nat>, tail: seq<nat>, x: nat)
    requires multiset(rest) == multiset(tail) + multiset{x}
    ensures multiset([h] + rest) == multiset([h] + tail) + multiset{x}
  {
  }

  /** Inserting adds `x` to the slots and loses none. */
  lemma {:induction false} InsertPermutes(ys: seq<real>, x: nat, s: seq<nat>)
    requires x < |ys| && forall k :: 0 <= k < |s| ==> s[k] < |ys|
    ensures multiset(Insert(ys, x, s)) == multiset(s) + multiset{x}
  {
    if s != [] && ys[s[0]] >= ys[x] {
      var tail := s[1..];
      InsertPermutes(ys, x, tail);
      var rest := Insert(ys, x, tail);
      assert Insert(ys, x, s) == [s[0]] + rest;
      assert s == [s[0]] + tail;
      ConsMultiset(s[0], rest, tail, x);
    }
  }

  /** A slot with an offset no lower than the first of a descending list
      can go in front of it. */
  lemma ConsDescending(ys: seq<real>, h: nat, s: seq<nat>)
    requires h < |ys| && forall k :: 0 <= k < |s| ==> s[k] < |ys|
    requires Descending(ys, s) && (s != [] ==> ys[h] >= ys[s[0]])
    ensures Descending(ys, [h] + s)
  {
    forall j, k | 0 <= j < k < |s| + 1
      ensures ys[([h] + s)[j]] >= ys[([h] + s)[k]]
    {
      if j == 0 && k > 1 {
        assert ys[s[0]] >= ys[s[k - 1]];
      }
    }
  }

  /** `reverse()` on a copy. */
  function Reverse<T>(s: seq<T>): (r: seq<T>)
    ensures |r| == |s|
    ensures forall k :: 0 <= k < |s| ==> r[k] == s[|s| - 1 - k]
  {
    if s == [] then [] else Reverse(s[1..]) + [s[0]]
  }

  /** `[...symbols].sort((a, b) => b.y - a.y).slice(0, 3).reverse()`. */
  function HighlightTargets(ys: seq<real>): (t: seq<nat>)
    requires |ys| == SlotCount
    ensures |t| == 3 && forall k :: 0 <= k < 3 ==> t[k] < SlotCount
  {
    Reverse(SortByOffset(ys, SlotNumbers(SlotCount))[..3])
  }

  /** The slot numbers `0 .. n - 1`, in order. */
  function SlotNumbers(n: nat): (r: seq<nat>)
    ensures |r| == n && forall k :: 0 <= k < n ==> r[k] == k
  {
    if n == 0 then [] else SlotNumbers(n - 1) + [n - 1]
  }

  /** The targets are three different slots in ascending order of offset,
      and the slot left out is drawn no lower than any of them. */
  lemma HighlightTargetsAreTopThree(ys: seq<real>)
    requires |ys| == SlotCount
    ensures var t := HighlightTargets(ys);
      && |t| == 3
      && (forall k :: 0 <= k < 3 ==> t[k] < SlotCount)
      && t[0] != t[1] && t[1] != t[2] && t[0] != t[2]
      && ys[t[0]] <= ys[t[1]] <= ys[t[2]]
      && exists out :: 0 <= out < SlotCount && out !in t && forall k :: 0 <= k < 3 ==> ys[out] <= ys[t[k]]
  {
    SlotsSorted(ys);
    TopThree(ys, SortByOffset(ys, SlotNumbers(SlotCount)));
  }

  /** Sorting the four slot numbers gives each of them once. */
  lemma SlotsSorted(ys: seq<real>)
    requires |ys| == SlotCount
    ensures var s := SortByOffset(ys, SlotNumbers(SlotCount));
      |s| == SlotCount && Distinct(s) && (forall k :: 0 <= k < |s| ==> s[k] < SlotCount)
  {
    var idx := SlotNumbers(SlotCount);
    SortDistinct(ys, idx);
  }

  lemma TopThree(ys: seq<real>, s: seq<nat>)
    requires |s| == SlotCount && Distinct(s) && forall k :: 0 <= k < |s| ==> s[k] < |ys|
    requires Descending(ys, s)
    ensures var t := Reverse(s[..3]);
      && |t| == 3 && (forall k :: 0 <= k < 3 ==> t[k] in s)
      && t[0] != t[1] && t[1] != t[2] && t[0] != t[2]
      && ys[t[0]] <= ys[t[1]] <= ys[t[2]]
      && s[3] !in t && forall k :: 0 <= k < 3 ==> ys[s[3]] <= ys[t[k]]
  {
    var t := Reverse(s[..3]);
    assert t == [s[2], s[1], s[0]];
  }

  /** Inserting a new slot number keeps the numbers distinct, and adds
      exactly that number. */
  lemma {:induction false} InsertDistinct(ys: seq<real>, x: nat, s: seq<nat>)
    requires x < |ys| && forall k :: 0 <= k < |s| ==> s[k] < |ys|
    requires Distinct(s) && x !in s
    ensures forall y :: y in Insert(ys, x, s) <==> y == x || y in s
    ensures Distinct(Insert(ys, x, s))
  {
    if s != [] && ys[s[0]] >= ys[x] {
      assert s == [s[0]] + s[1..];
      InsertDistinct(ys, x, s[1..]);
      var rest := Insert(ys, x, s[1..]);
      assert s[0] !in rest;
      ConsDistinct(s[0], rest);
    } else {
      ConsDistinct(x, s);
    }
  }

  /** A slot number not in a distinct list can go in front of it. */
  lemma ConsDistinct(h: nat, s: seq<nat>)
    requires Distinct(s) && h !in s
    ensures Distinct([h] + s)
  {
    forall j, k | 0 <= j < k < |s| + 1
      ensures ([h] + s)[j] != ([h] + s)[k]
    {
      if j == 0 {
        assert ([h] + s)[k] == s[k - 1];
      }
    }
  }

  /** Sorting distinct slot numbers gives distinct slot numbers, the same
      ones. */
  lemma {:induction false} SortDistinct(ys: seq<real>, idx: seq<nat>)
    requires forall k :: 0 <= k < |idx| ==> idx[k] < |ys|
    requires Distinct(idx)
    ensures forall y :: y in SortByOffset(ys, idx) <==> y in idx
    ensures Distinct(SortByOffset(ys, idx))
  {
    if idx != [] {
      var prefix := idx[..|idx| - 1];
      var x := idx[|idx| - 1];
      assert idx == prefix + [x];
      SortDistinct(ys, prefix);
      InsertDistinct(ys, x, SortByOffset(ys, prefix));
    }
  }

  /** `highlight[i]`: a missing entry is `undefined`, which is falsy. */
  function Flag(flags: seq<bool>, i: nat): bool
  {
    i < |flags| && flags[i]
  }

  /** `targets.filter((sym, i) => highlight[i])`, from position `from` on. */
  function Light(targets: seq<nat>, flags: seq<bool>, from: nat): (r: seq<nat>)
    ensures forall x :: x in r ==> x in targets
    decreases |targets| - from
  {
    if from >= |targets| then []
    else (if Flag(flags, from) then [targets[from]] else []) + Light(targets, flags, from + 1)
  }

  /** `targets.filter((sym, i) => !highlight[i])`, from position `from` on. */
  function Dark(targets: seq<nat>, flags: seq<bool>, from: nat): (r: seq<nat>)
    ensures forall x :: x in r ==> x in targets
    decreases |targets| - from
  {
    if from >= |targets| then []
    else (if Flag(flags, from) then [] else [targets[from]]) + Dark(targets, flags, from + 1)
  }

  /** The lit and the dimmed symbols split the targets between them: every
      target goes to exactly one of the two, according to its flag. */
  lemma LightDarkPartition(targets: seq<nat>, flags: seq<bool>, from: nat)
    requires from <= |targets|
    ensures multiset(Light(targets, flags, from)) + multiset(Dark(targets, flags, from))
         == multiset(targets[from..])
    ensures forall k :: from <= k < |targets| && Flag(flags, k) ==> targets[k] in Light(targets, flags, from)
    ensures forall k :: from <= k < |targets| && !Flag(flags, k) ==> targets[k] in Dark(targets, flags, from)
  {
    LightDarkCounts(targets, flags, from);
    LightMembers(targets, flags, from);
    DarkMembers(targets, flags, from);
  }

  lemma {:induction false} LightDarkCounts(targets: seq<nat>, flags: seq<bool>, from: nat)
    requires from <= |targets|
    ensures multiset(Light(targets, flags, from)) + multiset(Dark(targets, flags, from))
         == multiset(targets[from..])
    decreases |targets| - from
  {
    if from < |targets| {
      LightDarkCounts(targets, flags, from + 1);
      var t := targets[from];
      var light, dark := Light(targets, flags, from + 1), Dark(targets, flags, from + 1);
      assert targets[from..] == [t] + targets[from + 1..];
      assert multiset(targets[from..]) == multiset{t} + multiset(targets[from + 1..]);
      if Flag(flags, from) {
        assert Light(targets, flags, from) == [t] + light;
        assert multiset([t] + light) == multiset{t} + multiset(light);
      } else {
        assert Dark(targets, flags, from) == [t] + dark;
        assert multiset([t] + dark) == multiset{t} + multiset(dark);
      }
    }
  }

  lemma {:induction false} LightMembers(targets: seq<nat>, flags: seq<bool>, from: nat)
    requires from <= |targets|
    ensures forall k :: from <= k < |targets| && Flag(flags, k) ==> targets[k] in Light(targets, flags, from)
    decreases |targets| - from
  {
    if from < |targets| {
      LightMembers(targets, flags, from + 1);
    }
  }

  lemma {:induction false} DarkMembers(targets: seq<nat>, flags: seq<bool>, from: nat)
    requires from <= |targets|
    ensures forall k :: from <= k < |targets| && !Flag(flags, k) ==> targets[k] in Dark(targets, flags, from)
    decreases |targets| - from
  {
    if from < |targets| {
      DarkMembers(targets, flags, from + 1);
    }
  }

  class Reel {
    var position: real
    var speed: real
    var state: ReelState
    /** Symbols still to show, next one first (`symbolSeq`). */
    var symbolSeq: seq<JsNumber>
    /** The `y` of each of the four symbol slots. */
    var ys: seq<real>
    var textures: seq<Texture>
    var routine: Routine?
    var job: Job
    /** Whether the promise of the last `stopSpin` has resolved. */
    var stopResolved: bool
    /** Whether the promise of the last `highlight` has resolved. */
    var highlightResolved: bool
    const size: real
    const textureCount: nat

    ghost predicate Valid()
      reads this, routine
    {
      && |ys| == SlotCount && |textures| == SlotCount
      && (routine != null ==> routine.Valid() && routine.cfg.hasCallback)
      && (job.Approach? || job.Settle? ==> state.Stopping?)
    }

    /** A stopped reel at position 0 with its slots one symbol apart and
        random textures. */
    constructor (width: real, textureCount: nat)
      ensures Valid()
      ensures position == 0.0 && speed == 0.0 && state == Stopping && symbolSeq == []
      ensures routine == null && size == width && this.textureCount == textureCount
      ensures ys == [0.0, width, 2.0 * width, 3.0 * width]
      ensures forall i :: 0 <= i < SlotCount ==> RandomPick(textures[i], textureCount)
    {
      position, speed, state, symbolSeq := 0.0, 0.0, Stopping, [];
      size, this.textureCount := width, textureCount;
      routine, job := null, Idle;
      stopResolved, highlightResolved := false, false;
      ys := [0.0, width, 2.0 * width, 3.0 * width];
      var t0 := PickTexture(textureCount);
      var t1 := PickTexture(textureCount);
      var t2 := PickTexture(textureCount);
      var t3 := PickTexture(textureCount);
      textures := [t0, t1, t2, t3];
    }

    /** `getNextSymbolTexture()`: the texture of the front of `symbolSeq`,
        which it removes, or a random texture once that is empty. */
    method NextSymbolTexture() returns (t: Texture)
      modifies this`symbolSeq
      ensures old(symbolSeq) != [] ==> t == Lookup(old(symbolSeq)[0], textureCount) && symbolSeq == old(symbolSeq)[1..]
      ensures old(symbolSeq) == [] ==> RandomPick(t, textureCount) && symbolSeq == []
    {
      if symbolSeq == [] {
        t := PickTexture(textureCount);
      } else {
        t := Lookup(symbolSeq[0], textureCount);
        symbolSeq := symbolSeq[1..];
      }
    }

    /** `updateSymbols()`: redraws every slot at its offset for the current
        position and swaps the texture of each slot that wrapped round. It
        is `false` when a wrapping slot fetched no texture: the TypeError of
        `updateTexture(undefined)` ends the loop at that slot. */
    method UpdateSymbols() returns (ok: bool)
      requires |ys| == |textures| == SlotCount
      modifies this`ys, this`textures, this`symbolSeq
      ensures |ys| == |textures| == SlotCount
      ensures Redrawn(old(ys), old(textures), old(symbolSeq), ys, textures, symbolSeq,
                      position, size, textureCount, ok)
    {
      ghost var (ys0, tex0, seq0) := (ys, textures, symbolSeq);
      ok := true;
      var i := 0;
      while i < SlotCount && ok
        invariant 0 <= i <= SlotCount
        invariant |ys| == |textures| == SlotCount
        invariant SlotsAdvanced(ys0, tex0, seq0, ys, textures, symbolSeq,
                                position, size, textureCount, i)
        invariant ok <==> AllFetched(ys0, seq0, position, size, textureCount, i)
        invariant !ok ==> i > 0 && AllFetched(ys0, seq0, position, size, textureCount, i - 1)
      {
        ok := UpdateSlot(i, ys0, tex0, seq0);
        i := i + 1;
      }
      LoopOutcome(ys0, tex0, seq0, ys, textures, symbolSeq, position, size, textureCount, i, ok);
    }

    /** One turn of the loop of `updateSymbols`: slot `i` is redrawn and,
        if it wrapped round from the bottom to above the top, given the next
        texture; `false` when that texture is `undefined`, on which
        `updateTexture` throws. */
    method UpdateSlot(i: nat, ghost prevYs: seq<real>, ghost prevTex: seq<Texture>, ghost prevSeq: seq<JsNumber>)
      returns (ok: bool)
      requires i < SlotCount == |prevYs| == |prevTex| && |ys| == |textures| == SlotCount
      requires SlotsAdvanced(prevYs, prevTex, prevSeq, ys, textures, symbolSeq, position, size, textureCount, i)
      requires AllFetched(prevYs, prevSeq, position, size, textureCount, i)
      modifies this`ys, this`textures, this`symbolSeq
      ensures |ys| == |textures| == SlotCount
      ensures SlotsAdvanced(prevYs, prevTex, prevSeq, ys, textures, symbolSeq, position, size, textureCount, i + 1)
      ensures ok <==> AllFetched(prevYs, prevSeq, position, size, textureCount, i + 1)
    {
      ghost var (ys0, tex0, seq0) := (ys, textures, symbolSeq);
      var yPrev := ys[i];
      var y := SlotOffset(position, i, size);
      ys := ys[i := y];
      ok := true;
      var t := NoTexture;
      if y < 0.0 && yPrev > size {
        t := NextSymbolTexture();
        if t.NoTexture? {
          ok := false;
        } else {
          textures := textures[i := t];
        }
      }
      assert ok == (!Crosses(ys0[i], ys[i], size) || t.Texture?);
      assert !Crosses(ys0[i], ys[i], size) ==> textures == tex0 && symbolSeq == seq0;
      SlotsAdvancedStep(prevYs, prevTex, prevSeq, ys0, tex0, seq0,
                        ys, textures, symbolSeq, position, size, textureCount, i, t);
    }

    /** `animateStop(stopDuration, finishPosition, done)`: eases position
        to `finish` and speed to 0 with `backOut(1)`; its callback clears
        the routine and resolves the stop. */
    method AnimateStop(stopDuration: real, finish: int)
      requires Valid() && state.Stopping?
      modifies this`routine, this`job
      ensures Valid() && fresh(routine) && routine.phase.NotStarted? && routine.trace == []
      ensures routine.cfg == Configure(BackOut(1.0), Function, stopDuration * 1000.0)
      ensures job == Settle(position, speed, finish)
    {
      routine := new Routine(BackOut(1.0), Function, stopDuration * 1000.0);
      job := Settle(position, speed, finish);
    }

    /** `startSpin()`: the reel starts, and a routine eases its speed from
        where it is to the maximum with `backIn(1)` over
        `maxSpeed / acceleration` seconds, then clears itself. */
    method StartSpin()
      requires Valid()
      modifies this`state, this`routine, this`job
      ensures Valid() && state == Starting
      ensures fresh(routine) && routine.phase.NotStarted? && routine.trace == []
      ensures routine.cfg == Configure(BackIn(1.0), Function, MaxSpeed / Acceleration * 1000.0)
      ensures job == SpeedRamp(speed)
    {
      state := Starting;
      routine := new Routine(BackIn(1.0), Function, MaxSpeed / Acceleration * 1000.0);
      job := SpeedRamp(speed);
    }

    /** `stopSpin(symbols, delay)` at the moment its delay has run out: the
        symbols are queued in reverse, the reel is stopping, and a routine
        moves it linearly, at its current speed, to the point from which the
        settle brakes it onto a whole position at least three symbols on. */
    method StopSpin(symbols: seq<JsNumber>)
      requires Valid() && speed != 0.0
      modifies this`symbolSeq, this`state, this`routine, this`job, this`stopResolved
      ensures Valid() && state == Stopping && !stopResolved
      ensures |symbolSeq| == |symbols|
      ensures forall k :: 0 <= k < |symbols| ==> symbolSeq[k] == symbols[|symbols| - 1 - k]
      ensures fresh(routine) && routine.phase.NotStarted? && routine.trace == []
      ensures routine.cfg == Configure(Linear, Function, (Target(position, speed) - position) / speed * 1000.0)
      ensures job == Approach(position, Target(position, speed), speed / Acceleration, Finish(position))
    {
      symbolSeq := Reverse(symbols);
      state := Stopping;
      stopResolved := false;
      var curPosition := position;
      var stopDuration := speed / Acceleration;
      var finishPosition := Ceil(position + 3.0);
      var targetPosition := finishPosition as real - 0.5 * speed * stopDuration;
      var duration := (targetPosition - curPosition) / speed * 1000.0;
      routine := new Routine(Linear, Function, duration);
      job := Approach(curPosition, targetPosition, stopDuration, finishPosition);
    }

    /** `highlight(flags)`: picks the three visible symbols, splits them
        into lit and dimmed ones by `flags`, and starts a 1.2 s routine whose
        callback resolves the highlight. */
    method Highlight(flags: seq<bool>) returns (light: seq<nat>, dark: seq<nat>)
      requires Valid()
      modifies this`routine, this`job, this`highlightResolved
      ensures Valid() && !highlightResolved && job == Glow
      ensures light == Light(HighlightTargets(ys), flags, 0)
      ensures dark == Dark(HighlightTargets(ys), flags, 0)
      ensures fresh(routine) && routine.phase.NotStarted? && routine.trace == []
      ensures routine.cfg == Configure(Linear, Function, HighlightDuration)
    {
      var targets := HighlightTargets(ys);
      light := Light(targets, flags, 0);
      dark := Dark(targets, flags, 0);
      routine := new Routine(Linear, Function, HighlightDuration);
      job := Glow;
      highlightResolved := false;
    }

    /** `update(timeDelta)` with the clock at `now`: resumes the routine and
        applies its calls, moves a starting reel by `speed * dt`, and
        redraws the slots. */
    method Update(now: real, dt: real) returns (ok: bool)
      requires Valid()
      modifies this, routine
      ensures Valid() && state == old(state)
      ensures |old(ys)| == |old(textures)| == SlotCount
      ensures
        var mid :=
          if old(routine) == null then Pose(old(position), old(speed))
          else Animated(old(job), Pose(old(position), old(speed)), Step(old(routine).cfg, old(routine.phase), now).1);
        && speed == mid.speed
        && position == (if state.Starting? then mid.position + mid.speed * dt else mid.position)
      ensures
        var done := old(routine) != null && Callback in Step(old(routine).cfg, old(routine.phase), now).1;
        && (!done ==> routine == old(routine) && job == old(job)
                      && stopResolved == old(stopResolved) && highlightResolved == old(highlightResolved))
        && (done && old(job).SpeedRamp? ==> routine == null && speed == MaxSpeed)
        && (done && old(job).Approach? ==>
              && fresh(routine) && routine.phase.NotStarted?
              && routine.cfg == Configure(BackOut(1.0), Function, old(job).stopDuration * 1000.0)
              && position == old(job).target
              && job == Settle(old(job).target, speed, old(job).finish))
        && (done && old(job).Settle? ==>
              routine == null && stopResolved && position == old(job).finish as real && speed == 0.0)
        && (done && old(job).Glow? ==> routine == old(routine) && highlightResolved)
      ensures Redrawn(old(ys), old(textures), old(symbolSeq), ys, textures, symbolSeq,
                      position, size, textureCount, ok)
    {
      Advance(now, dt);
      ok := UpdateSymbols();
    }

    /** The first two statements of `update`. */
    method Advance(now: real, dt: real)
      requires Valid()
      modifies this`position, this`speed, this`routine, this`job, this`stopResolved,
               this`highlightResolved, routine
      ensures Valid() && state == old(state)
      ensures |old(ys)| == |old(textures)| == SlotCount
      ensures
        var mid :=
          if old(routine) == null then Pose(old(position), old(speed))
          else Animated(old(job), Pose(old(position), old(speed)), Step(old(routine).cfg, old(routine.phase), now).1);
        && speed == mid.speed
        && position == (if state.Starting? then mid.position + mid.speed * dt else mid.position)
      ensures
        var done := old(routine) != null && Callback in Step(old(routine).cfg, old(routine.phase), now).1;
        && (!done ==> routine == old(routine) && job == old(job)
                      && stopResolved == old(stopResolved) && highlightResolved == old(highlightResolved))
        && (done && old(job).SpeedRamp? ==> routine == null && speed == MaxSpeed)
        && (done && old(job).Approach? ==>
              && fresh(routine) && routine.phase.NotStarted?
              && routine.cfg == Configure(BackOut(1.0), Function, old(job).stopDuration * 1000.0)
              && position == old(job).target
              && job == Settle(old(job).target, speed, old(job).finish))
        && (done && old(job).Settle? ==>
              routine == null && stopResolved && position == old(job).finish as real && speed == 0.0)
        && (done && old(job).Glow? ==> routine == old(routine) && highlightResolved)
    {
      ResumeRoutine(now);
      if state.Starting? {
        position := position + speed * dt;
      }
    }

    /** The first statement of `update`: `this.routine?.next()`, with the
        effect of the calls it makes. */
    method ResumeRoutine(now: real)
      requires Valid()
      modifies this`position, this`speed, this`routine, this`job, this`stopResolved,
               this`highlightResolved, routine
      ensures Valid()
      ensures
        var mid :=
          if old(routine) == null then Pose(old(position), old(speed))
          else Animated(old(job), Pose(old(position), old(speed)), Step(old(routine).cfg, old(routine.phase), now).1);
        speed == mid.speed && position == mid.position
      ensures
        var done := old(routine) != null && Callback in Step(old(routine).cfg, old(routine.phase), now).1;
        && (!done ==> routine == old(routine) && job == old(job)
                      && stopResolved == old(stopResolved) && highlightResolved == old(highlightResolved))
        && (done && old(job).SpeedRamp? ==> routine == null && speed == MaxSpeed)
        && (done && old(job).Approach? ==>
              && fresh(routine) && routine.phase.NotStarted?
              && routine.cfg == Configure(BackOut(1.0), Function, old(job).stopDuration * 1000.0)
              && position == old(job).target
              && job == Settle(old(job).target, speed, old(job).finish))
        && (done && old(job).Settle? ==>
              routine == null && stopResolved && position == old(job).finish as real && speed == 0.0)
        && (done && old(job).Glow? ==> routine == old(routine) && highlightResolved)
    {
      if routine != null {
        var fired := routine.Resume(now);
        var pose := Animated(job, Pose(position, speed), fired);
        position, speed := pose.position, pose.speed;
        if |fired| == 2 {
          match job
          case SpeedRamp(_) =>
            routine := null;
          case Approach(_, _, stopDuration, finish) =>
            AnimateStop(stopDuration, finish);
          case Settle(_, _, _) =>
            routine := null;
            stopResolved := true;
          case Glow =>
            highlightResolved := true;
          case Idle =>
        }
      }
    }
  }

  /** `getRandomSymbolTexture()`: any texture of the list. */
  method PickTexture(count: nat) returns (t: Texture)
    ensures RandomPick(t, count)
  {
    if count == 0 {
      t := NoTexture;
    } else {
      var k: nat :| k < count;
      t := Texture(k);
    }
  }
}
