/** `GenerateTelemetryAsync` in the simulator's `Program`: the argument checks
    and the producer loop that decides, record by record, whether to ask the
    generator for a key frame and which record it remembers as the last key
    frame. */
module Producer {
  import opened Wrappers

  /** The reference arguments `GenerateTelemetryAsync` checks for null. */
  datatype Argument = FactoryArg | PoolArg | ConsoleArg | DeviceIdArg

  /** How the start of `GenerateTelemetryAsync` ends: it goes on to build the
      pipeline, or throws `ArgumentNullException` for an argument; `delayed`
      says whether the start delay ran first. */
  datatype StartOutcome = Started(delayed: bool) | Threw(argument: Argument, delayed: bool)

  /** Lines 24-48: three null checks, the optional start delay, then the
      device id check. */
  function CheckArguments(factoryNull: bool, poolNull: bool, consoleNull: bool, deviceIdNull: bool, waittime: int): (r: StartOutcome)
    ensures r.Started? <==> !factoryNull && !poolNull && !consoleNull && !deviceIdNull
    ensures factoryNull ==> r == Threw(FactoryArg, false)
    ensures !factoryNull && poolNull ==> r == Threw(PoolArg, false)
    ensures !factoryNull && !poolNull && consoleNull ==> r == Threw(ConsoleArg, false)
    ensures r.Threw? && r.argument != DeviceIdArg ==> !r.delayed
    ensures !factoryNull && !poolNull && !consoleNull && deviceIdNull ==> r.Threw? && r.argument == DeviceIdArg
    ensures r.Started? || r.argument == DeviceIdArg ==> r.delayed == (waittime > 0)
  {
    if factoryNull then Threw(FactoryArg, false)
    else if poolNull then Threw(PoolArg, false)
    else if consoleNull then Threw(ConsoleArg, false)
    else if deviceIdNull then Threw(DeviceIdArg, waittime > 0)
    else Started(waittime > 0)
  }

  /** One call of the generator as the loop makes it: the index of the record
      passed as the last key frame (null for none) and the key-frame flag. */
  datatype Request = Request(lastKeyFrame: Option<nat>, keyFrame: bool)

  /** How the loop ends: cancellation seen after a push, or the
      `DivideByZeroException` of `% generateKeyframeGap` with a gap of 0. */
  datatype LoopOutcome = Cancelled | DivideByZero

  /** The draws of `random.Next(10, 100)`, one per step. */
  predicate ValidDraws(draws: seq<int>) {
    forall i :: 0 <= i < |draws| ==> 10 <= draws[i] < 100
  }

  /** Whether the request after the `n`-th record is a key frame: `n` is a
      multiple of the gap, or of that step's random draw. */
  predicate KeyFrameAfter(n: nat, gap: int, draw: int)
    requires gap != 0 && draw != 0
  {
    n % gap == 0 || n % draw == 0
  }

  /** Whether the `i`-th request (from 0) asks for a key frame. */
  predicate Requested(i: nat, gap: int, draws: seq<int>)
    requires i <= |draws| && ValidDraws(draws) && (i > 0 ==> gap != 0)
  {
    i == 0 || KeyFrameAfter(i, gap, draws[i - 1])
  }

  /** The record the `i`-th request passes as the last key frame: the latest
      earlier request that asked for one. */
  function LastKeyFrameBefore(i: nat, gap: int, draws: seq<int>): Option<nat>
    requires i <= |draws| + 1 && ValidDraws(draws) && (i > 1 ==> gap != 0)
  {
    if i == 0 then None
    else if Requested(i - 1, gap, draws) then Some(i - 1)
    else LastKeyFrameBefore(i - 1, gap, draws)
  }

  /** The first `n` requests of the loop. */
  function Requests(n: nat, gap: int, draws: seq<int>): (r: seq<Request>)
    requires n <= |draws| + 1 && ValidDraws(draws) && (n > 1 ==> gap != 0)
    ensures |r| == n
  {
    if n == 0 then []
    else Requests(n - 1, gap, draws) + [Request(LastKeyFrameBefore(n - 1, gap, draws), Requested(n - 1, gap, draws))]
  }

  /** The producer loop (lines 89-136). `draws[n]` is `random.Next(10, 100)`
      at step `n`, and `cancelled[n]` is what the cancellation check after the
      `n`-th push sees; the loop only ends by cancellation or by an
      exception, so a run that ends has a cancelled check. Returns the
      requests in order and the final `messages` count. */
  method ProduceLoop(gap: int, draws: seq<int>, cancelled: seq<bool>)
    returns (requests: seq<Request>, messages: nat, outcome: LoopOutcome)
    requires |draws| == |cancelled| && true in cancelled && ValidDraws(draws)
    ensures 1 <= messages <= |cancelled| && messages == |requests|
    ensures gap == 0 ==> outcome == DivideByZero && requests == [Request(None, true)]
    ensures gap != 0 ==> outcome == Cancelled && requests == Requests(messages, gap, draws)
    ensures gap != 0 ==> cancelled[messages - 1] && forall j :: 0 <= j < messages - 1 ==> !cancelled[j]
  {
    requests := [];
    messages := 0;
    var lastKeyFrame: Option<nat> := None;
    var keyFrame := true;
    while true
      invariant messages < |cancelled|
      invariant forall j :: 0 <= j < messages ==> !cancelled[j]
      invariant messages > 0 ==> gap != 0
      invariant requests == Requests(messages, gap, draws)
      invariant keyFrame == Requested(messages, gap, draws)
      invariant lastKeyFrame == LastKeyFrameBefore(messages, gap, draws)
      decreases |cancelled| - messages
    {
      requests := requests + [Request(lastKeyFrame, keyFrame)];
      if keyFrame {
        lastKeyFrame := Some(messages);
        keyFrame := false;
      }
      messages := messages + 1;
      if gap == 0 {
        return requests, messages, DivideByZero;
      }
      if messages % gap == 0 {
        keyFrame := true;
      }
      if messages % draws[messages - 1] == 0 {
        keyFrame := true;
      }
      if cancelled[messages - 1] {
        break;
      }
    }
    outcome := Cancelled;
  }

  /** The `i`-th request asks for a key frame exactly when `Requested` says
      so, and passes `LastKeyFrameBefore(i)`; in particular the first asks
      for a key frame with no previous record. */
  lemma {:induction false} RequestAt(n: nat, gap: int, draws: seq<int>, i: nat)
    requires n <= |draws| + 1 && ValidDraws(draws) && (n > 1 ==> gap != 0)
    requires i < n
    ensures Requests(n, gap, draws)[i] == Request(LastKeyFrameBefore(i, gap, draws), Requested(i, gap, draws))
    ensures i == 0 ==> Requests(n, gap, draws)[i] == Request(None, true)
  {
    if i < n - 1 {
      RequestAt(n - 1, gap, draws, i);
    }
  }

  /** The record passed as the last key frame is the latest earlier record
      that was requested as a key frame: `lastKeyFrame` is replaced only by
      such a record. */
  lemma {:induction false} LatestKeyFrame(i: nat, gap: int, draws: seq<int>)
    requires 0 < i <= |draws| + 1 && ValidDraws(draws) && gap != 0
    ensures var last := LastKeyFrameBefore(i, gap, draws);
      && last.Some? && last.value < i
      && Requested(last.value, gap, draws)
      && forall k :: last.value < k < i ==> !Requested(k, gap, draws)
  {
    if !Requested(i - 1, gap, draws) {
      LatestKeyFrame(i - 1, gap, draws);
    }
  }

  lemma MulAtLeast(gap: int, d: int)
    requires gap > 0 && d >= 1
    ensures gap * d >= gap
  {
  }

  lemma SmallMultipleIsZero(gap: int, d: int)
    requires gap > 0 && -gap < gap * d < gap
    ensures d == 0
  {
    if d >= 1 {
      MulAtLeast(gap, d);
    } else if d <= -1 {
      MulAtLeast(gap, -d);
    }
  }

  /** Euclidean remainder is unique: `a == gap * k + r` with `0 <= r < gap`
      makes `r` the remainder. */
  lemma DivModUnique(a: int, gap: int, k: int, r: int)
    requires gap > 0 && 0 <= r < gap && a == gap * k + r
    ensures a % gap == r
  {
    var k0, r0 := a / gap, a % gap;
    assert gap * (k - k0) == r0 - r;
    SmallMultipleIsZero(gap, k - k0);
  }

  /** Below every positive `i` lies a multiple of `gap` at most `gap` away. */
  lemma LastMultiple(i: nat, gap: int) returns (m: nat)
    requires i > 0 && gap > 0
    ensures i - gap <= m < i && m % gap == 0
  {
    var q := (i - 1) / gap;
    m := q * gap;
    assert m <= i - 1 < m + gap;
    DivModUnique(m, gap, q, 0);
  }

  /** With a positive gap, the key frame the generator remembers is never more
      than `gap` records old: the record counts that are multiples of the gap
      always request a key frame. */
  lemma KeyFrameAgeBounded(i: nat, gap: int, draws: seq<int>)
    requires 0 < i <= |draws| + 1 && ValidDraws(draws) && gap > 0
    ensures LastKeyFrameBefore(i, gap, draws).Some?
    ensures i - LastKeyFrameBefore(i, gap, draws).value <= gap
  {
    LatestKeyFrame(i, gap, draws);
    var m := LastMultiple(i, gap);
    assert Requested(m, gap, draws);
  }
}
