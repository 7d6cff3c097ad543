/** The browser client's connection and throttling rules (frontend/src/App.js,
    lines 9-53): reconnect back-off, latency classes, the processing interval
    and the frame-drop test. Times are milliseconds. */
module ConnectionPolicy {

  const ReconnectDelayMs: nat := 3000
  const MaxReconnectDelayMs: nat := 30000
  const MinProcessingInterval: real := 500.0
  const MaxProcessingInterval: real := 2000.0
  const PoorPerformanceThreshold: int := 2000
  const FairPerformanceThreshold: int := 1000
  const FrameDropThreshold: int := 100

  function Pow2(n: nat): (p: nat)
    ensures p >= 1
  {
    if n == 0 then 1 else 2 * Pow2(n - 1)
  }

  lemma {:induction false} Pow2Monotone(m: nat, n: nat)
    requires m <= n
    ensures Pow2(m) <= Pow2(n)
    decreases n
  {
    if m < n {
      Pow2Monotone(m, n - 1);
    }
  }

  /** `getReconnectDelay`: 3000·2^attempts, capped at 30000. */
  function ReconnectDelay(attempts: nat): (d: nat)
    ensures d <= MaxReconnectDelayMs
    ensures d <= ReconnectDelayMs * Pow2(attempts)
    ensures d == ReconnectDelayMs * Pow2(attempts) || d == MaxReconnectDelayMs
  {
    var uncapped := ReconnectDelayMs * Pow2(attempts);
    if uncapped < MaxReconnectDelayMs then uncapped else MaxReconnectDelayMs
  }

  /** Up to three failed attempts the delay doubles from 3000 without reaching the cap. */
  lemma ReconnectDelayUncapped(attempts: nat)
    requires attempts <= 3
    ensures ReconnectDelay(attempts) == ReconnectDelayMs * Pow2(attempts)
    ensures ReconnectDelay(attempts) == [3000, 6000, 12000, 24000][attempts]
  {
  }

  /** From the fourth failed attempt on, the delay is the cap. */
  lemma ReconnectDelayCapped(attempts: nat)
    requires attempts >= 4
    ensures ReconnectDelay(attempts) == MaxReconnectDelayMs
  {
    Pow2Monotone(4, attempts);
  }

  /** More failed attempts never shorten the wait. */
  lemma ReconnectDelayMonotone(m: nat, n: nat)
    requires m <= n
    ensures ReconnectDelay(m) <= ReconnectDelay(n)
  {
    Pow2Monotone(m, n);
  }

  /** Every delay is a whole number of seconds, between 3 and 30. */
  lemma ReconnectDelayWholeSeconds(attempts: nat)
    ensures ReconnectDelay(attempts) % 1000 == 0
    ensures 3000 <= ReconnectDelay(attempts)
  {
  }

  datatype Quality = Good | Fair | Poor

  /** Lower rank is better. */
  function Rank(q: Quality): nat {
    match q
    case Good => 0
    case Fair => 1
    case Poor => 2
  }

  /** `updateConnectionQuality`: latency above 2000 is poor, above 1000 fair, otherwise good. */
  function ConnectionQuality(processingTime: int): (q: Quality)
    ensures q == Poor <==> processingTime > PoorPerformanceThreshold
    ensures q == Fair <==> FairPerformanceThreshold < processingTime <= PoorPerformanceThreshold
    ensures q == Good <==> processingTime <= FairPerformanceThreshold
  {
    if processingTime > PoorPerformanceThreshold then Poor
    else if processingTime > FairPerformanceThreshold then Fair
    else Good
  }

  /** A slower response never rates better. */
  lemma ConnectionQualityMonotone(t1: int, t2: int)
    requires t1 <= t2
    ensures Rank(ConnectionQuality(t1)) <= Rank(ConnectionQuality(t2))
  {
  }

  /** `adjustProcessingInterval`: 1.5 times the processing time, clamped to [500, 2000]. */
  function ProcessingInterval(processingTime: int): (r: real)
    ensures MinProcessingInterval <= r <= MaxProcessingInterval
    ensures MinProcessingInterval <= 1.5 * processingTime as real <= MaxProcessingInterval ==> r == 1.5 * processingTime as real
    ensures 1.5 * processingTime as real < MinProcessingInterval ==> r == MinProcessingInterval
    ensures 1.5 * processingTime as real > MaxProcessingInterval ==> r == MaxProcessingInterval
  {
    var scaled := 1.5 * processingTime as real;
    var capped := if MaxProcessingInterval < scaled then MaxProcessingInterval else scaled;
    if MinProcessingInterval < capped then capped else MinProcessingInterval
  }

  /** A longer processing time never shortens the interval. */
  lemma ProcessingIntervalMonotone(t1: int, t2: int)
    requires t1 <= t2
    ensures ProcessingInterval(t1) <= ProcessingInterval(t2)
  {
  }

  /** `shouldProcessFrame`: at least 100 ms since the last processed frame. */
  function ShouldProcessFrame(lastProcessingTime: int, currentTime: int): (b: bool)
    ensures b <==> currentTime >= lastProcessingTime + FrameDropThreshold
  {
    currentTime - lastProcessingTime >= FrameDropThreshold
  }
}
