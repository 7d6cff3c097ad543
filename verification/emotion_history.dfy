/** The emotion panel's history (frontend/src/components/EmotionDisplay.js): a
    window of at most 30 entries that each new truthy `emotionData` is pushed
    onto, the oldest being shifted out, and the line-chart series drawn from it.
    Entries are JavaScript objects, here Json values. */
module EmotionHistory {
  import opened Common

  const MaxHistoryLength: nat := 30

  // ------------------------------------------------------------ the entries

  /** The own enumerable properties of an array or string: index keys. */
  function IndexFields(items: seq<Json>): (m: map<string, Json>)
    ensures forall i :: 0 <= i < |items| ==> NatToDecimal(i) in m && m[NatToDecimal(i)] == items[i]
    ensures forall k :: k in m ==> exists i :: 0 <= i < |items| && NatToDecimal(i) == k
  {
    forall i, j | 0 <= i < |items| && 0 <= j < |items| && NatToDecimal(i) == NatToDecimal(j)
      ensures i == j
    {
      NatToDecimalInjective(i, j);
    }
    map i | 0 <= i < |items| :: NatToDecimal(i) := items[i]
  }

  /** The properties `...v` copies into an object literal. */
  function SpreadFields(v: Json): map<string, Json> {
    match v
    case Object(m) => m
    case List(items) => IndexFields(items)
    case Str(s) => IndexFields(seq(|s|, i requires 0 <= i < |s| => Str([s[i]])))
    case _ => map[]
  }

  /** `{timestamp, ...emotionData}`: the spread comes last, so a `timestamp`
      property of the data overrides the clock's. */
  function MakeEntry(data: Json, timestamp: string): (e: Json)
    ensures e.Object?
    ensures forall k :: k in SpreadFields(data) ==> k in e.fields && e.fields[k] == SpreadFields(data)[k]
    ensures e.fields.Keys == SpreadFields(data).Keys + {"timestamp"}
  {
    Object(map["timestamp" := Str(timestamp)] + SpreadFields(data))
  }

  /** Index keys are digit strings, never `timestamp`. */
  lemma TimestampNotAnIndex(items: seq<Json>)
    ensures "timestamp" !in IndexFields(items)
  {
    forall i | 0 <= i < |items|
      ensures NatToDecimal(i) != "timestamp"
    {
      assert '0' <= NatToDecimal(i)[0] <= '9';
    }
  }

  /** An entry's label is the update's timestamp unless the data is an object
      with a `timestamp` of its own, which then wins. */
  lemma EntryTimestamp(data: Json, timestamp: string)
    ensures data.Object? && "timestamp" in data.fields ==>
              Member(MakeEntry(data, timestamp), "timestamp") == data.fields["timestamp"]
    ensures !(data.Object? && "timestamp" in data.fields) ==>
              Member(MakeEntry(data, timestamp), "timestamp") == Str(timestamp)
  {
    match data
    case List(items) => TimestampNotAnIndex(items);
    case Str(s) => TimestampNotAnIndex(seq(|s|, i requires 0 <= i < |s| => Str([s[i]])));
    case _ =>
  }

  // ------------------------------------------------------------ the window

  /** The history after one run of the effect: push when the data is truthy,
      then shift the oldest out if the window grew past 30. */
  function NextHistory(h: seq<Json>, data: Json, timestamp: string): (next: seq<Json>)
    ensures !JsTruthy(data) ==> next == h
    ensures |h| <= MaxHistoryLength ==> |next| <= MaxHistoryLength
    ensures JsTruthy(data) ==> |next| > 0 && next[|next| - 1] == MakeEntry(data, timestamp)
    ensures JsTruthy(data) && |h| < MaxHistoryLength ==> |next| == |h| + 1 && next[..|h|] == h
    ensures JsTruthy(data) && |h| == MaxHistoryLength ==> |next| == |h| && next[..|h| - 1] == h[1..]
  {
    if !JsTruthy(data) then h
    else
      var pushed := h + [MakeEntry(data, timestamp)];
      if |pushed| > MaxHistoryLength then pushed[1..] else pushed
  }

  /** The last `n` elements of `s` (all of them when there are fewer). */
  function LastN<T>(s: seq<T>, n: nat): (r: seq<T>)
    ensures |r| == if |s| <= n then |s| else n
    ensures forall k :: 0 <= k < |r| ==> r[k] == s[|s| - |r| + k]
  {
    if |s| <= n then s else s[|s| - n..]
  }

  /** The entry one update pushes, if any. */
  function PushedBy(data: Json, timestamp: string): seq<Json> {
    if JsTruthy(data) then [MakeEntry(data, timestamp)] else []
  }

  /** The entries a series of updates pushes, in order. */
  function Pushed(updates: seq<(Json, string)>): seq<Json> {
    if updates == [] then [] else PushedBy(updates[0].0, updates[0].1) + Pushed(updates[1..])
  }

  /** One update keeps the last 30 of the old window and what it pushed. */
  lemma NextHistoryIsLastN(h: seq<Json>, data: Json, timestamp: string)
    requires |h| <= MaxHistoryLength
    ensures NextHistory(h, data, timestamp) == LastN(h + PushedBy(data, timestamp), MaxHistoryLength)
  {
  }

  /** The history after a series of updates. */
  function Replay(h: seq<Json>, updates: seq<(Json, string)>): seq<Json>
    decreases |updates|
  {
    if updates == [] then h else Replay(NextHistory(h, updates[0].0, updates[0].1), updates[1..])
  }

  lemma LastNOfLastN<T>(x: seq<T>, y: seq<T>, n: nat)
    ensures LastN(LastN(x, n) + y, n) == LastN(x + y, n)
  {
    var a, b := LastN(LastN(x, n) + y, n), LastN(x + y, n);
    assert |a| == |b|;
    forall k | 0 <= k < |a|
      ensures a[k] == b[k]
    {
      var lx := LastN(x, n);
      var j := |lx + y| - |a| + k;
      if j >= |lx| {
        assert (lx + y)[j] == y[j - |lx|];
        assert (x + y)[|x + y| - |b| + k] == y[j - |lx|];
      } else {
        assert (lx + y)[j] == x[|x| - |lx| + j];
      }
    }
  }

  /** Whatever the updates, a window that starts within bounds always holds
      exactly the last 30 (or fewer) of its old entries followed by the pushed ones. */
  lemma {:induction false} ReplayKeepsLatest(h: seq<Json>, updates: seq<(Json, string)>)
    requires |h| <= MaxHistoryLength
    ensures Replay(h, updates) == LastN(h + Pushed(updates), MaxHistoryLength)
    decreases |updates|
  {
    if updates == [] {
      assert h + Pushed(updates) == h;
    } else {
      var data, ts := updates[0].0, updates[0].1;
      var first, rest := PushedBy(data, ts), Pushed(updates[1..]);
      var whole := h + Pushed(updates);
      assert whole == (h + first) + rest by {
        assert Pushed(updates) == first + rest;
      }
      var h1 := NextHistory(h, data, ts);
      NextHistoryIsLastN(h, data, ts);
      ReplayKeepsLatest(h1, updates[1..]);
      LastNOfLastN(h + first, rest, MaxHistoryLength);
      calc {
        Replay(h, updates);
        Replay(h1, updates[1..]);
        LastN(h1 + rest, MaxHistoryLength);
        LastN(LastN(h + first, MaxHistoryLength) + rest, MaxHistoryLength);
        LastN((h + first) + rest, MaxHistoryLength);
        LastN(whole, MaxHistoryLength);
      }
    }
  }

  /** The `historyRef` array. */
  class History {
    var entries: seq<Json>

    constructor ()
      ensures entries == []
    {
      entries := [];
    }

    /** The effect run when `emotionData` changes. */
    method Update(emotionData: Json, timestamp: string)
      modifies this
      ensures entries == NextHistory(old(entries), emotionData, timestamp)
    {
      if JsTruthy(emotionData) {
        entries := entries + [MakeEntry(emotionData, timestamp)];
        if |entries| > MaxHistoryLength {
          entries := entries[1..];
        }
      }
    }
  }

  // ------------------------------------------------------------- the chart

  /** `EMOTION_COLORS`, in key order. */
  const EmotionColors: seq<(string, string)> := [
    ("Angry", "#ff4d4d"),
    ("Disgust", "#ff9933"),
    ("Fear", "#ffff4d"),
    ("Happy", "#4dff4d"),
    ("Sad", "#4d4dff"),
    ("Surprise", "#ff4dff"),
    ("Neutral", "#ffffff")
  ]

  /** One chart series; `name` is the `label` property. */
  datatype Dataset = Dataset(name: string, data: seq<Json>, borderColor: string, backgroundColor: string, tension: real)

  datatype Chart = Chart(labels: seq<Json>, datasets: seq<Dataset>)

  /** `entry.all_predictions?.[emotion] || 0`. */
  function Prediction(entry: Json, emotion: string): (v: Json)
    ensures JsTruthy(v) || v == Int(0)
    ensures JsTruthy(Member(Member(entry, "all_predictions"), emotion)) ==>
              v == Member(Member(entry, "all_predictions"), emotion)
  {
    var p := Member(Member(entry, "all_predictions"), emotion);
    if JsTruthy(p) then p else Int(0)
  }

  /** `chartData`: one label per entry and one series per emotion colour. */
  function ChartData(h: seq<Json>): (c: Chart)
    ensures |c.labels| == |h|
    ensures forall i :: 0 <= i < |h| ==> c.labels[i] == Member(h[i], "timestamp")
    ensures |c.datasets| == |EmotionColors| == 7
    ensures forall k :: 0 <= k < |c.datasets| ==>
              && c.datasets[k].name == EmotionColors[k].0
              && c.datasets[k].borderColor == EmotionColors[k].1
              && c.datasets[k].backgroundColor == EmotionColors[k].1 + "33"
              && c.datasets[k].tension == 0.4
              && |c.datasets[k].data| == |h|
              && forall i :: 0 <= i < |h| ==> c.datasets[k].data[i] == Prediction(h[i], EmotionColors[k].0)
  {
    var labels := seq(|h|, i requires 0 <= i < |h| => Member(h[i], "timestamp"));
    var datasets := seq(|EmotionColors|, k requires 0 <= k < |EmotionColors| =>
      var (emotion, color) := EmotionColors[k];
      Dataset(emotion, seq(|h|, i requires 0 <= i < |h| => Prediction(h[i], emotion)), color, color + "33", 0.4));
    Chart(labels, datasets)
  }

  /** The chart of the updated window: the new entry's label and predictions
      come last, and the rest of the chart is the old one, shifted when full. */
  lemma ChartAfterUpdate(h: seq<Json>, data: Json, timestamp: string)
    requires |h| <= MaxHistoryLength && JsTruthy(data)
    ensures var c := ChartData(NextHistory(h, data, timestamp));
            var e := MakeEntry(data, timestamp);
            && c.labels[|c.labels| - 1] == Member(e, "timestamp")
            && (forall k :: 0 <= k < 7 ==>
                  c.datasets[k].data[|c.datasets[k].data| - 1] == Prediction(e, EmotionColors[k].0))
            && (|h| < MaxHistoryLength ==> c.labels[..|h|] == ChartData(h).labels)
            && (|h| == MaxHistoryLength ==> c.labels[..|h| - 1] == ChartData(h).labels[1..])
  {
    var next := NextHistory(h, data, timestamp);
    var c, c0 := ChartData(next), ChartData(h);
    if |h| < MaxHistoryLength {
      assert forall i :: 0 <= i < |h| ==> c.labels[i] == Member(next[i], "timestamp") == Member(h[i], "timestamp");
    } else {
      assert forall i :: 0 <= i < |h| - 1 ==> c.labels[i] == Member(next[i], "timestamp") == Member(h[i + 1], "timestamp");
    }
  }
}
