/**
 * demo_scripts/plotting/video.py: video-player samples of a wireless endpoint regrouped into
 * three chart series.
 */
module Video {
  import opened PyMath

  /** One sample of the video test: a timestamp in ns and three byte counters. */
  datatype VideoResult = VideoResult(timestamp: int, bufferSize: int, bytesDownloaded: int,
                                     playerBufferedBytesConsumed: int)

  /** The keys `consolidate_datasets` walks over. */
  datatype Item = BufferSize | BytesDownloaded | PlayerBufferedBytesConsumed

  /** The series order: buffer_size, bytes_downloaded, player_buffered_bytes_consumed. */
  const ITEMS := [BufferSize, BytesDownloaded, PlayerBufferedBytesConsumed]

  /** `result[item]`. */
  function Value(result: VideoResult, item: Item): int
  {
    match item
    case BufferSize => result.bufferSize
    case BytesDownloaded => result.bytesDownloaded
    case PlayerBufferedBytesConsumed => result.playerBufferedBytesConsumed
  }

  /** `int(timestamp / 1000000)`: nanoseconds to whole milliseconds, rounding toward zero. */
  function Millis(timestampNs: int): (ms: int)
    ensures timestampNs >= 0 ==> ms == timestampNs / 1000000
    ensures timestampNs < 0 ==> ms == -((-timestampNs) / 1000000)
  {
    Trunc(timestampNs as real / 1000000.0)
  }

  /**
   * `consolidate_datasets`: three series, one per item in order, each with one
   * (milliseconds, value) point per result in input order.
   */
  method ConsolidateDatasets(results: seq<VideoResult>) returns (out: seq<seq<(int, int)>>)
    ensures |out| == |ITEMS| == 3
    ensures forall s :: 0 <= s < 3 ==> |out[s]| == |results|
    ensures forall s, i :: 0 <= s < 3 && 0 <= i < |results| ==>
      out[s][i] == (Millis(results[i].timestamp), Value(results[i], ITEMS[s]))
  {
    out := [];
    for s := 0 to |ITEMS|
      invariant |out| == s
      invariant forall t :: 0 <= t < s ==> |out[t]| == |results|
      invariant forall t, i :: 0 <= t < s && 0 <= i < |results| ==>
        out[t][i] == (Millis(results[i].timestamp), Value(results[i], ITEMS[t]))
    {
      var item := ITEMS[s];
      var resultSet: seq<(int, int)> := [];
      for i := 0 to |results|
        invariant |resultSet| == i
        invariant forall j :: 0 <= j < i ==> resultSet[j] == (Millis(results[j].timestamp), Value(results[j], item))
      {
        var tsInMs := Millis(results[i].timestamp);
        resultSet := resultSet + [(tsInMs, Value(results[i], item))];
      }
      out := out + [resultSet];
    }
  }

  /** `plot_data`: the chart label of each consolidated series, in series order. */
  function SeriesLabel(item: Item): string
  {
    match item
    case BufferSize => "Buffer"
    case BytesDownloaded => "Downloaded"
    case PlayerBufferedBytesConsumed => "Consumed"
  }

  /** Series 0, 1 and 2 are labelled Buffer, Downloaded and Consumed, each label naming one item. */
  lemma LabelsFollowItems()
    ensures SeriesLabel(ITEMS[0]) == "Buffer" && SeriesLabel(ITEMS[1]) == "Downloaded" &&
      SeriesLabel(ITEMS[2]) == "Consumed"
    ensures forall a, b :: a != b ==> SeriesLabel(a) != SeriesLabel(b)
  {
    assert "Buffer"[0] != "Downloaded"[0] && "Buffer"[0] != "Consumed"[0] && "Downloaded"[0] != "Consumed"[0];
  }
}
