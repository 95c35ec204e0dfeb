/**
 * The per-sample conversions and CSV lines the wireless-endpoint examples share
 * (wireless_endpoint/start_multiple_devices.py, wireless_endpoint/ipv4_tcp.py and
 * wireless_endpoint/ipv4_tcp_history.py carry the same helpers).
 */
module Samples {
  import opened Wrappers
  import opened Text

  /**
   * `bytes_per_sample_to_mbit_s`: `n * 8 * 1e9 / (1e6 * duration)`, the megabits per second
   * of `n` bytes in a sample of `duration` nanoseconds; a zero duration divides by zero.
   */
  function BytesPerSampleToMbitS(sampleDurationNs: int, nBytes: int): (r: Result<real>)
    ensures r.Err? <==> sampleDurationNs == 0
    ensures r.Err? ==> r.error == ZeroDivisionError
    ensures r.Ok? ==> r.value * sampleDurationNs as real == 8000.0 * nBytes as real
    ensures r.Ok? && nBytes == 0 ==> r.value == 0.0
  {
    if sampleDurationNs == 0 then Err(ZeroDivisionError)
    else
      var bits := nBytes as real * 8.0 * 1000000000.0;
      var d := 1000000.0 * sampleDurationNs as real;
      assert bits / d * sampleDurationNs as real == bits / 1000000.0;
      Ok(bits / d)
  }

  /** Twice the bytes in the same sample is twice the rate. */
  lemma MbitSLinear(sampleDurationNs: int, nBytes: int)
    requires sampleDurationNs != 0
    ensures BytesPerSampleToMbitS(sampleDurationNs, 2 * nBytes).value
         == 2.0 * BytesPerSampleToMbitS(sampleDurationNs, nBytes).value
  {
    var d := sampleDurationNs as real;
    var a := BytesPerSampleToMbitS(sampleDurationNs, nBytes).value;
    var b := BytesPerSampleToMbitS(sampleDurationNs, 2 * nBytes).value;
    assert a * d == 8000.0 * nBytes as real;
    assert b * d == 2.0 * (a * d);
    assert (b - 2.0 * a) * d == 0.0;
  }

  /** `make_csv_line`: the text of every field, uuid and name first, joined by ", ", then a newline. */
  function CsvLine(uuid: string, name: string, cells: seq<string>): (line: string)
    ensures |line| > 0 && line[|line| - 1] == '\n'
  {
    Join([uuid, name] + cells, ", ") + "\n"
  }

  /** With no comma inside a field, the line has exactly `2 + len(items)` comma-separated fields. */
  lemma CsvLineFields(uuid: string, name: string, cells: seq<string>)
    requires ',' !in uuid && ',' !in name
    requires forall i :: 0 <= i < |cells| ==> ',' !in cells[i]
    ensures Count(CsvLine(uuid, name, cells), ',') + 1 == 2 + |cells|
  {
    var parts := [uuid, name] + cells;
    assert forall i :: 0 <= i < |parts| ==> ',' !in parts[i] by {
      forall i | 0 <= i < |parts| ensures ',' !in parts[i] {
        if i >= 2 {
          assert parts[i] == cells[i - 2];
        }
      }
    }
    assert Count(", ", ',') == 1 by {
      assert ", "[1..] == " ";
      assert " "[1..] == "";
    }
    JoinCount(parts, ", ", ',');
    CountAppend(Join(parts, ", "), "\n", ',');
    CountWithout("\n", ',');
  }
}
