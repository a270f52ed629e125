/** Audio capture: the stream callback that downmixes interleaved frames to
    mono and appends them to the sample buffer, the trailing-window read of
    that buffer, the loopback-device selection rule and the sample-format
    dispatch.

    The buffer is shared with the audio thread behind a mutex in the source;
    here it is a single-threaded object whose methods are the critical
    sections. The per-format conversion `f32::from_sample` is a parameter. */
module Audio {
  import opened Sums
  import Analysis

  /** Buffer length above which the callback trims (4 windows). */
  const HighWater: nat := 4 * Analysis.SampleSize
  /** Number of oldest samples dropped by one trim (2 windows). */
  const TrimCount: nat := 2 * Analysis.SampleSize

  datatype Option<T> = None | Some(value: T)

  datatype AudioError =
    | DevicesUnavailable      // enumerating the host's output devices failed
    | NoOutputDevice          // "No output device found"
    | UnsupportedSampleFormat // "Unsupported sample format"

  datatype Result<T> = Ok(value: T) | Err(error: AudioError)

  /** An enumerated output device; `name` is None when reading its name fails. */
  datatype Device = Device(id: nat, name: Option<string>)

  /** The sample encodings a device can report. */
  datatype SampleFormat = I8 | I16 | I32 | I64 | U8 | U16 | U32 | U64 | F32 | F64

  // ---------------------------------------------------------------------------
  // Downmix

  /** The concatenation of `pieces`, in order. */
  function Concat<T>(pieces: seq<seq<T>>): seq<T>
  {
    if |pieces| == 0 then [] else Concat(pieces[..|pieces| - 1]) + pieces[|pieces| - 1]
  }

  /** Concatenation taken from the front: the first piece, then the rest. */
  lemma {:induction false} ConcatCons<T>(first: seq<T>, rest: seq<seq<T>>)
    ensures Concat([first] + rest) == first + Concat(rest)
  {
    if |rest| == 0 {
      assert [first] + rest == [first];
      assert Concat([first]) == Concat([]) + first;
    } else {
      var all := [first] + rest;
      assert all[..|all| - 1] == [first] + rest[..|rest| - 1];
      ConcatCons(first, rest[..|rest| - 1]);
    }
  }

  /** `data.chunks(size)`: consecutive pieces of `size` elements, the last one
      possibly shorter. */
  function Chunks<T>(data: seq<T>, size: nat): seq<seq<T>>
    requires size > 0
    decreases |data|
  {
    if |data| == 0 then []
    else if |data| <= size then [data]
    else [data[..size]] + Chunks(data[size..], size)
  }

  /** The chunks rejoin to exactly the input, in order; none is empty, none is
      longer than `size`, and all but the last are exactly `size` long. */
  lemma {:induction false} ChunksRejoin<T>(data: seq<T>, size: nat)
    requires size > 0
    ensures Concat(Chunks(data, size)) == data
    ensures forall k :: 0 <= k < |Chunks(data, size)| ==> 0 < |Chunks(data, size)[k]| <= size
    ensures forall k :: 0 <= k < |Chunks(data, size)| - 1 ==> |Chunks(data, size)[k]| == size
    decreases |data|
  {
    if |data| == 0 {
    } else if |data| <= size {
      assert Chunks(data, size) == [data];
      assert Concat([data]) == Concat<T>([]) + data;
    } else {
      var rest := data[size..];
      ChunksRejoin(rest, size);
      assert Chunks(data, size) == [data[..size]] + Chunks(rest, size);
      ConcatCons(data[..size], Chunks(rest, size));
      assert data[..size] + rest == data;
    }
  }

  /** (x + d) / d is one more than x / d. */
  lemma DivPlusOne(x: nat, d: nat)
    requires d > 0
    ensures (x + d) / d == x / d + 1
  {
    var q, r := x / d, x % d;
    var q2, r2 := (x + d) / d, (x + d) % d;
    var m := q2 - q - 1;
    assert d * m == r - r2 by {
      assert d * q2 + r2 == d * q + r + d;
      assert d * m == d * q2 - d * q - d;
    }
  }

  /** There are ⌈|data| / size⌉ chunks. */
  lemma {:induction false} ChunkCount<T>(data: seq<T>, size: nat)
    requires size > 0
    ensures |Chunks(data, size)| == (|data| + size - 1) / size
    decreases |data|
  {
    if |data| > size {
      var rest := data[size..];
      assert |Chunks(data, size)| == |Chunks(rest, size)| + 1;
      ChunkCount(rest, size);
      assert |rest| + size - 1 == |data| - 1;
      DivPlusOne(|data| - 1, size);
    } else if |data| > 0 {
      assert |Chunks(data, size)| == 1;
      DivPlusOne(|data| - 1, size);
    } else {
      assert |Chunks(data, size)| == 0;
    }
  }

  /** Chunk k is exactly the slice [k·size, min(k·size + size, |data|)) of the
      input: the chunks cover the input in order. */
  lemma {:induction false} ChunkAt<T>(data: seq<T>, size: nat, k: nat)
    requires size > 0
    requires k < |Chunks(data, size)|
    ensures k * size < |data|
    ensures Chunks(data, size)[k] == data[k * size .. Analysis.Min(k * size + size, |data|)]
    decreases |data|
  {
    if |data| <= size {
      assert Chunks(data, size) == [data];
      assert data[k * size .. Analysis.Min(k * size + size, |data|)] == data;
    } else {
      var rest := data[size..];
      assert Chunks(data, size) == [data[..size]] + Chunks(rest, size);
      if k > 0 {
        assert Chunks(data, size)[k] == Chunks(rest, size)[k - 1];
        ChunkAt(rest, size, k - 1);
        var a := (k - 1) * size;
        assert a + size == k * size;
        var hi := Analysis.Min(a + size, |rest|);
        assert hi + size == Analysis.Min(a + size + size, |data|);
        assert rest[a .. hi] == data[a + size .. hi + size] by {
          forall i | 0 <= i < hi - a ensures rest[a .. hi][i] == data[a + size .. hi + size][i] {
            assert rest[a + i] == data[size + a + i];
          }
        }
      }
    }
  }

  /** One mono sample: the converted samples of a frame summed and divided by
      the channel count (also for a short final frame). */
  function Mono<T>(frame: seq<T>, channels: nat, toF32: T -> real): (m: real)
    requires channels > 0
    ensures m * channels as real == Sum(Converted(frame, toF32))
  {
    Sum(Converted(frame, toF32)) / channels as real
  }

  /** The frame's samples converted to f32. */
  function Converted<T>(frame: seq<T>, toF32: T -> real): (c: seq<real>)
    ensures |c| == |frame|
    ensures forall i :: 0 <= i < |frame| ==> c[i] == toF32(frame[i])
  {
    seq(|frame|, i requires 0 <= i < |frame| => toF32(frame[i]))
  }

  /** A full frame's mono sample is an average: it lies within the range of
      the frame's converted samples. */
  lemma MonoWithin<T>(frame: seq<T>, channels: nat, toF32: T -> real, lo: real, hi: real)
    requires channels > 0 && |frame| == channels
    requires AllWithin(Converted(frame, toF32), lo, hi)
    ensures lo <= Mono(frame, channels, toF32) <= hi
  {
    SumWithin(Converted(frame, toF32), lo, hi);
    Analysis.QuotientWithin(Sum(Converted(frame, toF32)), channels as real, lo, hi);
  }

  /** The mono samples one callback appends: one per chunk, in frame order. */
  function Downmix<T>(data: seq<T>, channels: nat, toF32: T -> real): (mono: seq<real>)
    requires channels > 0
    ensures |mono| == (|data| + channels - 1) / channels
  {
    ChunkCount(data, channels);
    var frames := Chunks(data, channels);
    seq(|frames|, k requires 0 <= k < |frames| => Mono(frames[k], channels, toF32))
  }

  /** A callback appends ⌈|data| / channels⌉ samples, the k-th being the mean
      over `channels` of the k-th frame of the input. */
  lemma DownmixAt<T>(data: seq<T>, channels: nat, toF32: T -> real, k: nat)
    requires channels > 0
    ensures |Downmix(data, channels, toF32)| == (|data| + channels - 1) / channels
    ensures k < |Downmix(data, channels, toF32)| ==>
      k * channels < |data| &&
      Downmix(data, channels, toF32)[k]
        == Mono(data[k * channels .. Analysis.Min(k * channels + channels, |data|)], channels, toF32)
  {
    ChunkCount(data, channels);
    if k < |Downmix(data, channels, toF32)| {
      ChunkAt(data, channels, k);
    }
  }

  // ---------------------------------------------------------------------------
  // The buffer as a value

  /** The trim after appending: when the buffer exceeds HighWater, the oldest
      TrimCount samples go, once. The result is a suffix of the input. */
  function Trim(buffer: seq<real>): (r: seq<real>)
    ensures |r| == if |buffer| > HighWater then |buffer| - TrimCount else |buffer|
    ensures r == buffer[|buffer| - |r|..]
  {
    if |buffer| > HighWater then buffer[TrimCount..] else buffer
  }

  /** The window handed to analysis: the last min(len, SampleSize) samples. */
  function Latest(buffer: seq<real>): (r: seq<real>)
    ensures |r| == Analysis.Min(|buffer|, Analysis.SampleSize)
    ensures r == buffer[|buffer| - |r|..]
  {
    if |buffer| >= Analysis.SampleSize then buffer[|buffer| - Analysis.SampleSize..] else buffer
  }

  /** Trimming never touches the analysis window: the newest samples are
      never dropped. */
  lemma TrimKeepsLatest(buffer: seq<real>)
    ensures Latest(Trim(buffer)) == Latest(buffer)
  {
    if |buffer| > HighWater {
      var t := Trim(buffer);
      assert t[|t| - Analysis.SampleSize..] == buffer[|buffer| - Analysis.SampleSize..];
    }
  }

  /** The buffer after each of `appended` has been pushed by one callback. */
  function Feed(buffer: seq<real>, appended: seq<seq<real>>): (r: seq<real>)
    ensures |r| <= |buffer| + |Concat(appended)|
    ensures r == (buffer + Concat(appended))[|buffer| + |Concat(appended)| - |r|..]
  {
    if |appended| == 0 then
      assert buffer + Concat(appended) == buffer;
      buffer
    else
      var init := appended[..|appended| - 1];
      var last := appended[|appended| - 1];
      var before := Feed(buffer, init);
      var all := buffer + Concat(init);
      assert buffer + Concat(appended) == all + last;
      assert before + last == (all + last)[|all| - |before|..];
      Trim(before + last)
  }

  /** As long as no more than HighWater samples have arrived, nothing is
      trimmed: the buffer holds everything, oldest first. */
  lemma {:induction false} FeedBeforeHighWater(buffer: seq<real>, appended: seq<seq<real>>)
    requires |buffer| + |Concat(appended)| <= HighWater
    ensures Feed(buffer, appended) == buffer + Concat(appended)
  {
    if |appended| > 0 {
      var init := appended[..|appended| - 1];
      FeedBeforeHighWater(buffer, init);
      assert buffer + Concat(init) + appended[|appended| - 1] == buffer + Concat(appended);
    }
  }

  /** The buffer starts empty, so analysis sees fewer than SampleSize samples
      until that many have arrived. */
  lemma ShortUntilWindowFull(appended: seq<seq<real>>)
    requires |Concat(appended)| < Analysis.SampleSize
    ensures Latest(Feed([], appended)) == Concat(appended)
    ensures |Latest(Feed([], appended))| < Analysis.SampleSize
  {
    FeedBeforeHighWater([], appended);
    assert [] + Concat(appended) == Concat(appended);
  }

  /** Trimming happens at most once per callback, yet it bounds the buffer:
      starting at most HighWater long, with callbacks adding at most TrimCount
      samples each, it stays at most HighWater long. */
  lemma {:induction false} FeedBounded(buffer: seq<real>, appended: seq<seq<real>>)
    requires |buffer| <= HighWater
    requires forall k :: 0 <= k < |appended| ==> |appended[k]| <= TrimCount
    ensures |Feed(buffer, appended)| <= HighWater
  {
    if |appended| > 0 {
      FeedBounded(buffer, appended[..|appended| - 1]);
      assert |appended[|appended| - 1]| <= TrimCount;
    }
  }

  /** The bound needs the per-callback limit: callbacks that each deliver more
      than TrimCount samples grow the buffer by at least one sample per call,
      without limit, since a single trim cannot keep up. */
  lemma {:induction false} LargeCallbacksGrow(buffer: seq<real>, appended: seq<seq<real>>)
    requires forall k :: 0 <= k < |appended| ==> |appended[k]| > TrimCount
    ensures |Feed(buffer, appended)| >= |buffer| + |appended|
  {
    if |appended| > 0 {
      LargeCallbacksGrow(buffer, appended[..|appended| - 1]);
      assert |appended[|appended| - 1]| > TrimCount;
    }
  }

  /** After any callback, analysis sees the trailing window of the old buffer
      followed by the new samples, exactly as if nothing had been trimmed. */
  lemma CallbackWindow(buffer: seq<real>, mono: seq<real>)
    ensures Latest(Trim(buffer + mono)) == Latest(buffer + mono)
    ensures |mono| >= Analysis.SampleSize ==>
      Latest(Trim(buffer + mono)) == mono[|mono| - Analysis.SampleSize..]
  {
    TrimKeepsLatest(buffer + mono);
    if |mono| >= Analysis.SampleSize {
      var all := buffer + mono;
      assert all[|all| - Analysis.SampleSize..] == mono[|mono| - Analysis.SampleSize..];
    }
  }

  // ---------------------------------------------------------------------------
  // The capture object

  class AudioCapture {
    /** The shared sample buffer, oldest first. */
    var buffer: seq<real>
    /** Channels per interleaved frame of the input stream. */
    const channels: nat

    /** A new capture starts with an empty buffer. */
    constructor (channels: nat)
      ensures buffer == [] && this.channels == channels
    {
      buffer := [];
      this.channels := channels;
    }

    /** The stream callback: appends one mono sample per frame of `data`, then
        trims once if the buffer has grown past HighWater. (`chunks` panics on
        a zero channel count, hence the precondition.) */
    method OnInput<T>(data: seq<T>, toF32: T -> real)
      requires channels > 0
      modifies this`buffer
      ensures buffer == Trim(old(buffer) + Downmix(data, channels, toF32))
    {
      var frames := Chunks(data, channels);
      ghost var mono := Downmix(data, channels, toF32);
      for k := 0 to |frames|
        invariant buffer == old(buffer) + mono[..k]
      {
        var frame := frames[k];
        var sum := Sum(seq(|frame|, i requires 0 <= i < |frame| => toF32(frame[i])));
        buffer := buffer + [sum / channels as real];
        assert mono[..k + 1] == mono[..k] + [mono[k]];
      }
      assert mono[..|frames|] == mono;
      if |buffer| > HighWater {
        buffer := buffer[TrimCount..];
      }
    }

    /** `get_samples`: the last min(len, SampleSize) samples, in order; the
        buffer is not changed. */
    method GetSamples() returns (samples: seq<real>)
      ensures samples == Latest(buffer)
      ensures |samples| == Analysis.Min(|buffer|, Analysis.SampleSize)
      ensures samples == buffer[|buffer| - |samples|..]
    {
      if |buffer| >= Analysis.SampleSize {
        samples := buffer[|buffer| - Analysis.SampleSize..];
      } else {
        samples := buffer;
      }
    }
  }

  // ---------------------------------------------------------------------------
  // Device selection and format dispatch

  /** ASCII lower-casing of one character. */
  function LowerChar(c: char): char
  {
    if 'A' <= c <= 'Z' then (c as int + 32) as char else c
  }

  /** The name lower-cased: every ASCII capital becomes its small letter
      (32 code points on), every other character is kept. */
  function ToLower(s: string): (r: string)
    ensures |r| == |s|
    ensures forall i :: 0 <= i < |r| ==> !('A' <= r[i] <= 'Z')
    ensures forall i :: 0 <= i < |s| && 'A' <= s[i] <= 'Z' ==> r[i] == (s[i] as int + 32) as char
    ensures forall i :: 0 <= i < |s| && !('A' <= s[i] <= 'Z') ==> r[i] == s[i]
  {
    seq(|s|, i requires 0 <= i < |s| => LowerChar(s[i]))
  }

  /** `str::contains`: `pattern` occurs in `s` as a contiguous substring. */
  function Contains(s: string, pattern: string): (found: bool)
    ensures found ==> |pattern| <= |s|
    ensures |pattern| <= |s| && s[..|pattern|] == pattern ==> found
    decreases |s|
  {
    if |s| < |pattern| then false
    else s[..|pattern|] == pattern || Contains(s[1..], pattern)
  }

  /** `pattern` occurs in `s` starting at position i. */
  predicate OccursAt(s: string, pattern: string, i: int)
  {
    0 <= i <= |s| - |pattern| && s[i..i + |pattern|] == pattern
  }

  /** `Contains` holds exactly when the pattern occurs at some position. */
  lemma {:induction false} ContainsIff(s: string, pattern: string)
    ensures Contains(s, pattern) <==> exists i :: OccursAt(s, pattern, i)
    decreases |s|
  {
    if |s| >= |pattern| && |s| > 0 {
      ContainsIff(s[1..], pattern);
      if s[..|pattern|] == pattern {
        assert OccursAt(s, pattern, 0);
      }
      if Contains(s[1..], pattern) {
        var i :| OccursAt(s[1..], pattern, i);
        assert s[1..][i..i + |pattern|] == s[i + 1..i + 1 + |pattern|];
        assert OccursAt(s, pattern, i + 1);
      }
      if exists i :: OccursAt(s, pattern, i) {
        var i :| OccursAt(s, pattern, i);
        if i > 0 {
          assert s[1..][i - 1..i - 1 + |pattern|] == s[i..i + |pattern|];
          assert OccursAt(s[1..], pattern, i - 1);
        }
      }
    } else if |s| >= |pattern| {
      assert OccursAt(s, pattern, 0);
    } else {
      assert forall i :: !OccursAt(s, pattern, i);
    }
  }

  /** A device chosen as loopback: its name can be read and, lower-cased,
      contains "loopback". */
  predicate IsLoopback(d: Device)
    ensures IsLoopback(d) <==>
      d.name.Some? && exists i :: OccursAt(ToLower(d.name.value), "loopback", i)
  {
    d.name.Some? && (ContainsIff(ToLower(d.name.value), "loopback"); Contains(ToLower(d.name.value), "loopback"))
  }

  /** `find_loopback_device`: a failed enumeration is passed on; otherwise the
      first enumerated loopback device, else the default output device, else
      NoOutputDevice. */
  method FindLoopbackDevice(devices: Result<seq<Device>>, defaultDevice: Option<Device>)
    returns (r: Result<Device>)
    ensures devices.Err? ==> r == Err(devices.error)
    ensures devices.Ok? && (exists i :: 0 <= i < |devices.value| && IsLoopback(devices.value[i])) ==>
      exists i :: 0 <= i < |devices.value| && r == Ok(devices.value[i]) &&
        IsLoopback(devices.value[i]) && forall j :: 0 <= j < i ==> !IsLoopback(devices.value[j])
    ensures devices.Ok? && (forall i :: 0 <= i < |devices.value| ==> !IsLoopback(devices.value[i])) ==>
      r == if defaultDevice.Some? then Ok(defaultDevice.value) else Err(NoOutputDevice)
  {
    if devices.Err? {
      return Err(devices.error);
    }
    var all := devices.value;
    for i := 0 to |all|
      invariant forall j :: 0 <= j < i ==> !IsLoopback(all[j])
    {
      var device := all[i];
      if device.name.Some? {
        var name := device.name.value;
        if Contains(ToLower(name), "loopback") {
          return Ok(device);
        }
      }
    }
    if defaultDevice.Some? {
      r := Ok(defaultDevice.value);
    } else {
      r := Err(NoOutputDevice);
    }
  }

  /** The format dispatch of `AudioCapture::new`: F32, I16 and U16 build a
      stream of that sample type; every other format is an error. */
  function StreamFormat(format: SampleFormat): (r: Result<SampleFormat>)
    ensures r.Ok? <==> format == F32 || format == I16 || format == U16
    ensures r.Ok? ==> r.value == format
    ensures r.Err? ==> r.error == UnsupportedSampleFormat
  {
    match format
    case F32 => Ok(F32)
    case I16 => Ok(I16)
    case U16 => Ok(U16)
    case _ => Err(UnsupportedSampleFormat)
  }
}
