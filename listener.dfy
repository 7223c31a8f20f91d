/** One cycle of `listenAudio`: classify one frame and, on sound, record a fixed
    number of further frames. */
module Listener {
  import opened Config
  import opened Silence

  /** The n frames a device delivers from read position `start` on. */
  function Window(device: nat -> Frame, start: nat, n: nat): (w: seq<Frame>)
    ensures |w| == n
    ensures forall i :: 0 <= i < n ==> w[i] == device(start + i)
  {
    seq(n, i requires 0 <= i => device(start + i))
  }

  /** An open input stream. A read blocks until the device has a frame, and the
      device never runs dry, so the frames it delivers form an infinite sequence. */
  class AudioStream {
    /** The frame the device delivers at each read position. */
    const device: nat -> Frame
    /** Read position: frames consumed from the device so far. */
    var pos: nat

    constructor Open(device: nat -> Frame, at: nat)
      ensures this.device == device && pos == at
    {
      this.device := device;
      pos := at;
    }

    method Read() returns (f: Frame)
      modifies this
      ensures f == device(old(pos))
      ensures pos == old(pos) + 1
    {
      f := device(pos);
      pos := pos + 1;
    }
  }

  /** The recording loop: read n frames in order. */
  method Record(stream: AudioStream, n: nat) returns (frames: seq<Frame>)
    modifies stream
    ensures stream.pos == old(stream.pos) + n
    ensures frames == Window(stream.device, old(stream.pos), n)
  {
    frames := [];
    for i := 0 to n
      invariant stream.pos == old(stream.pos) + i
      invariant |frames| == i
      invariant forall j :: 0 <= j < i ==> frames[j] == stream.device(old(stream.pos) + j)
    {
      var data := stream.Read();
      frames := frames + [data];
    }
  }

  /** The listening state of `listenAudio`. */
  class Monitor {
    /** Silent frames seen since sound started. */
    var numSilent: nat
    /** Whether sound has been detected in this cycle. */
    var sndStarted: bool
    /** The scratch array `r`: it receives the classified frame and nothing reads it. */
    var r: seq<Sample>
    /** The single-slot sample artifact that `recordAudio` overwrites. */
    var saved: seq<Frame>

    constructor ()
      ensures numSilent == 0 && !sndStarted && r == [] && saved == []
    {
      numSilent, sndStarted, r, saved := 0, false, [], [];
    }

    /** One iteration of the listening loop on a freshly opened stream. The flags
        are reset, exactly one frame is classified, and a non-silent frame starts
        the recording of RecordFrames further frames. The trigger frame itself
        goes only into `r`, never into the recorded sample. */
    method Listen(stream: AudioStream) returns (sample: Option<seq<Frame>>)
      modifies this, stream
      ensures numSilent == 0
      ensures r == stream.device(old(stream.pos))
      ensures sndStarted <==> !IsSilent(r)
      ensures sample.None? <==> IsSilent(r)
      ensures sample.None? ==> stream.pos == old(stream.pos) + 1 && saved == old(saved)
      ensures sample.Some? ==>
        && stream.pos == old(stream.pos) + 1 + RecordFrames
        && sample.value == Window(stream.device, old(stream.pos) + 1, RecordFrames)
        && saved == sample.value
    {
      numSilent := 0;
      sndStarted := false;
      r := [];
      var sndData := stream.Read();
      r := r + sndData;
      assert r == sndData;
      var silent := IsSilent(sndData);
      sample := None;
      if silent && sndStarted {
        // The source counts a silent frame here; sndStarted was reset just above.
        assert false;
      } else if !silent && !sndStarted {
        sndStarted := true;
        var frames := Record(stream, RecordFrames);
        saved := frames;
        sample := Some(frames);
      }
    }
  }
}
