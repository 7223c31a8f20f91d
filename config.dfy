/** The fixed configuration of NowSpinning and the types shared by its parts. */
module Config {

  /** Silence threshold, compared with the signed maximum sample of a frame. */
  const Thresh: int := 512
  /** Samples per frame: the size of every `stream.read`. */
  const Chunk: nat := 1024
  /** Seconds of audio recorded once sound is detected. */
  const RecSec: nat := 15
  /** Sample rate in Hz. */
  const SampleRate: nat := 16000
  /** Side of the square placeholder image, in pixels. */
  const ImgDim: nat := 500

  /** Frames recorded after a trigger. The source computes int(sr / chunk * rec_sec)
      in floating point: 16000 / 1024 * 15 = 234.375, truncated to 234. For these
      constants the integer quotient below is the same number. */
  const RecordFrames: nat := SampleRate * RecSec / Chunk

  /** A signed 16-bit sample. */
  type Sample = x: int | -0x8000 <= x < 0x8000

  /** One read of the input stream: exactly Chunk samples. */
  type Frame = f: seq<Sample> | |f| == Chunk witness seq(Chunk, _ => 0)

  /** One channel value of an 8-bit image. */
  type Byte = x: int | 0 <= x < 0x100

  datatype Option<T> = None | Some(value: T)

  /** The exceptions the source raises on malformed service answers. */
  datatype Fault =
    | NoHits    // min() of the empty list of hits
    | EmptyHit  // min() of a hit with no tracks
    | NoImages  // images[-1] of an empty image list

  datatype Result<T> = Ok(value: T) | Err(fault: Fault)
}
