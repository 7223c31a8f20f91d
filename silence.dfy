/** The silence classifier `checkSilence`. */
module Silence {
  import opened Config

  /** Python's max() over a non-empty list of samples. */
  function MaxSample(s: seq<int>): (m: int)
    requires |s| > 0
    ensures m in s
    ensures forall i :: 0 <= i < |s| ==> s[i] <= m
  {
    if |s| == 1 then s[0]
    else
      var rest := MaxSample(s[1..]);
      if rest <= s[0] then s[0] else rest
  }

  /** A frame is silent when its largest SIGNED sample is below the threshold.
      Only the signed maximum matters: negative samples never break silence,
      and a sample equal to the threshold does. */
  function IsSilent(frame: seq<int>): (silent: bool)
    requires |frame| > 0
    ensures silent <==> forall i :: 0 <= i < |frame| ==> frame[i] < Thresh
  {
    MaxSample(frame) < Thresh
  }

  /** A full-scale negative frame: every sample has magnitude 32768, far above
      the threshold, and yet the frame counts as silent. */
  lemma LoudNegativeFrameIsSilent()
    ensures var f := seq(Chunk, _ => -0x8000);
      IsSilent(f) && forall i :: 0 <= i < |f| ==> f[i] * f[i] >= Thresh * Thresh
  {
  }
}
