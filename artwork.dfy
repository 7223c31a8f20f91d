/** The artwork choice of `getAlbumArt`. */
module Artwork {
  import opened Config

  /** pat occurs in text starting at position i. */
  predicate OccursAt(text: string, pat: string, i: int) {
    0 <= i && i + |pat| <= |text| && text[i..i + |pat|] == pat
  }

  /** Python's substring test `pat in text`. */
  function Contains(text: string, pat: string): (b: bool)
    ensures b <==> exists i :: OccursAt(text, pat, i)
    decreases |text|
  {
    if |text| < |pat| then false
    else if text[..|pat|] == pat then
      assert OccursAt(text, pat, 0);
      true
    else
      var rest := Contains(text[1..], pat);
      assert forall i :: OccursAt(text[1..], pat, i) ==> OccursAt(text, pat, i + 1) by {
        forall i | OccursAt(text[1..], pat, i)
          ensures OccursAt(text, pat, i + 1)
        {
          assert text[1..][i..i + |pat|] == text[i + 1..i + 1 + |pat|];
        }
      }
      assert forall i :: OccursAt(text, pat, i) ==> OccursAt(text[1..], pat, i - 1) by {
        forall i | OccursAt(text, pat, i)
          ensures OccursAt(text[1..], pat, i - 1)
        {
          assert i != 0;
          assert text[1..][i - 1..i - 1 + |pat|] == text[i..i + |pat|];
        }
      }
      rest
  }

  /** A parsed album.getInfo answer: the raw response text and the URIs
      (`#text`) of its `image` list, smallest first. */
  datatype ArtReply = ArtReply(text: string, images: seq<string>)

  /** The artwork handed to the display: the blank placeholder's pixels, or the
      URI of the image to download. */
  datatype Artwork = Placeholder(pixels: seq<seq<seq<Byte>>>) | Remote(uri: string)

  /** pixels is a dim x dim x 3 image whose every channel is zero. */
  ghost predicate IsBlank(pixels: seq<seq<seq<Byte>>>, dim: nat) {
    && |pixels| == dim
    && (forall y :: 0 <= y < dim ==> |pixels[y]| == dim)
    && (forall y, x :: 0 <= y < dim && 0 <= x < dim ==> pixels[y][x] == [0, 0, 0])
  }

  /** The blank stand-in image: dim by dim pixels, every channel zero. */
  function BlankImage(dim: nat): (pixels: seq<seq<seq<Byte>>>)
    ensures IsBlank(pixels, dim)
  {
    seq(dim, _ => seq(dim, _ => [0, 0, 0]))
  }

  /** The placeholder exactly when the response text mentions "error" anywhere;
      otherwise the last, largest, listed image, and an IndexError when the list
      is empty. */
  function ChooseArt(reply: ArtReply): (r: Result<Artwork>)
    ensures r.Ok? && r.value.Placeholder? <==> Contains(reply.text, "error")
    ensures r.Ok? && r.value.Placeholder? ==> IsBlank(r.value.pixels, ImgDim)
    ensures r.Err? <==> !Contains(reply.text, "error") && reply.images == []
    ensures r.Err? ==> r.fault == NoImages
    ensures r.Ok? && r.value.Remote? ==>
      reply.images != [] && r.value.uri == reply.images[|reply.images| - 1]
  {
    if !Contains(reply.text, "error") then
      if reply.images == [] then Err(NoImages)
      else Ok(Remote(reply.images[|reply.images| - 1]))
    else
      Ok(Placeholder(BlankImage(ImgDim)))
  }

  /** The metadata service, looked up by exact artist and album strings. */
  class MetadataService {
    /** The parsed answer for each (artist, album) query. */
    const albums: (string, string) -> ArtReply
    /** The queries made so far, in order. */
    var queries: seq<(string, string)>

    constructor (albums: (string, string) -> ArtReply)
      ensures this.albums == albums && queries == []
    {
      this.albums := albums;
      queries := [];
    }

    /** The album.getInfo request. */
    method AlbumInfo(artist: string, album: string) returns (reply: ArtReply)
      modifies this
      ensures reply == albums(artist, album)
      ensures queries == old(queries) + [(artist, album)]
    {
      reply := albums(artist, album);
      queries := queries + [(artist, album)];
    }
  }

  /** `getAlbumArt`: one query, then the choice above. */
  method GetAlbumArt(meta: MetadataService, artist: string, album: string) returns (art: Result<Artwork>)
    modifies meta
    ensures meta.queries == old(meta.queries) + [(artist, album)]
    ensures art == ChooseArt(meta.albums(artist, album))
  {
    var result := meta.AlbumInfo(artist, album);
    art := ChooseArt(result);
  }
}
