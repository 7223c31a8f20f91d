/** The text panel of `displayInfo` and what a cycle leaves on the screen. */
module Display {
  import opened Artwork

  /** The caption of the text panel. The three fields stand at fixed offsets
      behind their labels, so each can be read back from the caption. */
  function Caption(song: string, artist: string, album: string): (t: string)
    ensures |t| == 25 + |song| + |artist| + |album|
    ensures t[..6] == "Song: " && t[6..6 + |song|] == song
    ensures t[6 + |song|..16 + |song|] == "\n\nArtist: "
    ensures t[16 + |song|..16 + |song| + |artist|] == artist
    ensures t[16 + |song| + |artist|..25 + |song| + |artist|] == "\n\nAlbum: "
    ensures t[25 + |song| + |artist|..] == album
  {
    "Song: " + song + "\n\nArtist: " + artist + "\n\nAlbum: " + album
  }

  /** Python's str.split('\n'). */
  function Lines(s: string): (ls: seq<string>)
    ensures |ls| >= 1
    decreases |s|
  {
    if s == [] then [[]]
    else if s[0] == '\n' then [[]] + Lines(s[1..])
    else
      var rest := Lines(s[1..]);
      [[s[0]] + rest[0]] + rest[1..]
  }

  /** Splitting at the first newline. */
  lemma {:induction false} LinesOfLine(a: string, b: string)
    requires '\n' !in a
    ensures Lines(a + "\n" + b) == [a] + Lines(b)
    decreases |a|
  {
    if a == [] {
      assert a + "\n" + b == "\n" + b;
      assert ("\n" + b)[1..] == b;
    } else {
      var s := a + "\n" + b;
      assert s[0] == a[0] && s[1..] == a[1..] + "\n" + b;
      LinesOfLine(a[1..], b);
      assert a == [a[0]] + a[1..];
    }
  }

  /** Text without a newline is one line. */
  lemma {:induction false} LinesOfLast(a: string)
    requires '\n' !in a
    ensures Lines(a) == [a]
    decreases |a|
  {
    if a != [] {
      LinesOfLast(a[1..]);
      assert a == [a[0]] + a[1..];
    }
  }

  /** With single-line fields, the caption shows the song line, an empty line,
      the artist line, an empty line and the album line. */
  lemma CaptionLines(song: string, artist: string, album: string)
    requires '\n' !in song && '\n' !in artist && '\n' !in album
    ensures Lines(Caption(song, artist, album)) ==
      ["Song: " + song, "", "Artist: " + artist, "", "Album: " + album]
  {
    var l0, l2, l4 := "Song: " + song, "Artist: " + artist, "Album: " + album;
    var t3 := [] + "\n" + l4;
    var t2 := l2 + "\n" + t3;
    var t1 := [] + "\n" + t2;
    var t0 := l0 + "\n" + t1;
    CaptionShape(song, artist, album, t0);
    LinesOfLast(l4);
    LinesOfLine([], l4);
    assert Lines(t3) == ["", l4];
    LinesOfLine(l2, t3);
    assert Lines(t2) == [l2, "", l4];
    LinesOfLine([], t2);
    assert Lines(t1) == ["", l2, "", l4];
    LinesOfLine(l0, t1);
  }

  /** The caption as five lines joined by newlines. */
  lemma CaptionShape(song: string, artist: string, album: string, t0: string)
    requires t0 == ("Song: " + song) + "\n" + ([] + "\n" + (("Artist: " + artist) + "\n" +
      ([] + "\n" + ("Album: " + album))))
    ensures Caption(song, artist, album) == t0
  {
  }

  /** What the display shows after a cycle: the blank dark canvas, or the
      artwork beside the caption. */
  datatype Screen = Blank | Panels(art: Artwork, caption: string)
}
