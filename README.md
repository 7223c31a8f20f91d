# NowSpinning in Dafny

NowSpinning listens on an audio input. On each pass of its loop it reads one
frame; when that first frame is loud, it records the fixed-length sample that
follows and sends it to a song-recognition service. It polls that
service until a verdict arrives, picks a release among the matches by comparing
their lists of release years, and cleans bracketed annotations out of the album title. It then asks a metadata
service for cover art and shows the art beside a caption of song, artist and
album.

This project models the decision-making of one pass of that loop, with the
device, network, file and plotting calls replaced by state the model can see:

- `Config`: the script's constants (threshold 512, frames of 1024 samples,
  15 seconds at 16000 Hz, 500-pixel images) and the shared types. Python
  exceptions the core can raise become the `Fault` cases of a `Result`.
- `Silence`: `checkSilence`, the signed maximum of a frame compared with the
  threshold.
- `Listener`: the input stream as a class over an endless device
  (`nat -> Frame`) with a read position. The listening state (`num_silent`,
  `snd_started`, the scratch array `r`, the saved sample) is a class whose
  `Listen` method runs one iteration.
- `Releases`: the nested loops that build the per-hit year lists, and
  the choice of the least year list under Python's ordering of lists.
- `AlbumTitle`: the album clean-up regex written as a scanner, with its
  characterisation proved (it only deletes, it keeps newlines, it leaves no
  match behind, it changes a title exactly when the pattern matches, and it is
  idempotent).
- `Identifier`: the recognition service as a class that logs uploads and polls
  and answers from a fixed sequence of replies. It holds the poll loop, the
  verdict decision and `songIdent`.
- `Artwork`: the metadata service as a class that logs queries. It holds the
  `"error"` substring test and the placeholder-or-last-image choice.
- `Display`: the caption and its line structure.
- `NowSpinning`: a whole pass, from opening the stream to what ends up on
  the screen.

Points where the code does something other than what its own comments and
names suggest; the model follows the code:

- The docstring of `checkSilence` (NowSpinning.py:60-64) speaks of audio below
  the threshold, but the test is the signed maximum (NowSpinning.py:65), not
  the largest magnitude. A frame of full-scale negative samples is therefore
  silent (`Silence.LoudNegativeFrameIsSilent`).
- The comments at NowSpinning.py:221-224 aim for the earliest recorded version
  of the song. The code takes the least year list in Python's list order
  (NowSpinning.py:242), which compares first elements first. For the hits
  `[[2001, 1990], [1995]]` it picks 1995, not 1990
  (`Releases.ListOrderIsNotEarliestYear`). For `[[2001, 1990], [2015]]` both
  readings pick 1990 (`Releases.FirstGroupExample`).
- The frame that shows sound is present is not part of the saved sample: it is
  appended only to the array `r` (NowSpinning.py:96), which is never used. The
  saved sample is the 234 frames read after it (NowSpinning.py:114-116).
- The comment at NowSpinning.py:280 checks "if there is a match", but the code
  tests whether the raw response text contains `"error"` anywhere
  (NowSpinning.py:281), so an album whose text mentions the word is treated as
  no match.
- A found verdict whose hit list is empty, or whose hit has no tracks, is not
  handled: `min()` raises on the empty list (NowSpinning.py:242-243). The model
  returns `Err(NoHits)`, or `Err(EmptyHit)` for a hit without tracks.
- The not-found branch returns empty Python lists (NowSpinning.py:215-217).
  They are modelled as empty strings.

## Model

| member | source | states |
|---|---|---|
| Silence.MaxSample | NowSpinning.py:65 | Python's `max()` of a non-empty list: the result occurs in the list and no element exceeds it |
| Silence.IsSilent | NowSpinning.py:59-65 | a frame is silent exactly when every sample is strictly below the threshold; a sample equal to the threshold breaks silence |
| Silence.LoudNegativeFrameIsSilent | NowSpinning.py:65 | a frame of -32768 samples, each of magnitude above the threshold, still counts as silent |
| Listener.Window | NowSpinning.py:114-116 | the n frames from a read position are the device's frames at consecutive positions, in read order |
| Listener.AudioStream.Open | NowSpinning.py:75-82 | a freshly opened stream reads the given device from the given position |
| Listener.AudioStream.Read | NowSpinning.py:90 | a read delivers the frame at the current position and advances by one |
| Listener.Record | NowSpinning.py:111-116 | the recording loop advances the stream by n and returns exactly the n frames from the old position, in order |
| Listener.Monitor.Listen | NowSpinning.py:84-119 | one iteration resets `num_silent` to 0 and classifies exactly one frame, which lands in `r`; `snd_started` is set exactly when that frame is loud; a silent frame consumes one frame and leaves the saved sample alone; a loud frame consumes 1 + 234 frames, and the saved and returned sample are exactly the 234 frames after the trigger |
| Releases.LexLess | NowSpinning.py:242 | Python's `<` on lists holds exactly when, at the first position where the lists part, the left one has ended while the right goes on or holds the smaller element |
| Releases.LexAtMost | NowSpinning.py:242 | Python's `<=` on lists holds exactly when the right list is not below the left one |
| Releases.LexLessIrreflexive | NowSpinning.py:242 | no year list is below itself in Python's list order |
| Releases.LexLessTransitive | NowSpinning.py:242 | Python's list order is transitive |
| Releases.LexLessTotal | NowSpinning.py:242 | any two year lists are equal or ordered one way |
| Releases.LexLessAsymmetric | NowSpinning.py:242 | two lists are never below each other |
| Releases.AtMostEmpty | NowSpinning.py:242 | only the empty list is at most the empty list |
| Releases.LexMin | NowSpinning.py:242 | `min(years)` is one of the lists and is at most every list |
| Releases.MinYear | NowSpinning.py:243 | `min()` of a hit's years is one of them and at most each |
| Releases.IndexOf | NowSpinning.py:242-243 | `list.index` returns the first position holding the value |
| Releases.TrackYears | NowSpinning.py:238-240 | a hit's year list has one entry per track: the track's last field, in order |
| Releases.YearLists | NowSpinning.py:225-240 | `years` has one entry per hit, each being that hit's year list |
| Releases.BuildYears | NowSpinning.py:225-240 | the nested append loops yield `len(years) == len(data)` and `years[h][a]` equal to the year of track a of hit h |
| Releases.Select | NowSpinning.py:242-243 | no hits gives the `min()` error; a hit without tracks gives the `min()` error on that hit; otherwise the choice is the first hit whose list is at most every list, and within it the first track of least year |
| Releases.ChoiceUnique | NowSpinning.py:242-243 | at most one (hit, track) pair satisfies the two first-least conditions |
| Releases.FirstGroupExample | NowSpinning.py:242-243 | for `[[2001, 1990], [2015]]` the 1990 release of the first hit is chosen |
| Releases.ListOrderIsNotEarliestYear | NowSpinning.py:242-243 | for `[[2001, 1990], [1995]]` the 1995 release is chosen although 1990 is the earliest year |
| AlbumTitle.Closer | NowSpinning.py:253 | the lazy `.*?[\)\]]` from a position finds the first closer not past a newline, and finds none exactly when every closer there has a newline before it |
| AlbumTitle.StripAnnotations | NowSpinning.py:253 | the cleaned title is never longer than the original |
| AlbumTitle.StripIsSubsequence | NowSpinning.py:253 | the clean-up only deletes characters; the rest stay in order and unaltered |
| AlbumTitle.StripKeepsNewlines | NowSpinning.py:253 | a removed span never holds a newline, so the newline count is unchanged |
| AlbumTitle.StripLeavesNoSpan | NowSpinning.py:253 | the pattern matches nowhere in the cleaned title |
| AlbumTitle.StripWithoutSpan | NowSpinning.py:253 | a title the pattern does not match is returned unchanged |
| AlbumTitle.StripChangesExactlyOnMatch | NowSpinning.py:253 | the title changes exactly when the pattern matches in it, and then it gets strictly shorter; cleaning twice equals cleaning once |
| AlbumTitle.StripFirstSpan | NowSpinning.py:253 | for the leftmost match, ended at its nearest closer, the text before it is kept, the match is deleted and the clean-up goes on after it |
| AlbumTitle.StripKeepsPlainPrefix | NowSpinning.py:253 | text before the first opener survives the clean-up untouched |
| AlbumTitle.RemasteredExample | NowSpinning.py:253 | "Abbey Road (Remastered)" becomes "Abbey Road " |
| Identifier.RecognitionService.Identify | NowSpinning.py:179-190 | an upload is logged and the service's token is returned |
| Identifier.RecognitionService.GetResult | NowSpinning.py:193-197 | the n-th poll is answered with the n-th reply and logged with its token |
| Identifier.Report | NowSpinning.py:246-253 | a selection error passes through unchanged; a choice yields the found identification of the chosen track's song and artist and its cleaned album |
| Identifier.Decide | NowSpinning.py:212-253 | the not-found/found branch; its contract is stated by the lemma `DecideCases` (next row) |
| Identifier.DecideCases | NowSpinning.py:212-253 | exactly the verdict "not found" yields the empty failure tuple; success holds exactly for another verdict whose hits are non-empty and all have tracks; an empty hit list and a trackless hit yield their `min()` errors |
| Identifier.DecideFound | NowSpinning.py:242-253 | a found verdict reports fields 0, 1 and 2 of the first least-year track of the first least hit, with the album cleaned |
| Identifier.AwaitVerdict | NowSpinning.py:193-210 | earlier polls stay in the log as a prefix; at least one poll is sent, every new one with the given token; every new poll but the last was answered "wait", and the last reply, which is returned, is not "wait"; nothing is uploaded |
| Identifier.SongIdent | NowSpinning.py:171-255 | one upload of the sample, then polls, each sending the service's token, until the first non-"wait" reply, every earlier new poll answered "wait"; the result is `Decide` of that last reply |
| Identifier.ScenarioExample | NowSpinning.py:212-255 | two hits, "(Live) AlbumA" of 1999 and "AlbumA" of 1985: the 1985 triple is reported with success |
| Artwork.Contains | NowSpinning.py:281 | Python's `in` on strings: true exactly when the pattern occurs at some position |
| Artwork.BlankImage | NowSpinning.py:294 | the blank stand-in image: dim rows of dim pixels, every channel zero |
| Artwork.ChooseArt | NowSpinning.py:280-296 | the placeholder exactly when the text contains "error", and it is the all-zero 500x500 image; otherwise the last image URI, or the IndexError exactly when the image list is empty |
| Artwork.MetadataService.AlbumInfo | NowSpinning.py:267-278 | a lookup answers for exactly the given artist and album and is logged |
| Artwork.GetAlbumArt | NowSpinning.py:258-296 | one metadata query for the artist and album, then the artwork choice on its answer |
| Display.Caption | NowSpinning.py:324 | the caption has length 25 plus the fields' lengths, and each field can be read back at a fixed offset behind its label |
| Display.CaptionLines | NowSpinning.py:324 | with single-line fields, the caption splits into "Song: …", "", "Artist: …", "", "Album: …" |
| NowSpinning.Present | NowSpinning.py:122-147 | the blank screen exactly for a not-found verdict; panels only for a found song, with the artwork chosen for its artist and album; an abort exactly when identification or the artwork choice fails |
| NowSpinning.PresentCaption | NowSpinning.py:127-134 | the panels are captioned with the found song's own song, artist and album |
| NowSpinning.ShowFound | NowSpinning.py:127-134 | a found song makes exactly one metadata query and shows its artwork and caption |
| NowSpinning.ShowVerdict | NowSpinning.py:122-147 | the pass ends as `Present` says for the verdict, with one metadata query for a found song and none otherwise |
| NowSpinning.Recognise | NowSpinning.py:119-147 | the sample is uploaded once; polls send the service's token until the first non-"wait" reply, the old polls kept as a prefix; the pass ends as `Present` says for the `Decide` of that reply; the metadata service is queried once for a found song and never otherwise |
| NowSpinning.Spin | NowSpinning.py:73-152 | a silent first frame ends the pass quietly, with no upload, poll, query or saved sample; a loud one saves the 234 following frames and continues as `Recognise` does with that sample, token and poll facts included |

## Left out

- Opening, closing and terminating the audio stream, and the big-endian byte swap: device I/O. A stream is a read position on an endless device, and a read blocks until a frame exists.
- Writing the sample as a WAV file (`recordAudio`): file I/O. Recording is modelled as overwriting the monitor's single saved sample.
- HTTP requests, JSON decoding and the one-second sleep between polls: network and timing. Service answers are already-parsed values indexed by request number.
- Identifier.AwaitVerdict: requires that some later reply is not "wait", because the source polls forever otherwise and an endless loop has no final state to specify. Identifier.SongIdent and NowSpinning.Recognise inherit this, and NowSpinning.Spin inherits it only when the first frame of the pass is loud.
- Downloading the chosen image and saving or opening `albumart.jpg`: network and file I/O. The artwork is the placeholder's pixels or the URI that would be downloaded.
- All matplotlib and PIL rendering: the dark canvas, the two panels, the thumbnail, the title label and the pauses. What is left is the caption text and which screen a pass ends on.
- The unbounded `while True` loop: one pass is modelled. Each pass opens a fresh stream and resets the flags, so a loud first frame starts a new recording on every pass. Passes still interact in two ways the model does not follow. An `Aborted` pass is an uncaught exception that ends the program, so no later pass runs and the stream is never closed. A `Quiet` pass leaves the previous screen on display.
- The console messages (NowSpinning.py:109, 128, 138, 176): output only, with no effect on the state.
- The floating-point frame count `int(sr / chunk * rec_sec)`: integer division of the fixed constants gives the same 234.
- Releases.Track: keeps fields 0, 1 and 2 and the last field of a track array, with an integer year. Python would compare whatever type the last field holds, and would raise on missing fields.
- Artwork.ChooseArt: a metadata answer without the `album` or `image` keys (a KeyError in the source) is not modelled. The answer always carries an image list, possibly empty.
- Malformed recognition answers without a `token`, `result` or `data` key (KeyErrors in the source): not modelled, since replies are parsed values that have these fields.
