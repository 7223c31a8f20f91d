/** One pass of the listening loop of `listenAudio`, from opening the stream to
    the display: listen, and on sound record, identify, fetch art and show. */
module NowSpinning {
  import opened Config
  import opened Silence
  import opened Listener
  import opened Identifier
  import opened Artwork
  import opened Display

  /** How one pass ends. */
  datatype CycleEnd =
    | Quiet                  // the classified frame was silent: nothing recorded or shown
    | Shown(screen: Screen)  // the display was replaced
    | Aborted(fault: Fault)  // the source raises an exception here

  /** What the display shows once the verdict is known, and whether the
      metadata service is asked at all: the blank canvas exactly for the "not
      found" tuple; the panels exactly for a found song whose artwork choice
      succeeds, showing the artwork chosen from the metadata answer for its
      artist and album (PresentCaption gives their caption); an abort for a
      failed identification, carrying its fault, or for a failed artwork
      choice, carrying NoImages. */
  function Present(verdict: Result<Identification>, albums: (string, string) -> ArtReply): (end: CycleEnd)
    ensures end == Shown(Blank) <==> verdict.Ok? && !verdict.value.success
    ensures end.Shown? && end.screen.Panels? ==>
      && verdict.Ok? && verdict.value.success
      && Ok(end.screen.art) == ChooseArt(albums(verdict.value.artist, verdict.value.album))
    ensures verdict.Ok? && verdict.value.success && ChooseArt(albums(verdict.value.artist, verdict.value.album)).Ok? ==>
      end.Shown? && end.screen.Panels?
    ensures end.Aborted? <==>
      verdict.Err? || (verdict.value.success && ChooseArt(albums(verdict.value.artist, verdict.value.album)).Err?)
    ensures end.Aborted? ==> end.fault == (if verdict.Err? then verdict.fault else NoImages)
  {
    match verdict
    case Err(f) => Aborted(f)
    case Ok(id) =>
      if !id.success then Shown(Blank)
      else
        var art := ChooseArt(albums(id.artist, id.album));
        if art.Err? then Aborted(art.fault)
        else Shown(Panels(art.value, Caption(id.song, id.artist, id.album)))
  }

  /** The panels carry the caption of the found song's own fields. */
  lemma PresentCaption(verdict: Result<Identification>, albums: (string, string) -> ArtReply)
    ensures var end := Present(verdict, albums);
      end.Shown? && end.screen.Panels? ==>
        end.screen.caption == Caption(verdict.value.song, verdict.value.artist, verdict.value.album)
  {
  }

  /** The metadata queries a verdict leads to: one for a found song, none otherwise. */
  function Lookups(verdict: Result<Identification>): seq<(string, string)> {
    if verdict.Ok? && verdict.value.success then [(verdict.value.artist, verdict.value.album)] else []
  }

  /** The request logs of the two services: samples uploaded, tokens polled
      and (artist, album) pairs looked up, in order. */
  datatype Logs = Logs(uploads: seq<seq<Frame>>, polls: seq<string>, queries: seq<(string, string)>)

  /** What recognising `sample` does to the logs, for a recognition service
      with the given token and replies and a metadata service with the given
      answers: the sample uploaded once, then polls with the token up to and
      including the first reply that is not "wait", the pass ending as Present
      says for that verdict, and one metadata query for a found song only. */
  ghost predicate Recognised(sample: seq<Frame>, end: CycleEnd, before: Logs, after: Logs,
                             token: string, replies: nat -> Reply, albums: (string, string) -> ArtReply)
  {
    && after.uploads == before.uploads + [sample]
    && PolledUntilVerdict(before.polls, after.polls, token, replies)
    && end == Present(Decide(replies(|after.polls| - 1)), albums)
    && after.queries == before.queries + Lookups(Decide(replies(|after.polls| - 1)))
  }

  /** Recognised from its parts, with the verdict named. */
  lemma RecognisedIntro(sample: seq<Frame>, end: CycleEnd, before: Logs, after: Logs, token: string,
                        replies: nat -> Reply, albums: (string, string) -> ArtReply, verdict: Result<Identification>)
    requires after.uploads == before.uploads + [sample]
    requires PolledUntilVerdict(before.polls, after.polls, token, replies)
    requires verdict == Decide(replies(|after.polls| - 1))
    requires end == Present(verdict, albums)
    requires after.queries == before.queries + Lookups(verdict)
    ensures Recognised(sample, end, before, after, token, replies, albums)
  {
  }

  /** The display for a found song: one metadata query for its artist and
      album, then the artwork chosen from the answer beside its caption. */
  method ShowFound(meta: MetadataService, id: Identification) returns (end: CycleEnd)
    requires id.success
    modifies meta
    ensures meta.queries == old(meta.queries) + [(id.artist, id.album)]
    ensures end == Present(Ok(id), meta.albums)
  {
    var art := GetAlbumArt(meta, id.artist, id.album);
    end := if art.Err? then Aborted(art.fault)
           else Shown(Panels(art.value, Caption(id.song, id.artist, id.album)));
  }

  /** The display step once the verdict is known: the artwork and caption for a
      found song, the blank canvas for "not found", an abort for an error. */
  method ShowVerdict(meta: MetadataService, verdict: Result<Identification>) returns (end: CycleEnd)
    modifies meta
    ensures end == Present(verdict, meta.albums)
    ensures meta.queries == old(meta.queries) + Lookups(verdict)
  {
    if verdict.Ok? && verdict.value.success {
      end := ShowFound(meta, verdict.value);
    } else {
      end := if verdict.Err? then Aborted(verdict.fault) else Shown(Blank);
    }
  }

  /** Everything after the recording: identify the sample, then query the
      metadata service for a found song only, and show what Present gives. */
  method Recognise(svc: RecognitionService, meta: MetadataService, sample: seq<Frame>)
      returns (end: CycleEnd)
    requires EventuallyAnswers(svc.replies, |svc.polls|)
    modifies svc, meta
    ensures Recognised(sample, end, Logs(old(svc.uploads), old(svc.polls), old(meta.queries)),
                       Logs(svc.uploads, svc.polls, meta.queries), svc.token, svc.replies, meta.albums)
  {
    ghost var before := Logs(svc.uploads, svc.polls, meta.queries);
    var verdict := SongIdent(svc, sample);
    ghost var uploads, polls, token, replies := svc.uploads, svc.polls, svc.token, svc.replies;
    end := ShowVerdict(meta, verdict);
    ghost var after := Logs(uploads, polls, meta.queries);
    RecognisedIntro(sample, end, before, after, token, replies, meta.albums, verdict);
  }

  /** One pass on a stream opened at read position `at`. A silent first frame
      touches neither service and shows nothing new. Otherwise the frames after
      it are recorded and recognised as above. */
  method Spin(monitor: Monitor, device: nat -> Frame, at: nat, svc: RecognitionService, meta: MetadataService)
      returns (end: CycleEnd)
    requires !IsSilent(device(at)) ==> EventuallyAnswers(svc.replies, |svc.polls|)
    modifies monitor, svc, meta
    ensures monitor.numSilent == 0
    ensures IsSilent(device(at)) ==>
      && end == Quiet
      && monitor.saved == old(monitor.saved)
      && svc.uploads == old(svc.uploads) && svc.polls == old(svc.polls)
      && meta.queries == old(meta.queries)
    ensures !IsSilent(device(at)) ==>
      && monitor.saved == Window(device, at + 1, RecordFrames)
      && Recognised(monitor.saved, end, Logs(old(svc.uploads), old(svc.polls), old(meta.queries)),
                    Logs(svc.uploads, svc.polls, meta.queries), svc.token, svc.replies, meta.albums)
  {
    var stream := new AudioStream.Open(device, at);
    var recorded := monitor.Listen(stream);
    assert monitor.r == device(at);
    if recorded.None? {
      end := Quiet;
    } else {
      ghost var saved := monitor.saved;
      assert saved == Window(device, at + 1, RecordFrames);
      end := Recognise(svc, meta, recorded.value);
      assert monitor.saved == saved;
    }
  }
}
