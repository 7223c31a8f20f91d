/** The identification protocol of `songIdent`: upload the sample, poll with the
    token until the verdict is no longer "wait", then pick the earliest release. */
module Identifier {
  import opened Config
  import opened Releases
  import opened AlbumTitle

  /** The verdict the service gives while it is still analysing. */
  const Wait: string := "wait"
  /** The only verdict that counts as "no match". */
  const NotFoundVerdict: string := "not found"

  /** A parsed `get_result` answer: its `result` field and its `data` list. */
  datatype Reply = Reply(result: string, data: seq<Hit>)

  /** The tuple (song, artist, album, success) that `songIdent` returns. */
  datatype Identification = Identification(song: string, artist: string, album: string, success: bool)

  /** Some poll from position `from` on is answered with a final verdict. */
  ghost predicate EventuallyAnswers(replies: nat -> Reply, from: nat) {
    exists k: nat :: from <= k && replies(k).result != Wait
  }

  /** How the poll log grew from polls0 to polls: by at least one poll, every
      new poll sent `token`, every new poll but the last was answered "wait",
      and the last one was answered with a verdict. */
  ghost predicate PolledUntilVerdict(polls0: seq<string>, polls: seq<string>, token: string, replies: nat -> Reply) {
    && |polls0| < |polls|
    && polls[..|polls0|] == polls0
    && (forall i :: |polls0| <= i < |polls| ==> polls[i] == token)
    && (forall i :: |polls0| <= i < |polls| - 1 ==> replies(i).result == Wait)
    && replies(|polls| - 1).result != Wait
  }

  /** The recognition service as seen by the client. */
  class RecognitionService {
    /** The token that the `identify` action hands out. */
    const token: string
    /** The parsed answer to the n-th `get_result` request. */
    const replies: nat -> Reply
    /** The samples uploaded with `identify`, in order. */
    var uploads: seq<seq<Frame>>
    /** The token sent with each `get_result` request, in order. */
    var polls: seq<string>

    constructor (token: string, replies: nat -> Reply)
      ensures this.token == token && this.replies == replies
      ensures uploads == [] && polls == []
    {
      this.token, this.replies := token, replies;
      uploads, polls := [], [];
    }

    /** The `identify` action: upload a sample, receive the token. */
    method Identify(sample: seq<Frame>) returns (tok: string)
      modifies this
      ensures tok == token
      ensures uploads == old(uploads) + [sample] && polls == old(polls)
    {
      tok := token;
      uploads := uploads + [sample];
    }

    /** The `get_result` action for a token. */
    method GetResult(tok: string) returns (reply: Reply)
      modifies this
      ensures reply == replies(|old(polls)|)
      ensures polls == old(polls) + [tok] && uploads == old(uploads)
    {
      reply := replies(|polls|);
      polls := polls + [tok];
    }
  }

  /** The found branch once the choice is made: fields 0, 1 and 2 of the chosen
      track, with the album cleaned up. */
  function Report(data: seq<Hit>, sel: Result<Choice>): (r: Result<Identification>)
    requires sel.Ok? ==> sel.value.hit < |data| && sel.value.track < |data[sel.value.hit].tracks|
    ensures r.Ok? <==> sel.Ok?
    ensures r.Err? ==> r.fault == sel.fault
    ensures sel.Ok? ==>
      var t := data[sel.value.hit].tracks[sel.value.track];
      r == Ok(Identification(t.song, t.artist, StripAnnotations(t.album), true))
  {
    match sel
    case Err(f) => Err(f)
    case Ok(c) =>
      var t := data[c.hit].tracks[c.track];
      Ok(Identification(t.song, t.artist, StripAnnotations(t.album), true))
  }

  /** What `songIdent` returns for its final reply. Only the literal verdict
      "not found" gives the empty failure tuple; every other verdict takes the
      found branch, which fails only when min() meets an empty list. */
  function Decide(reply: Reply): Result<Identification> {
    if reply.result == NotFoundVerdict then
      Ok(Identification([], [], [], false))
    else
      Report(reply.data, Select(YearLists(reply.data)))
  }

  /** Only the literal verdict "not found" gives the empty failure tuple; every
      other verdict takes the found branch, which succeeds exactly when there
      are hits and each has tracks, and otherwise fails as min() does on the
      empty list of hits or on a hit without tracks. */
  lemma DecideCases(reply: Reply)
    ensures var r := Decide(reply);
      && (r == Ok(Identification([], [], [], false)) <==> reply.result == NotFoundVerdict)
      && (r.Ok? && r.value.success <==>
            reply.result != NotFoundVerdict && reply.data != [] &&
            forall h :: 0 <= h < |reply.data| ==> reply.data[h].tracks != [])
      && (r == Err(NoHits) <==> reply.result != NotFoundVerdict && reply.data == [])
      && (r == Err(EmptyHit) <==>
            reply.result != NotFoundVerdict && reply.data != [] &&
            exists h :: 0 <= h < |reply.data| && reply.data[h].tracks == [])
  {
    var years := YearLists(reply.data);
    assert forall h :: 0 <= h < |years| ==> (years[h] == [] <==> reply.data[h].tracks == []);
  }

  /** A found verdict reports the first track of least year in the first hit whose
      year list is least in list order, with its album cleaned up. */
  lemma DecideFound(reply: Reply, c: Choice)
    requires reply.result != NotFoundVerdict
    requires FirstLeastHit(YearLists(reply.data), c.hit)
    requires FirstEarliestTrack(YearLists(reply.data)[c.hit], c.track)
    ensures var t := reply.data[c.hit].tracks[c.track];
      Decide(reply) == Ok(Identification(t.song, t.artist, StripAnnotations(t.album), true))
  {
    var years := YearLists(reply.data);
    forall h | 0 <= h < |years|
      ensures years[h] != []
    {
      assert LexAtMost(years[c.hit], years[h]);
      AtMostEmpty(years[c.hit]);
    }
    var sel := Select(years);
    ChoiceUnique(years, sel.value, c);
  }

  /** The poll loop: send `get_result` with the token once, and again for as
      long as the verdict is "wait". */
  method AwaitVerdict(svc: RecognitionService, token: string) returns (songInfo: Reply)
    requires EventuallyAnswers(svc.replies, |svc.polls|)
    modifies svc
    ensures svc.uploads == old(svc.uploads)
    ensures PolledUntilVerdict(old(svc.polls), svc.polls, token, svc.replies)
    ensures songInfo == svc.replies(|svc.polls| - 1)
  {
    ghost var n0 := |svc.polls|;
    ghost var k: nat :| n0 <= k && svc.replies(k).result != Wait;
    songInfo := svc.GetResult(token);
    while songInfo.result == Wait
      invariant n0 < |svc.polls| <= k + 1
      invariant svc.uploads == old(svc.uploads)
      invariant svc.polls[..n0] == old(svc.polls)
      invariant forall i :: n0 <= i < |svc.polls| ==> svc.polls[i] == token
      invariant forall i :: n0 <= i < |svc.polls| - 1 ==> svc.replies(i).result == Wait
      invariant songInfo == svc.replies(|svc.polls| - 1)
      decreases k + 1 - |svc.polls|
    {
      songInfo := svc.GetResult(token);
    }
  }

  /** `songIdent`: upload, poll with the token the upload returned until the
      verdict is not "wait", then decide on that verdict. */
  method SongIdent(svc: RecognitionService, sample: seq<Frame>) returns (outcome: Result<Identification>)
    requires EventuallyAnswers(svc.replies, |svc.polls|)
    modifies svc
    ensures svc.uploads == old(svc.uploads) + [sample]
    ensures PolledUntilVerdict(old(svc.polls), svc.polls, svc.token, svc.replies)
    ensures outcome == Decide(svc.replies(|svc.polls| - 1))
  {
    var token := svc.Identify(sample);
    var songInfo := AwaitVerdict(svc, token);
    if songInfo.result == NotFoundVerdict {
      outcome := Ok(Identification([], [], [], false));
    } else {
      var years := BuildYears(songInfo.data);
      outcome := Report(songInfo.data, Select(years));
    }
    assert outcome == Decide(songInfo);
    assert svc.replies(|svc.polls| - 1) == songInfo;
  }

  lemma PlainAlbum(album: string)
    requires album == "AlbumA"
    ensures StripAnnotations(album) == album
  {
    assert forall i :: 0 <= i < |album| ==> !IsOpener(album[i]);
    StripKeepsPlainPrefix(album, []);
    assert album + [] == album;
  }

  /** The end-to-end case: one "wait", then two hits; the second hit's 1985
      release is reported, not the 1999 one, and its album needs no clean-up. */
  lemma ScenarioExample(reply: Reply)
    requires reply == Reply("found", [
      Hit([Track("SongA", "ArtistA", "(Live) AlbumA", 1999)]),
      Hit([Track("SongA", "ArtistA", "AlbumA", 1985)])])
    ensures Decide(reply) == Ok(Identification("SongA", "ArtistA", "AlbumA", true))
  {
    var years := YearLists(reply.data);
    assert years[0] == [1999] && years[1] == [1985];
    assert LexLess(years[1], years[0]);
    DecideFound(reply, Choice(1, 0));
    PlainAlbum(reply.data[1].tracks[0].album);
  }
}
