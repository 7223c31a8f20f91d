/** The earliest-release selection of `songIdent`: the service's hits become lists
    of release years, the least list in Python's ordering of lists picks the hit,
    and the first minimal year picks the track within it. */
module Releases {
  import opened Config

  /** One release of a matched song: fields 0, 1 and 2 of a track array and its
      last field, the release year. */
  datatype Track = Track(song: string, artist: string, album: string, year: int)

  /** One element of the service's `data` list: the releases of one matched song. */
  datatype Hit = Hit(tracks: seq<Track>)

  /** The index of the chosen hit and of the chosen track within it. */
  datatype Choice = Choice(hit: nat, track: nat)

  /** a is below b at position k: the two agree before k, and there a ends while
      b goes on, or both go on and a's element is smaller. */
  predicate BelowAt(a: seq<int>, b: seq<int>, k: nat) {
    && k <= |a| && k <= |b| && a[..k] == b[..k]
    && ((k == |a| && k < |b|) || (k < |a| && k < |b| && a[k] < b[k]))
  }

  /** Python's `<` on lists: the first differing element decides, and a proper
      prefix is smaller. */
  predicate LexLess(a: seq<int>, b: seq<int>): (less: bool)
    ensures less <==> exists k :: BelowAt(a, b, k)
    decreases |a|
  {
    if a == [] then
      assert b != [] ==> BelowAt(a, b, 0);
      b != []
    else if b == [] then false
    else if a[0] != b[0] then
      assert a[0] < b[0] ==> BelowAt(a, b, 0);
      forall k | 0 < k <= |a| && k <= |b|
        ensures a[..k] != b[..k]
      {
        assert a[..k][0] == a[0];
      }
      a[0] < b[0]
    else
      var rest := LexLess(a[1..], b[1..]);
      forall k: nat | BelowAt(a[1..], b[1..], k)
        ensures BelowAt(a, b, k + 1)
      {
        assert a[..k + 1] == [a[0]] + a[1..][..k];
        assert b[..k + 1] == [b[0]] + b[1..][..k];
      }
      forall k: nat | BelowAt(a, b, k)
        ensures 0 < k && BelowAt(a[1..], b[1..], k - 1)
      {
        assert a[1..][..k - 1] == a[..k][1..];
        assert b[1..][..k - 1] == b[..k][1..];
      }
      rest
  }

  /** Python's `<=` on lists: equal or below. */
  predicate LexAtMost(a: seq<int>, b: seq<int>): (atMost: bool)
    ensures atMost <==> !LexLess(b, a)
  {
    LexLessTotal(a, b);
    if LexLess(a, b) then
      LexLessAsymmetric(a, b);
      true
    else if a == b then
      LexLessIrreflexive(a);
      true
    else
      false
  }

  lemma {:induction false} LexLessIrreflexive(a: seq<int>)
    ensures !LexLess(a, a)
  {
    if a != [] {
      LexLessIrreflexive(a[1..]);
    }
  }

  lemma {:induction false} LexLessTransitive(a: seq<int>, b: seq<int>, c: seq<int>)
    requires LexLess(a, b) && LexLess(b, c)
    ensures LexLess(a, c)
    decreases |a|
  {
    if a != [] && a[0] == b[0] && b[0] == c[0] {
      LexLessTransitive(a[1..], b[1..], c[1..]);
    }
  }

  lemma {:induction false} LexLessTotal(a: seq<int>, b: seq<int>)
    ensures a == b || LexLess(a, b) || LexLess(b, a)
    decreases |a|
  {
    if a != [] && b != [] && a[0] == b[0] {
      LexLessTotal(a[1..], b[1..]);
      if a[1..] == b[1..] {
        assert a == [a[0]] + a[1..] && b == [b[0]] + b[1..];
      }
    }
  }

  lemma LexLessAsymmetric(a: seq<int>, b: seq<int>)
    requires LexLess(a, b)
    ensures !LexLess(b, a)
  {
    if LexLess(b, a) {
      LexLessTransitive(a, b, a);
      LexLessIrreflexive(a);
    }
  }

  /** The empty list is below every other list, and only it is at most []. */
  lemma AtMostEmpty(a: seq<int>)
    ensures LexAtMost(a, []) <==> a == []
  {
  }

  /** Python's min() over a non-empty list of lists: the running minimum is
      replaced only by a strictly smaller item. */
  function LexMin(ys: seq<seq<int>>): (m: seq<int>)
    requires |ys| > 0
    ensures m in ys
    ensures forall y :: y in ys ==> LexAtMost(m, y)
  {
    if |ys| == 1 then ys[0]
    else
      var init := ys[..|ys| - 1];
      var m := LexMin(init);
      var last := ys[|ys| - 1];
      assert ys == init + [last];
      if LexLess(last, m) then
        assert forall y :: y in init ==> LexAtMost(last, y) by {
          forall y | y in init
            ensures LexAtMost(last, y)
          {
            if y != m {
              LexLessTransitive(last, m, y);
            }
          }
        }
        last
      else
        LexLessTotal(last, m);
        m
  }

  /** Python's min() over a non-empty list of years. */
  function MinYear(ys: seq<int>): (m: int)
    requires |ys| > 0
    ensures m in ys
    ensures forall i :: 0 <= i < |ys| ==> m <= ys[i]
  {
    if |ys| == 1 then ys[0]
    else
      var rest := MinYear(ys[1..]);
      if ys[0] <= rest then ys[0] else rest
  }

  /** Python's list.index(): the first position holding x. */
  function IndexOf<T(==)>(s: seq<T>, x: T): (i: nat)
    requires x in s
    ensures i < |s| && s[i] == x
    ensures forall j :: 0 <= j < i ==> s[j] != x
  {
    if s[0] == x then 0 else 1 + IndexOf(s[1..], x)
  }

  /** The release years of a hit's tracks, in order. */
  function TrackYears(tracks: seq<Track>): (ys: seq<int>)
    ensures |ys| == |tracks|
    ensures forall a :: 0 <= a < |tracks| ==> ys[a] == tracks[a].year
  {
    seq(|tracks|, a requires 0 <= a < |tracks| => tracks[a].year)
  }

  /** The list `years`: one list of release years per hit, in order. */
  function YearLists(data: seq<Hit>): (years: seq<seq<int>>)
    ensures |years| == |data|
    ensures forall h :: 0 <= h < |data| ==> years[h] == TrackYears(data[h].tracks)
  {
    seq(|data|, h requires 0 <= h < |data| => TrackYears(data[h].tracks))
  }

  /** The nested loops that build `years`: the outer one appends a list per hit,
      the inner one appends the last field of each of its tracks. */
  method BuildYears(data: seq<Hit>) returns (years: seq<seq<int>>)
    ensures |years| == |data|
    ensures forall h :: 0 <= h < |data| ==> |years[h]| == |data[h].tracks|
    ensures forall h, a :: 0 <= h < |data| && 0 <= a < |data[h].tracks| ==>
      years[h][a] == data[h].tracks[a].year
    ensures years == YearLists(data)
  {
    years := [];
    for hit := 0 to |data|
      invariant |years| == hit
      invariant forall h :: 0 <= h < hit ==> years[h] == TrackYears(data[h].tracks)
    {
      var thisHit := data[hit].tracks;
      // a fresh, empty year list for this hit
      years := years + [[]];
      for alb := 0 to |thisHit|
        invariant |years| == hit + 1
        invariant forall h :: 0 <= h < hit ==> years[h] == TrackYears(data[h].tracks)
        invariant years[hit] == TrackYears(thisHit[..alb])
      {
        years := years[hit := years[hit] + [thisHit[alb].year]];
      }
      assert thisHit[..|thisHit|] == thisHit;
    }
  }

  /** g is the first hit whose year list is at most every other hit's list. */
  ghost predicate FirstLeastHit(years: seq<seq<int>>, g: nat) {
    && g < |years|
    && (forall h :: 0 <= h < |years| ==> LexAtMost(years[g], years[h]))
    && (forall h :: 0 <= h < g ==> LexLess(years[g], years[h]))
  }

  /** a is the first position of the least year in ys. */
  ghost predicate FirstEarliestTrack(ys: seq<int>, a: nat) {
    && a < |ys|
    && (forall i :: 0 <= i < |ys| ==> ys[a] <= ys[i])
    && (forall i :: 0 <= i < a ==> ys[a] < ys[i])
  }

  /** The hit chosen is the first whose year list is least in list order, and
      within it the track chosen is the first with the least year; where the
      source's min() would fail on an empty list, the result is an error. */
  function Select(years: seq<seq<int>>): (r: Result<Choice>)
    ensures r == Err(NoHits) <==> years == []
    ensures r == Err(EmptyHit) <==> years != [] && exists h :: 0 <= h < |years| && years[h] == []
    ensures r.Ok? <==> years != [] && forall h :: 0 <= h < |years| ==> years[h] != []
    ensures r.Ok? ==> FirstLeastHit(years, r.value.hit)
    ensures r.Ok? ==> FirstEarliestTrack(years[r.value.hit], r.value.track)
  {
    if years == [] then Err(NoHits)
    else
      var least := LexMin(years);
      var g := IndexOf(years, least);
      forall h | 0 <= h < g
        ensures LexLess(years[g], years[h])
      {
        assert years[h] in years;
      }
      if years[g] == [] then
        Err(EmptyHit)
      else
        forall h | 0 <= h < |years|
          ensures years[h] != []
        {
          assert years[h] in years;
        }
        Ok(Choice(g, IndexOf(years[g], MinYear(years[g]))))
  }

  /** The two predicates above pick at most one choice. */
  lemma ChoiceUnique(years: seq<seq<int>>, c: Choice, d: Choice)
    requires FirstLeastHit(years, c.hit) && FirstEarliestTrack(years[c.hit], c.track)
    requires FirstLeastHit(years, d.hit) && FirstEarliestTrack(years[d.hit], d.track)
    ensures c == d
  {
    // Each hit is at most the other, and a hit strictly below an earlier one
    // cannot also be at most it.
    assert c.hit == d.hit;
    var ys := years[c.hit];
    assert ys[c.track] <= ys[d.track] && ys[d.track] <= ys[c.track];
  }

  /** Groups [[2001, 1990], [2015]]: the first group is least in list order and
      its 1990 release is chosen. */
  lemma FirstGroupExample(years: seq<seq<int>>)
    requires years == [[2001, 1990], [2015]]
    ensures Select(years) == Ok(Choice(0, 1))
  {
    assert LexLess(years[0], years[1]);
    var sel := Select(years);
    ChoiceUnique(years, sel.value, Choice(0, 1));
  }

  /** Groups [[2001, 1990], [1995]]: list order compares first elements, so the
      second group wins and 1995 is chosen although 1990 is the earliest year. */
  lemma ListOrderIsNotEarliestYear(years: seq<seq<int>>)
    requires years == [[2001, 1990], [1995]]
    ensures Select(years) == Ok(Choice(1, 0))
    ensures years[1][0] == 1995 && 1990 in years[0]
  {
    assert LexLess(years[1], years[0]);
    var sel := Select(years);
    ChoiceUnique(years, sel.value, Choice(1, 0));
  }
}
