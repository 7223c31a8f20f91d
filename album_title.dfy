/** The album clean-up of `songIdent`: the regular-expression substitution that
    deletes bracketed annotations, written out as a scanner. From left to right,
    an opening `(` or `[` starts a match that ends at the first `)` or `]` after
    it, the two kinds mixing freely; the lazy wildcard between them never
    crosses a newline. A match is deleted and
    the scan resumes after it; an opener with no reachable closer is kept. */
module AlbumTitle {
  import opened Config

  predicate IsOpener(c: char) { c == '(' || c == '[' }

  predicate IsCloser(c: char) { c == ')' || c == ']' }

  /** No newline in s[lo..hi]. */
  predicate OneLine(s: string, lo: nat, hi: nat)
    requires lo <= hi <= |s|
  {
    forall m :: lo <= m < hi ==> s[m] != '\n'
  }

  /** s[i..j+1] is text the pattern can match: an opener, a closer, and no
      newline between them. */
  predicate Span(s: string, i: int, j: int) {
    0 <= i < j < |s| && IsOpener(s[i]) && IsCloser(s[j]) && OneLine(s, i + 1, j)
  }

  /** The pattern matches nowhere in s. */
  ghost predicate NoSpan(s: string) {
    forall i, j :: !Span(s, i, j)
  }

  /** Every closer in u has a newline before it. */
  ghost predicate ClosersAfterNewline(u: string) {
    forall j :: 0 <= j < |u| && IsCloser(u[j]) ==> !OneLine(u, 0, j)
  }

  /** The lazy part of the match: from position k, the first closer reached
      before any newline. */
  function Closer(s: string, k: nat): (r: Option<nat>)
    requires k <= |s|
    ensures r.Some? ==> k <= r.value < |s| && IsCloser(s[r.value]) && OneLine(s, k, r.value)
    ensures r.Some? ==> forall m :: k <= m < r.value ==> !IsCloser(s[m])
    ensures r.None? <==> forall j :: k <= j < |s| && IsCloser(s[j]) ==> !OneLine(s, k, j)
    decreases |s| - k
  {
    if k == |s| || s[k] == '\n' then None
    else if IsCloser(s[k]) then Some(k)
    else Closer(s, k + 1)
  }

  /** The album title with every match of the pattern removed. */
  function StripAnnotations(s: string): (r: string)
    ensures |r| <= |s|
    decreases |s|
  {
    if s == [] then []
    else if IsOpener(s[0]) then
      match Closer(s, 1)
      case Some(j) => StripAnnotations(s[j + 1..])
      case None => [s[0]] + StripAnnotations(s[1..])
    else [s[0]] + StripAnnotations(s[1..])
  }

  /** r can be obtained from s by deleting characters. */
  predicate IsSubsequence(r: string, s: string)
    decreases |s|
  {
    if r == [] then true
    else if s == [] then false
    else (r[0] == s[0] && IsSubsequence(r[1..], s[1..])) || IsSubsequence(r, s[1..])
  }

  lemma {:induction false} SubsequenceOfSuffix(r: string, s: string, k: nat)
    requires k <= |s| && IsSubsequence(r, s[k..])
    ensures IsSubsequence(r, s)
    decreases k
  {
    if k > 0 && r != [] {
      assert s[k - 1..][1..] == s[k..];
      SubsequenceOfSuffix(r, s, k - 1);
    }
  }

  lemma {:induction false} SubsequenceSameLength(r: string, s: string)
    requires IsSubsequence(r, s) && |r| == |s|
    ensures r == s
    decreases |s|
  {
    if r != [] {
      if r[0] == s[0] && IsSubsequence(r[1..], s[1..]) {
        SubsequenceSameLength(r[1..], s[1..]);
        assert r == [r[0]] + r[1..] && s == [s[0]] + s[1..];
      } else {
        SubsequenceLength(r, s[1..]);
      }
    }
  }

  lemma {:induction false} SubsequenceLength(r: string, s: string)
    requires IsSubsequence(r, s)
    ensures |r| <= |s|
    decreases |s|
  {
    if r != [] {
      if r[0] == s[0] && IsSubsequence(r[1..], s[1..]) {
        SubsequenceLength(r[1..], s[1..]);
      } else {
        SubsequenceLength(r, s[1..]);
      }
    }
  }

  /** The clean-up only deletes: what remains is in order and unaltered. */
  lemma {:induction false} StripIsSubsequence(s: string)
    ensures IsSubsequence(StripAnnotations(s), s)
    decreases |s|
  {
    if s != [] {
      if IsOpener(s[0]) && Closer(s, 1).Some? {
        var j := Closer(s, 1).value;
        StripIsSubsequence(s[j + 1..]);
        SubsequenceOfSuffix(StripAnnotations(s), s, j + 1);
      } else {
        StripIsSubsequence(s[1..]);
        assert StripAnnotations(s) == [s[0]] + StripAnnotations(s[1..]);
      }
    }
  }

  /** A match holds no newline. */
  lemma SpanHasNoNewline(s: string, j: nat)
    requires Span(s, 0, j)
    ensures '\n' !in s[..j + 1]
  {
    var span := s[..j + 1];
    assert forall m :: 0 <= m < |span| ==> span[m] != '\n';
  }

  /** A match never spans a newline, so every newline survives. */
  lemma {:induction false} StripKeepsNewlines(s: string)
    ensures multiset(StripAnnotations(s))['\n'] == multiset(s)['\n']
    decreases |s|
  {
    if s != [] {
      if IsOpener(s[0]) && Closer(s, 1).Some? {
        var j := Closer(s, 1).value;
        StripKeepsNewlines(s[j + 1..]);
        assert s == s[..j + 1] + s[j + 1..];
        SpanHasNoNewline(s, j);
      } else {
        StripKeepsNewlines(s[1..]);
        assert s == [s[0]] + s[1..];
      }
    }
  }

  lemma ClosersAfterNewlineTail(u: string)
    requires u != [] && u[0] != '\n' && ClosersAfterNewline(u)
    ensures ClosersAfterNewline(u[1..])
  {
    var t := u[1..];
    forall j | 0 <= j < |t| && IsCloser(t[j])
      ensures !OneLine(t, 0, j)
    {
      assert !OneLine(u, 0, j + 1);
      var m :| 0 <= m < j + 1 && u[m] == '\n';
      assert t[m - 1] == '\n';
    }
  }

  lemma ClosersAfterNewlineCons(c: char, t: string)
    requires !IsCloser(c) && ClosersAfterNewline(t)
    ensures ClosersAfterNewline([c] + t)
  {
    var u := [c] + t;
    forall j | 0 <= j < |u| && IsCloser(u[j])
      ensures !OneLine(u, 0, j)
    {
      assert !OneLine(t, 0, j - 1);
      var m :| 0 <= m < j - 1 && t[m] == '\n';
      assert u[m + 1] == '\n';
    }
  }

  /** Text in which no closer precedes the first newline keeps that property. */
  lemma {:induction false} StripKeepsClosersAfterNewline(u: string)
    requires ClosersAfterNewline(u)
    ensures ClosersAfterNewline(StripAnnotations(u))
    decreases |u|
  {
    if u == [] {
    } else if u[0] == '\n' {
      var r := StripAnnotations(u);
      assert r == [u[0]] + StripAnnotations(u[1..]);
      forall j | 0 <= j < |r| && IsCloser(r[j])
        ensures !OneLine(r, 0, j)
      {
        assert r[0] == '\n';
      }
    } else {
      assert !IsCloser(u[0]) by {
        assert OneLine(u, 0, 0);
      }
      forall j | 1 <= j < |u| && IsCloser(u[j])
        ensures !OneLine(u, 1, j)
      {
        assert !OneLine(u, 0, j);
        var m :| 0 <= m < j && u[m] == '\n';
        assert m != 0;
      }
      assert Closer(u, 1).None?;
      ClosersAfterNewlineTail(u);
      StripKeepsClosersAfterNewline(u[1..]);
      ClosersAfterNewlineCons(u[0], StripAnnotations(u[1..]));
    }
  }

  lemma NoSpanCons(c: char, t: string)
    requires NoSpan(t)
    requires IsOpener(c) ==> ClosersAfterNewline(t)
    ensures NoSpan([c] + t)
  {
    var u := [c] + t;
    forall i, j | 0 <= i < j < |u| && IsOpener(u[i]) && IsCloser(u[j])
      ensures !OneLine(u, i + 1, j)
    {
      if i == 0 {
        assert !OneLine(t, 0, j - 1);
        var m :| 0 <= m < j - 1 && t[m] == '\n';
        assert u[m + 1] == '\n';
      } else {
        assert !Span(t, i - 1, j - 1);
        var m :| i <= m < j - 1 && t[m] == '\n';
        assert u[m + 1] == '\n';
      }
    }
  }

  lemma NoSpanTail(s: string)
    requires s != [] && NoSpan(s)
    ensures NoSpan(s[1..])
  {
    var t := s[1..];
    forall i, j | 0 <= i < j < |t| && IsOpener(t[i]) && IsCloser(t[j])
      ensures !OneLine(t, i + 1, j)
    {
      assert !Span(s, i + 1, j + 1);
      var m :| i + 2 <= m < j + 1 && s[m] == '\n';
      assert t[m - 1] == '\n';
    }
  }

  /** After the clean-up the pattern matches nowhere: removing one span never
      creates another. */
  lemma {:induction false} StripLeavesNoSpan(s: string)
    ensures NoSpan(StripAnnotations(s))
    decreases |s|
  {
    if s == [] {
      assert StripAnnotations(s) == [];
    } else if IsOpener(s[0]) && Closer(s, 1).Some? {
      var j := Closer(s, 1).value;
      StripLeavesNoSpan(s[j + 1..]);
    } else {
      var t := s[1..];
      StripLeavesNoSpan(t);
      if IsOpener(s[0]) {
        assert ClosersAfterNewline(t) by {
          forall j | 0 <= j < |t| && IsCloser(t[j])
            ensures !OneLine(t, 0, j)
          {
            assert !OneLine(s, 1, j + 1);
            var m :| 1 <= m < j + 1 && s[m] == '\n';
            assert t[m - 1] == '\n';
          }
        }
        StripKeepsClosersAfterNewline(t);
      }
      NoSpanCons(s[0], StripAnnotations(t));
    }
  }

  /** Text the pattern does not match is returned unchanged. */
  lemma {:induction false} StripWithoutSpan(s: string)
    requires NoSpan(s)
    ensures StripAnnotations(s) == s
    decreases |s|
  {
    if s != [] {
      if IsOpener(s[0]) {
        assert forall j :: 1 <= j < |s| && IsCloser(s[j]) ==> !OneLine(s, 1, j) by {
          forall j | 1 <= j < |s| && IsCloser(s[j])
            ensures !OneLine(s, 1, j)
          {
            assert !Span(s, 0, j);
          }
        }
      }
      NoSpanTail(s);
      StripWithoutSpan(s[1..]);
      assert s == [s[0]] + s[1..];
    }
  }

  /** The clean-up changes a title exactly when the pattern matches in it, and
      then it makes it strictly shorter; applying it twice equals applying it once. */
  lemma StripChangesExactlyOnMatch(s: string)
    ensures StripAnnotations(s) == s <==> NoSpan(s)
    ensures |StripAnnotations(s)| < |s| <==> !NoSpan(s)
    ensures StripAnnotations(StripAnnotations(s)) == StripAnnotations(s)
  {
    StripLeavesNoSpan(s);
    StripWithoutSpan(StripAnnotations(s));
    if NoSpan(s) {
      StripWithoutSpan(s);
    }
    if |StripAnnotations(s)| == |s| {
      StripIsSubsequence(s);
      SubsequenceSameLength(StripAnnotations(s), s);
    }
  }

  /** The lazy scan from k stops at j when j is a closer on the same line as k
      and nothing between them is a closer. */
  lemma {:induction false} CloserAt(s: string, k: nat, j: nat)
    requires k <= j < |s| && IsCloser(s[j]) && OneLine(s, k, j)
    requires forall m :: k <= m < j ==> !IsCloser(s[m])
    ensures Closer(s, k) == Some(j)
    decreases j - k
  {
    if k < j {
      CloserAt(s, k + 1, j);
    }
  }

  /** Dropping the first character shifts every span one place left. */
  lemma SpanShift(s: string, a: nat, b: int)
    requires s != []
    ensures Span(s[1..], a, b) <==> Span(s, a + 1, b + 1)
  {
    if a < b < |s| - 1 {
      var t := s[1..];
      assert t[a] == s[a + 1] && t[b] == s[b + 1];
      assert OneLine(t, a + 1, b) <==> OneLine(s, a + 2, b + 1) by {
        assert forall m :: a + 1 <= m < b ==> t[m] == s[m + 1];
      }
    }
  }

  /** A match at the very start is deleted whole. */
  lemma StripSpanAtStart(s: string, j: nat)
    requires Span(s, 0, j)
    requires forall j' :: Span(s, 0, j') ==> j <= j'
    ensures StripAnnotations(s) == StripAnnotations(s[j + 1..])
  {
    forall m | 1 <= m < j
      ensures !IsCloser(s[m])
    {
      assert OneLine(s, 1, m);
      assert !Span(s, 0, m);
    }
    CloserAt(s, 1, j);
  }

  /** A first character that starts no match is kept. */
  lemma StripKeepsHead(s: string)
    requires s != []
    requires forall j' :: !Span(s, 0, j')
    ensures StripAnnotations(s) == [s[0]] + StripAnnotations(s[1..])
  {
    if IsOpener(s[0]) {
      forall j' | 1 <= j' < |s| && IsCloser(s[j'])
        ensures !OneLine(s, 1, j')
      {
        assert !Span(s, 0, j');
      }
    }
  }

  /** A leftmost match that does not start the text is still the leftmost
      match, with its nearest closer, once the first character is dropped. */
  lemma FirstSpanTail(s: string, i: nat, j: nat, i1: nat)
    requires i == i1 + 1
    requires Span(s, i, j)
    requires forall i', j' :: Span(s, i', j') ==> i <= i'
    requires forall j' :: Span(s, i, j') ==> j <= j'
    ensures forall j' :: !Span(s, 0, j')
    ensures Span(s[1..], i1, j - 1)
    ensures forall i', j' :: Span(s[1..], i', j') ==> i1 <= i'
    ensures forall j' :: Span(s[1..], i1, j') ==> j - 1 <= j'
  {
    var t := s[1..];
    SpanShift(s, i1, j - 1);
    forall i', j' | Span(t, i', j')
      ensures i1 <= i'
    {
      SpanShift(s, i', j');
    }
    forall j' | Span(t, i1, j')
      ensures j - 1 <= j'
    {
      SpanShift(s, i1, j');
    }
  }

  /** Putting the first character back in front of a prefix of the rest. */
  lemma ConsPrefix(s: string, i: nat, x: string)
    requires 0 < i <= |s|
    ensures [s[0]] + (s[1..][..i - 1] + x) == s[..i] + x
  {
    assert s[..i] == [s[0]] + s[1..][..i - 1];
  }

  /** The substitution at work: for the leftmost match, taken with its lazy
      (nearest) closer, the text before it is kept, the match is deleted, and
      the clean-up carries on after it. With StripWithoutSpan this fixes the
      result on every title. */
  lemma {:induction false} StripFirstSpan(s: string, i: nat, j: nat)
    requires Span(s, i, j)
    requires forall i', j' :: Span(s, i', j') ==> i <= i'
    requires forall j' :: Span(s, i, j') ==> j <= j'
    ensures StripAnnotations(s) == s[..i] + StripAnnotations(s[j + 1..])
    decreases i
  {
    if i == 0 {
      StripSpanAtStart(s, j);
      assert s[..0] == [];
    } else {
      var t, i1 := s[1..], i - 1;
      FirstSpanTail(s, i, j, i1);
      StripKeepsHead(s);
      StripFirstSpan(t, i1, j - 1);
      assert t[j..] == s[j + 1..];
      ConsPrefix(s, i, StripAnnotations(s[j + 1..]));
    }
  }

  /** Text before the first opener is always kept. */
  lemma {:induction false} StripKeepsPlainPrefix(p: string, rest: string)
    requires forall i :: 0 <= i < |p| ==> !IsOpener(p[i])
    ensures StripAnnotations(p + rest) == p + StripAnnotations(rest)
    decreases |p|
  {
    if p == [] {
      assert p + rest == rest;
    } else {
      var s := p + rest;
      assert s[0] == p[0] && s[1..] == p[1..] + rest;
      assert StripAnnotations(s) == [p[0]] + StripAnnotations(s[1..]);
      StripKeepsPlainPrefix(p[1..], rest);
      var t := StripAnnotations(rest);
      assert [p[0]] + (p[1..] + t) == ([p[0]] + p[1..]) + t;
      assert p == [p[0]] + p[1..];
    }
  }

  /** A bracketed marker with nothing after it vanishes entirely. */
  lemma MarkerVanishes(q: string)
    requires q == "(Remastered)"
    ensures StripAnnotations(q) == []
  {
    assert IsCloser(q[11]) && OneLine(q, 1, 11);
    assert forall m :: 1 <= m < 11 ==> !IsCloser(q[m]);
    assert Closer(q, 1) == Some(11);
    assert q[12..] == [];
  }

  /** A reissue marker is removed together with its brackets; the space before
      it stays. */
  lemma RemasteredExample(title: string)
    requires title == "Abbey Road (Remastered)"
    ensures StripAnnotations(title) == "Abbey Road "
  {
    var p, q := "Abbey Road ", "(Remastered)";
    assert title == p + q;
    assert forall i :: 0 <= i < |p| ==> !IsOpener(p[i]);
    StripKeepsPlainPrefix(p, q);
    MarkerVanishes(q);
    assert p + [] == p;
  }
}
