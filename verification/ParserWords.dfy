// What the parser's scanners make of printed text: the keyword in front of a
// statement, the words of a `for`, the patterns of a `case` and the header of
// a function all come back.

module ParserWords {
  import opened Wrappers
  import opened ShellText
  import opened ParserText
  import opened Grammar
  import opened P = ParserPrinter

  // ----- text behind a word -----

  lemma {:induction false} AfterIs(w: string, t: string)
    ensures var s := After(w, t);
      && |s| == |w| + 1 + |t| && s[|w|] == ' ' && s[..|w|] == w && s[|w| + 1..] == t
      && (forall k :: 0 <= k < |w| ==> s[k] == w[k])
  {
    assert ([' '] + t)[1..] == t;
  }

  lemma {:induction false} TrimSolid(t: string)
    requires t == "" || Solid(t)
    ensures Trim(t) == t
  {
    if t != "" {
      TrimIs("", t, "");
      assert "" + t + "" == t;
    }
  }

  lemma {:induction false} TrimBlank(t: string)
    requires Solid(t)
    ensures Trim([' '] + t) == t
  {
    TrimIs([' '], t, "");
    assert [' '] + t + "" == [' '] + t;
  }

  lemma {:induction false} SolidAfter(w: string, t: string)
    requires w != "" && !Space(w[0]) && (t == "" || Solid(t))
    requires t == "" ==> !Space(w[|w| - 1])
    ensures Solid(Suffixed(w, t)) && Suffixed(w, t)[0] == w[0]
  {
    if t != "" {
      AfterIs(w, t);
      assert After(w, t)[|w| + 1..][|t| - 1] == t[|t| - 1];
    }
  }

  // ----- the first word of a statement -----

  /** A word that ends at the first blank and holds no angle bracket. */
  predicate Unbroken(w: string) {
    w != "" && forall k :: 0 <= k < |w| ==> !Space(w[k]) && !Angle(w[k])
  }

  lemma {:induction false} BlankIs(s: string, i: nat, j: nat)
    requires i <= j <= |s| && (j < |s| ==> Blank1(s[j])) && forall k :: i <= k < j ==> !Blank1(s[k])
    ensures BlankAt(s, i) == j
    decreases j - i
  {
    if i < j {
      BlankIs(s, i + 1, j);
    }
  }

  lemma {:induction false} NotClosed(s: string, w: string)
    requires Unbroken(w) && |w| <= |s| && (forall k :: 0 <= k < |w| ==> s[k] == w[k]) && (|w| < |s| ==> s[|w|] == ' ')
    ensures CloserOf(s) == Other
  {
  }

  lemma {:induction false} KeywordIsRead(w: string, t: string)
    requires Unbroken(w) && (t == "" || Solid(t))
    ensures SplitKeyword(Suffixed(w, t)) == (w, t)
  {
    var s := Suffixed(w, t);
    AfterIs(w, t);
    NotClosed(s, w);
    assert s[..|w|] == w;
    BlankIs(s, 0, |w|);
    TrimSolid(t);
  }

  // ----- keywords -----

  /** A word is a keyword exactly when it is spelled like one. */
  lemma {:induction false} KeywordSpelled(w: string, k: Keyword)
    requires k != Other
    ensures KeywordOf(w) == k <==> w == Spelling(k)
  {
    if KeywordOf(w) == k {
      assert w == Spelling(k);
    }
  }

  lemma {:induction false} KeywordUnbroken(k: Keyword)
    requires k != Other
    ensures Unbroken(Spelling(k))
  {
  }

  /** A statement that starts with a keyword. */
  lemma {:induction false} LedByKeyword(k: Keyword, t: string)
    requires k != Other && (t == "" || Solid(t))
    ensures SplitKeyword(Suffixed(Spelling(k), t)) == (Spelling(k), t)
    ensures ParserText.First(Suffixed(Spelling(k), t)) == k
    ensures Solid(Suffixed(Spelling(k), t)) && Suffixed(Spelling(k), t)[0] == Spelling(k)[0]
  {
    KeywordSpelled(Spelling(k), k);
    KeywordUnbroken(k);
    KeywordIsRead(Spelling(k), t);
    SolidAfter(Spelling(k), t);
  }

  lemma {:induction false} EndsInLetterOrBrace(k: Keyword)
    ensures k != Other ==> Spelling(k)[|Spelling(k)| - 1] != ')'
  {
  }

  /** A statement whose first word ends in a parenthesis. */
  lemma {:induction false} LedByParen(w: string, t: string)
    requires Unbroken(w) && w[|w| - 1] == ')' && (t == "" || Solid(t))
    ensures SplitKeyword(Suffixed(w, t)) == (w, t)
    ensures ParserText.First(Suffixed(w, t)).Other?
    ensures Solid(Suffixed(w, t)) && Suffixed(w, t)[0] == w[0]
  {
    KeywordIsRead(w, t);
    if KeywordOf(w) != Other {
      KeywordSpelled(w, KeywordOf(w));
      EndsInLetterOrBrace(KeywordOf(w));
    }
    SolidAfter(w, t);
  }

  // ----- no producer -----

  lemma {:induction false} NotFed(s: string)
    requires Opening(s)
    ensures SplitFeed(s).None?
  {
    CutStays(s, AllFeeds(s), FeedScan(0, None, 0, None));
  }

  /** The text behind a pipe is the same with a word in front. */
  lemma {:induction false} BehindPipe(w: string, t: string, i: nat)
    requires '|' !in w && i < |Suffixed(w, t)| && Suffixed(w, t)[i] == '|'
    ensures i > |w| && i - (|w| + 1) < |t| && t[i - (|w| + 1)] == '|' && Suffixed(w, t)[i + 1..] == t[i - |w|..]
  {
    AfterIs(w, t);
    assert t != "" ==> After(w, t)[|w| + 1..] == t;
  }

  lemma {:induction false} NoFeedAfter(w: string, t: string)
    requires '|' !in w && NoFeed(t)
    ensures NoFeed(Suffixed(w, t))
  {
    var s := Suffixed(w, t);
    forall i | 0 <= i < |s| && s[i] == '|' ensures !LeadsLoop(ParserText.First(Trim(s[i + 1..]))) {
      BehindPipe(w, t, i);
    }
  }

  lemma {:induction false} NoLoopAfter(w: string, t: string)
    requires '|' !in w && NoLoop(t)
    ensures NoLoop(Suffixed(w, t))
  {
    var s := Suffixed(w, t);
    forall i | 0 <= i < |s| && s[i] == '|' ensures !LeadsWhile(ParserText.First(Trim(s[i + 1..]))) {
      BehindPipe(w, t, i);
    }
  }

  lemma {:induction false} FeedIsNoLoop(s: string)
    requires NoFeed(s)
    ensures NoLoop(s)
  {
    forall i | 0 <= i < |s| && s[i] == '|' ensures !LeadsWhile(ParserText.First(Trim(s[i + 1..]))) {
      assert !LeadsLoop(ParserText.First(Trim(s[i + 1..])));
    }
  }

  /** A text that starts no compound command and is not taken apart feeds nothing. */
  lemma {:induction false} PlainFeedsNone(text: string)
    requires PlainText(text)
    ensures NoFeed(text)
  {
    TrimSolid(text);
  }

  // ----- a producer -----

  /** Behind a producer the first word is the producer's. */
  lemma {:induction false} FedFirst(feed: string, t: string)
    requires FeedText(feed)
    ensures ParserText.First(After(feed, t)).Other?
    ensures SplitKeyword(After(feed, t)).0 == SplitKeyword(feed).0
  {
    var s := After(feed, t);
    AfterIs(feed, t);
    FedCloser(feed, s);
    var i := BlankAt(feed, 0);
    assert forall k :: 0 <= k < i ==> s[k] == feed[k];
    BlankIs(s, 0, i);
    assert s[..i] == feed[..i];
  }

  lemma {:induction false} FedCloser(feed: string, s: string)
    requires |feed| < |s| && s[|feed|] == ' ' && (forall k :: 0 <= k < |feed| ==> s[k] == feed[k])
    requires ParserText.First(feed).Other?
    ensures CloserOf(feed) == Other && CloserOf(s) == Other
  {
    var k := CloserOf(feed);
    if k != Other {
      KeywordSpelled(Spelling(k), k);
    }
  }

  lemma {:induction false} FedSolid(feed: string, loop: string)
    requires FeedText(feed) && Solid(loop)
    ensures var s := After(feed, After(['|'], loop)); Solid(s) && s[0] == feed[0]
  {
    SolidAfter(['|'], loop);
    SolidAfter(feed, After(['|'], loop));
  }

  /** Plain characters leave the scan for the last pipe as it is. */
  lemma {:induction false} PlainScan(s: string, feeds: seq<bool>, i: nat, j: nat, cut: Option<nat>)
    requires i <= j <= |s| == |feeds| && CutOk(s, FeedScan(i, None, 0, cut))
    requires forall k :: i <= k < j ==> Passed(s[k])
    ensures FeedCut(s, feeds, FeedScan(i, None, 0, cut)) == FeedCut(s, feeds, FeedScan(j, None, 0, cut))
    decreases j - i
  {
    if i < j {
      PlainScan(s, feeds, i + 1, j, cut);
    }
  }

  /** If no pipe from here on has a loop or a group behind it, the last cut stays. */
  lemma {:induction false} CutStays(s: string, feeds: seq<bool>, f: FeedScan)
    requires |feeds| == |s| && CutOk(s, f) && forall i :: f.i <= i < |s| && s[i] == '|' ==> !feeds[i]
    ensures FeedCut(s, feeds, f) == f.cut
    decreases |s| - f.i
  {
    if f.i < |s| {
      CutStays(s, feeds, FeedStep(s, f, feeds[f.i]));
    }
  }

  /** Where the pipe and the loop are. */
  lemma {:induction false} FedAt(feed: string, loop: string)
    ensures var s, n := FedText(feed, loop), |feed| + 1;
      && |s| == n + 2 + |loop| && s[n] == '|' && s[n + 1] == ' ' && s[n + 1..] == [' '] + loop && s[n + 2..] == loop
      && s[..|feed|] == feed && s[|feed|] == ' ' && (forall k :: 0 <= k < |feed| ==> s[k] == feed[k])
  {
    var t := After(['|'], loop);
    var s, n := After(feed, t), |feed| + 1;
    AfterIs(feed, t);
    AfterIs(['|'], loop);
    assert s[n] == s[n..][0] && s[n + 1] == s[n..][1];
    assert s[n + 1..] == t[1..] && s[n + 2..] == t[2..];
  }

  lemma {:induction false} FedFeeds(feed: string, loop: string)
    requires FeedText(feed) && Solid(loop) && LeadsLoop(ParserText.First(loop))
    ensures var s, n := FedText(feed, loop), |feed| + 1; n < |s| && Feeds(s, n)
  {
    var s, t := FedText(feed, loop), After(['|'], loop);
    FedAt(feed, loop);
    TrimBlank(loop);
    FedFirst(feed, t);
    FedSolid(feed, loop);
    TrimSolid(s);
  }

  /** No pipe of the loop itself is a cut. */
  lemma {:induction false} FedNoMore(feed: string, loop: string)
    requires NoFeed(loop)
    ensures var s, n := FedText(feed, loop), |feed| + 1; forall i :: n + 1 <= i < |s| && s[i] == '|' ==> !Feeds(s, i)
  {
    var s, n := FedText(feed, loop), |feed| + 1;
    FedAt(feed, loop);
    forall i | n + 1 <= i < |s| && s[i] == '|' ensures !Feeds(s, i) {
      var j := i - (n + 2);
      assert s[i] == s[n + 2..][j] && s[i + 1..] == loop[j + 1..];
    }
  }

  /** The pipe behind the producer is the last one that feeds. */
  predicate LastFeed(feed: string, loop: string) {
    var s, n := FedText(feed, loop), |feed| + 1;
    n < |s| && Feeds(s, n) && forall i :: n + 1 <= i < |s| && s[i] == '|' ==> !Feeds(s, i)
  }

  lemma {:induction false} FedCut(feed: string, loop: string, feeds: seq<bool>)
    requires LastFeed(feed, loop) && feeds == AllFeeds(FedText(feed, loop))
    ensures |feed| + 1 < |feeds| == |FedText(feed, loop)| && feeds[|feed| + 1]
    ensures forall i :: |feed| + 2 <= i < |feeds| && FedText(feed, loop)[i] == '|' ==> !feeds[i]
  {
  }

  /** `producer | loop` is taken apart into the producer and the loop. */
  lemma {:induction false} FeedIsSplit(feed: string, loop: string)
    requires Solid(feed) && (forall k :: 0 <= k < |feed| ==> Passed(feed[k])) && Solid(loop) && LastFeed(feed, loop)
    ensures SplitFeed(FedText(feed, loop)) == Some((feed, loop))
  {
    var s, feeds := FedText(feed, loop), AllFeeds(FedText(feed, loop));
    FedAt(feed, loop);
    FedCut(feed, loop, feeds);
    CutIsAt(s, feeds, |feed| + 1);
    CutText(feed, loop);
  }

  lemma {:induction false} CutText(feed: string, loop: string)
    requires Solid(feed) && Solid(loop)
    ensures var s, n := FedText(feed, loop), |feed| + 1; n < |s| && Trim(s[..n]) == feed && Trim(s[n + 1..]) == loop
  {
    FedAt(feed, loop);
    CutAround(feed, FedText(feed, loop), |feed| + 1);
    TrimBlank(loop);
  }

  lemma {:induction false} FedIsSplit(feed: string, loop: string)
    requires FeedText(feed) && Solid(loop) && NoFeed(loop) && LeadsLoop(ParserText.First(loop))
    ensures SplitFeed(FedText(feed, loop)) == Some((feed, loop))
  {
    FedFeeds(feed, loop);
    FedNoMore(feed, loop);
    FeedIsSplit(feed, loop);
  }

  /**
   A keyword in front of `producer | command`: the text is taken apart exactly
   when the command is a `while` or an `until`, and then the keyword becomes
   part of the producer. `if p | while r` is read as `if p` feeding `while r`,
   and `if p | { q` as an `if`.
   */
  lemma {:induction false} KeywordJoinsProducer(k: Keyword, feed: string, loop: string)
    requires Opens(k) && FeedText(feed) && Solid(loop) && NoLoop(loop)
    ensures SplitFeed(After(Spelling(k), FedText(feed, loop))) ==
            if LeadsWhile(ParserText.First(loop)) then Some((After(Spelling(k), feed), loop)) else None
  {
    Reassociated(Spelling(k), feed, After(['|'], loop));
    if LeadsWhile(ParserText.First(loop)) {
      PassedAfter(k, feed);
      KeywordLeads(k, feed, loop);
      LoopIsCut(After(Spelling(k), feed), loop);
    } else {
      FedNoLoop(feed, loop);
      FedSolid(feed, loop);
      CommandOpens(k, FedText(feed, loop));
      NotFed(After(Spelling(k), FedText(feed, loop)));
    }
  }

  /** The last loop that a compound command feeds is cut off. */
  lemma {:induction false} LoopIsCut(feed: string, loop: string)
    requires Solid(feed) && (forall k :: 0 <= k < |feed| ==> Passed(feed[k])) && Solid(loop) && NoLoop(loop)
    requires StartsCompound(FedText(feed, loop)) && LeadsWhile(ParserText.First(loop))
    ensures SplitFeed(FedText(feed, loop)) == Some((feed, loop))
  {
    LoopIsLast(feed, loop);
    FeedIsSplit(feed, loop);
  }

  lemma {:induction false} LoopIsLast(feed: string, loop: string)
    requires Solid(loop) && NoLoop(loop) && StartsCompound(FedText(feed, loop)) && LeadsWhile(ParserText.First(loop))
    ensures LastFeed(feed, loop)
  {
    LoopFeeds(feed, loop);
    forall i | |feed| + 2 <= i < |FedText(feed, loop)| && FedText(feed, loop)[i] == '|'
      ensures !Feeds(FedText(feed, loop), i)
    {
      NoLoopBehind(feed, loop, i);
      OnlyLoopsFed(FedText(feed, loop), i);
    }
  }

  lemma {:induction false} KeywordLeads(k: Keyword, feed: string, loop: string)
    requires Opens(k) && FeedText(feed) && Solid(loop)
    ensures StartsCompound(FedText(After(Spelling(k), feed), loop))
  {
    Reassociated(Spelling(k), feed, After(['|'], loop));
    FedSolid(feed, loop);
    LedByKeyword(k, FedText(feed, loop));
    TrimSolid(FedText(After(Spelling(k), feed), loop));
  }

  /** In a compound command only the loops are fed. */
  lemma {:induction false} OnlyLoopsFed(s: string, i: nat)
    requires StartsCompound(s) && i < |s| && !LeadsWhile(ParserText.First(Trim(s[i + 1..])))
    ensures !Feeds(s, i)
  {
  }

  lemma {:induction false} NoLoopBehind(feed: string, loop: string, i: nat)
    requires NoLoop(loop) && |feed| + 2 <= i < |FedText(feed, loop)| && FedText(feed, loop)[i] == '|'
    ensures !LeadsWhile(ParserText.First(Trim(FedText(feed, loop)[i + 1..])))
  {
    LoopBehind(feed, loop, i);
    NotLeading(loop, i - (|feed| + 3));
  }

  lemma {:induction false} LoopBehind(feed: string, loop: string, i: nat)
    requires |feed| + 2 <= i < |FedText(feed, loop)| && FedText(feed, loop)[i] == '|'
    ensures var j := i - (|feed| + 3);
            0 <= j < |loop| && loop[j] == '|' && FedText(feed, loop)[i + 1..] == loop[j + 1..]
  {
    var s := FedText(feed, loop);
    FedAt(feed, loop);
    assert s[i] == s[|feed| + 2..][i - (|feed| + 2)];
    assert s[|feed| + 3..] == loop;
  }

  /** The producer of anything but a loop. */
  lemma {:induction false} FedNoLoop(feed: string, loop: string)
    requires FeedText(feed) && Solid(loop) && NoLoop(loop) && !LeadsWhile(ParserText.First(loop))
    ensures NoLoop(FedText(feed, loop))
  {
    var s := FedText(feed, loop);
    forall i | 0 <= i < |s| && s[i] == '|' ensures !LeadsWhile(ParserText.First(Trim(s[i + 1..]))) {
      FedPipe(feed, loop, i);
      if i > |feed| + 1 {
        NoLoopBehind(feed, loop, i);
      } else {
        FirstPipe(feed, loop);
      }
    }
  }

  lemma {:induction false} FirstPipe(feed: string, loop: string)
    requires Solid(loop)
    ensures |feed| + 2 <= |FedText(feed, loop)| && Trim(FedText(feed, loop)[|feed| + 2..]) == loop
  {
    FedAt(feed, loop);
    TrimBlank(loop);
  }

  lemma {:induction false} NotLeading(s: string, i: nat)
    requires NoLoop(s) && i < |s| && s[i] == '|'
    ensures !LeadsWhile(ParserText.First(Trim(s[i + 1..])))
  {
  }

  lemma {:induction false} FedPipe(feed: string, loop: string, i: nat)
    requires FeedText(feed) && i < |FedText(feed, loop)| && FedText(feed, loop)[i] == '|'
    ensures i > |feed|
  {
    FedAt(feed, loop);
    assert i < |feed| ==> Passed(feed[i]);
  }

  lemma {:induction false} PassedAfter(k: Keyword, feed: string)
    requires Opens(k) && Solid(feed) && forall i :: 0 <= i < |feed| ==> Passed(feed[i])
    ensures var joined := After(Spelling(k), feed); Solid(joined) && forall i :: 0 <= i < |joined| ==> Passed(joined[i])
  {
    var w, joined := Spelling(k), After(Spelling(k), feed);
    KeywordPasses(k);
    AfterIs(w, feed);
    SolidAfter(w, feed);
    forall i | 0 <= i < |joined| ensures Passed(joined[i]) {
      if i > |w| {
        assert joined[i] == joined[|w| + 1..][i - (|w| + 1)];
      }
    }
  }

  lemma {:induction false} KeywordPasses(k: Keyword)
    requires Opens(k)
    ensures var w := Spelling(k); w != "" && !Space(w[0]) && forall i :: 0 <= i < |w| ==> Passed(w[i])
  {
  }

  lemma {:induction false} Reassociated(a: string, b: string, c: string)
    ensures After(After(a, b), c) == After(a, After(b, c))
  {
    assert a + ([' '] + b) + ([' '] + c) == a + ([' '] + (b + ([' '] + c)));
  }

  lemma {:induction false} LoopFeeds(feed: string, loop: string)
    requires Solid(loop) && (ParserText.First(loop).While? || ParserText.First(loop).Until?)
    ensures var s, n := FedText(feed, loop), |feed| + 1; n < |s| && Feeds(s, n)
  {
    FedAt(feed, loop);
    TrimBlank(loop);
  }

  lemma {:induction false} CutIsAt(s: string, feeds: seq<bool>, n: nat)
    requires n + 1 < |s| == |feeds| && s[n] == '|' && s[n + 1] == ' ' && feeds[n]
    requires forall k :: 0 <= k < n ==> Passed(s[k])
    requires forall i :: n + 1 <= i < |s| && s[i] == '|' ==> !feeds[i]
    ensures FeedCut(s, feeds, FeedScan(0, None, 0, None)) == Some(n)
  {
    PlainScan(s, feeds, 0, n, None);
    CutFromHere(s, feeds, n, None);
  }

  lemma {:induction false} CutFromHere(s: string, feeds: seq<bool>, n: nat, cut: Option<nat>)
    requires n + 1 < |s| == |feeds| && s[n] == '|' && s[n + 1] == ' ' && feeds[n] && CutOk(s, FeedScan(n, None, 0, cut))
    requires forall i :: n + 1 <= i < |s| && s[i] == '|' ==> !feeds[i]
    ensures FeedCut(s, feeds, FeedScan(n, None, 0, cut)) == Some(n)
  {
    CutStays(s, feeds, FeedScan(n + 1, None, 0, Some(n)));
  }

  lemma {:induction false} CutAround(feed: string, s: string, n: nat)
    requires Solid(feed) && n == |feed| + 1 <= |s| && s[..|feed|] == feed && s[|feed|] == ' '
    ensures Trim(s[..n]) == feed
  {
    TrimIs("", feed, [' ']);
    assert s[..n] == "" + feed + [' '];
  }

  // ----- no header of a function -----

  lemma {:induction false} NameIs(s: string, i: nat, j: nat)
    requires i <= j <= |s| && (j < |s| ==> !NamePart(s[j])) && forall k :: i <= k < j ==> NamePart(s[k])
    ensures NameEnd(s, i) == j
    decreases j - i
  {
    if i < j {
      NameIs(s, i + 1, j);
    }
  }

  lemma {:induction false} NoLongHeader(s: string)
    requires |s| > 1 ==> s[0] != 'f' || s[1] != 'u'
    ensures LongHeader(s).None?
  {
    assert |s| > |FUNCTION| ==> s[0] == s[..|FUNCTION|][0] && s[1] == s[..|FUNCTION|][1];
  }

  lemma {:induction false} NoShortHeader(s: string, n: nat)
    requires n + 1 < |s| && s[n] == ' ' && !Space(s[n + 1]) && s[n + 1] != '('
    requires forall k :: 0 <= k < n ==> NamePart(s[k])
    ensures Parens(s, NameEnd(s, 0)).None?
  {
    NameIs(s, 0, n);
    assert SpaceEnd(s, n + 1) == n + 1;
  }

  lemma {:induction false} NoHeader(k: Keyword, t: string)
    requires Opens(k) && t != "" && !Space(t[0]) && t[0] != '('
    ensures FuncHeader(After(Spelling(k), t)).None?
  {
    var w, s := Spelling(k), After(Spelling(k), t);
    AfterIs(w, t);
    assert s[0] == w[0] && (|w| > 1 ==> s[1] == w[1]);
    NoLongHeader(s);
    assert s[|w| + 1] == s[|w| + 1..][0];
    if !k.OpenBrace? {
      KeywordIsName(k);
      NoShortHeader(s, |w|);
    }
  }

  lemma {:induction false} KeywordIsName(k: Keyword)
    requires Opens(k) && !k.OpenBrace?
    ensures forall i :: 0 <= i < |Spelling(k)| ==> NamePart(Spelling(k)[i])
  {
  }

  /** A keyword that starts a command, in front of a statement. */
  lemma {:induction false} CommandOpens(k: Keyword, t: string)
    requires Opens(k) && Tame(t)
    ensures var s := After(Spelling(k), t); Opening(s) && FuncHeader(s).None? && (NoFeed(t) ==> NoFeed(s))
  {
    var w := Spelling(k);
    LedByKeyword(k, t);
    NoBar(k);
    NoLoopAfter(w, t);
    if NoFeed(t) {
      NoFeedAfter(w, t);
    }
    TrimSolid(After(w, t));
    NoHeader(k, t);
  }

  lemma {:induction false} NoBar(k: Keyword)
    ensures '|' !in Spelling(k)
  {
  }

  // ----- the header of a function -----

  const PARENS := ['(', ')']

  /** `name()`, a blank and a solid rest. */
  predicate NamesFunc(s: string, n: nat) {
    && n + 3 < |s| && s[n] == '(' && s[n + 1] == ')' && s[n + 2] == ' ' && !Space(s[n + 3])
    && n > 0 && NameStart(s[0]) && forall k :: 0 <= k < n ==> NamePart(s[k])
  }

  lemma {:induction false} NotFunctionWord(s: string, n: nat)
    requires NamesFunc(s, n)
    ensures LongHeader(s).None?
  {
    assert n < |FUNCTION| < |s| ==> s[..|FUNCTION|][n] == '(';
    assert |FUNCTION| < n ==> NamePart(s[|FUNCTION|]);
  }

  lemma {:induction false} ShortHeader(s: string, n: nat)
    requires NamesFunc(s, n)
    ensures NameEnd(s, 0) == n && Parens(s, n) == Some(n + 2) && SpaceEnd(s, n + 2) == n + 3
  {
    NameIs(s, 0, n);
    assert SpaceEnd(s, n) == n && SpaceEnd(s, n + 1) == n + 1;
    assert SpaceEnd(s, n + 3) == n + 3;
  }

  lemma {:induction false} HeaderIs(name: string, t: string)
    requires FuncName(name) && t != "" && !Space(t[0])
    ensures FuncHeader(After(name + PARENS, t)) == Some((name, t))
  {
    var w, n := name + PARENS, |name|;
    var s := After(w, t);
    AfterIs(w, t);
    assert w[n] == '(' && w[n + 1] == ')';
    assert s[n + 3] == s[n + 3..][0];
    forall i | 0 <= i < n ensures s[i] == name[i] {
      assert s[i] == w[i];
    }
    NotFunctionWord(s, n);
    ShortHeader(s, n);
    assert s[..n] == name;
  }

  lemma {:induction false} FuncNameUnbroken(name: string)
    requires FuncName(name)
    ensures Unbroken(name + PARENS) && '|' !in name + PARENS
  {
    var w := name + PARENS;
    forall k | 0 <= k < |w| ensures !Space(w[k]) && !Angle(w[k]) && w[k] != '|' {
      if k < |name| {
        assert NamePart(name[k]);
      }
    }
  }

  // ----- raw words -----

  lemma {:induction false} RawEndIs(s: string, i: nat, j: nat, cs: CaseScope)
    requires i <= j <= |s| && (j < |s| ==> s[j] == ' ')
    requires forall k :: i <= k < j ==> BareChar(s[k])
    ensures RawEnd(s, i, None, 0, cs) == j
    decreases j - i
  {
    if i < j {
      RawEndIs(s, i + 1, j, CaseStep(cs, s, i).0);
    } else if j < |s| {
      var cs' := CaseStep(cs, s, i).0;
    }
  }

  lemma {:induction false} RawWordIs(w: string, t: string)
    requires Bare(w) && (t == "" || Solid(t))
    ensures RawWord(Suffixed(w, t)) == (w, t)
  {
    var s := Suffixed(w, t);
    AfterIs(w, t);
    forall k | 0 <= k < |w| ensures BareChar(s[k]) {
      assert s[k] == w[k];
    }
    RawEndIs(s, 0, |w|, []);
    assert s[..|w|] == w;
    TrimSolid(t);
  }

  lemma {:induction false} GapSolid(words: seq<string>)
    requires GoodWords(words)
    ensures JoinGap(words) == "" || Solid(JoinGap(words))
    ensures words != [] ==> JoinGap(words) != ""
    ensures '|' !in JoinGap(words)
  {
    if words != [] {
      GapSolid(words[1..]);
      SolidAfter(words[0], JoinGap(words[1..]));
      BarFree(words[0], JoinGap(words[1..]));
    }
  }

  lemma {:induction false} BarFree(w: string, t: string)
    requires Bare(w) && '|' !in t
    ensures '|' !in Suffixed(w, t)
  {
  }

  lemma {:induction false} WordsAreRead(words: seq<string>)
    requires GoodWords(words)
    ensures RawWords(JoinGap(words)) == words
  {
    GapSolid(words);
    if words != [] {
      GapSolid(words[1..]);
      RawWordIs(words[0], JoinGap(words[1..]));
      WordsAreRead(words[1..]);
    }
  }

  // ----- patterns -----

  lemma {:induction false} BarIs(s: string, i: nat, j: nat)
    requires i <= j <= |s| && (j < |s| ==> s[j] == '|') && forall k :: i <= k < j ==> s[k] != '|'
    ensures BarAt(s, i) == j
    decreases j - i
  {
    if i < j {
      BarIs(s, i + 1, j);
    }
  }

  lemma {:induction false} FirstPattern(w: string, t: string, last: bool)
    requires Bare(w)
    ensures var s := if last then w else w + (['|'] + t);
      BarAt(s, 0) == |w| && s[..|w|] == w && Trim(w) == w && (!last ==> |w| < |s| && s[|w| + 1..] == t)
  {
    var s := if last then w else w + (['|'] + t);
    assert BareChar(w[0]) && BareChar(w[|w| - 1]);
    TrimSolid(w);
    forall k | 0 <= k < |w| ensures s[k] != '|' {
      assert BareChar(w[k]) && s[k] == w[k];
    }
    BarIs(s, 0, |w|);
  }

  /** The first of the patterns `s` ends at the first bar, and the others are behind it. */
  lemma {:induction false} FirstOfPatterns(words: seq<string>, s: string)
    requires words != [] && GoodWords(words) && s == JoinBar(words)
    ensures var n := |words[0]|;
      && n <= |s| && BarAt(s, 0) == n && Trim(s[..n]) == words[0]
      && if |words| == 1 then n == |s| else n < |s| && s[n + 1..] == JoinBar(words[1..])
  {
    FirstPattern(words[0], JoinBar(words[1..]), |words| == 1);
  }

  lemma {:induction false} PatternsAreRead(words: seq<string>)
    requires words != [] && GoodWords(words)
    ensures Patterns(JoinBar(words)) == words
    decreases |words|
  {
    PatternsOf(words, JoinBar(words));
  }

  lemma {:induction false} PatternsOf(words: seq<string>, s: string)
    requires words != [] && GoodWords(words) && s == JoinBar(words)
    ensures Patterns(s) == words
    decreases |words|
  {
    var n, rest := |words[0]|, words[1..];
    FirstOfPatterns(words, s);
    if |words| > 1 {
      PatternsOf(rest, s[n + 1..]);
    }
    PatternsStep(s, n, words[0], rest);
    OneMore(words);
  }

  lemma {:induction false} OneMore(words: seq<string>)
    requires words != []
    ensures [words[0]] + words[1..] == words
  {
  }

  lemma {:induction false} PatternsStep(s: string, i: nat, w: string, rest: seq<string>)
    requires BarAt(s, 0) == i && Trim(s[..i]) == w
    requires if i < |s| then Patterns(s[i + 1..]) == rest else rest == []
    ensures Patterns(s) == [w] + rest
  {
  }

  /** No blank, quote, parenthesis or angle bracket in joined patterns. */
  lemma {:induction false} BarsAreClean(words: seq<string>)
    requires words != [] && GoodWords(words)
    ensures var s := JoinBar(words);
      && s != "" && s[0] == words[0][0]
      && forall k :: 0 <= k < |s| ==> BareChar(s[k]) || s[k] == '|'
  {
    assert forall k :: 0 <= k < |words[0]| ==> BareChar(words[0][k]);
    if |words| > 1 {
      BarsAreClean(words[1..]);
    }
  }
}
