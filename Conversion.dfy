/**
  What the collector does with one raw search result: entity extraction from the text, the
  collector's own engagement score, and the conversion into a domain post.
*/
module Conversion {
  import opened Wrappers
  import opened Strings
  import opened XPosts

  /**
    A raw search result as the search client returns it. Identifiers are already rendered as
    strings; `retweetedTweetId` is the id of the retweeted tweet when there is one.
  */
  datatype RawTweet = RawTweet(
    id: string,
    createdById: string,
    createdByScreenName: string,
    text: string,
    createdAt: Ticks,
    favoriteCount: int,
    retweetCount: int,
    replyCount: Option<int>,
    quoteCount: Option<int>,
    language: Option<string>,
    retweetedTweetId: Option<string>,
    inReplyToUserId: Option<string>)

  /** A word the extractor keeps for `marker`: it starts with the marker and is longer than it. */
  predicate IsTagged(word: string, marker: char) {
    StartsWith(word, marker) && |word| > 1
  }

  /** The kept words with all their leading markers trimmed, in word order. */
  function ExtractTagged(words: seq<string>, marker: char): (r: seq<string>)
    ensures |r| <= |words|
  {
    if words == [] then []
    else
      (if IsTagged(words[0], marker) then [TrimStart(words[0], marker)] else [])
      + ExtractTagged(words[1..], marker)
  }

  /** The whitespace-separated words of a text, empty words included. */
  function Words(text: string): (r: seq<string>)
    ensures |r| >= 1
  {
    Split(text, IsWhiteSpace)
  }

  function ExtractCashtags(text: string): seq<string> {
    ExtractTagged(Words(text), '$')
  }

  function ExtractHashtags(text: string): seq<string> {
    ExtractTagged(Words(text), '#')
  }

  function ExtractMentions(text: string): seq<string> {
    ExtractTagged(Words(text), '@')
  }

  /** The collector's weights: likes 1.0, retweets 2.0, replies 1.5, quotes 2.0; absent counts are 0. */
  function CollectorEngagementScore(t: RawTweet): real {
    t.favoriteCount as real * 1.0 + t.retweetCount as real * 2.0
    + t.replyCount.GetOr(0) as real * 1.5 + t.quoteCount.GetOr(0) as real * 2.0
  }

  /** `ConvertToXPost`: tags come from the text, defaults fill absent counts and language. */
  function ConvertToXPost(t: RawTweet): (p: XPost)
    ensures p.id == t.id && p.authorId == t.createdById && p.authorUsername == t.createdByScreenName
    ensures p.content == t.text && p.createdAt == t.createdAt
    ensures p.likeCount == t.favoriteCount && p.retweetCount == t.retweetCount
    ensures p.replyCount == (if t.replyCount.Some? then t.replyCount.value else 0)
    ensures p.quoteCount == (if t.quoteCount.Some? then t.quoteCount.value else 0)
    ensures p.cashtags == ExtractCashtags(p.content)
    ensures p.hashtags == ExtractHashtags(p.content)
    ensures p.mentions == ExtractMentions(p.content)
    ensures p.language == (if t.language.Some? then t.language.value else "en")
    ensures p.isRetweet <==> t.retweetedTweetId.Some?
    ensures p.originalPostId == None <==> !p.isRetweet
    ensures p.isRetweet ==> p.originalPostId == t.retweetedTweetId
    ensures RetweetConsistent(p)
    ensures p.conversationId == Some(p.id)
    ensures p.inReplyToUserId == t.inReplyToUserId
    ensures p.engagementScore == Some(CollectorEngagementScore(t))
  {
    XPost(
      id := t.id,
      authorId := t.createdById,
      authorUsername := t.createdByScreenName,
      content := t.text,
      createdAt := t.createdAt,
      likeCount := t.favoriteCount,
      retweetCount := t.retweetCount,
      replyCount := t.replyCount.GetOr(0),
      quoteCount := t.quoteCount.GetOr(0),
      cashtags := ExtractCashtags(t.text),
      hashtags := ExtractHashtags(t.text),
      mentions := ExtractMentions(t.text),
      language := t.language.GetOr("en"),
      isRetweet := t.retweetedTweetId != None,
      originalPostId := t.retweetedTweetId,
      conversationId := Some(t.id),
      inReplyToUserId := t.inReplyToUserId,
      engagementScore := Some(CollectorEngagementScore(t)))
  }

  /** `tweets.Select(ConvertToXPost)`. */
  function ConvertAll(ts: seq<RawTweet>): (ps: seq<XPost>)
    ensures |ps| == |ts|
    ensures forall k :: 0 <= k < |ts| ==> ps[k] == ConvertToXPost(ts[k])
  {
    seq(|ts|, k requires 0 <= k < |ts| => ConvertToXPost(ts[k]))
  }

  // ---------------------------------------------------------------------------------------------
  // Extraction

  /** Extraction distributes over concatenated word lists. */
  lemma {:induction false} ExtractTaggedAppend(xs: seq<string>, ys: seq<string>, marker: char)
    ensures ExtractTagged(xs + ys, marker) == ExtractTagged(xs, marker) + ExtractTagged(ys, marker)
  {
    if xs == [] {
      assert xs + ys == ys;
    } else {
      var head := if IsTagged(xs[0], marker) then [TrimStart(xs[0], marker)] else [];
      assert (xs + ys)[0] == xs[0];
      assert (xs + ys)[1..] == xs[1..] + ys;
      assert ExtractTagged(xs + ys, marker) == head + ExtractTagged(xs[1..] + ys, marker);
      ExtractTaggedAppend(xs[1..], ys, marker);
      assert head + (ExtractTagged(xs[1..], marker) + ExtractTagged(ys, marker))
          == (head + ExtractTagged(xs[1..], marker)) + ExtractTagged(ys, marker);
    }
  }

  /**
    Exactly the kept words, trimmed: every result is a trimmed kept word, and every kept word
    contributes its trimmed form.
  */
  lemma {:induction false} ExtractTaggedMembers(words: seq<string>, marker: char)
    ensures forall x :: x in ExtractTagged(words, marker) <==>
      exists k :: 0 <= k < |words| && IsTagged(words[k], marker) && TrimStart(words[k], marker) == x
  {
    if words != [] {
      ExtractTaggedMembers(words[1..], marker);
      forall x
        ensures x in ExtractTagged(words, marker) <==>
          exists k :: 0 <= k < |words| && IsTagged(words[k], marker) && TrimStart(words[k], marker) == x
      {
        if x in ExtractTagged(words[1..], marker) {
          var k :| 0 <= k < |words[1..]| && IsTagged(words[1..][k], marker)
            && TrimStart(words[1..][k], marker) == x;
          assert words[k + 1] == words[1..][k];
        }
        if exists k :: 0 <= k < |words| && IsTagged(words[k], marker) && TrimStart(words[k], marker) == x {
          var k :| 0 <= k < |words| && IsTagged(words[k], marker) && TrimStart(words[k], marker) == x;
          if k > 0 {
            assert words[1..][k - 1] == words[k];
          }
        }
      }
    }
  }

  /** A word without whitespace yields its trimmed form if it is kept, and nothing otherwise. */
  lemma ExtractSingleWord(w: string, marker: char)
    requires SepFree(w, IsWhiteSpace)
    ensures ExtractTagged(Words(w), marker) == if IsTagged(w, marker) then [TrimStart(w, marker)] else []
  {
    SplitSepFree(w, IsWhiteSpace);
    assert Words(w) == [w];
    assert Words(w)[1..] == [];
  }

  /** Text on either side of a whitespace character is extracted independently, left part first. */
  lemma ExtractAtWhitespace(a: string, c: char, b: string, marker: char)
    requires IsWhiteSpace(c)
    ensures ExtractTagged(Words(a + [c] + b), marker)
         == ExtractTagged(Words(a), marker) + ExtractTagged(Words(b), marker)
  {
    SplitAtSeparator(a, c, b, IsWhiteSpace);
    ExtractTaggedAppend(Words(a), Words(b), marker);
  }

  /** Text made of whitespace-free words joined by single spaces is extracted word by word. */
  lemma ExtractJoinedWords(words: seq<string>, marker: char)
    requires |words| >= 1
    requires forall k :: 0 <= k < |words| ==> SepFree(words[k], IsWhiteSpace)
    ensures ExtractTagged(Words(Join(words, " ")), marker) == ExtractTagged(words, marker)
  {
    SplitJoin(words, ' ', IsWhiteSpace);
  }

  /** A word feeds at most one of the three lists, so together they hold at most one entry per word. */
  lemma {:induction false} ExtractorsDisjoint(words: seq<string>)
    ensures |ExtractTagged(words, '$')| + |ExtractTagged(words, '#')| + |ExtractTagged(words, '@')|
         <= |words|
  {
    if words != [] {
      ExtractorsDisjoint(words[1..]);
    }
  }

  /** Per text: the three extractors together return at most one entry per whitespace-separated word. */
  lemma ExtractedTagsBounded(text: string)
    ensures |ExtractCashtags(text)| + |ExtractHashtags(text)| + |ExtractMentions(text)| <= |Words(text)|
  {
    ExtractorsDisjoint(Words(text));
  }

  /** `$$AAPL` gives `AAPL`: every leading marker is trimmed. */
  lemma TrimRepeatedMarker()
    ensures ExtractTagged(["$$AAPL"], '$') == ["AAPL"]
  {
    assert ["$$AAPL"][1..] == [];
    assert "$$AAPL"[1..] == "$AAPL" && "$AAPL"[1..] == "AAPL";
  }

  /** `$$` gives the empty string: it is long enough to be kept and trims to nothing. */
  lemma TrimOnlyMarkers()
    ensures ExtractTagged(["$$"], '$') == [""]
  {
    assert ["$$"][1..] == [];
    assert "$$"[1..] == "$" && "$"[1..] == "";
  }

  /** A bare `$` is too short to be kept. */
  lemma BareMarkerDropped()
    ensures ExtractTagged(["$"], '$') == []
  {
    assert ["$"][1..] == [];
  }

  /** The example text is its five words joined by single spaces. */
  lemma ExampleWords()
    ensures Join(["$AAPL", "up", "10%", "#stocks", "@trader"], " ") == "$AAPL up 10% #stocks @trader"
  {
    var words := ["$AAPL", "up", "10%", "#stocks", "@trader"];
    assert words[1..] == ["up", "10%", "#stocks", "@trader"];
    assert words[1..][1..] == ["10%", "#stocks", "@trader"];
    ExampleTailJoined();
    assert Join(words[1..], " ") == "up" + " " + "10% #stocks @trader";
  }

  /** The last three words of the example, joined. */
  lemma ExampleTailJoined()
    ensures Join(["10%", "#stocks", "@trader"], " ") == "10% #stocks @trader"
  {
    var words := ["10%", "#stocks", "@trader"];
    assert words[1..] == ["#stocks", "@trader"] && words[1..][1..] == ["@trader"];
    assert Join(words[1..], " ") == "#stocks @trader";
  }

  /** None of the example's words holds whitespace. */
  lemma ExampleWordsSepFree()
    ensures forall k :: 0 <= k < 5 ==> SepFree(["$AAPL", "up", "10%", "#stocks", "@trader"][k], IsWhiteSpace)
  {
  }

  /** The example's words with their tails, for the three extractors below. */
  function ExampleTail(n: nat): seq<string>
    requires n <= 5
  {
    ["$AAPL", "up", "10%", "#stocks", "@trader"][n..]
  }

  /** The cashtag extractor keeps only `$AAPL`. */
  lemma ExampleCashtags()
    ensures ExtractTagged(ExampleTail(0), '$') == ["AAPL"]
  {
    assert ExampleTail(0)[1..] == ExampleTail(1) && ExampleTail(1)[1..] == ExampleTail(2);
    assert ExampleTail(2)[1..] == ExampleTail(3) && ExampleTail(3)[1..] == ExampleTail(4);
    assert ExampleTail(4)[1..] == ExampleTail(5) == [];
    assert ExtractTagged(ExampleTail(3), '$') == [];
    assert "$AAPL"[1..] == "AAPL";
  }

  /** The hashtag extractor keeps only `#stocks`. */
  lemma ExampleHashtags()
    ensures ExtractTagged(ExampleTail(0), '#') == ["stocks"]
  {
    assert ExampleTail(0)[1..] == ExampleTail(1) && ExampleTail(1)[1..] == ExampleTail(2);
    assert ExampleTail(2)[1..] == ExampleTail(3) && ExampleTail(3)[1..] == ExampleTail(4);
    assert ExampleTail(4)[1..] == ExampleTail(5) == [];
    assert "#stocks"[1..] == "stocks";
    assert ExtractTagged(ExampleTail(3), '#') == ["stocks"];
  }

  /** The mention extractor keeps only `@trader`. */
  lemma ExampleMentions()
    ensures ExtractTagged(ExampleTail(0), '@') == ["trader"]
  {
    assert ExampleTail(0)[1..] == ExampleTail(1) && ExampleTail(1)[1..] == ExampleTail(2);
    assert ExampleTail(2)[1..] == ExampleTail(3) && ExampleTail(3)[1..] == ExampleTail(4);
    assert ExampleTail(4)[1..] == ExampleTail(5) == [];
    assert "@trader"[1..] == "trader";
    assert ExtractTagged(ExampleTail(4), '@') == ["trader"];
    assert ExtractTagged(ExampleTail(2), '@') == ["trader"];
  }

  /** The post text `$AAPL up 10% #stocks @trader` yields one entry in each list. */
  lemma ExtractionExample()
    ensures ExtractCashtags("$AAPL up 10% #stocks @trader") == ["AAPL"]
    ensures ExtractHashtags("$AAPL up 10% #stocks @trader") == ["stocks"]
    ensures ExtractMentions("$AAPL up 10% #stocks @trader") == ["trader"]
  {
    var words := ["$AAPL", "up", "10%", "#stocks", "@trader"];
    ExampleWords();
    ExampleWordsSepFree();
    ExtractJoinedWords(words, '$');
    ExtractJoinedWords(words, '#');
    ExtractJoinedWords(words, '@');
    assert words == ExampleTail(0);
    ExampleCashtags();
    ExampleHashtags();
    ExampleMentions();
  }

  // ---------------------------------------------------------------------------------------------
  // Scores

  /** With non-negative counts the collector's score is non-negative. */
  lemma CollectorScoreNonNegative(t: RawTweet)
    requires t.favoriteCount >= 0 && t.retweetCount >= 0
    requires t.replyCount.Some? ==> t.replyCount.value >= 0
    requires t.quoteCount.Some? ==> t.quoteCount.value >= 0
    ensures CollectorEngagementScore(t) >= 0.0
  {
  }

  /**
    The two scores differ by 0.2 per quote: the collector weighs quotes 2.0 where the domain
    post weighs them 1.8, so they agree exactly when the quote count is 0.
  */
  lemma ScoresDifferByQuotes(t: RawTweet)
    ensures CollectorEngagementScore(t) == EngagementScore(ConvertToXPost(t)) + 0.2 * t.quoteCount.GetOr(0) as real
    ensures CollectorEngagementScore(t) == EngagementScore(ConvertToXPost(t)) <==> t.quoteCount.GetOr(0) == 0
  {
  }
}
