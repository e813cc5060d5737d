/**
  The domain post (`XPost`): its fields, the domain engagement score and the stock-market
  reference test.
*/
module XPosts {
  import opened Wrappers
  import opened Strings

  /** A `DateTime` in UTC, as a count of 100-nanosecond ticks. */
  type Ticks = int

  /**
    An X post. Counts are C# `long`s, the tag lists keep every occurrence in text order, and the
    score is absent until computed.
  */
  datatype XPost = XPost(
    id: string,
    authorId: string,
    authorUsername: string,
    content: string,
    createdAt: Ticks,
    likeCount: int,
    retweetCount: int,
    replyCount: int,
    quoteCount: int,
    cashtags: seq<string>,
    hashtags: seq<string>,
    mentions: seq<string>,
    language: string,
    isRetweet: bool,
    originalPostId: Option<string>,
    conversationId: Option<string>,
    inReplyToUserId: Option<string>,
    engagementScore: Option<real>)

  /** Only a retweet refers to an original post. */
  predicate RetweetConsistent(p: XPost) {
    !p.isRetweet ==> p.originalPostId == None
  }

  /** The domain weights: likes 1.0, retweets 2.0, replies 1.5, quotes 1.8. */
  function EngagementScore(p: XPost): real {
    p.likeCount as real * 1.0 + p.retweetCount as real * 2.0
    + p.replyCount as real * 1.5 + p.quoteCount as real * 1.8
  }

  /** The post after `CalculateEngagementScore()`. */
  function WithEngagementScore(p: XPost): XPost {
    p.(engagementScore := Some(EngagementScore(p)))
  }

  /**
    An `XPost` object on the heap. Within the core the only method that changes a post in place
    is `CalculateEngagementScore`.
  */
  class MutableXPost {
    var post: XPost

    constructor (p: XPost)
      ensures post == p
    {
      post := p;
    }

    /** Assigns the score computed from the four counts and changes no other field. */
    method CalculateEngagementScore()
      modifies this
      ensures post == WithEngagementScore(old(post))
      ensures post.engagementScore == Some(EngagementScore(old(post)))
      ensures post.(engagementScore := old(post).engagementScore) == old(post)
    {
      post := post.(engagementScore := Some(
        post.likeCount as real * 1.0 + post.retweetCount as real * 2.0
        + post.replyCount as real * 1.5 + post.quoteCount as real * 1.8));
    }
  }

  /** Some cashtag was extracted, or the content mentions stock, market or trading in any case. */
  predicate HasStockMarketReference(p: XPost) {
    || |p.cashtags| > 0
    || ContainsIgnoreCase(p.content, "stock")
    || ContainsIgnoreCase(p.content, "market")
    || ContainsIgnoreCase(p.content, "trading")
  }

  // ---------------------------------------------------------------------------------------------

  /** The score is the weighted sum of the counts and is never negative for non-negative counts. */
  lemma EngagementScoreBounds(p: XPost)
    requires p.likeCount >= 0 && p.retweetCount >= 0 && p.replyCount >= 0 && p.quoteCount >= 0
    ensures EngagementScore(p) >= 0.0
    ensures EngagementScore(p) >= p.likeCount as real + p.retweetCount as real
  {
  }

  /** likes 10, retweets 5, replies 2, quotes 1 score 24.8. */
  lemma EngagementScoreExample(p: XPost)
    requires p.likeCount == 10 && p.retweetCount == 5 && p.replyCount == 2 && p.quoteCount == 1
    ensures EngagementScore(p) == 24.8
  {
  }

  /** Recomputing the score is idempotent: the score reads only the counts. */
  lemma WithEngagementScoreIdempotent(p: XPost)
    ensures WithEngagementScore(WithEngagementScore(p)) == WithEngagementScore(p)
    ensures EngagementScore(WithEngagementScore(p)) == EngagementScore(p)
  {
  }

  /** Two calls on the same object leave it as one call does. */
  method CalculateTwice(m: MutableXPost)
    modifies m
    ensures m.post == WithEngagementScore(old(m.post))
  {
    m.CalculateEngagementScore();
    m.CalculateEngagementScore();
    WithEngagementScoreIdempotent(old(m.post));
  }

  /** The reference test, stated over windows of the content rather than the scan. */
  lemma {:induction false} HasStockMarketReferenceIff(p: XPost)
    ensures HasStockMarketReference(p) <==>
      || |p.cashtags| > 0
      || OccursIgnoreCase(p.content, "stock")
      || OccursIgnoreCase(p.content, "market")
      || OccursIgnoreCase(p.content, "trading")
  {
    ContainsIgnoreCaseIff(p.content, "stock");
    ContainsIgnoreCaseIff(p.content, "market");
    ContainsIgnoreCaseIff(p.content, "trading");
  }

  /** A post with a cashtag has a stock-market reference whatever its content. */
  lemma CashtagImpliesReference(p: XPost)
    requires |p.cashtags| > 0
    ensures HasStockMarketReference(p)
  {
  }

  /** A content holding "MARKET" anywhere, in any case, has a stock-market reference. */
  lemma {:induction false} MarketInContentImpliesReference(p: XPost, before: string, after: string)
    requires p.content == before + "MARKET" + after
    ensures HasStockMarketReference(p)
  {
    assert p.content[|before|..|before| + 6] == "MARKET";
    assert MatchesAt(p.content, "market", |before|);
    ContainsIgnoreCaseIff(p.content, "market");
  }
}
