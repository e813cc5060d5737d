/**
  The post table: the row mapping (`XPostTableEntity`), an in-memory table keyed by
  (partition key, row key) with the order in which a query scans it, the upserts, the batched
  insert, and the four lookups as scans with a filter.
*/
module Repository {
  import opened Wrappers
  import opened Strings
  import opened XPosts

  /** A table row. Tag lists are stored as comma-joined strings. */
  datatype Entity = Entity(
    partitionKey: string,
    rowKey: string,
    authorId: string,
    authorUsername: string,
    content: string,
    createdAt: Ticks,
    likeCount: int,
    retweetCount: int,
    replyCount: int,
    quoteCount: int,
    cashtags: string,
    hashtags: string,
    mentions: string,
    language: string,
    isRetweet: bool,
    originalPostId: Option<string>,
    conversationId: Option<string>,
    inReplyToUserId: Option<string>,
    engagementScore: Option<real>)

  /** `string.Join(",", tags)`. */
  function JoinTags(tags: seq<string>): string {
    Join(tags, ",")
  }

  /** `s.Split(',', StringSplitOptions.RemoveEmptyEntries)`. */
  function SplitTags(s: string): seq<string> {
    RemoveEmpty(Split(s, IsComma))
  }

  /** `XPostTableEntity.FromDomain`: partitioned by author, keyed by post id. */
  function FromDomain(p: XPost): (e: Entity)
    ensures e.partitionKey == p.authorUsername && e.rowKey == p.id
  {
    Entity(
      partitionKey := p.authorUsername,
      rowKey := p.id,
      authorId := p.authorId,
      authorUsername := p.authorUsername,
      content := p.content,
      createdAt := p.createdAt,
      likeCount := p.likeCount,
      retweetCount := p.retweetCount,
      replyCount := p.replyCount,
      quoteCount := p.quoteCount,
      cashtags := JoinTags(p.cashtags),
      hashtags := JoinTags(p.hashtags),
      mentions := JoinTags(p.mentions),
      language := p.language,
      isRetweet := p.isRetweet,
      originalPostId := p.originalPostId,
      conversationId := p.conversationId,
      inReplyToUserId := p.inReplyToUserId,
      engagementScore := p.engagementScore)
  }

  /** `XPostTableEntity.ToDomain`: the id comes back from the row key. */
  function ToDomain(e: Entity): (p: XPost)
    ensures p.id == e.rowKey
  {
    XPost(
      id := e.rowKey,
      authorId := e.authorId,
      authorUsername := e.authorUsername,
      content := e.content,
      createdAt := e.createdAt,
      likeCount := e.likeCount,
      retweetCount := e.retweetCount,
      replyCount := e.replyCount,
      quoteCount := e.quoteCount,
      cashtags := SplitTags(e.cashtags),
      hashtags := SplitTags(e.hashtags),
      mentions := SplitTags(e.mentions),
      language := e.language,
      isRetweet := e.isRetweet,
      originalPostId := e.originalPostId,
      conversationId := e.conversationId,
      inReplyToUserId := e.inReplyToUserId,
      engagementScore := e.engagementScore)
  }

  function FromDomainAll(ps: seq<XPost>): (es: seq<Entity>)
    ensures |es| == |ps| && forall k :: 0 <= k < |ps| ==> es[k] == FromDomain(ps[k])
  {
    if ps == [] then [] else FromDomainAll(ps[..|ps| - 1]) + [FromDomain(ps[|ps| - 1])]
  }

  function ToDomainAll(es: seq<Entity>): (ps: seq<XPost>)
    ensures |ps| == |es| && forall k :: 0 <= k < |es| ==> ps[k] == ToDomain(es[k])
  {
    if es == [] then [] else ToDomainAll(es[..|es| - 1]) + [ToDomain(es[|es| - 1])]
  }

  // ---------------------------------------------------------------------------------------------
  // Round trip

  /** Tags that survive storage: none is empty and none holds a comma. */
  ghost predicate StorableTags(tags: seq<string>) {
    forall k :: 0 <= k < |tags| ==> tags[k] != "" && SepFree(tags[k], IsComma)
  }

  /** In general a stored tag list reads back as the non-empty comma-separated pieces of its tags. */
  lemma SplitJoinTags(tags: seq<string>)
    ensures SplitTags(JoinTags(tags)) == RemoveEmpty(SplitEach(tags, IsComma))
  {
    if tags != [] {
      assert "," == [','];
      SplitOfJoin(tags, ',', IsComma);
    } else {
      assert JoinTags(tags) == "" && Split("", IsComma) == [""];
      assert RemoveEmpty([""]) == [] by { assert [""][1..] == []; }
    }
  }

  /** Storable tags read back unchanged. */
  lemma TagsRoundTrip(tags: seq<string>)
    requires StorableTags(tags)
    ensures SplitTags(JoinTags(tags)) == tags
  {
    SplitJoinTags(tags);
    SplitEachSepFree(tags, IsComma);
    RemoveEmptyNoEmpty(tags);
  }

  /** A post whose tags are storable reads back as the same post. */
  lemma RoundTrip(p: XPost)
    requires StorableTags(p.cashtags) && StorableTags(p.hashtags) && StorableTags(p.mentions)
    ensures ToDomain(FromDomain(p)) == p
  {
    TagsRoundTrip(p.cashtags);
    TagsRoundTrip(p.hashtags);
    TagsRoundTrip(p.mentions);
  }

  /** What storage loses: an empty tag (the extractor yields one for `$$`) disappears. */
  lemma EmptyTagDropped()
    ensures SplitTags(JoinTags(["", "MSFT"])) == ["MSFT"]
  {
    assert ["", "MSFT"][1..] == ["MSFT"];
    assert JoinTags(["", "MSFT"]) == [','] + "MSFT";
    assert ([','] + "MSFT")[1..] == "MSFT";
    SplitSepFree("MSFT", IsComma);
    assert Split([','] + "MSFT", IsComma) == ["", "MSFT"];
    assert ["MSFT"][1..] == [];
  }

  /** What storage loses: a tag with a comma (the extractor yields one for `$AAPL,`) comes back in two pieces. */
  lemma CommaTagSplit()
    ensures SplitTags(JoinTags(["AAPL,", "MSFT"])) == ["AAPL", "MSFT"]
  {
    assert ["AAPL,", "MSFT"][1..] == ["MSFT"];
    assert JoinTags(["AAPL,", "MSFT"]) == "AAPL" + [','] + ([','] + "MSFT");
    DoubleCommaSplit();
    assert ["AAPL", "", "MSFT"][1..] == ["", "MSFT"];
    assert ["", "MSFT"][1..] == ["MSFT"];
    assert ["MSFT"][1..] == [];
  }

  lemma DoubleCommaSplit()
    ensures Split("AAPL" + [','] + ([','] + "MSFT"), IsComma) == ["AAPL", "", "MSFT"]
  {
    SplitAtSeparator("AAPL", ',', [','] + "MSFT", IsComma);
    SplitSepFree("AAPL", IsComma);
    SplitAtSeparator("", ',', "MSFT", IsComma);
    assert "" + [','] + "MSFT" == [','] + "MSFT";
    SplitSepFree("MSFT", IsComma);
  }


  // ---------------------------------------------------------------------------------------------
  // Slices (stated generically, so that the solver does not reason about entities to prove them)

  /** A slice grown by the element after it. */
  lemma SliceSnoc<T>(xs: seq<T>, a: nat, b: nat)
    requires a <= b < |xs|
    ensures xs[a..b] + [xs[b]] == xs[a..b + 1]
  {
  }

  /** A prefix grown by the element after it. */
  lemma PrefixSnoc<T>(xs: seq<T>, i: nat)
    requires i < |xs|
    ensures xs[..i] + [xs[i]] == xs[..i + 1]
  {
  }

  /** A sequence around one of its positions. */
  lemma SplitAt<T>(xs: seq<T>, i: nat)
    requires i < |xs|
    ensures xs == xs[..i] + [xs[i]] + xs[i + 1..]
  {
  }

  /** The slices that span the whole sequence. */
  lemma WholeSlice<T>(xs: seq<T>)
    ensures xs[..|xs|] == xs && xs[0..] == xs && xs[0..|xs|] == xs
  {
  }

  /** A prefix followed by the slice after it. */
  lemma SliceJoin<T>(xs: seq<T>, a: nat, b: nat)
    requires a <= b <= |xs|
    ensures xs[..a] + xs[a..b] == xs[..b]
  {
  }

  // ---------------------------------------------------------------------------------------------
  // The table

  /** (PartitionKey, RowKey). */
  type Key = (string, string)

  function KeyOf(e: Entity): Key {
    (e.partitionKey, e.rowKey)
  }

  /** The rows by key and the order a query scans them in (insertion order). */
  datatype Table = Table(rows: map<Key, Entity>, order: seq<Key>)

  /** Every row is scanned exactly once, and every row is filed under its own key. */
  ghost predicate WellFormed(t: Table) {
    && (forall k :: k in t.rows <==> k in t.order)
    && (forall i, j :: 0 <= i < j < |t.order| ==> t.order[i] != t.order[j])
    && (forall k :: k in t.rows ==> KeyOf(t.rows[k]) == k)
  }

  /** An `UpsertReplace` action: insert, or replace the row with the same key in place. */
  function Upserted(t: Table, e: Entity): Table {
    Table(t.rows[KeyOf(e) := e], if KeyOf(e) in t.rows then t.order else t.order + [KeyOf(e)])
  }

  /** Upserts one after the other. */
  function UpsertedAll(t: Table, es: seq<Entity>): Table
    decreases |es|
  {
    if es == [] then t else UpsertedAll(Upserted(t, es[0]), es[1..])
  }

  /** The rows in scan order. */
  function RowsOf(rows: map<Key, Entity>, order: seq<Key>): (r: seq<Entity>)
    requires forall k :: k in order ==> k in rows
    ensures |r| == |order| && forall i :: 0 <= i < |order| ==> r[i] == rows[order[i]]
  {
    if order == [] then [] else RowsOf(rows, order[..|order| - 1]) + [rows[order[|order| - 1]]]
  }

  lemma RowsOfSnoc(rows: map<Key, Entity>, order: seq<Key>, i: nat)
    requires i < |order| && forall k :: k in order ==> k in rows
    ensures RowsOf(rows, order[..i + 1]) == RowsOf(rows, order[..i]) + [rows[order[i]]]
  {
    assert order[..i + 1][..i] == order[..i];
  }

  lemma RowsOfSplit(rows: map<Key, Entity>, order: seq<Key>, i: nat)
    requires i < |order| && forall k :: k in order ==> k in rows
    ensures RowsOf(rows, order) == RowsOf(rows, order[..i]) + [rows[order[i]]] + RowsOf(rows, order[i + 1..])
  {
  }

  function Scanned(t: Table): seq<Entity>
    requires WellFormed(t)
  {
    RowsOf(t.rows, t.order)
  }

  /**
    An upsert keeps the table well formed, files the row under its key, leaves every other key
    alone and appends a new key to the scan order only when it is new.
  */
  lemma UpsertedSpec(t: Table, e: Entity)
    requires WellFormed(t)
    ensures WellFormed(Upserted(t, e))
    ensures Upserted(t, e).rows[KeyOf(e)] == e
    ensures forall k :: k != KeyOf(e) ==> (k in Upserted(t, e).rows <==> k in t.rows)
    ensures forall k :: k != KeyOf(e) && k in t.rows ==> Upserted(t, e).rows[k] == t.rows[k]
    ensures KeyOf(e) in t.rows ==> Upserted(t, e).order == t.order
    ensures KeyOf(e) !in t.rows ==> Upserted(t, e).order == t.order + [KeyOf(e)]
  {
    var u := Upserted(t, e);
    if KeyOf(e) !in t.rows {
      forall i, j | 0 <= i < j < |u.order| ensures u.order[i] != u.order[j] {
        if j == |t.order| {
          assert t.order[i] in t.rows;
        }
      }
    }
  }

  lemma {:induction false} UpsertedAllWellFormed(t: Table, es: seq<Entity>)
    requires WellFormed(t)
    ensures WellFormed(UpsertedAll(t, es))
    decreases |es|
  {
    if es != [] {
      UpsertedSpec(t, es[0]);
      UpsertedAllWellFormed(Upserted(t, es[0]), es[1..]);
    }
  }

  lemma {:induction false} UpsertedAllAppend(t: Table, a: seq<Entity>, b: seq<Entity>)
    ensures UpsertedAll(t, a + b) == UpsertedAll(UpsertedAll(t, a), b)
    decreases |a|
  {
    if a != [] {
      assert (a + b)[0] == a[0] && (a + b)[1..] == a[1..] + b;
      UpsertedAllAppend(Upserted(t, a[0]), a[1..], b);
    } else {
      assert a + b == b;
    }
  }

  /** Upserting rows one by one, the last row written under a key is the one stored there. */
  lemma {:induction false} UpsertedAllLastWins(t: Table, es: seq<Entity>, i: nat)
    requires i < |es| && forall j :: i < j < |es| ==> KeyOf(es[j]) != KeyOf(es[i])
    ensures KeyOf(es[i]) in UpsertedAll(t, es).rows && UpsertedAll(t, es).rows[KeyOf(es[i])] == es[i]
  {
    var init, last := es[..|es| - 1], es[|es| - 1];
    assert es == init + [last];
    UpsertedAllAppend(t, init, [last]);
    var m := UpsertedAll(t, init);
    assert UpsertedAll(m, [last]) == Upserted(m, last) by {
      assert [last][1..] == [];
    }
    if i < |es| - 1 {
      UpsertedAllLastWins(t, init, i);
    }
  }

  lemma UpsertedAllSnoc(t: Table, es: seq<Entity>, e: Entity)
    ensures UpsertedAll(t, es + [e]) == Upserted(UpsertedAll(t, es), e)
  {
    UpsertedAllAppend(t, es, [e]);
    assert [e][1..] == [];
  }

  // ---------------------------------------------------------------------------------------------
  // Merge upserts

  /**
    The row a `Merge` upsert of `e` leaves over the stored row `stored`. Null properties are not
    sent, so each property `e` leaves null keeps its stored value; all others are `e`'s.
  */
  function MergeRow(stored: Entity, e: Entity): Entity {
    e.(originalPostId := if e.originalPostId.Some? then e.originalPostId else stored.originalPostId,
       conversationId := if e.conversationId.Some? then e.conversationId else stored.conversationId,
       inReplyToUserId := if e.inReplyToUserId.Some? then e.inReplyToUserId else stored.inReplyToUserId,
       engagementScore := if e.engagementScore.Some? then e.engagementScore else stored.engagementScore)
  }

  /** `UpsertEntityAsync` in its default `Merge` mode: insert, or merge into the row with the same key. */
  function Merged(t: Table, e: Entity): Table {
    Upserted(t, if KeyOf(e) in t.rows then MergeRow(t.rows[KeyOf(e)], e) else e)
  }

  /** Every nullable property of `e` is set. */
  predicate NoNulls(e: Entity) {
    e.originalPostId.Some? && e.conversationId.Some? && e.inReplyToUserId.Some? && e.engagementScore.Some?
  }

  /**
    A merge keeps the table well formed and touches only the row under the entity's key, which
    it adds at the end of the scan order when new. An existing row takes every non-null property
    of the entity and keeps its stored value for each property the entity leaves null.
  */
  lemma MergedSpec(t: Table, e: Entity)
    requires WellFormed(t)
    ensures WellFormed(Merged(t, e))
    ensures KeyOf(e) in Merged(t, e).rows
    ensures forall k :: k != KeyOf(e) ==> (k in Merged(t, e).rows <==> k in t.rows)
    ensures forall k :: k != KeyOf(e) && k in t.rows ==> Merged(t, e).rows[k] == t.rows[k]
    ensures KeyOf(e) in t.rows ==> Merged(t, e).order == t.order
    ensures KeyOf(e) !in t.rows ==> Merged(t, e).order == t.order + [KeyOf(e)] && Merged(t, e).rows[KeyOf(e)] == e
    ensures KeyOf(e) in t.rows ==>
      var m, stored := Merged(t, e).rows[KeyOf(e)], t.rows[KeyOf(e)];
      && m.(originalPostId := e.originalPostId, conversationId := e.conversationId,
            inReplyToUserId := e.inReplyToUserId, engagementScore := e.engagementScore) == e
      && m.originalPostId == (if e.originalPostId.None? then stored.originalPostId else e.originalPostId)
      && m.conversationId == (if e.conversationId.None? then stored.conversationId else e.conversationId)
      && m.inReplyToUserId == (if e.inReplyToUserId.None? then stored.inReplyToUserId else e.inReplyToUserId)
      && m.engagementScore == (if e.engagementScore.None? then stored.engagementScore else e.engagementScore)
  {
    if KeyOf(e) in t.rows {
      MergeRowSpec(t.rows[KeyOf(e)], e);
      UpsertedSpec(t, MergeRow(t.rows[KeyOf(e)], e));
    } else {
      UpsertedSpec(t, e);
    }
  }

  /** The merged row: `e`'s key and non-null properties, and the stored value where `e` has null. */
  lemma MergeRowSpec(stored: Entity, e: Entity)
    ensures var m := MergeRow(stored, e);
      && KeyOf(m) == KeyOf(e)
      && m.(originalPostId := e.originalPostId, conversationId := e.conversationId,
            inReplyToUserId := e.inReplyToUserId, engagementScore := e.engagementScore) == e
      && m.originalPostId == (if e.originalPostId.None? then stored.originalPostId else e.originalPostId)
      && m.conversationId == (if e.conversationId.None? then stored.conversationId else e.conversationId)
      && m.inReplyToUserId == (if e.inReplyToUserId.None? then stored.inReplyToUserId else e.inReplyToUserId)
      && m.engagementScore == (if e.engagementScore.None? then stored.engagementScore else e.engagementScore)
  {
  }

  /** An entity with every nullable property set merges exactly as it would replace. */
  lemma MergeWithoutNullsReplaces(t: Table, e: Entity)
    requires NoNulls(e)
    ensures Merged(t, e) == Upserted(t, e)
  {
  }

  /** Upserting the same entity twice in `Merge` mode leaves what upserting it once does. */
  lemma MergedIdempotent(t: Table, e: Entity)
    ensures Merged(Merged(t, e), e) == Merged(t, e)
  {
    var u := Merged(t, e);
    assert KeyOf(e) in u.rows;
    assert MergeRow(u.rows[KeyOf(e)], e) == u.rows[KeyOf(e)];
  }

  /**
    Re-adding a stored post whose new row has no engagement score keeps the stored score, so a
    row the engagement query found before is still found.
  */
  lemma MergeKeepsHighEngagement(t: Table, e: Entity, minScore: real, range: TimeRange)
    requires KeyOf(e) in t.rows && e.engagementScore.None? && InRange(range, e.createdAt)
    requires Matches(ByScore(minScore, range), t.rows[KeyOf(e)])
    ensures Matches(ByScore(minScore, range), Merged(t, e).rows[KeyOf(e)])
    ensures Merged(t, e).rows[KeyOf(e)].engagementScore == t.rows[KeyOf(e)].engagementScore
  {
  }

  /**
    A post added to a table that does not hold its key yet, or whose nullable properties are all
    set, reads back as the same post, provided its tags are storable.
  */
  lemma MergedRoundTrip(t: Table, p: XPost)
    requires StorableTags(p.cashtags) && StorableTags(p.hashtags) && StorableTags(p.mentions)
    requires KeyOf(FromDomain(p)) !in t.rows || NoNulls(FromDomain(p))
    ensures (p.authorUsername, p.id) in Merged(t, FromDomain(p)).rows
    ensures ToDomain(Merged(t, FromDomain(p)).rows[(p.authorUsername, p.id)]) == p
  {
    RoundTrip(p);
  }

  // ---------------------------------------------------------------------------------------------
  // Queries

  /** The optional inclusive bounds on `CreatedAt`. */
  datatype TimeRange = TimeRange(start: Option<Ticks>, end: Option<Ticks>)

  predicate InRange(r: TimeRange, t: Ticks) {
    (r.start.None? || t >= r.start.value) && (r.end.None? || t <= r.end.value)
  }

  /** The filter of each lookup. */
  datatype Query =
    | RowKeyIs(id: string)
    | ByAuthor(username: string, range: TimeRange)
    | ByCashtags(cashtags: seq<string>, range: TimeRange)
    | ByScore(minScore: real, range: TimeRange)

  /** `cashtags.Contains(c, StringComparer.OrdinalIgnoreCase)`. */
  predicate ListedIgnoreCase(c: string, cashtags: seq<string>)
    decreases |cashtags|
  {
    |cashtags| > 0 && (EqualsIgnoreCase(cashtags[0], c) || ListedIgnoreCase(c, cashtags[1..]))
  }

  /** `tags.Any(c => cashtags.Contains(c, OrdinalIgnoreCase))`. */
  predicate AnyListed(tags: seq<string>, cashtags: seq<string>)
    decreases |tags|
  {
    |tags| > 0 && (ListedIgnoreCase(tags[0], cashtags) || AnyListed(tags[1..], cashtags))
  }

  predicate Matches(q: Query, e: Entity) {
    match q
    case RowKeyIs(id) => e.rowKey == id
    case ByAuthor(username, range) => e.partitionKey == username && InRange(range, e.createdAt)
    case ByCashtags(cashtags, range) =>
      InRange(range, e.createdAt) && AnyListed(SplitTags(e.cashtags), cashtags)
    case ByScore(minScore, range) =>
      e.engagementScore.Some? && e.engagementScore.value >= minScore && InRange(range, e.createdAt)
  }

  /** The matching rows, in scan order. */
  function Filter(rows: seq<Entity>, q: Query): (r: seq<Entity>)
    ensures |r| <= |rows|
  {
    if rows == [] then []
    else
      var last := rows[|rows| - 1];
      Filter(rows[..|rows| - 1], q) + (if Matches(q, last) then [last] else [])
  }

  lemma FilterSnoc(rows: seq<Entity>, e: Entity, q: Query)
    ensures Filter(rows + [e], q) == Filter(rows, q) + (if Matches(q, e) then [e] else [])
  {
    assert (rows + [e])[..|rows|] == rows;
  }

  lemma ToDomainAllSnoc(es: seq<Entity>, e: Entity)
    ensures ToDomainAll(es + [e]) == ToDomainAll(es) + [ToDomain(e)]
  {
    assert (es + [e])[..|es|] == es;
  }

  /** No row matches, so nothing is kept. */
  lemma {:induction false} FilterNone(rows: seq<Entity>, q: Query)
    requires forall e :: e in rows ==> !Matches(q, e)
    ensures Filter(rows, q) == []
  {
    if rows != [] {
      assert rows[|rows| - 1] in rows;
      assert forall e :: e in rows[..|rows| - 1] ==> e in rows;
      FilterNone(rows[..|rows| - 1], q);
    }
  }

  /** Some row of the batch has that row key. */
  predicate HasRowKey(batch: seq<Entity>, rowKey: string) {
    exists j :: 0 <= j < |batch| && batch[j].rowKey == rowKey
  }

  /** A matching row after rows none of which match is the first row the filter keeps. */
  lemma FilterFirst(a: seq<Entity>, e: Entity, b: seq<Entity>, q: Query)
    requires Filter(a, q) == [] && Matches(q, e)
    ensures Filter(a + [e] + b, q) != [] && Filter(a + [e] + b, q)[0] == e
  {
    FilterAppend(a + [e], b, q);
    assert (a + [e])[..|a|] == a;
  }

  /** One more scanned row adds its conversion to the result exactly when it matches. */
  lemma ScanStep(rows: map<Key, Entity>, order: seq<Key>, i: nat, q: Query)
    requires i < |order| && forall k :: k in order ==> k in rows
    ensures ToDomainAll(Filter(RowsOf(rows, order[..i + 1]), q))
      == ToDomainAll(Filter(RowsOf(rows, order[..i]), q)) + (if Matches(q, rows[order[i]]) then [ToDomain(rows[order[i]])] else [])
  {
    var e := rows[order[i]];
    RowsOfSnoc(rows, order, i);
    FilterSnoc(RowsOf(rows, order[..i]), e, q);
    if Matches(q, e) {
      ToDomainAllSnoc(Filter(RowsOf(rows, order[..i]), q), e);
    } else {
      assert Filter(RowsOf(rows, order[..i]), q) + [] == Filter(RowsOf(rows, order[..i]), q);
    }
  }

  /** What a lookup returns on a table. */
  function Select(t: Table, q: Query): seq<XPost>
    requires WellFormed(t)
  {
    ToDomainAll(Filter(Scanned(t), q))
  }

  /** `GetByIdAsync`: the first scanned row with that row key, converted, or none. */
  function FindById(t: Table, id: string): Option<XPost>
    requires WellFormed(t)
  {
    var found := Filter(Scanned(t), RowKeyIs(id));
    if found == [] then None else Some(ToDomain(found[0]))
  }

  lemma ListedIgnoreCaseIff(c: string, cashtags: seq<string>)
    ensures ListedIgnoreCase(c, cashtags) <==> exists j :: 0 <= j < |cashtags| && EqualsIgnoreCase(cashtags[j], c)
    decreases |cashtags|
  {
    if |cashtags| > 0 {
      ListedIgnoreCaseIff(c, cashtags[1..]);
      if ListedIgnoreCase(c, cashtags[1..]) {
        var j :| 0 <= j < |cashtags[1..]| && EqualsIgnoreCase(cashtags[1..][j], c);
        assert cashtags[j + 1] == cashtags[1..][j];
      }
      if exists j :: 0 <= j < |cashtags| && EqualsIgnoreCase(cashtags[j], c) {
        var j :| 0 <= j < |cashtags| && EqualsIgnoreCase(cashtags[j], c);
        if j > 0 {
          assert cashtags[1..][j - 1] == cashtags[j];
        }
      }
    }
  }

  /** Some stored tag equals some query cashtag, ignoring ASCII case. */
  lemma {:induction false} AnyListedIff(tags: seq<string>, cashtags: seq<string>)
    ensures AnyListed(tags, cashtags) <==>
      exists i, j :: 0 <= i < |tags| && 0 <= j < |cashtags| && EqualsIgnoreCase(cashtags[j], tags[i])
    decreases |tags|
  {
    if |tags| > 0 {
      AnyListedIff(tags[1..], cashtags);
      ListedIgnoreCaseIff(tags[0], cashtags);
      if AnyListed(tags[1..], cashtags) {
        var i, j :| 0 <= i < |tags[1..]| && 0 <= j < |cashtags| && EqualsIgnoreCase(cashtags[j], tags[1..][i]);
        assert tags[i + 1] == tags[1..][i];
      }
      if exists i, j :: 0 <= i < |tags| && 0 <= j < |cashtags| && EqualsIgnoreCase(cashtags[j], tags[i]) {
        var i, j :| 0 <= i < |tags| && 0 <= j < |cashtags| && EqualsIgnoreCase(cashtags[j], tags[i]);
        if i > 0 {
          assert tags[1..][i - 1] == tags[i];
        }
      }
    }
  }

  /** The filter keeps exactly the matching rows, and in their scan order. */
  lemma {:induction false} FilterMembers(rows: seq<Entity>, q: Query)
    ensures forall e :: e in Filter(rows, q) <==> e in rows && Matches(q, e)
  {
    if rows != [] {
      var init, last := rows[..|rows| - 1], rows[|rows| - 1];
      assert rows == init + [last];
      FilterMembers(init, q);
    }
  }

  lemma {:induction false} FilterAppend(a: seq<Entity>, b: seq<Entity>, q: Query)
    ensures Filter(a + b, q) == Filter(a, q) + Filter(b, q)
    decreases |b|
  {
    if b == [] {
      assert a + b == a;
    } else {
      var init, last := b[..|b| - 1], b[|b| - 1];
      assert (a + b)[..|a + b| - 1] == a + init;
      FilterAppend(a, init, q);
    }
  }

  /** `GetByAuthorAsync` returns exactly the author's rows within the time bounds. */
  lemma ByAuthorSpec(t: Table, username: string, range: TimeRange)
    requires WellFormed(t)
    ensures forall e :: e in Filter(Scanned(t), ByAuthor(username, range)) <==>
      e in t.rows.Values && e.partitionKey == username && InRange(range, e.createdAt)
  {
    Selected(t, ByAuthor(username, range));
  }

  /** The scan visits exactly the stored rows. */
  lemma ScannedRows(t: Table)
    requires WellFormed(t)
    ensures forall e :: e in Scanned(t) <==> e in t.rows.Values
  {
    var s := Scanned(t);
    forall e | e in t.rows.Values ensures e in s {
      var k :| k in t.rows && t.rows[k] == e;
      var i :| 0 <= i < |t.order| && t.order[i] == k;
      assert s[i] == e;
    }
  }
  /** A lookup keeps exactly the stored rows that match. */
  lemma Selected(t: Table, q: Query)
    requires WellFormed(t)
    ensures forall e :: e in Filter(Scanned(t), q) <==> e in t.rows.Values && Matches(q, e)
  {
    FilterMembers(Scanned(t), q);
    ScannedRows(t);
  }


  /**
    `GetByCashtagsAsync` returns exactly the rows within the time bounds having a stored cashtag
    equal, ignoring case, to a query cashtag; with no query cashtag it returns nothing.
  */
  lemma ByCashtagsSpec(t: Table, cashtags: seq<string>, range: TimeRange)
    requires WellFormed(t)
    ensures forall e :: e in Filter(Scanned(t), ByCashtags(cashtags, range)) <==>
      && e in t.rows.Values && InRange(range, e.createdAt)
      && exists i, j :: 0 <= i < |SplitTags(e.cashtags)| && 0 <= j < |cashtags|
           && EqualsIgnoreCase(cashtags[j], SplitTags(e.cashtags)[i])
    ensures cashtags == [] ==> Filter(Scanned(t), ByCashtags(cashtags, range)) == []
  {
    Selected(t, ByCashtags(cashtags, range));
    forall e: Entity ensures AnyListed(SplitTags(e.cashtags), cashtags) <==>
      exists i, j :: 0 <= i < |SplitTags(e.cashtags)| && 0 <= j < |cashtags|
        && EqualsIgnoreCase(cashtags[j], SplitTags(e.cashtags)[i])
    {
      AnyListedIff(SplitTags(e.cashtags), cashtags);
    }
    if cashtags == [] {
      FilterNone(Scanned(t), ByCashtags(cashtags, range));
    }
  }

  /** A stored `aapl,MSFT` reads back as two cashtags. */
  lemma StoredPairSplit()
    ensures SplitTags("aapl,MSFT") == ["aapl", "MSFT"]
  {
    assert "aapl,MSFT" == "aapl" + [','] + "MSFT";
    SplitAtSeparator("aapl", ',', "MSFT", IsComma);
    SplitSepFree("aapl", IsComma);
    SplitSepFree("MSFT", IsComma);
    RemoveEmptyNoEmpty(["aapl", "MSFT"]);
  }

  /** A stored `aapl,MSFT` is found by the query cashtag `AAPL`. */
  lemma CashtagMatchIgnoresCase()
    ensures AnyListed(SplitTags("aapl,MSFT"), ["AAPL"])
  {
    StoredPairSplit();
    assert EqualsIgnoreCase("AAPL", "aapl");
    assert ListedIgnoreCase("aapl", ["AAPL"]);
  }


  /**
    `GetHighEngagementPostsAsync` returns exactly the rows within the time bounds whose score is
    present and at least the minimum; a row without a score never matches.
  */
  lemma ByScoreSpec(t: Table, minScore: real, range: TimeRange)
    requires WellFormed(t)
    ensures forall e :: e in Filter(Scanned(t), ByScore(minScore, range)) <==>
      && e in t.rows.Values && InRange(range, e.createdAt)
      && e.engagementScore.Some? && e.engagementScore.value >= minScore
    ensures forall e :: e in Filter(Scanned(t), ByScore(minScore, range)) ==> e.engagementScore != None
  {
    Selected(t, ByScore(minScore, range));
  }

  /** `GetByIdAsync` finds a post exactly when some stored row has that row key. */
  lemma FindByIdFound(t: Table, id: string)
    requires WellFormed(t)
    ensures FindById(t, id).Some? <==> exists k :: k in t.rows && k.1 == id
  {
    var q := RowKeyIs(id);
    Selected(t, q);
    if exists k :: k in t.rows && k.1 == id {
      var k :| k in t.rows && k.1 == id;
      assert t.rows[k] in Filter(Scanned(t), q);
    }
    if Filter(Scanned(t), q) != [] {
      var e := Filter(Scanned(t), q)[0];
      assert e in Filter(Scanned(t), q);
      var k :| k in t.rows && t.rows[k] == e;
      assert k.1 == id;
    }
  }

  /** Of several rows with the row key, `GetByIdAsync` returns the first in scan order. */
  lemma FindByIdFirst(t: Table, id: string)
    requires WellFormed(t)
    ensures FindById(t, id).Some? ==>
      exists i :: 0 <= i < |Scanned(t)| && Scanned(t)[i].rowKey == id
        && FindById(t, id) == Some(ToDomain(Scanned(t)[i]))
        && forall j :: 0 <= j < i ==> Scanned(t)[j].rowKey != id
  {
    var s := Scanned(t);
    if Filter(s, RowKeyIs(id)) != [] {
      var i := FilterRowKeyFirst(s, id);
    }
  }

  /** The first row the filter keeps for a row key is the first scanned row with that key. */
  lemma FilterRowKeyFirst(s: seq<Entity>, id: string) returns (i: nat)
    requires Filter(s, RowKeyIs(id)) != []
    ensures i < |s| && s[i].rowKey == id && Filter(s, RowKeyIs(id))[0] == s[i]
    ensures forall j :: 0 <= j < i ==> s[j].rowKey != id
  {
    var q := RowKeyIs(id);
    FilterMembers(s, q);
    assert Filter(s, q)[0] in Filter(s, q);
    i := FirstRowKey(s, id);
    assert forall e :: e in s[..i] ==> !Matches(q, e);
    FilterNone(s[..i], q);
    SplitAt(s, i);
    FilterFirst(s[..i], s[i], s[i + 1..], q);
  }

  /** Where the first row with that row key is. */
  function FirstRowKey(s: seq<Entity>, id: string): (i: nat)
    requires exists e :: e in s && e.rowKey == id
    ensures i < |s| && s[i].rowKey == id && forall j :: 0 <= j < i ==> s[j].rowKey != id
  {
    if s[0].rowKey == id then 0
    else
      assert exists e :: e in s[1..] && e.rowKey == id by {
        var e :| e in s && e.rowKey == id;
        var j :| 0 <= j < |s| && s[j] == e;
        assert s[1..][j - 1] == e;
      }
      1 + FirstRowKey(s[1..], id)
  }

  // ---------------------------------------------------------------------------------------------
  // Transactions and batches

  /** Why the table service rejected a request. */
  datatype StoreError = InvalidTransaction

  /**
    An entity-group transaction the table service accepts: 1 to 100 operations, one partition
    key, and each entity at most once.
  */
  predicate ValidTransaction(batch: seq<Entity>) {
    && 1 <= |batch| <= 100
    && (forall i :: 0 <= i < |batch| ==> batch[i].partitionKey == batch[0].partitionKey)
    && (forall i, j :: 0 <= i < j < |batch| ==> batch[i].rowKey != batch[j].rowKey)
  }

  /** A row joins a batch the service accepts when the batch has room, the same partition and no row with its key. */
  lemma GrowBatch(batch: seq<Entity>, e: Entity)
    requires batch == [] || ValidTransaction(batch)
    requires batch != [] ==> |batch| < 100 && e.partitionKey == batch[0].partitionKey && !HasRowKey(batch, e.rowKey)
    ensures ValidTransaction(batch + [e])
  {
    var b := batch + [e];
    assert forall i :: 0 <= i < |batch| ==> b[i] == batch[i];
    assert forall i :: 0 <= i < |batch| ==> batch[i].rowKey != e.rowKey;
  }

  /** `posts` cut into consecutive batches of `size`, the last one possibly shorter. */
  function Batches<T>(xs: seq<T>, size: nat): seq<seq<T>>
    requires size > 0
    decreases |xs|
  {
    if xs == [] then []
    else if |xs| <= size then [xs]
    else [xs[..size]] + Batches(xs[size..], size)
  }

  function Flatten<T>(xss: seq<seq<T>>): seq<T> {
    if xss == [] then [] else xss[0] + Flatten(xss[1..])
  }

  /** The batches concatenate back to the input. */
  lemma {:induction false} BatchesFlatten<T>(xs: seq<T>, size: nat)
    requires size > 0
    ensures Flatten(Batches(xs, size)) == xs
    decreases |xs|
  {
    if |xs| > size {
      var rest := Batches(xs[size..], size);
      BatchesFlatten(xs[size..], size);
      assert ([xs[..size]] + rest)[1..] == rest;
      assert xs == xs[..size] + xs[size..];
    } else if xs != [] {
      assert [xs][1..] == [];
    }
  }

  /** No batch is empty and none exceeds the size. */
  lemma {:induction false} BatchesSizes<T>(xs: seq<T>, size: nat)
    requires size > 0
    ensures forall b :: b in Batches(xs, size) ==> 1 <= |b| <= size
    decreases |xs|
  {
    if |xs| > size {
      BatchesSizes(xs[size..], size);
    }
  }

  /** All batches but the last are full. */
  lemma {:induction false} BatchesFullButLast<T>(xs: seq<T>, size: nat)
    requires size > 0
    ensures forall k :: 0 <= k < |Batches(xs, size)| - 1 ==> |Batches(xs, size)[k]| == size
    decreases |xs|
  {
    if |xs| > size {
      var rest := Batches(xs[size..], size);
      BatchesFullButLast(xs[size..], size);
      assert forall k :: 1 <= k < |rest| + 1 ==> ([xs[..size]] + rest)[k] == rest[k - 1];
    }
  }

  /**
    The batches concatenate back to the input, none is empty, none exceeds the size, and all but
    the last are full.
  */
  lemma BatchesSpec<T>(xs: seq<T>, size: nat)
    requires size > 0
    ensures Flatten(Batches(xs, size)) == xs
    ensures forall b :: b in Batches(xs, size) ==> 1 <= |b| <= size
    ensures forall k :: 0 <= k < |Batches(xs, size)| - 1 ==> |Batches(xs, size)[k]| == size
  {
    BatchesFlatten(xs, size);
    BatchesSizes(xs, size);
    BatchesFullButLast(xs, size);
  }

  /** 250 posts are submitted as batches of 100, 100 and 50. */
  lemma BatchesExample<T>(xs: seq<T>)
    requires |xs| == 250
    ensures |Batches(xs, 100)| == 3
    ensures |Batches(xs, 100)[0]| == 100 && |Batches(xs, 100)[1]| == 100 && |Batches(xs, 100)[2]| == 50
  {
    BatchesSpec(xs, 100);
    var b := Batches(xs, 100);
    assert b == [xs[..100]] + Batches(xs[100..], 100);
    assert Batches(xs[100..], 100) == [xs[100..][..100]] + Batches(xs[100..][100..], 100);
    assert Batches(xs[100..][100..], 100) == [xs[100..][100..]];
  }

  /** Batches submitted in order until the service rejects one; earlier batches stay applied. */
  function ApplyBatches(t: Table, bs: seq<seq<Entity>>): (Table, Result<(), StoreError>)
    decreases |bs|
  {
    if bs == [] then (t, Success(()))
    else if !ValidTransaction(bs[0]) then (t, Failure(InvalidTransaction))
    else ApplyBatches(UpsertedAll(t, bs[0]), bs[1..])
  }

  lemma ApplyBatchesCons(t: Table, b: seq<Entity>, bs: seq<seq<Entity>>)
    ensures ApplyBatches(t, [b] + bs)
         == if ValidTransaction(b) then ApplyBatches(UpsertedAll(t, b), bs) else (t, Failure(InvalidTransaction))
  {
    assert ([b] + bs)[1..] == bs;
  }

  /** A full batch of 100 taken from the front of the remaining entities. */
  lemma BatchesFull<T>(xs: seq<T>, start: nat, end: nat)
    requires start + 100 == end <= |xs|
    ensures Batches(xs[start..], 100) == [xs[start..end]] + Batches(xs[end..], 100)
  {
    var rest := xs[start..];
    assert rest[..100] == xs[start..end] && rest[100..] == xs[end..];
    if |rest| == 100 {
      assert rest == xs[start..end];
      assert xs[end..] == [] && Batches(xs[end..], 100) == [];
      assert Batches(rest, 100) == [rest];
      assert [rest] + [] == [rest];
    } else {
      assert Batches(rest, 100) == [rest[..100]] + Batches(rest[100..], 100);
    }
  }

  /** Fewer than 100 remaining entities form at most one last batch. */
  lemma BatchesLast<T>(xs: seq<T>, start: nat)
    requires start <= |xs| < start + 100
    ensures Batches(xs[start..], 100) == if start == |xs| then [] else [xs[start..]]
  {
  }

  /** What is left after the loop: no batch, or one short batch. */
  lemma LastBatch(t: Table, xs: seq<Entity>, start: nat, batch: seq<Entity>)
    requires start <= |xs| < start + 100 && batch == xs[start..|xs|]
    ensures ApplyBatches(t, Batches(xs[start..], 100))
         == if batch == [] then (t, Success(())) else ApplyBatches(t, [batch] + [])
  {
    assert batch == xs[start..];
    BatchesLast(xs, start);
    assert [batch] + [] == [batch];
  }

  /** When every batch is accepted, the batches together upsert every entity in order. */
  lemma {:induction false} ApplyValidBatches(t: Table, bs: seq<seq<Entity>>)
    requires forall b :: b in bs ==> ValidTransaction(b)
    ensures ApplyBatches(t, bs) == (UpsertedAll(t, Flatten(bs)), Success(()))
    decreases |bs|
  {
    if bs != [] {
      ApplyValidBatches(UpsertedAll(t, bs[0]), bs[1..]);
      UpsertedAllAppend(t, bs[0], Flatten(bs[1..]));
    }
  }

  /** The first `k` lists, concatenated: the first list, then the next `k - 1`. */
  lemma FlattenPrefix<T>(xss: seq<seq<T>>, k: nat)
    requires k <= |xss|
    ensures k == 0 ==> Flatten(xss[..k]) == []
    ensures k > 0 ==> Flatten(xss[..k]) == xss[0] + Flatten(xss[1..][..k - 1])
  {
    if k > 0 {
      assert xss[..k][1..] == xss[1..][..k - 1];
    }
  }

  /**
    A rejected batch ends the batched write: exactly the batches before it are applied, in order,
    and the call fails.
  */
  lemma {:induction false} ApplyBatchesFirstRejected(t: Table, bs: seq<seq<Entity>>, k: nat)
    requires k < |bs| && !ValidTransaction(bs[k])
    requires forall j :: 0 <= j < k ==> ValidTransaction(bs[j])
    ensures ApplyBatches(t, bs) == (UpsertedAll(t, Flatten(bs[..k])), Failure(InvalidTransaction))
    decreases k
  {
    if k > 0 {
      ApplyBatchesFirstRejected(UpsertedAll(t, bs[0]), bs[1..], k - 1);
      FlattenPrefix(bs, k);
      UpsertedAllAppend(t, bs[0], Flatten(bs[1..][..k - 1]));
    } else {
      FlattenPrefix(bs, 0);
    }
  }

  /**
    `AddRangeAsync` as written rejects two posts by different authors: both land in one batch,
    the service refuses a transaction across partitions, and nothing is stored.
  */
  lemma AddRangeMixedAuthorsFails(t: Table, p: XPost, q: XPost)
    requires p.authorUsername != q.authorUsername
    ensures ApplyBatches(t, Batches(FromDomainAll([p, q]), 100)) == (t, Failure(InvalidTransaction))
  {
    var es := FromDomainAll([p, q]);
    assert Batches(es, 100) == [es];
    assert es[1].partitionKey != es[0].partitionKey;
  }

  // ---------------------------------------------------------------------------------------------

  /** `XPostRepository` over an in-memory `XPosts` table. */
  class XPostRepository {
    var rows: map<Key, Entity>
    var order: seq<Key>

    function State(): Table
      reads this
    {
      Table(rows, order)
    }

    ghost predicate Valid()
      reads this
    {
      WellFormed(State())
    }

    constructor ()
      ensures Valid() && State() == Table(map[], [])
    {
      rows := map[];
      order := [];
    }

    /** One `UpsertReplace` action of a transaction: insert, or replace the row with the same key. */
    method Replace(e: Entity)
      requires Valid()
      modifies this
      ensures Valid() && State() == Upserted(old(State()), e)
    {
      UpsertedSpec(State(), e);
      if KeyOf(e) !in rows {
        order := order + [KeyOf(e)];
      }
      rows := rows[KeyOf(e) := e];
    }

    /** `UpsertEntityAsync` in its default `Merge` mode. */
    method Merge(e: Entity)
      requires Valid()
      modifies this
      ensures Valid() && State() == Merged(old(State()), e)
    {
      MergedSpec(State(), e);
      if KeyOf(e) in rows {
        rows := rows[KeyOf(e) := MergeRow(rows[KeyOf(e)], e)];
      } else {
        order := order + [KeyOf(e)];
        rows := rows[KeyOf(e) := e];
      }
    }

    /**
      `AddAsync`: upserts the post's row under (author, id) in `Merge` mode, so a stored row keeps
      the nullable properties the post leaves null.
    */
    method Add(p: XPost)
      requires Valid()
      modifies this
      ensures Valid() && State() == Merged(old(State()), FromDomain(p))
      ensures (p.authorUsername, p.id) in rows
      ensures (p.authorUsername, p.id) !in old(rows) ==> rows[(p.authorUsername, p.id)] == FromDomain(p)
      ensures (p.authorUsername, p.id) in old(rows) ==>
        rows[(p.authorUsername, p.id)] == MergeRow(old(rows)[(p.authorUsername, p.id)], FromDomain(p))
    {
      Merge(FromDomain(p));
    }

    /** `SubmitTransactionAsync` of upserts: all applied in order, or none when the service refuses. */
    method SubmitTransaction(batch: seq<Entity>) returns (r: Result<(), StoreError>)
      requires Valid()
      modifies this
      ensures Valid()
      ensures ValidTransaction(batch) ==> r == Success(()) && State() == UpsertedAll(old(State()), batch)
      ensures !ValidTransaction(batch) ==> r == Failure(InvalidTransaction) && State() == old(State())
    {
      if !ValidTransaction(batch) {
        return Failure(InvalidTransaction);
      }
      ghost var t0 := State();
      for i := 0 to |batch|
        invariant Valid()
        invariant State() == UpsertedAll(t0, batch[..i])
      {
        UpsertedAllSnoc(t0, batch[..i], batch[i]);
        PrefixSnoc(batch, i);
        Replace(batch[i]);
      }
      WholeSlice(batch);
      r := Success(());
    }

    /**
      `AddRangeAsync` as written: rows are collected into a batch that is submitted whenever it
      holds 100, and once more at the end when not empty. A rejected batch ends the call with the
      earlier batches applied.
    */
    method AddRange(posts: seq<XPost>) returns (r: Result<(), StoreError>)
      requires Valid()
      modifies this
      ensures Valid()
      ensures (State(), r) == ApplyBatches(old(State()), Batches(FromDomainAll(posts), 100))
    {
      r := SubmitInBatches(FromDomainAll(posts));
    }

    /** The loop of `AddRangeAsync`: a batch is submitted whenever it holds 100 rows, and the rest at the end. */
    method SubmitInBatches(entities: seq<Entity>) returns (r: Result<(), StoreError>)
      requires Valid()
      modifies this
      ensures Valid()
      ensures (State(), r) == ApplyBatches(old(State()), Batches(entities, 100))
    {
      var batch: seq<Entity> := [];
      ghost var start := 0;
      ghost var goal := ApplyBatches(old(State()), Batches(entities, 100));
      WholeSlice(entities);
      for i := 0 to |entities|
        invariant Valid()
        invariant 0 <= start <= i && i - start < 100 && batch == entities[start..i]
        invariant goal == ApplyBatches(State(), Batches(entities[start..], 100))
      {
        batch := batch + [entities[i]];
        SliceSnoc(entities, start, i);
        if |batch| == 100 {
          ghost var rest := Batches(entities[i + 1..], 100);
          BatchesFull(entities, start, i + 1);
          r := SubmitFirst(batch, rest, goal);
          if r.Failure? {
            assert goal == (State(), r);
            return;
          }
          start := i + 1;
          batch := [];
        }
      }
      LastBatch(State(), entities, start, batch);
      if |batch| > 0 {
        r := SubmitFirst(batch, [], goal);
        assert ApplyBatches(State(), []) == (State(), Success(()));
      } else {
        r := Success(());
      }
    }

    /**
      `AddRangeAsync` as evidently intended: the batch is also submitted before it would mix two
      authors or repeat a row key, so the service accepts every batch and the call stores every
      post, as one upsert after the other would.
    */
    method AddRangeByPartition(posts: seq<XPost>) returns (r: Result<(), StoreError>)
      requires Valid()
      modifies this
      ensures Valid()
      ensures r == Success(()) && State() == UpsertedAll(old(State()), FromDomainAll(posts))
    {
      r := SubmitByPartition(FromDomainAll(posts));
    }

    /**
      The corrected loop: the batch is submitted when it is full, and also before a row of another
      partition or a row key it already holds.
    */
    method SubmitByPartition(entities: seq<Entity>) returns (r: Result<(), StoreError>)
      requires Valid()
      modifies this
      ensures Valid()
      ensures r == Success(()) && State() == UpsertedAll(old(State()), entities)
    {
      var batch: seq<Entity> := [];
      ghost var start := 0;
      for i := 0 to |entities|
        invariant Valid()
        invariant 0 <= start <= i && batch == entities[start..i]
        invariant State() == UpsertedAll(old(State()), entities[..start])
        invariant batch == [] || ValidTransaction(batch)
      {
        batch, start := Place(batch, old(State()), entities, start, i);
      }
      if |batch| > 0 {
        Commit(batch, old(State()), entities, start, |entities|);
      }
      WholeSlice(entities);
      r := Success(());
    }

    /** Submits the first of the remaining batches: a rejected batch ends the run with the table as it was. */
    method SubmitFirst(batch: seq<Entity>, ghost rest: seq<seq<Entity>>, ghost goal: (Table, Result<(), StoreError>))
      returns (r: Result<(), StoreError>)
      requires Valid() && goal == ApplyBatches(State(), [batch] + rest)
      modifies this
      ensures Valid()
      ensures r.Failure? ==> goal == (State(), r)
      ensures r.Success? ==> r == Success(()) && goal == ApplyBatches(State(), rest)
    {
      ApplyBatchesCons(State(), batch, rest);
      r := SubmitTransaction(batch);
    }

    /**
      One step of the corrected loop: the pending batch is submitted first when the next row would
      overfill it, mix partitions or repeat a row key, then the row joins the batch.
    */
    method Place(batch: seq<Entity>, ghost t0: Table, entities: seq<Entity>, ghost start: nat, i: nat)
      returns (batch': seq<Entity>, ghost start': nat)
      requires Valid() && start <= i < |entities| && batch == entities[start..i]
      requires batch == [] || ValidTransaction(batch)
      requires State() == UpsertedAll(t0, entities[..start])
      modifies this
      ensures Valid() && start' <= i + 1 && batch' == entities[start'..i + 1] && ValidTransaction(batch')
      ensures State() == UpsertedAll(t0, entities[..start'])
    {
      var e := entities[i];
      if |batch| > 0 && (|batch| == 100 || e.partitionKey != batch[0].partitionKey || HasRowKey(batch, e.rowKey)) {
        Commit(batch, t0, entities, start, i);
        GrowBatch([], e);
        SliceSnoc(entities, i, i);
        batch', start' := [e], i;
      } else {
        GrowBatch(batch, e);
        SliceSnoc(entities, start, i);
        batch', start' := batch + [e], start;
      }
    }

    /** Submits a batch the service accepts; the rows of `entities` before `end` are then all upserted on `t0`. */
    method Commit(batch: seq<Entity>, ghost t0: Table, ghost entities: seq<Entity>, ghost start: nat, ghost end: nat)
      requires Valid() && ValidTransaction(batch)
      requires start <= end <= |entities| && batch == entities[start..end]
      requires State() == UpsertedAll(t0, entities[..start])
      modifies this
      ensures Valid() && State() == UpsertedAll(t0, entities[..end])
    {
      UpsertedAllAppend(t0, entities[..start], batch);
      SliceJoin(entities, start, end);
      var res := SubmitTransaction(batch);
    }

    /** The rows a query matches, in scan order, converted. */
    method Scan(q: Query) returns (posts: seq<XPost>)
      requires Valid()
      ensures posts == Select(State(), q)
    {
      posts := [];
      for i := 0 to |order|
        invariant posts == ToDomainAll(Filter(RowsOf(rows, order[..i]), q))
      {
        var e := rows[order[i]];
        ScanStep(rows, order, i, q);
        if Matches(q, e) {
          posts := posts + [ToDomain(e)];
        }
      }
      WholeSlice(order);
      assert Scanned(State()) == RowsOf(rows, order);
    }

    /** `GetByIdAsync`: the first scanned row with the row key, converted, or none. */
    method GetById(id: string) returns (r: Option<XPost>)
      requires Valid()
      ensures r == FindById(State(), id)
    {
      var q := RowKeyIs(id);
      for i := 0 to |order|
        invariant Filter(RowsOf(rows, order[..i]), q) == []
      {
        var e := rows[order[i]];
        RowsOfSnoc(rows, order, i);
        FilterSnoc(RowsOf(rows, order[..i]), e, q);
        if e.rowKey == id {
          RowsOfSplit(rows, order, i);
          FilterFirst(RowsOf(rows, order[..i]), e, RowsOf(rows, order[i + 1..]), q);
          return Some(ToDomain(e));
        }
      }
      WholeSlice(order);
      return None;
    }

    /** `GetByAuthorAsync`. */
    method GetByAuthor(username: string, range: TimeRange) returns (posts: seq<XPost>)
      requires Valid()
      ensures posts == Select(State(), ByAuthor(username, range))
    {
      posts := Scan(ByAuthor(username, range));
    }

    /** `GetByCashtagsAsync`. */
    method GetByCashtags(cashtags: seq<string>, range: TimeRange) returns (posts: seq<XPost>)
      requires Valid()
      ensures posts == Select(State(), ByCashtags(cashtags, range))
    {
      posts := Scan(ByCashtags(cashtags, range));
    }

    /** `GetHighEngagementPostsAsync`. */
    method GetHighEngagement(minScore: real, range: TimeRange) returns (posts: seq<XPost>)
      requires Valid()
      ensures posts == Select(State(), ByScore(minScore, range))
    {
      posts := Scan(ByScore(minScore, range));
    }
  }
}
