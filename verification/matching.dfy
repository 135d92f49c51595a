/** What a built query means for one feed item: the database keeps an item when
    every clause holds of it with its parameter bound. Compared with the selection
    the subscriber asked for, stated directly over the preference arrays. */
module Matching {
  import opened Base
  import opened Criteria
  import PgArray

  /** The columns of a feed item the clauses read. */
  datatype Item = Item(
    published: int,
    feedId: Int64,
    companySize: Int64,
    jobTags: seq<Int64>,
    skillTags: seq<Int64>)

  /** PostgreSQL's `&&` on arrays: some element is common to both. */
  predicate Overlaps(a: seq<int>, b: seq<int>)
  {
    exists x :: x in a && x in b
  }

  /** One clause with its bound parameter, evaluated on an item; the overlap operand
      is the array literal as PostgreSQL reads it. A clause paired with a parameter
      of the wrong kind holds of nothing. */
  predicate Holds(item: Item, c: Clause, p: Param)
  {
    match (c, p)
    case (PublishedAtLeast, TimeParam(t)) => t <= item.published
    case (FeedIn, IdList(ids)) => item.feedId in ids
    case (SizeIn, IdList(ids)) => item.companySize in ids
    case (JobOverlap, ArrayText(lit)) =>
      (match PgArray.Parse(lit) case Some(tags) => Overlaps(tags, item.jobTags) case None => false)
    case (SkillOverlap, ArrayText(lit)) =>
      (match PgArray.Parse(lit) case Some(tags) => Overlaps(tags, item.skillTags) case None => false)
    case _ => false
  }

  /** `strings.Join(where, " AND ")` with `param...` bound: every clause holds. An
      empty clause list selects everything. */
  predicate Selects(q: Query, item: Item)
  {
    |q.where| == |q.params| && forall i :: 0 <= i < |q.where| ==> Holds(item, q.where[i], q.params[i])
  }

  /** The items a subscriber's preferences ask for: from each preferred company, of
      each preferred company size, sharing a job tag and sharing a skill tag, each
      condition applying only when its array is non-empty. */
  predicate WantedByPreferences(sub: Subscription, item: Item)
  {
    && (|sub.preferredCompany| == 0 || item.feedId in sub.preferredCompany)
    && (|sub.preferredCompanySize| == 0 || item.companySize in sub.preferredCompanySize)
    && (|sub.preferredJob| == 0 || Overlaps(sub.preferredJob, item.jobTags))
    && (|sub.preferredSkill| == 0 || Overlaps(sub.preferredSkill, item.skillTags))
  }

  /** ...and published no earlier than the subscriber's watermark. */
  predicate Wanted(sub: Subscription, item: Item)
  {
    sub.published <= item.published && WantedByPreferences(sub, item)
  }

  /** A clause evaluated with the parameter the builders pair it with. */
  lemma HoldsWithOwnParam(sub: Subscription, item: Item)
    ensures Holds(item, PublishedAtLeast, ParamFor(sub, PublishedAtLeast)) <==> sub.published <= item.published
    ensures Holds(item, FeedIn, ParamFor(sub, FeedIn)) <==> item.feedId in sub.preferredCompany
    ensures Holds(item, SizeIn, ParamFor(sub, SizeIn)) <==> item.companySize in sub.preferredCompanySize
    ensures Holds(item, JobOverlap, ParamFor(sub, JobOverlap)) <==> Overlaps(sub.preferredJob, item.jobTags)
    ensures Holds(item, SkillOverlap, ParamFor(sub, SkillOverlap)) <==> Overlaps(sub.preferredSkill, item.skillTags)
  {
    PgArray.ParseFormat(sub.preferredJob);
    PgArray.ParseFormat(sub.preferredSkill);
  }

  /** Clause `c`, if the query has it, holds of the item. */
  predicate ClauseOk(q: Query, sub: Subscription, item: Item, c: Clause)
  {
    c in q.where ==> Holds(item, c, ParamFor(sub, c))
  }

  /** For a query of the builders' shape, selection is clause-by-clause. */
  lemma SelectsByClause(q: Query, sub: Subscription, item: Item)
    requires Describes(q, sub)
    ensures Selects(q, item) <==>
      && ClauseOk(q, sub, item, PublishedAtLeast)
      && ClauseOk(q, sub, item, FeedIn)
      && ClauseOk(q, sub, item, SizeIn)
      && ClauseOk(q, sub, item, JobOverlap)
      && ClauseOk(q, sub, item, SkillOverlap)
  {
    if Selects(q, item) {
      forall c | c in q.where
        ensures Holds(item, c, ParamFor(sub, c))
      {
        var i :| 0 <= i < |q.where| && q.where[i] == c;
      }
    } else {
      var i :| 0 <= i < |q.where| && !Holds(item, q.where[i], q.params[i]);
      assert !ClauseOk(q, sub, item, q.where[i]);
    }
  }

  /** An optional clause constrains an item only when its array is non-empty. */
  lemma OptionalClauseOk(q: Query, sub: Subscription, item: Item, c: Clause)
    requires Describes(q, sub)
    requires c != PublishedAtLeast
    ensures ClauseOk(q, sub, item, c) <==> (|PreferenceOf(sub, c)| == 0 || Holds(item, c, ParamFor(sub, c)))
  {
  }

  /** Any query of the builders' shape selects the items the preferences ask for,
      restricted by the watermark exactly when it has the watermark clause. */
  lemma DescribedSelects(q: Query, sub: Subscription, item: Item)
    requires Describes(q, sub)
    ensures Selects(q, item) <==>
      (PublishedAtLeast in q.where ==> sub.published <= item.published) && WantedByPreferences(sub, item)
  {
    SelectsByClause(q, sub, item);
    HoldsWithOwnParam(sub, item);
    OptionalClauseOk(q, sub, item, FeedIn);
    OptionalClauseOk(q, sub, item, SizeIn);
    OptionalClauseOk(q, sub, item, JobOverlap);
    OptionalClauseOk(q, sub, item, SkillOverlap);
  }

  /** The server's query selects exactly the wanted items. */
  lemma BuildSelectsWanted(sub: Subscription, item: Item)
    ensures Selects(Build(sub), item) <==> Wanted(sub, item)
  {
    DescribedSelects(Build(sub), sub, item);
  }

  /** The prototype's query ignores the watermark and selects exactly the items the
      preferences ask for; with no preferences it selects every item. */
  lemma PrototypeSelectsPreferred(sub: Subscription, item: Item)
    ensures Selects(BuildPrototype(sub), item) <==> WantedByPreferences(sub, item)
  {
    DescribedSelects(BuildPrototype(sub), sub, item);
  }
}
