/** The content-selection filter built per subscription: an ordered list of AND-ed
    clauses (the `where` slice) and a parallel list of their parameters (the `param`
    slice), in the server's form and in the prototype's form. */
module Criteria {
  import opened Base
  import PgArray

  /** A subscriber row: optional display name, email, the watermark `Published` and
      the four preference arrays. */
  datatype Subscription = Subscription(
    name: Option<string>,
    email: string,
    published: int,
    preferredCompany: seq<Int64>,
    preferredCompanySize: seq<Int64>,
    preferredJob: seq<Int64>,
    preferredSkill: seq<Int64>)

  /** One placeholder clause of the WHERE text. */
  datatype Clause =
    | PublishedAtLeast   // `? <= item_published`
    | FeedIn             // `feed_id IN ?`
    | SizeIn             // `company_size IN ?`
    | JobOverlap         // `job_tags_id_arr && ?`
    | SkillOverlap       // `skill_tags_id_arr && ?`

  /** The value bound to a clause's placeholder. */
  datatype Param =
    | TimeParam(time: int)
    | IdList(ids: seq<Int64>)
    | ArrayText(literal: string)

  datatype Query = Query(where: seq<Clause>, params: seq<Param>)

  /** Position of a clause in the fixed order in which the builder considers it. */
  function Rank(c: Clause): nat
  {
    match c
    case PublishedAtLeast => 0
    case FeedIn => 1
    case SizeIn => 2
    case JobOverlap => 3
    case SkillOverlap => 4
  }

  /** The preference array that switches an optional clause on. */
  function PreferenceOf(sub: Subscription, c: Clause): seq<Int64>
  {
    match c
    case PublishedAtLeast => []
    case FeedIn => sub.preferredCompany
    case SizeIn => sub.preferredCompanySize
    case JobOverlap => sub.preferredJob
    case SkillOverlap => sub.preferredSkill
  }

  /** The parameter each clause is paired with: the id slices themselves for `IN`,
      an array literal for the overlap operator. */
  function ParamFor(sub: Subscription, c: Clause): Param
  {
    match c
    case PublishedAtLeast => TimeParam(sub.published)
    case FeedIn => IdList(sub.preferredCompany)
    case SizeIn => IdList(sub.preferredCompanySize)
    case JobOverlap => ArrayText(PgArray.Format(sub.preferredJob))
    case SkillOverlap => ArrayText(PgArray.Format(sub.preferredSkill))
  }

  /** How many of the four preference arrays are non-empty. */
  function NonEmptyPreferences(sub: Subscription): nat
  {
    (if |sub.preferredCompany| > 0 then 1 else 0)
    + (if |sub.preferredCompanySize| > 0 then 1 else 0)
    + (if |sub.preferredJob| > 0 then 1 else 0)
    + (if |sub.preferredSkill| > 0 then 1 else 0)
  }

  /** The shape both builders guarantee: parallel lists, clauses in the fixed order
      without repetition, each parameter the one belonging to its clause, and an
      optional clause present exactly when its preference array is non-empty. */
  predicate Describes(q: Query, sub: Subscription)
  {
    && |q.where| == |q.params|
    && Ascending(q.where)
    && (forall i :: 0 <= i < |q.where| ==> q.params[i] == ParamFor(sub, q.where[i]))
    && (forall c :: c != PublishedAtLeast ==> (c in q.where <==> |PreferenceOf(sub, c)| > 0))
  }

  /** `if cond { where = append(where, c); param = append(param, p) }` */
  function AppendIf(q: Query, cond: bool, c: Clause, p: Param): Query
  {
    if cond then Query(q.where + [c], q.params + [p]) else q
  }

  /** The four optional clauses, appended in the order company, company size, job,
      skill. */
  function AddPreferences(q: Query, sub: Subscription): Query
  {
    var q1 := AppendIf(q, |sub.preferredCompany| > 0, FeedIn, ParamFor(sub, FeedIn));
    var q2 := AppendIf(q1, |sub.preferredCompanySize| > 0, SizeIn, ParamFor(sub, SizeIn));
    var q3 := AppendIf(q2, |sub.preferredJob| > 0, JobOverlap, ParamFor(sub, JobOverlap));
    AppendIf(q3, |sub.preferredSkill| > 0, SkillOverlap, ParamFor(sub, SkillOverlap))
  }

  /** The optional clauses in the order the builders consider them. */
  const OptionalOrder: seq<Clause> := [FeedIn, SizeIn, JobOverlap, SkillOverlap]

  /** The clause `c` alone when `cond` holds, nothing otherwise. */
  function When(cond: bool, c: Clause): seq<Clause>
  {
    if cond then [c] else []
  }

  /** The clauses of `cs`, in order, whose preference array is non-empty. */
  function SwitchedOn(sub: Subscription, cs: seq<Clause>): seq<Clause>
  {
    if |cs| == 0 then [] else When(|PreferenceOf(sub, cs[0])| > 0, cs[0]) + SwitchedOn(sub, cs[1..])
  }

  /** Each clause's own parameter, in the clauses' order. */
  function ParamsFor(sub: Subscription, cs: seq<Clause>): (ps: seq<Param>)
    ensures |ps| == |cs|
    ensures forall i :: 0 <= i < |cs| ==> ps[i] == ParamFor(sub, cs[i])
  {
    if |cs| == 0 then [] else [ParamFor(sub, cs[0])] + ParamsFor(sub, cs[1..])
  }

  /** Each clause ranks strictly below the next one, so no clause repeats and the
      fixed order is kept. */
  predicate Ascending(cs: seq<Clause>)
  {
    |cs| <= 1 || (Rank(cs[0]) < Rank(cs[1]) && Ascending(cs[1..]))
  }

  /** Ascending order compares every pair, not just neighbours. */
  lemma {:induction false} AscendingPairs(cs: seq<Clause>, i: nat, j: nat)
    requires Ascending(cs)
    requires i < j < |cs|
    ensures Rank(cs[i]) < Rank(cs[j])
  {
    if i == 0 {
      if j > 1 {
        AscendingPairs(cs[1..], 0, j - 1);
      }
    } else {
      AscendingPairs(cs[1..], i - 1, j - 1);
    }
  }

  /** Clauses in ascending order are pairwise distinct. */
  lemma AscendingDistinct(cs: seq<Clause>)
    requires Ascending(cs)
    ensures forall i, j :: 0 <= i < j < |cs| ==> cs[i] != cs[j]
  {
    forall i, j | 0 <= i < j < |cs|
      ensures cs[i] != cs[j]
    {
      AscendingPairs(cs, i, j);
    }
  }

  /** A clause is switched on exactly when it is offered and its array is non-empty. */
  lemma {:induction false} SwitchedOnMember(sub: Subscription, cs: seq<Clause>, c: Clause)
    ensures c in SwitchedOn(sub, cs) <==> c in cs && |PreferenceOf(sub, c)| > 0
  {
    if |cs| > 0 {
      SwitchedOnMember(sub, cs[1..], c);
      assert c in cs <==> c == cs[0] || c in cs[1..];
    }
  }

  /** Dropping clauses from an ascending list keeps it ascending. */
  lemma {:induction false} SwitchedOnAscending(sub: Subscription, cs: seq<Clause>)
    requires Ascending(cs)
    ensures Ascending(SwitchedOn(sub, cs))
    ensures |cs| > 0 && |SwitchedOn(sub, cs)| > 0 ==> Rank(SwitchedOn(sub, cs)[0]) >= Rank(cs[0])
  {
    if |cs| > 0 {
      var rest := SwitchedOn(sub, cs[1..]);
      SwitchedOnAscending(sub, cs[1..]);
      if |PreferenceOf(sub, cs[0])| > 0 {
        assert SwitchedOn(sub, cs) == [cs[0]] + rest;
        assert ([cs[0]] + rest)[1..] == rest;
      } else {
        assert SwitchedOn(sub, cs) == rest;
      }
    }
  }

  lemma ParamsForAppend(sub: Subscription, a: seq<Clause>, b: seq<Clause>)
    ensures ParamsFor(sub, a + b) == ParamsFor(sub, a) + ParamsFor(sub, b)
  {
  }

  /** One conditional append is a concatenation. */
  lemma AppendIfConcat(q: Query, sub: Subscription, cond: bool, c: Clause)
    ensures AppendIf(q, cond, c, ParamFor(sub, c))
      == Query(q.where + When(cond, c), q.params + ParamsFor(sub, When(cond, c)))
  {
    if !cond {
      assert q.where + [] == q.where;
      assert q.params + [] == q.params;
    }
  }

  /** The four conditional appends amount to appending the switched-on clauses and
      their parameters to the query. */
  lemma AddPreferencesAppends(q: Query, sub: Subscription)
    ensures AddPreferences(q, sub).where == q.where + SwitchedOn(sub, OptionalOrder)
    ensures AddPreferences(q, sub).params == q.params + ParamsFor(sub, SwitchedOn(sub, OptionalOrder))
  {
    var w1 := When(|sub.preferredCompany| > 0, FeedIn);
    var w2 := When(|sub.preferredCompanySize| > 0, SizeIn);
    var w3 := When(|sub.preferredJob| > 0, JobOverlap);
    var w4 := When(|sub.preferredSkill| > 0, SkillOverlap);
    var q1 := AppendIf(q, |sub.preferredCompany| > 0, FeedIn, ParamFor(sub, FeedIn));
    var q2 := AppendIf(q1, |sub.preferredCompanySize| > 0, SizeIn, ParamFor(sub, SizeIn));
    var q3 := AppendIf(q2, |sub.preferredJob| > 0, JobOverlap, ParamFor(sub, JobOverlap));
    var q4 := AppendIf(q3, |sub.preferredSkill| > 0, SkillOverlap, ParamFor(sub, SkillOverlap));
    assert AddPreferences(q, sub) == q4;
    AppendIfConcat(q, sub, |sub.preferredCompany| > 0, FeedIn);
    AppendIfConcat(q1, sub, |sub.preferredCompanySize| > 0, SizeIn);
    AppendIfConcat(q2, sub, |sub.preferredJob| > 0, JobOverlap);
    AppendIfConcat(q3, sub, |sub.preferredSkill| > 0, SkillOverlap);
    SwitchedOnOptional(sub);
    ConcatFour(q.where, w1, w2, w3, w4);
    ParamsConcatFour(sub, q.params, w1, w2, w3, w4);
  }

  lemma ConcatFour<T>(a: seq<T>, b1: seq<T>, b2: seq<T>, b3: seq<T>, b4: seq<T>)
    ensures a + b1 + b2 + b3 + b4 == a + (b1 + b2 + b3 + b4)
  {
  }

  lemma ParamsConcatFour(sub: Subscription, a: seq<Param>, w1: seq<Clause>, w2: seq<Clause>, w3: seq<Clause>, w4: seq<Clause>)
    ensures a + ParamsFor(sub, w1) + ParamsFor(sub, w2) + ParamsFor(sub, w3) + ParamsFor(sub, w4)
         == a + ParamsFor(sub, w1 + w2 + w3 + w4)
  {
    var p1, p2, p3, p4 := ParamsFor(sub, w1), ParamsFor(sub, w2), ParamsFor(sub, w3), ParamsFor(sub, w4);
    ParamsForAppend(sub, w1, w2);
    ParamsForAppend(sub, w1 + w2, w3);
    ParamsForAppend(sub, w1 + w2 + w3, w4);
    assert ParamsFor(sub, w1 + w2 + w3 + w4) == p1 + p2 + p3 + p4;
    ConcatFour(a, p1, p2, p3, p4);
  }

  /** The optional clauses switched on, spelled out. */
  lemma SwitchedOnOptional(sub: Subscription)
    ensures SwitchedOn(sub, OptionalOrder)
      == When(|sub.preferredCompany| > 0, FeedIn) + When(|sub.preferredCompanySize| > 0, SizeIn)
       + When(|sub.preferredJob| > 0, JobOverlap) + When(|sub.preferredSkill| > 0, SkillOverlap)
  {
    var o1 := [SizeIn, JobOverlap, SkillOverlap];
    var o2 := [JobOverlap, SkillOverlap];
    var o3 := [SkillOverlap];
    assert OptionalOrder[1..] == o1 && o1[1..] == o2 && o2[1..] == o3 && o3[1..] == [];
    assert SwitchedOn(sub, o3[1..]) == [];
    var s3 := SwitchedOn(sub, o3);
    assert s3 == When(|sub.preferredSkill| > 0, SkillOverlap) + [];
    var s2 := SwitchedOn(sub, o2);
    assert s2 == When(|sub.preferredJob| > 0, JobOverlap) + s3;
    var s1 := SwitchedOn(sub, o1);
    assert s1 == When(|sub.preferredCompanySize| > 0, SizeIn) + s2;
    assert SwitchedOn(sub, OptionalOrder) == When(|sub.preferredCompany| > 0, FeedIn) + s1;
  }

  /** The switched-on clauses: one per non-empty array, in the fixed order, never the
      watermark clause. */
  lemma PreferenceClausesShape(sub: Subscription)
    ensures |SwitchedOn(sub, OptionalOrder)| == NonEmptyPreferences(sub)
    ensures Ascending(SwitchedOn(sub, OptionalOrder))
    ensures forall c :: c in SwitchedOn(sub, OptionalOrder) <==> c != PublishedAtLeast && |PreferenceOf(sub, c)| > 0
    ensures forall i :: 0 <= i < |SwitchedOn(sub, OptionalOrder)| ==> Rank(SwitchedOn(sub, OptionalOrder)[i]) >= 1
  {
    var on := SwitchedOn(sub, OptionalOrder);
    SwitchedOnOptional(sub);
    SwitchedOnAscending(sub, OptionalOrder);
    forall c
      ensures c in on <==> c != PublishedAtLeast && |PreferenceOf(sub, c)| > 0
    {
      SwitchedOnMember(sub, OptionalOrder, c);
    }
    forall i | 0 <= i < |on|
      ensures Rank(on[i]) >= 1
    {
      SwitchedOnMember(sub, OptionalOrder, on[i]);
    }
  }

  /** Server builder (`publish`): the watermark clause first, then the preferences. */
  function Build(sub: Subscription): (q: Query)
    ensures Describes(q, sub)
    ensures |q.where| == |q.params| == 1 + NonEmptyPreferences(sub)
    ensures q.where[0] == PublishedAtLeast && q.params[0] == TimeParam(sub.published)
    ensures forall i, j :: 0 <= i < j < |q.where| ==> q.where[i] != q.where[j]
  {
    var q0 := Query([PublishedAtLeast], [TimeParam(sub.published)]);
    AddPreferencesAppends(q0, sub);
    PreferenceClausesShape(sub);
    var q := AddPreferences(q0, sub);
    var on := SwitchedOn(sub, OptionalOrder);
    assert q.where[1..] == on;
    assert forall c :: c in q.where <==> c == PublishedAtLeast || c in on;
    AscendingDistinct(q.where);
    q
  }

  /** Prototype builder (`main.go`): the preferences only, no watermark clause. */
  function BuildPrototype(sub: Subscription): (q: Query)
    ensures Describes(q, sub)
    ensures |q.where| == |q.params| == NonEmptyPreferences(sub)
    ensures PublishedAtLeast !in q.where
    ensures NonEmptyPreferences(sub) == 0 ==> q == Query([], [])
    ensures forall i, j :: 0 <= i < j < |q.where| ==> q.where[i] != q.where[j]
  {
    var q0 := Query([], []);
    AddPreferencesAppends(q0, sub);
    PreferenceClausesShape(sub);
    var q := AddPreferences(q0, sub);
    assert q.where == SwitchedOn(sub, OptionalOrder);
    AscendingDistinct(q.where);
    q
  }

  /** The two builders differ exactly by the leading watermark clause. */
  lemma BuildExtendsPrototype(sub: Subscription)
    ensures Build(sub).where == [PublishedAtLeast] + BuildPrototype(sub).where
    ensures Build(sub).params == [TimeParam(sub.published)] + BuildPrototype(sub).params
  {
    var q0 := Query([PublishedAtLeast], [TimeParam(sub.published)]);
    var p0 := Query([], []);
    AddPreferencesAppends(q0, sub);
    AddPreferencesAppends(p0, sub);
    var on := SwitchedOn(sub, OptionalOrder);
    assert Build(sub) == AddPreferences(q0, sub);
    assert BuildPrototype(sub) == AddPreferences(p0, sub);
    assert p0.where + on == on;
    assert p0.params + ParamsFor(sub, on) == ParamsFor(sub, on);
  }
}
