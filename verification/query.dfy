/**
 * The query builder (ecs/src/query.rs): an ordered list of component types,
 * built one type at a time.
 */
module Queries {
  import opened Archetypes

  datatype QueryBuilder = QueryBuilder(components: seq<TypeTok>)

  datatype Query = Query(components: seq<TypeTok>)

  /** `Query::builder` and `QueryBuilder::new`: an empty type list. */
  function NewBuilder(): (b: QueryBuilder)
    ensures |b.components| == 0
  {
    QueryBuilder([])
  }

  /** `with::<T>`: `t` goes at the end; duplicates and earlier order are kept. */
  function With(b: QueryBuilder, t: TypeTok): (r: QueryBuilder)
    ensures |r.components| == |b.components| + 1
    ensures r.components[|b.components|] == t
    ensures forall k :: 0 <= k < |b.components| ==> r.components[k] == b.components[k]
  {
    QueryBuilder(b.components + [t])
  }

  /** `build`: the query holds the builder's list as it was. */
  function Build(b: QueryBuilder): (q: Query)
    ensures q.components == b.components
  {
    Query(b.components)
  }

  /** Calls `with` once per type of `ts`, in order. */
  function WithAll(b: QueryBuilder, ts: seq<TypeTok>): QueryBuilder
    decreases |ts|
  {
    if |ts| == 0 then b else WithAll(With(b, ts[0]), ts[1..])
  }

  /** A chain of `with` calls lists exactly the chained types, in call order. */
  lemma {:induction false} WithAllLists(b: QueryBuilder, ts: seq<TypeTok>)
    ensures Build(WithAll(b, ts)).components == b.components + ts
    decreases |ts|
  {
    if |ts| > 0 {
      WithAllLists(With(b, ts[0]), ts[1..]);
      assert b.components + [ts[0]] + ts[1..] == b.components + ts;
    }
  }

  /** `builder().with::<A>().with::<B>().build()` lists exactly `[A, B]`. */
  lemma TwoTypeQuery(a: TypeTok, b: TypeTok)
    ensures Build(With(With(NewBuilder(), a), b)).components == [a, b]
  {
    WithAllLists(NewBuilder(), [a, b]);
  }
}
