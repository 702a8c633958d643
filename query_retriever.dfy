/**
 * retriever/query_retriever.py: top-k retrieval with the optional
 * clause-number filter applied to an over-retrieved candidate list.
 */
module QueryRetriever {
  import opened Text
  import opened Values
  import opened GenerateEmbeddings

  /** One row of a FAISS search result: a distance and a vector id (-1 pads a short result). */
  datatype Hit = Hit(distance: Score, id: int)

  /**
   * Embeds the query and searches the index: returns up to `searchK`
   * hits, nearest first.
   */
  type Searcher = (Index, string, int) -> seq<Hit>

  const DefaultSearchK: int := 50

  /** `if clause_number:` — a missing or empty clause number disables the filter. */
  predicate FilterActive(clauseNumber: Option<string>) {
    clauseNumber.Some? && clauseNumber.value != ""
  }

  /** The chunk's stored clause number is set and equals the requested one, ignoring surrounding whitespace. */
  predicate ClauseMatches(meta: Dict, clauseNumber: string) {
    var metaClause := Get(meta, "clause_number");
    Truthy(metaClause) && Strip(Str(metaClause)) == Strip(clauseNumber)
  }

  /** A hit survives when its id names a metadata entry and, if filtering, that entry's clause matches. */
  predicate Keep(hit: Hit, metadata: seq<Dict>, clauseNumber: Option<string>) {
    && 0 <= hit.id < |metadata|
    && (FilterActive(clauseNumber) ==> ClauseMatches(metadata[hit.id], clauseNumber.value))
  }

  /** The hits that survive, in search order. */
  function KeptHits(hits: seq<Hit>, metadata: seq<Dict>, clauseNumber: Option<string>): (kept: seq<Hit>)
    ensures |kept| <= |hits|
    ensures forall h :: h in kept <==> h in hits && Keep(h, metadata, clauseNumber)
  {
    if hits == [] then []
    else
      var last := hits[|hits| - 1];
      KeptHits(hits[..|hits| - 1], metadata, clauseNumber)
        + (if Keep(last, metadata, clauseNumber) then [last] else [])
  }

  /** The dict appended for a surviving hit. */
  function ResultRecord(meta: Dict, distance: Score): (r: Dict)
    ensures r.Keys == {"chunk", "source", "page", "clause_number", "score"}
    ensures r["chunk"] == Get(meta, "chunk") && r["source"] == Get(meta, "source")
    ensures r["page"] == Get(meta, "page") && r["clause_number"] == Get(meta, "clause_number")
    ensures r["score"] == PyFloat(distance)
  {
    map["chunk" := Get(meta, "chunk"), "source" := Get(meta, "source"), "page" := Get(meta, "page"),
        "clause_number" := Get(meta, "clause_number"), "score" := PyFloat(distance)]
  }

  function RecordsFor(kept: seq<Hit>, metadata: seq<Dict>): (records: seq<Dict>)
    requires forall h :: h in kept ==> 0 <= h.id < |metadata|
    ensures |records| == |kept|
    ensures forall i :: 0 <= i < |kept| ==> records[i] == ResultRecord(metadata[kept[i].id], kept[i].distance)
  {
    seq(|kept|, i requires 0 <= i < |kept| => ResultRecord(metadata[kept[i].id], kept[i].distance))
  }

  /** The record of every surviving hit, in search order. */
  function Survivors(hits: seq<Hit>, metadata: seq<Dict>, clauseNumber: Option<string>): seq<Dict> {
    RecordsFor(KeptHits(hits, metadata, clauseNumber), metadata)
  }

  function Take<T>(s: seq<T>, n: int): (r: seq<T>)
    ensures |r| == if n < 0 then 0 else Min(n, |s|)
    ensures r <= s
  {
    if n <= 0 then [] else s[..Min(n, |s|)]
  }

  /**
   * What `retrieve_top_k_chunks` returns: nothing for a blank query,
   * otherwise the first `max(k, 1)` survivors, since the length test comes
   * after each append.
   */
  function Retrieved(query: string, index: Index, metadata: seq<Dict>, k: int,
                     clauseNumber: Option<string>, searchK: int, search: Searcher): seq<Dict>
  {
    var q := Strip(query);
    if q == [] then []
    else Take(Survivors(search(index, q, searchK), metadata, clauseNumber), if k < 1 then 1 else k)
  }

  method RetrieveTopKChunks(query: string, index: Index, metadata: seq<Dict>, k: int,
                            clauseNumber: Option<string>, searchK: int, search: Searcher)
    returns (results: seq<Dict>)
    ensures results == Retrieved(query, index, metadata, k, clauseNumber, searchK, search)
  {
    var q := Strip(query);
    if q == [] {
      return [];
    }
    var hits := search(index, q, searchK);
    results := CollectSurvivors(hits, metadata, k, clauseNumber);
  }

  /**
   * The loop over the hits: each survivor's record is appended, and the loop
   * stops once there are `k` of them, so at least one is kept whatever `k` is.
   */
  method CollectSurvivors(hits: seq<Hit>, metadata: seq<Dict>, k: int, clauseNumber: Option<string>)
    returns (results: seq<Dict>)
    ensures results == Take(Survivors(hits, metadata, clauseNumber), if k < 1 then 1 else k)
  {
    ghost var limit := if k < 1 then 1 else k;
    results := [];
    var i := 0;
    while i < |hits|
      invariant 0 <= i <= |hits|
      invariant results == Survivors(hits[..i], metadata, clauseNumber)
      invariant |results| < limit
    {
      var hit := hits[i];
      SurvivorsStep(hits, i, metadata, clauseNumber);
      var keep := ShouldKeep(hit, metadata, clauseNumber);
      i := i + 1;
      if keep {
        results := results + [ResultRecord(metadata[hit.id], hit.distance)];
        if |results| >= k {
          SurvivorsPrefix(hits, i, metadata, clauseNumber);
          TakePrefix(results, Survivors(hits, metadata, clauseNumber), limit);
          return;
        }
      }
    }
    assert hits[..i] == hits;
    TakeShort(results, limit);
  }

  /** Taking `n` items from a sequence that starts with `n` items `pre` gives `pre`. */
  lemma TakePrefix<T>(pre: seq<T>, s: seq<T>, n: int)
    requires pre <= s && |pre| == n
    ensures Take(s, n) == pre
  {
  }

  /** Taking more items than a sequence holds gives the whole sequence. */
  lemma TakeShort<T>(s: seq<T>, n: int)
    requires |s| < n
    ensures Take(s, n) == s
  {
  }

  /** The tests applied to one hit before its record is appended. */
  method ShouldKeep(hit: Hit, metadata: seq<Dict>, clauseNumber: Option<string>) returns (keep: bool)
    ensures keep <==> Keep(hit, metadata, clauseNumber)
  {
    if hit.id < 0 {
      return false;
    }
    if hit.id >= |metadata| {
      // metadata[int(idx)] raises IndexError, which is skipped
      return false;
    }
    var meta := metadata[hit.id];
    if FilterActive(clauseNumber) {
      var metaClause := Get(meta, "clause_number");
      if !Truthy(metaClause) {
        return false;
      }
      if Strip(Str(metaClause)) != Strip(clauseNumber.value) {
        return false;
      }
    }
    return true;
  }

  /** One more hit adds its record exactly when it survives. */
  lemma SurvivorsStep(hits: seq<Hit>, i: nat, metadata: seq<Dict>, clauseNumber: Option<string>)
    requires i < |hits|
    ensures Survivors(hits[..i + 1], metadata, clauseNumber)
         == Survivors(hits[..i], metadata, clauseNumber)
            + (if Keep(hits[i], metadata, clauseNumber)
               then [ResultRecord(metadata[hits[i].id], hits[i].distance)] else [])
  {
    assert hits[..i + 1][..i] == hits[..i];
  }

  /** The survivors of a prefix of the hits are a prefix of the survivors. */
  lemma {:induction false} SurvivorsPrefix(hits: seq<Hit>, i: nat, metadata: seq<Dict>, clauseNumber: Option<string>)
    requires i <= |hits|
    ensures Survivors(hits[..i], metadata, clauseNumber) <= Survivors(hits, metadata, clauseNumber)
    decreases |hits| - i
  {
    if i < |hits| {
      SurvivorsStep(hits, i, metadata, clauseNumber);
      SurvivorsPrefix(hits, i + 1, metadata, clauseNumber);
    } else {
      assert hits[..i] == hits;
    }
  }

  // ---------------------------------------------------------------------
  // What a retrieval promises
  // ---------------------------------------------------------------------

  /**
   * At most `max(k, 1)` results and never more than the search returned;
   * exactly that many when enough hits survive.
   */
  lemma RetrievedCount(query: string, index: Index, metadata: seq<Dict>, k: int,
                       clauseNumber: Option<string>, searchK: int, search: Searcher)
    ensures var r := Retrieved(query, index, metadata, k, clauseNumber, searchK, search);
            var limit := if k < 1 then 1 else k;
            && |r| <= limit
            && (Strip(query) != [] ==> |r| <= |search(index, Strip(query), searchK)|)
            && (Strip(query) != [] ==>
                  |r| == Min(limit, |KeptHits(search(index, Strip(query), searchK), metadata, clauseNumber)|))
    ensures IsBlank(query) ==> Retrieved(query, index, metadata, k, clauseNumber, searchK, search) == []
  {
  }

  /**
   * Result `i` copies the metadata entry of the `i`-th surviving hit and that
   * hit's distance; every surviving hit has a valid id and, when a clause
   * number is given, a matching stored clause number.
   */
  lemma RetrievedAreSurvivors(query: string, index: Index, metadata: seq<Dict>, k: int,
                              clauseNumber: Option<string>, searchK: int, search: Searcher)
    requires Strip(query) != []
    ensures var r := Retrieved(query, index, metadata, k, clauseNumber, searchK, search);
            var kept := KeptHits(search(index, Strip(query), searchK), metadata, clauseNumber);
            forall i :: 0 <= i < |r| ==>
              && 0 <= kept[i].id < |metadata|
              && r[i] == ResultRecord(metadata[kept[i].id], kept[i].distance)
              && (FilterActive(clauseNumber) ==> ClauseMatches(metadata[kept[i].id], clauseNumber.value))
  {
    var kept := KeptHits(search(index, Strip(query), searchK), metadata, clauseNumber);
    forall i | 0 <= i < |kept| ensures Keep(kept[i], metadata, clauseNumber) {
      assert kept[i] in kept;
    }
  }

  /**
   * With a clause filter, every result carries a clause number that equals
   * the requested one once both are stripped.
   */
  lemma FilteredResultsMatchClause(query: string, index: Index, metadata: seq<Dict>, k: int,
                                   clauseNumber: string, searchK: int, search: Searcher)
    requires clauseNumber != ""
    ensures var r := Retrieved(query, index, metadata, k, Some(clauseNumber), searchK, search);
            forall i :: 0 <= i < |r| ==>
              Truthy(r[i]["clause_number"]) && Strip(Str(r[i]["clause_number"])) == Strip(clauseNumber)
  {
    var r := Retrieved(query, index, metadata, k, Some(clauseNumber), searchK, search);
    if Strip(query) != [] {
      RetrievedAreSurvivors(query, index, metadata, k, Some(clauseNumber), searchK, search);
      var kept := KeptHits(search(index, Strip(query), searchK), metadata, Some(clauseNumber));
      forall i | 0 <= i < |r|
        ensures Truthy(r[i]["clause_number"]) && Strip(Str(r[i]["clause_number"])) == Strip(clauseNumber)
      {
        var meta := metadata[kept[i].id];
        assert r[i]["clause_number"] == Get(meta, "clause_number");
        assert ClauseMatches(meta, clauseNumber);
      }
    }
  }

  /**
   * The filter keeps search order: the survivors of two consecutive runs of
   * hits are the survivors of the first run followed by those of the second.
   */
  lemma {:induction false} KeptHitsConcat(a: seq<Hit>, b: seq<Hit>, metadata: seq<Dict>, clauseNumber: Option<string>)
    ensures KeptHits(a + b, metadata, clauseNumber)
         == KeptHits(a, metadata, clauseNumber) + KeptHits(b, metadata, clauseNumber)
    decreases |b|
  {
    if b == [] {
      assert a + b == a;
    } else {
      var init := b[..|b| - 1];
      assert (a + b)[..|a + b| - 1] == a + init;
      assert (a + b)[|a + b| - 1] == b[|b| - 1];
      KeptHitsConcat(a, init, metadata, clauseNumber);
    }
  }

  /** Without a clause filter, the results are the first `max(k, 1)` hits with valid ids. */
  lemma {:induction false} UnfilteredKeepsValidIds(hits: seq<Hit>, metadata: seq<Dict>, clauseNumber: Option<string>)
    requires !FilterActive(clauseNumber)
    ensures KeptHits(hits, metadata, clauseNumber) == ValidHits(hits, |metadata|)
  {
    if hits != [] {
      UnfilteredKeepsValidIds(hits[..|hits| - 1], metadata, clauseNumber);
    }
  }

  /** The hits whose id is a position in a list of length `n`. */
  function ValidHits(hits: seq<Hit>, n: nat): (r: seq<Hit>)
    ensures forall h :: h in r <==> h in hits && 0 <= h.id < n
  {
    if hits == [] then []
    else ValidHits(hits[..|hits| - 1], n) + (if 0 <= hits[|hits| - 1].id < n then [hits[|hits| - 1]] else [])
  }
}
