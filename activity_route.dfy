/** The `GET /api/activity` endpoint: it turns the `type` and `limit` query
    parameters into a filtered, newest-first, limited read of the
    `wallet_activities` collection, extracts a token name from each record's
    description and wraps the result in a JSON envelope.

    The store itself is a parameter: `Answers` states what a list it returns
    must satisfy, not how it is computed. */
module ActivityRoute {
  import opened Wrappers
  import opened Strings

  /** One wallet activity record, with the columns the endpoint selects. */
  datatype ActivityRecord = ActivityRecord(
    id: string,
    wallet_id: string,
    activity_type: Option<string>,
    activity_description: Option<string>,
    transaction_signature: Option<string>,
    amount_sol: Option<real>,
    created_at: int)   // milliseconds since the epoch

  // ---------------------------------------------------------------------------
  // Query parameters

  const DefaultLimit: int := 20
  const MaxLimit: int := 50

  /** `Math.min(parseInt(limit || '20'), 50)` on an already parsed `limit`;
      `None` stands for a missing or empty parameter. */
  function EffectiveLimit(limit: Option<int>): (r: int)
    ensures r <= MaxLimit
    ensures limit.None? ==> r == DefaultLimit
    ensures limit.Some? ==> (r == limit.value <==> limit.value <= MaxLimit)
    ensures limit.Some? && limit.value > MaxLimit ==> r == MaxLimit
  {
    var n := limit.GetOr(DefaultLimit);
    if n < MaxLimit then n else MaxLimit
  }

  /** The three shapes of type filter the endpoint can add to its query. */
  datatype TypeFilter = AllTypes | BuyTypes | ClaimTypes

  /** `type || 'all'` compared against 'buy' and 'claim'; every other value,
      the empty string and a missing parameter add no type filter. */
  function FilterOf(typeParam: Option<string>): (f: TypeFilter)
    ensures f == BuyTypes <==> typeParam == Some("buy")
    ensures f == ClaimTypes <==> typeParam == Some("claim")
    ensures f == AllTypes <==> typeParam != Some("buy") && typeParam != Some("claim")
  {
    var t := if typeParam.Some? && typeParam.value != "" then typeParam.value else "all";
    if t == "buy" then BuyTypes else if t == "claim" then ClaimTypes else AllTypes
  }

  /** What the endpoint asks of the store. */
  datatype Query = Query(filter: TypeFilter, limit: int)

  function BuildQuery(typeParam: Option<string>, limitParam: Option<int>): (q: Query)
    ensures q.limit <= MaxLimit
  {
    Query(FilterOf(typeParam), EffectiveLimit(limitParam))
  }

  // ---------------------------------------------------------------------------
  // The filters the query expresses

  /** `column ilike '%needle%'` where `needle` is a lower-case literal. */
  predicate ILikeContains(value: string, needle: string) {
    Contains(Lower(value), needle)
  }

  predicate MatchesFilter(f: TypeFilter, activityType: string) {
    match f
    case AllTypes => true
    case BuyTypes => ILikeContains(activityType, "buy") || ILikeContains(activityType, "bought")
    case ClaimTypes => ILikeContains(activityType, "claim")
  }

  /** `not activity_type ilike '%failed%'`. */
  predicate NotFailed(activityType: string) {
    !ILikeContains(activityType, "failed")
  }

  /** A record the query may return. A NULL `activity_type` makes both `ilike`
      tests unknown, and the store drops such a row. */
  predicate Qualifies(f: TypeFilter, rec: ActivityRecord) {
    rec.activity_type.Some? &&
    MatchesFilter(f, rec.activity_type.value) &&
    NotFailed(rec.activity_type.value)
  }

  ghost predicate NewestFirst(rows: seq<ActivityRecord>) {
    forall i, j | 0 <= i < j < |rows| :: rows[i].created_at >= rows[j].created_at
  }

  /** `rows` is an answer the store may give to `q` over `table`: qualifying
      rows of the table, each used no more often than the table holds it,
      newest first, at most `q.limit` of them; and a qualifying row (or a
      further copy of a row the table holds several times) is left out only
      when the list is full of rows at least as recent. No list answers a
      negative limit. */
  ghost predicate Answers(q: Query, table: seq<ActivityRecord>, rows: seq<ActivityRecord>) {
    |rows| <= q.limit &&
    multiset(rows) <= multiset(table) &&
    (forall i | 0 <= i < |rows| :: Qualifies(q.filter, rows[i]) && rows[i] in table) &&
    NewestFirst(rows) &&
    (forall r | r in table && Qualifies(q.filter, r) && multiset(rows)[r] < multiset(table)[r] ::
       |rows| == q.limit && forall i | 0 <= i < |rows| :: rows[i].created_at >= r.created_at)
  }

  /** A row cannot stand in twice for two different table rows: with two
      qualifying rows in the table and room for both, the answer holds both. */
  lemma RepeatedRowIsNoAnswer()
    ensures var r1 := ActivityRecord("1", "w", Some("buy"), None, None, None, 10);
            var r2 := ActivityRecord("2", "w", Some("buy"), None, None, None, 5);
            !Answers(Query(AllTypes, 2), [r1, r2], [r1, r1])
  {
    var r1 := ActivityRecord("1", "w", Some("buy"), None, None, None, 10);
    var r2 := ActivityRecord("2", "w", Some("buy"), None, None, None, 5);
    assert multiset([r1, r1])[r1] == 2;
    assert multiset([r1, r2])[r1] == 1;
  }

  /** A table row held twice is left out once when the answer holds it only
      once, so with room for both copies such a list is no answer. */
  lemma DroppedCopyIsNoAnswer()
    ensures var r := ActivityRecord("1", "w", Some("buy"), None, None, None, 10);
            !Answers(Query(AllTypes, 2), [r, r], [r])
  {
    var r := ActivityRecord("1", "w", Some("buy"), None, None, None, 10);
    assert multiset([r])[r] == 1;
    assert multiset([r, r])[r] == 2;
  }

  lemma BuyFilterQualifies(rec: ActivityRecord)
    ensures Qualifies(FilterOf(Some("buy")), rec) <==>
              rec.activity_type.Some? &&
              (Contains(Lower(rec.activity_type.value), "buy") || Contains(Lower(rec.activity_type.value), "bought")) &&
              !Contains(Lower(rec.activity_type.value), "failed")
  {
  }

  lemma ClaimFilterQualifies(rec: ActivityRecord)
    ensures Qualifies(FilterOf(Some("claim")), rec) <==>
              rec.activity_type.Some? &&
              Contains(Lower(rec.activity_type.value), "claim") &&
              !Contains(Lower(rec.activity_type.value), "failed")
  {
  }

  /** For 'all', a missing type or any unrecognised value only the failed
      filter applies. */
  lemma OtherTypesOnlyExcludeFailed(typeParam: Option<string>, rec: ActivityRecord)
    requires typeParam != Some("buy") && typeParam != Some("claim")
    ensures Qualifies(FilterOf(typeParam), rec) <==>
              rec.activity_type.Some? && !Contains(Lower(rec.activity_type.value), "failed")
  {
  }

  /** Whatever the filter, no qualifying record's type contains "failed" in any case. */
  lemma QualifyingIsNeverFailed(f: TypeFilter, rec: ActivityRecord)
    requires Qualifies(f, rec)
    ensures !Contains(Lower(rec.activity_type.value), "failed")
  {
  }

  // ---------------------------------------------------------------------------
  // Token name extraction: the first match of /\(([^)]+)\)/

  /** Index of the first ')' at or after `k`. */
  function FirstClose(s: string, k: nat): (r: Option<nat>)
    ensures r.Some? ==> k <= r.value < |s| && s[r.value] == ')' &&
                        forall m | k <= m < r.value :: s[m] != ')'
    ensures r.None? ==> forall m | k <= m < |s| :: s[m] != ')'
    decreases |s| - k
  {
    if k >= |s| then None
    else if s[k] == ')' then Some(k)
    else FirstClose(s, k + 1)
  }

  /** `"(" + t + ")"` occurs at `i` with `t` non-empty and free of ')': a match
      of the pattern at `i` whose group is `t`. */
  ghost predicate GroupAt(s: string, i: int, t: string) {
    |t| > 0 && ')' !in t && OccursAt(s, "(" + t + ")", i)
  }

  /** Some match of the pattern starts at `i`: a '(' not directly followed by
      ')', with a ')' somewhere after it. */
  ghost predicate MatchStartsAt(s: string, i: int) {
    0 <= i && i + 1 < |s| && s[i] == '(' && s[i + 1] != ')' &&
    exists j | i + 1 < j < |s| :: s[j] == ')'
  }

  /** The captured group when the pattern matches starting at `i`: '(' then a
      non-empty run of non-')' characters, which the greedy `[^)]+` extends to
      the first ')'. */
  function MatchAt(s: string, i: nat): (r: Option<string>)
    requires i < |s|
    ensures r.Some? <==> MatchStartsAt(s, i)
    ensures r.Some? ==> GroupAt(s, i, r.value)
  {
    if s[i] != '(' then None
    else match FirstClose(s, i + 1)
      case None => None
      case Some(j) => if j == i + 1 then None else Some(s[i + 1..j])
  }

  /** The regex engine's scan: the leftmost start position at or after `i` that matches. */
  function ExtractFrom(s: string, i: nat): (r: Option<string>)
    ensures r.Some? ==> exists k | i <= k :: GroupAt(s, k, r.value)
    decreases |s| - i
  {
    if i >= |s| then None
    else
      var m := MatchAt(s, i);
      if m.Some? then m else ExtractFrom(s, i + 1)
  }

  /** `token_name` for a description: null for a missing or empty description
      or when the pattern finds no match, the first group of the match otherwise. */
  function ExtractTokenName(description: Option<string>): (r: Option<string>)
    ensures r.Some? ==> description.Some? && |r.value| > 0 && ')' !in r.value &&
                        Contains(description.value, "(" + r.value + ")")
  {
    if description.None? || description.value == "" then None
    else ExtractFrom(description.value, 0)
  }

  lemma {:induction false} ExtractFromSpec(s: string, i: nat)
    ensures ExtractFrom(s, i).Some? <==> exists k | i <= k :: MatchStartsAt(s, k)
    ensures ExtractFrom(s, i).Some? ==>
              exists k | i <= k :: GroupAt(s, k, ExtractFrom(s, i).value) &&
                                  forall m | i <= m < k :: !MatchStartsAt(s, m)
    decreases |s| - i
  {
    if i >= |s| {
      assert forall k | i <= k :: !MatchStartsAt(s, k);
    } else {
      if MatchAt(s, i).None? {
        ExtractFromSpec(s, i + 1);
        if ExtractFrom(s, i).Some? {
          var k :| i + 1 <= k && GroupAt(s, k, ExtractFrom(s, i).value) &&
                   forall m | i + 1 <= m < k :: !MatchStartsAt(s, m);
          assert forall m | i <= m < k :: !MatchStartsAt(s, m);
        }
        assert (exists k | i <= k :: MatchStartsAt(s, k)) ==> exists k | i + 1 <= k :: MatchStartsAt(s, k);
      } else {
        assert forall m | i <= m < i :: !MatchStartsAt(s, m);
      }
    }
  }

  /** The extracted name is non-empty, free of ')', occurs parenthesised in the
      description, and no earlier position starts a match; and a name is
      extracted exactly when some position starts a match. */
  lemma ExtractTokenNameSpec(d: string)
    ensures ExtractTokenName(Some(d)).Some? <==> exists k | 0 <= k :: MatchStartsAt(d, k)
    ensures ExtractTokenName(Some(d)).Some? ==>
              var t := ExtractTokenName(Some(d)).value;
              |t| > 0 && ')' !in t && Contains(d, "(" + t + ")") &&
              exists k | 0 <= k :: GroupAt(d, k, t) && forall m | 0 <= m < k :: !MatchStartsAt(d, m)
  {
    ExtractFromSpec(d, 0);
    if d == "" {
      assert forall k | 0 <= k :: !MatchStartsAt(d, k);
    }
  }

  /** The match ends at the first ')' after its '(': the group extends up to,
      and not beyond, that ')'. */
  lemma GroupEndsAtFirstClose(s: string, i: nat, t: string)
    requires GroupAt(s, i, t)
    ensures FirstClose(s, i + 1) == Some(i + 1 + |t|)
  {
    var window := s[i..i + |t| + 2];
    assert window == "(" + t + ")";
    assert s[i + 1 + |t|] == window[|t| + 1] == ')';
    forall m | i + 1 <= m < i + 1 + |t| ensures s[m] != ')' {
      assert s[m] == window[m - i] == t[m - i - 1];
    }
  }

  lemma MissingDescriptionHasNoToken()
    ensures ExtractTokenName(None) == None
    ensures ExtractTokenName(Some("")) == None
  {
  }

  lemma EmptyParenthesesDoNotMatch()
    ensures ExtractTokenName(Some("()")) == None
  {
  }

  lemma EmptyParenthesesAreSkipped()
    ensures ExtractTokenName(Some("()(A)")) == Some("A")
  {
    var s := "()(A)";
    assert MatchAt(s, 0) == None by { assert FirstClose(s, 1) == Some(1); }
    assert MatchAt(s, 1) == None;
    assert MatchAt(s, 2) == Some("A") by {
      assert FirstClose(s, 4) == Some(4);
      assert FirstClose(s, 3) == Some(4);
      assert s[3..4] == "A";
    }
    assert ExtractFrom(s, 0) == ExtractFrom(s, 1) == ExtractFrom(s, 2) == Some("A");
  }

  lemma DescriptionTokenExample()
    ensures ExtractTokenName(Some("Bought own token (DOGE)")) == Some("DOGE")
  {
    var prefix, rest := "Bought own token ", "(DOGE)";
    var d := prefix + rest;
    assert d == "Bought own token (DOGE)";
    assert '(' !in prefix;
    forall k | 0 <= k < |prefix| ensures MatchAt(d, k) == None {
      assert d[k] == prefix[k];
    }
    assert FirstClose(d, 22) == Some(22);
    assert FirstClose(d, 18) == Some(22);
    assert MatchAt(d, 17) == Some("DOGE") by { assert d[18..22] == "DOGE"; }
    ExtractFromIsLeftmost(d, 0, 17);
  }

  /** When no position in [i, k) starts a match, the scan from `i` reaches `k`. */
  lemma {:induction false} ExtractFromIsLeftmost(s: string, i: nat, k: nat)
    requires i <= k < |s|
    requires forall m | i <= m < k :: MatchAt(s, m) == None
    ensures ExtractFrom(s, i) == ExtractFrom(s, k)
    decreases k - i
  {
    if i < k {
      ExtractFromIsLeftmost(s, i + 1, k);
    }
  }

  // ---------------------------------------------------------------------------
  // Enrichment and the response envelope

  /** `{...activity, token_name}`: the record unchanged, plus one field. */
  datatype EnrichedActivity = EnrichedActivity(activity: ActivityRecord, token_name: Option<string>)

  function Enrich(a: ActivityRecord): (r: EnrichedActivity)
    ensures r.activity == a
    ensures r.token_name.Some? ==> |r.token_name.value| > 0 && ')' !in r.token_name.value
  {
    EnrichedActivity(a, ExtractTokenName(a.activity_description))
  }

  /** `activities.map(...)`. */
  function EnrichAll(rows: seq<ActivityRecord>): (r: seq<EnrichedActivity>)
    ensures |r| == |rows|
  {
    if rows == [] then [] else [Enrich(rows[0])] + EnrichAll(rows[1..])
  }

  /** The records inside a list of enriched activities. */
  function Records(es: seq<EnrichedActivity>): seq<ActivityRecord> {
    if es == [] then [] else [es[0].activity] + Records(es[1..])
  }

  /** Enrichment keeps length, order and every record field, and sets
      `token_name` from the description. */
  lemma {:induction false} EnrichAllPreserves(rows: seq<ActivityRecord>)
    ensures |EnrichAll(rows)| == |rows|
    ensures forall i | 0 <= i < |rows| ::
              EnrichAll(rows)[i].activity == rows[i] &&
              EnrichAll(rows)[i].token_name == ExtractTokenName(rows[i].activity_description)
  {
    if rows != [] {
      EnrichAllPreserves(rows[1..]);
    }
  }

  /** Stripping `token_name` again gives back the store's list. */
  lemma {:induction false} RecordsOfEnrichAll(rows: seq<ActivityRecord>)
    ensures Records(EnrichAll(rows)) == rows
  {
    if rows != [] {
      RecordsOfEnrichAll(rows[1..]);
      assert EnrichAll(rows)[1..] == EnrichAll(rows[1..]);
    }
  }

  /** What the awaited query yields: an error or a list of rows. */
  datatype StoreOutcome = StoreError(message: string) | StoreRows(rows: seq<ActivityRecord>)

  datatype Body =
    | SuccessBody(activities: seq<EnrichedActivity>, count: int)
    | ErrorBody(error: string)

  datatype HttpResponse = HttpResponse(status: int, body: Body)

  const StatusOk: int := 200
  const StatusServerError: int := 500

  /** The try/catch around the query: a store error is thrown as
      "Database error: <message>" and answered with status 500; rows are
      enriched and counted. */
  function Respond(outcome: StoreOutcome): (r: HttpResponse)
    ensures r.body.SuccessBody? <==> outcome.StoreRows?
    ensures outcome.StoreError? ==>
              r.status == StatusServerError && r.body.error == "Database error: " + outcome.message
    ensures outcome.StoreRows? ==>
              r.status == StatusOk && r.body.count == |r.body.activities| &&
              Records(r.body.activities) == outcome.rows
  {
    match outcome
    case StoreError(message) =>
      HttpResponse(StatusServerError, ErrorBody("Database error: " + message))
    case StoreRows(rows) =>
      RecordsOfEnrichAll(rows);
      EnrichAllPreserves(rows);
      var activities := EnrichAll(rows);
      HttpResponse(StatusOk, SuccessBody(activities, |activities|))
  }

  /** `GET`: build the query from the parameters, ask the store, respond. */
  function Get(typeParam: Option<string>, limitParam: Option<int>, store: Query -> StoreOutcome): (r: HttpResponse)
    ensures r.body.SuccessBody? <==> store(BuildQuery(typeParam, limitParam)).StoreRows?
    ensures r.body.ErrorBody? <==> r.status == StatusServerError
  {
    Respond(store(BuildQuery(typeParam, limitParam)))
  }

  /** A response built from a store answer that meets `Answers` carries at
      most 50 qualifying records of the table, newest first, each with the
      token name of its description, and counts them; an error never comes
      with a success envelope. */
  lemma GetSound(typeParam: Option<string>, limitParam: Option<int>,
                 table: seq<ActivityRecord>, store: Query -> StoreOutcome)
    requires store(BuildQuery(typeParam, limitParam)).StoreRows? ==>
               Answers(BuildQuery(typeParam, limitParam), table, store(BuildQuery(typeParam, limitParam)).rows)
    ensures var r := Get(typeParam, limitParam, store);
            (r.body.ErrorBody? <==> r.status == StatusServerError) &&
            (r.body.SuccessBody? ==>
               var acts := r.body.activities;
               r.status == StatusOk && r.body.count == |acts| &&
               |acts| <= EffectiveLimit(limitParam) && |acts| <= MaxLimit &&
               Records(acts) == store(BuildQuery(typeParam, limitParam)).rows &&
               (forall i | 0 <= i < |acts| ::
                  Qualifies(FilterOf(typeParam), acts[i].activity) &&
                  acts[i].activity in table &&
                  acts[i].token_name == ExtractTokenName(acts[i].activity.activity_description)) &&
               (forall i, j | 0 <= i < j < |acts| :: acts[i].activity.created_at >= acts[j].activity.created_at))
  {
    var q := BuildQuery(typeParam, limitParam);
    var outcome := store(q);
    if outcome.StoreRows? {
      EnrichAllPreserves(outcome.rows);
    }
  }
}
