/** The "Recent Activity" feed widget (component `RecentBuys`): relative-age
    text, the activity-type classifier behind the label and the icon, the
    explorer link and title of a row, the `loading`/`buys` state that each
    fetch updates, and the choice between skeleton, nothing and the list.

    Time is an integer count of milliseconds: the current time is a parameter
    and `created_at` is already a timestamp. */
module SBuys {
  import opened Wrappers
  import opened Strings
  import opened ActivityRoute

  // ---------------------------------------------------------------------------
  // timeAgo

  /** The bucket `timeAgo` picks and the whole number it shows. */
  datatype Age = Seconds(n: int) | Minutes(n: int) | Hours(n: int) | Days(n: int)

  /** The nested floors of `timeAgo` on an elapsed time in milliseconds. With a
      positive divisor Dafny's `/` rounds toward negative infinity, as
      `Math.floor` of the quotient does. */
  function AgeOf(elapsedMs: int): (a: Age)
    ensures match a
            case Seconds(n) => n < 60
            case Minutes(n) => 1 <= n < 60
            case Hours(n) => 1 <= n < 24
            case Days(n) => 1 <= n
  {
    var seconds := elapsedMs / 1000;
    if seconds < 60 then Seconds(seconds)
    else
      var minutes := seconds / 60;
      if minutes < 60 then Minutes(minutes)
      else
        var hours := minutes / 60;
        if hours < 24 then Hours(hours) else Days(hours / 24)
  }

  function Suffix(a: Age): char {
    match a
    case Seconds(_) => 's'
    case Minutes(_) => 'm'
    case Hours(_) => 'h'
    case Days(_) => 'd'
  }

  /** The template literal: the number followed by its unit letter. The
      text determines the bucket and the number shown. */
  function AgeText(a: Age): (r: string)
    ensures ParseAge(r) == Some(a)
  {
    var r := IntToString(a.n) + [Suffix(a)];
    assert r[..|r| - 1] == IntToString(a.n);
    ParseIntToString(a.n);
    r
  }

  /** `timeAgo(created)` read at time `nowMs`. */
  function TimeAgo(nowMs: int, createdMs: int): (r: string)
    ensures ParseAge(r) == Some(AgeOf(nowMs - createdMs))
  {
    AgeText(AgeOf(nowMs - createdMs))
  }

  /** Reads an age text back: the unit letter picks the bucket, the rest is the number. */
  function ParseAge(text: string): Option<Age> {
    if text == [] then None
    else
      var n := ParseInt(text[..|text| - 1]);
      match text[|text| - 1]
      case 's' => Some(Seconds(n))
      case 'm' => Some(Minutes(n))
      case 'h' => Some(Hours(n))
      case 'd' => Some(Days(n))
      case _ => None
  }

  /** Different ages are shown as different texts. */
  lemma AgeTextInjective(a: Age, b: Age)
    requires a != b
    ensures AgeText(a) != AgeText(b)
  {
    assert ParseAge(AgeText(a)) == Some(a);
    assert ParseAge(AgeText(b)) == Some(b);
  }

  /** The nested floors compose: with s the elapsed whole seconds, the minute
      count is s / 60, the hour count s / 3600 and the day count s / 86400,
      each shown only inside its own range. */
  lemma AgeOfClosedForm(elapsedMs: int)
    ensures var s := elapsedMs / 1000;
            (s < 60 ==> AgeOf(elapsedMs) == Seconds(s)) &&
            (60 <= s < 3600 ==> AgeOf(elapsedMs) == Minutes(s / 60)) &&
            (3600 <= s < 86400 ==> AgeOf(elapsedMs) == Hours(s / 3600)) &&
            (86400 <= s ==> AgeOf(elapsedMs) == Days(s / 86400))
  {
  }

  lemma TimeAgoExamples()
    ensures TimeAgo(45000, 0) == "45s"
    ensures TimeAgo(125000, 0) == "2m"
    ensures TimeAgo(7200000, 0) == "2h"
    ensures TimeAgo(172800000, 0) == "2d"
  {
    assert NatToString(45) == NatToString(4) + [Digit(5)];
  }

  // ---------------------------------------------------------------------------
  // Labels and icons

  /** `type?.includes(needle)`: false for a missing type; case-sensitive. */
  predicate Has(activityType: Option<string>, needle: string) {
    activityType.Some? && Contains(activityType.value, needle)
  }

  const MemeBuy: string := "MEME Buy"
  const Buyback: string := "Buyback"
  const PlainBuy: string := "Buy"

  /** `getActivityLabel`: the first of "target", "self", "combined" that the
      type contains decides the label. */
  function Label(activityType: Option<string>): (r: string)
    ensures r == MemeBuy || r == Buyback || r == PlainBuy
    ensures Has(activityType, "target") ==> r == MemeBuy
    ensures r == Buyback <==> !Has(activityType, "target") && Has(activityType, "self")
    ensures r == PlainBuy <==>
              !Has(activityType, "target") && !Has(activityType, "self") && !Has(activityType, "combined")
  {
    if Has(activityType, "target") then MemeBuy
    else if Has(activityType, "self") then Buyback
    else if Has(activityType, "combined") then MemeBuy
    else PlainBuy
  }

  /** The four icons of `getActivityIcon`. */
  datatype ActivityIcon = PrintIcon | BuybackIcon | CombinedIcon | CoinIcon

  function IconOf(activityType: Option<string>): (r: ActivityIcon)
    ensures r == PrintIcon <==> Has(activityType, "target")
    ensures r == BuybackIcon <==> !Has(activityType, "target") && Has(activityType, "self")
    ensures r == CombinedIcon <==>
              !Has(activityType, "target") && !Has(activityType, "self") && Has(activityType, "combined")
  {
    if Has(activityType, "target") then PrintIcon
    else if Has(activityType, "self") then BuybackIcon
    else if Has(activityType, "combined") then CombinedIcon
    else CoinIcon
  }

  /** The label each icon stands beside. */
  function IconLabel(icon: ActivityIcon): string {
    match icon
    case PrintIcon => MemeBuy
    case CombinedIcon => MemeBuy
    case BuybackIcon => Buyback
    case CoinIcon => PlainBuy
  }

  /** Icon and label follow the same precedence, so they always agree. */
  lemma IconAgreesWithLabel(activityType: Option<string>)
    ensures IconLabel(IconOf(activityType)) == Label(activityType)
  {
  }

  lemma LabelExamples()
    ensures Label(None) == PlainBuy
    ensures Label(Some("")) == PlainBuy
  {
  }

  // ---------------------------------------------------------------------------
  // One row of the list

  const ExplorerPrefix: string := "https://solscan.io/tx/"

  /** `href`: the explorer page of a non-empty signature, '#' otherwise. */
  function ExplorerLink(signature: Option<string>): (r: string)
    ensures r == "#" <==> signature.None? || signature.value == ""
    ensures r != "#" ==>
              |r| > |ExplorerPrefix| && r[..|ExplorerPrefix|] == ExplorerPrefix &&
              r[|ExplorerPrefix|..] == signature.value
  {
    if signature.Some? && signature.value != "" then ExplorerPrefix + signature.value else "#"
  }

  /** `token_name || getActivityLabel(activity_type)`. */
  function Title(e: EnrichedActivity): (r: string)
    ensures r != ""
    ensures e.token_name.Some? && e.token_name.value != "" ==> r == e.token_name.value
    ensures e.token_name.None? || e.token_name.value == "" ==> r == Label(e.activity.activity_type)
  {
    if e.token_name.Some? && e.token_name.value != "" then e.token_name.value
    else Label(e.activity.activity_type)
  }

  /** For an activity enriched by the endpoint, the title is the extracted
      token name whenever there is one (it is never empty), and the label
      otherwise. */
  lemma TitleOfEnriched(a: ActivityRecord)
    ensures var t := ExtractTokenName(a.activity_description);
            Title(Enrich(a)) == if t.Some? then t.value else Label(a.activity_type)
  {
    if a.activity_description.Some? && a.activity_description.value != "" {
      ExtractTokenNameSpec(a.activity_description.value);
    }
  }

  datatype Row = Row(href: string, title: string, subtitle: string, icon: ActivityIcon, age: string)

  /** One list entry: link, title, label, icon and age of an activity. */
  function RowOf(e: EnrichedActivity, nowMs: int): (r: Row)
    ensures r.title != ""
    ensures r.href == "#" <==>
              e.activity.transaction_signature.None? || e.activity.transaction_signature.value == ""
    ensures IconLabel(r.icon) == r.subtitle
    ensures ParseAge(r.age) == Some(AgeOf(nowMs - e.activity.created_at))
    ensures r.href == ExplorerLink(e.activity.transaction_signature) && r.title == Title(e)
    ensures r.subtitle == Label(e.activity.activity_type) && r.icon == IconOf(e.activity.activity_type)
  {
    IconAgreesWithLabel(e.activity.activity_type);
    Row(ExplorerLink(e.activity.transaction_signature),
        Title(e),
        Label(e.activity.activity_type),
        IconOf(e.activity.activity_type),
        TimeAgo(nowMs, e.activity.created_at))
  }

  // ---------------------------------------------------------------------------
  // Fetching and rendering

  /** The request the widget sends: `?type=buy&limit=20`. */
  lemma FeedRequestIsBuyQuery()
    ensures BuildQuery(Some("buy"), Some(20)) == Query(BuyTypes, 20)
  {
  }

  /** The parsed JSON body; `activities` may be absent. */
  datatype Payload = Payload(activities: Option<seq<EnrichedActivity>>)

  /** How one `fetch` ends: the request fails, or a reply arrives whose body
      is a JSON object (`Some`) or cannot be read as one (`None`). */
  datatype FetchResult = NetworkFailure | Reply(status: int, payload: Option<Payload>)

  /** `response.ok`. */
  predicate IsOk(status: int) {
    200 <= status <= 299
  }

  /** The list a fetch hands to `setBuys`, if it gets that far: only an ok
      reply with a readable body does, and a body without `activities` gives []. */
  function Accepted(result: FetchResult): (r: Option<seq<EnrichedActivity>>)
    ensures r.Some? <==> result.Reply? && IsOk(result.status) && result.payload.Some?
    ensures r.Some? && result.payload.value.activities.None? ==> r.value == []
    ensures r.Some? && result.payload.value.activities.Some? ==> r.value == result.payload.value.activities.value
  {
    match result
    case NetworkFailure => None
    case Reply(status, payload) =>
      if IsOk(status) && payload.Some? then Some(payload.value.activities.GetOr([])) else None
  }

  const SkeletonRows: int := 3

  /** What the component renders. */
  datatype FeedView =
    | Skeleton(placeholders: int)
    | Nothing
    | List(count: int, rows: seq<Row>)

  class RecentBuys {
    var buys: seq<EnrichedActivity>
    var loading: bool

    /** `useState([])` and `useState(true)`. */
    constructor ()
      ensures buys == [] && loading
    {
      buys := [];
      loading := true;
    }

    /** One run of `fetchRecentBuys` once its request has settled: `buys` is
        replaced on an accepted reply and kept otherwise; `loading` ends
        false either way (the `finally`). */
    method FetchRecentBuys(result: FetchResult)
      modifies this
      ensures !loading
      ensures Accepted(result).Some? ==> buys == Accepted(result).value
      ensures Accepted(result).None? ==> buys == old(buys)
    {
      if result.Reply? && IsOk(result.status) && result.payload.Some? {
        buys := result.payload.value.activities.GetOr([]);
      }
      loading := false;
    }

    /** The render: the skeleton while loading, nothing for an empty list,
        otherwise one row per activity under a header counting them. */
    function View(nowMs: int): (v: FeedView)
      reads this
      ensures v.Skeleton? <==> loading
      ensures v.Skeleton? ==> v.placeholders == SkeletonRows
      ensures v.Nothing? <==> !loading && buys == []
      ensures v.List? ==>
                v.count == |buys| && |v.rows| == |buys| &&
                forall i | 0 <= i < |buys| :: v.rows[i] == RowOf(buys[i], nowMs)
    {
      if loading then Skeleton(SkeletonRows)
      else if |buys| == 0 then Nothing
      else
        var bs := buys;
        List(|bs|, seq(|bs|, i requires 0 <= i < |bs| => RowOf(bs[i], nowMs)))
    }
  }

  /** A mounted widget: first fetch fails, so it renders nothing; a later
      successful fetch shows its list; a failing fetch after that keeps it. */
  method PollingScenario(acts: seq<EnrichedActivity>, nowMs: int)
    returns (mounted: FeedView, afterFailure: FeedView, afterSuccess: FeedView, afterError: FeedView)
    requires acts != []
    ensures mounted.Skeleton?
    ensures afterFailure == Nothing
    ensures afterSuccess.List? && afterSuccess.count == |acts|
    ensures afterError == afterSuccess
  {
    var feed := new RecentBuys();
    mounted := feed.View(nowMs);
    feed.FetchRecentBuys(NetworkFailure);
    afterFailure := feed.View(nowMs);
    feed.FetchRecentBuys(Reply(200, Some(Payload(Some(acts)))));
    afterSuccess := feed.View(nowMs);
    feed.FetchRecentBuys(Reply(500, Some(Payload(None))));
    afterError := feed.View(nowMs);
  }
}
