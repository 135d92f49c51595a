/** The server's daily run (`cmd/server/main.go`): one `publish` per subscription,
    each emitting exactly one result, then a summary listing every result. The
    goroutines and the result channel are modelled sequentially; the order in which
    results leave the channel is a parameter. */
module Dispatch {
  import opened Base
  import opened Strings
  import opened Decimal
  import opened Criteria
  import opened Matching
  import opened Schedule
  import opened External
  import opened Orders

  /** `Limit(5)` on the item query. */
  const ItemLimit: nat := 5

  /** What one worker's external calls return, and its two clock readings: when it
      starts waiting for the release, and when it stamps the new watermark. */
  datatype Effects = Effects(
    selection: Selection,
    rendering: Rendering,
    delivery: Delivery,
    persistence: Persistence,
    readyAt: int,
    finishedAt: int)

  /** `PublishResult`: the name and item count a worker reports. */
  datatype PublishResult = PublishResult(name: string, count: nat)

  /** Everything one `publish` call does that can be observed: its report, the query it
      ran, when it sent a mail (if it tried), whether it reached the watermark
      update, and the subscription row as stored afterwards. */
  datatype Outcome = Outcome(
    result: PublishResult,
    query: Query,
    sentAt: Option<int>,
    watermarkSet: bool,
    stored: Subscription)

  /** The name used in the mail and the summary: the subscriber's own name when set,
      otherwise the part of the email before its first `@` (all of it when there is
      none). */
  function DisplayName(sub: Subscription): (name: string)
    ensures sub.name.Some? ==> name == sub.name.value
    ensures sub.name.None? ==> name <= sub.email && '@' !in name
    ensures sub.name.None? ==> name == sub.email || sub.email[|name|] == '@'
  {
    match sub.name
    case Some(n) => n
    case None => Split(sub.email, '@')[0]
  }

  /** `publish`: select, and when something matched render, wait for the release and
      send; on success (or when nothing matched) stamp the watermark and save it. Every
      error returns early, and the deferred send of the result happens on every path. */
  function Publish(sub: Subscription, release: int, fx: Effects): (o: Outcome)
    ensures o.result.name == DisplayName(sub)
    ensures o.query == Build(sub)
    ensures fx.selection.SelectionFailed? ==> o.result.count == 0
    ensures fx.selection.Matched? ==>
      && o.result.count <= fx.selection.rows
      && o.result.count <= ItemLimit
      && (o.result.count == fx.selection.rows || o.result.count == ItemLimit)
    ensures o.sentAt.Some? <==> fx.selection.Matched? && o.result.count > 0 && fx.rendering.Rendered?
    ensures o.sentAt.Some? ==> o.sentAt.value == WaitUntil(fx.readyAt, release) && o.sentAt.value >= release
    ensures o.watermarkSet <==>
      fx.selection.Matched? && (o.result.count == 0 || (fx.rendering.Rendered? && fx.delivery.Sent?))
    ensures o.stored == if o.watermarkSet && fx.persistence.Saved? then sub.(published := fx.finishedAt) else sub
    ensures sub.published <= fx.finishedAt ==> o.stored.published >= sub.published
  {
    var name := DisplayName(sub);
    var query := Build(sub);
    match fx.selection
    case SelectionFailed =>
      Outcome(PublishResult(name, 0), query, None, false, sub)
    case Matched(rows) =>
      var count := if rows < ItemLimit then rows else ItemLimit;
      var result := PublishResult(name, count);
      if count > 0 && !fx.rendering.Rendered? then
        Outcome(result, query, None, false, sub)
      else
        var sentAt := if count > 0 then Some(WaitUntil(fx.readyAt, release)) else None;
        if count > 0 && fx.delivery.SendFailed? then
          Outcome(result, query, sentAt, false, sub)
        else
          var stamped := sub.(published := fx.finishedAt);
          Outcome(result, query, sentAt, true, if fx.persistence.Saved? then stamped else sub)
  }

  /** Once a run has stored its watermark, the next run's query selects none of the
      items published before that run stamped it. */
  lemma StoredWatermarkExcludesOldItems(sub: Subscription, release: int, fx: Effects, item: Item)
    ensures Publish(sub, release, fx).watermarkSet && fx.persistence.Saved? && item.published < fx.finishedAt
      ==> !Selects(Build(Publish(sub, release, fx).stored), item)
  {
    BuildSelectsWanted(Publish(sub, release, fx).stored, item);
  }

  /** The stamp is read after the wait (`time.Now()` follows `<-time.After`), so a run
      that mailed and saved its stamp hides from every later run each item published
      before the release, mailed or not. */
  lemma SentRunHidesEarlierItems(sub: Subscription, release: int, fx: Effects, item: Item)
    requires fx.finishedAt >= WaitUntil(fx.readyAt, release)
    ensures var o := Publish(sub, release, fx);
      o.sentAt.Some? && o.watermarkSet && fx.persistence.Saved? && item.published < release
      ==> !Selects(Build(o.stored), item)
  {
    StoredWatermarkExcludesOldItems(sub, release, fx, item);
  }

  /** First part of the Slack message. */
  const SummaryHeader: string := "안녕하세요! plaa 입니다.\n너드플라넷의 소식을 아래와 같이 전달했어요!!\n\n"

  const LineMiddle: string := "님에게 "
  const LineTail: string := "개의 리스트를 보냈어요.\n"

  /** `fmt.Sprintf("%s님에게 %d개의 리스트를 보냈어요.\n", r.name, r.count)` */
  function SummaryLine(r: PublishResult): string
  {
    r.name + LineMiddle + FormatInt(r.count) + LineTail
  }

  /** A summary line names the subscriber and carries the count, which reads back
      from the text between the fixed middle and tail. */
  lemma SummaryLineReadsBack(r: PublishResult)
    ensures var line := SummaryLine(r);
      && |line| >= |r.name| + |LineMiddle| + |LineTail|
      && line[..|r.name|] == r.name
      && ParseInt(line[|r.name| + |LineMiddle|..|line| - |LineTail|]) == Some(r.count as int)
  {
    var line := SummaryLine(r);
    var digits := FormatInt(r.count);
    assert line == r.name + LineMiddle + digits + LineTail;
    assert line[|r.name| + |LineMiddle|..|line| - |LineTail|] == digits;
    ParseFormatInt(r.count);
  }

  /** For one subscriber's name, the summary line tells the counts apart: two lines
      with the same name are equal exactly when the counts are. */
  lemma SummaryLineDistinguishesCounts(r: PublishResult, s: PublishResult)
    requires r.name == s.name
    ensures SummaryLine(r) == SummaryLine(s) <==> r.count == s.count
  {
    if SummaryLine(r) == SummaryLine(s) {
      var head := r.name + LineMiddle;
      var dr, ds := FormatInt(r.count), FormatInt(s.count);
      assert SummaryLine(r) == head + (dr + LineTail);
      assert SummaryLine(s) == head + (ds + LineTail);
      assert dr + LineTail == SummaryLine(r)[|head|..];
      assert ds + LineTail == SummaryLine(s)[|head|..];
      assert |dr| == |ds|;
      assert dr == (dr + LineTail)[..|dr|];
      assert ds == (ds + LineTail)[..|ds|];
      FormatIntInjective(r.count, s.count);
    }
  }

  /** The summary line of every result, in load order. */
  function ResultLines(outcomes: seq<Outcome>): (lines: seq<string>)
    ensures |lines| == |outcomes|
    ensures forall i :: 0 <= i < |outcomes| ==> lines[i] == SummaryLine(outcomes[i].result)
  {
    seq(|outcomes|, i requires 0 <= i < |outcomes| => SummaryLine(outcomes[i].result))
  }

  /** A run either panics because the subscriptions could not be loaded, or yields one
      outcome per subscription (in load order) and the summary lines. */
  datatype Report = LoadFailed | Completed(outcomes: seq<Outcome>, summary: seq<string>)

  /** The fan-out and join: one `publish` per loaded subscription, all with the same
      release time; the wait group makes the run collect exactly one outcome each. */
  method PublishAll(subs: seq<Subscription>, release: int, effects: seq<Effects>)
    returns (outcomes: seq<Outcome>)
    requires |effects| == |subs|
    ensures |outcomes| == |subs|
    ensures forall i :: 0 <= i < |subs| ==> outcomes[i] == Publish(subs[i], release, effects[i])
    ensures forall i :: 0 <= i < |subs| ==>
      && outcomes[i].result.name == DisplayName(subs[i])
      && outcomes[i].result.count <= ItemLimit
      && (outcomes[i].sentAt.Some? ==> outcomes[i].sentAt.value >= release)
      && (outcomes[i].stored == subs[i] || outcomes[i].stored == subs[i].(published := effects[i].finishedAt))
  {
    outcomes := seq(|subs|, i requires 0 <= i < |subs| => Publish(subs[i], release, effects[i]));
  }

  /** `for r := range resChan`: the header, then one line per result in arrival order.
      Whatever the arrival order, the lines are those of the results in load order,
      each exactly once. */
  method Summarize(outcomes: seq<Outcome>, arrival: seq<int>) returns (summary: seq<string>)
    requires IsArrivalOrder(arrival, |outcomes|)
    ensures |summary| == |outcomes| + 1
    ensures summary[0] == SummaryHeader
    ensures forall k :: 0 <= k < |outcomes| ==> summary[k + 1] == SummaryLine(outcomes[arrival[k]].result)
    ensures multiset(summary[1..]) == multiset(ResultLines(outcomes))
  {
    var lines := Arrange(ResultLines(outcomes), arrival);
    summary := [SummaryHeader] + lines;
    assert summary[1..] == lines;
  }

  /** The cron closure: fix the release time, load the subscriptions (a load error
      panics), publish to every subscriber and summarise the results. */
  method Run(loaded: Option<seq<Subscription>>, triggeredAt: int, effects: seq<Effects>, arrival: seq<int>)
    returns (report: Report)
    requires loaded.Some? ==> |effects| == |loaded.value| && IsArrivalOrder(arrival, |loaded.value|)
    ensures report.LoadFailed? <==> loaded.None?
    ensures report.Completed? ==>
      && |report.outcomes| == |loaded.value|
      && (forall i :: 0 <= i < |loaded.value| ==>
            report.outcomes[i] == Publish(loaded.value[i], ReleaseTime(triggeredAt), effects[i]))
      && (forall i :: 0 <= i < |loaded.value| && report.outcomes[i].sentAt.Some? ==>
            report.outcomes[i].sentAt.value >= ReleaseTime(triggeredAt))
      && |report.summary| == |loaded.value| + 1
      && report.summary[0] == SummaryHeader
      && multiset(report.summary[1..]) == multiset(ResultLines(report.outcomes))
  {
    var release := ReleaseTime(triggeredAt);
    if loaded.None? {
      return LoadFailed;
    }
    var outcomes := PublishAll(loaded.value, release, effects);
    var summary := Summarize(outcomes, arrival);
    report := Completed(outcomes, summary);
  }
}
