/**
 * The offer-count change detector of `monitor_offers`: the first reading is the
 * baseline, a reading that differs from the stored one raises exactly one
 * notice and replaces it, an equal reading does nothing.
 */
module ChangeDetection {
  import opened Wrappers

  /** The push notifications the monitor sends, with the figures their messages carry. */
  datatype Notice =
    | NewOffer(added: int, total: int)          // the count went up by `added` to `total`
    | CountChanged(previous: int, current: int) // the count went down (or otherwise changed)
    | SessionExpired                            // cookies rejected and no credentials stored
    | RetriesExhausted(attempts: nat)           // the re-login budget is spent

  /** The title each notice is pushed with (see `DetectTitle` for the detector's two). */
  function Title(n: Notice): string
  {
    match n
    case NewOffer(_, _) => "🎉您收到了一封新的Offer"
    case CountChanged(_, _) => "Offers状态更新"
    case SessionExpired => "❌ UCAS登录失效"
    case RetriesExhausted(_) => "❌ UCAS登录失败"
  }

  /** The stored count after a reading, and the notice it raised, if any. */
  datatype Detection = Detection(last: int, notice: Option<Notice>)

  /** One successful reading `current` against the stored count `last`. */
  function Detect(last: Option<int>, current: int): (d: Detection)
    ensures d.last == current
    ensures d.notice.None? <==> last.None? || last.value == current
    ensures d.notice.Some? ==> last.Some? && (d.notice.value.NewOffer? || d.notice.value.CountChanged?)
    ensures d.notice.Some? ==> (d.notice.value.NewOffer? <==> current - last.value > 0)
    ensures d.notice.Some? && d.notice.value.NewOffer? ==>
      d.notice.value.added == current - last.value && d.notice.value.total == current
    ensures d.notice.Some? && d.notice.value.CountChanged? ==>
      d.notice.value.previous == last.value && d.notice.value.current == current
  {
    match last
    case None => Detection(current, None)
    case Some(previous) =>
      if current == previous then Detection(previous, None)
      else
        var change := current - previous;
        if change > 0 then Detection(current, Some(NewOffer(change, current)))
        else Detection(current, Some(CountChanged(previous, current)))
  }

  /**
   * The detector pushes its notice under the new-offer title exactly when the
   * count rose, and under the status-update title otherwise.
   */
  lemma DetectTitle(last: Option<int>, current: int)
    ensures var d := Detect(last, current);
      d.notice.Some? ==>
        Title(d.notice.value) == (if current > last.value then "🎉您收到了一封新的Offer" else "Offers状态更新")
  {
  }

  /** Feeding the same reading twice raises nothing the second time. */
  lemma DetectIdempotent(last: Option<int>, current: int)
    ensures Detect(Some(Detect(last, current).last), current) == Detection(current, None)
  {
  }

  /** The notices raised by a run of successful readings, in order. */
  function Notices(last: Option<int>, readings: seq<int>): seq<Notice>
    decreases |readings|
  {
    if readings == [] then []
    else
      var d := Detect(last, readings[0]);
      (if d.notice.Some? then [d.notice.value] else []) + Notices(Some(d.last), readings[1..])
  }

  /** The change in the count that a notice reports. */
  function Delta(n: Notice): int
  {
    match n
    case NewOffer(added, _) => added
    case CountChanged(previous, current) => current - previous
    case _ => 0
  }

  /** The sum of the changes reported by a sequence of notices. */
  function TotalDelta(ns: seq<Notice>): int
  {
    if ns == [] then 0 else Delta(ns[0]) + TotalDelta(ns[1..])
  }

  /** Summing is compatible with concatenation. */
  lemma {:induction false} TotalDeltaAppend(xs: seq<Notice>, ys: seq<Notice>)
    ensures TotalDelta(xs + ys) == TotalDelta(xs) + TotalDelta(ys)
    decreases |xs|
  {
    if xs == [] {
      assert xs + ys == ys;
    } else {
      assert (xs + ys)[1..] == xs[1..] + ys;
      TotalDeltaAppend(xs[1..], ys);
    }
  }

  /**
   * Nothing is lost or double-counted: the changes reported over a run of
   * readings add up to the last reading minus the baseline.
   */
  lemma {:induction false} NoticesTelescope(baseline: int, readings: seq<int>)
    requires readings != []
    ensures TotalDelta(Notices(Some(baseline), readings)) == readings[|readings| - 1] - baseline
    decreases |readings|
  {
    var d := Detect(Some(baseline), readings[0]);
    var head := if d.notice.Some? then [d.notice.value] else [];
    TotalDeltaAppend(head, Notices(Some(d.last), readings[1..]));
    if |readings| > 1 {
      NoticesTelescope(d.last, readings[1..]);
    }
  }

  /** The first reading only sets the baseline: a run from no baseline raises what a run from the first reading raises. */
  lemma FirstReadingIsBaseline(first: int, rest: seq<int>)
    ensures Notices(None, [first] + rest) == Notices(Some(first), rest)
  {
    assert ([first] + rest)[1..] == rest;
  }

  /** Each reading raises at most one notice. */
  lemma {:induction false} AtMostOneNoticePerReading(last: Option<int>, readings: seq<int>)
    ensures |Notices(last, readings)| <= |readings|
    ensures last.None? && readings != [] ==> |Notices(last, readings)| < |readings|
    decreases |readings|
  {
    if readings != [] {
      AtMostOneNoticePerReading(Some(readings[0]), readings[1..]);
    }
  }
}
