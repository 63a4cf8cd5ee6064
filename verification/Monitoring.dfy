/** Judging what the machines measure, and the alerts opened and resolved for
    it (api/odm/monitor.py). */
module Monitoring {
  import opened Text

  const DEFAULT_INTERVAL := 60
  const COVERED_SHARE := 0.6

  datatype Key = Key(host: string, metric: string)

  datatype Sample = Sample(at: real, value: real)

  datatype Rule = Rule(over: bool, threshold: real)

  predicate Holds(rule: Rule, value: real) {
    if rule.over then value > rule.threshold else value < rule.threshold
  }

  // --------------------------------------------------------------- judging ----

  // How far back a rule looks: at least two intervals.
  function Lookback(window: int): int {
    if window > DEFAULT_INTERVAL * 2 then window else DEFAULT_INTERVAL * 2
  }

  // One series as the database summarises it.
  datatype Row = Row(key: Key, low: real, high: real, first: real, last: real, newest: real)

  predicate IsNewest(samples: seq<Sample>, s: Sample) {
    s in samples && forall o :: o in samples ==> o.at <= s.at
  }

  // min, max and the newest value; of samples taken at one moment any may be the newest.
  ghost predicate Summarises(r: Row, samples: seq<Sample>) {
    && (exists s :: s in samples && s.value == r.low) && (forall s :: s in samples ==> r.low <= s.value)
    && (exists s :: s in samples && s.value == r.high) && (forall s :: s in samples ==> s.value <= r.high)
    && (exists s :: s in samples && s.at == r.first) && (forall s :: s in samples ==> r.first <= s.at)
    && (exists s :: s in samples && s.at == r.last) && (forall s :: s in samples ==> s.at <= r.last)
    && (exists s :: IsNewest(samples, s) && s.value == r.newest)
  }

  // One row per series that has samples in the lookback.
  ghost predicate Grouped(rows: seq<Row>, series: map<Key, seq<Sample>>) {
    && (forall i :: 0 <= i < |rows| ==> rows[i].key in series && Summarises(rows[i], series[rows[i].key]))
    && (forall k :: k in series ==> exists i :: 0 <= i < |rows| && rows[i].key == k)
    && (forall i, j :: 0 <= i < j < |rows| ==> rows[i].key != rows[j].key)
  }

  // The statement about the samples themselves: every one breaks the rule,
  // and two of them lie far enough apart.
  ghost predicate BreaksThroughout(rule: Rule, samples: seq<Sample>, window: int) {
    && (forall s :: s in samples ==> Holds(rule, s.value))
    && exists a, b :: a in samples && b in samples && b.at - a.at >= window as real * COVERED_SHARE
  }

  // What the summary of one series comes to.
  function RowFires(rule: Rule, r: Row, window: int): Option<real> {
    var fires :=
      if window <= DEFAULT_INTERVAL then Holds(rule, r.newest)
      else Holds(rule, if rule.over then r.low else r.high) && r.last - r.first >= window as real * COVERED_SHARE;
    if fires then Some(r.newest) else None
  }

  lemma EdgeSpeaksForAll(rule: Rule, r: Row, samples: seq<Sample>)
    requires Summarises(r, samples)
    ensures Holds(rule, if rule.over then r.low else r.high) <==> forall s :: s in samples ==> Holds(rule, s.value)
  {
  }

  lemma EndsSpanAll(r: Row, samples: seq<Sample>, least: real)
    requires Summarises(r, samples)
    ensures r.last - r.first >= least <==> exists a, b :: a in samples && b in samples && b.at - a.at >= least
  {
    var f :| f in samples && f.at == r.first;
    var l :| l in samples && l.at == r.last;
    if a, b :| a in samples && b in samples && b.at - a.at >= least {
      assert r.first <= a.at && b.at <= r.last;
    }
  }

  // What a series should be judged: over more than one interval by every
  // sample, over less by the newest one, whose value is reported.
  ghost predicate JudgedRightly(rule: Rule, samples: seq<Sample>, window: int, fired: Option<real>) {
    && (window > DEFAULT_INTERVAL ==> (fired.Some? <==> BreaksThroughout(rule, samples, window)))
    && (window <= DEFAULT_INTERVAL ==> exists s :: IsNewest(samples, s) && (fired.Some? <==> Holds(rule, s.value)))
    && (fired.Some? ==> exists s :: IsNewest(samples, s) && s.value == fired.value)
  }

  lemma RowIsJudgedRightly(rule: Rule, r: Row, samples: seq<Sample>, window: int)
    requires Summarises(r, samples)
    ensures JudgedRightly(rule, samples, window, RowFires(rule, r, window))
  {
    EdgeSpeaksForAll(rule, r, samples);
    EndsSpanAll(r, samples, window as real * COVERED_SHARE);
    var s :| IsNewest(samples, s) && s.value == r.newest;
  }

  ghost function FiredFor(firing: map<Key, real>, k: Key): Option<real> {
    if k in firing then Some(firing[k]) else None
  }

  // Judging the summaries judges the samples rightly.
  method Judge(rule: Rule, rows: seq<Row>, window: int, ghost series: map<Key, seq<Sample>>)
    returns (firing: map<Key, real>)
    requires Grouped(rows, series)
    ensures firing.Keys <= series.Keys
    ensures forall k :: k in series ==> JudgedRightly(rule, series[k], window, FiredFor(firing, k))
  {
    firing := JudgeRows(rule, rows, window);
    forall k | k in series ensures JudgedRightly(rule, series[k], window, FiredFor(firing, k)) {
      var i :| 0 <= i < |rows| && rows[i].key == k;
      RowIsJudgedRightly(rule, rows[i], series[k], window);
    }
  }

  method JudgeRows(rule: Rule, rows: seq<Row>, window: int) returns (firing: map<Key, real>)
    requires forall i, j :: 0 <= i < j < |rows| ==> rows[i].key != rows[j].key
    ensures forall i :: 0 <= i < |rows| ==> FiredFor(firing, rows[i].key) == RowFires(rule, rows[i], window)
    ensures forall k :: k in firing ==> exists i :: 0 <= i < |rows| && rows[i].key == k
  {
    firing := map[];
    for n := 0 to |rows|
      invariant forall i :: 0 <= i < n ==> FiredFor(firing, rows[i].key) == RowFires(rule, rows[i], window)
      invariant forall k :: k in firing ==> exists i :: 0 <= i < n && rows[i].key == k
    {
      var row := rows[n];
      if window <= DEFAULT_INTERVAL {
        if Holds(rule, row.newest) {
          firing := firing[row.key := row.newest];
        }
        continue;
      }
      var edge := if rule.over then row.low else row.high;
      if !Holds(rule, edge) {
        continue;
      }
      var covered := row.last - row.first;
      if covered < window as real * COVERED_SHARE {
        continue;
      }
      firing := firing[row.key := row.newest];
    }
  }

  function Since(moment: real): Sample -> bool {
    (s: Sample) => s.at >= moment
  }

  // The samples of the last so many seconds.
  function Recent(samples: seq<Sample>, now: real, seconds: int): seq<Sample> {
    Filter(Since(now - seconds as real), samples)
  }

  lemma RecentMember(samples: seq<Sample>, now: real, seconds: int, s: Sample)
    ensures s in Recent(samples, now, seconds) <==> s in samples && s.at >= now - seconds as real
  {
    FilterMember(Since(now - seconds as real), samples, s);
  }

  /** A window that is shorter than two intervals but longer than one is
      judged over more than itself: an older sample within the limit keeps it
      from firing though the whole window breaks the rule. */
  lemma LookbackOutreachesWindow(window: int)
    requires window > 60
    ensures (forall rule: Rule, samples: seq<Sample>, now: real ::
               BreaksThroughout(rule, Recent(samples, now, window), window)
               <==> BreaksThroughout(rule, Recent(samples, now, Lookback(window)), window))
        <==> window >= 120
  {
    if window < DEFAULT_INTERVAL * 2 {
      var rule, end := Rule(true, 5.0), window as real;
      var samples := [Sample(end - 120.0, 1.0), Sample(0.0, 9.0), Sample(end, 9.0)];
      forall s: Sample, seconds: int {
        RecentMember(samples, end, seconds, s);
      }
      assert samples[0] in samples && samples[1] in samples && samples[2] in samples;
      assert !BreaksThroughout(rule, Recent(samples, end, Lookback(window)), window) by {
        assert samples[0] in Recent(samples, end, Lookback(window)) && !Holds(rule, samples[0].value);
      }
      assert BreaksThroughout(rule, Recent(samples, end, window), window) by {
        assert samples[1] in Recent(samples, end, window) && samples[2] in Recent(samples, end, window);
      }
    }
  }

  /** In plain terms: over more than a minute a series is judged to break a rule
      exactly when every sample lies above the threshold (or below it, as the
      rule says) and two lie at least 0.6 of the window apart; over a minute or
      less, when the newest sample does. A value at the threshold breaks
      nothing, and what is reported is the newest value. */
  lemma JudgedExactly(rule: Rule, r: Row, samples: seq<Sample>, window: int)
    requires Summarises(r, samples)
    ensures window > 60 ==>
      (RowFires(rule, r, window).Some? <==>
        && (forall s :: s in samples ==> if rule.over then s.value > rule.threshold else s.value < rule.threshold)
        && exists a, b :: a in samples && b in samples && b.at - a.at >= window as real * 0.6)
    ensures window <= 60 ==>
      (RowFires(rule, r, window).Some? <==>
        if rule.over then r.newest > rule.threshold else r.newest < rule.threshold)
    ensures RowFires(rule, r, window).Some? ==>
      exists s :: && s in samples && s.value == RowFires(rule, r, window).value
                  && forall o :: o in samples ==> o.at <= s.at
    ensures Lookback(window) == if window < 120 then 120 else window
  {
    EdgeSpeaksForAll(rule, r, samples);
    EndsSpanAll(r, samples, window as real * 0.6);
    var s :| IsNewest(samples, s) && s.value == r.newest;
  }

  // What the database has of some samples, once there is one more.
  function WithMore(r: Row, s: Sample): Row {
    Row(r.key,
        if s.value < r.low then s.value else r.low, if s.value > r.high then s.value else r.high,
        if s.at < r.first then s.at else r.first, if s.at > r.last then s.at else r.last,
        if s.at >= r.last then s.value else r.newest)
  }

  lemma MoreIsSummarised(r: Row, samples: seq<Sample>, s: Sample)
    requires Summarises(r, samples)
    ensures Summarises(WithMore(r, s), samples + [s])
  {
    var all, u := samples + [s], WithMore(r, s);
    assert s in all && forall o :: o in samples ==> o in all;
    var newest :| IsNewest(samples, newest) && newest.value == r.newest;
    var last :| last in samples && last.at == r.last;
    assert IsNewest(all, if s.at >= r.last then s else newest);
  }

  /** Any samples but none at all have a summary, so that each is judged. */
  lemma {:induction false} SummaryExists(key: Key, samples: seq<Sample>) returns (r: Row)
    requires |samples| > 0
    ensures r.key == key && Summarises(r, samples)
  {
    var n := |samples| - 1;
    var s := samples[n];
    if n == 0 {
      r := Row(key, s.value, s.value, s.at, s.at, s.value);
      assert IsNewest(samples, s);
    } else {
      var before := SummaryExists(key, samples[..n]);
      r := WithMore(before, s);
      MoreIsSummarised(before, samples[..n], s);
      assert samples[..n] + [s] == samples;
    }
  }
}
