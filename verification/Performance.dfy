/**
 * The performance module: one period for every selection of a scheduling algorithm, of which the
 * last ones are kept, and the attribution of released requests to periods.
 */
module Performance {
  import opened Sequences
  import opened RunningAverage

  datatype Period = Period(timestamp: int, alg: int, bandwidth: int, size: int, reqnb: int)

  /** What a released request adds to its period. */
  datatype Release = Release(dispatch: int, len: int, bandwidth: int)

  datatype Event = Select(alg: int, now: int) | Released(r: Release)

  const LEN: Release -> int := (r: Release) => r.len

  /** The last `n` elements. */
  function Last<T>(s: seq<T>, n: nat): seq<T>
  {
    if |s| <= n then s else s[|s| - n..]
  }

  function Map<A, B>(f: A -> B, s: seq<A>): (t: seq<B>)
    ensures |t| == |s| && forall k :: 0 <= k < |s| ==> t[k] == f(s[k])
  {
    seq(|s|, k requires 0 <= k < |s| => f(s[k]))
  }

  // ---------------------------------------------------------------------------------------------
  // The period that dispatched a request
  // ---------------------------------------------------------------------------------------------

  /** `p` is the latest of the periods starting no later than `d`, or -1 if all start later. */
  ghost predicate IsPeriodOf(starts: seq<int>, d: int, p: int)
  {
    && -1 <= p < |starts|
    && (p >= 0 ==> starts[p] <= d)
    && (forall k :: p < k < |starts| ==> starts[k] > d)
  }

  function PeriodOf(starts: seq<int>, d: int): (p: int)
    ensures IsPeriodOf(starts, d, p)
  {
    if starts == [] then -1
    else
      var n := |starts| - 1;
      if starts[n] <= d then n else PeriodOf(starts[..n], d)
  }

  lemma PeriodIsUnique(starts: seq<int>, d: int, p: int, q: int)
    requires IsPeriodOf(starts, d, p) && IsPeriodOf(starts, d, q)
    ensures p == q
  {
  }

  /** If periods start in order, it is the one with the largest start time that is not after `d`. */
  lemma PeriodIsLatest(starts: seq<int>, d: int, p: int)
    requires IsPeriodOf(starts, d, p) && forall i, j :: 0 <= i < j < |starts| ==> starts[i] <= starts[j]
    ensures p == -1 <==> forall k :: 0 <= k < |starts| ==> starts[k] > d
    ensures p >= 0 ==> forall k :: 0 <= k < |starts| && starts[k] <= d ==> starts[k] <= starts[p]
  {
  }

  /** Looking only at the last periods finds the period of the whole history if that one is kept. */
  lemma {:induction false} PeriodAmongLast(starts: seq<int>, n: nat, d: int)
    requires n <= |starts|
    ensures var p, g := PeriodOf(starts[|starts| - n..], d), PeriodOf(starts, d);
            if p >= 0 then g == |starts| - n + p else g < |starts| - n
  {
    var m := |starts| - n;
    var p, g := PeriodOf(starts[m..], d), PeriodOf(starts, d);
    forall k | m + p < k < |starts| && k >= m ensures starts[k] > d {
      assert starts[k] == starts[m..][k - m];
    }
    if p >= 0 {
      PeriodIsUnique(starts, d, m + p, g);
    }
  }

  // ---------------------------------------------------------------------------------------------
  // The whole history, nothing of which is ever forgotten
  // ---------------------------------------------------------------------------------------------

  /** A period together with all requests released so far that were dispatched in it. */
  datatype Record = Record(timestamp: int, alg: int, releases: seq<Release>)

  const START: Record -> int := (s: Record) => s.timestamp
  const BANDWIDTH: Release -> int := (r: Release) => r.bandwidth

  function Log(h: seq<Record>, e: Event): seq<Record>
  {
    match e
    case Select(alg, now) => h + [Record(now, alg, [])]
    case Released(r) =>
      var p := PeriodOf(Map(START, h), r.dispatch);
      if p < 0 then h else h[p := h[p].(releases := h[p].releases + [r])]
  }

  function History(evs: seq<Event>): seq<Record>
  {
    if evs == [] then [] else
      var n := |evs| - 1;
      Log(History(evs[..n]), evs[n])
  }

  /** Number, total size and average bandwidth of the released requests. */
  function Summary(s: Record): Period
  {
    Period(s.timestamp, s.alg, Average(0, Map(BANDWIDTH, s.releases)), Sum(s.releases, LEN), |s.releases|)
  }

  const SUMMARY: Record -> Period := (s: Record) => Summary(s)

  // ---------------------------------------------------------------------------------------------
  // What the module keeps
  // ---------------------------------------------------------------------------------------------

  const TIMESTAMP: Period -> int := (p: Period) => p.timestamp

  /** A release accounted to a period. */
  function Account(p: Period, r: Release): Period
    requires p.reqnb >= 0
  {
    p.(reqnb := p.reqnb + 1, size := p.size + r.len,
       bandwidth := UpdateIterativeAverage(p.bandwidth, r.bandwidth, p.reqnb + 1))
  }

  /** `keep` is config_agios_performance_values. */
  function Step(keep: nat, ps: seq<Period>, e: Event): (t: seq<Period>)
    requires forall p :: p in ps ==> p.reqnb >= 0
    ensures forall p :: p in t ==> p.reqnb >= 0
  {
    match e
    case Select(alg, now) => Last(ps + [Period(now, alg, 0, 0, 0)], keep)
    case Released(r) =>
      var p := PeriodOf(Map(TIMESTAMP, ps), r.dispatch);
      if p < 0 then ps else ps[p := Account(ps[p], r)]
  }

  function Run(keep: nat, evs: seq<Event>): (t: seq<Period>)
    ensures forall p :: p in t ==> p.reqnb >= 0
  {
    if evs == [] then [] else
      var n := |evs| - 1;
      Step(keep, Run(keep, evs[..n]), evs[n])
  }

  lemma AccountSummarizes(s: Record, r: Release)
    ensures Account(Summary(s), r) == Summary(s.(releases := s.releases + [r]))
  {
    SumConcat(s.releases, [r], LEN);
    var all := Map(BANDWIDTH, s.releases + [r]);
    assert all[..|s.releases|] == Map(BANDWIDTH, s.releases);
  }

  lemma LastOfLast<T>(s: seq<T>, x: T, n: nat)
    ensures Last(Last(s, n) + [x], n) == Last(s + [x], n)
  {
  }

  lemma LastOfMapped<A, B>(f: A -> B, s: seq<A>, x: A, n: nat)
    ensures Last(Map(f, s) + [f(x)], n) == Map(f, Last(s + [x], n))
  {
    assert Map(f, s) + [f(x)] == Map(f, s + [x]);
  }

  lemma SelectRefines(keep: nat, h: seq<Record>, e: Event)
    requires e.Select?
    ensures Step(keep, Map(SUMMARY, Last(h, keep)), e) == Map(SUMMARY, Last(Log(h, e), keep))
  {
    LastOfMapped(SUMMARY, Last(h, keep), Record(e.now, e.alg, []), keep);
    LastOfLast(h, Record(e.now, e.alg, []), keep);
    assert Map(BANDWIDTH, []) == [];
    assert SUMMARY(Record(e.now, e.alg, [])) == Period(e.now, e.alg, 0, 0, 0);
  }

  lemma LastOfUpdated<T>(s: seq<T>, n: nat, k: nat, x: T)
    requires k < |s|
    ensures Last(s[k := x], n) ==
            (if k + n < |s| then Last(s, n) else Last(s, n)[k - (|s| - |Last(s, n)|) := x])
  {
  }

  lemma MapOfUpdated<A, B>(f: A -> B, s: seq<A>, k: nat, x: A)
    requires k < |s|
    ensures Map(f, s[k := x]) == Map(f, s)[k := f(x)]
  {
  }

  lemma SummaryKeepsStart(h: seq<Record>)
    ensures Map(TIMESTAMP, Map(SUMMARY, h)) == Map(START, h)
  {
  }

  lemma MapOfLast<A, B>(f: A -> B, s: seq<A>, n: nat)
    ensures Map(f, Last(s, n)) == Map(f, s)[|s| - |Last(s, n)|..]
  {
  }

  lemma PeriodOfKept(h: seq<Record>, keep: nat, d: int)
    ensures var p, g := PeriodOf(Map(TIMESTAMP, Map(SUMMARY, Last(h, keep))), d), PeriodOf(Map(START, h), d);
            if p >= 0 then g == |h| - |Last(h, keep)| + p else g < |h| - |Last(h, keep)|
  {
    var n := |Last(h, keep)|;
    SummaryKeepsStart(Last(h, keep));
    MapOfLast(START, h, keep);
    PeriodAmongLast(Map(START, h), n, d);
  }

  lemma UpdateSummarizes(last: seq<Record>, p: nat, r: Release)
    requires p < |last|
    ensures Map(SUMMARY, last)[p := Account(SUMMARY(last[p]), r)] ==
            Map(SUMMARY, last[p := last[p].(releases := last[p].releases + [r])])
  {
    AccountSummarizes(last[p], r);
    MapOfUpdated(SUMMARY, last, p, last[p].(releases := last[p].releases + [r]));
  }

  /** What a release does to the kept part of the history. */
  lemma LastOfLog(keep: nat, h: seq<Record>, r: Release)
    ensures var last := Last(h, keep);
            var p := PeriodOf(Map(TIMESTAMP, Map(SUMMARY, last)), r.dispatch);
            Last(Log(h, Released(r)), keep) ==
              (if p < 0 then last else last[p := last[p].(releases := last[p].releases + [r])])
  {
    var g := PeriodOf(Map(START, h), r.dispatch);
    PeriodOfKept(h, keep, r.dispatch);
    if g >= 0 {
      LastOfUpdated(h, keep, g, h[g].(releases := h[g].releases + [r]));
    }
  }

  lemma ReleaseRefines(keep: nat, h: seq<Record>, e: Event)
    requires e.Released?
    ensures Step(keep, Map(SUMMARY, Last(h, keep)), e) == Map(SUMMARY, Last(Log(h, e), keep))
  {
    var last := Last(h, keep);
    var p := PeriodOf(Map(TIMESTAMP, Map(SUMMARY, last)), e.r.dispatch);
    LastOfLog(keep, h, e.r);
    if p >= 0 {
      UpdateSummarizes(last, p, e.r);
    }
  }

  /**
   * In every run the list holds exactly the last periods, and each of them has counted, summed and
   * averaged exactly the released requests that were dispatched in it, as if nothing were evicted.
   */
  lemma {:induction false} EveryRunSummarizesHistory(keep: nat, evs: seq<Event>)
    ensures Run(keep, evs) == Map(SUMMARY, Last(History(evs), keep))
  {
    if evs == [] {
    } else {
      var n := |evs| - 1;
      EveryRunSummarizesHistory(keep, evs[..n]);
      if evs[n].Select? {
        SelectRefines(keep, History(evs[..n]), evs[n]);
      } else {
        ReleaseRefines(keep, History(evs[..n]), evs[n]);
      }
    }
  }

  // ---------------------------------------------------------------------------------------------
  // The list, updated in place
  // ---------------------------------------------------------------------------------------------

  /** current_performance_entry */
  function Current<T>(ps: seq<T>): T
    requires ps != []
  {
    ps[|ps| - 1]
  }

  lemma RunSnoc(keep: nat, evs: seq<Event>, e: Event)
    ensures Run(keep, evs + [e]) == Step(keep, Run(keep, evs), e)
  {
    assert (evs + [e])[..|evs|] == evs;
  }

  /** What a release does, given the period that `get_request_entry` found. */
  lemma ReleaseStep(keep: nat, ps: seq<Period>, r: Release, p: int)
    requires IsPeriodOf(Map(TIMESTAMP, ps), r.dispatch, p) && ps != [] && forall q :: q in ps ==> q.reqnb >= 0
    ensures Step(keep, ps, Released(r)) == (if p < 0 then ps else ps[p := Account(ps[p], r)])
    ensures Current(Step(keep, ps, Released(r))).reqnb == Current(ps).reqnb + (if p == |ps| - 1 then 1 else 0)
  {
    PeriodIsUnique(Map(TIMESTAMP, ps), r.dispatch, p, PeriodOf(Map(TIMESTAMP, ps), r.dispatch));
  }

  lemma CurrentSummary(h: seq<Record>, keep: nat)
    requires keep >= 1 && Last(h, keep) != []
    ensures h != [] && Current(Map(SUMMARY, Last(h, keep))).reqnb == |Current(h).releases|
  {
    assert Current(Last(h, keep)) == Current(h);
  }

  class PerformanceInfo {
    const keep: nat
    var entries: seq<Period>
    /** agios_processed_reqnb */
    var processed: int
    ghost var history: seq<Event>

    ghost predicate Valid()
      reads this
    {
      keep >= 1 && entries == Run(keep, history) && processed == (if entries == [] then 0 else Current(entries).reqnb)
    }

    constructor (keep: nat)
      requires keep >= 1
      ensures Valid() && history == [] && this.keep == keep
    {
      this.keep, entries, processed, history := keep, [], 0, [];
    }

    /** `performance_set_new_algorithm` */
    method SetNewAlgorithm(alg: int, now: int)
      requires Valid()
      modifies this
      ensures Valid() && history == old(history) + [Select(alg, now)]
      ensures processed == 0 && entries != [] && Current(entries) == Period(now, alg, 0, 0, 0)
    {
      ghost var added := entries + [Period(now, alg, 0, 0, 0)];
      entries := entries + [Period(now, alg, 0, 0, 0)];
      processed := 0;
      while |entries| > keep
        invariant |entries| <= |added| && entries == added[|added| - |entries|..]
        invariant history == old(history) && processed == 0
        invariant |added| <= keep ==> entries == added
        invariant |added| > keep ==> |entries| >= keep
      {
        entries := entries[1..];
      }
      assert entries == Last(added, keep);
      RunSnoc(keep, history, Select(alg, now));
      history := history + [Select(alg, now)];
    }

    /** `get_request_entry`: -1 stands for NULL. */
    method GetRequestEntry(dispatch: int) returns (p: int)
      requires entries != []
      ensures IsPeriodOf(Map(TIMESTAMP, entries), dispatch, p)
    {
      p := |entries| - 1;
      while true
        invariant 0 <= p < |entries| && forall k :: p < k < |entries| ==> entries[k].timestamp > dispatch
        decreases p
      {
        if entries[p].timestamp > dispatch {
          if p == 0 {
            return -1;
          }
          p := p - 1;
        } else {
          return;
        }
      }
    }

    /** The part of `agios_release_request` that updates the global performance information. */
    method AccountRelease(r: Release)
      requires Valid() && entries != []
      modifies this
      ensures Valid() && history == old(history) + [Released(r)] && |entries| == old(|entries|)
    {
      var p := GetRequestEntry(r.dispatch);
      ReleaseStep(keep, entries, r, p);
      if p >= 0 {
        entries := entries[p := Account(entries[p], r)];
        if p == |entries| - 1 {
          processed := processed + 1;
        }
      }
      RunSnoc(keep, history, Released(r));
      history := history + [Released(r)];
    }

    /** agios_processed_reqnb counts the released requests that the current algorithm dispatched. */
    lemma ProcessedCountsCurrent()
      requires Valid() && entries != []
      ensures History(history) != [] && processed == |Current(History(history)).releases|
    {
      EveryRunSummarizesHistory(keep, history);
      CurrentSummary(History(history), keep);
    }
  }
}
