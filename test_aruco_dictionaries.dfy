/**
 * The dictionary survey (test_aruco_dictionaries.py): every predefined ArUco
 * dictionary is tried on the same sampled frames of a video; a dictionary that
 * detects any marker is reported with the sorted ids it saw, the number of
 * sampled frames with a detection and the detection rate, and the dictionaries
 * are ranked by rate to recommend one.
 *
 * The detector is foreign: `observe(name, index)` is what reading the frame at
 * `index` and running the detector for dictionary `name` yields, and
 * `fails(name)` says that setting up the detector for that dictionary raises.
 * The sampled frame indices (np.linspace over the video) are an input.
 */
module DictionarySurvey {
  import opened Common

  /** The dictionaries tried, in this order. */
  const ARUCO_DICTS: seq<string> := [
    "DICT_4X4_50", "DICT_4X4_100", "DICT_4X4_250", "DICT_4X4_1000",
    "DICT_5X5_50", "DICT_5X5_100", "DICT_5X5_250", "DICT_5X5_1000",
    "DICT_6X6_50", "DICT_6X6_100", "DICT_6X6_250", "DICT_6X6_1000",
    "DICT_7X7_50", "DICT_7X7_100", "DICT_7X7_250", "DICT_7X7_1000",
    "DICT_ARUCO_ORIGINAL"]

  /** What one sampled frame yields: it could not be read, or the ids the detector
      found in it (possibly none). */
  datatype Observation = Unread | Read(ids: seq<int>)

  predicate HasDetection(o: Observation)
  {
    o.Read? && o.ids != []
  }

  /** The observations of one dictionary over the sampled frames, in sampling order. */
  function Observed(name: string, indices: seq<int>, observe: (string, int) -> Observation): (obs: seq<Observation>)
    ensures |obs| == |indices|
    ensures forall k :: 0 <= k < |indices| ==> obs[k] == observe(name, indices[k])
  {
    seq(|indices|, k requires 0 <= k < |indices| => observe(name, indices[k]))
  }

  /** The union of the ids seen in the frames with a detection. */
  function IdsSeen(obs: seq<Observation>): set<int>
  {
    if obs == [] then {}
    else
      var o := obs[|obs| - 1];
      IdsSeen(obs[..|obs| - 1]) + if HasDetection(o) then set x | x in o.ids else {}
  }

  /** The number of frames with at least one detection. */
  function FramesSeen(obs: seq<Observation>): nat
  {
    if obs == [] then 0 else FramesSeen(obs[..|obs| - 1]) + if HasDetection(obs[|obs| - 1]) then 1 else 0
  }

  /** Unread frames and frames without markers count for nothing but still belong
      to the sample: at most every sampled frame has a detection, and some id was
      seen exactly when some frame had a detection. */
  lemma {:induction false} SeenCounts(obs: seq<Observation>)
    ensures FramesSeen(obs) <= |obs|
    ensures IdsSeen(obs) != {} <==> FramesSeen(obs) > 0
  {
    if obs != [] {
      var o := obs[|obs| - 1];
      SeenCounts(obs[..|obs| - 1]);
      if HasDetection(o) {
        assert o.ids[0] in IdsSeen(obs);
      }
    }
  }

  /** An id is seen exactly when it is among some read frame's detections. */
  lemma {:induction false} SeenIds(obs: seq<Observation>)
    ensures forall x :: x in IdsSeen(obs) <==> exists k :: 0 <= k < |obs| && obs[k].Read? && x in obs[k].ids
  {
    if obs != [] {
      var prev, o := obs[..|obs| - 1], obs[|obs| - 1];
      SeenIds(prev);
      forall x ensures x in IdsSeen(obs) <==> exists k :: 0 <= k < |obs| && obs[k].Read? && x in obs[k].ids {
        if x in IdsSeen(prev) {
          var k :| 0 <= k < |prev| && prev[k].Read? && x in prev[k].ids;
          assert obs[k] == prev[k];
        }
        if exists k :: 0 <= k < |obs| && obs[k].Read? && x in obs[k].ids {
          var k :| 0 <= k < |obs| && obs[k].Read? && x in obs[k].ids;
          if k < |prev| {
            assert prev[k] == obs[k];
          } else {
            assert HasDetection(o);
          }
        }
      }
    }
  }

  /** The percentage of sampled frames with a detection. */
  function Rate(framesDetected: nat, sampled: nat): (r: real)
    requires 0 < sampled
    ensures framesDetected <= sampled ==> 0.0 <= r <= 100.0
    ensures r * (sampled as real) == (framesDetected as real) * 100.0
  {
    QuotientBounds(framesDetected as real, sampled as real, 0.0, if framesDetected <= sampled then 1.0 else framesDetected as real);
    (framesDetected as real) / (sampled as real) * 100.0
  }

  predicate Increasing(s: seq<int>)
  {
    forall i, j :: 0 <= i < j < |s| ==> s[i] < s[j]
  }

  /** sorted(list(ids)): the ids in increasing order, each once. */
  function SortedIds(ids: set<int>): (r: seq<int>)
    ensures Increasing(r)
    ensures forall x :: x in r <==> x in ids
    ensures |r| == |ids|
    decreases |ids|
  {
    if ids == {} then []
    else
      var m := SmallestId(ids);
      [m] + SortedIds(ids - {m})
  }

  /** The least element of a non-empty set of ids. */
  function SmallestId(ids: set<int>): (m: int)
    requires ids != {}
    ensures m in ids && forall x :: x in ids ==> m <= x
  {
    LeastExists(ids);
    var m :| m in ids && forall x :: x in ids ==> m <= x;
    m
  }

  lemma {:induction false} LeastExists(ids: set<int>)
    requires ids != {}
    ensures exists m :: m in ids && forall x :: x in ids ==> m <= x
    decreases |ids|
  {
    if forall x :: x !in ids {
      assert false;
    }
    var y :| y in ids;
    var rest := ids - {y};
    if rest == {} {
      forall x | x in ids ensures y <= x {
        assert x !in rest;
      }
    } else {
      LeastExists(rest);
      var m :| m in rest && forall x :: x in rest ==> m <= x;
      var least := if y < m then y else m;
      forall x | x in ids ensures least <= x {
        if x != y { assert x in rest; }
      }
      assert least in ids;
    }
  }

  /** An increasing list is determined by its elements, so the sorted id list is
      the only increasing list of the ids seen. */
  lemma {:induction false} IncreasingUnique(a: seq<int>, b: seq<int>)
    requires Increasing(a) && Increasing(b)
    requires forall x :: x in a <==> x in b
    ensures a == b
  {
    if a != [] { assert a[0] in a; }
    if b != [] { assert b[0] in b; }
    if a != [] && b != [] {
      assert a[0] == b[0] by {
        assert a[0] in b && b[0] in a;
        var i :| 0 <= i < |b| && b[i] == a[0];
        var j :| 0 <= j < |a| && a[j] == b[0];
        assert a[0] <= a[j] && b[0] <= b[i];
      }
      forall x ensures x in a[1..] <==> x in b[1..] {
        if x in a[1..] {
          var i :| 1 <= i < |a| && a[i] == x;
          assert x in b && x != b[0];
        }
        if x in b[1..] {
          var i :| 1 <= i < |b| && b[i] == x;
          assert x in a && x != a[0];
        }
      }
      IncreasingUnique(a[1..], b[1..]);
      assert a == [a[0]] + a[1..] && b == [b[0]] + b[1..];
    }
  }

  /** One line of the results: the ids seen, the frames with a detection, the rate. */
  datatype DictResult = DictResult(name: string, markerIds: seq<int>, framesDetected: nat, rate: real)

  /** Some sampled frame had a detection exactly when the frame count is positive. */
  lemma {:induction false} FramesSeenPositive(obs: seq<Observation>)
    ensures FramesSeen(obs) > 0 <==> exists k :: 0 <= k < |obs| && HasDetection(obs[k])
  {
    if obs != [] {
      var prev := obs[..|obs| - 1];
      FramesSeenPositive(prev);
      if exists k :: 0 <= k < |prev| && HasDetection(prev[k]) {
        var k :| 0 <= k < |prev| && HasDetection(prev[k]);
        assert obs[k] == prev[k];
      }
      if exists k :: 0 <= k < |obs| && HasDetection(obs[k]) {
        var k :| 0 <= k < |obs| && HasDetection(obs[k]);
        if k < |prev| { assert prev[k] == obs[k]; }
      }
    }
  }

  /** The entry for one dictionary: none when setting it up raises or when it saw
      no marker; otherwise the sorted ids, the frame count and the rate. */
  function ResultFor(name: string, indices: seq<int>, observe: (string, int) -> Observation,
                     fails: string -> bool): (r: Option<DictResult>)
    ensures r.Some? <==> !fails(name) && FramesSeen(Observed(name, indices, observe)) > 0
    ensures r.Some? ==> ResultHolds(r.value, name, Observed(name, indices, observe))
  {
    var obs := Observed(name, indices, observe);
    var seen, frames := IdsSeen(obs), FramesSeen(obs);
    SeenCounts(obs);
    if fails(name) || seen == {} then None
    else
      var result := DictResult(name, SortedIds(seen), frames, Rate(frames, |indices|));
      assert ResultHolds(result, name, obs);
      Some(result)
  }

  /** What an entry says about the observations it summarises: the ids seen, in
      increasing order and each once; the frames with a detection, at most the
      number sampled; and their percentage of the sample. */
  ghost predicate ResultHolds(r: DictResult, name: string, obs: seq<Observation>)
  {
    && r.name == name
    && Increasing(r.markerIds)
    && (forall x :: x in r.markerIds <==> x in IdsSeen(obs))
    && r.framesDetected == FramesSeen(obs) <= |obs|
    && 0 < |obs| && r.rate == Rate(r.framesDetected, |obs|)
    && 0.0 <= r.rate <= 100.0
  }

  /** A dictionary gets an entry exactly when it set up and some sampled frame had a
      detection with it; unread frames never count. */
  lemma ResultForPresent(name: string, indices: seq<int>, observe: (string, int) -> Observation,
                         fails: string -> bool)
    ensures ResultFor(name, indices, observe, fails).Some?
      <==> !fails(name) && exists k :: 0 <= k < |indices| && HasDetection(observe(name, indices[k]))
  {
    var obs := Observed(name, indices, observe);
    FramesSeenPositive(obs);
    if exists k :: 0 <= k < |indices| && HasDetection(observe(name, indices[k])) {
      var k :| 0 <= k < |indices| && HasDetection(observe(name, indices[k]));
      assert HasDetection(obs[k]);
    }
  }

  /** The entry of every dictionary tried, in order. */
  function Entries(names: seq<string>, indices: seq<int>, observe: (string, int) -> Observation,
                   fails: string -> bool): (e: seq<Option<DictResult>>)
    ensures |e| == |names|
    ensures forall k :: 0 <= k < |names| ==> e[k] == ResultFor(names[k], indices, observe, fails)
  {
    seq(|names|, k requires 0 <= k < |names| => ResultFor(names[k], indices, observe, fails))
  }

  /** The values present in a list of optional entries, in order. */
  function Present(entries: seq<Option<DictResult>>): seq<DictResult>
  {
    if entries == [] then []
    else
      var e := entries[|entries| - 1];
      Present(entries[..|entries| - 1]) + if e.Some? then [e.value] else []
  }

  /** The results dictionary, in insertion (dictionary) order. */
  function Results(names: seq<string>, indices: seq<int>, observe: (string, int) -> Observation,
                   fails: string -> bool): seq<DictResult>
  {
    Present(Entries(names, indices, observe, fails))
  }

  /** An entry is listed exactly when it is present, and nothing else is. */
  lemma {:induction false} PresentListed(entries: seq<Option<DictResult>>)
    ensures forall r :: r in Present(entries) <==> Some(r) in entries
    ensures |Present(entries)| <= |entries|
  {
    if entries != [] {
      var prev := entries[..|entries| - 1];
      PresentListed(prev);
      assert entries == prev + [entries[|entries| - 1]];
    }
  }

  /** A dictionary is listed exactly when it set up and detected something. */
  lemma ResultsListed(names: seq<string>, indices: seq<int>,
                      observe: (string, int) -> Observation, fails: string -> bool)
    ensures forall r :: r in Results(names, indices, observe, fails) <==>
      exists k :: 0 <= k < |names| && ResultFor(names[k], indices, observe, fails) == Some(r)
    ensures |Results(names, indices, observe, fails)| <= |names|
  {
    var e := Entries(names, indices, observe, fails);
    PresentListed(e);
    forall r ensures Some(r) in e <==> exists k :: 0 <= k < |names| && ResultFor(names[k], indices, observe, fails) == Some(r) {
      if Some(r) in e {
        var k :| 0 <= k < |e| && e[k] == Some(r);
      }
    }
  }

  // ---------------------------------------------------------------------
  // Ranking: sorted(..., key=rate, reverse=True), which is stable
  // ---------------------------------------------------------------------

  /** Places r after every entry whose rate is at least its own. */
  function InsertByRate(ranked: seq<DictResult>, r: DictResult): (s: seq<DictResult>)
    ensures |s| == |ranked| + 1
  {
    if ranked == [] then [r]
    else if ranked[0].rate >= r.rate then [ranked[0]] + InsertByRate(ranked[1..], r)
    else [r] + ranked
  }

  /** The ranking: each entry is inserted after the equally rated ones before it. */
  function Rank(results: seq<DictResult>): (s: seq<DictResult>)
    ensures |s| == |results|
  {
    if results == [] then []
    else InsertByRate(Rank(results[..|results| - 1]), results[|results| - 1])
  }

  predicate Descending(s: seq<DictResult>)
  {
    forall i, j :: 0 <= i < j < |s| ==> s[i].rate >= s[j].rate
  }

  /** Inserting keeps every entry and adds r once. */
  lemma {:induction false} InsertByRatePermutes(ranked: seq<DictResult>, r: DictResult)
    ensures multiset(InsertByRate(ranked, r)) == multiset(ranked) + multiset{r}
  {
    if ranked != [] && ranked[0].rate >= r.rate {
      InsertByRatePermutes(ranked[1..], r);
      assert ranked == [ranked[0]] + ranked[1..];
    }
  }

  /** A bound on every rate, the inserted one included, bounds the result. */
  lemma {:induction false} InsertByRateBounded(ranked: seq<DictResult>, r: DictResult, bound: real)
    requires forall k :: 0 <= k < |ranked| ==> ranked[k].rate <= bound
    requires r.rate <= bound
    ensures forall k :: 0 <= k < |ranked| + 1 ==> InsertByRate(ranked, r)[k].rate <= bound
  {
    if ranked != [] && ranked[0].rate >= r.rate {
      InsertByRateBounded(ranked[1..], r, bound);
    }
  }

  /** Inserting into a list ordered by rate keeps it ordered. */
  lemma {:induction false} InsertByRateDescending(ranked: seq<DictResult>, r: DictResult)
    requires Descending(ranked)
    ensures Descending(InsertByRate(ranked, r))
  {
    if ranked != [] && ranked[0].rate >= r.rate {
      var tail := ranked[1..];
      InsertByRateDescending(tail, r);
      InsertByRateBounded(tail, r, ranked[0].rate);
      var s := InsertByRate(ranked, r);
      assert s == [ranked[0]] + InsertByRate(tail, r);
      forall i, j | 0 <= i < j < |s| ensures s[i].rate >= s[j].rate {
        if i == 0 {
          assert s[j] == InsertByRate(tail, r)[j - 1];
        } else {
          assert s[i] == InsertByRate(tail, r)[i - 1] && s[j] == InsertByRate(tail, r)[j - 1];
        }
      }
    }
  }

  /** The ranking is ordered by rate, highest first. */
  lemma {:induction false} RankDescending(results: seq<DictResult>)
    ensures Descending(Rank(results))
  {
    if results != [] {
      var prev := results[..|results| - 1];
      RankDescending(prev);
      InsertByRateDescending(Rank(prev), results[|results| - 1]);
    }
  }

  /** The ranking holds every result exactly as often as the results do. */
  lemma {:induction false} RankPermutes(results: seq<DictResult>)
    ensures multiset(Rank(results)) == multiset(results)
  {
    if results != [] {
      var prev := results[..|results| - 1];
      RankPermutes(prev);
      InsertByRatePermutes(Rank(prev), results[|results| - 1]);
      assert results == prev + [results[|results| - 1]];
    }
  }

  /** The entries with rate v, in list order. */
  function WithRate(s: seq<DictResult>, v: real): seq<DictResult>
  {
    if s == [] then [] else (if s[0].rate == v then [s[0]] else []) + WithRate(s[1..], v)
  }

  lemma WithRateCons(x: DictResult, t: seq<DictResult>, v: real)
    ensures WithRate([x] + t, v) == (if x.rate == v then [x] else []) + WithRate(t, v)
  {
    assert ([x] + t)[0] == x && ([x] + t)[1..] == t;
  }

  lemma {:induction false} WithRateSnoc(s: seq<DictResult>, x: DictResult, v: real)
    ensures WithRate(s + [x], v) == WithRate(s, v) + (if x.rate == v then [x] else [])
  {
    if s == [] {
      assert s + [x] == [x] + [];
      WithRateCons(x, [], v);
    } else {
      var t := s[1..];
      WithRateSnoc(t, x, v);
      assert s + [x] == [s[0]] + (t + [x]);
      WithRateCons(s[0], t + [x], v);
    }
  }

  lemma {:induction false} WithRateNone(s: seq<DictResult>, v: real)
    requires forall k :: 0 <= k < |s| ==> s[k].rate < v
    ensures WithRate(s, v) == []
  {
    if s != [] {
      WithRateNone(s[1..], v);
    }
  }

  /** Inserting r after the entries rated at least as high puts it behind every
      entry with its own rate. */
  lemma {:induction false} InsertByRateStable(ranked: seq<DictResult>, r: DictResult, v: real)
    requires Descending(ranked)
    ensures WithRate(InsertByRate(ranked, r), v) == WithRate(ranked, v) + (if r.rate == v then [r] else [])
  {
    if ranked == [] {
      assert InsertByRate(ranked, r) == [r] + ranked;
      WithRateCons(r, ranked, v);
    } else if ranked[0].rate >= r.rate {
      var t := ranked[1..];
      assert Descending(t) by {
        forall i, j | 0 <= i < j < |t| ensures t[i].rate >= t[j].rate {
          assert t[i] == ranked[i + 1] && t[j] == ranked[j + 1];
        }
      }
      InsertByRateStable(t, r, v);
      assert InsertByRate(ranked, r) == [ranked[0]] + InsertByRate(t, r);
      WithRateCons(ranked[0], InsertByRate(t, r), v);
      assert ranked == [ranked[0]] + t;
      WithRateCons(ranked[0], t, v);
    } else {
      assert InsertByRate(ranked, r) == [r] + ranked;
      WithRateCons(r, ranked, v);
      if r.rate == v {
        forall k | 0 <= k < |ranked| ensures ranked[k].rate < r.rate {
          assert k == 0 || ranked[0].rate >= ranked[k].rate;
        }
        WithRateNone(ranked, r.rate);
      }
    }
  }

  /** `sorted` is stable: for every rate, the dictionaries with that rate are ranked
      in the order the survey listed them. */
  lemma {:induction false} RankStable(results: seq<DictResult>, v: real)
    ensures WithRate(Rank(results), v) == WithRate(results, v)
  {
    if results != [] {
      var prev, r := results[..|results| - 1], results[|results| - 1];
      RankStable(prev, v);
      RankDescending(prev);
      InsertByRateStable(Rank(prev), r, v);
      WithRateSnoc(prev, r, v);
      assert results == prev + [r];
    }
  }

  /** The recommendation: the first entry of the ranking, none when nothing was
      detected. */
  function Best(results: seq<DictResult>): (b: Option<string>)
    ensures b.None? <==> results == []
  {
    var ranked := Rank(results);
    if ranked == [] then None else Some(ranked[0].name)
  }

  /** The head of the ranking is one of the results and has the highest rate. */
  lemma {:induction false} RankHeadMax(results: seq<DictResult>)
    requires results != []
    ensures Rank(results)[0] in results
    ensures forall j :: 0 <= j < |results| ==> results[j].rate <= Rank(results)[0].rate
  {
    var prev, r := results[..|results| - 1], results[|results| - 1];
    assert Rank(results) == InsertByRate(Rank(prev), r);
    if prev != [] {
      RankHeadMax(prev);
      var head := Rank(prev)[0];
      forall j | 0 <= j < |results| ensures results[j].rate <= Rank(results)[0].rate {
        if j < |prev| { assert results[j] == prev[j]; }
      }
      if head.rate >= r.rate {
        assert head in prev;
        var t :| 0 <= t < |prev| && prev[t] == head;
        assert results[t] == head;
      }
    }
  }

  /** The recommended dictionary comes before every other one with its rate: it is
      the earliest-listed among those with the highest rate. */
  lemma {:induction false} BestIsEarliestMaximum(results: seq<DictResult>)
    requires results != []
    ensures exists k :: (0 <= k < |results| && Rank(results)[0] == results[k]
      && forall j :: 0 <= j < k ==> results[j].rate < results[k].rate)
  {
    var prev, r := results[..|results| - 1], results[|results| - 1];
    assert Rank(results) == InsertByRate(Rank(prev), r);
    if prev == [] {
      assert Rank(results)[0] == results[0];
    } else {
      BestIsEarliestMaximum(prev);
      RankHeadMax(prev);
      var k :| 0 <= k < |prev| && Rank(prev)[0] == prev[k]
        && forall j :: 0 <= j < k ==> prev[j].rate < prev[k].rate;
      RankDescending(prev);
      InsertByRateDescending(Rank(prev), r);
      if prev[k].rate >= r.rate {
        assert Rank(results)[0] == results[k];
        forall j | 0 <= j < k ensures results[j].rate < results[k].rate {
          assert results[j] == prev[j];
        }
      } else {
        var last := |results| - 1;
        assert Rank(results)[0] == results[last];
        forall j | 0 <= j < last ensures results[j].rate < results[last].rate {
          assert results[j] == prev[j];
        }
      }
    }
  }

  // ---------------------------------------------------------------------
  // The survey
  // ---------------------------------------------------------------------

  /** What the survey prints: the ranked results and the recommendation. */
  datatype Survey = Survey(ranking: seq<DictResult>, best: Option<string>)

  /** The inner loop for one dictionary: the set of ids and the frame counter. */
  method SurveyDictionary(name: string, indices: seq<int>, observe: (string, int) -> Observation)
    returns (markers: set<int>, framesDetected: nat)
    ensures markers == IdsSeen(Observed(name, indices, observe))
    ensures framesDetected == FramesSeen(Observed(name, indices, observe))
  {
    ghost var obs := Observed(name, indices, observe);
    markers, framesDetected := {}, 0;
    var i := 0;
    while i < |indices|
      invariant 0 <= i <= |indices|
      invariant markers == IdsSeen(obs[..i]) && framesDetected == FramesSeen(obs[..i])
    {
      assert obs[..i + 1][..i] == obs[..i] && obs[..i + 1][i] == obs[i];
      var o := observe(name, indices[i]);
      if o.Read? && |o.ids| > 0 {
        framesDetected := framesDetected + 1;
        var j := 0;
        while j < |o.ids|
          invariant 0 <= j <= |o.ids|
          invariant markers == IdsSeen(obs[..i]) + set x | x in o.ids[..j]
        {
          assert o.ids[..j + 1] == o.ids[..j] + [o.ids[j]];
          markers := markers + {o.ids[j]};
          j := j + 1;
        }
        assert o.ids[..j] == o.ids;
      }
      i := i + 1;
    }
    assert obs[..i] == obs;
  }

  /** The try block for one dictionary: nothing when setting it up raises or when
      no marker was seen, otherwise its entry. */
  method SurveyOne(name: string, indices: seq<int>, observe: (string, int) -> Observation,
                   fails: string -> bool)
    returns (entry: Option<DictResult>)
    ensures entry == ResultFor(name, indices, observe, fails)
  {
    if fails(name) {
      return None;
    }
    var markers, framesDetected := SurveyDictionary(name, indices, observe);
    if markers == {} {
      return None;
    }
    SeenCounts(Observed(name, indices, observe));
    entry := Some(DictResult(name, SortedIds(markers), framesDetected, Rate(framesDetected, |indices|)));
  }

  /** The loop over the dictionaries: the results, in the order they were tried. */
  method SurveyAll(names: seq<string>, indices: seq<int>, observe: (string, int) -> Observation,
                   fails: string -> bool)
    returns (results: seq<DictResult>)
    ensures results == Results(names, indices, observe, fails)
  {
    results := [];
    var n := 0;
    while n < |names|
      invariant 0 <= n <= |names|
      invariant results == Results(names[..n], indices, observe, fails)
    {
      assert Entries(names[..n + 1], indices, observe, fails)
        == Entries(names[..n], indices, observe, fails) + [ResultFor(names[n], indices, observe, fails)];
      var entry := SurveyOne(names[n], indices, observe, fails);
      if entry.Some? {
        results := results + [entry.value];
      }
      n := n + 1;
    }
    assert names[..n] == names;
  }

  /** test_all_dictionaries: a video that cannot be opened raises ValueError (None);
      otherwise every dictionary is tried in turn, a failing one is skipped, and the
      results are ranked by rate with the first one recommended. */
  method TestAllDictionaries(isOpen: bool, indices: seq<int>, observe: (string, int) -> Observation,
                             fails: string -> bool)
    returns (survey: Option<Survey>)
    ensures survey.None? <==> !isOpen
    ensures survey.Some? ==>
      var results := Results(ARUCO_DICTS, indices, observe, fails);
      survey.value == Survey(Rank(results), Best(results))
  {
    if !isOpen {
      return None;
    }
    var results := SurveyAll(ARUCO_DICTS, indices, observe, fails);
    var ranked := Rank(results);
    survey := Some(Survey(ranked, if ranked == [] then None else Some(ranked[0].name)));
  }

  /** The dictionaries tried are seventeen distinct names. */
  lemma ArucoDictsDistinct()
    ensures |ARUCO_DICTS| == 17
    ensures forall i, j :: 0 <= i < j < |ARUCO_DICTS| ==> ARUCO_DICTS[i] != ARUCO_DICTS[j]
  {
  }
}
