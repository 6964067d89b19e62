/** service/history/store.go: per-sensor sample files, a recent ring and the hourly archive. */
module SensorHistory {
  import opened Wrappers
  import opened Instants
  import Sorting

  datatype Sample = Sample(at: int, temp: real, hum: Option<real>)

  function At(s: Sample): int { s.at }

  ghost function Members(s: seq<Sample>): set<Sample> { set x | x in s }

  /** Some member of `s` in the bucket of `x` is at least as late as `x`. */
  ghost predicate Dominated(x: Sample, s: set<Sample>, width: int)
    requires width > 0
  {
    exists y :: y in s && Truncate(y.at, width) == Truncate(x.at, width) && x.at <= y.at
  }

  predicate OnePerBucket(s: seq<Sample>, width: int)
    requires width > 0
  {
    forall i, j :: 0 <= i < j < |s| ==> s[i].at < s[j].at && Truncate(s[i].at, width) != Truncate(s[j].at, width)
  }

  /** `out` lists, in time order, one latest member of `s` for every bucket `s` touches. */
  ghost predicate IsBucketing(out: seq<Sample>, s: set<Sample>, width: int)
    requires width > 0
  {
    && OnePerBucket(out, width)
    && (forall x :: x in out ==> x in s)
    && forall x :: x in s ==> Dominated(x, Members(out), width)
  }

  predicate Keeps(x: Sample, cutoff: int) { cutoff == ZERO_TIME || cutoff <= x.at }

  ghost function Kept(s: set<Sample>, cutoff: int): set<Sample> { set x | x in s && Keeps(x, cutoff) }

  // ----- bucketing

  method LatestPerBucket(samples: seq<Sample>, cutoff: int, width: int) returns (buckets: map<int, Sample>)
    requires width > 0
    ensures forall k :: k in buckets ==>
      buckets[k] in Kept(Members(samples), cutoff) && Truncate(buckets[k].at, width) == k
    ensures forall x :: x in Kept(Members(samples), cutoff) ==>
      Truncate(x.at, width) in buckets && x.at <= buckets[Truncate(x.at, width)].at
  {
    buckets := map[];
    for i := 0 to |samples|
      invariant forall k :: k in buckets ==>
        buckets[k] in samples && Keeps(buckets[k], cutoff) && Truncate(buckets[k].at, width) == k
      invariant forall j :: 0 <= j < i && Keeps(samples[j], cutoff) ==>
        Truncate(samples[j].at, width) in buckets && samples[j].at <= buckets[Truncate(samples[j].at, width)].at
    {
      var sample := samples[i];
      if cutoff != ZERO_TIME && sample.at < cutoff { continue; }
      var key := Truncate(sample.at, width);
      if key !in buckets || buckets[key].at < sample.at {
        buckets := buckets[key := sample];
      }
    }
  }

  function BucketOf(width: int): Sample -> int
    requires width > 0
  {
    (s: Sample) => Truncate(s.at, width)
  }

  method BucketSensorSamples(samples: seq<Sample>, cutoff: int, width: int) returns (out: seq<Sample>)
    requires width > 0
    ensures IsBucketing(out, Kept(Members(samples), cutoff), width)
  {
    var buckets := LatestPerBucket(samples, cutoff, width);
    out := Sorting.SortedValues(BucketOf(width), At, buckets);
    BucketsFromLatest(out, buckets, Kept(Members(samples), cutoff), width);
  }

  /** The sorted values of a latest-per-bucket map are a bucketing. */
  lemma BucketsFromLatest(out: seq<Sample>, buckets: map<int, Sample>, s: set<Sample>, width: int)
    requires width > 0
    requires Sorting.Keyed(BucketOf(width), buckets)
    requires Sorting.SortedBy(At, out) && Sorting.ListsValues(BucketOf(width), out, buckets)
    requires forall k :: k in buckets ==> buckets[k] in s
    requires forall x :: x in s ==> Truncate(x.at, width) in buckets && x.at <= buckets[Truncate(x.at, width)].at
    ensures IsBucketing(out, s, width)
  {
    forall i, j | 0 <= i < j < |out|
      ensures out[i].at < out[j].at && Truncate(out[i].at, width) != Truncate(out[j].at, width)
    {
      assert BucketOf(width)(out[i]) != BucketOf(width)(out[j]);
      assert At(out[i]) <= At(out[j]);
    }
    forall x | x in out ensures x in s {
      assert BucketOf(width)(x) in buckets;
    }
    forall x | x in s ensures Dominated(x, Members(out), width) {
      var k := Truncate(x.at, width);
      var y := buckets[k];
      assert y in out;
      assert BucketOf(width)(y) in buckets;
      KeyedBucket(buckets, width, k);
    }
  }

  lemma KeyedBucket(buckets: map<int, Sample>, width: int, k: int)
    requires width > 0 && Sorting.Keyed(BucketOf(width), buckets) && k in buckets
    ensures Truncate(buckets[k].at, width) == k
  {
    assert BucketOf(width)(buckets[k]) == k;
  }

  /** A list that is already one-per-bucket is its own only bucketing. */
  lemma BucketingIdempotent(out: seq<Sample>, s: seq<Sample>, width: int)
    requires width > 0
    requires OnePerBucket(s, width)
    requires IsBucketing(out, Members(s), width)
    ensures out == s
  {
    forall x | x in s ensures x in out {
      assert x in Members(s);
      var y :| y in Members(out) && Truncate(y.at, width) == Truncate(x.at, width) && x.at <= y.at;
      assert y in s;
    }
    Sorting.StrictSortUnique(At, out, s);
  }

  /** Re-bucketing a bucketing by a coarser width loses no bucket: ten minutes then an hour is an hour. */
  lemma HourlyAfterTenMinutes(ten: seq<Sample>, s: set<Sample>, x: Sample)
    requires IsBucketing(ten, s, TEN_MINUTES) && x in s
    ensures Dominated(x, Members(ten), HOUR)
  {
    assert Dominated(x, Members(ten), TEN_MINUTES);
    var y :| y in Members(ten) && Truncate(y.at, TEN_MINUTES) == Truncate(x.at, TEN_MINUTES) && x.at <= y.at;
    TenMinutesWithinHour(y.at, x.at);
  }

  // ----- the archive's file names

  /** The labels of time.Format("2006-01"): seven characters in years 0 to 9999, constant over a UTC hour. */
  ghost predicate Calendar(month: int -> string) {
    forall t: int :: |month(t)| == 7 && month(t) == month(Truncate(t, HOUR))
  }

  const EXT := ".ndjson"

  function ArchiveFileName(month: int -> string, id: string, at: int): string {
    id + "-" + month(at) + EXT
  }

  /** The directory scan's test, which other sensors' files can pass too. */
  predicate LooksLikeArchiveOf(id: string, name: string) {
    id + "-" <= name && |name| >= |EXT| && name[|name| - |EXT|..] == EXT
  }

  lemma ArchiveNameLooksRight(month: int -> string, id: string, at: int)
    ensures LooksLikeArchiveOf(id, ArchiveFileName(month, id, at))
  {
    var name := ArchiveFileName(month, id, at);
    assert name[..|id + "-"|] == id + "-";
    assert name[|name| - |EXT|..] == EXT;
  }

  /** No two sensors share an archive file, even when one id extends another. */
  lemma ArchiveNamesApart(month: int -> string, id: string, id': string, at: int, at': int)
    requires Calendar(month)
    requires ArchiveFileName(month, id, at) == ArchiveFileName(month, id', at')
    ensures id == id'
  {
    var name := ArchiveFileName(month, id, at);
    assert |month(at)| == 7 && |month(at')| == 7;
    assert name[..|name| - 15] == id;
    assert ArchiveFileName(month, id', at')[..|name| - 15] == id';
  }

  lemma SameHourSameFile(month: int -> string, id: string, a: int, b: int)
    requires Calendar(month) && Truncate(a, HOUR) == Truncate(b, HOUR)
    ensures ArchiveFileName(month, id, a) == ArchiveFileName(month, id, b)
  {
    assert month(a) == month(Truncate(a, HOUR)) == month(b);
  }

  // ----- what the disk keeps of the log

  type Files = map<string, seq<Sample>>

  ghost function Contents(files: Files, name: string): set<Sample> {
    if name in files then Members(files[name]) else {}
  }

  /** The samples the disk holds for one sensor: its live file and its own archive files. */
  ghost predicate Holds(month: int -> string, live: Files, hourly: Files, id: string, x: Sample) {
    x in Contents(live, id) || x in Contents(hourly, ArchiveFileName(month, id, x.at))
  }

  ghost predicate Covered(month: int -> string, live: Files, hourly: Files, id: string, x: Sample) {
    || Dominated(x, Contents(live, id), HOUR)
    || Dominated(x, Contents(hourly, ArchiveFileName(month, id, x.at)), HOUR)
  }

  /** An archived sample belongs to the sensor and month its file is named after. */
  ghost predicate Filed(month: int -> string, log: map<string, set<Sample>>, name: string, x: Sample) {
    exists id :: id in log && x in log[id] && name == ArchiveFileName(month, id, x.at)
  }

  ghost predicate Sound(month: int -> string, live: Files, hourly: Files, log: map<string, set<Sample>>) {
    && (forall id :: id in live ==> id in log && Members(live[id]) <= log[id])
    && forall name, x :: name in hourly && x in hourly[name] ==> Filed(month, log, name, x)
  }

  ghost predicate Complete(month: int -> string, live: Files, hourly: Files, log: map<string, set<Sample>>) {
    forall id, x :: id in log && x in log[id] ==> Covered(month, live, hourly, id, x)
  }

  /** Nothing on disk is invented, and every logged sample's hour keeps a sample at least as late. */
  ghost predicate Conserved(month: int -> string, live: Files, hourly: Files, log: map<string, set<Sample>>) {
    Sound(month, live, hourly, log) && Complete(month, live, hourly, log)
  }

  /** The hourly reading of a set of samples: the latest of every hour. */
  ghost function HourlyWinners(s: set<Sample>): set<Sample> {
    set x | x in s && forall y :: y in s && Truncate(y.at, HOUR) == Truncate(x.at, HOUR) ==> y.at <= x.at
  }

  ghost predicate DistinctTimes(s: set<Sample>) {
    forall x, y :: x in s && y in s && x.at == y.at ==> x == y
  }

  /** Hourly bucketing of what the disk holds is hourly bucketing of everything ever appended. */
  lemma HourlyHistoryConserved(month: int -> string, live: Files, hourly: Files, log: map<string, set<Sample>>,
                               id: string, disk: set<Sample>)
    requires Calendar(month) && Conserved(month, live, hourly, log) && id in log
    requires forall x :: x in disk <==> Holds(month, live, hourly, id, x)
    requires DistinctTimes(log[id])
    ensures HourlyWinners(disk) == HourlyWinners(log[id])
  {
    forall x | x in disk ensures x in log[id] {
      if x !in Contents(live, id) {
        var name := ArchiveFileName(month, id, x.at);
        assert Filed(month, log, name, x);
        var owner :| owner in log && x in log[owner] && name == ArchiveFileName(month, owner, x.at);
        ArchiveNamesApart(month, id, owner, x.at, x.at);
      }
    }
    forall x | x in log[id] ensures Dominated(x, disk, HOUR) {
      assert Covered(month, live, hourly, id, x);
      if Dominated(x, Contents(live, id), HOUR) {
        var y :| y in Contents(live, id) && Truncate(y.at, HOUR) == Truncate(x.at, HOUR) && x.at <= y.at;
        assert Holds(month, live, hourly, id, y);
      } else {
        var y :| y in Contents(hourly, ArchiveFileName(month, id, x.at)) && Truncate(y.at, HOUR) == Truncate(x.at, HOUR)
          && x.at <= y.at;
        SameHourSameFile(month, id, x.at, y.at);
        assert Holds(month, live, hourly, id, y);
      }
    }
    WinnersAgree(disk, log[id]);
  }

  lemma WinnersAgree(part: set<Sample>, whole: set<Sample>)
    requires part <= whole && DistinctTimes(whole)
    requires forall x :: x in whole ==> Dominated(x, part, HOUR)
    ensures HourlyWinners(part) == HourlyWinners(whole)
  {
    forall x | x in HourlyWinners(whole) ensures x in HourlyWinners(part) {
      assert Dominated(x, part, HOUR);
      var y :| y in part && Truncate(y.at, HOUR) == Truncate(x.at, HOUR) && x.at <= y.at;
      assert y in whole && y.at == x.at;
    }
    forall x | x in HourlyWinners(part) ensures x in HourlyWinners(whole) {
      PartWinnerWins(part, whole, x);
    }
  }

  lemma PartWinnerWins(part: set<Sample>, whole: set<Sample>, x: Sample)
    requires part <= whole && x in HourlyWinners(part)
    requires forall x :: x in whole ==> Dominated(x, part, HOUR)
    ensures x in HourlyWinners(whole)
  {
    forall z | z in whole && Truncate(z.at, HOUR) == Truncate(x.at, HOUR) ensures z.at <= x.at {
      assert Dominated(z, part, HOUR);
      var y :| y in part && Truncate(y.at, HOUR) == Truncate(z.at, HOUR) && z.at <= y.at;
    }
  }

  // ----- one file's compaction

  /** What goes into archive file `name` when sensor `id` with samples `s` is compacted. */
  ghost function ArchiveInput(month: int -> string, id: string, s: set<Sample>, cutoff: int, hourly: Files,
          name: string): set<Sample>
  {
    Contents(hourly, name) + (set x | x in s && x.at < cutoff && ArchiveFileName(month, id, x.at) == name)
  }

  ghost predicate Affected(month: int -> string, id: string, s: set<Sample>, cutoff: int, hourly: Files, name: string) {
    || (name in hourly && LooksLikeArchiveOf(id, name))
    || exists x :: x in s && x.at < cutoff && ArchiveFileName(month, id, x.at) == name
  }

  /** File `name` has been rewritten from its compaction input. */
  ghost predicate Rewritten(month: int -> string, id: string, s: set<Sample>, cutoff: int, before: Files, after: Files,
          name: string)
  {
    name in after && IsBucketing(after[name], ArchiveInput(month, id, s, cutoff, before, name), HOUR)
  }

  ghost predicate FileState(month: int -> string, id: string, s: set<Sample>, cutoff: int, before: Files, after: Files,
                            name: string, written: set<string>) {
    if name in written then
      Affected(month, id, s, cutoff, before, name) && Rewritten(month, id, s, cutoff, before, after, name)
    else
      (name in after <==> name in before) && (name in before ==> after[name] == before[name])
  }

  /** Every archive file is either as it was or rewritten from its input; `written` are the rewritten ones. */
  ghost predicate PartlyWritten(month: int -> string, id: string, s: set<Sample>, cutoff: int, before: Files,
          after: Files, written: set<string>)
  {
    forall name :: FileState(month, id, s, cutoff, before, after, name, written)
  }

  /** Wherever the rewriting stops, the archive still holds what it held, and nothing foreign. */
  lemma PartialArchiveConserves(month: int -> string, live: Files, before: Files, after: Files,
                                log: map<string, set<Sample>>, id: string, cutoff: int, written: set<string>)
    requires Calendar(month) && Conserved(month, live, before, log) && id in live
    requires PartlyWritten(month, id, Members(live[id]), cutoff, before, after, written)
    ensures Conserved(month, live, after, log)
  {
    var s := Members(live[id]);
    forall name, x | name in after && x in after[name] ensures Filed(month, log, name, x) {
      PartialArchiveFiled(month, live, before, after, log, id, cutoff, written, name, x);
    }
    forall owner, x | owner in log && x in log[owner] ensures Covered(month, live, after, owner, x) {
      var name := ArchiveFileName(month, owner, x.at);
      assert Covered(month, live, before, owner, x);
      if Dominated(x, Contents(before, name), HOUR) {
        PartialArchiveDominates(month, before, after, id, s, cutoff, written, name, x);
      }
    }
  }

  lemma PartialArchiveFiled(month: int -> string, live: Files, before: Files, after: Files,
          log: map<string, set<Sample>>,
                            id: string, cutoff: int, written: set<string>, name: string, x: Sample)
    requires Sound(month, live, before, log) && id in live
    requires PartlyWritten(month, id, Members(live[id]), cutoff, before, after, written)
    requires name in after && x in after[name]
    ensures Filed(month, log, name, x)
  {
    assert FileState(month, id, Members(live[id]), cutoff, before, after, name, written);
    if name in written {
      assert x in ArchiveInput(month, id, Members(live[id]), cutoff, before, name);
      if x !in Contents(before, name) {
        assert x in Members(live[id]) && name == ArchiveFileName(month, id, x.at);
      }
    }
  }

  lemma PartialArchiveDominates(month: int -> string, before: Files, after: Files, id: string, s: set<Sample>,
                                cutoff: int, written: set<string>, name: string, x: Sample)
    requires PartlyWritten(month, id, s, cutoff, before, after, written)
    requires Dominated(x, Contents(before, name), HOUR)
    ensures Dominated(x, Contents(after, name), HOUR)
  {
    assert FileState(month, id, s, cutoff, before, after, name, written);
    if name in written {
      var y :| y in Contents(before, name) && Truncate(y.at, HOUR) == Truncate(x.at, HOUR) && x.at <= y.at;
      assert y in ArchiveInput(month, id, s, cutoff, before, name);
      DominatedTransitive(x, y, Members(after[name]));
    }
  }

  /** Once every affected file is written, the live file may shrink to its recent buckets. */
  lemma LiveRewriteConserves(month: int -> string, live: Files, before: Files, after: Files,
                             log: map<string, set<Sample>>, id: string, cutoff: int, written: set<string>,
                               recent: seq<Sample>)
    requires Calendar(month) && Conserved(month, live, before, log) && id in live
    requires PartlyWritten(month, id, Members(live[id]), cutoff, before, after, written)
    requires forall x :: x in live[id] && x.at < cutoff ==> ArchiveFileName(month, id, x.at) in written
    requires IsBucketing(recent, Kept(Members(live[id]), cutoff), TEN_MINUTES)
    ensures Conserved(month, live[id := recent], after, log)
  {
    PartialArchiveConserves(month, live, before, after, log, id, cutoff, written);
    var s := Members(live[id]);
    forall y | y in s && y.at < cutoff ensures Dominated(y, Contents(after, ArchiveFileName(month, id, y.at)), HOUR) {
      var name := ArchiveFileName(month, id, y.at);
      assert FileState(month, id, s, cutoff, before, after, name, written);
      assert Rewritten(month, id, s, cutoff, before, after, name);
      assert y in ArchiveInput(month, id, s, cutoff, before, name);
    }
    ShrinkingLiveConserves(month, live, after, log, id, cutoff, recent);
  }

  lemma ShrinkingLiveConserves(month: int -> string, live: Files, hourly: Files, log: map<string, set<Sample>>,
                               id: string, cutoff: int, recent: seq<Sample>)
    requires Calendar(month) && Conserved(month, live, hourly, log) && id in live
    requires forall y :: y in live[id] && y.at < cutoff ==>
      Dominated(y, Contents(hourly, ArchiveFileName(month, id, y.at)), HOUR)
    requires IsBucketing(recent, Kept(Members(live[id]), cutoff), TEN_MINUTES)
    ensures Conserved(month, live[id := recent], hourly, log)
  {
    assert Members(recent) <= Members(live[id]);
    ShrinkingLiveComplete(month, live, hourly, log, id, cutoff, recent);
  }

  lemma ShrinkingLiveComplete(month: int -> string, live: Files, hourly: Files, log: map<string, set<Sample>>,
                              id: string, cutoff: int, recent: seq<Sample>)
    requires Calendar(month) && Complete(month, live, hourly, log) && id in live
    requires forall y :: y in live[id] && y.at < cutoff ==>
      Dominated(y, Contents(hourly, ArchiveFileName(month, id, y.at)), HOUR)
    requires IsBucketing(recent, Kept(Members(live[id]), cutoff), TEN_MINUTES)
    ensures Complete(month, live[id := recent], hourly, log)
  {
    var live' := live[id := recent];
    forall owner, x | owner in log && x in log[owner] ensures Covered(month, live', hourly, owner, x) {
      assert Covered(month, live, hourly, owner, x);
      if owner == id && Dominated(x, Contents(live, id), HOUR) {
        ShrinkingLiveCovers(month, live, hourly, id, cutoff, recent, x);
      }
    }
  }

  lemma ShrinkingLiveCovers(month: int -> string, live: Files, hourly: Files,
                            id: string, cutoff: int, recent: seq<Sample>, x: Sample)
    requires Calendar(month) && id in live && Dominated(x, Members(live[id]), HOUR)
    requires forall y :: y in live[id] && y.at < cutoff ==>
      Dominated(y, Contents(hourly, ArchiveFileName(month, id, y.at)), HOUR)
    requires IsBucketing(recent, Kept(Members(live[id]), cutoff), TEN_MINUTES)
    ensures Covered(month, live[id := recent], hourly, id, x)
  {
    var y :| y in Members(live[id]) && Truncate(y.at, HOUR) == Truncate(x.at, HOUR) && x.at <= y.at;
    if cutoff <= y.at {
      HourlyAfterTenMinutes(recent, Kept(Members(live[id]), cutoff), y);
      DominatedTransitive(x, y, Members(recent));
    } else {
      SameHourSameFile(month, id, x.at, y.at);
      DominatedTransitive(x, y, Contents(hourly, ArchiveFileName(month, id, y.at)));
    }
  }

  lemma DominatedTransitive(x: Sample, y: Sample, s: set<Sample>)
    requires Truncate(y.at, HOUR) == Truncate(x.at, HOUR) && x.at <= y.at && Dominated(y, s, HOUR)
    ensures Dominated(x, s, HOUR)
  {
    var z :| z in s && Truncate(z.at, HOUR) == Truncate(y.at, HOUR) && y.at <= z.at;
  }

  /** The files of sensor `id` are as a completed compaction at `cutoff` leaves them. */
  ghost predicate Settled(live: Files, hourly: Files, id: string, cutoff: int) {
    && id in live && OnePerBucket(live[id], TEN_MINUTES)
    && (forall x :: x in live[id] ==> cutoff <= x.at)
    && forall name :: name in hourly && LooksLikeArchiveOf(id, name) ==> OnePerBucket(hourly[name], HOUR)
  }

  lemma CompletedIsSettled(month: int -> string, live: Files, before: Files, after: Files,
                           id: string, cutoff: int, written: set<string>, recent: seq<Sample>)
    requires id in live && cutoff != ZERO_TIME
    requires PartlyWritten(month, id, Members(live[id]), cutoff, before, after, written)
    requires forall name :: Affected(month, id, Members(live[id]), cutoff, before, name) ==> name in written
    requires IsBucketing(recent, Kept(Members(live[id]), cutoff), TEN_MINUTES)
    ensures Settled(live[id := recent], after, id, cutoff)
  {
    forall name | name in after && LooksLikeArchiveOf(id, name) ensures OnePerBucket(after[name], HOUR) {
      assert FileState(month, id, Members(live[id]), cutoff, before, after, name, written);
      if name !in written {
        assert Affected(month, id, Members(live[id]), cutoff, before, name);
      }
      assert Rewritten(month, id, Members(live[id]), cutoff, before, after, name);
    }
  }

  /** Compacting settled files changes nothing. */
  lemma SettledUnchanged(month: int -> string, live: Files, before: Files, after: Files,
                         id: string, cutoff: int, written: set<string>, recent: seq<Sample>)
    requires Settled(live, before, id, cutoff)
    requires PartlyWritten(month, id, Members(live[id]), cutoff, before, after, written)
    requires IsBucketing(recent, Kept(Members(live[id]), cutoff), TEN_MINUTES)
    ensures recent == live[id] && after == before
  {
    var s := Members(live[id]);
    assert Kept(s, cutoff) == s;
    BucketingIdempotent(recent, live[id], TEN_MINUTES);
    forall name
      ensures name in after <==> name in before
      ensures name in before ==> after[name] == before[name]
    {
      assert FileState(month, id, s, cutoff, before, after, name, written);
      if name in written { SettledFileUnchanged(month, live, before, after, id, cutoff, written, name); }
    }
  }

  lemma SettledFileUnchanged(month: int -> string, live: Files, before: Files, after: Files,
                             id: string, cutoff: int, written: set<string>, name: string)
    requires Settled(live, before, id, cutoff)
    requires PartlyWritten(month, id, Members(live[id]), cutoff, before, after, written) && name in written
    ensures name in before && name in after && after[name] == before[name]
  {
    var s := Members(live[id]);
    assert FileState(month, id, s, cutoff, before, after, name, written);
    assert ArchiveInput(month, id, s, cutoff, before, name) == Members(before[name]);
    BucketingIdempotent(after[name], before[name], HOUR);
  }

  // ----- the recent ring

  /** The samples not before `cutoff`, in order. */
  function Since(s: seq<Sample>, cutoff: int): seq<Sample> {
    if s == [] then []
    else Since(s[..|s| - 1], cutoff) + (if cutoff <= s[|s| - 1].at then [s[|s| - 1]] else [])
  }

  /** The ring after appending `h` one sample at a time, trimming to the window behind each. */
  function Retained(h: seq<Sample>, window: int): seq<Sample> {
    if h == [] then []
    else Since(Retained(h[..|h| - 1], window) + [h[|h| - 1]], h[|h| - 1].at - window)
  }

  lemma {:induction false} SinceAppend(a: seq<Sample>, b: seq<Sample>, cutoff: int)
    ensures Since(a + b, cutoff) == Since(a, cutoff) + Since(b, cutoff)
  {
    if b == [] {
      assert a + b == a;
    } else {
      assert (a + b)[..|a + b| - 1] == a + b[..|b| - 1];
      SinceAppend(a, b[..|b| - 1], cutoff);
    }
  }

  lemma {:induction false} SinceTwice(s: seq<Sample>, early: int, late: int)
    requires early <= late
    ensures Since(Since(s, early), late) == Since(s, late)
  {
    if s != [] {
      var last := s[|s| - 1];
      SinceTwice(s[..|s| - 1], early, late);
      SinceAppend(Since(s[..|s| - 1], early), if early <= last.at then [last] else [], late);
    }
  }

  lemma {:induction false} SinceReads(s: seq<Sample>, cutoff: int)
    ensures forall x :: x in Since(s, cutoff) <==> x in s && cutoff <= x.at
  {
    if s != [] { SinceReads(s[..|s| - 1], cutoff); }
  }

  /** No sample of the window is followed by one stamped more than the window after it. */
  predicate NoneOvertaken(h: seq<Sample>, window: int, now: int) {
    forall i, j :: 0 <= i <= j < |h| ==> !(now - window <= h[i].at < h[j].at - window)
  }

  /** Trimming on append costs Recent no sample, in whatever order readings came, exactly when none is overtaken. */
  lemma {:induction false} RecentLosesNothing(h: seq<Sample>, window: int, now: int)
    ensures Since(Retained(h, window), now - window) == Since(h, now - window) <==> NoneOvertaken(h, window, now)
    ensures |Since(Retained(h, window), now - window)| <= |Since(h, now - window)|
  {
    if h != [] {
      var init, last := h[..|h| - 1], h[|h| - 1];
      var late, cutoff := last.at - window, now - window;
      RecentLosesNothing(init, window, now);
      OvertakenStep(init, last, window, now);
      assert init + [last] == h;
      if late <= cutoff {
        SinceTwice(Retained(init, window) + [last], late, cutoff);
        SinceLast(init, last, cutoff);
        SinceLast(Retained(init, window), last, cutoff);
        SameTail(Since(Retained(init, window), cutoff), Since(init, cutoff), if cutoff <= last.at then [last] else []);
      } else {
        LateSample(Retained(init, window), init, last, cutoff, late);
      }
    }
  }

  /** A sample from the future trims the ring behind `late`, inside the window that starts at `cutoff`. */
  lemma LateSample(ring: seq<Sample>, init: seq<Sample>, last: Sample, cutoff: int, late: int)
    requires cutoff < late && |Since(ring, cutoff)| <= |Since(init, cutoff)|
    ensures Since(Since(ring + [last], late), cutoff) == Since(init + [last], cutoff) <==>
      && Since(ring, cutoff) == Since(init, cutoff)
      && (forall i :: 0 <= i < |init| ==> !(cutoff <= init[i].at < late))
      && !(cutoff <= last.at < late)
    ensures |Since(Since(ring + [last], late), cutoff)| <= |Since(init + [last], cutoff)|
  {
    SinceEarlier(ring + [last], cutoff, late);
    SinceLast(ring, last, late);
    SinceLast(init, last, cutoff);
    SinceTwice(ring, cutoff, late);
    SinceTwice(init, cutoff, late);
    SinceShrinks(Since(ring, cutoff), late);
    KeptAtMost(init, cutoff, late);
    SameTail(Since(ring, late), Since(init, cutoff), if cutoff <= last.at then [last] else []);
  }

  lemma SameTail(a: seq<Sample>, b: seq<Sample>, tail: seq<Sample>)
    ensures a + tail == b + tail <==> a == b
    ensures |tail| == 1 && |a| <= |b| ==> a != b + tail
  {
    if a + tail == b + tail { assert a == (a + tail)[..|a|] && b == (b + tail)[..|b|]; }
  }

  /** Whether the last sample overtakes one of the window, itself included. */
  lemma OvertakenStep(init: seq<Sample>, last: Sample, window: int, now: int)
    ensures NoneOvertaken(init + [last], window, now) <==>
      && NoneOvertaken(init, window, now)
      && (forall i :: 0 <= i < |init| ==> !(now - window <= init[i].at < last.at - window))
      && !(now - window <= last.at < last.at - window)
  {
    var h := init + [last];
    if NoneOvertaken(h, window, now) {
      forall i, j | 0 <= i <= j < |init| ensures !(now - window <= init[i].at < init[j].at - window) {
        assert h[i] == init[i] && h[j] == init[j];
      }
      forall i | 0 <= i < |init| ensures !(now - window <= init[i].at < last.at - window) {
        assert h[i] == init[i] && h[|init|] == last;
      }
      assert h[|init|] == last;
    }
  }

  lemma {:induction false} SinceEarlier(s: seq<Sample>, early: int, late: int)
    requires early <= late
    ensures Since(Since(s, late), early) == Since(s, late)
  {
    if s != [] {
      var last := s[|s| - 1];
      SinceEarlier(s[..|s| - 1], early, late);
      SinceAppend(Since(s[..|s| - 1], late), if late <= last.at then [last] else [], early);
    }
  }

  lemma {:induction false} SinceShrinks(s: seq<Sample>, cutoff: int)
    ensures |Since(s, cutoff)| <= |s|
    ensures |Since(s, cutoff)| == |s| ==> Since(s, cutoff) == s
  {
    if s != [] { SinceShrinks(s[..|s| - 1], cutoff); }
  }

  /** Moving the cutoff up keeps everything exactly when nothing lies in between. */
  lemma {:induction false} KeptAtMost(s: seq<Sample>, early: int, late: int)
    requires early <= late
    ensures |Since(s, late)| <= |Since(s, early)|
    ensures |Since(s, late)| == |Since(s, early)| <==> forall i :: 0 <= i < |s| ==> !(early <= s[i].at < late)
    ensures |Since(s, late)| == |Since(s, early)| ==> Since(s, late) == Since(s, early)
  {
    if s != [] {
      var init, last := s[..|s| - 1], s[|s| - 1];
      KeptAtMost(init, early, late);
      assert forall i :: 0 <= i < |init| ==> init[i] == s[i];
      assert (forall i :: 0 <= i < |s| ==> !(early <= s[i].at < late)) <==>
        (forall i :: 0 <= i < |init| ==> !(early <= init[i].at < late)) && !(early <= last.at < late);
    }
  }

  lemma SinceLast(s: seq<Sample>, x: Sample, cutoff: int)
    ensures Since(s + [x], cutoff) == Since(s, cutoff) + (if cutoff <= x.at then [x] else [])
  {
    assert (s + [x])[..|s + [x]| - 1] == s;
  }

  lemma RetainedStep(h: seq<Sample>, s: Sample, window: int)
    ensures Retained(h + [s], window) == Since(Retained(h, window) + [s], s.at - window)
  {
    assert (h + [s])[..|h + [s]| - 1] == h;
  }

  method FilterSince(samples: seq<Sample>, cutoff: int) returns (kept: seq<Sample>)
    ensures kept == Since(samples, cutoff)
  {
    kept := [];
    for i := 0 to |samples|
      invariant kept == Since(samples[..i], cutoff)
    {
      assert samples[..i + 1][..i] == samples[..i];
      if samples[i].at > cutoff || samples[i].at == cutoff {
        kept := kept + [samples[i]];
      }
    }
    assert samples[..|samples|] == samples;
  }

  function Read(files: Files, name: string): seq<Sample> {
    if name in files then files[name] else []
  }

  function Extended(files: Files, name: string, s: Sample): Files {
    files[name := Read(files, name) + [s]]
  }

  ghost function Logged(log: map<string, set<Sample>>, id: string, s: Sample): map<string, set<Sample>> {
    log[id := (if id in log then log[id] else {}) + {s}]
  }

  /** A logged sample that reaches the live file is covered by it. */
  lemma AppendConserves(month: int -> string, live: Files, hourly: Files, log: map<string, set<Sample>>, id: string,
          s: Sample)
    requires Conserved(month, live, hourly, log)
    ensures Conserved(month, Extended(live, id, s), hourly, Logged(log, id, s))
  {
    var live' := Extended(live, id, s);
    var log' := Logged(log, id, s);
    assert Contents(live', id) == Contents(live, id) + {s};
    forall name, x | name in hourly && x in hourly[name] ensures Filed(month, log', name, x) {
      assert Filed(month, log, name, x);
      var owner :| owner in log && x in log[owner] && name == ArchiveFileName(month, owner, x.at);
      assert owner in log' && x in log'[owner];
    }
    forall owner, x | owner in log' && x in log'[owner] ensures Covered(month, live', hourly, owner, x) {
      if owner in log && x in log[owner] {
        assert Covered(month, live, hourly, owner, x);
      } else {
        assert s in Contents(live', id);
      }
    }
  }

  ghost predicate OthersStaySettled(live: Files, before: Files, live': Files, after: Files, id: string, cutoff: int) {
    forall other :: other != id && Settled(live, before, other, cutoff) ==> Settled(live', after, other, cutoff)
  }

  ghost predicate AllSettled(live: Files, hourly: Files, but: set<string>, cutoff: int) {
    forall id :: id in live && id !in but ==> Settled(live, hourly, id, cutoff)
  }

  lemma OneMoreSettled(live: Files, before: Files, live': Files, after: Files, todo: set<string>, id: string,
                       cutoff: int)
    requires AllSettled(live, before, todo, cutoff) && live'.Keys == live.Keys
    requires OthersStaySettled(live, before, live', after, id, cutoff) && Settled(live', after, id, cutoff)
    ensures AllSettled(live', after, todo - {id}, cutoff)
  {
    forall other | other in live' && other !in todo - {id} ensures Settled(live', after, other, cutoff) {
      if other != id { assert Settled(live, before, other, cutoff); }
    }
  }

  /** Rewriting archive files keeps every settled sensor settled, and leaves a settled sensor's own files alone. */
  lemma PartialKeepsSettled(month: int -> string, live: Files, before: Files, after: Files,
                            id: string, cutoff: int, written: set<string>, recent: seq<Sample>)
    requires id in live
    requires PartlyWritten(month, id, Members(live[id]), cutoff, before, after, written)
    requires IsBucketing(recent, Kept(Members(live[id]), cutoff), TEN_MINUTES)
    ensures Settled(live, before, id, cutoff) ==> recent == live[id] && after == before
    ensures OthersStaySettled(live, before, live, after, id, cutoff)
    ensures OthersStaySettled(live, before, live[id := recent], after, id, cutoff)
  {
    if Settled(live, before, id, cutoff) {
      SettledUnchanged(month, live, before, after, id, cutoff, written, recent);
    }
    forall other | other != id && Settled(live, before, other, cutoff)
      ensures Settled(live, after, other, cutoff) && Settled(live[id := recent], after, other, cutoff)
    {
      PartialKeepsOther(month, live, before, after, id, cutoff, written, recent, other);
    }
  }

  lemma PartialKeepsOther(month: int -> string, live: Files, before: Files, after: Files,
                          id: string, cutoff: int, written: set<string>, recent: seq<Sample>, other: string)
    requires id in live && other != id && Settled(live, before, other, cutoff)
    requires PartlyWritten(month, id, Members(live[id]), cutoff, before, after, written)
    ensures Settled(live, after, other, cutoff) && Settled(live[id := recent], after, other, cutoff)
  {
    forall name | name in after && LooksLikeArchiveOf(other, name) ensures OnePerBucket(after[name], HOUR) {
      assert FileState(month, id, Members(live[id]), cutoff, before, after, name, written);
    }
  }

  /** A completed compaction conserves the log and settles the sensor. */
  lemma CompletedConserves(month: int -> string, live: Files, before: Files, after: Files,
                           log: map<string, set<Sample>>, id: string, cutoff: int, written: set<string>,
                             recent: seq<Sample>)
    requires Calendar(month) && Conserved(month, live, before, log) && id in live
    requires PartlyWritten(month, id, Members(live[id]), cutoff, before, after, written)
    requires forall name :: Affected(month, id, Members(live[id]), cutoff, before, name) ==> name in written
    requires IsBucketing(recent, Kept(Members(live[id]), cutoff), TEN_MINUTES)
    ensures Conserved(month, live[id := recent], after, log)
    ensures cutoff != ZERO_TIME ==> Settled(live[id := recent], after, id, cutoff)
  {
    forall x | x in live[id] && x.at < cutoff ensures ArchiveFileName(month, id, x.at) in written {
      assert x in Members(live[id]);
      assert Affected(month, id, Members(live[id]), cutoff, before, ArchiveFileName(month, id, x.at));
    }
    LiveRewriteConserves(month, live, before, after, log, id, cutoff, written, recent);
    if cutoff != ZERO_TIME {
      CompletedIsSettled(month, live, before, after, id, cutoff, written, recent);
    }
  }

  /** One sensor's compaction, from what its parts promise: it died on the way, or replaced the live file. */
  lemma DiedCompacting(month: int -> string, live: Files, before: Files, after: Files, id: string, cutoff: int,
                       written: set<string>, recent: seq<Sample>)
    requires id in live && PartlyWritten(month, id, Members(live[id]), cutoff, before, after, written)
    requires IsBucketing(recent, Kept(Members(live[id]), cutoff), TEN_MINUTES)
    ensures Compacted(month, live, before, live, after, id, false, cutoff)
  {
    PartialKeepsSettled(month, live, before, after, id, cutoff, written, recent);
    PartialArchivesOnlyExpired(month, live, before, after, id, cutoff, written);
  }

  lemma FileCompacted(month: int -> string, live: Files, before: Files, after: Files, id: string, cutoff: int,
                      written: set<string>, recent: seq<Sample>)
    requires id in live && PartlyWritten(month, id, Members(live[id]), cutoff, before, after, written)
    requires forall name :: Affected(month, id, Members(live[id]), cutoff, before, name) ==> name in written
    requires IsBucketing(recent, Kept(Members(live[id]), cutoff), TEN_MINUTES)
    ensures Compacted(month, live, before, live[id := recent], after, id, true, cutoff)
  {
    var live' := live[id := recent];
    assert ThinnedIf(true, live, live', id, cutoff) by { BucketingThins(recent, live[id], cutoff); }
    PartialArchivesOnlyExpired(month, live, before, after, id, cutoff, written);
    PartialKeepsSettled(month, live, before, after, id, cutoff, written, recent);
    if cutoff != ZERO_TIME { CompletedIsSettled(month, live, before, after, id, cutoff, written, recent); }
  }

  /** The in-memory archive map holds exactly the affected files with their rewriting input. */
  ghost predicate Gathered(month: int -> string, id: string, s: set<Sample>, cutoff: int, hourly: Files,
          archive: Files)
  {
    && (forall name :: name in archive <==> Affected(month, id, s, cutoff, hourly, name))
    && forall name :: name in archive ==> Members(archive[name]) == ArchiveInput(month, id, s, cutoff, hourly, name)
  }

  lemma GatherStep(month: int -> string, id: string, s: set<Sample>, cutoff: int, hourly: Files, archive: Files,
          x: Sample)
    requires Gathered(month, id, s, cutoff, hourly, archive)
    ensures Gathered(month, id, s + {x}, cutoff, hourly,
                     if x.at < cutoff then Extended(archive, ArchiveFileName(month, id, x.at), x) else archive)
  {
    var target := ArchiveFileName(month, id, x.at);
    ArchiveNameLooksRight(month, id, x.at);
    var archive' := if x.at < cutoff then Extended(archive, target, x) else archive;
    forall name ensures name in archive' <==> Affected(month, id, s + {x}, cutoff, hourly, name) {
      AffectedStep(month, id, s, cutoff, hourly, x, name);
    }
    forall name | name in archive'
      ensures Members(archive'[name]) == ArchiveInput(month, id, s + {x}, cutoff, hourly, name)
    {
      InputStep(month, id, s, cutoff, hourly, x, name);
      AffectedStep(month, id, s, cutoff, hourly, x, name);
      MembersAppend(Read(archive, name), x);
    }
  }

  lemma MembersAppend(s: seq<Sample>, x: Sample)
    ensures Members(s + [x]) == Members(s) + {x}
  {
  }

  lemma AffectedStep(month: int -> string, id: string, s: set<Sample>, cutoff: int, hourly: Files, x: Sample,
          name: string)
    ensures Affected(month, id, s + {x}, cutoff, hourly, name) <==>
      Affected(month, id, s, cutoff, hourly, name) || (x.at < cutoff && name == ArchiveFileName(month, id, x.at))
    ensures !Affected(month, id, s, cutoff, hourly, name) && name == ArchiveFileName(month, id, x.at) ==>
      ArchiveInput(month, id, s, cutoff, hourly, name) == {}
  {
    if x.at < cutoff && name == ArchiveFileName(month, id, x.at) {
      assert x in s + {x};
    }
    ArchiveNameLooksRight(month, id, x.at);
  }

  lemma InputStep(month: int -> string, id: string, s: set<Sample>, cutoff: int, hourly: Files, x: Sample, name: string)
    ensures ArchiveInput(month, id, s + {x}, cutoff, hourly, name) ==
      ArchiveInput(month, id, s, cutoff, hourly, name) +
        (if x.at < cutoff && name == ArchiveFileName(month, id, x.at) then {x} else {})
  {
  }

  /** Rewriting one more gathered file. */
  lemma WriteStep(month: int -> string, id: string, s: set<Sample>, cutoff: int, before: Files, after: Files,
                  written: set<string>, archive: Files, name: string, bucketed: seq<Sample>)
    requires PartlyWritten(month, id, s, cutoff, before, after, written)
    requires Gathered(month, id, s, cutoff, before, archive) && name in archive
    requires IsBucketing(bucketed, Kept(Members(archive[name]), ZERO_TIME), HOUR)
    ensures PartlyWritten(month, id, s, cutoff, before, after[name := bucketed], written + {name})
  {
    var after' := after[name := bucketed];
    forall n ensures FileState(month, id, s, cutoff, before, after', n, written + {name}) {
      assert FileState(month, id, s, cutoff, before, after, n, written);
      if n == name {
        var input := ArchiveInput(month, id, s, cutoff, before, name);
        assert Members(archive[name]) == input && Kept(input, ZERO_TIME) == input;
      }
    }
  }

  // ----- what a compaction leaves, read off the files before and after it

  /** Of the live samples since `cutoff` the latest of every ten minutes are left, and no others. */
  ghost predicate ThinnedLive(now: seq<Sample>, was: seq<Sample>, cutoff: int) {
    && (forall x :: x in now ==> x in was && (cutoff != ZERO_TIME ==> cutoff <= x.at))
    && (forall x :: x in was && cutoff <= x.at ==> HasLaterInTen(x, now))
    && forall i, j :: 0 <= i < j < |now| ==> now[i].at < now[j].at && !SameTen(now[i], now[j])
  }

  ghost predicate HasLaterInTen(x: Sample, s: seq<Sample>) {
    exists y :: y in s && SameTen(x, y) && x.at <= y.at
  }

  predicate SameTen(x: Sample, y: Sample) { x.at / (10 * MINUTE) == y.at / (10 * MINUTE) }

  /** A sample of archive file `name` was there before, or expired from a live file whose archive that is. */
  ghost predicate ArchivedFrom(month: int -> string, live: Files, hourly: Files, cutoff: int, name: string, x: Sample) {
    || (name in hourly && x in hourly[name])
    || exists id :: id in live && x in live[id] && x.at < cutoff && name == id + "-" + month(x.at) + ".ndjson"
  }

  ghost predicate OnlyExpiredArchived(month: int -> string, live: Files, before: Files, cutoff: int, after: Files) {
    forall name, x :: name in after && x in after[name] ==> ArchivedFrom(month, live, before, cutoff, name, x)
  }

  lemma BucketingThins(out: seq<Sample>, was: seq<Sample>, cutoff: int)
    requires IsBucketing(out, Kept(Members(was), cutoff), TEN_MINUTES)
    ensures ThinnedLive(out, was, cutoff)
  {
    forall i, j | 0 <= i < j < |out| ensures !SameTen(out[i], out[j]) { SameTenReads(out[i], out[j]); }
    forall x | x in was && cutoff <= x.at ensures HasLaterInTen(x, out) {
      assert x in Kept(Members(was), cutoff);
      assert Dominated(x, Members(out), TEN_MINUTES);
      var y :| y in Members(out) && Truncate(y.at, TEN_MINUTES) == Truncate(x.at, TEN_MINUTES) && x.at <= y.at;
      SameTenReads(x, y);
    }
  }

  lemma SameTenReads(x: Sample, y: Sample)
    ensures SameTen(x, y) <==> Truncate(x.at, TEN_MINUTES) == Truncate(y.at, TEN_MINUTES)
  {
    assert Truncate(x.at, TEN_MINUTES) == TEN_MINUTES * (x.at / TEN_MINUTES);
    assert Truncate(y.at, TEN_MINUTES) == TEN_MINUTES * (y.at / TEN_MINUTES);
  }

  /** Whatever subset of the archive files one sensor's compaction wrote, only its expired samples entered them. */
  lemma PartialArchivesOnlyExpired(month: int -> string, live: Files, before: Files, after: Files, id: string,
                                   cutoff: int, written: set<string>)
    requires id in live
    requires PartlyWritten(month, id, Members(live[id]), cutoff, before, after, written)
    ensures OnlyExpiredArchived(month, live, before, cutoff, after)
  {
    forall name | name in after
      ensures forall x :: x in after[name] ==> ArchivedFrom(month, live, before, cutoff, name, x)
    {
      assert FileState(month, id, Members(live[id]), cutoff, before, after, name, written);
    }
  }

  /** One sensor's file is as it was, unless its compaction finished. */
  ghost predicate ThinnedIf(done: bool, was: Files, now: Files, id: string, cutoff: int) {
    && now.Keys == was.Keys && id in was
    && (forall other :: other in was && other != id ==> now[other] == was[other])
    && if done then ThinnedLive(now[id], was[id], cutoff) else now == was
  }

  /** Which writes of one sensor's compaction fail, or are never reached because the process dies first. */
  datatype Faults = Faults(live: bool, archive: set<string>)

  const NO_FAULTS := Faults(false, {})

  ghost predicate Unhindered(month: int -> string, id: string, s: set<Sample>, cutoff: int, hourly: Files,
                             faults: Faults) {
    !faults.live && forall name :: Affected(month, id, s, cutoff, hourly, name) ==> name !in faults.archive
  }

  /** The file of a sensor still to come is as it was, and so may be that of one whose compaction failed. */
  ghost predicate SweptFile(was: seq<Sample>, now: seq<Sample>, waits: bool, finishes: bool, cutoff: int) {
    (now == was && (waits || !finishes)) || (!waits && ThinnedLive(now, was, cutoff))
  }

  predicate NoneFails(was: Files, faults: string -> Faults) { forall id :: id in was ==> faults(id) == NO_FAULTS }

  /** Compaction so far: `todo` are the sensors still to come. */
  ghost predicate SweptLive(was: Files, now: Files, todo: set<string>, done: bool, faults: string -> Faults,
                            cutoff: int) {
    && now.Keys == was.Keys
    && (forall id :: id in was ==>
      SweptFile(was[id], now[id], id in todo, done || faults(id) == NO_FAULTS, cutoff))
    && (NoneFails(was, faults) ==> done)
  }

  ghost predicate SweptArchive(month: int -> string, live: Files, hourly: Files, live': Files, hourly': Files,
                               cutoff: int) {
    && live'.Keys == live.Keys && (forall id, x :: id in live' && x in live'[id] ==> x in live[id])
    && OnlyExpiredArchived(month, live, hourly, cutoff, hourly')
  }

  /** Compaction so far, with the sensors in `todo` still to come, since the files were `was` and `wasHourly`. */
  ghost predicate Swept(month: int -> string, was: Files, wasHourly: Files, live: Files, hourly: Files,
                        todo: set<string>, done: bool, faults: string -> Faults, cutoff: int) {
    && SweptLive(was, live, todo, done, faults, cutoff)
    && SweptArchive(month, was, wasHourly, live, hourly, cutoff)
    && (done && cutoff != ZERO_TIME ==> AllSettled(live, hourly, todo, cutoff))
    && (AllSettled(was, wasHourly, {}, cutoff) ==> live == was && hourly == wasHourly)
  }

  /** One sensor's compaction, from `live` and `hourly`. */
  ghost predicate Compacted(month: int -> string, live: Files, hourly: Files, live': Files, hourly': Files,
                            id: string, done: bool, cutoff: int)
  {
    && ThinnedIf(done, live, live', id, cutoff)
    && OnlyExpiredArchived(month, live, hourly, cutoff, hourly')
    && (done && cutoff != ZERO_TIME ==> Settled(live', hourly', id, cutoff))
    && (Settled(live, hourly, id, cutoff) ==> live' == live && hourly' == hourly)
    && OthersStaySettled(live, hourly, live', hourly', id, cutoff)
  }

  lemma SweptNothing(month: int -> string, live: Files, hourly: Files, faults: string -> Faults, cutoff: int)
    ensures Swept(month, live, hourly, live, hourly, live.Keys, true, faults, cutoff)
  {
  }

  lemma SweptStep(month: int -> string, was: Files, wasHourly: Files, live: Files, hourly: Files, live': Files,
                  hourly': Files, todo: set<string>, done: bool, faults: string -> Faults, cutoff: int, id: string,
                  ok: bool)
    requires Swept(month, was, wasHourly, live, hourly, todo, done, faults, cutoff)
    requires id in todo && Compacted(month, live, hourly, live', hourly', id, ok, cutoff)
    requires faults(id) == NO_FAULTS ==> ok
    ensures Swept(month, was, wasHourly, live', hourly', todo - {id}, done && ok, faults, cutoff)
  {
    SweptAgain(month, was, wasHourly, live, hourly, live', hourly', id, ok, cutoff);
    SweptOne(was, live, live', todo, done, faults, cutoff, id, ok);
    if done && ok && cutoff != ZERO_TIME { OneMoreSettled(live, hourly, live', hourly', todo, id, cutoff); }
    if AllSettled(was, wasHourly, {}, cutoff) { assert Settled(was, wasHourly, id, cutoff); }
  }

  lemma SweptOne(was: Files, now: Files, now': Files, todo: set<string>, done: bool,
                 faults: string -> Faults, cutoff: int, id: string, ok: bool)
    requires SweptLive(was, now, todo, done, faults, cutoff) && id in todo
    requires ThinnedIf(ok, now, now', id, cutoff)
    requires faults(id) == NO_FAULTS ==> ok
    ensures SweptLive(was, now', todo - {id}, done && ok, faults, cutoff)
  {
    forall x | x in was
      ensures SweptFile(was[x], now'[x], x in todo - {id}, (done && ok) || faults(x) == NO_FAULTS, cutoff)
    {
      assert SweptFile(was[x], now[x], x in todo, done || faults(x) == NO_FAULTS, cutoff);
      if x == id { assert now[x] == was[x]; } else { assert now'[x] == now[x]; }
    }
  }

  lemma SweptAgain(month: int -> string, was: Files, wasHourly: Files, live: Files, hourly: Files, live': Files,
                   hourly': Files, id: string, ok: bool, cutoff: int)
    requires SweptArchive(month, was, wasHourly, live, hourly, cutoff)
    requires ThinnedIf(ok, live, live', id, cutoff)
    requires OnlyExpiredArchived(month, live, hourly, cutoff, hourly')
    ensures SweptArchive(month, was, wasHourly, live', hourly', cutoff)
  {
    forall other, x | other in live' && x in live'[other] ensures x in was[other] {
      assert x in live[other];
    }
    forall name, x | name in hourly' && x in hourly'[name]
      ensures ArchivedFrom(month, was, wasHourly, cutoff, name, x)
    {
      assert ArchivedFrom(month, live, hourly, cutoff, name, x);
      if name in hourly && x in hourly[name] {
        assert ArchivedFrom(month, was, wasHourly, cutoff, name, x);
      }
    }
  }

  ghost predicate RingsRetain(ring: Files, appended: Files, window: int) {
    ring.Keys == appended.Keys && forall id :: id in ring ==> ring[id] == Retained(appended[id], window)
  }

  lemma RingStep(ring: Files, appended: Files, id: string, s: Sample, window: int)
    requires RingsRetain(ring, appended, window)
    ensures RingsRetain(ring[id := Since(Read(ring, id) + [s], s.at - window)], Extended(appended, id, s), window)
  {
    RetainedStep(Read(appended, id), s, window);
    assert Read(ring, id) == Retained(Read(appended, id), window);
  }

  // ----- the store

  class Store {
    const window: int
    const retention: int
    const month: int -> string
    var ring: Files
    var live: Files
    var hourly: Files
    ghost var appended: Files                 // every sample the ring was given, in order
    ghost var log: map<string, set<Sample>>   // every sample whose write succeeded

    ghost predicate Valid()
      reads this
    {
      && Calendar(month)
      && RingsRetain(ring, appended, window)
      && Conserved(month, live, hourly, log)
    }

    constructor (window: int, retention: int, month: int -> string)
      requires Calendar(month)
      ensures Valid()
      ensures this.window == window && this.retention == retention && this.month == month
      ensures ring == map[] && live == map[] && hourly == map[] && log == map[]
    {
      this.window, this.retention, this.month := window, retention, month;
      ring, live, hourly, appended, log := map[], map[], map[], map[], map[];
    }

    /** Append with the clock at `now`; `written` is false when opening or writing the file failed. */
    method Append(id: string, given: Sample, now: int, written: bool)
      requires Valid()
      modifies this`ring, this`appended, this`live, this`log
      ensures Valid()
      ensures var s := if given.at == ZERO_TIME then given.(at := now) else given;
        && appended == Extended(old(appended), id, s)
        && live == (if written then Extended(old(live), id, s) else old(live))
        && log == (if written then Logged(old(log), id, s) else old(log))
    {
      var s := if given.at == ZERO_TIME then given.(at := now) else given;
      AppendRing(id, s);
      if written {
        AppendConserves(month, live, hourly, log, id, s);
        live := Extended(live, id, s);
        log := Logged(log, id, s);
      }
    }

    method AppendRing(id: string, s: Sample)
      requires RingsRetain(ring, appended, window)
      modifies this`ring, this`appended
      ensures RingsRetain(ring, appended, window)
      ensures appended == Extended(old(appended), id, s)
    {
      RingStep(ring, appended, id, s, window);
      var samples := Read(ring, id) + [s];
      samples := FilterSince(samples, s.at - window);
      ring, appended := ring[id := samples], Extended(appended, id, s);
    }

    method Recent(id: string, now: int) returns (result: seq<Sample>)
      requires Valid()
      ensures result == Since(Read(ring, id), now - window)
      ensures result == Since(Read(appended, id), now - window) <==> NoneOvertaken(Read(appended, id), window, now)
    {
      result := FilterSince(Read(ring, id), now - window);
      RecentLosesNothing(Read(appended, id), window, now);
    }

    /**
     * Compacts one sensor's file; it stops at the first write that fails, whichever order the archive is written in.
     */
    method CompactSensorFile(id: string, cutoff: int, faults: Faults) returns (done: bool)
      requires Valid() && id in live
      modifies this`live, this`hourly
      ensures Valid()
      ensures Compacted(month, old(live), old(hourly), live, hourly, id, done, cutoff)
      ensures faults == NO_FAULTS ==> done
      ensures done <==> Unhindered(month, id, Members(old(live)[id]), cutoff, old(hourly), faults)
    {
      var samples := Sorting.SortBy(At, live[id]);
      Sorting.SortByPermutes(At, live[id]);
      Sorting.SameMembers(samples, live[id]);
      assert Members(samples) == Members(live[id]);
      var recent := BucketSensorSamples(samples, cutoff, TEN_MINUTES);
      var archive := GatherArchives(id, samples, cutoff);
      ghost var before := hourly;
      ghost var written: set<string>;
      done, written := WriteArchives(id, cutoff, archive, faults.archive);
      done := done && !faults.live;
      PartialArchiveConserves(month, live, before, hourly, log, id, cutoff, written);
      DiedCompacting(month, live, before, hourly, id, cutoff, written, recent);
      if !done { return; }
      CompletedConserves(month, live, before, hourly, log, id, cutoff, written, recent);
      FileCompacted(month, live, before, hourly, id, cutoff, written, recent);
      live := live[id := recent];
    }

    /** Rewrites the archive files in any order; false when a write fails, with the files in `written` done. */
    method WriteArchives(id: string, cutoff: int, archive: Files, failing: set<string>)
      returns (done: bool, ghost written: set<string>)
      requires id in live
      requires Gathered(month, id, Members(live[id]), cutoff, hourly, archive)
      modifies this`hourly
      ensures PartlyWritten(month, id, Members(live[id]), cutoff, old(hourly), hourly, written)
      ensures done ==> written == archive.Keys
      ensures done <==> archive.Keys !! failing
    {
      ghost var s := Members(live[id]);
      var todo := archive.Keys;
      written := {};
      while todo != {}
        invariant todo <= archive.Keys && written == archive.Keys - todo && written !! failing
        invariant PartlyWritten(month, id, s, cutoff, old(hourly), hourly, written)
        decreases todo
      {
        var name := Sorting.PickAny(todo);
        if name in failing { return false, written; }
        var bucketed := BucketSensorSamples(archive[name], ZERO_TIME, HOUR);
        WriteStep(month, id, s, cutoff, old(hourly), hourly, written, archive, name, bucketed);
        hourly := hourly[name := bucketed];
        todo, written := todo - {name}, written + {name};
      }
      return true, written;
    }

    /** The stored archives the directory scan picks up, with the samples older than `cutoff` appended to theirs. */
    method GatherArchives(id: string, samples: seq<Sample>, cutoff: int) returns (archive: Files)
      ensures Gathered(month, id, Members(samples), cutoff, hourly, archive)
    {
      archive := map name | name in hourly && LooksLikeArchiveOf(id, name) :: hourly[name];
      assert Members(samples[..0]) == {};
      for i := 0 to |samples|
        invariant Gathered(month, id, Members(samples[..i]), cutoff, hourly, archive)
      {
        var sample := samples[i];
        assert Members(samples[..i + 1]) == Members(samples[..i]) + {sample};
        GatherStep(month, id, Members(samples[..i]), cutoff, hourly, archive, sample);
        if sample.at < cutoff {
          archive := Extended(archive, ArchiveFileName(month, id, sample.at), sample);
        }
      }
      assert samples[..|samples|] == samples;
    }

    /** Compacts every live file at `now`; a file whose compaction fails is left for the next time. */
    method Compact(now: int, faults: string -> Faults) returns (done: bool)
      requires Valid()
      modifies this`live, this`hourly
      ensures Valid()
      ensures Swept(month, old(live), old(hourly), live, hourly, {}, done, faults, now - retention)
    {
      var cutoff := now - retention;
      var todo := live.Keys;
      done := true;
      SweptNothing(month, live, hourly, faults, cutoff);
      while todo != {}
        invariant Valid() && todo <= live.Keys
        invariant Swept(month, old(live), old(hourly), live, hourly, todo, done, faults, cutoff)
        decreases todo
      {
        var id := Sorting.PickAny(todo);
        ghost var wasLive, wasHourly := live, hourly;
        var ok := CompactSensorFile(id, cutoff, faults(id));
        SweptStep(month, old(live), old(hourly), wasLive, wasHourly, live, hourly, todo, done, faults, cutoff, id, ok);
        done, todo := done && ok, todo - {id};
      }
    }
  }
}
