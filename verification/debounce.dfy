/** The per-key debounce table: at most one pending timer per key, where a
    newer request for a key cancels the older one, so a burst of requests
    runs only its last job, once, after the delay. Clock values are inputs. */
module Debounce {
  import opened Wrappers

  /** A pending `setTimeout`: when it becomes due and what it will run. */
  datatype Timer<J> = Timer(due: int, job: J)

  /** Pending timers by key (the service's `debounceTimers` map). */
  type Table<J> = map<string, Timer<J>>

  /** Schedule `job` for `key`: any pending timer for `key` is cleared and
      replaced by one due `delay` after `now`; other keys keep theirs. */
  function Schedule<J>(t: Table<J>, key: string, job: J, now: int, delay: int): (t': Table<J>)
    ensures t'.Keys == t.Keys + {key}
    ensures t'[key].job == job && t'[key].due == now + delay
    ensures forall k :: k in t && k != key ==> t'[k] == t[k]
  {
    t[key := Timer(now + delay, job)]
  }

  datatype Fired<J> = Fired(table: Table<J>, job: Option<J>)

  /** Let the clock reach `now` for `key`: a due timer runs its job and its
      entry is deleted; otherwise nothing happens. */
  function Fire<J>(t: Table<J>, key: string, now: int): (r: Fired<J>)
    ensures r.job.Some? <==> key in t && t[key].due <= now
    ensures r.job.Some? ==> r.job.value == t[key].job && r.table.Keys == t.Keys - {key}
    ensures forall k :: k in t && k != key ==> k in r.table && r.table[k] == t[k]
    ensures r.job.None? ==> r.table == t
  {
    if key in t && t[key].due <= now then Fired(t - {key}, Some(t[key].job))
    else Fired(t, None)
  }

  /** A burst of requests for one key, the i-th made at `times[i]`. */
  function Burst<J>(t: Table<J>, key: string, jobs: seq<J>, times: seq<int>, delay: int): Table<J>
    requires |jobs| == |times|
  {
    if |jobs| == 0 then t
    else Schedule(Burst(t, key, jobs[..|jobs| - 1], times[..|times| - 1], delay),
                  key, jobs[|jobs| - 1], times[|times| - 1], delay)
  }

  /** After a burst, exactly one timer is pending for the key, holding the
      last job of the burst and due one delay after the last request; timers
      of other keys are untouched. */
  lemma {:induction false} BurstKeepsLast<J>(t: Table<J>, key: string, jobs: seq<J>, times: seq<int>, delay: int)
    requires |jobs| == |times| && |jobs| > 0
    ensures var t' := Burst(t, key, jobs, times, delay);
      && t'.Keys == t.Keys + {key}
      && t'[key] == Timer(times[|times| - 1] + delay, jobs[|jobs| - 1])
      && forall k :: k in t && k != key ==> t'[k] == t[k]
  {
    if |jobs| > 1 {
      BurstKeepsLast(t, key, jobs[..|jobs| - 1], times[..|times| - 1], delay);
    }
  }

  /** Firing a burst writes once: the first due firing runs the last job, and
      any later firing for the same key runs nothing. Earlier jobs never run. */
  lemma {:induction false} BurstFiresLastJobOnce<J>(t: Table<J>, key: string, jobs: seq<J>, times: seq<int>,
                                 delay: int, now: int, later: int)
    requires |jobs| == |times| && |jobs| > 0
    requires now >= times[|times| - 1] + delay
    ensures var first := Fire(Burst(t, key, jobs, times, delay), key, now);
      && first.job == Some(jobs[|jobs| - 1])
      && Fire(first.table, key, later).job == None
  {
    BurstKeepsLast(t, key, jobs, times, delay);
  }
}
