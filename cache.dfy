/**
 * The memo that `@st.cache_data(ttl=60)` puts around `load_df`, and the
 * `st.cache_data.clear()` that the upload performs. The function takes no
 * arguments, so the memo has one slot. Time is passed in explicitly.
 */
module Cache {
  import opened Wrappers
  import opened Loader

  /** `ttl=60`, in seconds. */
  const Ttl: real := 60.0

  class RosterCache {
    /** The result of the last load, failures included. */
    var value: LoadResult
    /** When `value` was stored. */
    var stamp: real
    /** False before the first load and after `Invalidate`. */
    var valid: bool

    constructor ()
      ensures !valid
    {
      value := LoadResult(None, None);
      stamp := 0.0;
      valid := false;
    }

    /** The stored result may still be served at time `now`: an entry lives
        while the clock is before its storing time plus the TTL. */
    predicate Fresh(now: real)
      reads this
    {
      valid && now < stamp + Ttl
    }

    /** A call of the memoized `load_df` at time `now`: a fresh entry is
        returned without loading; otherwise `loader` runs once and its
        result is stored with the time. */
    method Get(now: real, loader: () -> LoadResult) returns (r: LoadResult, loaded: bool)
      modifies this
      ensures loaded <==> !old(Fresh(now))
      ensures r == if loaded then loader() else old(value)
      ensures valid && value == r
      ensures stamp == if loaded then now else old(stamp)
    {
      if Fresh(now) {
        r, loaded := value, false;
      } else {
        r := loader();
        loaded := true;
        value, stamp, valid := r, now, true;
      }
    }

    /** `st.cache_data.clear()` */
    method Invalidate()
      modifies this
      ensures !valid && value == old(value) && stamp == old(stamp)
    {
      valid := false;
    }
  }

  /** Two calls with no invalidation between them. The window counts from
      when the entry was stored: if the first call loaded and the second
      comes less than the TTL later, the second returns the same result
      without loading, whatever the loader would now give; if the first
      was served from an entry stored earlier, the second is served too
      while that entry's window lasts. */
  method GetTwice(c: RosterCache, t1: real, t2: real, l1: () -> LoadResult, l2: () -> LoadResult)
    returns (r1: LoadResult, loaded1: bool, r2: LoadResult, loaded2: bool)
    modifies c
    ensures loaded1 && t2 < t1 + Ttl ==> !loaded2 && r2 == r1
    ensures !loaded1 && t2 < old(c.stamp) + Ttl ==> !loaded2 && r2 == r1
    ensures loaded2 <==> (if loaded1 then t1 else old(c.stamp)) + Ttl <= t2
    ensures !loaded2 ==> r2 == r1
    ensures loaded2 ==> r2 == l2()
  {
    r1, loaded1 := c.Get(t1, l1);
    r2, loaded2 := c.Get(t2, l2);
  }

  /** After an invalidation the next call loads, however recent the entry was. */
  method GetAfterInvalidate(c: RosterCache, now: real, loader: () -> LoadResult) returns (r: LoadResult, loaded: bool)
    modifies c
    ensures loaded && r == loader()
  {
    c.Invalidate();
    r, loaded := c.Get(now, loader);
  }
}
