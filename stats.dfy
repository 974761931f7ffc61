/**
 * The stats sink the middleware writes to: a table from counter name to
 * integer, with the `inc_value` and `max_value` semantics of Scrapy's
 * in-memory stats collector (a missing counter starts at 0 for
 * `inc_value` and at the offered value for `max_value`).
 */
module Stats {
  import opened Wrappers

  type StatsTable = map<string, int>

  /** The value of `key`, if it has one. */
  function Get(s: StatsTable, key: string): (v: Option<int>) {
    if key in s then Some(s[key]) else None
  }

  /** The value of `key`, or `default` when it has none. */
  function GetOr(s: StatsTable, key: string, default: int): (v: int) {
    if key in s then s[key] else default
  }

  /** The table after `inc_value(key)`: `d[key] = d.setdefault(key, 0) + 1`. */
  function AfterInc(s: StatsTable, key: string): (t: StatsTable) {
    s[key := GetOr(s, key, 0) + 1]
  }

  /** The table after `max_value(key, value)`: `d[key] = max(d.setdefault(key, value), value)`. */
  function AfterMax(s: StatsTable, key: string, value: int): (t: StatsTable) {
    var current := GetOr(s, key, value);
    s[key := if current > value then current else value]
  }

  /** `inc_value` adds exactly one to its counter (a missing one counts as 0) and touches no other. */
  lemma IncLaws(s: StatsTable, key: string)
    ensures Get(AfterInc(s, key), key) == Some(GetOr(s, key, 0) + 1)
    ensures forall k :: k != key ==> Get(AfterInc(s, key), k) == Get(s, k)
  {
  }

  /**
   * `max_value` leaves its counter at the larger of the old value and the
   * offered one, touches no other, and offering the same value twice changes
   * nothing the second time.
   */
  lemma MaxLaws(s: StatsTable, key: string, value: int)
    ensures var t := AfterMax(s, key, value);
      && key in t && t[key] >= value && (key in s ==> t[key] >= s[key])
      && (t[key] == value || (key in s && t[key] == s[key]))
      && (forall k :: k != key ==> Get(t, k) == Get(s, k))
      && AfterMax(t, key, value) == t
  {
  }

  /** A stats collector object, owned by the crawler and shared by the middleware. */
  class StatsCollector {
    var values: StatsTable

    constructor ()
      ensures values == map[]
    {
      values := map[];
    }

    method IncValue(key: string)
      modifies this
      ensures values == AfterInc(old(values), key)
    {
      values := AfterInc(values, key);
    }

    method MaxValue(key: string, value: int)
      modifies this
      ensures values == AfterMax(old(values), key, value)
    {
      values := AfterMax(values, key, value);
    }
  }
}
