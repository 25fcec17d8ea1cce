/** Taking the least keys of a map: what `ZRANGEBYSCORE ... LIMIT` and `ORDER BY ... LIMIT` do. */
module Ranking {

  /** `ids` are the `limit` keys with the least values, in order; no key is passed over for a greater one. */
  ghost predicate IsLeast<K>(ids: seq<K>, m: map<K, int>, limit: int) {
    && (forall i | 0 <= i < |ids| :: ids[i] in m)
    && (forall i, k | 0 <= i < k < |ids| :: ids[i] in m && ids[k] in m && ids[i] != ids[k] && m[ids[i]] <= m[ids[k]])
    && |ids| <= (if limit > 0 then limit else 0)
    && (|ids| < limit ==> forall key | key in m :: key in ids)
    && (forall key, i | key in m && key !in ids && 0 <= i < |ids| :: ids[i] in m && m[ids[i]] <= m[key])
  }

  method TakeLeast<K>(m: map<K, int>, limit: int) returns (ids: seq<K>)
    ensures IsLeast(ids, m, limit)
  {
    ids := [];
    var rest := m.Keys;
    while rest != {} && |ids| < limit
      invariant rest <= m.Keys
      invariant forall i | 0 <= i < |ids| :: ids[i] in m && ids[i] !in rest
      invariant forall key | key in m :: key in rest || key in ids
      invariant forall i, k | 0 <= i < k < |ids| :: ids[i] != ids[k] && m[ids[i]] <= m[ids[k]]
      invariant forall key, i | key in rest && 0 <= i < |ids| :: m[ids[i]] <= m[key]
      invariant |ids| <= if limit > 0 then limit else 0
      decreases |rest|
    {
      var next := LeastOf(m, rest);
      rest := rest - {next};
      ids := ids + [next];
    }
  }

  method LeastOf<K>(m: map<K, int>, among: set<K>) returns (least: K)
    requires among != {} && among <= m.Keys
    ensures least in among && forall key | key in among :: m[least] <= m[key]
  {
    var rest := among;
    least :| least in rest;
    rest := rest - {least};
    while rest != {}
      invariant rest <= among && least in among
      invariant forall key | key in among && key !in rest :: m[least] <= m[key]
      decreases |rest|
    {
      var key :| key in rest;
      rest := rest - {key};
      if m[key] < m[least] {
        least := key;
      }
    }
  }
}
