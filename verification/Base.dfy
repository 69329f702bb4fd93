/** Small shared vocabulary: an optional value (Java's nullable references),
    map lookup, Java's String.startsWith, and spacing of clock readings. */
module Base {

  /** A value that may be absent; stands for a Java reference that may be null. */
  datatype Option<+T> = None | Some(value: T)

  /** Looking a key up in a key/value store; None when the key is missing. */
  function Lookup<K, V>(m: map<K, V>, k: K): (r: Option<V>)
    ensures r.Some? <==> k in m
    ensures r.Some? ==> r.value == m[k]
  {
    if k in m then Some(m[k]) else None
  }

  /** Java's String.startsWith. */
  predicate StartsWith(s: string, prefix: string)
  {
    |prefix| <= |s| && s[..|prefix|] == prefix
  }

  /** A longer prefix implies every shorter prefix of it. */
  lemma StartsWithPrefix(s: string, longer: string, shorter: string)
    requires StartsWith(s, longer)
    requires StartsWith(longer, shorter)
    ensures StartsWith(s, shorter)
  {
    assert s[..|shorter|] == longer[..|shorter|];
  }

  /** Each clock reading of `times` lies more than `period` after the one
      before it, the first one more than `period` after `last`. */
  predicate Spaced(last: int, times: seq<int>, period: int)
    decreases |times|
  {
    |times| == 0 || (times[0] - last > period && Spaced(times[0], times[1..], period))
  }
}
