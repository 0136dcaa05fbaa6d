/** String helpers shared by the endpoint and topic formats: both wrap one
    caller-supplied piece between a fixed prefix and a fixed suffix. */
module Text {
  import opened Wrappers

  /** The middle of `s` when `s` starts with `prefix` and ends with `suffix`
      (the two not overlapping); `None` otherwise. */
  function Unwrap(s: string, prefix: string, suffix: string): (r: Option<string>)
    ensures r.Some? ==> s == prefix + r.value + suffix
  {
    if |prefix| + |suffix| <= |s| && s[..|prefix|] == prefix && s[|s| - |suffix|..] == suffix then
      var mid := s[|prefix|..|s| - |suffix|];
      assert s == s[..|prefix|] + mid + s[|s| - |suffix|..];
      Some(mid)
    else
      None
  }

  /** Wrapping and then unwrapping gives back the middle piece. */
  lemma {:induction false} UnwrapWrap(prefix: string, x: string, suffix: string)
    ensures Unwrap(prefix + x + suffix, prefix, suffix) == Some(x)
  {
    var s := prefix + x + suffix;
    assert s[..|prefix|] == prefix;
    assert s[|s| - |suffix|..] == suffix;
    assert s[|prefix|..|s| - |suffix|] == x;
  }
}
