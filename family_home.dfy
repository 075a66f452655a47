/** `FamilyHomeScreen` of the family app: the shortened patient id it shows. */
module FamilyHome {
  import opened Wrappers

  /** JavaScript `s.slice(0, n)`: at most the first `n` characters. */
  function Head(s: string, n: nat): (r: string)
    ensures |r| == if |s| < n then |s| else n
    ensures r == s[..|r|]
  {
    if |s| < n then s else s[..n]
  }

  /** JavaScript `s.slice(-n)` for `n > 0`: at most the last `n` characters. */
  function Tail(s: string, n: nat): (r: string)
    ensures |r| == if |s| < n then |s| else n
    ensures r == s[|s| - |r|..]
  {
    if |s| < n then s else s[|s| - n..]
  }

  const ELLIPSIS: string := "..."

  /**
   * `shortenId`: the empty string for a missing or empty id; otherwise the
   * first four characters, "...", and the last four. Ids of eight characters
   * or more always shorten to eleven; ids of at most four characters appear
   * twice, whole, around the dots.
   */
  function ShortenId(id: Option<string>): (short: string)
    ensures id.None? || id.value == "" ==> short == ""
    ensures id.Some? && id.value != "" ==>
      var n := if |id.value| < 4 then |id.value| else 4;
      && |short| == 2 * n + 3
      && short[..n] == id.value[..n]
      && short[n..n + 3] == ELLIPSIS
      && short[n + 3..] == id.value[|id.value| - n..]
    ensures id.Some? && |id.value| >= 8 ==> |short| == 11
    ensures id.Some? && 0 < |id.value| <= 4 ==> short == id.value + ELLIPSIS + id.value
  {
    match id
    case None => ""
    case Some(s) =>
      if s == "" then ""
      else
        var short := Head(s, 4) + ELLIPSIS + Tail(s, 4);
        assert |s| <= 4 ==> Head(s, 4) == s && Tail(s, 4) == s;
        short
  }
}
