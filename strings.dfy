/** String helpers shared by the parser and the resolver. */
module Strings {

  /** `parts` joined with `sep` between neighbours, as JavaScript's Array.prototype.join does. */
  function Join(parts: seq<string>, sep: char): (r: string)
    ensures parts == [] ==> r == ""
    ensures |parts| == 1 ==> r == parts[0]
  {
    if parts == [] then ""
    else if |parts| == 1 then parts[0]
    else parts[0] + [sep] + Join(parts[1..], sep)
  }

  /**
   * Join read from the right: adding one more part adds the separator and that
   * part at the end, the way `join` builds its result left to right.
   */
  lemma {:induction false} JoinAppend(parts: seq<string>, p: string, sep: char)
    ensures Join(parts + [p], sep) == if parts == [] then p else Join(parts, sep) + [sep] + p
    decreases |parts|
  {
    var all := parts + [p];
    if |parts| == 1 {
      assert all[1..] == [p];
    } else if |parts| > 1 {
      assert all[1..] == parts[1..] + [p];
      JoinAppend(parts[1..], p, sep);
    }
  }
}
