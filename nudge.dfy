/**
 * The nudge-token expander (`expandNudgeTokens`): service text may carry
 * machine-readable suggestions such as `[PRIOR:CONTRIBUTE]` or
 * `[PRIOR:CONTRIBUTE problem="NPE" tags="kotlin"]`; each one is rewritten to the
 * hint `` `prior contribute` ``. The attributes are dropped and the command name
 * is lower-cased. Absent messages (`null`, `undefined`) pass through.
 */
module Nudge {
  import opened Wrappers

  /** A JavaScript message argument: `null`, `undefined`, or a string. */
  datatype Message = Null | Undefined | Text(s: string)

  const Marker: string := "[PRIOR:"

  /** The characters a command name is made of: upper-case letters and `_`. */
  predicate IsCommandChar(c: char) { 'A' <= c <= 'Z' || c == '_' }

  predicate IsCommand(cmd: string)
  {
    cmd != [] && forall i :: 0 <= i < |cmd| ==> IsCommandChar(cmd[i])
  }

  predicate StartsWithMarker(s: string)
  {
    |s| >= |Marker| && s[..|Marker|] == Marker
  }

  /** The length of the run of command characters at the start of `s`. */
  function CommandRun(s: string): (n: nat)
    ensures n <= |s|
    ensures forall i :: 0 <= i < n ==> IsCommandChar(s[i])
    ensures n == |s| || !IsCommandChar(s[n])
  {
    if s != [] && IsCommandChar(s[0]) then 1 + CommandRun(s[1..]) else 0
  }

  /** The command run found after position `m` is a command name when it is not empty. */
  lemma CommandSlice(s: string, m: nat)
    requires m <= |s|
    ensures m + CommandRun(s[m..]) <= |s|
    ensures CommandRun(s[m..]) > 0 ==> IsCommand(s[m..m + CommandRun(s[m..])])
  {
    var n := CommandRun(s[m..]);
    var c := s[m..m + n];
    assert forall i :: 0 <= i < |c| ==> c[i] == s[m..][i];
  }

  /** The first position at or after `j` that holds `]`, or `|s|` if there is none. */
  function CloseFrom(s: string, j: nat): (k: nat)
    requires j <= |s|
    ensures j <= k <= |s|
    ensures forall m :: j <= m < k ==> s[m] != ']'
    ensures k == |s| || s[k] == ']'
    decreases |s| - j
  {
    if j < |s| && s[j] != ']' then CloseFrom(s, j + 1) else j
  }

  /** A recognised token at the start of a string: its command and its length. */
  datatype Token = Token(command: string, length: nat)

  /**
   * Recognises `[PRIOR:CMD]` or `[PRIOR:CMD attributes]` at the start of `s`,
   * where the attributes follow one space and run to the first `]`.
   */
  function TokenAt(s: string): (r: Option<Token>)
    ensures r.Some? ==> StartsWithMarker(s)
    ensures r.Some? ==> IsCommand(r.value.command) && |Marker| + |r.value.command| < r.value.length <= |s|
    ensures r.Some? ==> s[|Marker|..|Marker| + |r.value.command|] == r.value.command
    ensures r.Some? ==> s[r.value.length - 1] == ']'
  {
    if !StartsWithMarker(s) then None
    else
      var n := CommandRun(s[|Marker|..]);
      var j := |Marker| + n;
      CommandSlice(s, |Marker|);
      if n == 0 then None
      else if j < |s| && s[j] == ']' then Some(Token(s[|Marker|..j], j + 1))
      else if j < |s| && s[j] == ' ' then
        var k := CloseFrom(s, j + 1);
        if k < |s| then Some(Token(s[|Marker|..j], k + 1)) else None
      else None
  }

  function ToLowerChar(c: char): char
  {
    if 'A' <= c <= 'Z' then (c as int + 32) as char else c
  }

  /** Lower-casing: no upper-case letter is left, and only upper-case letters change, each to its lower-case form. */
  function Lower(s: string): (r: string)
    ensures |r| == |s|
    ensures forall i :: 0 <= i < |r| ==> !('A' <= r[i] <= 'Z')
    ensures forall i :: 0 <= i < |s| ==> r[i] == s[i] || ('A' <= s[i] <= 'Z' && r[i] as int == s[i] as int + 32)
  {
    seq(|s|, i requires 0 <= i < |s| => ToLowerChar(s[i]))
  }

  /** The hint a token becomes. */
  function Hint(cmd: string): (h: string)
    requires IsCommand(cmd)
    ensures |h| == |cmd| + 8 && h[0] == '`' && '[' !in h
  {
    "`prior " + Lower(cmd) + "`"
  }

  /** Every recognised token rewritten, scanning left to right; all other text copied. */
  function Expand(s: string): string
    decreases |s|
  {
    match TokenAt(s)
    case Some(t) => Hint(t.command) + Expand(s[t.length..])
    case None => if s == [] then [] else [s[0]] + Expand(s[1..])
  }

  function ExpandNudgeTokens(m: Message): Message
  {
    match m
    case Text(s) => Text(Expand(s))
    case _ => m
  }

  /** `s` contains the substring `[PRIOR:` somewhere. */
  predicate ContainsMarker(s: string)
  {
    s != [] && (StartsWithMarker(s) || ContainsMarker(s[1..]))
  }

  /** Every `[PRIOR:` in `s` starts a well-formed token. */
  predicate AllMarkersRecognised(s: string)
  {
    s == [] || ((StartsWithMarker(s) ==> TokenAt(s).Some?) && AllMarkersRecognised(s[1..]))
  }

  /** The source text of a token, with or without attributes. */
  function TokenText(cmd: string, attributes: Option<string>): string
  {
    Marker + cmd + Closing(attributes)
  }

  // ---- properties -------------------------------------------------------

  /** `null` and `undefined` pass through unchanged. */
  lemma AbsentPassesThrough(m: Message)
    requires !m.Text?
    ensures ExpandNudgeTokens(m) == m
  {
  }

  /**
   * A message in which no position starts a well-formed token is returned
   * unchanged: a `[PRIOR:` that is not followed by a command and a closing `]`,
   * and any other bracketed text, is copied as it is.
   */
  lemma {:induction false} NoTokensIdentity(s: string)
    requires forall i :: 0 <= i <= |s| ==> TokenAt(s[i..]).None?
    ensures Expand(s) == s
    decreases |s|
  {
    if s != [] {
      assert s[0..] == s;
      forall i | 0 <= i <= |s[1..]|
        ensures TokenAt(s[1..][i..]).None?
      {
        assert s[1..][i..] == s[i + 1..];
      }
      NoTokensIdentity(s[1..]);
    }
  }

  /** A message without `[PRIOR:` has no token anywhere. */
  lemma {:induction false} MarkerFreeNoToken(s: string)
    requires !ContainsMarker(s)
    ensures forall i :: 0 <= i <= |s| ==> TokenAt(s[i..]).None?
    decreases |s|
  {
    if s != [] {
      MarkerFreeNoToken(s[1..]);
      forall i | 1 <= i <= |s|
        ensures TokenAt(s[i..]).None?
      {
        assert s[i..] == s[1..][i - 1..];
      }
      assert s[0..] == s;
    }
  }

  /** A message whose only `[` is its first character, and which does not start with a token, has no token anywhere. */
  lemma OnlyHeadBracket(s: string)
    requires s != [] && TokenAt(s).None? && '[' !in s[1..]
    ensures forall i :: 0 <= i <= |s| ==> TokenAt(s[i..]).None?
  {
    forall i | 1 <= i <= |s|
      ensures TokenAt(s[i..]).None?
    {
      if i < |s| {
        assert s[i..][0] == s[1..][i - 1];
      }
    }
    assert s[0..] == s;
  }

  lemma AllMarkersSuffix(s: string, k: nat)
    requires k <= |s| && AllMarkersRecognised(s)
    ensures AllMarkersRecognised(s[k..])
    decreases k
  {
    if k > 0 {
      AllMarkersSuffix(s[1..], k - 1);
      assert s[1..][k - 1..] == s[k..];
    }
  }

  /** Text without `[` cannot start or hold a marker, so it adds none in front of `x`. */
  lemma {:induction false} BracketFreePrefix(a: string, x: string)
    requires '[' !in a
    ensures ContainsMarker(a + x) <==> ContainsMarker(x)
    decreases |a|
  {
    if a != [] {
      assert (a + x)[0] == a[0];
      assert (a + x)[1..] == a[1..] + x;
      BracketFreePrefix(a[1..], x);
    } else {
      assert a + x == x;
    }
  }

  /** Text without `[` holds no marker. */
  lemma BracketFree(a: string)
    requires '[' !in a
    ensures !ContainsMarker(a)
  {
    BracketFreePrefix(a, "");
    assert a + "" == a;
  }

  /** An expansion whose first character is not a backtick copied it from a non-token. */
  lemma CopiedHead(t: string)
    requires Expand(t) != [] && Expand(t)[0] != '`'
    ensures t != [] && TokenAt(t).None?
  {
  }

  /** Expansion only starts with a backtick-free text `p` when the input did. */
  lemma {:induction false} ExpandPrefix(t: string, p: string)
    requires '`' !in p && |p| <= |Expand(t)| && Expand(t)[..|p|] == p
    ensures |p| <= |t| && t[..|p|] == p
    decreases |p|
  {
    if p != [] {
      CopiedHead(t);
      var e := Expand(t[1..]);
      assert Expand(t) == [t[0]] + e;
      assert p[1..] == e[..|p| - 1];
      ExpandPrefix(t[1..], p[1..]);
      assert t[..|p|] == [t[0]] + t[1..][..|p| - 1];
    }
  }

  /** Copying one character that starts no token cannot create a marker in front. */
  lemma MarkerAfterCopy(s: string)
    requires s != [] && TokenAt(s).None?
    ensures StartsWithMarker([s[0]] + Expand(s[1..])) ==> StartsWithMarker(s)
  {
    var e := Expand(s[1..]);
    if StartsWithMarker([s[0]] + e) {
      assert ([s[0]] + e)[1..] == e;
      assert e[..|Marker| - 1] == Marker[1..];
      ExpandPrefix(s[1..], Marker[1..]);
      assert s[..|Marker|] == [s[0]] + s[1..][..|Marker| - 1];
    }
  }

  /** When every `[PRIOR:` starts a well-formed token, none is left after expansion. */
  lemma {:induction false} NoMarkerRemains(s: string)
    requires AllMarkersRecognised(s)
    ensures !ContainsMarker(Expand(s))
    decreases |s|
  {
    if s != [] {
      match TokenAt(s)
      case Some(t) =>
        AllMarkersSuffix(s, t.length);
        NoMarkerRemains(s[t.length..]);
        BracketFreePrefix(Hint(t.command), Expand(s[t.length..]));
      case None =>
        assert !StartsWithMarker(s);
        AllMarkersSuffix(s, 1);
        NoMarkerRemains(s[1..]);
        var e := Expand(s[1..]);
        assert Expand(s) == [s[0]] + e;
        assert ([s[0]] + e)[1..] == e;
        MarkerAfterCopy(s);
    }
  }

  /** A marker-free non-empty text followed by `[` does not start with a marker. */
  lemma NoMarkerAtJoin(a: string, t: string)
    requires !ContainsMarker(a) && a != [] && t != [] && t[0] == '['
    ensures !StartsWithMarker(a + t)
  {
    var s := a + t;
    if |a| >= |Marker| {
      assert s[..|Marker|] == a[..|Marker|];
    } else {
      assert s[|a|] == '[';
      assert Marker[|a|] != '[';
    }
  }

  /** Text without a marker in front of a `[` leaves the scan in step. */
  lemma {:induction false} PlainPrefix(a: string, t: string)
    requires !ContainsMarker(a) && t != [] && t[0] == '['
    ensures Expand(a + t) == a + Expand(t)
    decreases |a|
  {
    if a != [] {
      var s := a + t;
      NoMarkerAtJoin(a, t);
      assert TokenAt(s).None?;
      assert s[0] == a[0] && s[1..] == a[1..] + t;
      assert Expand(s) == [a[0]] + Expand(a[1..] + t);
      assert !ContainsMarker(a[1..]);
      PlainPrefix(a[1..], t);
      assert a == [a[0]] + a[1..];
    } else {
      assert a + t == t;
    }
  }

  lemma {:induction false} CloseFromOf(s: string, j: nat, a: string)
    requires j + |a| < |s| && s[j..j + |a|] == a && ']' !in a && s[j + |a|] == ']'
    ensures CloseFrom(s, j) == j + |a|
    decreases |a|
  {
    if a != [] {
      assert s[j] == a[0];
      assert s[j + 1..j + |a|] == a[1..];
      CloseFromOf(s, j + 1, a[1..]);
    }
  }

  /** The text after the command: `]`, or a space, the attributes and `]`. */
  function Closing(attributes: Option<string>): string
  {
    match attributes
    case None => "]"
    case Some(a) => " " + a + "]"
  }

  lemma {:induction false} CommandRunOf(cmd: string, x: string)
    requires forall i :: 0 <= i < |cmd| ==> IsCommandChar(cmd[i])
    requires x != [] && !IsCommandChar(x[0])
    ensures CommandRun(cmd + x) == |cmd|
    decreases |cmd|
  {
    if cmd != [] {
      assert (cmd + x)[1..] == cmd[1..] + x;
      CommandRunOf(cmd[1..], x);
    } else {
      assert cmd + x == x;
    }
  }

  /** The three parts of `p + c + r`, read back by slicing. */
  lemma Slices(p: string, c: string, r: string)
    ensures (p + c + r)[..|p|] == p
    ensures (p + c + r)[|p|..] == c + r
    ensures (p + c + r)[|p|..|p| + |c|] == c
    ensures (p + c + r)[|p| + |c|..] == r
  {
    var s := p + c + r;
    assert s == p + (c + r);
    assert s[|p|..] == c + r;
    assert s[|p|..|p| + |c|] == (c + r)[..|c|];
  }

  /** The marker and the command at the start of a token text. */
  lemma TokenHead(cmd: string, close: string, rest: string)
    requires IsCommand(cmd) && close != [] && !IsCommandChar(close[0])
    ensures var s := Marker + cmd + close + rest;
      && StartsWithMarker(s)
      && CommandRun(s[|Marker|..]) == |cmd|
      && s[|Marker|..|Marker| + |cmd|] == cmd
      && s[|Marker| + |cmd|..] == close + rest
  {
    assert Marker + cmd + close + rest == Marker + cmd + (close + rest);
    Slices(Marker, cmd, close + rest);
    CommandRunOf(cmd, close + rest);
  }

  lemma TokenTextRecognised(cmd: string, attributes: Option<string>, rest: string)
    requires IsCommand(cmd)
    requires attributes.Some? ==> ']' !in attributes.value
    ensures TokenAt(TokenText(cmd, attributes) + rest)
         == Some(Token(cmd, |TokenText(cmd, attributes)|))
  {
    var close := Closing(attributes);
    var s := Marker + cmd + close + rest;
    assert TokenText(cmd, attributes) + rest == s;
    TokenHead(cmd, close, rest);
    var j := |Marker| + |cmd|;
    assert s[j] == close[0];
    match attributes
    case None =>
    case Some(a) =>
      assert s[j + 1..] == a + "]" + rest;
      assert s[j + 1..j + 1 + |a|] == a;
      CloseFromOf(s, j + 1, a);
  }

  /** The parts of a well-formed token: a command, and attributes that hold no `]`. */
  predicate WellFormed(cmd: string, attributes: Option<string>)
  {
    IsCommand(cmd) && (attributes.Some? ==> ']' !in attributes.value)
  }

  /** `s` starts with the text of a well-formed token. */
  ghost predicate StartsWithToken(s: string)
  {
    exists cmd: string, attributes: Option<string> :: WellFormed(cmd, attributes) && TokenText(cmd, attributes) <= s
  }

  /**
   * What `TokenAt` accepts is exactly a well-formed token: the marker, its
   * command, and `]` or a space, attributes without `]` and the first `]`.
   */
  lemma TokenAtWellFormed(s: string)
    requires TokenAt(s).Some?
    ensures var t := TokenAt(s).value;
      exists attributes: Option<string> :: WellFormed(t.command, attributes)
        && TokenText(t.command, attributes) == s[..t.length]
  {
    var t := TokenAt(s).value;
    var j := |Marker| + |t.command|;
    if s[j] == ']' {
      assert s[j..j + 1] == Closing(None);
      PrefixParts(s, t.command, Closing(None));
      assert WellFormed(t.command, None);
    } else {
      var k := CloseFrom(s, j + 1);
      var a := s[j + 1..k];
      assert s[j..k + 1] == [s[j]] + s[j + 1..k] + [s[k]];
      assert s[j..k + 1] == Closing(Some(a));
      PrefixParts(s, t.command, Closing(Some(a)));
      assert WellFormed(t.command, Some(a));
    }
  }

  /** A prefix made of the marker, a command and a closing text, each in its place, is their concatenation. */
  lemma PrefixParts(s: string, cmd: string, close: string)
    requires |Marker| + |cmd| + |close| <= |s|
    requires s[..|Marker|] == Marker && s[|Marker|..|Marker| + |cmd|] == cmd
    requires s[|Marker| + |cmd|..|Marker| + |cmd| + |close|] == close
    ensures s[..|Marker| + |cmd| + |close|] == Marker + cmd + close
  {
    var j := |Marker| + |cmd|;
    var l := j + |close|;
    assert s[..l] == s[..|Marker|] + s[|Marker|..j] + s[j..l];
  }

  /** A token is recognised at the start of `s` exactly when `s` starts with a well-formed token. */
  lemma TokenAtExactly(s: string)
    ensures TokenAt(s).Some? <==> StartsWithToken(s)
  {
    if TokenAt(s).Some? {
      TokenAtWellFormed(s);
      var t := TokenAt(s).value;
      var attributes :| WellFormed(t.command, attributes) && TokenText(t.command, attributes) == s[..t.length];
      assert TokenText(t.command, attributes) <= s;
    }
    if StartsWithToken(s) {
      var cmd, attributes :| WellFormed(cmd, attributes) && TokenText(cmd, attributes) <= s;
      var tok := TokenText(cmd, attributes);
      assert s == tok + s[|tok|..];
      TokenTextRecognised(cmd, attributes, s[|tok|..]);
    }
  }

  /** A message in which no position starts a well-formed token is returned unchanged. */
  lemma NoTokenTextIdentity(s: string)
    requires forall i :: 0 <= i <= |s| ==> !StartsWithToken(s[i..])
    ensures Expand(s) == s
  {
    forall i | 0 <= i <= |s|
      ensures TokenAt(s[i..]).None?
    {
      TokenAtExactly(s[i..]);
    }
    NoTokensIdentity(s);
  }

  /**
   * A token after marker-free text is replaced by its hint, and the scan goes on
   * with the text after the token.
   */
  lemma ExpandsToken(a: string, cmd: string, attributes: Option<string>, b: string)
    requires !ContainsMarker(a) && IsCommand(cmd)
    requires attributes.Some? ==> ']' !in attributes.value
    ensures Expand(a + TokenText(cmd, attributes) + b) == a + Hint(cmd) + Expand(b)
  {
    var tok := TokenText(cmd, attributes);
    assert a + tok + b == a + (tok + b);
    PlainPrefix(a, tok + b);
    TokenTextRecognised(cmd, attributes, b);
    assert (tok + b)[|tok|..] == b;
  }

  /** A message with one token and no other `[` expands to the text around it and the hint. */
  lemma ExpandOne(a: string, cmd: string, attributes: Option<string>, b: string)
    requires '[' !in a && '[' !in b && IsCommand(cmd)
    requires attributes.Some? ==> ']' !in attributes.value
    ensures Expand(a + TokenText(cmd, attributes) + b) == a + Hint(cmd) + b
  {
    BracketFree(a);
    BracketFree(b);
    ExpandsToken(a, cmd, attributes, b);
    MarkerFreeNoToken(b);
    NoTokensIdentity(b);
  }
}
