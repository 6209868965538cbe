/**
  String primitives of JavaScript that the analyser relies on, stated over
  `seq<char>`: `startsWith`, `endsWith`, `trim`, `Array.prototype.join` and
  the concatenation that undoes a split.
 */
module Strings {

  /** White space as `String.prototype.trim` strips it: the WhiteSpace and
      LineTerminator code points of ECMAScript (tab, line tab, form feed,
      space, no-break space, byte-order mark, the Zs separators, LF, CR,
      line separator, paragraph separator). */
  predicate IsWhitespace(c: char)
  {
    var n := c as int;
    n == 0x09 || n == 0x0A || n == 0x0B || n == 0x0C || n == 0x0D ||
    n == 0x20 || n == 0xA0 || n == 0x1680 || (0x2000 <= n <= 0x200A) ||
    n == 0x2028 || n == 0x2029 || n == 0x202F || n == 0x205F ||
    n == 0x3000 || n == 0xFEFF
  }

  /** Empty or made only of white space. */
  predicate IsBlank(s: string)
  {
    forall i :: 0 <= i < |s| ==> IsWhitespace(s[i])
  }

  predicate StartsWith(s: string, prefix: string)
  {
    |prefix| <= |s| && s[..|prefix|] == prefix
  }

  predicate EndsWith(s: string, suffix: string)
  {
    |suffix| <= |s| && s[|s| - |suffix|..] == suffix
  }

  /** `s` with its leading white space removed. */
  function TrimStart(s: string): (r: string)
    ensures |r| <= |s| && r == s[|s| - |r|..]
    ensures IsBlank(s[..|s| - |r|])
    ensures r == [] || !IsWhitespace(r[0])
  {
    if s != [] && IsWhitespace(s[0]) then
      BlankPrefixStep(s, TrimStart(s[1..]));
      TrimStart(s[1..])
    else
      s
  }

  /** A white-space character followed by a blank prefix of the rest is a
      blank prefix of the whole text. */
  lemma BlankPrefixStep(s: string, r: string)
    requires s != [] && IsWhitespace(s[0]) && |r| <= |s| - 1
    requires IsBlank(s[1..][..|s| - 1 - |r|])
    ensures IsBlank(s[..|s| - |r|])
  {
    forall i | 0 < i < |s| - |r|
      ensures IsWhitespace(s[i])
    {
      assert s[i] == s[1..][..|s| - 1 - |r|][i - 1];
    }
  }

  /** `s` with its trailing white space removed. */
  function TrimEnd(s: string): (r: string)
    ensures |r| <= |s| && r == s[..|r|]
    ensures IsBlank(s[|r|..])
    ensures r == [] || !IsWhitespace(r[|r| - 1])
  {
    if s != [] && IsWhitespace(s[|s| - 1]) then TrimEnd(s[..|s| - 1]) else s
  }

  /** `String.prototype.trim`: the part of `s` between its leading and its
      trailing white space. */
  function Trim(s: string): (r: string)
    ensures |r| <= |s|
    ensures r == [] || (!IsWhitespace(r[0]) && !IsWhitespace(r[|r| - 1]))
    ensures r == [] <==> IsBlank(s)
  {
    var t := TrimStart(s);
    assert !IsBlank(s) ==> t != [] by {
      if t == [] { assert s[..|s| - |t|] == s; }
    }
    TrimEnd(t)
  }

  /** Trimming only removes white space from the two ends: `s` is the trimmed
      text with a blank prefix and a blank suffix around it. */
  lemma TrimSplit(s: string) returns (lead: string, trail: string)
    ensures s == lead + Trim(s) + trail
    ensures IsBlank(lead) && IsBlank(trail)
  {
    var t := TrimStart(s);
    var r := TrimEnd(t);
    lead := s[..|s| - |t|];
    trail := t[|r|..];
    SplitAround(s, t, r);
  }

  /** `s` is its prefix before the suffix `t`, then `t`'s prefix `r`, then the rest. */
  lemma SplitAround(s: string, t: string, r: string)
    requires |t| <= |s| && t == s[|s| - |t|..]
    requires |r| <= |t| && r == t[..|r|]
    ensures s == s[..|s| - |t|] + r + t[|r|..]
  {
    assert s == s[..|s| - |t|] + t;
    assert t == r + t[|r|..];
  }

  /** Trimming a string padded with white space on both sides gives back the
      core, whenever the core neither starts nor ends with white space: `Trim`
      is determined by the three properties its contract states. */
  lemma {:induction false} TrimOfPadded(lead: string, core: string, trail: string)
    requires IsBlank(lead) && IsBlank(trail)
    requires core == [] || (!IsWhitespace(core[0]) && !IsWhitespace(core[|core| - 1]))
    ensures Trim(lead + core + trail) == core
  {
    var s := lead + core + trail;
    if core == [] {
      assert forall i :: 0 <= i < |s| ==> s[i] == if i < |lead| then lead[i] else trail[i - |lead|];
    } else {
      assert s == lead + (core + trail);
      TrimStartOfPadded(lead, core + trail);
      TrimEndOfPadded(core, trail);
    }
  }

  lemma {:induction false} TrimStartOfPadded(lead: string, rest: string)
    requires IsBlank(lead)
    requires rest == [] || !IsWhitespace(rest[0])
    ensures TrimStart(lead + rest) == rest
  {
    if lead != [] {
      assert (lead + rest)[1..] == lead[1..] + rest;
      TrimStartOfPadded(lead[1..], rest);
    } else {
      assert lead + rest == rest;
    }
  }

  lemma {:induction false} TrimEndOfPadded(core: string, trail: string)
    requires IsBlank(trail)
    requires core != [] && !IsWhitespace(core[|core| - 1])
    ensures TrimEnd(core + trail) == core
  {
    if trail != [] {
      assert (core + trail)[..|core + trail| - 1] == core + trail[..|trail| - 1];
      TrimEndOfPadded(core, trail[..|trail| - 1]);
    } else {
      assert core + trail == core;
    }
  }

  /** Trimming twice is trimming once. */
  lemma TrimIdempotent(s: string)
    ensures Trim(Trim(s)) == Trim(s)
  {
    var t := Trim(s);
    assert IsBlank([]);
    TrimOfPadded([], t, []);
    assert [] + t + [] == t;
  }

  /** Trimming a text with extra white space around it gives what trimming
      the text gives. */
  lemma {:induction false} TrimOfPaddedAny(lead: string, s: string, trail: string)
    requires IsBlank(lead) && IsBlank(trail)
    ensures Trim(lead + s + trail) == Trim(s)
  {
    var l, t := TrimSplit(s);
    var core := Trim(s);
    assert core == [] || (!IsWhitespace(core[0]) && !IsWhitespace(core[|core| - 1]));
    TrimOfRepadded(lead, s, trail, l, core, t);
  }

  /** The step of the lemma above with `s` already split around its core. */
  lemma TrimOfRepadded(lead: string, s: string, trail: string, l: string, core: string, t: string)
    requires IsBlank(lead) && IsBlank(trail) && IsBlank(l) && IsBlank(t)
    requires s == l + core + t
    requires core == [] || (!IsWhitespace(core[0]) && !IsWhitespace(core[|core| - 1]))
    ensures Trim(lead + s + trail) == core
  {
    Regroup(lead, s, trail, l, core, t);
    BlankConcat(lead, l);
    BlankConcat(t, trail);
    TrimOfPadded(lead + l, core, t + trail);
  }

  /** Padding `l + c + t` on both sides is padding `c` with longer margins. */
  lemma Regroup(lead: string, s: string, trail: string, l: string, c: string, t: string)
    requires s == l + c + t
    ensures lead + s + trail == (lead + l) + c + (t + trail)
  {
  }

  /** Two blank texts make a blank text. */
  lemma BlankConcat(a: string, b: string)
    requires IsBlank(a) && IsBlank(b)
    ensures IsBlank(a + b)
  {
    assert forall i :: 0 <= i < |a + b| ==> (a + b)[i] == if i < |a| then a[i] else b[i - |a|];
  }

  /** The concatenation of the parts, in order. */
  function Concat(parts: seq<string>): string
  {
    if parts == [] then [] else parts[0] + Concat(parts[1..])
  }

  /** `Array.prototype.join(sep)`: the parts with `sep` between each two
      neighbours; the empty array joins to the empty string. */
  function Join(parts: seq<string>, sep: string): string
  {
    if |parts| == 0 then []
    else if |parts| == 1 then parts[0]
    else parts[0] + sep + Join(parts[1..], sep)
  }
}
