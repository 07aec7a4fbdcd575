/** The few JavaScript string operations the application relies on. */
module Text {
  import opened Wrappers
  import Seqs

  /** White space and line terminators of ECMAScript: the characters
      `String.prototype.trim` strips and the regular-expression class `\s` matches. */
  predicate IsSpace(c: char)
  {
    c == ' ' || c == '\t' || c == '\n' || c == '\r' || c == '\U{B}' || c == '\U{C}'
    || c == '\U{A0}' || c == '\U{1680}' || ('\U{2000}' <= c <= '\U{200A}')
    || c == '\U{2028}' || c == '\U{2029}' || c == '\U{202F}' || c == '\U{205F}'
    || c == '\U{3000}' || c == '\U{FEFF}'
  }

  predicate IsBlank(s: string)
  {
    forall i :: 0 <= i < |s| ==> IsSpace(s[i])
  }

  /** `s` without its leading white space. */
  function TrimStart(s: string): (r: string)
    ensures |r| <= |s| && r == s[|s| - |r|..]
    ensures r == [] || !IsSpace(r[0])
    ensures forall i :: 0 <= i < |s| - |r| ==> IsSpace(s[i])
  {
    if s != [] && IsSpace(s[0]) then TrimStart(s[1..]) else s
  }

  /** `s` without its trailing white space. */
  function TrimEnd(s: string): (r: string)
    ensures |r| <= |s| && r == s[..|r|]
    ensures r == [] || !IsSpace(r[|r| - 1])
    ensures forall i :: |r| <= i < |s| ==> IsSpace(s[i])
  {
    if s != [] && IsSpace(s[|s| - 1]) then TrimEnd(s[..|s| - 1]) else s
  }

  /** `String.prototype.trim`. */
  function Trim(s: string): (r: string)
    ensures var k := |s| - |TrimStart(s)|;
      && k + |r| <= |s| && r == s[k..k + |r|]
      && (forall i :: 0 <= i < k ==> IsSpace(s[i]))
      && (forall i :: k + |r| <= i < |s| ==> IsSpace(s[i]))
    ensures r == [] || (!IsSpace(r[0]) && !IsSpace(r[|r| - 1]))
  {
    TrimEnd(TrimStart(s))
  }

  /** A string trims to the empty (falsy) string exactly when it is all white space. */
  lemma TrimEmptyIffBlank(s: string)
    ensures Trim(s) == "" <==> IsBlank(s)
  {
    if IsBlank(s) {
      BlankTrimsToEmpty(s);
    } else {
      var i :| 0 <= i < |s| && !IsSpace(s[i]);
      NonBlankSurvivesTrim(s, i);
    }
  }

  lemma BlankTrimsToEmpty(s: string)
    requires IsBlank(s)
    ensures TrimStart(s) == ""
  {
  }

  lemma NonBlankSurvivesTrim(s: string, i: nat)
    requires i < |s| && !IsSpace(s[i])
    ensures Trim(s) != ""
  {
    var t := TrimStart(s);
    var k := i - (|s| - |t|);
    assert 0 <= k < |t| && t[k] == s[i];
    var r := TrimEnd(t);
    assert k < |r|;
  }

  /** `toLowerCase` on the basic Latin letters A-Z; every other character is kept. */
  function LowerChar(c: char): (r: char)
    ensures 'A' <= c <= 'Z' ==> r as int == c as int + 32
    ensures !('A' <= c <= 'Z') ==> r == c
    ensures !('A' <= r <= 'Z')
  {
    if 'A' <= c <= 'Z' then (c as int - 'A' as int + 'a' as int) as char else c
  }

  function ToLower(s: string): (r: string)
    ensures |r| == |s|
    ensures forall i :: 0 <= i < |s| ==> r[i] == LowerChar(s[i])
  {
    seq(|s|, i requires 0 <= i < |s| => LowerChar(s[i]))
  }

  /** `a.toLowerCase() === b.toLowerCase()`. */
  predicate EqualsIgnoreCase(a: string, b: string)
  {
    ToLower(a) == ToLower(b)
  }

  /** JavaScript's `a || b` for strings: the empty string is falsy. */
  function Or(a: string, b: string): (r: string)
    ensures a != "" ==> r == a
    ensures a == "" ==> r == b
  {
    if a != "" then a else b
  }

  /** `o || b` for an optional string: both `undefined` and `""` fall back to `b`. */
  function OptOr(o: Option<string>, b: string): (r: string)
    ensures o.Some? && o.value != "" ==> r == o.value
    ensures o.None? || o.value == "" ==> r == b
  {
    if o.Some? then Or(o.value, b) else b
  }

  /** `s.replace(/\s+/g, '_')`: every maximal run of white space becomes one underscore. */
  function ReplaceSpaceRuns(s: string): (r: string)
    ensures r == [] <==> s == []
    ensures forall i :: 0 <= i < |r| ==> !IsSpace(r[i])
    ensures |r| <= |s|
    decreases |s|
  {
    if s == [] then []
    else if IsSpace(s[0]) then "_" + ReplaceSpaceRuns(TrimStart(s[1..]))
    else [s[0]] + ReplaceSpaceRuns(s[1..])
  }

  predicate NotUnderscore(c: char) { c != '_' }

  predicate IsWordChar(c: char) { !IsSpace(c) && c != '_' }

  /** Replacing the white-space runs keeps every other character, in order:
      apart from underscores, the result spells out the non-space characters of `s`. */
  lemma {:induction false} ReplaceSpaceRunsKeepsText(s: string)
    ensures Seqs.Filter(ReplaceSpaceRuns(s), NotUnderscore) == Seqs.Filter(s, IsWordChar)
    decreases |s|
  {
    if s != [] {
      if IsSpace(s[0]) {
        ReplaceSpaceRunsKeepsText(TrimStart(s[1..]));
        var gap := LeadingRun(s);
        ReplaceAtSpace(s);
        SpaceRunStep(s, gap, TrimStart(s[1..]), ReplaceSpaceRuns(s), ReplaceSpaceRuns(TrimStart(s[1..])));
      } else {
        ReplaceSpaceRunsKeepsText(s[1..]);
        WordCharStep(s);
      }
    }
  }

  /** The step of `ReplaceSpaceRunsKeepsText` at a run of white space: `s` is the run `gap`
      followed by `t`, and `rs`, its replacement, is one underscore followed by `rt`, that of `t`. */
  lemma SpaceRunStep(s: string, gap: string, t: string, rs: string, rt: string)
    requires s == gap + t && IsBlank(gap) && rs == "_" + rt
    requires Seqs.Filter(rt, NotUnderscore) == Seqs.Filter(t, IsWordChar)
    ensures Seqs.Filter(rs, NotUnderscore) == Seqs.Filter(s, IsWordChar)
  {
    BlankHasNoWordChar(gap);
    Seqs.FilterSkipsPrefix(gap, t, IsWordChar);
    Seqs.FilterSkipsPrefix("_", rt, NotUnderscore);
  }

  lemma ReplaceAtSpace(s: string)
    requires s != [] && IsSpace(s[0])
    ensures ReplaceSpaceRuns(s) == "_" + ReplaceSpaceRuns(TrimStart(s[1..]))
  {
  }

  /** The run of white space that opens `s`, up to where `TrimStart(s[1..])` begins. */
  function LeadingRun(s: string): (gap: string)
    requires s != [] && IsSpace(s[0])
    ensures s == gap + TrimStart(s[1..])
    ensures IsBlank(gap)
  {
    var t := TrimStart(s[1..]);
    ShiftedSuffix(s, t);
    BlankAfterHead(s, |s| - |t|);
    s[..|s| - |t|]
  }

  /** A suffix of `s[1..]` is the same suffix of `s`. */
  lemma ShiftedSuffix(s: string, t: string)
    requires s != [] && |t| < |s| && t == s[1..][|s| - 1 - |t|..]
    ensures s == s[..|s| - |t|] + t
  {
    assert t == s[|s| - |t|..];
  }

  /** White space at the head of `s`, followed by `k - 1` more in `s[1..]`, opens `s` with a blank run of length `k`. */
  lemma BlankAfterHead(s: string, k: nat)
    requires 1 <= k <= |s| && IsSpace(s[0])
    requires forall i :: 0 <= i < k - 1 ==> IsSpace(s[1..][i])
    ensures IsBlank(s[..k])
  {
    forall i | 0 < i < k ensures IsSpace(s[i]) {
      assert s[i] == s[1..][i - 1];
    }
  }

  lemma BlankHasNoWordChar(g: string)
    requires IsBlank(g)
    ensures forall i :: 0 <= i < |g| ==> !IsWordChar(g[i])
  {
  }

  /** The step of `ReplaceSpaceRunsKeepsText` at a character that is not white space. */
  lemma WordCharStep(s: string)
    requires s != [] && !IsSpace(s[0])
    requires Seqs.Filter(ReplaceSpaceRuns(s[1..]), NotUnderscore) == Seqs.Filter(s[1..], IsWordChar)
    ensures Seqs.Filter(ReplaceSpaceRuns(s), NotUnderscore) == Seqs.Filter(s, IsWordChar)
  {
    HeadTail(s);
    ReplaceAtWord(s);
    Seqs.FilterConcat([s[0]], s[1..], IsWordChar);
    Seqs.FilterConcat([s[0]], ReplaceSpaceRuns(s[1..]), NotUnderscore);
  }

  /** A string without white space is left as it is. */
  lemma {:induction false} ReplaceSpaceRunsKeepsWords(s: string)
    requires forall i :: 0 <= i < |s| ==> !IsSpace(s[i])
    ensures ReplaceSpaceRuns(s) == s
    decreases |s|
  {
    if s != [] {
      ReplaceSpaceRunsKeepsWords(s[1..]);
      assert s == [s[0]] + s[1..];
    }
  }

  /** Leading white space followed by text that does not start with white space trims to that text. */
  lemma {:induction false} TrimStartBlankPrefix(g: string, b: string)
    requires IsBlank(g)
    requires b == [] || !IsSpace(b[0])
    ensures TrimStart(g + b) == b
    decreases |g|
  {
    if g != [] {
      ConsSplit(g, b);
      TrimStartBlankPrefix(g[1..], b);
    }
  }

  /** Leading white space is trimmed only as far as the first other character. */
  lemma {:induction false} TrimStartConcat(x: string, y: string)
    requires TrimStart(x) != []
    ensures TrimStart(x + y) == TrimStart(x) + y
    decreases |x|
  {
    assert x != [];
    ConsSplit(x, y);
    if IsSpace(x[0]) {
      TrimStartConcat(x[1..], y);
    }
  }

  /** Each maximal run of white space becomes exactly one underscore, in its place: a run
      between text that neither ends nor starts with white space is replaced by "_". */
  lemma {:induction false} ReplaceSpaceRunsAtRun(a: string, g: string, b: string)
    requires g != [] && IsBlank(g)
    requires a == [] || !IsSpace(a[|a| - 1])
    requires b == [] || !IsSpace(b[0])
    ensures ReplaceSpaceRuns(a + g + b) == ReplaceSpaceRuns(a) + "_" + ReplaceSpaceRuns(b)
    decreases |a|
  {
    if a == [] {
      assert a + g + b == g + b;
      RunAtStart(g, b);
    } else if IsSpace(a[0]) {
      var t := TrimmedTail(a);
      ReplaceSpaceRunsAtRun(t, g, b);
      SpaceCase(a, g, b, t);
    } else {
      ReplaceSpaceRunsAtRun(a[1..], g, b);
      WordCase(a, g, b);
    }
  }

  /** What follows the leading white space of `a[1..]`, when `a` ends in another character. */
  lemma TrimmedTail(a: string) returns (t: string)
    requires a != [] && IsSpace(a[0]) && !IsSpace(a[|a| - 1])
    ensures t == TrimStart(a[1..]) && t != [] && !IsSpace(t[|t| - 1]) && |t| < |a|
  {
    var tail := a[1..];
    assert |tail| >= 1 && tail[|tail| - 1] == a[|a| - 1];
    t := TrimStart(tail);
  }

  lemma SpaceCase(a: string, g: string, b: string, t: string)
    requires a != [] && IsSpace(a[0]) && t == TrimStart(a[1..]) && t != []
    requires ReplaceSpaceRuns(t + g + b) == ReplaceSpaceRuns(t) + "_" + ReplaceSpaceRuns(b)
    ensures ReplaceSpaceRuns(a + g + b) == ReplaceSpaceRuns(a) + "_" + ReplaceSpaceRuns(b)
  {
    var rest := g + b;
    Assoc(a, g, b);
    Assoc(t, g, b);
    SpaceBeforeRun(a, rest, t + g + b);
    ReplaceAtSpace(a);
    Chain("_", ReplaceSpaceRuns(a + g + b), ReplaceSpaceRuns(a), ReplaceSpaceRuns(t), ReplaceSpaceRuns(t + g + b), ReplaceSpaceRuns(b));
  }

  lemma WordCase(a: string, g: string, b: string)
    requires a != [] && !IsSpace(a[0])
    requires ReplaceSpaceRuns(a[1..] + g + b) == ReplaceSpaceRuns(a[1..]) + "_" + ReplaceSpaceRuns(b)
    ensures ReplaceSpaceRuns(a + g + b) == ReplaceSpaceRuns(a) + "_" + ReplaceSpaceRuns(b)
  {
    var s := a + g + b;
    ConsSplit(a, g + b);
    Assoc(a, g, b);
    Assoc(a[1..], g, b);
    ReplaceAtWord(s);
    ReplaceAtWord(a);
    Chain([a[0]], ReplaceSpaceRuns(s), ReplaceSpaceRuns(a), ReplaceSpaceRuns(a[1..]), ReplaceSpaceRuns(a[1..] + g + b), ReplaceSpaceRuns(b));
  }

  lemma DropLast(x: string, c: char)
    ensures (x + [c])[..|x|] == x && (x + [c])[|x|] == c
  {
  }

  lemma HeadTail(s: string)
    requires s != []
    ensures s == [s[0]] + s[1..]
  {
  }

  lemma ConsSplit(x: string, y: string)
    requires x != []
    ensures (x + y)[0] == x[0] && (x + y)[1..] == x[1..] + y
  {
  }

  lemma Assoc(x: string, y: string, z: string)
    ensures x + y + z == x + (y + z)
  {
  }

  /** The sequence algebra shared by the two cases above. */
  lemma Chain(head: string, whole: string, ra: string, rt: string, rtail: string, rb: string)
    requires whole == head + rtail && ra == head + rt && rtail == rt + "_" + rb
    ensures whole == ra + "_" + rb
  {
  }

  /** A leading run of white space becomes one underscore. */
  lemma RunAtStart(g: string, b: string)
    requires g != [] && IsBlank(g)
    requires b == [] || !IsSpace(b[0])
    ensures ReplaceSpaceRuns(g + b) == "_" + ReplaceSpaceRuns(b)
  {
    ConsSplit(g, b);
    TrimStartBlankPrefix(g[1..], b);
    ReplaceAtSpace(g + b);
  }

  /** Text that opens with white space and holds other characters later: the replacement of
      `a + rest` starts with one underscore and continues with that of `trimmed`. */
  lemma SpaceBeforeRun(a: string, rest: string, trimmed: string)
    requires a != [] && IsSpace(a[0]) && TrimStart(a[1..]) != []
    requires trimmed == TrimStart(a[1..]) + rest
    ensures ReplaceSpaceRuns(a + rest) == "_" + ReplaceSpaceRuns(trimmed)
  {
    ConsSplit(a, rest);
    TrimStartConcat(a[1..], rest);
    ReplaceAtSpace(a + rest);
  }

  lemma ReplaceAtWord(s: string)
    requires s != [] && !IsSpace(s[0])
    ensures ReplaceSpaceRuns(s) == [s[0]] + ReplaceSpaceRuns(s[1..])
  {
  }

  /** `Array.prototype.join(sep)`. */
  function Join(parts: seq<string>, sep: string): (r: string)
    ensures parts == [] ==> r == ""
    ensures |parts| >= 1 ==> |r| >= |parts[0]| && r[..|parts[0]|] == parts[0]
    ensures |parts| == 1 ==> r == parts[0]
  {
    if |parts| == 0 then ""
    else if |parts| == 1 then parts[0]
    else parts[0] + sep + Join(parts[1..], sep)
  }

  /** Position of the first `c` in `s`. */
  function FirstIndex(s: string, c: char): (i: nat)
    requires c in s
    ensures i < |s| && s[i] == c && c !in s[..i]
  {
    if s[0] == c then 0 else 1 + FirstIndex(s[1..], c)
  }

  /** `String.prototype.split(c)` for a one-character separator. */
  function SplitOn(s: string, c: char): (r: seq<string>)
    ensures |r| >= 1
    ensures forall k :: 0 <= k < |r| ==> c !in r[k]
    ensures c !in s ==> r == [s]
    decreases |s|
  {
    if c in s then
      var i := FirstIndex(s, c);
      [s[..i]] + SplitOn(s[i + 1..], c)
    else [s]
  }

  /** Splitting a join on its separator gives the parts back, when no part holds the separator. */
  lemma {:induction false} SplitJoin(parts: seq<string>, c: char)
    requires |parts| >= 1
    requires forall k :: 0 <= k < |parts| ==> c !in parts[k]
    ensures SplitOn(Join(parts, [c]), c) == parts
  {
    if |parts| > 1 {
      SplitJoin(parts[1..], c);
      SplitAtFirst(parts[0], Join(parts[1..], [c]), c);
      assert parts == [parts[0]] + parts[1..];
    }
  }

  /** Splitting stops at the first separator. */
  lemma SplitAtFirst(head: string, rest: string, c: char)
    requires c !in head
    ensures SplitOn(head + [c] + rest, c) == [head] + SplitOn(rest, c)
  {
    var s := head + [c] + rest;
    SeparatorAt(head, rest, c);
    var i := FirstIndex(s, c);
    assert forall j :: 0 <= j < |head| ==> s[j] == head[j];
    assert i == |head|;
  }

  lemma SeparatorAt(head: string, rest: string, c: char)
    ensures var s := head + [c] + rest;
      |s| > |head| && s[|head|] == c && s[..|head|] == head && s[|head| + 1..] == rest
  {
  }

  function DigitChar(d: nat): (c: char)
    requires d < 10
    ensures '0' <= c <= '9' && c as int == '0' as int + d
  {
    "0123456789"[d]
  }

  /** Decimal rendering of a non-negative integer. */
  function NatToString(n: nat): (r: string)
    ensures |r| >= 1
    ensures forall i :: 0 <= i < |r| ==> '0' <= r[i] <= '9'
    ensures n == 0 <==> r == "0"
    ensures n > 0 ==> r[0] != '0'
  {
    if n < 10 then [DigitChar(n)] else NatToString(n / 10) + [DigitChar(n % 10)]
  }

  /** The value a string of decimal digits denotes. */
  function DigitsValue(s: string): nat
    requires forall i :: 0 <= i < |s| ==> '0' <= s[i] <= '9'
  {
    if s == [] then 0 else 10 * DigitsValue(s[..|s| - 1]) + (s[|s| - 1] as int - '0' as int)
  }

  /** Appending a digit multiplies the value by ten and adds the digit. */
  lemma DigitsValueSnoc(p: string, d: char)
    requires forall i :: 0 <= i < |p| ==> '0' <= p[i] <= '9'
    requires '0' <= d <= '9'
    ensures forall i :: 0 <= i < |p + [d]| ==> '0' <= (p + [d])[i] <= '9'
    ensures DigitsValue(p + [d]) == 10 * DigitsValue(p) + (d as int - '0' as int)
  {
    DropLast(p, d);
  }

  /** Rendering a number in decimal loses nothing. */
  lemma {:induction false} NatToStringRoundTrip(n: nat)
    ensures DigitsValue(NatToString(n)) == n
  {
    if n >= 10 {
      DigitsValueSnoc(NatToString(n / 10), DigitChar(n % 10));
      NatToStringRoundTrip(n / 10);
    }
  }

  /** Template-literal rendering `${n}` of an integral number. */
  function IntToString(n: int): (r: string)
    ensures forall i :: 0 <= i < |r| ==> r[i] == '-' || '0' <= r[i] <= '9'
    ensures n >= 0 ==> (forall i :: 0 <= i < |r| ==> '0' <= r[i] <= '9') && DigitsValue(r) == n
    ensures n >= 0 && |r| > 1 ==> r[0] != '0'
    ensures n < 0 ==>
      && |r| >= 2 && r[0] == '-' && r[1] != '0'
      && (forall i :: 1 <= i < |r| ==> '0' <= r[i] <= '9') && DigitsValue(r[1..]) == -n
  {
    NatToStringRoundTrip(if n < 0 then -n else n);
    if n < 0 then "-" + NatToString(-n) else NatToString(n)
  }
}
