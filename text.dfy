/** The Python string operations the bot relies on, over `seq<char>`:
    substring test (`sub in s`), first occurrence (`s.find`), `s.split(sep)`,
    `sep.join(parts)`, `s.strip()`, `s.endswith(x)`, `s.lower()` (ASCII letters
    only) and decimal rendering of a count. */
module Text {
  import opened Values

  /** `sub` occurs in `s` starting at index `i`. */
  predicate OccursAt(s: string, sub: string, i: int) {
    0 <= i && i + |sub| <= |s| && s[i..i + |sub|] == sub
  }

  /** Python's `sub in s`. */
  predicate Contains(s: string, sub: string) {
    exists i | 0 <= i <= |s| :: OccursAt(s, sub, i)
  }

  /** The first occurrence of `sub` in `s` at or after `from` (Python's `s.find(sub, from)`). */
  function FindFrom(s: string, sub: string, from: nat): (r: Option<nat>)
    ensures r.Some? ==> from <= r.value && r.value + |sub| <= |s|
    decreases |s| - from
  {
    if from + |sub| > |s| then None
    else if s[from..from + |sub|] == sub then Some(from)
    else FindFrom(s, sub, from + 1)
  }

  /** The first occurrence of `sub` in `s` (Python's `s.find(sub)`). */
  function Find(s: string, sub: string): (r: Option<nat>)
    ensures r.Some? ==> r.value + |sub| <= |s|
  {
    FindFrom(s, sub, 0)
  }

  /** Python's `s.split(sep)` for a non-empty separator: the pieces between the
      non-overlapping occurrences of `sep`, found left to right. */
  function SplitOn(s: string, sep: string): (parts: seq<string>)
    requires |sep| > 0
    ensures |parts| >= 1
    decreases |s|
  {
    match Find(s, sep)
    case None => [s]
    case Some(i) => [s[..i]] + SplitOn(s[i + |sep|..], sep)
  }

  /** Python's `sep.join(parts)`. */
  function Join(parts: seq<string>, sep: string): string
    decreases |parts|
  {
    if |parts| == 0 then ""
    else if |parts| == 1 then parts[0]
    else parts[0] + sep + Join(parts[1..], sep)
  }

  /** The text before the first occurrence of `sep` (all of `s` if none):
      Python's `s.split(sep)[0]`. */
  function Before(s: string, sep: string): (r: string)
    requires |sep| > 0
    ensures r == SplitOn(s, sep)[0]
  {
    match Find(s, sep)
    case None => s
    case Some(i) => s[..i]
  }

  /** Python's `s.endswith(suffix)`. */
  predicate EndsWith(s: string, suffix: string) {
    |suffix| <= |s| && s[|s| - |suffix|..] == suffix
  }

  /** The characters Python's `str.isspace()` accepts. */
  predicate IsSpace(c: char) {
    ('\t' <= c <= '\r') || ('\U{1C}' <= c <= ' ') || c == '\U{85}' || c == '\U{A0}'
    || c == '\U{1680}' || ('\U{2000}' <= c <= '\U{200A}') || c == '\U{2028}' || c == '\U{2029}'
    || c == '\U{202F}' || c == '\U{205F}' || c == '\U{3000}'
  }

  /** Python's `s.lstrip()`. */
  function TrimStart(s: string): (r: string)
    ensures |r| <= |s|
  {
    if |s| > 0 && IsSpace(s[0]) then TrimStart(s[1..]) else s
  }

  /** Python's `s.rstrip()`. */
  function TrimEnd(s: string): (r: string)
    ensures |r| <= |s|
  {
    if |s| > 0 && IsSpace(s[|s| - 1]) then TrimEnd(s[..|s| - 1]) else s
  }

  /** Python's `s.strip()`. */
  function Strip(s: string): string {
    TrimEnd(TrimStart(s))
  }

  /** Python's `s.lower()` on the ASCII letters. */
  function LowerChar(c: char): char {
    if 'A' <= c <= 'Z' then (c as int + 32) as char else c
  }

  function Lower(s: string): (r: string)
    ensures |r| == |s| && forall i | 0 <= i < |s| :: r[i] == LowerChar(s[i])
  {
    seq(|s|, i requires 0 <= i < |s| => LowerChar(s[i]))
  }

  /** Python's `str(n)` for a natural number. */
  function NatToString(n: nat): (r: string)
    ensures |r| >= 1 && forall i | 0 <= i < |r| :: '0' <= r[i] <= '9'
  {
    var digit := ['0' + (n % 10) as char];
    if n < 10 then digit else NatToString(n / 10) + digit
  }

  // ---------------------------------------------------------------------------
  // Lemmas

  /** `FindFrom` finds the first occurrence at or after `from`, or reports that there is none. */
  lemma {:induction false} FindFromSpec(s: string, sub: string, from: nat)
    ensures FindFrom(s, sub, from).Some? ==>
      OccursAt(s, sub, FindFrom(s, sub, from).value)
      && forall j | from <= j < FindFrom(s, sub, from).value :: !OccursAt(s, sub, j)
    ensures FindFrom(s, sub, from).None? ==> forall j | from <= j :: !OccursAt(s, sub, j)
    decreases |s| - from
  {
    if from + |sub| <= |s| && s[from..from + |sub|] != sub {
      FindFromSpec(s, sub, from + 1);
    }
  }

  /** `Find` gives the first occurrence, and none exactly when `sub` does not occur. */
  lemma {:induction false} FindSpec(s: string, sub: string)
    ensures Find(s, sub).Some? ==>
      OccursAt(s, sub, Find(s, sub).value) && forall j | 0 <= j < Find(s, sub).value :: !OccursAt(s, sub, j)
    ensures Find(s, sub).None? <==> !Contains(s, sub)
  {
    FindFromSpec(s, sub, 0);
  }

  /** An occurrence inside a prefix is an occurrence in the whole string. */
  lemma OccursInPrefix(s: string, sub: string, k: nat, j: int)
    requires k <= |s|
    ensures OccursAt(s[..k], sub, j) ==> OccursAt(s, sub, j)
  {
    if 0 <= j && j + |sub| <= k {
      assert s[..k][j..j + |sub|] == s[j..j + |sub|];
    }
  }

  /** An occurrence in a suffix is an occurrence in the whole string, shifted. */
  lemma OccursInSuffix(s: string, sub: string, k: nat, j: int)
    requires k <= |s|
    requires OccursAt(s[k..], sub, j)
    ensures OccursAt(s, sub, k + j)
  {
    assert s[k..][j..j + |sub|] == s[k + j..k + j + |sub|];
  }

  /** One step of `SplitOn` when the separator does not occur. */
  lemma {:induction false} SplitNone(s: string, sep: string)
    requires |sep| > 0
    requires Find(s, sep).None?
    ensures SplitOn(s, sep) == [s]
  {
  }

  /** No piece of a split contains the separator. */
  lemma {:induction false} SplitPartsAreFree(s: string, sep: string)
    requires |sep| > 0
    ensures forall k | 0 <= k < |SplitOn(s, sep)| :: !Contains(SplitOn(s, sep)[k], sep)
    decreases |s|
  {
    FindSpec(s, sep);
    var f := Find(s, sep);
    if f.Some? {
      var i := f.value;
      var rest := s[i + |sep|..];
      SplitStep(s, sep, i);
      SplitPartsAreFree(rest, sep);
      forall j | 0 <= j <= i
        ensures !OccursAt(s[..i], sep, j)
      {
        OccursInPrefix(s, sep, i, j);
      }
    } else {
      SplitNone(s, sep);
    }
  }

  /** A split yields more than one piece exactly when the separator occurs. */
  lemma {:induction false} SplitCount(s: string, sep: string)
    requires |sep| > 0
    ensures |SplitOn(s, sep)| > 1 <==> Contains(s, sep)
  {
    FindSpec(s, sep);
    var f := Find(s, sep);
    if f.Some? {
      SplitStep(s, sep, f.value);
    } else {
      SplitNone(s, sep);
    }
  }

  /** One step of `SplitOn`: the piece before the first separator, then the rest. */
  lemma {:induction false} SplitStep(s: string, sep: string, i: nat)
    requires |sep| > 0
    requires Find(s, sep) == Some(i)
    ensures i + |sep| <= |s|
    ensures SplitOn(s, sep) == [s[..i]] + SplitOn(s[i + |sep|..], sep)
  {
  }

  /** The split at the first occurrence: two pieces exactly when the rest after
      the first separator holds no further separator. */
  lemma {:induction false} SplitTwoPieces(s: string, sep: string, i: nat)
    requires |sep| > 0
    requires Find(s, sep) == Some(i)
    ensures SplitOn(s, sep)[0] == s[..i]
    ensures |SplitOn(s, sep)| == 2 <==> !Contains(s[i + |sep|..], sep)
  {
    SplitStep(s, sep, i);
    SplitCount(s[i + |sep|..], sep);
  }

  /** The text before the first `c` is a prefix of `s` free of `c`; it stops
      short of the end exactly when `c` occurs, and then `c` follows it. */
  lemma BeforeChar(s: string, c: char)
    ensures Before(s, [c]) <= s
    ensures forall i | 0 <= i < |Before(s, [c])| :: Before(s, [c])[i] != c
    ensures Contains(s, [c]) <==> |Before(s, [c])| < |s|
    ensures Contains(s, [c]) ==> s[|Before(s, [c])|] == c
  {
    FindSpec(s, [c]);
    var r := Before(s, [c]);
    if Find(s, [c]).Some? {
      var i := Find(s, [c]).value;
      assert OccursAt(s, [c], i) && r == s[..i];
      assert s[i..i + 1] == [c];
    }
    forall i | 0 <= i < |r|
      ensures r[i] != c
    {
      assert !OccursAt(s, [c], i);
      assert s[i..i + 1] == [s[i]];
    }
  }

  /** A piece of a concatenation occurs in it. */
  lemma ContainsInfix(a: string, b: string, c: string)
    ensures Contains(a + b + c, b)
  {
    assert (a + b + c)[|a|..|a| + |b|] == b;
    assert OccursAt(a + b + c, b, |a|);
  }

  /** Every part of a join appears in the joined text. */
  lemma {:induction false} JoinContainsParts(parts: seq<string>, sep: string, k: nat)
    requires k < |parts|
    ensures Contains(Join(parts, sep), parts[k])
    decreases |parts|
  {
    var joined := Join(parts, sep);
    if |parts| == 1 {
      assert OccursAt(joined, parts[0], 0);
    } else {
      var rest := Join(parts[1..], sep);
      assert joined == parts[0] + sep + rest;
      if k == 0 {
        assert joined[0..|parts[0]|] == parts[0];
        assert OccursAt(joined, parts[k], 0);
      } else {
        JoinContainsParts(parts[1..], sep, k - 1);
        var j :| 0 <= j <= |rest| && OccursAt(rest, parts[k], j);
        var off := |parts[0]| + |sep|;
        assert joined[off..] == rest;
        OccursInSuffix(joined, parts[k], off, j);
      }
    }
  }

  /** With a one-character separator that no part contains, splitting a join
      gives back exactly the parts. */
  lemma {:induction false} SplitJoin(parts: seq<string>, sep: string)
    requires |sep| == 1 && |parts| >= 1
    requires forall k | 0 <= k < |parts| :: !Contains(parts[k], sep)
    ensures SplitOn(Join(parts, sep), sep) == parts
    decreases |parts|
  {
    var joined := Join(parts, sep);
    var p := parts[0];
    if |parts| == 1 {
      FindSpec(joined, sep);
      assert Find(joined, sep).None?;
    } else {
      var rest := Join(parts[1..], sep);
      assert joined == p + sep + rest;
      assert OccursAt(joined, sep, |p|);
      FindSpec(joined, sep);
      forall j | 0 <= j < |p|
        ensures !OccursAt(joined, sep, j)
      {
        assert joined[j..j + 1] == p[j..j + 1];
        assert !OccursAt(p, sep, j);
      }
      assert Find(joined, sep) == Some(|p|);
      assert joined[..|p|] == p;
      assert joined[|p| + 1..] == rest;
      SplitJoin(parts[1..], sep);
      assert parts == [p] + parts[1..];
    }
  }

  /** `s.lstrip()` removes exactly the leading whitespace. */
  lemma {:induction false} TrimStartSpec(s: string)
    ensures TrimStart(s) == s[|s| - |TrimStart(s)|..]
    ensures forall i | 0 <= i < |s| - |TrimStart(s)| :: IsSpace(s[i])
    ensures TrimStart(s) == "" || !IsSpace(TrimStart(s)[0])
  {
    if |s| > 0 && IsSpace(s[0]) {
      TrimStartSpec(s[1..]);
    }
  }

  /** `s.rstrip()` removes exactly the trailing whitespace. */
  lemma {:induction false} TrimEndSpec(s: string)
    ensures TrimEnd(s) == s[..|TrimEnd(s)|]
    ensures forall i | |TrimEnd(s)| <= i < |s| :: IsSpace(s[i])
    ensures TrimEnd(s) == "" || !IsSpace(TrimEnd(s)[|TrimEnd(s)| - 1])
  {
    if |s| > 0 && IsSpace(s[|s| - 1]) {
      TrimEndSpec(s[..|s| - 1]);
    }
  }

  /** `s.strip()` is empty exactly when every character of `s` is whitespace. */
  lemma {:induction false} StripEmptyIffBlank(s: string)
    ensures Strip(s) == "" <==> forall i | 0 <= i < |s| :: IsSpace(s[i])
  {
    var t := TrimStart(s);
    TrimStartSpec(s);
    TrimEndSpec(t);
    assert t != "" ==> s[|s| - |t|] == t[0] && !IsSpace(t[0]);
    forall i | 0 <= i < |s|
      ensures Strip(s) == "" ==> IsSpace(s[i])
    {
      if i >= |s| - |t| {
        assert s[i] == t[i - (|s| - |t|)];
      }
    }
  }
}
