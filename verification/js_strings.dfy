/** The JavaScript string operations the authentication code relies on:
    `toLowerCase`, `trim`, `length` (counted in UTF-16 code units) and
    `split` on a one-character separator. A `string` here is a sequence of
    Unicode scalar values. */
module JsStrings {
  import opened Options

  /** ECMAScript WhiteSpace and LineTerminator code points. `String.prototype.trim`
      strips exactly these, and the regular-expression class `\s` matches exactly
      these, so the one predicate serves both. */
  predicate IsJsWhitespace(c: char) {
    var n := c as int;
    || n == 0x09 || n == 0x0A || n == 0x0B || n == 0x0C || n == 0x0D
    || n == 0x20 || n == 0xA0 || n == 0x1680
    || (0x2000 <= n <= 0x200A)
    || n == 0x2028 || n == 0x2029 || n == 0x202F || n == 0x205F
    || n == 0x3000 || n == 0xFEFF
  }

  predicate NoWhitespace(s: string) {
    forall i :: 0 <= i < |s| ==> !IsJsWhitespace(s[i])
  }

  predicate AllWhitespace(s: string) {
    forall i :: 0 <= i < |s| ==> IsJsWhitespace(s[i])
  }

  // ---------------------------------------------------------------- lower case

  function LowerChar(c: char): char {
    if 'A' <= c <= 'Z' then (c as int + 32) as char else c
  }

  /** A string `toLowerCase` leaves as it is. */
  predicate IsLowered(s: string) {
    forall i :: 0 <= i < |s| ==> LowerChar(s[i]) == s[i]
  }

  /** `toLowerCase`, for the ASCII letters: each character is replaced by a
      lower-case character with the same lower-case form. */
  function ToLower(s: string): (r: string)
    ensures |r| == |s|
    ensures IsLowered(r)
    ensures forall i :: 0 <= i < |s| ==> LowerChar(r[i]) == LowerChar(s[i])
    ensures forall i :: 0 <= i < |s| ==> (IsJsWhitespace(r[i]) <==> IsJsWhitespace(s[i]))
    ensures IsLowered(s) ==> r == s
  {
    seq(|s|, i requires 0 <= i < |s| => LowerChar(s[i]))
  }

  // ---------------------------------------------------------------- trim

  /** Drops the leading whitespace: the result is the longest suffix of `s`
      that does not start with whitespace. */
  function TrimStart(s: string): (r: string)
    ensures |r| <= |s| && r == s[|s| - |r|..]
    ensures r == [] || !IsJsWhitespace(r[0])
    ensures AllWhitespace(s[..|s| - |r|])
    decreases |s|
  {
    if |s| > 0 && IsJsWhitespace(s[0]) then
      var r := TrimStart(s[1..]);
      assert s[..|s| - |r|] == [s[0]] + s[1..][..|s| - 1 - |r|];
      r
    else s
  }

  /** Drops the trailing whitespace: the result is the longest prefix of `s`
      that does not end in whitespace. */
  function TrimEnd(s: string): (r: string)
    ensures |r| <= |s| && r == s[..|r|]
    ensures r == [] || !IsJsWhitespace(r[|r| - 1])
    ensures AllWhitespace(s[|r|..])
    decreases |s|
  {
    if |s| > 0 && IsJsWhitespace(s[|s| - 1]) then
      var r := TrimEnd(s[..|s| - 1]);
      assert s[|r|..] == s[..|s| - 1][|r|..] + [s[|s| - 1]];
      r
    else s
  }

  /** `r` is the stretch of `s` that starts at `a`, and everything of `s`
      before and after that stretch is whitespace. */
  predicate TrimmedAt(r: string, s: string, a: nat) {
    && a + |r| <= |s|
    && r == s[a..a + |r|]
    && AllWhitespace(s[..a])
    && AllWhitespace(s[a + |r|..])
  }

  /** `String.prototype.trim`: a stretch of `s` between whitespace-only
      margins that neither starts nor ends with whitespace. */
  function Trim(s: string): (r: string)
    ensures r == [] || (!IsJsWhitespace(r[0]) && !IsJsWhitespace(r[|r| - 1]))
    ensures exists a :: TrimmedAt(r, s, a)
    ensures forall i :: 0 <= i < |r| ==> r[i] in s
    ensures r == [] <==> AllWhitespace(s)
  {
    var t := TrimStart(s);
    var r := TrimEnd(t);
    TrimParts(s, t, r);
    StretchOfSuffix(s, t, r, |s| - |t|);
    r
  }

  /** What `Trim` needs about its two halves: the kept characters come from
      `s`, and nothing is kept exactly when `s` is all whitespace. */
  lemma TrimParts(s: string, t: string, r: string)
    requires t == TrimStart(s) && r == TrimEnd(t)
    ensures forall i :: 0 <= i < |r| ==> r[i] in s
    ensures r == [] <==> AllWhitespace(s)
  {
    var m := |s| - |t|;
    forall i | 0 <= i < |r|
      ensures r[i] in s
    {
      assert r[i] == t[i] == s[m + i];
    }
    if r == [] {
      assert t == [];
      assert s[..m] == s;
    } else {
      assert r[0] == s[m];
    }
  }

  /** A prefix `r` of the suffix `t` of `s` that starts at `m`, with
      whitespace before `m` and after `r`, is a stretch between whitespace
      margins. */
  lemma StretchOfSuffix(s: string, t: string, r: string, m: nat)
    requires m <= |s| && t == s[m..] && |r| <= |t| && r == t[..|r|]
    requires AllWhitespace(s[..m]) && AllWhitespace(t[|r|..])
    ensures TrimmedAt(r, s, m)
  {
    assert s[m..m + |r|] == t[..|r|];
    assert s[m + |r|..] == t[|r|..];
  }

  /** A string that `trim` leaves as it is. */
  predicate IsTrimmed(s: string) {
    s == [] || (!IsJsWhitespace(s[0]) && !IsJsWhitespace(s[|s| - 1]))
  }

  lemma TrimOfTrimmed(s: string)
    requires IsTrimmed(s)
    ensures Trim(s) == s
  {
    assert TrimStart(s) == s;
    assert TrimEnd(s) == s;
  }

  /** `trim` is the only stretch between whitespace margins that neither
      starts nor ends with whitespace: any such stretch equals `Trim(s)`. */
  lemma TrimIsUnique(s: string, r: string, a: nat)
    requires TrimmedAt(r, s, a) && IsTrimmed(r)
    ensures r == Trim(s)
  {
    var t := Trim(s);
    var b: nat :| TrimmedAt(t, s, b);
    StretchIsUnique(s, r, a, t, b);
  }

  /** Two trimmed stretches of `s` between whitespace margins are the same. */
  lemma StretchIsUnique(s: string, r: string, a: nat, t: string, b: nat)
    requires TrimmedAt(r, s, a) && IsTrimmed(r)
    requires TrimmedAt(t, s, b) && IsTrimmed(t)
    ensures r == t
  {
    if r == [] || t == [] {
      var u, c := if r == [] then t else r, if r == [] then b else a;
      var w := if r == [] then a else b;
      if u != [] {
        assert s[c] == u[0];
        if c < w {
          WhitespaceBefore(s, w, c);
        } else {
          WhitespaceAfter(s, w, c);
        }
      }
    } else {
      StartsAgree(s, r, a, t, b);
      EndsAgree(s, r, a, t, b);
    }
  }

  lemma StartsAgree(s: string, r: string, a: nat, t: string, b: nat)
    requires TrimmedAt(r, s, a) && TrimmedAt(t, s, b)
    requires r != [] && t != [] && !IsJsWhitespace(r[0]) && !IsJsWhitespace(t[0])
    ensures a == b
  {
    assert s[a] == r[0] && s[b] == t[0];
    if a < b {
      WhitespaceBefore(s, b, a);
    } else if b < a {
      WhitespaceBefore(s, a, b);
    }
  }

  lemma EndsAgree(s: string, r: string, a: nat, t: string, b: nat)
    requires TrimmedAt(r, s, a) && TrimmedAt(t, s, b)
    requires r != [] && t != [] && !IsJsWhitespace(r[|r| - 1]) && !IsJsWhitespace(t[|t| - 1])
    ensures a + |r| == b + |t|
  {
    var e, f := a + |r| - 1, b + |t| - 1;
    assert s[e] == r[|r| - 1] && s[f] == t[|t| - 1];
    if e < f {
      WhitespaceAfter(s, e + 1, f);
    } else if f < e {
      WhitespaceAfter(s, f + 1, e);
    }
  }

  lemma WhitespaceBefore(s: string, k: nat, i: nat)
    requires i < k <= |s| && AllWhitespace(s[..k])
    ensures IsJsWhitespace(s[i])
  {
    assert s[i] == s[..k][i];
  }

  lemma WhitespaceAfter(s: string, k: int, i: int)
    requires 0 <= k <= i < |s| && AllWhitespace(s[k..])
    ensures IsJsWhitespace(s[i])
  {
    assert s[i] == s[k..][i - k];
  }

  /** Applying `trim` twice gives the same string as applying it once. */
  lemma TrimIdempotent(s: string)
    ensures Trim(Trim(s)) == Trim(s)
  {
    TrimOfTrimmed(Trim(s));
  }

  // ---------------------------------------------------------------- length

  /** `String.prototype.length`: the number of UTF-16 code units, so a code
      point outside the Basic Multilingual Plane counts twice. */
  function Utf16Length(s: string): (n: nat)
    ensures |s| <= n <= 2 * |s|
    ensures n == |s| <==> forall i :: 0 <= i < |s| ==> (s[i] as int) < 0x10000
    decreases |s|
  {
    if s == [] then 0
    else (if (s[0] as int) < 0x10000 then 1 else 2) + Utf16Length(s[1..])
  }

  /** One character counts one code unit, or two (a surrogate pair) when it
      lies outside the Basic Multilingual Plane. */
  lemma Utf16LengthOfChar(c: char)
    ensures Utf16Length([c]) == if (c as int) < 0x10000 then 1 else 2
  {
  }

  /** The length of a concatenation is the sum of the lengths; with
      `Utf16LengthOfChar` this fixes the length of every string. */
  lemma {:induction false} Utf16LengthAppend(a: string, b: string)
    ensures Utf16Length(a + b) == Utf16Length(a) + Utf16Length(b)
    decreases |a|
  {
    if a == [] {
      assert a + b == b;
    } else {
      assert (a + b)[1..] == a[1..] + b;
      Utf16LengthAppend(a[1..], b);
    }
  }

  // ---------------------------------------------------------------- split

  /** `indexOf` for one character: the first position holding `c`. */
  function IndexOf(s: string, c: char): (r: Option<nat>)
    ensures r.None? <==> c !in s
    ensures r.Some? ==> r.value < |s| && s[r.value] == c && c !in s[..r.value]
    decreases |s|
  {
    if s == [] then None
    else if s[0] == c then Some(0)
    else match IndexOf(s[1..], c)
      case None => None
      case Some(i) => (assert s[..i + 1] == [s[0]] + s[1..][..i]; Some(i + 1))
  }

  /** `s.split(sep)` for a one-character separator: the maximal pieces between
      separators, in order; a string without the separator gives one piece. */
  function Split(s: string, sep: char): (parts: seq<string>)
    ensures |parts| >= 1
    ensures forall i :: 0 <= i < |parts| ==> sep !in parts[i]
    decreases |s|
  {
    match IndexOf(s, sep)
    case None => [s]
    case Some(i) => [s[..i]] + Split(s[i + 1..], sep)
  }

  /** `parts.join(sep)`. */
  function Join(parts: seq<string>, sep: char): string
    requires |parts| >= 1
    decreases |parts|
  {
    if |parts| == 1 then parts[0] else parts[0] + [sep] + Join(parts[1..], sep)
  }

  /** Joining the pieces with the separator gives back the string. */
  lemma {:induction false} JoinSplit(s: string, sep: char)
    ensures Join(Split(s, sep), sep) == s
    decreases |s|
  {
    match IndexOf(s, sep)
    case None =>
    case Some(i) =>
      var rest := Split(s[i + 1..], sep);
      assert Split(s, sep) == [s[..i]] + rest;
      assert (Split(s, sep))[1..] == rest;
      JoinSplit(s[i + 1..], sep);
      assert s == s[..i] + [sep] + s[i + 1..];
  }

  /** Splitting a join of separator-free pieces gives back the pieces. */
  lemma {:induction false} SplitJoin(parts: seq<string>, sep: char)
    requires |parts| >= 1
    requires forall i :: 0 <= i < |parts| ==> sep !in parts[i]
    ensures Split(Join(parts, sep), sep) == parts
    decreases |parts|
  {
    if |parts| == 1 {
      assert IndexOf(parts[0], sep).None?;
    } else {
      var s := Join(parts, sep);
      var tail := Join(parts[1..], sep);
      assert s == parts[0] + [sep] + tail;
      IndexAfterPrefix(parts[0], sep, tail);
      assert s[|parts[0]| + 1..] == tail;
      assert s[..|parts[0]|] == parts[0];
      SplitJoin(parts[1..], sep);
      assert [parts[0]] + parts[1..] == parts;
    }
  }

  /** The first separator of `p + [sep] + t` is the one after `p` when `p`
      holds none. */
  lemma {:induction false} IndexAfterPrefix(p: string, sep: char, t: string)
    requires sep !in p
    ensures IndexOf(p + [sep] + t, sep) == Some(|p|)
    decreases |p|
  {
    var s := p + [sep] + t;
    if p != [] {
      assert s[1..] == p[1..] + [sep] + t;
      IndexAfterPrefix(p[1..], sep, t);
    }
  }

  /** Splitting `p + [sep] + t`, where `p` holds no separator, gives `p` and
      then the pieces of `t`. */
  lemma SplitAfterPrefix(p: string, sep: char, t: string)
    requires sep !in p
    ensures Split(p + [sep] + t, sep) == [p] + Split(t, sep)
  {
    var s := p + [sep] + t;
    IndexAfterPrefix(p, sep, t);
    assert s[..|p|] == p;
    assert s[|p| + 1..] == t;
  }
}
