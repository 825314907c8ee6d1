/** The e-mail format both handlers enforce, the regular expression
    `^[^\s@]+@[^\s@]+\.[^\s@]+$`. */
module EmailFormat {
  import opened Options
  import opened JsStrings

  /** One `[^\s@]+` run: at least one character, none of them whitespace or `@`. */
  predicate IsRun(s: string) {
    |s| > 0 && forall i :: 0 <= i < |s| ==> s[i] != '@' && !IsJsWhitespace(s[i])
  }

  /** The regular expression read literally: a run, `@`, a run, a literal dot,
      a run, and nothing before or after. */
  ghost predicate MatchesEmailPattern(s: string) {
    exists local: string, host: string, tld: string ::
      IsRun(local) && IsRun(host) && IsRun(tld) && s == local + "@" + host + "." + tld
  }

  /** The domain part has a dot that is neither its first nor its last character. */
  predicate HasInnerDot(domain: string) {
    exists j | 0 < j < |domain| - 1 :: domain[j] == '.'
  }

  /** `emailRegex.test(s)`: the string matches the pattern. */
  function IsValidEmail(s: string): (b: bool)
    ensures b <==> MatchesEmailPattern(s)
  {
    EmailShapeMatchesPattern(s);
    HasEmailShape(s)
  }

  /** The address check as a plain string predicate: no whitespace anywhere,
      exactly one `@`, a non-empty part before it, and a dot strictly inside
      the part after it. */
  predicate HasEmailShape(s: string) {
    && NoWhitespace(s)
    && match IndexOf(s, '@')
       case None => false
       case Some(at) => at > 0 && '@' !in s[at + 1..] && HasInnerDot(s[at + 1..])
  }

  /** The string predicate accepts exactly the strings the regular expression
      matches. */
  lemma EmailShapeMatchesPattern(s: string)
    ensures HasEmailShape(s) <==> MatchesEmailPattern(s)
  {
    if HasEmailShape(s) {
      ValidEmailMatches(s);
    }
    if MatchesEmailPattern(s) {
      var local: string, host: string, tld: string :|
        IsRun(local) && IsRun(host) && IsRun(tld) && s == local + "@" + host + "." + tld;
      PatternIsValid(s, local, host, tld);
    }
  }

  lemma ValidEmailMatches(s: string)
    requires HasEmailShape(s)
    ensures MatchesEmailPattern(s)
  {
    var at := IndexOf(s, '@').value;
    var domain := s[at + 1..];
    var j :| 0 < j < |domain| - 1 && domain[j] == '.';
    var dot := at + 1 + j;
    assert s[dot] == '.';
    SliceIsRun(s, 0, at);
    SliceIsRun(s, at + 1, dot);
    SliceIsRun(s, dot + 1, |s|);
    ThreeWaySplit(s, at, dot);
    assert IsRun(s[..at]) && IsRun(s[at + 1..dot]) && IsRun(s[dot + 1..]);
  }

  /** A non-empty stretch of an address free of whitespace and `@` is a run. */
  lemma SliceIsRun(s: string, lo: nat, hi: nat)
    requires lo < hi <= |s|
    requires NoWhitespace(s) && '@' !in s[lo..hi]
    ensures IsRun(s[lo..hi])
  {
    forall i | 0 <= i < hi - lo
      ensures s[lo..hi][i] != '@' && !IsJsWhitespace(s[lo..hi][i])
    {
      assert s[lo..hi][i] == s[lo + i];
    }
  }

  /** Cutting a string at an `@` and a later dot. */
  lemma ThreeWaySplit(s: string, at: nat, dot: nat)
    requires at < dot < |s| && s[at] == '@' && s[dot] == '.'
    ensures s == s[..at] + "@" + s[at + 1..dot] + "." + s[dot + 1..]
  {
    assert s == s[..at] + [s[at]] + s[at + 1..dot] + [s[dot]] + s[dot + 1..];
  }

  lemma PatternIsValid(s: string, local: string, host: string, tld: string)
    requires IsRun(local) && IsRun(host) && IsRun(tld)
    requires s == local + "@" + host + "." + tld
    ensures HasEmailShape(s)
  {
    var domain := host + "." + tld;
    assert s == local + ['@'] + domain;
    IndexAfterPrefix(local, '@', domain);
    assert s[|local| + 1..] == domain;
    assert domain[|host|] == '.';
    assert '@' !in domain by {
      forall i | 0 <= i < |domain|
        ensures domain[i] != '@'
      {
        if i < |host| {
          assert domain[i] == host[i];
        } else if i > |host| {
          assert domain[i] == tld[i - |host| - 1];
        }
      }
    }
    forall i | 0 <= i < |s|
      ensures !IsJsWhitespace(s[i])
    {
      if i < |local| {
        assert s[i] == local[i];
      } else if i > |local| {
        var k := i - |local| - 1;
        assert s[i] == domain[k];
        if k < |host| {
          assert domain[k] == host[k];
        } else if k > |host| {
          assert domain[k] == tld[k - |host| - 1];
        }
      }
    }
  }
}
