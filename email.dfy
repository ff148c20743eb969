/** The email pattern `^[^\s@]+@[^\s@]+\.[^\s@]+$` shared by the login
    function and the add-inspector form, and `RegExp.prototype.test`'s
    conversion of its argument to a string. */
module Email {
  import opened Js
  import opened Strings

  /** A character of the class `[^\s@]`. */
  predicate Plain(c: char)
  {
    !IsSpace(c) && c != '@'
  }

  predicate AllPlain(s: string)
  {
    forall j :: 0 <= j < |s| ==> Plain(s[j])
  }

  /** The pattern as written: s splits as local `@` host `.` tld with three
      non-empty runs of `[^\s@]`. The `+` runs may themselves contain dots. */
  predicate Matches(s: string)
  {
    exists i, k :: 0 < i && i + 1 < k < |s| - 1 && s[i] == '@' && s[k] == '.' &&
      AllPlain(s[..i]) && AllPlain(s[i + 1..k]) && AllPlain(s[k + 1..])
  }

  /** The same set of strings, described without the pattern: no whitespace,
      exactly one `@`, which is not the first character, and a dot after it
      that is neither right after the `@` nor the last character. */
  predicate WellFormed(s: string)
  {
    && (forall j :: 0 <= j < |s| ==> !IsSpace(s[j]))
    && exists i :: 0 < i < |s| && s[i] == '@' &&
         (forall j :: 0 <= j < |s| && s[j] == '@' ==> j == i) &&
         (exists k :: i + 1 < k < |s| - 1 && s[k] == '.')
  }

  lemma MatchesIffWellFormed(s: string)
    ensures Matches(s) <==> WellFormed(s)
  {
    if Matches(s) {
      var i, k :| 0 < i && i + 1 < k < |s| - 1 && s[i] == '@' && s[k] == '.' &&
        AllPlain(s[..i]) && AllPlain(s[i + 1..k]) && AllPlain(s[k + 1..]);
      WellFormedAt(s, i, k);
    }
    if WellFormed(s) {
      var i :| 0 < i < |s| && s[i] == '@' &&
        (forall j :: 0 <= j < |s| && s[j] == '@' ==> j == i) &&
        (exists k :: i + 1 < k < |s| - 1 && s[k] == '.');
      var k :| i + 1 < k < |s| - 1 && s[k] == '.';
      MatchesAt(s, i, k);
    }
  }

  lemma WellFormedAt(s: string, i: int, k: int)
    requires 0 < i && i + 1 < k < |s| - 1 && s[i] == '@' && s[k] == '.'
    requires AllPlain(s[..i]) && AllPlain(s[i + 1..k]) && AllPlain(s[k + 1..])
    ensures WellFormed(s)
  {
    forall j | 0 <= j < |s| && j != i
      ensures Plain(s[j])
    {
      if j < i {
        assert s[j] == s[..i][j];
      } else if j < k {
        assert s[j] == s[i + 1..k][j - i - 1];
      } else if j > k {
        assert s[j] == s[k + 1..][j - k - 1];
      }
    }
  }

  lemma MatchesAt(s: string, i: int, k: int)
    requires 0 < i < |s| && s[i] == '@' && i + 1 < k < |s| - 1 && s[k] == '.'
    requires forall j :: 0 <= j < |s| ==> !IsSpace(s[j])
    requires forall j :: 0 <= j < |s| && s[j] == '@' ==> j == i
    ensures Matches(s)
  {
    assert AllPlain(s[..i]);
    assert AllPlain(s[i + 1..k]);
    assert AllPlain(s[k + 1..]);
  }

  // ---- the matcher ----

  /** The index of the first c in s, or |s| when there is none. */
  function IndexOf(s: string, c: char): (i: nat)
    ensures i <= |s| && (i < |s| ==> s[i] == c)
    decreases |s|
  {
    if s == [] then 0 else if s[0] == c then 0 else 1 + IndexOf(s[1..], c)
  }

  lemma {:induction false} IndexOfFirst(s: string, c: char, j: int)
    requires 0 <= j < |s| && s[j] == c
    ensures IndexOf(s, c) <= j
    ensures forall k :: 0 <= k < IndexOf(s, c) ==> s[k] != c
    decreases |s|
  {
    if s[0] != c {
      IndexOfFirst(s[1..], c, j - 1);
    }
  }

  predicate PlainRun(s: string)
    decreases |s|
  {
    s == [] || (Plain(s[0]) && PlainRun(s[1..]))
  }

  predicate HasDot(s: string)
    decreases |s|
  {
    s != [] && (s[0] == '.' || HasDot(s[1..]))
  }

  /** The text after the `@`: plain, with a dot that is neither its first nor
      its last character. */
  predicate Domain(r: string)
  {
    |r| >= 3 && PlainRun(r) && HasDot(r[1..|r| - 1])
  }

  /** The pattern as a left-to-right matcher reads it: a plain run up to the
      first `@`, then a domain. */
  predicate Scan(s: string)
  {
    var i := IndexOf(s, '@');
    0 < i < |s| && PlainRun(s[..i]) && Domain(s[i + 1..])
  }

  lemma {:induction false} PlainRunIff(s: string)
    ensures PlainRun(s) <==> AllPlain(s)
    decreases |s|
  {
    if s != [] {
      PlainRunIff(s[1..]);
      assert forall j :: 0 < j < |s| ==> s[j] == s[1..][j - 1];
    }
  }

  lemma {:induction false} HasDotIff(s: string)
    ensures HasDot(s) <==> exists k :: 0 <= k < |s| && s[k] == '.'
    decreases |s|
  {
    if s != [] && s[0] != '.' {
      HasDotIff(s[1..]);
      if exists k :: 0 <= k < |s| && s[k] == '.' {
        var k :| 0 <= k < |s| && s[k] == '.';
        assert s[1..][k - 1] == '.';
      }
    }
  }

  /** The matcher accepts exactly the strings the pattern describes. */
  lemma ScanIffMatches(s: string)
    ensures Scan(s) <==> Matches(s)
  {
    if Scan(s) {
      ScanMatches(s);
    }
    if Matches(s) {
      MatchesScan(s);
    }
  }

  lemma ScanMatches(s: string)
    requires Scan(s)
    ensures Matches(s)
  {
    var i := IndexOf(s, '@');
    var r := s[i + 1..];
    PlainRunIff(s[..i]);
    PlainRunIff(r);
    HasDotIff(r[1..|r| - 1]);
    var d :| 0 <= d < |r| - 2 && r[1..|r| - 1][d] == '.';
    var k := i + 2 + d;
    assert s[k] == '.';
    var host, tld := s[i + 1..k], s[k + 1..];
    forall j | 0 <= j < |host|
      ensures Plain(host[j])
    {
      assert host[j] == r[j];
    }
    forall j | 0 <= j < |tld|
      ensures Plain(tld[j])
    {
      assert tld[j] == r[d + 2 + j];
    }
    assert AllPlain(s[..i]) && AllPlain(host) && AllPlain(tld);
  }

  lemma AllPlainJoin(a: string, b: string)
    requires AllPlain(a) && AllPlain(b)
    ensures AllPlain(a + "." + b)
  {
    var c := a + "." + b;
    forall j | 0 <= j < |c|
      ensures Plain(c[j])
    {
      if j > |a| {
        assert c[j] == b[j - |a| - 1];
      }
    }
  }

  lemma MatchesScan(s: string)
    requires Matches(s)
    ensures Scan(s)
  {
    var i, k :| 0 < i && i + 1 < k < |s| - 1 && s[i] == '@' && s[k] == '.' &&
      AllPlain(s[..i]) && AllPlain(s[i + 1..k]) && AllPlain(s[k + 1..]);
    ScanAt(s, i, k);
  }

  lemma ScanAt(s: string, i: int, k: int)
    requires 0 < i && i + 1 < k < |s| - 1 && s[i] == '@' && s[k] == '.'
    requires AllPlain(s[..i]) && AllPlain(s[i + 1..k]) && AllPlain(s[k + 1..])
    ensures Scan(s)
  {
    FirstAt(s, i);
    PlainRunIff(s[..i]);
    var host, tld := s[i + 1..k], s[k + 1..];
    DomainAfter(s, i, k);
    DomainOf(host, tld);
  }

  lemma DomainAfter(s: string, i: int, k: int)
    requires 0 <= i < k < |s|
    requires s[k] == '.'
    ensures s[i + 1..] == s[i + 1..k] + "." + s[k + 1..]
  {
  }

  lemma FirstAt(s: string, i: int)
    requires 0 <= i < |s| && s[i] == '@' && AllPlain(s[..i])
    ensures IndexOf(s, '@') == i
  {
    IndexOfFirst(s, '@', i);
    if IndexOf(s, '@') < i {
      assert s[..i][IndexOf(s, '@')] == '@';
    }
  }

  lemma DomainOf(host: string, tld: string)
    requires host != "" && tld != "" && AllPlain(host) && AllPlain(tld)
    ensures Domain(host + "." + tld)
  {
    var r := host + "." + tld;
    AllPlainJoin(host, tld);
    PlainRunIff(r);
    assert r[1..|r| - 1][|host| - 1] == '.';
    HasDotIff(r[1..|r| - 1]);
  }

  /** `emailRegex.test(v)` */
  predicate Test(v: Value)
  {
    Scan(ValueText(v))
  }

  /** Only a non-empty string can pass the test: the text of a number, a
      boolean or `null` has no `@`. */
  lemma TestOnlyStrings(v: Value)
    ensures Test(v) ==> v.Str? && v.s != ""
  {
    if Test(v) && !v.Str? {
      var s := ValueText(v);
      var i := IndexOf(s, '@');
      assert s[i] == '@';
      if v.Num? {
        IntToStringChars(v.n);
      }
      assert false;
    }
  }

  /** Dots may appear in both the local part and the host. */
  lemma AcceptsDottedAddress()
    ensures Matches("jo.doe@mail.lk")
  {
    var t := "jo.doe@mail.lk";
    assert t[6] == '@' && t[11] == '.';
    assert AllPlain(t[..6]) && AllPlain(t[7..11]) && AllPlain(t[12..]);
  }

  lemma RejectsWithoutDot()
    ensures !Matches("a@b")
  {
  }

  lemma RejectsSecondAt()
    ensures !Matches("a@@b.co")
  {
    MatchesIffWellFormed("a@@b.co");
    assert "a@@b.co"[1] == '@' && "a@@b.co"[2] == '@';
  }

  lemma RejectsSpace()
    ensures !Matches("a b@c.de")
  {
    MatchesIffWellFormed("a b@c.de");
    assert "a b@c.de"[1] == ' ';
  }

  lemma RejectsEmptyLocalPart()
    ensures !Matches("@b.co")
  {
    MatchesIffWellFormed("@b.co");
    assert "@b.co"[0] == '@';
  }
}
