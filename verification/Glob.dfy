/** Permission patterns (permissions/permissions.go, glob and argGlob): '*' is
    any run of characters, '?' any one, all else itself. */
module Glob {

  /** What a pattern means. */
  predicate Match(p: string, t: string)
    decreases |p| + |t|
  {
    if p == "" then t == ""
    else if p[0] == '*' then Match(p[1..], t) || (t != "" && Match(p, t[1..]))
    else t != "" && Fits(p[0], t[0]) && Match(p[1..], t[1..])
  }

  predicate Fits(p: char, c: char) {
    p == '?' || p == c
  }

  /** A star stands for any run: what follows it may match from any point on. */
  lemma {:induction false} StarIsAnyRun(p: string, t: string)
    requires p != "" && p[0] == '*'
    ensures Match(p, t) <==> exists k | 0 <= k <= |t| :: Match(p[1..], t[k..])
    decreases |t|
  {
    assert t[0..] == t;
    if t != "" {
      StarIsAnyRun(p, t[1..]);
      forall k | 1 <= k <= |t| ensures t[k..] == t[1..][k - 1..] {}
      if k :| 0 <= k <= |t| && Match(p[1..], t[k..]) && k > 0 {
        assert t[k..] == t[1..][k - 1..];
      }
    }
  }

  /** What comes before the first star takes as many characters, each the same or
      any one for a '?'; without a star that is all of the text. */
  lemma {:induction false} PlainPart(p: string, q: string, t: string)
    requires '*' !in p && (q == "" || q[0] == '*')
    ensures Match(p + q, t) <==>
      && |p| <= |t| && (forall i | 0 <= i < |p| :: p[i] == '?' || p[i] == t[i])
      && if q == "" then |p| == |t| else exists k | |p| <= k <= |t| :: Match(q[1..], t[k..])
  {
    if p == "" {
      assert p + q == q;
      if q != "" { StarIsAnyRun(q, t); }
    } else {
      assert (p + q)[0] == p[0] && (p + q)[1..] == p[1..] + q;
      if t != "" {
        PlainPart(p[1..], q, t[1..]);
        assert forall i | 1 <= i < |p| :: p[i] == p[1..][i - 1];
        assert forall i | 1 <= i < |t| :: t[i] == t[1..][i - 1];
        assert forall k | 1 <= k <= |t| :: t[k..] == t[1..][k - 1..];
        if |p| <= |t| {
          assert (exists k | |p| <= k <= |t| :: q != "" && Match(q[1..], t[k..]))
            <==> (exists k | |p| - 1 <= k <= |t| - 1 :: q != "" && Match(q[1..], t[1..][k..])) by {
            if k :| |p| <= k <= |t| && q != "" && Match(q[1..], t[k..]) { assert t[k..] == t[1..][k - 1..]; }
            if k :| |p| - 1 <= k <= |t| - 1 && q != "" && Match(q[1..], t[1..][k..]) {
              assert t[k + 1..] == t[1..][k..];
            }
          }
        }
      }
    }
  }

  lemma {:induction false} StarSkips(p: string, t: string, k: nat)
    requires p != "" && p[0] == '*' && k <= |t| && Match(p, t[k..])
    ensures Match(p, t)
    decreases k
  {
    if k == 0 {
      assert t[0..] == t;
    } else {
      assert t[k..] == t[1..][k - 1..];
      StarSkips(p, t[1..], k - 1);
    }
  }

  /** The n pattern characters from i are no stars and fit the text from j. */
  predicate Aligned(p: string, i: nat, t: string, j: nat, n: nat)
    requires i + n <= |p| && j + n <= |t|
  {
    forall k | i <= k < i + n :: p[k] != '*' && Fits(p[k], t[j + (k - i)])
  }

  lemma {:induction false} AlignedMatch(p: string, i: nat, t: string, j: nat, n: nat)
    requires i + n <= |p| && j + n <= |t| && Aligned(p, i, t, j, n)
    ensures Match(p[i..], t[j..]) <==> Match(p[i + n..], t[j + n..])
  {
    if n > 0 {
      AlignedMatch(p, i, t, j, n - 1);
      var m := n - 1;
      assert p[i + m..][0] == p[i + m] && t[j + m..][0] == t[j + m];
      assert p[i + m..][1..] == p[i + n..] && t[j + m..][1..] == t[j + n..];
    }
  }

  /** n pattern characters that are no stars take n characters of any text. */
  lemma {:induction false} LiteralsTake(p: string, n: nat, t: string)
    requires n <= |p| && Match(p, t) && forall k | 0 <= k < n :: p[k] != '*'
    ensures n <= |t| && Match(p[n..], t[n..])
  {
    if n == 0 {
      assert p[0..] == p && t[0..] == t;
    } else {
      LiteralsTake(p[1..], n - 1, t[1..]);
      assert p[1..][n - 1..] == p[n..] && t[1..][n - 1..] == t[n..];
    }
  }

  /** What the loop remembers: before any star, that all so far fitted; after
      one, that trying it from mark on decides everything, and that the pattern
      since then fitted the text since then. */
  ghost predicate OnTrack(p: string, t: string, pi: int, ti: int, star: int, mark: int) {
    && 0 <= pi <= |p| && 0 <= ti <= |t|
    && if star < 0 then star == -1 && (Match(p, t) <==> Match(p[pi..], t[ti..]))
       else
         && star < pi && 0 <= mark <= ti && ti - mark == pi - (star + 1)
         && p[star] == '*'
         && Aligned(p, star + 1, t, mark, ti - mark)
         && (Match(p, t) <==> Match(p[star..], t[mark..]))
  }

  lemma StepsOn(p: string, t: string, pi: int, ti: int, star: int, mark: int)
    requires OnTrack(p, t, pi, ti, star, mark) && pi < |p| && ti < |t| && p[pi] != '*' && Fits(p[pi], t[ti])
    ensures OnTrack(p, t, pi + 1, ti + 1, star, mark)
  {
    assert p[pi..][0] == p[pi] && t[ti..][0] == t[ti] && p[pi..][1..] == p[pi + 1..] && t[ti..][1..] == t[ti + 1..];
  }

  /** A later star makes the earlier one irrelevant. */
  lemma NewStar(p: string, t: string, pi: int, ti: int, star: int, mark: int)
    requires OnTrack(p, t, pi, ti, star, mark) && pi < |p| && p[pi] == '*'
    ensures OnTrack(p, t, pi + 1, ti, pi, ti)
  {
    hide Match, Fits;
    if star >= 0 {
      var n := ti - mark;
      AlignedMatch(p, star + 1, t, mark, n);
      var rest, q := t[mark..], p[star + 1..];
      assert p[star..][1..] == q && p[star..][0] == '*';
      StarIsAnyRun(p[star..], rest);
      if Match(p[pi..], t[ti..]) {
        assert rest[0..] == rest;
      }
      if k :| 0 <= k <= |rest| && Match(q, rest[k..]) {
        assert forall i | 0 <= i < n :: q[i] == p[star + 1 + i] != '*';
        LiteralsTake(q, n, rest[k..]);
        assert q[n..] == p[pi..] && rest[k..][n..] == t[ti..][k..];
        StarSkips(p[pi..], t[ti..], k);
      }
    }
  }

  /** The star has to take one character more. */
  lemma Backtrack(p: string, t: string, pi: int, ti: int, star: int, mark: int)
    requires OnTrack(p, t, pi, ti, star, mark) && star >= 0 && ti < |t|
    requires pi == |p| || (p[pi] != '*' && !Fits(p[pi], t[ti]))
    ensures OnTrack(p, t, star + 1, mark + 1, star, mark + 1)
  {
    AlignedMatch(p, star + 1, t, mark, ti - mark);
    assert pi < |p| ==> p[pi..][0] == p[pi] && t[ti..][0] == t[ti];
    assert p[star..][0] == '*' && p[star..][1..] == p[star + 1..] && t[mark..][1..] == t[mark + 1..];
  }

  /** With the text used up, the rest of the pattern decides: a star that takes
      more leaves too little for the pattern after it. */
  lemma {:induction false} TextUsedUp(p: string, t: string, pi: int, ti: int, star: int, mark: int)
    requires OnTrack(p, t, pi, ti, star, mark) && ti == |t|
    ensures Match(p, t) <==> Match(p[pi..], "")
  {
    assert t[ti..] == "";
    if star >= 0 {
      var n := ti - mark;
      AlignedMatch(p, star + 1, t, mark, n);
      var rest, q := t[mark..], p[star + 1..];
      assert p[star..][1..] == q && p[star..][0] == '*';
      StarIsAnyRun(p[star..], rest);
      if Match(q, rest) { assert rest[0..] == rest; }
      if k :| 0 <= k <= |rest| && Match(q, rest[k..]) {
        assert forall i | 0 <= i < n :: q[i] == p[star + 1 + i] != '*';
        LiteralsTake(q, n, rest[k..]);
        assert k == 0 && rest[0..] == rest;
      }
    }
  }

  lemma {:induction false} OnlyStarsMatchNothing(p: string)
    ensures Match(p, "") <==> forall i | 0 <= i < |p| :: p[i] == '*'
  {
    if p != "" {
      OnlyStarsMatchNothing(p[1..]);
      if p[0] == '*' { assert forall i | 1 <= i < |p| :: p[i] == p[1..][i - 1]; }
    }
  }

  /** glob: one remembered star and a cursor to go back to are enough. */
  method Glob(p: string, t: string) returns (ok: bool)
    ensures ok <==> Match(p, t)
  {
    var pi, ti, star, mark := 0, 0, -1, 0;
    assert p[0..] == p && t[0..] == t;
    while ti < |t|
      invariant OnTrack(p, t, pi, ti, star, mark)
      decreases |p| - star, |t| - mark, |t| - ti
    {
      if pi < |p| && (p[pi] == '?' || p[pi] == t[ti]) && p[pi] != '*' {
        StepsOn(p, t, pi, ti, star, mark);
        pi, ti := pi + 1, ti + 1;
      } else if pi < |p| && p[pi] == '*' {
        NewStar(p, t, pi, ti, star, mark);
        star, mark := pi, ti;
        pi := pi + 1;
      } else if star >= 0 {
        Backtrack(p, t, pi, ti, star, mark);
        pi := star + 1;
        mark := mark + 1;
        ti := mark;
      } else {
        assert pi < |p| ==> p[pi..][0] == p[pi] && t[ti..][0] == t[ti];
        return false;
      }
    }
    TextUsedUp(p, t, pi, ti, star, mark);
    OnlyStarsMatchNothing(p[pi..]);
    ghost var from := pi;
    while pi < |p| && p[pi] == '*'
      invariant from <= pi <= |p| && forall i | from <= i < pi :: p[i] == '*'
    {
      pi := pi + 1;
    }
    assert forall i | 0 <= i < |p| - from :: p[from..][i] == p[from + i];
    ok := pi == |p|;
  }

  // ----- argGlob -----

  lemma {:induction false} ConcatSplits(p: string, q: string, t: string) returns (k: nat)
    requires Match(p + q, t)
    ensures k <= |t| && Match(p, t[..k]) && Match(q, t[k..])
    decreases |p| + |t|
  {
    if p == "" {
      k := 0;
      assert p + q == q && t[0..] == t;
      return;
    }
    assert (p + q)[0] == p[0] && (p + q)[1..] == p[1..] + q;
    if p[0] == '*' && Match(p[1..] + q, t) {
      k := ConcatSplits(p[1..], q, t);
    } else {
      k := ConcatSplits(if p[0] == '*' then p else p[1..], q, t[1..]);
      k := k + 1;
      assert t[..k][1..] == t[1..][..k - 1] && t[k..] == t[1..][k - 1..];
    }
  }

  lemma {:induction false} ConcatJoins(p: string, q: string, t: string, k: nat)
    requires k <= |t| && Match(p, t[..k]) && Match(q, t[k..])
    ensures Match(p + q, t)
    decreases |p| + k
  {
    if p == "" {
      assert p + q == q && t[0..] == t;
    } else {
      assert (p + q)[0] == p[0] && (p + q)[1..] == p[1..] + q;
      if p[0] == '*' && Match(p[1..], t[..k]) {
        ConcatJoins(p[1..], q, t, k);
      } else {
        assert t[..k][1..] == t[1..][..k - 1] && t[k..] == t[1..][k - 1..];
        ConcatJoins(if p[0] == '*' then p else p[1..], q, t[1..], k - 1);
      }
    }
  }

  function CutSuffix(s: string, suffix: string): (r: (string, bool)) {
    if |suffix| <= |s| && s[|s| - |suffix|..] == suffix then (s[..|s| - |suffix|], true) else (s, false)
  }

  /** The text is the prefix itself, or what the prefix matches, a space and
      anything. */
  predicate PrefixForm(prefix: string, s: string) {
    s == prefix || exists k | 0 <= k < |s| :: s[k] == ' ' && Match(prefix, s[..k])
  }

  lemma {:induction false} AnyRun(t: string)
    ensures Match("*", t)
  {
    StarIsAnyRun("*", t);
    assert t[|t|..] == "" && "*"[1..] == "";
  }

  lemma {:induction false} SpaceStar(t: string)
    ensures Match(" *", t) <==> t != "" && t[0] == ' '
  {
    assert " *"[1..] == "*";
    if t != "" { AnyRun(t[1..]); }
  }

  lemma {:induction false} PrefixFormIsGlob(prefix: string, s: string)
    ensures PrefixForm(prefix, s) <==> s == prefix || Match(prefix + " *", s)
  {
    if Match(prefix + " *", s) {
      var k := ConcatSplits(prefix, " *", s);
      SpaceStar(s[k..]);
      assert s[k] == ' ';
    }
    if k :| 0 <= k < |s| && s[k] == ' ' && Match(prefix, s[..k]) {
      SpaceStar(s[k..]);
      ConcatJoins(prefix, " *", s, k);
    }
  }

  /** argGlob, with the legacy prefix:* form. */
  method ArgGlob(pat: string, s: string) returns (ok: bool)
    ensures ok <==> if CutSuffix(pat, ":*").1 then PrefixForm(CutSuffix(pat, ":*").0, s) else Match(pat, s)
    ensures ok <==>
      if |pat| >= 2 && pat[|pat| - 2] == ':' && pat[|pat| - 1] == '*' then
        s == pat[..|pat| - 2] || Match(pat[..|pat| - 2] + [' ', '*'], s)
      else Match(pat, s)
  {
    var cut := CutSuffix(pat, ":*");
    if cut.1 {
      PrefixFormIsGlob(cut.0, s);
      if s == cut.0 { return true; }
      ok := Glob(cut.0 + " *", s);
    } else {
      ok := Glob(pat, s);
    }
  }
}
