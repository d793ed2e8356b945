// Trimming characters off both ends of a string.

module Trimming {
  function TrimStart(s: string, p: char -> bool): string {
    if s != "" && p(s[0]) then TrimStart(s[1..], p) else s
  }

  function TrimEnd(s: string, p: char -> bool): string {
    if s != "" && p(s[|s| - 1]) then TrimEnd(s[..|s| - 1], p) else s
  }

  function Trim(s: string, p: char -> bool): string {
    TrimEnd(TrimStart(s, p), p)
  }

  ghost predicate Within(p: char -> bool, q: char -> bool) {
    forall c :: p(c) ==> q(c)
  }

  lemma {:induction false} TrimEndOfCons(c: char, t: string, p: char -> bool)
    ensures TrimEnd([c] + t, p) == if TrimEnd(t, p) == "" && p(c) then "" else [c] + TrimEnd(t, p)
  {
    var s := [c] + t;
    if t == "" {
      assert s == [c] && s[..0] == "";
    } else {
      assert s[..|s| - 1] == [c] + t[..|t| - 1];
      TrimEndOfCons(c, t[..|t| - 1], p);
    }
  }

  /** It does not matter which end is trimmed first. */
  lemma {:induction false} TrimEndsCommute(s: string, p: char -> bool)
    ensures TrimEnd(TrimStart(s, p), p) == TrimStart(TrimEnd(s, p), p)
  {
    if s != "" {
      var c, t := s[0], s[1..];
      assert s == [c] + t;
      TrimEndOfCons(c, t, p);
      if p(c) {
        TrimEndsCommute(t, p);
        assert TrimEnd(t, p) != "" ==> ([c] + TrimEnd(t, p))[1..] == TrimEnd(t, p);
      }
    }
  }

  lemma {:induction false} TrimStartTwice(s: string, p: char -> bool, q: char -> bool)
    requires Within(p, q)
    ensures TrimStart(TrimStart(s, p), q) == TrimStart(s, q)
  {
    if s != "" && p(s[0]) {
      TrimStartTwice(s[1..], p, q);
    }
  }

  lemma {:induction false} TrimEndTwice(s: string, p: char -> bool, q: char -> bool)
    requires Within(p, q)
    ensures TrimEnd(TrimEnd(s, p), q) == TrimEnd(s, q)
  {
    if s != "" && p(s[|s| - 1]) {
      TrimEndTwice(s[..|s| - 1], p, q);
    }
  }

  /** Trimming more characters can be done on what trimming fewer left. */
  lemma TrimTwice(s: string, p: char -> bool, q: char -> bool)
    requires Within(p, q)
    ensures Trim(Trim(s, p), q) == Trim(s, q)
  {
    var u := TrimStart(s, p);
    TrimStartTwice(s, p, q);
    TrimEndsCommute(u, q);
    TrimEndsCommute(TrimEnd(u, p), q);
    TrimEndTwice(u, p, q);
  }

  /** What is left has no trimmed character at either end, and came from the input. */
  lemma {:induction false} TrimStartLeaves(s: string, p: char -> bool)
    ensures var t := TrimStart(s, p); t == "" || !p(t[0])
    ensures exists k :: 0 <= k <= |s| && TrimStart(s, p) == s[k..]
  {
    if s != "" && p(s[0]) {
      TrimStartLeaves(s[1..], p);
      var k :| 0 <= k <= |s[1..]| && TrimStart(s[1..], p) == s[1..][k..];
      assert s[1..][k..] == s[k + 1..];
    } else {
      assert s == s[0..];
    }
  }

  lemma {:induction false} TrimEndLeaves(s: string, p: char -> bool)
    ensures var t := TrimEnd(s, p); t == "" || (!p(t[|t| - 1]) && t[0] == s[0])
    ensures TrimEnd(s, p) <= s
  {
    if s != "" && p(s[|s| - 1]) {
      TrimEndLeaves(s[..|s| - 1], p);
    }
  }

  lemma TrimLeaves(s: string, p: char -> bool)
    ensures var t := Trim(s, p); t == "" || (!p(t[0]) && !p(t[|t| - 1]))
    ensures |Trim(s, p)| <= |s|
    ensures forall c :: c in Trim(s, p) ==> c in s
  {
    TrimStartLeaves(s, p);
    TrimEndLeaves(TrimStart(s, p), p);
  }

  /** `t` is what stands between the trimmed characters at both ends of `s`. */
  ghost predicate Inner(t: string, s: string, p: char -> bool) {
    && (t == "" || (!p(t[0]) && !p(t[|t| - 1])))
    && exists before, after ::
         s == before + t + after && (forall c :: c in before ==> p(c)) && (forall c :: c in after ==> p(c))
  }

  lemma TrimIsInner(s: string, p: char -> bool)
    ensures Inner(Trim(s, p), s, p)
  {
    var u := TrimStart(s, p);
    var before := TrimStartDrops(s, p);
    var after := TrimEndDrops(u, p);
    TrimLeaves(s, p);
    assert s == before + Trim(s, p) + after;
  }

  lemma {:induction false} TrimStartDrops(s: string, p: char -> bool) returns (before: string)
    ensures s == before + TrimStart(s, p) && forall c :: c in before ==> p(c)
  {
    if s != "" && p(s[0]) {
      var rest := TrimStartDrops(s[1..], p);
      before := [s[0]] + rest;
      assert s == [s[0]] + s[1..];
    } else {
      before := "";
    }
  }

  lemma {:induction false} TrimEndDrops(s: string, p: char -> bool) returns (after: string)
    ensures s == TrimEnd(s, p) + after && forall c :: c in after ==> p(c)
  {
    if s != "" && p(s[|s| - 1]) {
      var rest := TrimEndDrops(s[..|s| - 1], p);
      after := rest + [s[|s| - 1]];
      assert s == s[..|s| - 1] + [s[|s| - 1]];
    } else {
      after := "";
    }
  }

  /** Exactly when trimming changes nothing; otherwise it shortens. */
  lemma TrimKeepsExactly(s: string, p: char -> bool)
    ensures Trim(s, p) == s <==> s == "" || (!p(s[0]) && !p(s[|s| - 1]))
    ensures Trim(s, p) != s ==> |Trim(s, p)| < |s|
  {
    TrimLeaves(s, p);
    if s != "" {
      if p(s[0]) {
        TrimLeaves(s[1..], p);
      } else if p(s[|s| - 1]) {
        TrimEndLeaves(s[..|s| - 1], p);
      }
    }
  }
}
