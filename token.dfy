/**
  The inline placeholder token `(?i)!Base64loop (\w+)` of base64loop.py and
  the two string primitives the substitution loop relies on: the leftmost
  match (`re.search`) and replace-all (`str.replace`). Word characters and
  case folding are ASCII.
 */
module Token {
  import opened Values

  /** The literal part of the token; matched ignoring letter case. */
  const Prefix: string := "!Base64loop "

  predicate IsWordChar(c: char) {
    ('a' <= c <= 'z') || ('A' <= c <= 'Z') || ('0' <= c <= '9') || c == '_'
  }

  function Lower(c: char): char {
    if 'A' <= c <= 'Z' then (c as int + 32) as char else c
  }

  predicate SameIgnoringCase(c: char, d: char) {
    Lower(c) == Lower(d)
  }

  /** The prefix occurs at position i, letter case aside. */
  predicate PrefixAt(s: string, i: nat) {
    i + |Prefix| <= |s| &&
    forall k :: 0 <= k < |Prefix| ==> SameIgnoringCase(s[i + k], Prefix[k])
  }

  /** A match of the pattern starts at position i: the prefix followed by at
      least one word character. */
  predicate TokenAt(s: string, i: nat) {
    PrefixAt(s, i) && i + |Prefix| < |s| && IsWordChar(s[i + |Prefix|])
  }

  /** A match object: `group(0)` is text, `group('explode_key')` is key. */
  datatype Match = Match(start: nat, end: nat, text: string, key: string)

  /** m is the match the pattern produces when it is tried at m.start: the
      prefix, then the longest run of word characters (the `\w+` is greedy). */
  predicate MatchesAt(s: string, m: Match) {
    && PrefixAt(s, m.start)
    && m.start + |Prefix| < m.end <= |s|
    && (forall k :: m.start + |Prefix| <= k < m.end ==> IsWordChar(s[k]))
    && (m.end == |s| || !IsWordChar(s[m.end]))
    && m.text == s[m.start..m.end]
    && m.key == s[m.start + |Prefix|..m.end]
  }

  /** The end of the run of word characters that starts at j. */
  function WordEnd(s: string, j: nat): (e: nat)
    requires j <= |s|
    ensures j <= e <= |s|
    ensures forall k :: j <= k < e ==> IsWordChar(s[k])
    ensures e == |s| || !IsWordChar(s[e])
    decreases |s| - j
  {
    if j < |s| && IsWordChar(s[j]) then WordEnd(s, j + 1) else j
  }

  /** The leftmost match at or after position i. */
  function SearchFrom(s: string, i: nat): (r: Option<Match>)
    requires i <= |s|
    ensures r.Some? ==> |r.value.text| > |Prefix|
    decreases |s| - i
  {
    if i + |Prefix| >= |s| then None
    else if TokenAt(s, i) then
      var e := WordEnd(s, i + |Prefix|);
      Some(Match(i, e, s[i..e], s[i + |Prefix|..e]))
    else SearchFrom(s, i + 1)
  }

  /** `BASE64LOOP_RE.search(s)`. */
  function Search(s: string): (r: Option<Match>)
    ensures r.Some? ==> |r.value.text| > |Prefix|
  {
    SearchFrom(s, 0)
  }

  /** SearchFrom finds the leftmost place at or after i where the pattern
      matches, and the match it reports is the one the pattern makes there;
      it finds nothing exactly when the pattern matches nowhere from i on. */
  lemma {:induction false} SearchFromSpec(s: string, i: nat)
    requires i <= |s|
    ensures var r := SearchFrom(s, i);
      && (r.Some? ==> i <= r.value.start && MatchesAt(s, r.value))
      && (r.Some? ==> forall j :: i <= j < r.value.start ==> !TokenAt(s, j))
      && (r.None? ==> forall j :: i <= j <= |s| ==> !TokenAt(s, j))
    decreases |s| - i
  {
    if i + |Prefix| >= |s| {
      assert forall j :: i <= j <= |s| ==> !TokenAt(s, j);
    } else if TokenAt(s, i) {
      TokenMatch(s, i);
    } else {
      SearchFromSpec(s, i + 1);
    }
  }

  /** Where the pattern matches, the greedy run of word characters after the
      prefix gives the match. */
  lemma TokenMatch(s: string, i: nat)
    requires TokenAt(s, i)
    ensures var e := WordEnd(s, i + |Prefix|);
      MatchesAt(s, Match(i, e, s[i..e], s[i + |Prefix|..e]))
  {
    var e := WordEnd(s, i + |Prefix|);
    assert e > i + |Prefix|;
  }

  /** `re.search` semantics: the match found is the leftmost one, and None
      means the pattern matches nowhere in s. */
  lemma SearchSpec(s: string)
    ensures Search(s).Some? ==> MatchesAt(s, Search(s).value)
    ensures Search(s).Some? ==> forall j :: 0 <= j < Search(s).value.start ==> !TokenAt(s, j)
    ensures Search(s).None? ==> forall j :: 0 <= j <= |s| ==> !TokenAt(s, j)
  {
    SearchFromSpec(s, 0);
  }

  /** Where the pattern matches, the match it yields is unique. */
  lemma {:induction false} MatchUnique(s: string, m: Match, m': Match)
    requires MatchesAt(s, m) && MatchesAt(s, m') && m.start == m'.start
    ensures m == m'
  {
  }

  /** Every match starts with '!', so stretches without '!' are skipped. */
  lemma {:induction false} SearchSkip(s: string, i: nat, k: nat)
    requires i <= k <= |s|
    requires forall j :: i <= j < k ==> s[j] != '!'
    ensures SearchFrom(s, i) == SearchFrom(s, k)
    decreases k - i
  {
    if i < k {
      assert !TokenAt(s, i) by {
        assert !SameIgnoringCase(s[i], Prefix[0]);
      }
      SearchSkip(s, i + 1, k);
    }
  }

  /** A run of n word characters from j ends at j + n when no word character follows. */
  lemma {:induction false} WordEndRun(s: string, j: nat, n: nat)
    requires j + n <= |s|
    requires forall k :: j <= k < j + n ==> IsWordChar(s[k])
    requires j + n == |s| || !IsWordChar(s[j + n])
    ensures WordEnd(s, j) == j + n
    decreases n
  {
    if n > 0 {
      WordEndRun(s, j + 1, n - 1);
    }
  }

  /** The token syntax: in a + p + key + b, where a holds no '!', p is the
      prefix in any letter case, key is a run of word characters and b does
      not continue it, the leftmost match is p + key and captures key. */
  lemma SearchToken(a: string, p: string, key: string, b: string)
    requires forall j :: 0 <= j < |a| ==> a[j] != '!'
    requires |p| == |Prefix| && forall k :: 0 <= k < |Prefix| ==> SameIgnoringCase(p[k], Prefix[k])
    requires |key| > 0 && forall j :: 0 <= j < |key| ==> IsWordChar(key[j])
    requires b == [] || !IsWordChar(b[0])
    ensures Search(a + p + key + b) == Some(Match(|a|, |a| + |p| + |key|, p + key, key))
  {
    var s := a + p + key + b;
    var i, e := |a|, |a| + |p| + |key|;
    forall j | 0 <= j < i ensures s[j] != '!' {
      assert s[j] == a[j];
    }
    TokenAtJoin(a, p, key, b);
    WordEndJoin(a, p, key, b);
    assert WordEnd(s, i + |Prefix|) == e;
    SearchAt(s, i);
    SliceJoin(a, p, key, b);
    assert s[i..e] == p + key && s[i + |Prefix|..e] == key;
  }

  /** The leftmost token, when nothing before it could start one. */
  lemma SearchAt(s: string, i: nat)
    requires TokenAt(s, i)
    requires forall j :: 0 <= j < i ==> s[j] != '!'
    ensures Search(s) == Some(Match(i, WordEnd(s, i + |Prefix|), s[i..WordEnd(s, i + |Prefix|)], s[i + |Prefix|..WordEnd(s, i + |Prefix|)]))
  {
    SearchSkip(s, 0, i);
  }

  lemma SliceJoin(a: string, p: string, key: string, b: string)
    ensures (a + p + key + b)[|a|..|a| + |p| + |key|] == p + key
    ensures (a + p + key + b)[|a| + |p|..|a| + |p| + |key|] == key
  {
  }

  lemma TokenAtJoin(a: string, p: string, key: string, b: string)
    requires |p| == |Prefix| && forall k :: 0 <= k < |Prefix| ==> SameIgnoringCase(p[k], Prefix[k])
    requires |key| > 0 && IsWordChar(key[0])
    ensures TokenAt(a + p + key + b, |a|)
  {
    var s := a + p + key + b;
    forall k | 0 <= k < |Prefix| ensures s[|a| + k] == p[k] {
    }
    assert s[|a| + |Prefix|] == key[0];
  }

  lemma WordEndJoin(a: string, p: string, key: string, b: string)
    requires |p| == |Prefix|
    requires forall j :: 0 <= j < |key| ==> IsWordChar(key[j])
    requires b == [] || !IsWordChar(b[0])
    ensures WordEnd(a + p + key + b, |a| + |p|) == |a| + |p| + |key|
  {
    var s := a + p + key + b;
    var e := |a| + |p| + |key|;
    forall k | |a| + |p| <= k < e ensures IsWordChar(s[k]) {
      assert s[k] == key[k - |a| - |p|];
    }
    assert e < |s| ==> s[e] == b[0];
    WordEndRun(s, |a| + |p|, |key|);
  }

  /** A string without '!' holds no token. */
  lemma NoBangNoMatch(s: string)
    requires forall j :: 0 <= j < |s| ==> s[j] != '!'
    ensures Search(s) == None
  {
    SearchSkip(s, 0, |s|);
  }

  /** Python's `s.replace(pat, rep)`: every non-overlapping occurrence of pat,
      scanning left to right, is replaced by rep. */
  function ReplaceAll(s: string, pat: string, rep: string): string
    requires |pat| > 0
    decreases |s|
  {
    if |s| < |pat| then s
    else if s[..|pat|] == pat then rep + ReplaceAll(s[|pat|..], pat, rep)
    else [s[0]] + ReplaceAll(s[1..], pat, rep)
  }

  predicate OccursAt(s: string, pat: string, i: nat) {
    i + |pat| <= |s| && s[i..i + |pat|] == pat
  }

  /** With no occurrence of pat, replacing leaves the string as it was. */
  lemma {:induction false} ReplaceAbsent(s: string, pat: string, rep: string)
    requires |pat| > 0
    requires forall i :: 0 <= i < |s| ==> !OccursAt(s, pat, i)
    ensures ReplaceAll(s, pat, rep) == s
    decreases |s|
  {
    if |s| >= |pat| {
      assert !OccursAt(s, pat, 0);
      assert s[..|pat|] != pat;
      forall i | 0 <= i < |s[1..]| ensures !OccursAt(s[1..], pat, i) {
        assert !OccursAt(s, pat, i + 1);
        if i + |pat| <= |s[1..]| {
          assert s[1..][i..i + |pat|] == s[i + 1..i + 1 + |pat|];
        }
      }
      ReplaceAbsent(s[1..], pat, rep);
      assert [s[0]] + s[1..] == s;
    }
  }

  /** A stretch that cannot start an occurrence is copied unchanged. */
  lemma {:induction false} ReplaceSkip(a: string, b: string, pat: string, rep: string)
    requires |pat| > 0
    requires forall j :: 0 <= j < |a| ==> a[j] != pat[0]
    ensures ReplaceAll(a + b, pat, rep) == a + ReplaceAll(b, pat, rep)
    decreases |a|
  {
    if a != [] {
      var s := a + b;
      if |s| >= |pat| {
        assert s[..|pat|][0] == a[0] != pat[0];
        assert ReplaceAll(s, pat, rep) == [s[0]] + ReplaceAll(s[1..], pat, rep);
        assert s[1..] == a[1..] + b;
        ReplaceSkip(a[1..], b, pat, rep);
        assert s[0] == a[0];
        assert [a[0]] + (a[1..] + ReplaceAll(b, pat, rep)) == a + ReplaceAll(b, pat, rep);
      } else {
        assert ReplaceAll(s, pat, rep) == s;
        assert ReplaceAll(b, pat, rep) == b;
      }
    } else {
      assert a + b == b;
    }
  }

  /** An occurrence at the front is replaced. */
  lemma ReplaceFront(pat: string, b: string, rep: string)
    requires |pat| > 0
    ensures ReplaceAll(pat + b, pat, rep) == rep + ReplaceAll(b, pat, rep)
  {
    var s := pat + b;
    assert s[..|pat|] == pat;
    assert s[|pat|..] == b;
  }

  /** A single occurrence of pat, with no other place where one could
      start, is replaced by rep. */
  lemma ReplaceSingle(a: string, pat: string, b: string, rep: string)
    requires |pat| > 0
    requires forall j :: 0 <= j < |a| ==> a[j] != pat[0]
    requires forall j :: 0 <= j < |b| ==> b[j] != pat[0]
    ensures ReplaceAll(a + pat + b, pat, rep) == a + rep + b
  {
    ReplaceSkip(b, [], pat, rep);
    assert b + [] == b;
    assert ReplaceAll([], pat, rep) == [];
    assert ReplaceAll(b, pat, rep) == b;
    ReplaceFront(pat, b, rep);
    ReplaceSkip(a, pat + b, pat, rep);
    assert a + pat + b == a + (pat + b);
    assert a + (rep + b) == a + rep + b;
  }

  /** The number of '!' in s. */
  function Bangs(s: string): nat {
    if s == [] then 0 else (if s[0] == '!' then 1 else 0) + Bangs(s[1..])
  }

  lemma {:induction false} BangsAppend(a: string, b: string)
    ensures Bangs(a + b) == Bangs(a) + Bangs(b)
  {
    if a == [] {
      assert a + b == b;
    } else {
      assert (a + b)[1..] == a[1..] + b;
      BangsAppend(a[1..], b);
    }
  }

  /** Replacing pat by a string with fewer '!' never adds a '!', and removes
      at least one when pat occurs. */
  lemma {:induction false} ReplaceBangs(s: string, pat: string, rep: string)
    requires |pat| > 0 && Bangs(rep) < Bangs(pat)
    ensures Bangs(ReplaceAll(s, pat, rep)) <= Bangs(s)
    ensures (exists i: nat :: OccursAt(s, pat, i)) ==> Bangs(ReplaceAll(s, pat, rep)) < Bangs(s)
    decreases |s|
  {
    if |s| < |pat| {
    } else if s[..|pat|] == pat {
      var t := s[|pat|..];
      assert s == pat + t;
      ReplaceBangs(t, pat, rep);
      BangsAppend(rep, ReplaceAll(t, pat, rep));
      BangsAppend(pat, t);
    } else {
      assert s == [s[0]] + s[1..];
      ReplaceBangs(s[1..], pat, rep);
      BangsAppend([s[0]], ReplaceAll(s[1..], pat, rep));
      BangsAppend([s[0]], s[1..]);
      if exists i: nat :: OccursAt(s, pat, i) {
        var i: nat :| OccursAt(s, pat, i);
        assert i != 0;
        assert s[1..][i - 1..i - 1 + |pat|] == s[i..i + |pat|];
        assert OccursAt(s[1..], pat, i - 1);
      }
    }
  }

  /** The text of a match begins with its '!' and occurs where it was found. */
  lemma MatchText(s: string, m: Match)
    requires MatchesAt(s, m)
    ensures OccursAt(s, m.text, m.start) && |m.text| > 0
    ensures Bangs(m.text) >= 1
  {
    assert SameIgnoringCase(s[m.start], Prefix[0]);
    assert m.text[0] == '!';
  }
}
