/**
 * The ASIN extractor of app/utils/utils.py: seven fixed URL patterns, tried in
 * list order; the first one that occurs anywhere in the URL (matching without
 * regard to case) decides, and the 10-character `[A-Z0-9]` token it captures is
 * returned upper-cased.  Each pattern is a fixed prefix, the captured token and
 * a fixed suffix, so it is matched here by a hand-written matcher rather than a
 * regular-expression engine.
 */
module AsinExtractor {
  import opened Wrappers

  /** Length of an ASIN token, the `{10}` of every pattern. */
  const AsinLength := 10

  /** One position of a fixed pattern: the characters it accepts (a literal character is a one-character atom). */
  type Atom = seq<char>

  /**
   * A pattern `before ([A-Z0-9]{10}) after`: the atoms before the captured token
   * and the atoms after it.
   */
  datatype Pattern = Pattern(before: seq<Atom>, after: seq<Atom>)

  /** ASCII lower-casing, the folding that `re.IGNORECASE` applies to ASCII letters. */
  function ToLower(c: char): char
  {
    if 'A' <= c <= 'Z' then (c as int - 'A' as int + 'a' as int) as char else c
  }

  /** ASCII upper-casing, as `str.upper()` acts on ASCII letters. */
  function ToUpper(c: char): char
  {
    if 'a' <= c <= 'z' then (c as int - 'a' as int + 'A' as int) as char else c
  }

  /** `str.upper()` on ASCII: each character keeps its letter, a token-class character becomes `[A-Z0-9]`. */
  function Upper(s: string): (r: string)
    ensures |r| == |s|
    ensures forall k :: 0 <= k < |s| ==> ToLower(r[k]) == ToLower(s[k])
    ensures forall k :: 0 <= k < |s| && InTokenClass(s[k]) ==> IsUpperAlnum(r[k])
  {
    seq(|s|, i requires 0 <= i < |s| => ToUpper(s[i]))
  }

  /** An upper-case ASCII letter or a decimal digit. */
  predicate IsUpperAlnum(c: char)
  {
    'A' <= c <= 'Z' || '0' <= c <= '9'
  }

  /** What `[A-Z0-9]` accepts under `re.IGNORECASE`. */
  predicate InTokenClass(c: char)
  {
    IsUpperAlnum(c) || 'a' <= c <= 'z'
  }

  /** An atom accepts `c` when one of its characters equals `c` ignoring case. */
  predicate AtomAccepts(a: Atom, c: char)
  {
    exists k :: 0 <= k < |a| && ToLower(a[k]) == ToLower(c)
  }

  // The seven patterns, in the order in which they are tried.
  const DpPattern := Pattern(["/", "d", "p", "/"], [])                                // /dp/(X)
  const GpProductPattern :=
    Pattern(["/", "g", "p", "/", "p", "r", "o", "d", "u", "c", "t", "/"], [])         // /gp/product/(X)
  const ProductPattern := Pattern(["/", "p", "r", "o", "d", "u", "c", "t", "/"], [])  // /product/(X)
  const DpSlashPattern := Pattern(["/", "d", "p", "/"], ["/"])                        // /dp/(X)/
  const SlashedPattern := Pattern(["/"], ["/"])                                       // /(X)/
  const AsinParamPattern := Pattern(["/?&", "a", "s", "i", "n", "="], [])             // [/?&]asin=(X)
  const PdRdIParamPattern :=
    Pattern(["/?&", "p", "d", "_", "r", "d", "_", "i", "="], [])                       // [/?&]pd_rd_i=(X)

  const Patterns: seq<Pattern> :=
    [DpPattern, GpProductPattern, ProductPattern, DpSlashPattern,
     SlashedPattern, AsinParamPattern, PdRdIParamPattern]

  /** Every atom of `atoms` accepts the character of `s` it is laid over, starting at `i`. */
  predicate AtomsAt(atoms: seq<Atom>, s: string, i: nat)
  {
    i + |atoms| <= |s| && forall k :: 0 <= k < |atoms| ==> AtomAccepts(atoms[k], s[i + k])
  }

  /** `s` holds a 10-character token of the class at `i`. */
  predicate TokenAt(s: string, i: nat)
  {
    i + AsinLength <= |s| && forall k :: i <= k < i + AsinLength ==> InTokenClass(s[k])
  }

  /** Pattern `p` matches `s` at position `i`. */
  predicate MatchesAt(p: Pattern, s: string, i: nat)
  {
    && AtomsAt(p.before, s, i)
    && TokenAt(s, i + |p.before|)
    && AtomsAt(p.after, s, i + |p.before| + AsinLength)
  }

  /** `re.search` succeeds: the pattern matches at some position. */
  predicate Matches(p: Pattern, s: string)
  {
    exists i: nat :: i <= |s| && MatchesAt(p, s, i)
  }

  /** `i` is the leftmost position where `p` matches `s`. */
  predicate LeftmostAt(p: Pattern, s: string, i: nat)
  {
    i <= |s| && MatchesAt(p, s, i) && forall j: nat :: j < i ==> !MatchesAt(p, s, j)
  }

  /** What group 1 of a match at `i` captures. */
  function CaptureAt(p: Pattern, s: string, i: nat): (r: string)
    requires MatchesAt(p, s, i)
    ensures |r| == AsinLength
    ensures forall k :: 0 <= k < |r| ==> InTokenClass(r[k])
  {
    s[i + |p.before| .. i + |p.before| + AsinLength]
  }

  /** Scans for a match from position `i` rightwards, as `re.search` does. */
  function SearchFrom(p: Pattern, s: string, i: nat): (r: Option<nat>)
    requires i <= |s|
    requires forall j: nat :: j < i ==> !MatchesAt(p, s, j)
    decreases |s| - i
    ensures r.Some? ==> LeftmostAt(p, s, r.value)
    ensures r.None? <==> !Matches(p, s)
  {
    if MatchesAt(p, s, i) then Some(i)
    else if i == |s| then None
    else SearchFrom(p, s, i + 1)
  }

  /** The position of the leftmost match of `p` in `s`, if any. */
  function Search(p: Pattern, s: string): (r: Option<nat>)
    ensures r.Some? ==> LeftmostAt(p, s, r.value)
    ensures r.None? <==> !Matches(p, s)
  {
    SearchFrom(p, s, 0)
  }

  /** The for-loop over the pattern list, with its early return. */
  function ExtractWith(pats: seq<Pattern>, url: string): (r: Option<string>)
    ensures r.Some? ==> |r.value| == AsinLength && forall k :: 0 <= k < |r.value| ==> IsUpperAlnum(r.value[k])
    ensures r.None? <==> forall k :: 0 <= k < |pats| ==> !Matches(pats[k], url)
  {
    if pats == [] then None
    else match Search(pats[0], url)
      case Some(i) => Some(Upper(CaptureAt(pats[0], url, i)))
      case None => ExtractWith(pats[1..], url)
  }

  /** `extract_asin_from_amazon_url`. */
  function ExtractAsin(url: string): (r: Option<string>)
    ensures r.Some? ==> |r.value| == AsinLength && forall k :: 0 <= k < AsinLength ==> IsUpperAlnum(r.value[k])
    ensures r.None? <==> forall k :: 0 <= k < |Patterns| ==> !Matches(Patterns[k], url)
  {
    ExtractWith(Patterns, url)
  }

  /** Pattern `k` is the first in `pats` that matches `url`, and `i` is its leftmost match. */
  ghost predicate DecidingMatch(pats: seq<Pattern>, url: string, k: nat, i: nat)
  {
    && k < |pats|
    && LeftmostAt(pats[k], url, i)
    && forall j :: 0 <= j < k ==> !Matches(pats[j], url)
  }

  /** The first matching pattern decides, whatever later patterns would match. */
  lemma {:induction false} FirstMatchDecides(pats: seq<Pattern>, url: string, k: nat, i: nat)
    requires DecidingMatch(pats, url, k, i)
    ensures ExtractWith(pats, url) == Some(Upper(CaptureAt(pats[k], url, i)))
  {
    if k == 0 {
      LeftmostUnique(pats[0], url, Search(pats[0], url).value, i);
    } else {
      assert !Matches(pats[0], url);
      assert DecidingMatch(pats[1..], url, k - 1, i) by {
        forall j | 0 <= j < k - 1 ensures !Matches(pats[1..][j], url) {
          assert pats[1..][j] == pats[j + 1];
        }
      }
      FirstMatchDecides(pats[1..], url, k - 1, i);
    }
  }

  lemma LeftmostUnique(p: Pattern, s: string, i: nat, j: nat)
    requires LeftmostAt(p, s, i) && LeftmostAt(p, s, j)
    ensures i == j
  {
  }

  /** A match of `/dp/X/` at `i` is a match of `/dp/X` at `i`. */
  lemma DpSlashImpliesDp(s: string, i: nat)
    requires MatchesAt(DpSlashPattern, s, i)
    ensures MatchesAt(DpPattern, s, i)
  {
  }

  /** Dropping a pattern that does not match leaves the result unchanged. */
  lemma {:induction false} DropNonMatching(pats: seq<Pattern>, url: string, k: nat)
    requires k < |pats|
    requires !Matches(pats[k], url)
    ensures ExtractWith(pats, url) == ExtractWith(pats[..k] + pats[k + 1..], url)
  {
    var rest := pats[..k] + pats[k + 1..];
    if k == 0 {
      assert rest == pats[1..];
    } else {
      assert rest[0] == pats[0];
      if Search(pats[0], url).None? {
        assert rest[1..] == pats[1..][..k - 1] + pats[1..][k..];
        DropNonMatching(pats[1..], url, k - 1);
      }
    }
  }

  /** Two pattern lists with the same matching head give the same result. */
  lemma SameMatchingHead(pats: seq<Pattern>, other: seq<Pattern>, url: string)
    requires pats != [] && other != [] && pats[0] == other[0]
    requires Matches(pats[0], url)
    ensures ExtractWith(pats, url) == ExtractWith(other, url)
  {
  }

  /** Pattern 4 (`/dp/X/`) never decides the result: the list without it gives the same answers. */
  lemma DpSlashNeverDecides(url: string)
    ensures ExtractAsin(url) == ExtractWith(Patterns[..3] + Patterns[4..], url)
  {
    var rest := Patterns[..3] + Patterns[4..];
    assert Patterns[3] == DpSlashPattern && Patterns[0] == DpPattern && rest[0] == DpPattern;
    if Matches(DpSlashPattern, url) {
      var i: nat :| i <= |url| && MatchesAt(DpSlashPattern, url, i);
      DpSlashImpliesDp(url, i);
      SameMatchingHead(Patterns, rest, url);
    } else {
      DropNonMatching(Patterns, url, 3);
    }
  }

  /** The leftmost match of the first pattern decides the result. */
  lemma DpDecides(url: string, i: nat, asin: string)
    requires LeftmostAt(DpPattern, url, i)
    requires Upper(url[i + 4..i + 4 + AsinLength]) == asin
    ensures ExtractAsin(url) == Some(asin)
  {
    assert DecidingMatch(Patterns, url, 0, i);
    FirstMatchDecides(Patterns, url, 0, i);
  }

  /** Matching ignores case and the token comes back upper-cased. */
  lemma MixedCaseDp(url: string)
    requires url == "/DP/b0abcdefgh"
    ensures ExtractAsin(url) == Some("B0ABCDEFGH")
  {
    assert LeftmostAt(DpPattern, url, 0) by { MixedCaseDpMatches(url); }
    assert Upper(url[4..14]) == "B0ABCDEFGH" by { UpperOfMixedCaseToken(url[4..14]); }
    DpDecides(url, 0, "B0ABCDEFGH");
  }

  /** `/dp/` matches `/DP/` when case is ignored. */
  lemma MixedCaseDpMatches(url: string)
    requires url == "/DP/b0abcdefgh"
    ensures LeftmostAt(DpPattern, url, 0)
  {
    assert AtomAccepts(DpPattern.before[0], url[0]) by { assert DpPattern.before[0][0] == url[0]; }
    assert AtomAccepts(DpPattern.before[1], url[1]) by { assert ToLower(DpPattern.before[1][0]) == ToLower(url[1]); }
    assert AtomAccepts(DpPattern.before[2], url[2]) by { assert ToLower(DpPattern.before[2][0]) == ToLower(url[2]); }
    assert AtomAccepts(DpPattern.before[3], url[3]) by { assert DpPattern.before[3][0] == url[3]; }
    assert TokenAt(url, 4);
  }

  lemma UpperOfMixedCaseToken(token: string)
    requires token == "b0abcdefgh"
    ensures Upper(token) == "B0ABCDEFGH"
  {
    var u := Upper(token);
    assert u[0] == 'B' && u[1] == '0' && u[2] == 'A' && u[3] == 'B' && u[4] == 'C';
    assert u[5] == 'D' && u[6] == 'E' && u[7] == 'F' && u[8] == 'G' && u[9] == 'H';
  }

  /** Every pattern needs a character before the token, so a URL of at most 10 characters has no ASIN. */
  lemma ShortUrlHasNoAsin(url: string)
    requires |url| <= AsinLength
    ensures ExtractAsin(url) == None
  {
    forall k | 0 <= k < |Patterns|
      ensures !Matches(Patterns[k], url)
    {
      assert |Patterns[k].before| >= 1;
    }
  }

  /**
   * Pattern order beats position: in this URL `/X/` matches at the very start
   * (SlashedInExample), but `/dp/X` is tried first and decides.
   */
  lemma DpBeatsEarlierSlashed(url: string)
    requires url == "/B000000001/dp/B000000002"
    ensures ExtractAsin(url) == Some("B000000002")
  {
    assert LeftmostAt(DpPattern, url, 11) by { LeftmostDpInExample(url); }
    assert Upper(url[15..25]) == "B000000002" by { UpperOfUpperToken(url[15..25]); }
    DpDecides(url, 11, "B000000002");
  }

  lemma UpperOfUpperToken(token: string)
    requires token == "B000000002"
    ensures Upper(token) == "B000000002"
  {
    var u := Upper(token);
    assert u[0] == 'B' && u[1] == '0' && u[2] == '0' && u[3] == '0' && u[4] == '0';
    assert u[5] == '0' && u[6] == '0' && u[7] == '0' && u[8] == '0' && u[9] == '2';
  }

  /** Pattern 5 (`/X/`) matches the example URL at position 0. */
  lemma SlashedInExample(url: string)
    requires url == "/B000000001/dp/B000000002"
    ensures MatchesAt(SlashedPattern, url, 0)
  {
    assert AtomAccepts(SlashedPattern.before[0], url[0]) by { assert SlashedPattern.before[0][0] == url[0]; }
    assert TokenAt(url, 1);
    assert AtomAccepts(SlashedPattern.after[0], url[11]) by { assert SlashedPattern.after[0][0] == url[11]; }
  }

  /** Pattern 1 (`/dp/X`) first matches the example URL at position 11. */
  lemma LeftmostDpInExample(url: string)
    requires url == "/B000000001/dp/B000000002"
    ensures LeftmostAt(DpPattern, url, 11)
  {
    assert MatchesAt(DpPattern, url, 11) by {
      assert AtomAccepts(DpPattern.before[0], url[11]) by { assert DpPattern.before[0][0] == url[11]; }
      assert AtomAccepts(DpPattern.before[1], url[12]) by { assert DpPattern.before[1][0] == url[12]; }
      assert AtomAccepts(DpPattern.before[2], url[13]) by { assert DpPattern.before[2][0] == url[13]; }
      assert AtomAccepts(DpPattern.before[3], url[14]) by { assert DpPattern.before[3][0] == url[14]; }
      assert TokenAt(url, 15);
    }
    forall j: nat | j < 11
      ensures !MatchesAt(DpPattern, url, j)
    {
      assert url[j + 1] != 'd' && url[j + 1] != 'D';
      assert !AtomAccepts(DpPattern.before[1], url[j + 1]);
    }
  }
}
