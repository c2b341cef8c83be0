/**
 * The per-language accumulator: a `defaultdict(int)` from language name to
 * line count that every accepted, readable file adds its count to.
 */
module LanguageCounts {

  /** What one accepted, fully read file adds: its language and its code-line count. */
  datatype Contribution = Contribution(language: string, lines: nat)

  /** Reading a `defaultdict(int)`: a missing key reads as 0. */
  function Get(counts: map<string, nat>, language: string): nat
  {
    if language in counts then counts[language] else 0
  }

  /** `counts[language] += n` on a `defaultdict(int)`. */
  function Bump(counts: map<string, nat>, language: string, n: nat): (r: map<string, nat>)
    ensures r.Keys == counts.Keys + {language}
    ensures r[language] == Get(counts, language) + n
    ensures forall l :: l in counts && l != language ==> r[l] == counts[l]
  {
    counts[language := Get(counts, language) + n]
  }

  /** The accumulator after adding the contributions in order, starting empty. */
  function Tally(cs: seq<Contribution>): (counts: map<string, nat>)
  {
    if cs == [] then map[]
    else
      var last := cs[|cs| - 1];
      Bump(Tally(cs[..|cs| - 1]), last.language, last.lines)
  }

  /** The languages that at least one contribution names. */
  function Languages(cs: seq<Contribution>): set<string>
  {
    set k | 0 <= k < |cs| :: cs[k].language
  }

  /** The lines contributed to `language`. */
  function LanguageSum(cs: seq<Contribution>, language: string): nat
  {
    if cs == [] then 0
    else
      var last := cs[|cs| - 1];
      LanguageSum(cs[..|cs| - 1], language) + (if last.language == language then last.lines else 0)
  }

  /** The lines contributed in all. */
  function LinesSum(cs: seq<Contribution>): nat
  {
    if cs == [] then 0 else LinesSum(cs[..|cs| - 1]) + cs[|cs| - 1].lines
  }

  /** The sum of the values of a map, taken in no particular order. */
  ghost function MapSum(m: map<string, nat>): nat
    decreases |m|
  {
    if m == map[] then 0
    else
      var k :| k in m;
      m[k] + MapSum(m - {k})
  }

  /** `sum(counts[k] for k in keys)`, with missing keys reading as 0. */
  function SumOver(counts: map<string, nat>, keys: seq<string>): nat
  {
    if keys == [] then 0 else Get(counts, keys[0]) + SumOver(counts, keys[1..])
  }

  /** The accumulator has a key for exactly the languages some contribution names. */
  lemma {:induction false} TallyKeys(cs: seq<Contribution>)
    ensures Tally(cs).Keys == Languages(cs)
  {
    if cs != [] {
      var front := cs[..|cs| - 1];
      TallyKeys(front);
      assert Languages(cs) == Languages(front) + {cs[|cs| - 1].language} by {
        forall l | l in Languages(cs) ensures l in Languages(front) + {cs[|cs| - 1].language} {
          var k :| 0 <= k < |cs| && cs[k].language == l;
          if k < |cs| - 1 {
            assert front[k] == cs[k];
          }
        }
        forall l | l in Languages(front) ensures l in Languages(cs) {
          var k :| 0 <= k < |front| && front[k].language == l;
          assert cs[k] == front[k];
        }
      }
    }
  }

  /** Each language's entry is the sum of the lines contributed to it (0 when none was). */
  lemma {:induction false} TallyValues(cs: seq<Contribution>, language: string)
    ensures Get(Tally(cs), language) == LanguageSum(cs, language)
  {
    if cs != [] {
      TallyValues(cs[..|cs| - 1], language);
    }
  }

  /** Splitting the contributions splits each language's sum. */
  lemma {:induction false} LanguageSumAppend(a: seq<Contribution>, b: seq<Contribution>, language: string)
    ensures LanguageSum(a + b, language) == LanguageSum(a, language) + LanguageSum(b, language)
  {
    if b != [] {
      assert (a + b)[..|a + b| - 1] == a + b[..|b| - 1];
      LanguageSumAppend(a, b[..|b| - 1], language);
    } else {
      assert a + b == a;
    }
  }

  /** A language the contributions never name has sum 0. */
  lemma {:induction false} LanguageSumUnnamed(cs: seq<Contribution>, language: string)
    requires language !in Languages(cs)
    ensures LanguageSum(cs, language) == 0
  {
    if cs != [] {
      var front := cs[..|cs| - 1];
      assert Languages(front) <= Languages(cs) by {
        forall l | l in Languages(front) ensures l in Languages(cs) {
          var k :| 0 <= k < |front| && front[k].language == l;
          assert cs[k] == front[k];
        }
      }
      assert cs[|cs| - 1].language in Languages(cs);
      LanguageSumUnnamed(front, language);
    }
  }

  /**
   * Matching the last contribution of `a` with an equal one in `b`: the rest
   * of `a` is a permutation of `b` without it.
   */
  lemma MatchLast<T>(a: seq<T>, b: seq<T>) returns (i: nat)
    requires a != [] && multiset(a) == multiset(b)
    ensures i < |b| && b[i] == a[|a| - 1]
    ensures b == b[..i] + [b[i]] + b[i + 1..]
    ensures multiset(a[..|a| - 1]) == multiset(b[..i] + b[i + 1..])
  {
    var x, front := a[|a| - 1], a[..|a| - 1];
    assert multiset(a) == multiset(front) + multiset{x} by {
      assert a == front + [x];
    }
    assert x in multiset(b);
    i :| 0 <= i < |b| && b[i] == x;
    var before, after := b[..i], b[i + 1..];
    assert b == before + [x] + after;
    assert multiset(b) == multiset(before + after) + multiset{x} by {
      assert multiset(before + [x] + after) == multiset(before) + multiset{x} + multiset(after);
    }
    MultisetCancel(multiset(front), multiset(before + after), x);
  }

  lemma MultisetCancel<T>(p: multiset<T>, q: multiset<T>, x: T)
    requires p + multiset{x} == q + multiset{x}
    ensures p == q
  {
    assert p == p + multiset{x} - multiset{x};
    assert q == q + multiset{x} - multiset{x};
  }

  /** The languages named depend only on which contributions there are, not their order. */
  lemma LanguagesPermutation(a: seq<Contribution>, b: seq<Contribution>)
    requires multiset(a) == multiset(b)
    ensures Languages(a) == Languages(b)
  {
    forall l | l in Languages(a) ensures l in Languages(b) {
      var k :| 0 <= k < |a| && a[k].language == l;
      assert a[k] in multiset(b);
    }
    forall l | l in Languages(b) ensures l in Languages(a) {
      var k :| 0 <= k < |b| && b[k].language == l;
      assert b[k] in multiset(a);
    }
  }

  /** A language's sum does not depend on the order of the contributions. */
  lemma {:induction false} LanguageSumPermutation(a: seq<Contribution>, b: seq<Contribution>, language: string)
    requires multiset(a) == multiset(b)
    ensures LanguageSum(a, language) == LanguageSum(b, language)
    decreases |a|
  {
    if a == [] {
      assert b == [];
    } else {
      var i := MatchLast(a, b);
      var before, after := b[..i], b[i + 1..];
      LanguageSumPermutation(a[..|a| - 1], before + after, language);
      LanguageSumAppend(before + [b[i]], after, language);
      LanguageSumAppend(before, [b[i]], language);
      LanguageSumAppend(before, after, language);
      assert [b[i]][..0] == [];
    }
  }

  /**
   * The order in which files are met does not matter: any reordering of the
   * contributions gives the same accumulator.
   */
  lemma TallyPermutation(a: seq<Contribution>, b: seq<Contribution>)
    requires multiset(a) == multiset(b)
    ensures Tally(a) == Tally(b)
  {
    TallyKeys(a);
    TallyKeys(b);
    LanguagesPermutation(a, b);
    forall l | l in Tally(a) ensures Tally(a)[l] == Tally(b)[l] {
      TallyValues(a, l);
      TallyValues(b, l);
      LanguageSumPermutation(a, b, l);
    }
  }

  /** Removing any one key takes exactly its value off the sum. */
  lemma {:induction false} MapSumRemove(m: map<string, nat>, k: string)
    requires k in m
    ensures MapSum(m) == m[k] + MapSum(m - {k})
    decreases |m|
  {
    var j :| j in m && MapSum(m) == m[j] + MapSum(m - {j});
    if j != k {
      var mj := m - {j};
      var mk := m - {k};
      MapSumRemove(mj, k);
      MapSumRemove(mk, j);
      assert mj - {k} == mk - {j};
    }
  }

  /** Adding `n` to one entry adds `n` to the sum. */
  lemma BumpSum(counts: map<string, nat>, language: string, n: nat)
    ensures MapSum(Bump(counts, language, n)) == MapSum(counts) + n
  {
    var r := Bump(counts, language, n);
    MapSumRemove(r, language);
    assert r - {language} == counts - {language};
    if language in counts {
      MapSumRemove(counts, language);
    } else {
      assert counts - {language} == counts;
    }
  }

  /** The sum of all entries is the number of lines contributed in all. */
  lemma {:induction false} TallyTotal(cs: seq<Contribution>)
    ensures MapSum(Tally(cs)) == LinesSum(cs)
  {
    if cs != [] {
      var last := cs[|cs| - 1];
      TallyTotal(cs[..|cs| - 1]);
      BumpSum(Tally(cs[..|cs| - 1]), last.language, last.lines);
    }
  }

  /** Summing over any duplicate-free listing of the keys gives the map's sum. */
  lemma {:induction false} SumOverListing(counts: map<string, nat>, keys: seq<string>)
    requires forall i, j :: 0 <= i < j < |keys| ==> keys[i] != keys[j]
    requires (set k | k in keys) == counts.Keys
    ensures SumOver(counts, keys) == MapSum(counts)
  {
    if keys != [] {
      var k := keys[0];
      var rest := counts - {k};
      assert (set x | x in keys[1..]) == rest.Keys by {
        forall x | x in keys[1..] ensures x in rest.Keys {
          var i :| 1 <= i < |keys| && keys[i] == x;
        }
        forall x | x in rest.Keys ensures x in keys[1..] {
          assert x in keys;
          var i :| 0 <= i < |keys| && keys[i] == x;
          assert keys[1..][i - 1] == x;
        }
      }
      SumOverListing(rest, keys[1..]);
      SumOverSkips(counts, k, keys[1..]);
      MapSumRemove(counts, k);
    } else {
      assert counts.Keys == {};
      assert counts == map[];
    }
  }

  /** A key absent from the listing does not affect its sum. */
  lemma {:induction false} SumOverSkips(counts: map<string, nat>, k: string, keys: seq<string>)
    requires k !in keys
    ensures SumOver(counts - {k}, keys) == SumOver(counts, keys)
  {
    if keys != [] {
      SumOverSkips(counts, k, keys[1..]);
    }
  }
}
