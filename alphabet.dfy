/**
 * CreateRandomAlphabet: the Fisher–Yates shuffle of a fixed base alphabet,
 * in three copies (internal/cfg/utils.go with a 52-rune base;
 * internal/utils/config.go and internal/utils/codec.go with a 31-rune base).
 *
 * The random source is an argument: `picks[t]` is what `rand.Intn(i + 1)`
 * returned at step `t`, the step that handles index `i = n - 1 - t`.
 */
module Alphabet {
  import opened Common

  /** The base of internal/cfg/utils.go, written in ascending runs. */
  const CfgBase: string := "23456789" + "abcdefghijk" + "mnoprstuv" + "wxyz" + "ACDEFHJKL" + "MNPQRTUVWXY"

  /** The base of internal/utils/config.go and internal/utils/codec.go, written in ascending runs. */
  const UtilsBase: string := "abcdefghjk" + "mnpqrstuv" + "wxyz" + "23456789"

  /** Each rune is below the next one in code-point order. */
  predicate Ascending(s: seq<char>)
  {
    forall i | 0 <= i < |s| - 1 :: s[i] < s[i + 1]
  }

  /** Two ascending runs, the first ending below where the second starts, make one ascending run. */
  lemma AscendingConcat(a: seq<char>, b: seq<char>)
    requires Ascending(a) && Ascending(b)
    requires |a| > 0 && |b| > 0 && a[|a| - 1] < b[0]
    ensures Ascending(a + b)
  {
    var c := a + b;
    forall i | 0 <= i < |c| - 1 ensures c[i] < c[i + 1] {
      if i < |a| - 1 {
        assert c[i] == a[i] && c[i + 1] == a[i + 1];
      } else if i == |a| - 1 {
        assert c[i] == a[i] && c[i + 1] == b[0];
      } else {
        assert c[i] == b[i - |a|] && c[i + 1] == b[i + 1 - |a|];
      }
    }
  }

  /** An ascending run has no repeated rune. */
  lemma {:induction false} AscendingIsDistinct(s: seq<char>)
    requires Ascending(s)
    ensures forall i, j | 0 <= i < j < |s| :: s[i] < s[j]
    ensures NoDuplicates(s)
  {
    if |s| > 1 {
      var rest := s[1..];
      assert Ascending(rest) by {
        forall i | 0 <= i < |rest| - 1 ensures rest[i] < rest[i + 1] {
          assert rest[i] == s[i + 1] && rest[i + 1] == s[i + 2];
        }
      }
      AscendingIsDistinct(rest);
      forall i, j | 0 <= i < j < |s| ensures s[i] < s[j] {
        assert s[j] == rest[j - 1];
        if i == 0 {
          assert s[1] == rest[0];
        } else {
          assert s[i] == rest[i - 1];
        }
      }
    }
  }

  /** Two runs without repeats and without a rune in common make a run without repeats. */
  lemma DisjointConcat(a: seq<char>, b: seq<char>)
    requires NoDuplicates(a) && NoDuplicates(b)
    requires forall i, j | 0 <= i < |a| && 0 <= j < |b| :: a[i] != b[j]
    ensures NoDuplicates(a + b)
  {
    var c := a + b;
    forall i, j | 0 <= i < j < |c| ensures c[i] != c[j] {
      if j < |a| {
        assert c[i] == a[i] && c[j] == a[j];
      } else if i < |a| {
        assert c[i] == a[i] && c[j] == b[j - |a|];
      } else {
        assert c[i] == b[i - |a|] && c[j] == b[j - |a|];
      }
    }
  }

  /** A run of `rand.Intn` results the shuffle of `n` runes can receive: one per index from n-1 down to 1, each in `[0, i]`. */
  predicate ValidPicks(n: nat, picks: seq<nat>)
  {
    && |picks| == (if n == 0 then 0 else n - 1)
    && forall t | 0 <= t < |picks| :: picks[t] <= n - 1 - t
  }

  /** The runes with positions `i` and `j` exchanged. */
  function Swap(s: seq<char>, i: nat, j: nat): (r: seq<char>)
    requires i < |s| && j < |s|
    ensures |r| == |s|
  {
    seq(|s|, k requires 0 <= k < |s| => if k == j then s[i] else if k == i then s[j] else s[k])
  }

  /** The swap is Go's parallel assignment `runes[i], runes[j] = runes[j], runes[i]`. */
  lemma SwapIsUpdate(s: seq<char>, i: nat, j: nat)
    requires i < |s| && j < |s|
    ensures Swap(s, i, j) == s[i := s[j]][j := s[i]]
  {
  }

  /** The runes after the first `t` steps of the shuffle. */
  function Shuffled(s: seq<char>, picks: seq<nat>, t: nat): (r: seq<char>)
    requires ValidPicks(|s|, picks) && t <= |picks|
    ensures |r| == |s|
  {
    if t == 0 then s else Swap(Shuffled(s, picks, t - 1), |s| - t, picks[t - 1])
  }

  lemma SwapPermutes(s: seq<char>, i: nat, j: nat)
    requires i < |s| && j < |s|
    ensures multiset(Swap(s, i, j)) == multiset(s)
  {
    SwapIsUpdate(s, i, j);
    if i != j {
      assert multiset(s[i := s[j]]) == multiset(s) - multiset{s[i]} + multiset{s[j]};
    }
  }

  lemma SwapKeepsDistinct(s: seq<char>, i: nat, j: nat)
    requires i < |s| && j < |s| && NoDuplicates(s)
    ensures NoDuplicates(Swap(s, i, j))
  {
    var r := Swap(s, i, j);
    forall p, q | 0 <= p < q < |r| ensures r[p] != r[q] {
      var p' := if p == i then j else if p == j then i else p;
      var q' := if q == i then j else if q == j then i else q;
      assert r[p] == s[p'] && r[q] == s[q'] && p' != q';
    }
  }

  /** One step of the shuffle only swaps two runes. */
  lemma ShuffleStepPermutes(s: seq<char>, picks: seq<nat>, t: nat)
    requires ValidPicks(|s|, picks) && 0 < t <= |picks|
    ensures multiset(Shuffled(s, picks, t)) == multiset(Shuffled(s, picks, t - 1))
  {
    SwapPermutes(Shuffled(s, picks, t - 1), |s| - t, picks[t - 1]);
  }

  /** Every prefix of the shuffle is a rearrangement of the base runes. */
  lemma {:induction false} ShufflePermutes(s: seq<char>, picks: seq<nat>, t: nat)
    requires ValidPicks(|s|, picks) && t <= |picks|
    ensures multiset(Shuffled(s, picks, t)) == multiset(s)
  {
    if t > 0 {
      ShufflePermutes(s, picks, t - 1);
      ShuffleStepPermutes(s, picks, t);
    }
  }

  /** A base without repeated runes stays without repeated runes. */
  lemma {:induction false} ShuffleKeepsDistinct(s: seq<char>, picks: seq<nat>, t: nat)
    requires ValidPicks(|s|, picks) && t <= |picks| && NoDuplicates(s)
    ensures NoDuplicates(Shuffled(s, picks, t))
  {
    if t > 0 {
      ShuffleKeepsDistinct(s, picks, t - 1);
      SwapKeepsDistinct(Shuffled(s, picks, t - 1), |s| - t, picks[t - 1]);
    }
  }

  /**
   * The in-place loop: for i from len-1 down to 1, swap runes[i] with
   * runes[picks[t]], an index in [0, i].
   */
  method Shuffle(a: array<char>, picks: seq<nat>)
    requires ValidPicks(a.Length, picks)
    modifies a
    ensures a[..] == Shuffled(old(a[..]), picks, |picks|)
  {
    ghost var s := a[..];
    var i := a.Length - 1;
    var t := 0;
    while i > 0
      invariant -1 <= i < a.Length
      invariant t == a.Length - 1 - i && t <= |picks|
      invariant a[..] == Shuffled(s, picks, t)
    {
      var j := picks[t];
      SwapIsUpdate(a[..], i, j);
      a[i], a[j] := a[j], a[i];
      i := i - 1;
      t := t + 1;
    }
  }

  /** The shuffle of `base` driven by `picks`, as a fresh string. */
  method CreateRandomAlphabet(base: string, picks: seq<nat>) returns (alphabet: string)
    requires ValidPicks(|base|, picks)
    ensures alphabet == Shuffled(base, picks, |picks|)
    ensures |alphabet| == |base| && multiset(alphabet) == multiset(base)
  {
    var runes := new char[|base|](i requires 0 <= i < |base| => base[i]);
    assert runes[..] == base;
    Shuffle(runes, picks);
    alphabet := runes[..];
    ShufflePermutes(base, picks, |picks|);
  }

  /**
   * Four ascending runs that follow on from each other, the first ending
   * below 'A' and the second starting above 'Z', then two more ascending runs
   * inside 'A'..'Z': no rune repeats. This is the shape of CfgBase.
   */
  lemma CfgShapeIsDistinct(r1: seq<char>, r2: seq<char>, r3: seq<char>, r4: seq<char>, r5: seq<char>, r6: seq<char>)
    requires |r1| > 0 && |r2| > 0 && |r3| > 0 && |r4| > 0 && |r5| > 0 && |r6| > 0
    requires Ascending(r1) && Ascending(r2) && Ascending(r3) && Ascending(r4) && Ascending(r5) && Ascending(r6)
    requires Last(r1) < r2[0] && Last(r2) < r3[0] && Last(r3) < r4[0] && Last(r5) < r6[0]
    requires Last(r1) < 'A' && 'Z' < r2[0] && 'A' <= r5[0] && Last(r6) <= 'Z'
    ensures NoDuplicates(r1 + r2 + r3 + r4 + r5 + r6)
  {
    AscendingConcat(r1, r2);
    AscendingConcat(r1 + r2, r3);
    AscendingConcat(r1 + r2 + r3, r4);
    AscendingConcat(r5, r6);
    var lower := r1 + r2 + r3 + r4;
    var upper := r5 + r6;
    AscendingIsDistinct(lower);
    AscendingIsDistinct(upper);
    var n := |r1|;
    assert lower[n - 1] == Last(r1) && lower[n] == r2[0];
    forall i | 0 <= i < |lower| ensures !('A' <= lower[i] <= 'Z') {
      if i < n - 1 {
        assert lower[i] < lower[n - 1];
      } else if i > n {
        assert lower[n] < lower[i];
      }
    }
    assert upper[0] == r5[0] && upper[|upper| - 1] == Last(r6);
    forall j | 0 <= j < |upper| ensures 'A' <= upper[j] <= 'Z' {
      if 0 < j < |upper| - 1 {
        assert upper[0] < upper[j] < upper[|upper| - 1];
      }
    }
    DisjointConcat(lower, upper);
    assert r1 + r2 + r3 + r4 + r5 + r6 == lower + upper;
  }

  /**
   * Three ascending runs that follow on from each other inside 'a'..'z', then
   * an ascending run inside '0'..'9': no rune repeats. This is the shape of
   * UtilsBase.
   */
  lemma UtilsShapeIsDistinct(r1: seq<char>, r2: seq<char>, r3: seq<char>, r4: seq<char>)
    requires |r1| > 0 && |r2| > 0 && |r3| > 0 && |r4| > 0
    requires Ascending(r1) && Ascending(r2) && Ascending(r3) && Ascending(r4)
    requires Last(r1) < r2[0] && Last(r2) < r3[0]
    requires 'a' <= r1[0] && Last(r3) <= 'z' && '0' <= r4[0] && Last(r4) <= '9'
    ensures NoDuplicates(r1 + r2 + r3 + r4)
  {
    AscendingConcat(r1, r2);
    AscendingConcat(r1 + r2, r3);
    var lower := r1 + r2 + r3;
    AscendingIsDistinct(lower);
    AscendingIsDistinct(r4);
    assert lower[0] == r1[0] && lower[|lower| - 1] == Last(r3);
    forall i | 0 <= i < |lower| ensures 'a' <= lower[i] <= 'z' {
      if 0 < i < |lower| - 1 {
        assert lower[0] < lower[i] < lower[|lower| - 1];
      }
    }
    forall j | 0 <= j < |r4| ensures '0' <= r4[j] <= '9' {
      if 0 < j < |r4| - 1 {
        assert r4[0] < r4[j] < r4[|r4| - 1];
      }
    }
    DisjointConcat(lower, r4);
  }

  /** Each run of CfgBase ascends on its own. */
  lemma CfgRunsAscend()
    ensures Ascending("23456789") && Ascending("abcdefghijk") && Ascending("mnoprstuv")
    ensures Ascending("wxyz") && Ascending("ACDEFHJKL") && Ascending("MNPQRTUVWXY")
  {
  }

  lemma CfgBaseIsDistinct()
    ensures |CfgBase| == 52 && NoDuplicates(CfgBase)
  {
    CfgRunsAscend();
    CfgShapeIsDistinct("23456789", "abcdefghijk", "mnoprstuv", "wxyz", "ACDEFHJKL", "MNPQRTUVWXY");
  }

  lemma UtilsBaseIsDistinct()
    ensures |UtilsBase| == 31 && NoDuplicates(UtilsBase)
  {
    assert Ascending("abcdefghjk") && Ascending("mnpqrstuv") && Ascending("wxyz") && Ascending("23456789");
    UtilsShapeIsDistinct("abcdefghjk", "mnpqrstuv", "wxyz", "23456789");
  }

  /** The alphabet of internal/cfg/utils.go: the 52 base runes, each exactly once. */
  method CreateCfgAlphabet(picks: seq<nat>) returns (alphabet: string)
    requires ValidPicks(|CfgBase|, picks)
    ensures |alphabet| == 52 && multiset(alphabet) == multiset(CfgBase) && NoDuplicates(alphabet)
  {
    alphabet := CreateRandomAlphabet(CfgBase, picks);
    CfgBaseIsDistinct();
    ShuffleKeepsDistinct(CfgBase, picks, |picks|);
  }

  /** The alphabet of internal/utils/config.go and internal/utils/codec.go: the 31 base runes, each exactly once. */
  method CreateUtilsAlphabet(picks: seq<nat>) returns (alphabet: string)
    requires ValidPicks(|UtilsBase|, picks)
    ensures |alphabet| == 31 && multiset(alphabet) == multiset(UtilsBase) && NoDuplicates(alphabet)
  {
    alphabet := CreateRandomAlphabet(UtilsBase, picks);
    UtilsBaseIsDistinct();
    ShuffleKeepsDistinct(UtilsBase, picks, |picks|);
  }
}
