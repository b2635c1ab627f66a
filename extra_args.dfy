/**
 * StringifyConfigDBExtraArgs of internal/utils/shortener.go and
 * internal/utils/config.go (the two are the same code), and the `k=v` pairs
 * of the database extra arguments that internal/db/pg_init.go also appends.
 *
 * Go's map iteration order is unspecified. Each operation takes the order as
 * an argument, `order`, which must list every key of the map exactly once.
 */
module ExtraArgs {
  import opened Common

  /** The `k=v` text of every key in `keys`, in that order. */
  function Pairs(args: map<string, string>, keys: seq<string>): (r: seq<string>)
    requires forall i | 0 <= i < |keys| :: keys[i] in args
    ensures |r| == |keys|
    ensures forall i | 0 <= i < |keys| :: r[i] == keys[i] + "=" + args[keys[i]]
  {
    seq(|keys|, i requires 0 <= i < |keys| => keys[i] + "=" + args[keys[i]])
  }

  /** The strings of `xs` glued together. */
  function Concat(xs: seq<string>): string
  {
    if xs == [] then "" else Concat(xs[..|xs| - 1]) + Last(xs)
  }

  /** Every string of `xs` with `sep` in front of it. */
  function Prefixed(sep: string, xs: seq<string>): (r: seq<string>)
    ensures |r| == |xs|
    ensures forall i | 0 <= i < |xs| :: r[i] == sep + xs[i]
  {
    seq(|xs|, i requires 0 <= i < |xs| => sep + xs[i])
  }

  /** The text a database type starts from and the separator it puts before each pair. */
  function StartAndSeparator(dbType: string): Option<(string, string)>
  {
    if dbType == "postgresql" then Some((" ", " "))
    else if dbType == "mysql" then Some(("?", "&"))
    else None
  }

  lemma PairsAppend(args: map<string, string>, keys: seq<string>, k: string)
    requires forall i | 0 <= i < |keys| :: keys[i] in args
    requires k in args
    ensures Pairs(args, keys + [k]) == Pairs(args, keys) + [k + "=" + args[k]]
  {
  }

  lemma PairsSplit(args: map<string, string>, a: seq<string>, b: seq<string>)
    requires forall i | 0 <= i < |a| :: a[i] in args
    requires forall i | 0 <= i < |b| :: b[i] in args
    ensures Pairs(args, a + b) == Pairs(args, a) + Pairs(args, b)
  {
  }

  lemma PrefixedAppend(sep: string, xs: seq<string>, x: string)
    ensures Prefixed(sep, xs + [x]) == Prefixed(sep, xs) + [sep + x]
  {
  }

  /** One more key appends its separator and pair to the glued text. */
  lemma AppendPair(sep: string, args: map<string, string>, keys: seq<string>, k: string)
    requires forall i | 0 <= i < |keys| :: keys[i] in args
    requires k in args
    ensures Concat(Prefixed(sep, Pairs(args, keys + [k]))) == Concat(Prefixed(sep, Pairs(args, keys))) + (sep + k + "=" + args[k])
  {
    PairsAppend(args, keys, k);
    PrefixedAppend(sep, Pairs(args, keys), k + "=" + args[k]);
    var next := Prefixed(sep, Pairs(args, keys + [k]));
    assert next[..|next| - 1] == Prefixed(sep, Pairs(args, keys));
  }

  /** Taking the next key of the order appends its separator and pair to the glued text. */
  lemma AppendNextPair(sep: string, args: map<string, string>, order: seq<string>, i: nat)
    requires forall j | 0 <= j < |order| :: order[j] in args
    requires i < |order|
    ensures Concat(Prefixed(sep, Pairs(args, order[..i + 1]))) == Concat(Prefixed(sep, Pairs(args, order[..i]))) + (sep + order[i] + "=" + args[order[i]])
  {
    assert order[..i + 1] == order[..i] + [order[i]];
    AppendPair(sep, args, order[..i], order[i]);
  }

  /**
   * The loop of the source: start from the type's start text and append
   * separator, key, `=` and value for every key in the iteration order.
   */
  method StringifyConfigDBExtraArgs(dbType: string, args: map<string, string>, order: seq<string>)
    returns (ret: string)
    requires IsEnumeration(order, args.Keys)
    ensures StartAndSeparator(dbType).None? ==> ret == ""
    ensures dbType == "postgresql" ==> ret == " " + Concat(Prefixed(" ", Pairs(args, order)))
    ensures dbType == "mysql" ==> ret == "?" + Concat(Prefixed("&", Pairs(args, order)))
  {
    if dbType == "postgresql" {
      ret := AppendPairs(" ", " ", args, order);
    } else if dbType == "mysql" {
      ret := AppendPairs("?", "&", args, order);
    } else {
      ret := "";
    }
  }

  /** The loop of StringifyConfigDBExtraArgs: append separator, key, `=` and value for every key in the iteration order. */
  method AppendPairs(start: string, sep: string, args: map<string, string>, order: seq<string>) returns (ret: string)
    requires forall j | 0 <= j < |order| :: order[j] in args
    ensures ret == start + Concat(Prefixed(sep, Pairs(args, order)))
  {
    ret := start;
    var i := 0;
    while i < |order|
      invariant 0 <= i <= |order|
      invariant ret == start + Concat(Prefixed(sep, Pairs(args, order[..i])))
    {
      var k := order[i];
      AppendNextPair(sep, args, order, i);
      ret := ret + (sep + k + "=" + args[k]);
      i := i + 1;
    }
    assert order[..|order|] == order;
  }

  /** With no extra arguments the result is the start text alone. */
  lemma NoArgsGivesStartText(dbType: string)
    requires StartAndSeparator(dbType).Some?
    ensures StartAndSeparator(dbType).value.0 + Concat(Prefixed(StartAndSeparator(dbType).value.1, Pairs(map[], []))) == StartAndSeparator(dbType).value.0
  {
  }

  lemma {:induction false} ConcatStartsWithFirst(xs: seq<string>)
    requires |xs| > 0
    ensures |xs[0]| <= |Concat(xs)| && Concat(xs)[..|xs[0]|] == xs[0]
  {
    if |xs| > 1 {
      ConcatStartsWithFirst(xs[..|xs| - 1]);
    }
  }

  /**
   * A non-empty argument list begins with the type's start text and then its
   * separator: `?&` for mysql, two spaces for postgresql.
   */
  lemma LeadsWithStartAndSeparator(dbType: string, args: map<string, string>, order: seq<string>)
    requires StartAndSeparator(dbType).Some?
    requires IsEnumeration(order, args.Keys) && |args| > 0
    ensures var (start, sep) := StartAndSeparator(dbType).value;
            var s := start + Concat(Prefixed(sep, Pairs(args, order)));
            |s| >= |start + sep| && s[..|start + sep|] == start + sep
  {
    var (start, sep) := StartAndSeparator(dbType).value;
    var k :| k in args;
    assert |order| > 0;
    var xs := Prefixed(sep, Pairs(args, order));
    ConcatStartsWithFirst(xs);
    assert xs[0][..|sep|] == sep;
    var s := start + Concat(xs);
    assert s[..|start + sep|] == start + Concat(xs)[..|sep|];
  }

  /** A list without duplicates counts each of its elements once. */
  lemma {:induction false} DistinctMultiset<T>(s: seq<T>)
    requires NoDuplicates(s)
    ensures multiset(s) == multiset(set x | x in s)
  {
    if s != [] {
      var rest := s[1..];
      assert NoDuplicates(rest) by {
        forall i, j | 0 <= i < j < |rest| ensures rest[i] != rest[j] {
          assert rest[i] == s[i + 1] && rest[j] == s[j + 1];
        }
      }
      DistinctMultiset(rest);
      assert s[0] !in rest by {
        forall i | 0 <= i < |rest| ensures rest[i] != s[0] {
          assert rest[i] == s[i + 1];
        }
      }
      assert s == [s[0]] + rest;
      assert (set x | x in s) == {s[0]} + (set x | x in rest);
    }
  }

  /** Two enumerations of the same keys are permutations of each other. */
  lemma EnumerationsPermute(o1: seq<string>, o2: seq<string>, keys: set<string>)
    requires IsEnumeration(o1, keys) && IsEnumeration(o2, keys)
    ensures multiset(o1) == multiset(o2)
  {
    DistinctMultiset(o1);
    DistinctMultiset(o2);
    assert (set x | x in o1) == keys == (set x | x in o2);
  }

  /** Taking out position `i` takes one copy of `o[i]` out of the multiset. */
  lemma RemoveAtMultiset(o: seq<string>, i: nat)
    requires i < |o|
    ensures multiset(o[..i] + o[i + 1..]) == multiset(o) - multiset{o[i]}
  {
    assert o == o[..i] + [o[i]] + o[i + 1..];
  }

  /** The pairs of `o` are the pairs of `o` without position `i`, plus the pair of `o[i]`. */
  lemma PairsRemoveAt(args: map<string, string>, o: seq<string>, i: nat)
    requires forall j | 0 <= j < |o| :: o[j] in args
    requires i < |o|
    ensures multiset(Pairs(args, o)) == multiset(Pairs(args, o[..i] + o[i + 1..])) + multiset{o[i] + "=" + args[o[i]]}
  {
    assert o == o[..i] + [o[i]] + o[i + 1..];
    PairsSplit(args, o[..i] + [o[i]], o[i + 1..]);
    PairsSplit(args, o[..i], [o[i]]);
    PairsSplit(args, o[..i], o[i + 1..]);
  }

  /** Pairs of two permutations of the keys are themselves permutations. */
  lemma {:induction false} PairsPermute(args: map<string, string>, o1: seq<string>, o2: seq<string>)
    requires forall i | 0 <= i < |o1| :: o1[i] in args
    requires forall i | 0 <= i < |o2| :: o2[i] in args
    requires multiset(o1) == multiset(o2)
    ensures multiset(Pairs(args, o1)) == multiset(Pairs(args, o2))
    decreases |o1|
  {
    if o1 != [] {
      var a := o1[0];
      assert a in multiset(o2);
      var i :| 0 <= i < |o2| && o2[i] == a;
      var rest1 := o1[1..];
      var rest2 := o2[..i] + o2[i + 1..];
      RemoveAtMultiset(o1, 0);
      RemoveAtMultiset(o2, i);
      assert o1[..0] + o1[1..] == rest1;
      forall j | 0 <= j < |rest1| ensures rest1[j] in args {
        assert rest1[j] == o1[j + 1];
      }
      forall j | 0 <= j < |rest2| ensures rest2[j] in args {
        if j < i {
          assert rest2[j] == o2[j];
        } else {
          assert rest2[j] == o2[j + 1];
        }
      }
      calc {
        multiset(rest1);
        multiset(o1) - multiset{a};
        multiset(o2) - multiset{a};
        multiset(rest2);
      }
      PairsPermute(args, rest1, rest2);
      PairsRemoveAt(args, o1, 0);
      PairsRemoveAt(args, o2, i);
    }
  }

  /**
   * Every key/value pair appears exactly once whatever the iteration order:
   * any two orders give the same pairs, permuted.
   */
  lemma PairsIndependentOfOrder(args: map<string, string>, o1: seq<string>, o2: seq<string>)
    requires IsEnumeration(o1, args.Keys) && IsEnumeration(o2, args.Keys)
    ensures multiset(Pairs(args, o1)) == multiset(Pairs(args, o2))
    ensures forall k | k in args :: multiset(Pairs(args, o1))[k + "=" + args[k]] >= 1
  {
    EnumerationsPermute(o1, o2, args.Keys);
    PairsPermute(args, o1, o2);
    forall k | k in args ensures multiset(Pairs(args, o1))[k + "=" + args[k]] >= 1 {
      var i :| 0 <= i < |o1| && o1[i] == k;
      assert Pairs(args, o1)[i] == k + "=" + args[k];
    }
  }
}
