/**
 * The JavaScript string and array primitives the generator relies on:
 * `String.prototype.split` with a one-character separator, `Array.prototype.join`,
 * `Array.prototype.indexOf`, the `filter(onlyUnique)` de-duplication idiom and
 * the decimal rendering of a list index inside a template literal.
 */
module Strings {

  /** `s.split(sep)` for a one-character separator: always at least one part. */
  function Split(s: string, sep: char): (parts: seq<string>)
    ensures |parts| >= 1
    decreases |s|
  {
    if |s| == 0 then [""]
    else if s[0] == sep then [""] + Split(s[1..], sep)
    else
      var rest := Split(s[1..], sep);
      [[s[0]] + rest[0]] + rest[1..]
  }

  /** `parts.join(sep)`: the empty array joins to the empty string. */
  function Join(sep: string, parts: seq<string>): string
    decreases |parts|
  {
    if |parts| == 0 then ""
    else if |parts| == 1 then parts[0]
    else parts[0] + sep + Join(sep, parts[1..])
  }

  /** No part produced by `split` contains the separator. */
  lemma {:induction false} SplitPartsAreFree(s: string, sep: char)
    ensures forall p | p in Split(s, sep) :: sep !in p
    decreases |s|
  {
    if |s| > 0 {
      SplitPartsAreFree(s[1..], sep);
      if s[0] != sep {
        var rest := Split(s[1..], sep);
        assert Split(s, sep) == [[s[0]] + rest[0]] + rest[1..];
        assert sep !in [s[0]] + rest[0] by {
          assert rest[0] in rest;
        }
        forall p | p in Split(s, sep) ensures sep !in p {
          if p != [s[0]] + rest[0] {
            assert p in rest[1..];
            assert p in rest;
          }
        }
      }
    }
  }

  /** Joining the parts of a split with the same separator gives back the input. */
  lemma {:induction false} JoinSplit(s: string, sep: char)
    ensures Join([sep], Split(s, sep)) == s
    decreases |s|
  {
    if |s| > 0 {
      var rest := Split(s[1..], sep);
      JoinSplit(s[1..], sep);
      if s[0] == sep {
        assert Split(s, sep) == [""] + rest;
        assert ([""] + rest)[1..] == rest;
        assert s == [sep] + s[1..];
      } else {
        var parts := Split(s, sep);
        assert parts == [[s[0]] + rest[0]] + rest[1..];
        if |rest| == 1 {
          assert Join([sep], parts) == [s[0]] + rest[0];
        } else {
          assert parts[1..] == rest[1..];
          assert Join([sep], parts) == [s[0]] + rest[0] + [sep] + Join([sep], rest[1..]);
          assert Join([sep], rest) == rest[0] + [sep] + Join([sep], rest[1..]);
        }
        assert s == [s[0]] + s[1..];
      }
    }
  }

  /** A string without the separator splits into itself alone. */
  lemma {:induction false} SplitWithoutSeparator(s: string, sep: char)
    requires sep !in s
    ensures Split(s, sep) == [s]
    decreases |s|
  {
    if |s| > 0 {
      assert sep !in s[1..] by {
        forall k | 0 <= k < |s[1..]| ensures s[1..][k] != sep {
          assert s[1..][k] == s[k + 1];
        }
      }
      SplitWithoutSeparator(s[1..], sep);
      assert [s[0]] + s[1..] == s;
    }
  }

  /** Splitting `p + sep + t`, where `p` is free of the separator, peels off `p`. */
  lemma {:induction false} SplitAtFirstSeparator(p: string, sep: char, t: string)
    requires sep !in p
    ensures Split(p + [sep] + t, sep) == [p] + Split(t, sep)
    decreases |p|
  {
    var s := p + [sep] + t;
    if |p| == 0 {
      assert s == [sep] + t;
      assert s[1..] == t;
    } else {
      assert sep !in p[1..] by {
        forall k | 0 <= k < |p[1..]| ensures p[1..][k] != sep {
          assert p[1..][k] == p[k + 1];
        }
      }
      SplitAtFirstSeparator(p[1..], sep, t);
      assert s[1..] == p[1..] + [sep] + t;
      assert s[0] == p[0];
      assert [p[0]] + p[1..] == p;
    }
  }

  /** Splitting a join of separator-free parts gives back exactly those parts. */
  lemma {:induction false} SplitJoin(parts: seq<string>, sep: char)
    requires |parts| >= 1
    requires forall p | p in parts :: sep !in p
    ensures Split(Join([sep], parts), sep) == parts
    decreases |parts|
  {
    if |parts| == 1 {
      SplitWithoutSeparator(parts[0], sep);
    } else {
      assert parts[0] in parts;
      forall p | p in parts[1..] ensures sep !in p {
        assert p in parts;
      }
      SplitJoin(parts[1..], sep);
      SplitAtFirstSeparator(parts[0], sep, Join([sep], parts[1..]));
      assert [parts[0]] + parts[1..] == parts;
    }
  }

  /** `s.indexOf(x)`: the least index holding `x`, or -1. */
  function IndexOf<T(==)>(s: seq<T>, x: T): (i: int)
    ensures -1 <= i < |s|
    ensures i >= 0 ==> s[i] == x && forall j | 0 <= j < i :: s[j] != x
    ensures i == -1 <==> x !in s
    decreases |s|
  {
    if |s| == 0 then -1
    else if s[0] == x then 0
    else
      var k := IndexOf(s[1..], x);
      if k == -1 then -1 else k + 1
  }

  /** `s.filter(onlyUnique)`, with `onlyUnique(v, i, self) = self.indexOf(v) === i`,
      evaluated over the first `n` positions of `s`. */
  function KeepFirstOccurrences<T(==)>(s: seq<T>, n: nat): seq<T>
    requires n <= |s|
  {
    if n == 0 then []
    else
      KeepFirstOccurrences(s, n - 1) + (if IndexOf(s, s[n - 1]) == n - 1 then [s[n - 1]] else [])
  }

  /** The de-duplicated array: every element whose first occurrence is its own position. */
  function OnlyUnique<T(==)>(s: seq<T>): seq<T> {
    KeepFirstOccurrences(s, |s|)
  }

  /** Reference definition of "drop repeats, keep first occurrences in order". */
  function AppendIfNew<T(==)>(s: seq<T>): seq<T>
    decreases |s|
  {
    if |s| == 0 then []
    else
      var r := AppendIfNew(s[..|s| - 1]);
      if s[|s| - 1] in s[..|s| - 1] then r else r + [s[|s| - 1]]
  }

  predicate NoDuplicates<T(==)>(s: seq<T>) {
    forall i, j | 0 <= i < j < |s| :: s[i] != s[j]
  }

  /** On a prefix, `indexOf` of an element of the prefix is the same as on the whole. */
  lemma {:induction false} IndexOfPrefix<T>(s: seq<T>, n: nat, x: T)
    requires n <= |s|
    requires x in s[..n]
    ensures IndexOf(s, x) == IndexOf(s[..n], x)
  {
    var i := IndexOf(s[..n], x);
    assert s[i] == s[..n][i] == x;
    var k := IndexOf(s, x);
    assert 0 <= k <= i;
    assert s[..n][k] == s[k];
  }

  /** The `filter(onlyUnique)` idiom is "drop repeats, keep first occurrences in order". */
  lemma {:induction false} OnlyUniqueKeepsFirstOccurrences<T>(s: seq<T>)
    ensures OnlyUnique(s) == AppendIfNew(s)
  {
    KeepFirstOccurrencesPrefix(s, |s|);
    assert s[..|s|] == s;
  }

  lemma {:induction false} KeepFirstOccurrencesPrefix<T>(s: seq<T>, n: nat)
    requires n <= |s|
    ensures KeepFirstOccurrences(s, n) == AppendIfNew(s[..n])
    decreases n
  {
    if n > 0 {
      KeepFirstOccurrencesPrefix(s, n - 1);
      var x := s[n - 1];
      assert s[..n][..n - 1] == s[..n - 1];
      assert s[..n][n - 1] == x;
      if x in s[..n - 1] {
        IndexOfPrefix(s, n - 1, x);
      } else {
        IndexOfPrefix(s, n, x);
        assert x in s[..n];
        forall j | 0 <= j < n - 1 ensures s[..n][j] != x {
          assert s[..n][j] == s[..n - 1][j];
        }
      }
    }
  }

  /** De-duplication leaves no repeats and loses no element. */
  lemma {:induction false} AppendIfNewProperties<T>(s: seq<T>)
    ensures NoDuplicates(AppendIfNew(s))
    ensures forall x :: x in AppendIfNew(s) <==> x in s
    decreases |s|
  {
    if |s| > 0 {
      var init := s[..|s| - 1];
      AppendIfNewProperties(init);
      assert s == init + [s[|s| - 1]];
    }
  }

  /** An array that already has no repeats is unchanged by de-duplication. */
  lemma {:induction false} AppendIfNewOfDistinct<T>(s: seq<T>)
    requires NoDuplicates(s)
    ensures AppendIfNew(s) == s
    decreases |s|
  {
    if |s| > 0 {
      var init := s[..|s| - 1];
      assert NoDuplicates(init);
      AppendIfNewOfDistinct(init);
      forall j | 0 <= j < |init| ensures init[j] != s[|s| - 1] {
        assert init[j] == s[j];
      }
      assert s == init + [s[|s| - 1]];
    }
  }

  /** The decimal text of a natural number, as `${n}` renders it. */
  function NatToString(n: nat): (r: string)
    ensures |r| >= 1
    ensures forall k | 0 <= k < |r| :: '0' <= r[k] <= '9'
  {
    var digit := ['0' + (n % 10) as char];
    if n < 10 then digit else NatToString(n / 10) + digit
  }

  /** Reading back the decimal text gives the number. */
  function DigitsValue(r: string): int
    requires forall k | 0 <= k < |r| :: '0' <= r[k] <= '9'
  {
    if |r| == 0 then 0 else 10 * DigitsValue(r[..|r| - 1]) + (r[|r| - 1] - '0') as int
  }

  lemma {:induction false} NatToStringRoundTrip(n: nat)
    ensures DigitsValue(NatToString(n)) == n
  {
    var r := NatToString(n);
    if n >= 10 {
      NatToStringRoundTrip(n / 10);
      assert r[..|r| - 1] == NatToString(n / 10);
    }
  }

  /** `s.endsWith(c)` for a one-character string `c`. */
  predicate EndsWith(s: string, c: char) {
    |s| > 0 && s[|s| - 1] == c
  }
}
