/** Shared text and sequence helpers: Python's `w in s` on strings, ASCII
    `.lower()`, first-occurrence deduplication (the `seen` set / `uniq` list
    loops and `dict.fromkeys`) and the `[:n]` slice. */
module Text {

  /** Python's `w in s` for strings: `w` occurs in `s` as a contiguous run. */
  predicate Contains(s: string, w: string)
    decreases |s|
  {
    w <= s || (|s| > 0 && Contains(s[1..], w))
  }

  /** Reference definition of an occurrence: `w` starts at index `i` of `s`. */
  ghost predicate OccursAt(s: string, w: string, i: int)
  {
    0 <= i && i + |w| <= |s| && s[i..i + |w|] == w
  }

  /** An occurrence at index `i` makes `Contains` true. */
  lemma {:induction false} OccursAtContains(s: string, w: string, i: int)
    requires OccursAt(s, w, i)
    ensures Contains(s, w)
    decreases i
  {
    if i == 0 {
      assert s[..|w|] == w;
    } else {
      assert s[1..][i - 1..i - 1 + |w|] == s[i..i + |w|];
      OccursAtContains(s[1..], w, i - 1);
    }
  }

  /** `Contains` is witnessed by an occurrence index. */
  lemma {:induction false} ContainsWitness(s: string, w: string) returns (i: nat)
    requires Contains(s, w)
    ensures OccursAt(s, w, i)
    decreases |s|
  {
    if w <= s {
      i := 0;
      assert s[0..|w|] == w;
    } else {
      var j := ContainsWitness(s[1..], w);
      i := j + 1;
      assert s[1..][j..j + |w|] == s[j + 1..j + 1 + |w|];
    }
  }

  /** A substring of a substring is a substring: if the text contains
      "疲れた" it contains "疲れ" and "疲". */
  lemma ContainsTransitive(s: string, w: string, v: string)
    requires Contains(s, w) && Contains(w, v)
    ensures Contains(s, v)
  {
    var i := ContainsWitness(s, w);
    var j := ContainsWitness(w, v);
    forall k | 0 <= k < |v| ensures v[k] == s[i + j + k] {
      assert v[k] == w[j + k];
      assert w[j + k] == s[i..i + |w|][j + k];
    }
    assert s[i + j..i + j + |v|] == v;
    OccursAtContains(s, v, i + j);
  }

  /** A run of `s` at an index is contained in `s`. */
  lemma ContainsSlice(s: string, i: nat, j: nat)
    requires i <= j <= |s|
    ensures Contains(s, s[i..j])
  {
    OccursAtContains(s, s[i..j], i);
  }

  /** Lower-casing keeps an occurrence of a word without upper-case
      letters. */
  lemma ContainsLower(s: string, w: string)
    requires Contains(s, w) && HasNoUpper(w)
    ensures Contains(Lower(s), w)
  {
    var i := ContainsWitness(s, w);
    var l := Lower(s);
    forall k | 0 <= k < |w| ensures l[i + k] == w[k] {
      assert s[i + k] == s[i..i + |w|][k];
    }
    assert l[i..i + |w|] == w;
    OccursAtContains(l, w, i);
  }

  /** ASCII lower-casing of one character; every other character is kept. */
  function LowerChar(c: char): char
  {
    if 'A' <= c <= 'Z' then (c as int + 32) as char else c
  }

  /** `s.lower()` restricted to ASCII letters, which is all the English cue
      words need. */
  function Lower(s: string): (r: string)
  {
    seq(|s|, i requires 0 <= i < |s| => LowerChar(s[i]))
  }

  predicate HasNoUpper(s: string)
  {
    forall i :: 0 <= i < |s| ==> !('A' <= s[i] <= 'Z')
  }

  /** Lower-casing yields a string without upper-case ASCII letters, and it
      leaves such a string unchanged; so it is idempotent. */
  lemma {:induction false} LowerNormalises(s: string)
    ensures |Lower(s)| == |s| && HasNoUpper(Lower(s))
    ensures HasNoUpper(s) ==> Lower(s) == s
    ensures Lower(Lower(s)) == Lower(s)
  {
    var l := Lower(s);
    forall i | 0 <= i < |s| ensures !('A' <= l[i] <= 'Z') {
      var c := s[i];
      if 'A' <= c <= 'Z' {
        assert l[i] == (c as int + 32) as char;
      }
    }
    assert Lower(l) == l;
  }

  /** The first `n` elements, or all of them: Python's `s[:n]` for `n >= 0`. */
  function Take<T>(s: seq<T>, n: nat): (r: seq<T>)
    ensures |r| <= n && r <= s
    ensures |s| <= n ==> r == s
  {
    if |s| <= n then s else s[..n]
  }

  /** No two positions of `s` carry the same key. */
  ghost predicate DistinctBy<T, K>(s: seq<T>, key: T -> K)
  {
    forall i, j :: 0 <= i < j < |s| ==> key(s[i]) != key(s[j])
  }

  function Same<T>(x: T): T { x }

  /** No element repeats. */
  ghost predicate Distinct<T>(s: seq<T>)
  {
    forall i, j :: 0 <= i < j < |s| ==> s[i] != s[j]
  }

  lemma {:induction false} DistinctBySame<T>(s: seq<T>)
    ensures DistinctBy(s, Same) <==> Distinct(s)
  {
  }

  /** Two lists without repeats and without common elements concatenate to
      a list without repeats. */
  lemma DistinctConcat<T>(a: seq<T>, b: seq<T>)
    requires Distinct(a) && Distinct(b)
    requires forall x :: x in a ==> x !in b
    ensures Distinct(a + b)
  {
    forall i, j | 0 <= i < j < |a + b| ensures (a + b)[i] != (a + b)[j] {
      if i < |a| && j >= |a| {
        assert (a + b)[i] in a;
        assert (a + b)[j] == b[j - |a|];
      }
    }
  }

  /** The keys present in `s`: the `seen` set after a dedup loop over `s`. */
  ghost function KeysOf<T, K>(s: seq<T>, key: T -> K): set<K>
  {
    set x | x in s :: key(x)
  }

  /** Appending one element adds its key to the keys seen. */
  lemma KeysOfSnoc<T, K>(s: seq<T>, x: T, key: T -> K)
    ensures KeysOf(s + [x], key) == KeysOf(s, key) + {key(x)}
  {
    var l := KeysOf(s + [x], key);
    var r := KeysOf(s, key) + {key(x)};
    forall k | k in l ensures k in r {
      var y :| y in s + [x] && key(y) == k;
      if y != x {
        assert y in s;
      }
    }
    forall k | k in r ensures k in l {
      if k != key(x) {
        var y :| y in s && key(y) == k;
        assert y in s + [x];
      } else {
        assert x in s + [x];
      }
    }
  }

  /** Deduplication by key that keeps the first element of each key, in
      input order; written the way the loops run, one element appended at a
      time.  With key `Same` it is `dict.fromkeys` / the `seen` loop. */
  function DedupBy<T(==), K(==)>(s: seq<T>, key: T -> K): (r: seq<T>)
    decreases |s|
  {
    if |s| == 0 then []
    else
      var d := DedupBy(s[..|s| - 1], key);
      if key(s[|s| - 1]) in (set x | x in d :: key(x)) then d else d + [s[|s| - 1]]
  }

  /** One more element: kept exactly when its key is new. */
  lemma DedupBySnoc<T, K>(s: seq<T>, x: T, key: T -> K)
    ensures DedupBy(s + [x], key) ==
              if key(x) in KeysOf(DedupBy(s, key), key) then DedupBy(s, key) else DedupBy(s, key) + [x]
  {
    assert (s + [x])[..|s|] == s;
  }

  function Dedup<T(==)>(s: seq<T>): seq<T>
  {
    DedupBy(s, Same)
  }

  /** The `seen`-set loop that deduplicates by key, keeping first
      occurrences in order. */
  method DedupLoop<T(==), K(==)>(s: seq<T>, key: T -> K) returns (uniq: seq<T>)
    ensures uniq == DedupBy(s, key)
    ensures DistinctBy(uniq, key) && |uniq| <= |s| && (|s| > 0 ==> |uniq| > 0)
  {
    var seen: set<K> := {};
    uniq := [];
    for i := 0 to |s|
      invariant uniq == DedupBy(s[..i], key)
      invariant seen == KeysOf(uniq, key)
    {
      var x := s[i];
      assert s[..i + 1][..i] == s[..i];
      if key(x) !in seen {
        KeysOfSnoc(uniq, x, key);
        uniq := uniq + [x];
        seen := seen + {key(x)};
      }
    }
    assert s[..|s|] == s;
    DedupByFacts(s, key);
  }

  /** Reference definition, read front to back: an element is kept exactly
      when its key has not been seen among the elements before it. */
  ghost function KeepFirst<T, K>(s: seq<T>, key: T -> K, seen: set<K>): seq<T>
    decreases |s|
  {
    if |s| == 0 then []
    else if key(s[0]) in seen then KeepFirst(s[1..], key, seen)
    else [s[0]] + KeepFirst(s[1..], key, seen + {key(s[0])})
  }

  /** The result of `DedupBy` has distinct keys, draws its elements from the
      input, covers every key of the input, and is empty only for an empty
      input. */
  lemma {:induction false} DedupByFacts<T, K>(s: seq<T>, key: T -> K)
    ensures DistinctBy(DedupBy(s, key), key)
    ensures forall x :: x in DedupBy(s, key) ==> x in s
    ensures KeysOf(DedupBy(s, key), key) == KeysOf(s, key)
    ensures |DedupBy(s, key)| <= |s|
    ensures |s| > 0 ==> |DedupBy(s, key)| > 0
    decreases |s|
  {
    if |s| > 0 {
      var p := s[..|s| - 1];
      var x := s[|s| - 1];
      var d := DedupBy(p, key);
      DedupByFacts(p, key);
      assert s == p + [x];
      assert KeysOf(s, key) == KeysOf(p, key) + {key(x)};
      if key(x) !in KeysOf(d, key) {
        var r := d + [x];
        assert KeysOf(r, key) == KeysOf(d, key) + {key(x)};
        forall i, j | 0 <= i < j < |r| ensures key(r[i]) != key(r[j]) {
          if j == |d| {
            assert r[i] in d;
          }
        }
      }
    }
  }

  /** Appending an element keeps what was deduplicated so far in front. */
  lemma {:induction false} DedupByPrefix<T, K>(s: seq<T>, i: nat, key: T -> K)
    requires i <= |s|
    ensures DedupBy(s[..i], key) <= DedupBy(s, key)
    decreases |s| - i
  {
    if i < |s| {
      DedupByPrefix(s, i + 1, key);
      var q := s[..i + 1];
      assert q[..|q| - 1] == s[..i];
      assert DedupBy(s[..i], key) <= DedupBy(q, key);
    } else {
      assert s[..i] == s;
    }
  }

  /** With distinct keys nothing is dropped. */
  lemma {:induction false} DedupByOfDistinct<T, K>(s: seq<T>, key: T -> K)
    requires DistinctBy(s, key)
    ensures DedupBy(s, key) == s
    decreases |s|
  {
    if |s| > 0 {
      var p := s[..|s| - 1];
      DedupByOfDistinct(p, key);
      DedupByFacts(p, key);
      assert key(s[|s| - 1]) !in KeysOf(p, key);
      assert p + [s[|s| - 1]] == s;
    }
  }

  /** The loop-shaped definition agrees with the front-to-back reference:
      what is deduplicated after a prefix `p` is followed by the elements of
      the rest whose key was neither in `p` nor earlier in the rest. */
  lemma {:induction false} DedupByAppend<T, K>(p: seq<T>, s: seq<T>, key: T -> K)
    ensures DedupBy(p + s, key) == DedupBy(p, key) + KeepFirst(s, key, KeysOf(p, key))
    decreases |s|
  {
    if |s| == 0 {
      assert p + s == p;
    } else {
      var a := s[0];
      var p' := p + [a];
      assert p + s == p' + s[1..];
      DedupByAppend(p', s[1..], key);
      assert p'[..|p'| - 1] == p;
      DedupByFacts(p, key);
      var d := DedupBy(p, key);
      var rest := KeepFirst(s[1..], key, KeysOf(p', key));
      if key(a) in KeysOf(p, key) {
        assert KeysOf(p', key) == KeysOf(p, key);
        assert DedupBy(p', key) == d;
      } else {
        assert KeysOf(p', key) == KeysOf(p, key) + {key(a)};
        assert DedupBy(p', key) == d + [a];
        assert KeepFirst(s, key, KeysOf(p, key)) == [a] + rest;
        assert d + [a] + rest == d + ([a] + rest);
      }
    }
  }

  /** `DedupBy` keeps exactly the first element of each key, in input order. */
  lemma {:induction false} DedupByKeepsFirst<T, K>(s: seq<T>, key: T -> K)
    ensures DedupBy(s, key) == KeepFirst(s, key, {})
  {
    DedupByAppend([], s, key);
    assert KeysOf([], key) == {};
    assert [] + s == s;
  }

  /** The elements of `s` that satisfy `keep`, in order. */
  function Filter<T>(s: seq<T>, keep: T -> bool): (r: seq<T>)
    decreases |s|
  {
    if |s| == 0 then []
    else Filter(s[..|s| - 1], keep) + (if keep(s[|s| - 1]) then [s[|s| - 1]] else [])
  }

  lemma {:induction false} FilterFacts<T>(s: seq<T>, keep: T -> bool)
    ensures forall x :: x in Filter(s, keep) <==> x in s && keep(x)
    ensures |Filter(s, keep)| <= |s|
    decreases |s|
  {
    if |s| > 0 {
      FilterFacts(s[..|s| - 1], keep);
      assert s == s[..|s| - 1] + [s[|s| - 1]];
    }
  }

  lemma {:induction false} FilterPrefix<T>(s: seq<T>, i: nat, keep: T -> bool)
    requires i <= |s|
    ensures Filter(s[..i], keep) <= Filter(s, keep)
    decreases |s| - i
  {
    if i < |s| {
      FilterPrefix(s, i + 1, keep);
      var q := s[..i + 1];
      assert q[..|q| - 1] == s[..i];
      assert Filter(s[..i], keep) <= Filter(q, keep);
    } else {
      assert s[..i] == s;
    }
  }

  /** `r` is obtained from `s` by deleting elements, keeping order. */
  ghost predicate IsSubseq<T>(r: seq<T>, s: seq<T>)
    decreases |s|
  {
    |r| <= |s| &&
    (|r| == 0 || (r[0] == s[0] && IsSubseq(r[1..], s[1..])) || IsSubseq(r, s[1..]))
  }

  lemma {:induction false} KeepFirstIsSubseq<T, K>(s: seq<T>, key: T -> K, seen: set<K>)
    ensures IsSubseq(KeepFirst(s, key, seen), s)
    decreases |s|
  {
    if |s| > 0 {
      KeepFirstIsSubseq(s[1..], key, seen);
      KeepFirstIsSubseq(s[1..], key, seen + {key(s[0])});
      var r := KeepFirst(s, key, seen);
      if key(s[0]) !in seen {
        assert r[1..] == KeepFirst(s[1..], key, seen + {key(s[0])});
      }
    }
  }

  lemma {:induction false} SubseqTrans<T>(a: seq<T>, b: seq<T>, c: seq<T>)
    requires IsSubseq(a, b) && IsSubseq(b, c)
    ensures IsSubseq(a, c)
    decreases |c|
  {
    if |a| > 0 {
      if b[0] == c[0] && IsSubseq(b[1..], c[1..]) {
        if a[0] == b[0] && IsSubseq(a[1..], b[1..]) {
          SubseqTrans(a[1..], b[1..], c[1..]);
        } else {
          SubseqTrans(a, b[1..], c[1..]);
        }
      } else {
        SubseqTrans(a, b, c[1..]);
      }
    }
  }

  lemma {:induction false} FilterIsSubseq<T>(s: seq<T>, keep: T -> bool)
    ensures IsSubseq(Filter(s, keep), s)
    decreases |s|
  {
    if |s| > 0 {
      var p := s[..|s| - 1];
      assert s == p + [s[|s| - 1]];
      FilterIsSubseq(p, keep);
      SubseqSnoc(Filter(p, keep), p, s[|s| - 1], keep(s[|s| - 1]));
      assert Filter(s, keep) == if keep(s[|s| - 1]) then Filter(p, keep) + [s[|s| - 1]] else Filter(p, keep);
    }
  }

  /** Extending both sides by the same last element, or only the right side,
      keeps the subsequence relation. */
  lemma {:induction false} SubseqSnoc<T>(r: seq<T>, s: seq<T>, x: T, both: bool)
    requires IsSubseq(r, s)
    ensures IsSubseq(if both then r + [x] else r, s + [x])
    decreases |s|
  {
    var r' := if both then r + [x] else r;
    if |s| == 0 {
      assert r == [];
      if both {
        assert r' == [x] && (s + [x])[1..] == [];
      }
    } else if |r| > 0 && r[0] == s[0] && IsSubseq(r[1..], s[1..]) {
      SubseqSnoc(r[1..], s[1..], x, both);
      assert r'[1..] == if both then r[1..] + [x] else r[1..];
      assert (s + [x])[1..] == s[1..] + [x];
    } else {
      SubseqSnoc(r, s[1..], x, both);
      assert (s + [x])[1..] == s[1..] + [x];
    }
  }

  /** A prefix is a subsequence. */
  lemma {:induction false} PrefixIsSubseq<T>(r: seq<T>, s: seq<T>)
    requires r <= s
    ensures IsSubseq(r, s)
    decreases |s|
  {
    if |r| > 0 {
      PrefixIsSubseq(r[1..], s[1..]);
    }
  }
}
