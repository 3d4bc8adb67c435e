/** Two texts joined by a NUL character, as a map key or as the input of a digest. */
module NulKeys {
  import opened GoStrings

  const NUL: char := '\U{0000}'

  function Key(first: string, second: string): string {
    first + [NUL] + second
  }

  predicate NoNul(s: string) {
    forall i :: 0 <= i < |s| ==> s[i] != NUL
  }

  /** First parts without a NUL character never share a key, nor do second parts. */
  lemma KeyIsInjective(first: string, second: string, first': string, second': string)
    requires Key(first, second) == Key(first', second')
    requires (NoNul(first) && NoNul(first')) || (NoNul(second) && NoNul(second'))
    ensures first == first' && second == second'
  {
    var k := Key(first, second);
    var m, n := |first|, |first'|;
    assert k[m] == NUL && k[n] == NUL;
    assert forall i :: 0 <= i < m ==> k[i] == first[i];
    assert forall i :: 0 <= i < n ==> k[i] == first'[i];
    assert forall i :: m < i < |k| ==> k[i] == second[i - m - 1];
    assert forall i :: n < i < |k| ==> k[i] == second'[i - n - 1];
    assert m == n;
    SameLengthSameParts(first, second, first', second');
  }

  lemma SameLengthSameParts(first: string, second: string, first': string, second': string)
    requires Key(first, second) == Key(first', second')
    ensures |first| == |first'| ==> first == first' && second == second'
  {
    var k, m := Key(first, second), |first|;
    assert k[..m] == first && k[m + 1..] == second;
    assert |first'| == m ==> k[..m] == first' && k[m + 1..] == second';
  }

  /** A text as it is after trimming and the test that it is not empty. */
  predicate Normal(s: string) {
    s != "" && Trimmed(s)
  }

  /** The account can be cut at an inner NUL character without leaving white space at the cut. */
  predicate CutsFirst(first: string, i: nat) {
    0 < i < |first| && first[i] == NUL && !IsSpace(first[i - 1]) && (i + 1 < |first| ==> !IsSpace(first[i + 1]))
  }

  /** The order can be cut at a NUL character before its end without leaving white space at the cut. */
  predicate CutsSecond(second: string, i: nat) {
    i < |second| - 1 && second[i] == NUL && (i > 0 ==> !IsSpace(second[i - 1])) && !IsSpace(second[i + 1])
  }

  ghost predicate SharesKey(first: string, second: string) {
    exists first', second' :: Normal(first') && Normal(second') && (first' != first || second' != second)
                              && Key(first', second') == Key(first, second)
  }

  /** Among normalised pairs, a pair shares its key with another one if and only if one of its parts can be
    * cut at a NUL character.
    */
  lemma SharedKeysExactly(first: string, second: string)
    requires Normal(first) && Normal(second)
    ensures SharesKey(first, second) <==> (exists i :: CutsFirst(first, i)) || exists i :: CutsSecond(second, i)
  {
    if i :| CutsFirst(first, i) {
      CutFirst(first, second, i);
    }
    if i :| CutsSecond(second, i) {
      CutSecond(first, second, i);
    }
    if first', second' :| Normal(first') && Normal(second') && (first' != first || second' != second)
                          && Key(first', second') == Key(first, second) {
      CutFromShared(first, second, first', second');
    }
  }

  lemma CutFirst(first: string, second: string, i: nat)
    requires Normal(first) && Normal(second) && CutsFirst(first, i)
    ensures SharesKey(first, second)
  {
    var a, b := first[..i], first[i + 1..] + [NUL] + second;
    assert first == a + [NUL] + first[i + 1..];
    assert Key(a, b) == Key(first, second);
    assert a[0] == first[0] && a[|a| - 1] == first[i - 1];
    assert b[|b| - 1] == second[|second| - 1];
    assert i + 1 < |first| ==> b[0] == first[i + 1];
    assert !IsSpace(NUL);
    assert Normal(a) && Normal(b);
  }

  lemma CutSecond(first: string, second: string, i: nat)
    requires Normal(first) && Normal(second) && CutsSecond(second, i)
    ensures SharesKey(first, second)
  {
    var a, b := first + [NUL] + second[..i], second[i + 1..];
    assert second == second[..i] + [NUL] + b;
    assert Key(a, b) == Key(first, second);
    assert a[0] == first[0] && b[|b| - 1] == second[|second| - 1] && b[0] == second[i + 1];
    assert a[|a| - 1] == if i > 0 then second[i - 1] else NUL;
    assert !IsSpace(NUL);
    assert Normal(a) && Normal(b);
  }

  lemma CutFromShared(first: string, second: string, first': string, second': string)
    requires Normal(first) && Normal(second) && Normal(first') && Normal(second')
    requires (first' != first || second' != second) && Key(first', second') == Key(first, second)
    ensures (exists i :: CutsFirst(first, i)) || exists i :: CutsSecond(second, i)
  {
    var k, m, n := Key(first, second), |first|, |first'|;
    if n < m {
      assert first[n] == k[n] == NUL && first[n - 1] == k[n - 1] == first'[n - 1];
      assert n + 1 < m ==> first[n + 1] == k[n + 1] == second'[0];
      assert CutsFirst(first, n);
    } else if m < n {
      var i := n - m - 1;
      assert second[i] == k[n] == NUL && |second| == |second'| + i + 1;
      assert i > 0 ==> second[i - 1] == k[n - 1] == first'[n - 1];
      assert second[i + 1] == k[n + 1] == second'[0];
      assert CutsSecond(second, i);
    } else {
      SameLengthSameParts(first, second, first', second');
    }
  }
}
