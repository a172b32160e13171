/**
 * The two string operations the distance lookup relies on: ASCII
 * lower-casing (`String.prototype.toLowerCase`) and substring containment
 * (`String.prototype.includes`).
 */
module Text {

  predicate IsUpper(c: char) {
    'A' <= c <= 'Z'
  }

  /** Lower-cases one character; only the ASCII letters A-Z change. */
  function LowerChar(c: char): (r: char)
    ensures !IsUpper(r)
    ensures IsUpper(c) ==> r as int == c as int + 32
    ensures !IsUpper(c) ==> r == c
  {
    if IsUpper(c) then (c as int + 32) as char else c
  }

  /** The string with every character lower-cased, position by position. */
  function ToLower(s: string): (r: string)
    ensures |r| == |s|
  {
    seq(|s|, i requires 0 <= i < |s| => LowerChar(s[i]))
  }

  /** A lower-cased string holds no upper-case letter. */
  lemma ToLowerHasNoUpper(s: string)
    ensures forall i :: 0 <= i < |s| ==> !IsUpper(ToLower(s)[i])
  {
  }

  /** Lower-casing twice is lower-casing once. */
  lemma ToLowerIdempotent(s: string)
    ensures ToLower(ToLower(s)) == ToLower(s)
  {
  }

  /** `k` occurs in `s` starting at position `p`. */
  predicate OccursAt(s: string, k: string, p: int) {
    0 <= p && p + |k| <= |s| && s[p..p + |k|] == k
  }

  /** `s.includes(k)`: `k` occurs somewhere in `s`; the empty string occurs in every string. */
  predicate Contains(s: string, k: string) {
    exists p | 0 <= p <= |s| - |k| :: OccursAt(s, k, p)
  }

  /** Every string contains itself. */
  lemma ContainsSelf(s: string)
    ensures Contains(s, s)
  {
    assert OccursAt(s, s, 0);
  }

  /** Containment is transitive: a string containing `k1` contains every substring of `k1`. */
  lemma ContainsTransitive(s: string, k1: string, k2: string)
    requires Contains(s, k1) && Contains(k1, k2)
    ensures Contains(s, k2)
  {
    var p1 :| 0 <= p1 <= |s| - |k1| && OccursAt(s, k1, p1);
    var p2 :| 0 <= p2 <= |k1| - |k2| && OccursAt(k1, k2, p2);
    forall m | 0 <= m < |k2|
      ensures s[p1 + p2 + m] == k2[m]
    {
      assert s[p1..p1 + |k1|][p2 + m] == k1[p2 + m];
      assert k1[p2..p2 + |k2|][m] == k2[m];
    }
    assert s[p1 + p2..p1 + p2 + |k2|] == k2;
    assert OccursAt(s, k2, p1 + p2);
  }

  /** A key holding a character that `s` lacks is not contained in `s`. */
  lemma MissingCharNotContained(s: string, k: string, c: char)
    requires c in k && c !in s
    ensures !Contains(s, k)
  {
  }

  /** When `witnesses` gives, for every name other than `s` itself, a
      character that the name holds and `s` lacks, `s` holds none of those
      names. */
  lemma HoldsNoneOf(s: string, names: seq<string>, witnesses: string)
    requires |witnesses| == |names|
    requires forall b :: 0 <= b < |names| && names[b] != s ==> witnesses[b] in names[b] && witnesses[b] !in s
    ensures forall b :: 0 <= b < |names| && names[b] != s ==> !Contains(s, names[b])
  {
    forall b | 0 <= b < |names| && names[b] != s
      ensures !Contains(s, names[b])
    {
      MissingCharNotContained(s, names[b], witnesses[b]);
    }
  }

  /** No position of `s` from `i` on holds `c`, checked one position at a time. */
  predicate LacksFrom(s: string, c: char, i: nat)
    requires i <= |s|
    decreases |s| - i
  {
    i == |s| || (s[i] != c && LacksFrom(s, c, i + 1))
  }

  lemma {:induction false} LacksFromMeansAbsent(s: string, c: char, i: nat)
    requires i <= |s| && LacksFrom(s, c, i)
    ensures forall j :: i <= j < |s| ==> s[j] != c
    decreases |s| - i
  {
    if i < |s| {
      LacksFromMeansAbsent(s, c, i + 1);
    }
  }

  /** The `i`-th character of `k` does not occur in `s`, so `k` does not occur in `s`. */
  lemma AbsentCharNotContained(s: string, k: string, i: nat)
    requires i < |k| && LacksFrom(s, k[i], 0)
    ensures !Contains(s, k)
  {
    LacksFromMeansAbsent(s, k[i], 0);
    MissingCharNotContained(s, k, k[i]);
  }
}
