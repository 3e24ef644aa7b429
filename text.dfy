/** String operations the slug processors rely on: literal global replacement
    (`String.prototype.replace` with a `/g` regular expression that has no
    special characters), substring search and `Array.prototype.join`. */
module Text {

  /** `pat` occurs in `s` starting at index `i`. */
  predicate OccursAt(s: string, pat: string, i: nat) {
    i + |pat| <= |s| && s[i..i + |pat|] == pat
  }

  predicate Contains(s: string, pat: string) {
    exists i: nat | i <= |s| :: OccursAt(s, pat, i)
  }

  /** Leftmost, non-overlapping replacement of every occurrence of `pat` by `rep`. */
  function ReplaceAll(s: string, pat: string, rep: string): (r: string)
    requires |pat| > 0
    ensures |rep| <= |pat| ==> |r| <= |s|
    ensures |rep| == |pat| ==> |r| == |s|
    decreases |s|
  {
    if |s| < |pat| then s
    else if pat <= s then rep + ReplaceAll(s[|pat|..], pat, rep)
    else [s[0]] + ReplaceAll(s[1..], pat, rep)
  }

  /** `sep` between consecutive parts, nothing around them. */
  function Join(parts: seq<string>, sep: string): (r: string)
    ensures parts == [] ==> r == []
    ensures parts != [] ==> parts[0] <= r
    ensures |parts| >= 2 ==> parts[0] + sep <= r
  {
    if |parts| == 0 then ""
    else if |parts| == 1 then parts[0]
    else parts[0] + sep + Join(parts[1..], sep)
  }

  /** The join ends with the last part. */
  lemma {:induction false} JoinLast(parts: seq<string>, sep: string)
    requires parts != []
    ensures var r := Join(parts, sep);
      |parts[|parts| - 1]| <= |r| && r[|r| - |parts[|parts| - 1]|..] == parts[|parts| - 1]
  {
    if |parts| >= 2 {
      JoinLast(parts[1..], sep);
      assert parts[1..][|parts| - 2] == parts[|parts| - 1];
    }
  }

  /** Joining two lists is joining each and putting one separator between
      the two results, unless one of the lists is empty. */
  lemma {:induction false} JoinAppend(a: seq<string>, b: seq<string>, sep: string)
    ensures a == [] ==> Join(a + b, sep) == Join(b, sep)
    ensures b == [] ==> Join(a + b, sep) == Join(a, sep)
    ensures a != [] && b != [] ==> Join(a + b, sep) == Join(a, sep) + sep + Join(b, sep)
  {
    if a == [] {
      assert a + b == b;
    } else if b == [] {
      assert a + b == a;
    } else if |a| == 1 {
      assert (a + b)[0] == a[0] && (a + b)[1..] == b;
      assert Join(a + b, sep) == a[0] + sep + Join(b, sep);
    } else {
      var rest := Join(a[1..], sep);
      assert (a + b)[0] == a[0] && (a + b)[1..] == a[1..] + b;
      JoinAppend(a[1..], b, sep);
      assert Join(a + b, sep) == a[0] + sep + (rest + sep + Join(b, sep));
      assert Join(a, sep) == a[0] + sep + rest;
    }
  }

  lemma ContainsSuffix(s: string, pat: string, n: nat)
    requires n <= |s| && Contains(s[n..], pat)
    ensures Contains(s, pat)
  {
    var i: nat :| i <= |s[n..]| && OccursAt(s[n..], pat, i);
    assert s[n + i..n + i + |pat|] == s[n..][i..i + |pat|];
    assert OccursAt(s, pat, n + i);
  }

  /** An occurrence in `a + b` that starts inside `b` is an occurrence in `b`. */
  lemma OccursAtRight(a: string, b: string, pat: string, i: nat)
    requires |a| <= i && OccursAt(a + b, pat, i)
    ensures OccursAt(b, pat, i - |a|)
  {
    assert (a + b)[i..i + |pat|] == b[i - |a|..i - |a| + |pat|];
  }

  /** An occurrence at the front, assembled from its first character and the rest. */
  lemma OccursAtFront(s: string, q: string)
    ensures |q| > 0 && |s| > 0 && s[0] == q[0] && q[1..] <= s[1..] ==> OccursAt(s, q, 0)
  {
    if |q| > 0 && |s| > 0 && s[0] == q[0] && q[1..] <= s[1..] {
      assert s[..|q|] == [s[0]] + s[1..][..|q| - 1];
    }
  }

  /** A prefix of the replaced string that cannot contain the first character of
      `rep` was copied from the input unchanged. */
  lemma {:induction false} ReplaceAllCopiedPrefix(s: string, pat: string, rep: string, t: string)
    requires |pat| > 0 && |rep| > 0
    requires forall k :: 0 <= k < |t| ==> t[k] != rep[0]
    requires t <= ReplaceAll(s, pat, rep)
    ensures t <= s
    decreases |s|
  {
    if |s| >= |pat| && t != [] {
      assert t[0] == ReplaceAll(s, pat, rep)[0];
      assert !(pat <= s);
      var r := ReplaceAll(s[1..], pat, rep);
      assert ReplaceAll(s, pat, rep) == [s[0]] + r;
      assert t[1..] <= r;
      ReplaceAllCopiedPrefix(s[1..], pat, rep, t[1..]);
      assert t == [s[0]] + t[1..];
    }
  }

  /** After a global replacement, `pat` no longer occurs, provided the
      replacement shares no character with the pattern and is not empty. */
  lemma {:induction false} ReplaceAllRemoves(s: string, pat: string, rep: string)
    requires |pat| > 0 && |rep| > 0
    requires forall k :: 0 <= k < |rep| ==> rep[k] !in pat
    ensures !Contains(ReplaceAll(s, pat, rep), pat)
    decreases |s|
  {
    var out := ReplaceAll(s, pat, rep);
    if |s| >= |pat| {
      var n := if pat <= s then |pat| else 1;
      var head, tail := if pat <= s then rep else [s[0]], s[n..];
      var r := ReplaceAll(tail, pat, rep);
      ReplaceAllRemoves(tail, pat, rep);
      assert out == head + r;
      forall i: nat | i <= |out| ensures !OccursAt(out, pat, i) {
        if i < |head| && pat <= s {
          assert out[i] == rep[i];
        } else if i < |head| {
          assert i == 0;
          if OccursAt(out, pat, 0) {
            var t := pat[1..];
            assert t == out[1..|pat|] == r[..|pat| - 1];
            forall k | 0 <= k < |t| ensures t[k] != rep[0] {
              assert t[k] in pat;
            }
            ReplaceAllCopiedPrefix(tail, pat, rep, t);
          }
        } else if OccursAt(out, pat, i) {
          OccursAtRight(head, r, pat, i);
        }
      }
    }
  }

  /** A global replacement cannot create an occurrence of a pattern `q` that
      shares no character with the replacement text. */
  lemma {:induction false} ReplaceAllKeepsAbsent(s: string, pat: string, rep: string, q: string)
    requires |pat| > 0 && |rep| > 0 && |q| > 0
    requires forall k :: 0 <= k < |rep| ==> rep[k] !in q
    requires !Contains(s, q)
    ensures !Contains(ReplaceAll(s, pat, rep), q)
    decreases |s|
  {
    var out := ReplaceAll(s, pat, rep);
    if |s| >= |pat| {
      var n := if pat <= s then |pat| else 1;
      var head, tail := if pat <= s then rep else [s[0]], s[n..];
      var r := ReplaceAll(tail, pat, rep);
      if Contains(tail, q) {
        ContainsSuffix(s, q, n);
      }
      ReplaceAllKeepsAbsent(tail, pat, rep, q);
      assert out == head + r;
      forall i: nat | i <= |out| ensures !OccursAt(out, q, i) {
        if i < |head| && pat <= s {
          assert out[i] == rep[i];
        } else if i < |head| {
          assert i == 0;
          assert !OccursAt(s, q, 0);
          OccursAtFront(s, q);
          if OccursAt(out, q, 0) {
            var t := q[1..];
            assert t == out[1..|q|] == r[..|q| - 1];
            forall k | 0 <= k < |t| ensures t[k] != rep[0] {
              assert t[k] in q;
            }
            ReplaceAllCopiedPrefix(tail, pat, rep, t);
          }
        } else if OccursAt(out, q, i) {
          OccursAtRight(head, r, q, i);
        }
      }
    }
  }

  /** The replaced string holds only characters of the input or of `rep`. */
  lemma {:induction false} ReplaceAllChars(s: string, pat: string, rep: string)
    requires |pat| > 0
    ensures forall c :: c in ReplaceAll(s, pat, rep) ==> c in s || c in rep
    decreases |s|
  {
    if |s| < |pat| {
    } else if pat <= s {
      ReplaceAllChars(s[|pat|..], pat, rep);
      assert forall c :: c in s[|pat|..] ==> c in s;
    } else {
      ReplaceAllChars(s[1..], pat, rep);
      assert forall c :: c in s[1..] ==> c in s;
    }
  }

  /** With no occurrence of the pattern, replacement changes nothing. */
  lemma {:induction false} ReplaceAllIdentity(s: string, pat: string, rep: string)
    requires |pat| > 0 && !Contains(s, pat)
    ensures ReplaceAll(s, pat, rep) == s
    decreases |s|
  {
    if |s| >= |pat| {
      assert !OccursAt(s, pat, 0);
      if Contains(s[1..], pat) {
        ContainsSuffix(s, pat, 1);
      }
      ReplaceAllIdentity(s[1..], pat, rep);
      assert s == [s[0]] + s[1..];
    }
  }
}
