/**
 * The few Python string operations the workflow uses on model replies:
 * `str.strip()`, `str.startswith`, the `in` operator on strings and
 * `str.replace(pattern, '')`, plus the code-fence removal the classifier and
 * the planner apply before decoding JSON.
 */
module Text {

  /** Python's `str.isspace()` for one character (the Unicode White_Space set Python uses). */
  predicate IsSpace(c: char) {
    || ('\t' <= c <= '\r')
    || ('\U{1c}' <= c <= ' ')
    || c == '\U{85}' || c == '\U{a0}' || c == '\U{1680}'
    || ('\U{2000}' <= c <= '\U{200a}')
    || c == '\U{2028}' || c == '\U{2029}' || c == '\U{202f}' || c == '\U{205f}' || c == '\U{3000}'
  }

  /** Drops leading whitespace: the result is the suffix of `s` after its maximal whitespace prefix. */
  function TrimStart(s: string): (r: string)
    ensures |r| <= |s| && r == s[|s| - |r|..]
    ensures forall i :: 0 <= i < |s| - |r| ==> IsSpace(s[i])
    ensures r != [] ==> !IsSpace(r[0])
  {
    if |s| > 0 && IsSpace(s[0]) then TrimStart(s[1..]) else s
  }

  /** Drops trailing whitespace: the result is the prefix of `s` before its maximal whitespace suffix. */
  function TrimEnd(s: string): (r: string)
    ensures |r| <= |s| && r == s[..|r|]
    ensures forall i :: |r| <= i < |s| ==> IsSpace(s[i])
    ensures r != [] ==> !IsSpace(r[|r| - 1])
  {
    if |s| > 0 && IsSpace(s[|s| - 1]) then TrimEnd(s[..|s| - 1]) else s
  }

  /** `r` is the window of `s` starting at `a`, and everything outside that window is whitespace. */
  predicate CutsOnlySpace(s: string, a: int, r: string) {
    && 0 <= a && a + |r| <= |s|
    && r == s[a..a + |r|]
    && (forall i :: 0 <= i < a ==> IsSpace(s[i]))
    && (forall i :: a + |r| <= i < |s| ==> IsSpace(s[i]))
  }

  /**
   * Python's `s.strip()`: the result is the window of `s` left after cutting
   * a run of whitespace at each end, and neither of its ends is whitespace.
   */
  function Strip(s: string): (r: string)
    ensures r != [] ==> !IsSpace(r[0]) && !IsSpace(r[|r| - 1])
    ensures CutsOnlySpace(s, |s| - |TrimStart(s)|, r)
  {
    var t := TrimStart(s);
    var r := TrimEnd(t);
    StripWindow(s, t, r);
    r
  }

  /**
   * A prefix `r` of a suffix `t` of `s` is a window of `s`; whitespace cut
   * from the front of `s` and from the end of `t` lies at the two ends of
   * `s`, and the window's ends are those of the two trims.
   */
  lemma StripWindow(s: string, t: string, r: string)
    requires |t| <= |s| && t == s[|s| - |t|..]
    requires |r| <= |t| && r == t[..|r|]
    requires forall i :: 0 <= i < |s| - |t| ==> IsSpace(s[i])
    requires forall i :: |r| <= i < |t| ==> IsSpace(t[i])
    requires t != [] ==> !IsSpace(t[0])
    requires r != [] ==> !IsSpace(r[|r| - 1])
    ensures r != [] ==> !IsSpace(r[0]) && !IsSpace(r[|r| - 1])
    ensures CutsOnlySpace(s, |s| - |t|, r)
  {
    assert r != [] ==> r[0] == t[0];
    var a := |s| - |t|;
    forall i | 0 <= i < |r| ensures r[i] == s[a + i] {
      assert r[i] == t[i];
    }
    forall i | a + |r| <= i < |s| ensures IsSpace(s[i]) {
      assert s[i] == t[i - a];
    }
  }

  /** Python's `t in s` for strings: `t` is a prefix of some suffix of `s`. */
  predicate Contains(s: string, t: string)
    ensures t == [] ==> Contains(s, t)
    ensures Contains(s, t) ==> |t| <= |s|
    decreases |s|
  {
    t <= s || (|s| > 0 && Contains(s[1..], t))
  }

  /** `t` occurs in `s` starting at index `i`. */
  predicate OccursAt(s: string, t: string, i: int) {
    0 <= i && i + |t| <= |s| && forall j :: 0 <= j < |t| ==> s[i + j] == t[j]
  }

  /** `Contains` holds exactly when `t` occurs at some index of `s`. */
  lemma {:induction false} ContainsAt(s: string, t: string)
    ensures Contains(s, t) <==> exists i :: OccursAt(s, t, i)
    decreases |s|
  {
    if t <= s {
      assert OccursAt(s, t, 0);
    } else if |s| > 0 {
      ContainsAt(s[1..], t);
      if Contains(s[1..], t) {
        var i :| OccursAt(s[1..], t, i);
        assert OccursAt(s, t, i + 1) by {
          forall j | 0 <= j < |t| ensures s[i + 1 + j] == t[j] {
            assert s[1..][i + j] == t[j];
          }
        }
      }
      if exists i :: OccursAt(s, t, i) {
        var i :| OccursAt(s, t, i);
        assert i != 0;
        assert OccursAt(s[1..], t, i - 1) by {
          forall j | 0 <= j < |t| ensures s[1..][i - 1 + j] == t[j] {
            assert s[i + j] == t[j];
          }
        }
      }
    }
  }

  /** A window of a string that lacks `t` lacks `t` too. */
  lemma SliceLacks(s: string, t: string, a: nat, b: nat)
    requires a <= b <= |s|
    requires !Contains(s, t)
    ensures !Contains(s[a..b], t)
  {
    ContainsAt(s, t);
    ContainsAt(s[a..b], t);
    forall i | OccursAt(s[a..b], t, i) ensures OccursAt(s, t, a + i) {
      forall j | 0 <= j < |t| ensures s[a + i + j] == t[j] {
        assert s[a..b][i + j] == t[j];
      }
    }
  }

  /**
   * Trimming does not change whether a word with no outer whitespace occurs:
   * no occurrence can reach into the stripped whitespace.
   */
  lemma StripKeepsWord(s: string, t: string)
    requires t != [] && !IsSpace(t[0]) && !IsSpace(t[|t| - 1])
    ensures Contains(Strip(s), t) <==> Contains(s, t)
  {
    if Contains(s, t) {
      StripFindsWord(s, t);
    } else {
      StripLacksWord(s, t);
    }
  }

  /** Trimming cannot create an occurrence. */
  lemma StripLacksWord(s: string, t: string)
    requires !Contains(s, t)
    ensures !Contains(Strip(s), t)
  {
    var a := |s| - |TrimStart(s)|;
    SliceLacks(s, t, a, a + |Strip(s)|);
  }

  /** Trimming keeps every occurrence of a word with no outer whitespace. */
  lemma StripFindsWord(s: string, t: string)
    requires t != [] && !IsSpace(t[0]) && !IsSpace(t[|t| - 1])
    requires Contains(s, t)
    ensures Contains(Strip(s), t)
  {
    var u := TrimStart(s);
    var a := |s| - |u|;
    ContainsAt(s, t);
    var i :| OccursAt(s, t, i);
    TrimStartKeeps(s, t, i);
    TrimEndKeeps(u, t, i - a);
    ContainsAt(TrimEnd(u), t);
  }

  /** An occurrence of a word that starts with a non-space survives `TrimStart`, shifted left. */
  lemma TrimStartKeeps(s: string, t: string, i: int)
    requires t != [] && !IsSpace(t[0]) && OccursAt(s, t, i)
    ensures OccursAt(TrimStart(s), t, i - (|s| - |TrimStart(s)|))
  {
    var u := TrimStart(s);
    var a := |s| - |u|;
    assert s[i + 0] == t[0];
    assert a <= i;
    forall j | 0 <= j < |t| ensures u[i - a + j] == t[j] {
      assert s[i + j] == t[j];
    }
  }

  /** An occurrence of a word that ends with a non-space survives `TrimEnd`. */
  lemma TrimEndKeeps(u: string, t: string, i: int)
    requires t != [] && !IsSpace(t[|t| - 1]) && OccursAt(u, t, i)
    ensures OccursAt(TrimEnd(u), t, i)
  {
    var v := TrimEnd(u);
    assert u[i + (|t| - 1)] == t[|t| - 1];
    assert i + |t| <= |v|;
    forall j | 0 <= j < |t| ensures v[i + j] == t[j] {
      assert u[i + j] == t[j];
    }
  }

  /**
   * Python's `s.replace(pat, '')`: scanning from the left, every
   * non-overlapping occurrence of `pat` is removed.
   */
  function RemoveAll(s: string, pat: string): (r: string)
    requires pat != []
    ensures |r| <= |s|
    ensures !Contains(s, pat) ==> r == s
    decreases |s|
  {
    if |s| < |pat| then s
    else if pat <= s then RemoveAll(s[|pat|..], pat)
    else
      assert [s[0]] + s[1..] == s;
      [s[0]] + RemoveAll(s[1..], pat)
  }

  const Fence := "```"
  const JsonFence := "```json"

  /**
   * The classifier's and the planner's clean-up of a model reply before
   * `json.loads`: the text handed on holds no code fence and has no
   * whitespace at either end.
   */
  function StripFences(s: string): (r: string)
    ensures !Contains(r, Fence)
    ensures r != [] ==> !IsSpace(r[0]) && !IsSpace(r[|r| - 1])
  {
    var removed := RemoveAll(RemoveAll(s, JsonFence), Fence);
    RemoveFenceLeavesNone(RemoveAll(s, JsonFence));
    StripLacksWord(removed, Fence);
    Strip(removed)
  }

  /** A string whose first character is not a backtick keeps that character in front. */
  lemma KeepsHead(t: string)
    requires t != [] && t[0] != '`'
    ensures RemoveAll(t, Fence) != [] && RemoveAll(t, Fence)[0] == t[0]
  {
    if |t| >= 3 {
      assert !(Fence <= t);
    }
  }

  /** After removing every fence, no three backticks in a row are left. */
  lemma {:induction false} RemoveFenceLeavesNone(s: string)
    ensures !(Fence <= RemoveAll(s, Fence))
    ensures !Contains(RemoveAll(s, Fence), Fence)
    decreases |s|
  {
    var r := RemoveAll(s, Fence);
    if |s| < 3 {
      assert !(Fence <= r);
    } else if Fence <= s {
      RemoveFenceLeavesNone(s[3..]);
    } else {
      var rest := RemoveAll(s[1..], Fence);
      RemoveFenceLeavesNone(s[1..]);
      assert r == [s[0]] + rest;
      if s[0] == '`' {
        // s does not start with three backticks, so s[1..] does not start with two
        assert !(s[1] == '`' && s[2] == '`');
        if s[1] != '`' {
          KeepsHead(s[1..]);
        } else {
          KeepsHead(s[2..]);
          assert s[1..][1..] == s[2..];
          assert !(Fence <= s[1..]);
          assert rest == [s[1]] + RemoveAll(s[2..], Fence);
        }
        assert !(Fence <= r);
      } else {
        assert !(Fence <= r);
      }
      assert r[1..] == rest;
    }
    assert !(Fence <= r);
    if |r| > 0 {
      if |s| < 3 {
        assert !Contains(r[1..], Fence) by {
          ContainsAt(r[1..], Fence);
        }
      } else if Fence <= s {
      } else {
        assert r[1..] == RemoveAll(s[1..], Fence);
      }
    }
  }

  /** A reply free of backticks is only trimmed. */
  lemma UnfencedOnlyTrimmed(s: string)
    requires forall i :: 0 <= i < |s| ==> s[i] != '`'
    ensures StripFences(s) == Strip(s)
  {
    NoBacktickAbsent(s, JsonFence);
    NoBacktickAbsent(s, Fence);
  }

  lemma {:induction false} NoBacktickAbsent(s: string, pat: string)
    requires pat != [] && pat[0] == '`'
    requires forall i :: 0 <= i < |s| ==> s[i] != '`'
    ensures !Contains(s, pat)
    decreases |s|
  {
    if s != [] {
      if |pat| <= |s| {
        assert s[0] != pat[0];
      }
      NoBacktickAbsent(s[1..], pat);
    }
  }

  /** Removing a backtick-led pattern passes over a backtick-free prefix. */
  lemma {:induction false} RemoveAfterPlain(p: string, t: string, pat: string)
    requires pat != [] && pat[0] == '`'
    requires forall i :: 0 <= i < |p| ==> p[i] != '`'
    ensures RemoveAll(p + t, pat) == p + RemoveAll(t, pat)
    decreases |p|
  {
    if p == [] {
      assert p + t == t;
    } else {
      var s := p + t;
      var rest := RemoveAll(t, pat);
      if |s| < |pat| {
        // too short to hold the pattern: nothing is removed on either side
        assert RemoveAll(s, pat) == s;
        assert rest == t;
      } else {
        assert RemoveAll(s, pat) == [s[0]] + RemoveAll(s[1..], pat) by {
          assert s[0] == p[0];
          assert !(pat <= s);
        }
        assert RemoveAll(s[1..], pat) == p[1..] + rest by {
          assert s[1..] == p[1..] + t;
          RemoveAfterPlain(p[1..], t, pat);
        }
        assert [p[0]] + (p[1..] + rest) == p + rest;
      }
    }
  }

  /**
   * A JSON payload wrapped in a ```json fence comes out as the trimmed
   * payload, provided the payload itself holds no backtick.
   */
  lemma {:induction false} FencedPayload(p: string)
    requires forall i :: 0 <= i < |p| ==> p[i] != '`'
    ensures StripFences(JsonFence + p + Fence) == Strip(p)
  {
    var s := JsonFence + p + Fence;
    assert s[..7] == JsonFence;
    assert s[7..] == p + Fence;
    assert RemoveAll(s, JsonFence) == RemoveAll(p + Fence, JsonFence);
    RemoveAfterPlain(p, Fence, JsonFence);
    assert RemoveAll(Fence, JsonFence) == Fence;
    RemoveAfterPlain(p, Fence, Fence);
    assert RemoveAll(Fence, Fence) == [];
    assert p + [] == p;
  }
}
