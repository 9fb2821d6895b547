/**
 * The code-fence rewrite `s.replace(/@@@/g, '```')`: Lighthouse marks code
 * blocks with `@@@`, GitHub with three backticks. A global regular-expression
 * replace scans left to right and never lets two matches overlap.
 */
module Fence {

  const CodeFence: string := "```"

  /** `s` holds `@@@` starting at position `i`. */
  predicate MarkerAt(s: string, i: int)
  {
    0 <= i && i + 3 <= |s| && s[i] == '@' && s[i + 1] == '@' && s[i + 2] == '@'
  }

  /** No `@@@` occurs anywhere in `s`. */
  ghost predicate NoMarker(s: string)
  {
    forall i :: !MarkerAt(s, i)
  }

  /** The left-to-right, non-overlapping replace-all. */
  function ReplaceMarkers(s: string): (r: string)
    ensures |r| == |s|
    decreases |s|
  {
    if MarkerAt(s, 0) then CodeFence + ReplaceMarkers(s[3..])
    else if s == [] then []
    else [s[0]] + ReplaceMarkers(s[1..])
  }

  /** The rewrite keeps every character in place: text outside the markers
      is left alone, each output character is either the input character at
      that position or a backtick, and an `@` survives only where the input
      had one. */
  lemma {:induction false} ReplaceAligned(s: string, k: int)
    requires 0 <= k < |s|
    ensures s[k] != '@' ==> ReplaceMarkers(s)[k] == s[k]
    ensures ReplaceMarkers(s)[k] == s[k] || ReplaceMarkers(s)[k] == '`'
    ensures ReplaceMarkers(s)[k] != '@' || s[k] == '@'
    decreases |s|
  {
    var r := ReplaceMarkers(s);
    if MarkerAt(s, 0) {
      assert r == CodeFence + ReplaceMarkers(s[3..]);
      if k >= 3 {
        ReplaceAligned(s[3..], k - 3);
        assert r[k] == ReplaceMarkers(s[3..])[k - 3] && s[k] == s[3..][k - 3];
      }
    } else if k > 0 {
      assert r == [s[0]] + ReplaceMarkers(s[1..]);
      ReplaceAligned(s[1..], k - 1);
      assert r[k] == ReplaceMarkers(s[1..])[k - 1] && s[k] == s[1..][k - 1];
    }
  }

  /** After the rewrite no `@@@` is left, since the fence holds no `@`. */
  lemma {:induction false} ReplaceLeavesNoMarker(s: string)
    ensures NoMarker(ReplaceMarkers(s))
    decreases |s|
  {
    var r := ReplaceMarkers(s);
    if MarkerAt(s, 0) {
      ReplaceLeavesNoMarker(s[3..]);
      forall i ensures !MarkerAt(r, i) {
        if i >= 3 {
          assert !MarkerAt(ReplaceMarkers(s[3..]), i - 3);
        }
      }
    } else if s != [] {
      ReplaceLeavesNoMarker(s[1..]);
      forall i ensures !MarkerAt(r, i) {
        if i >= 1 {
          assert !MarkerAt(ReplaceMarkers(s[1..]), i - 1);
        } else if i == 0 && |s| >= 3 {
          // an `@@@` at the front of `r` would come from one at the front of `s`
          ReplaceAligned(s, 0);
          ReplaceAligned(s, 1);
          ReplaceAligned(s, 2);
        }
      }
    }
  }

  /** A body without `@@@` passes through unchanged. */
  lemma {:induction false} ReplaceKeepsUnmarked(s: string)
    requires NoMarker(s)
    ensures ReplaceMarkers(s) == s
    decreases |s|
  {
    if s != [] {
      assert !MarkerAt(s, 0);
      assert NoMarker(s[1..]) by {
        forall i ensures !MarkerAt(s[1..], i) {
          assert !MarkerAt(s, i + 1);
        }
      }
      ReplaceKeepsUnmarked(s[1..]);
      assert s == [s[0]] + s[1..];
    }
  }

  /** The rewrite changes `s` exactly when `s` holds a marker. */
  lemma ReplaceFixedIff(s: string)
    ensures ReplaceMarkers(s) == s <==> NoMarker(s)
  {
    ReplaceLeavesNoMarker(s);
    if NoMarker(s) {
      ReplaceKeepsUnmarked(s);
    }
  }

  /** Rewriting twice is rewriting once. */
  lemma ReplaceIdempotent(s: string)
    ensures ReplaceMarkers(ReplaceMarkers(s)) == ReplaceMarkers(s)
  {
    ReplaceLeavesNoMarker(s);
    ReplaceKeepsUnmarked(ReplaceMarkers(s));
  }

  /** Gluing two marker-free strings makes no marker, provided the seam is
      not `@` on both sides. */
  lemma NoMarkerConcat(a: string, b: string)
    requires NoMarker(a) && NoMarker(b)
    requires a == [] || b == [] || a[|a| - 1] != '@' || b[0] != '@'
    ensures NoMarker(a + b)
  {
    forall i | 0 <= i && i + 3 <= |a + b| ensures !MarkerAt(a + b, i) {
      if i + 3 <= |a| {
        assert !MarkerAt(a, i);
        assert (a + b)[i] == a[i] && (a + b)[i + 1] == a[i + 1] && (a + b)[i + 2] == a[i + 2];
      } else if i >= |a| {
        assert !MarkerAt(b, i - |a|);
        assert (a + b)[i] == b[i - |a|] && (a + b)[i + 1] == b[i + 1 - |a|] && (a + b)[i + 2] == b[i + 2 - |a|];
      } else {
        // the three characters straddle the seam
        assert (a + b)[|a| - 1] == a[|a| - 1] && (a + b)[|a|] == b[0];
      }
    }
  }

  /** A string without `@` holds no marker. */
  lemma NoAtNoMarker(s: string)
    requires '@' !in s
    ensures NoMarker(s)
  {
    forall i | 0 <= i < |s| ensures !MarkerAt(s, i) {
      assert s[i] in s;
    }
  }
}
