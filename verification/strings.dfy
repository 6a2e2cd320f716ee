/** The JavaScript string operations the simulator's helpers rely on:
    `split` on one separator character, global replacement
    (`replace(/x/g, y)`) and `toLowerCase` on ASCII letters. */
module Strings {

  /** Glues `parts` back together with `sep` between neighbours (the inverse
      of `Split`, as `Array.prototype.join` does). */
  function Join(parts: seq<string>, sep: char): string
    requires |parts| >= 1
  {
    if |parts| == 1 then parts[0] else parts[0] + [sep] + Join(parts[1..], sep)
  }

  /** `s.split(sep)` for a one-character separator: the maximal pieces
      between separators, with an empty piece before a leading separator,
      between two adjacent ones and after a trailing one; `"".split(sep)`
      is `[""]`. */
  function Split(s: string, sep: char): (parts: seq<string>)
    ensures |parts| >= 1
    ensures forall k :: 0 <= k < |parts| ==> sep !in parts[k]
    ensures Join(parts, sep) == s
    decreases |s|
  {
    if |s| == 0 then [""]
    else
      var rest := Split(s[1..], sep);
      if s[0] == sep then
        assert s == [sep] + s[1..];
        [""] + rest
      else
        var parts := [[s[0]] + rest[0]] + rest[1..];
        assert parts[1..] == rest[1..];
        assert s == [s[0]] + s[1..];
        parts
  }

  /** Splitting a joined list whose parts hold no separator gives the list
      back. */
  lemma {:induction false} SplitJoin(parts: seq<string>, sep: char)
    requires |parts| >= 1
    requires forall k :: 0 <= k < |parts| ==> sep !in parts[k]
    ensures Split(Join(parts, sep), sep) == parts
    decreases |Join(parts, sep)|
  {
    var p := parts[0];
    if |p| == 0 {
      if |parts| > 1 {
        var tail := Join(parts[1..], sep);
        assert Join(parts, sep) == [sep] + tail;
        assert ([sep] + tail)[1..] == tail;
        SplitJoin(parts[1..], sep);
        assert [""] + parts[1..] == parts;
      }
    } else {
      var shorter := [p[1..]] + parts[1..];
      assert shorter[1..] == parts[1..];
      assert Join(parts, sep) == [p[0]] + Join(shorter, sep) by {
        assert p == [p[0]] + p[1..];
      }
      assert p[0] != sep by {
        assert p[0] in parts[0];
      }
      assert forall k :: 0 <= k < |shorter| ==> sep !in shorter[k] by {
        forall k | 0 <= k < |shorter| ensures sep !in shorter[k] {
          if k == 0 {
            assert forall c :: c in p[1..] ==> c in p;
          } else {
            assert shorter[k] == parts[k];
          }
        }
      }
      SplitJoin(shorter, sep);
      var j := Join(parts, sep);
      assert j[1..] == Join(shorter, sep);
      assert [p[0]] + p[1..] == p;
      assert [p] + parts[1..] == parts;
    }
  }

  /** Every occurrence of the character `c` replaced by `rep`. Together
      with `ReplaceCharConcat` the one-character cases determine it. */
  function ReplaceChar(s: string, c: char, rep: string): (r: string)
    ensures |s| == 0 ==> r == ""
    ensures |s| == 1 ==> r == (if s[0] == c then rep else s)
    ensures c !in rep ==> c !in r
    ensures forall d :: d in r ==> d in s || d in rep
  {
    if |s| == 0 then ""
    else (if s[0] == c then rep else [s[0]]) + ReplaceChar(s[1..], c, rep)
  }

  lemma {:induction false} ReplaceCharConcat(a: string, b: string, c: char, rep: string)
    ensures ReplaceChar(a + b, c, rep) == ReplaceChar(a, c, rep) + ReplaceChar(b, c, rep)
  {
    if |a| > 0 {
      assert (a + b)[1..] == a[1..] + b;
      ReplaceCharConcat(a[1..], b, c, rep);
    } else {
      assert a + b == b;
    }
  }

  lemma {:induction false} ReplaceCharAbsent(s: string, c: char, rep: string)
    requires c !in s
    ensures ReplaceChar(s, c, rep) == s
  {
    if |s| > 0 {
      assert forall d :: d in s[1..] ==> d in s;
      ReplaceCharAbsent(s[1..], c, rep);
      assert s == [s[0]] + s[1..];
    }
  }

  /** Every occurrence of the non-empty pattern `pat`, scanning left to
      right without overlaps, replaced by `rep`. */
  function ReplaceAll(s: string, pat: string, rep: string): (r: string)
    requires |pat| > 0
    ensures forall d :: d in r ==> d in s || d in rep
    ensures pat <= s ==> rep <= r
    decreases |s|
  {
    if |s| == 0 then ""
    else if pat <= s then
      assert forall d :: d in s[|pat|..] ==> d in s;
      rep + ReplaceAll(s[|pat|..], pat, rep)
    else
      assert forall d :: d in s[1..] ==> d in s;
      assert s == [s[0]] + s[1..];
      [s[0]] + ReplaceAll(s[1..], pat, rep)
  }

  /** A string in which `pat` occurs nowhere is left as it is. */
  lemma {:induction false} ReplaceAllNoMatch(s: string, pat: string, rep: string)
    requires |pat| > 0
    requires forall i :: 0 <= i < |s| ==> !(pat <= s[i..])
    ensures ReplaceAll(s, pat, rep) == s
    decreases |s|
  {
    if |s| > 0 {
      assert s[0..] == s;
      forall i | 0 <= i < |s[1..]| ensures !(pat <= s[1..][i..]) {
        assert s[1..][i..] == s[i + 1..];
      }
      ReplaceAllNoMatch(s[1..], pat, rep);
      assert s == [s[0]] + s[1..];
    }
  }

  /** In particular a string without the first character of `pat` is left
      as it is. */
  lemma ReplaceAllAbsent(s: string, pat: string, rep: string)
    requires |pat| > 0 && pat[0] !in s
    ensures ReplaceAll(s, pat, rep) == s
  {
    forall i | 0 <= i < |s| ensures !(pat <= s[i..]) {
      assert s[i..][0] == s[i];
    }
    ReplaceAllNoMatch(s, pat, rep);
  }

  /** One step of `ReplaceAll` on a string that does not start with `pat`. */
  lemma ReplaceAllSkip(s: string, pat: string, rep: string)
    requires |pat| > 0 && |s| > 0 && !(pat <= s)
    ensures ReplaceAll(s, pat, rep) == [s[0]] + ReplaceAll(s[1..], pat, rep)
  {
  }

  /** One step of `ReplaceAll` on a string that starts with `pat`. */
  lemma ReplaceAllHit(pat: string, rep: string, b: string)
    requires |pat| > 0
    ensures ReplaceAll(pat + b, pat, rep) == rep + ReplaceAll(b, pat, rep)
  {
    assert pat <= pat + b;
    assert (pat + b)[|pat|..] == b;
  }

  /** Dropping the first character of `a` keeps `pat` from occurring
      before the occurrence that follows `a`. */
  lemma NoMatchShift(a: string, pat: string, b: string)
    requires |a| > 0
    requires forall i :: 0 <= i < |a| ==> !(pat <= (a + pat + b)[i..])
    ensures !(pat <= a + pat + b)
    ensures (a + pat + b)[1..] == a[1..] + pat + b
    ensures forall i :: 0 <= i < |a[1..]| ==> !(pat <= (a[1..] + pat + b)[i..])
  {
    var s := a + pat + b;
    assert s[0..] == s;
    forall i | 0 <= i < |a[1..]| ensures !(pat <= (a[1..] + pat + b)[i..]) {
      assert (a[1..] + pat + b)[i..] == s[i + 1..];
    }
  }

  /** The leftmost occurrence of `pat` is replaced, the text before it is
      kept, and the replacement goes on after it: every non-overlapping
      occurrence is rewritten. */
  lemma {:induction false} ReplaceAllFirst(a: string, pat: string, rep: string, b: string)
    requires |pat| > 0
    requires forall i :: 0 <= i < |a| ==> !(pat <= (a + pat + b)[i..])
    ensures ReplaceAll(a + pat + b, pat, rep) == a + rep + ReplaceAll(b, pat, rep)
    decreases |a|
  {
    if |a| == 0 {
      assert a + pat + b == pat + b;
      ReplaceAllHit(pat, rep, b);
    } else {
      NoMatchShift(a, pat, b);
      ReplaceAllSkip(a + pat + b, pat, rep);
      ReplaceAllFirst(a[1..], pat, rep, b);
      ConsAppend(a, rep, ReplaceAll(b, pat, rep));
    }
  }

  /** Reattaching the head of a non-empty string in front of a
      concatenation. */
  lemma ConsAppend(a: string, y: string, z: string)
    requires |a| > 0
    ensures [a[0]] + (a[1..] + y + z) == a + y + z
  {
    assert [a[0]] + a[1..] == a;
  }

  /** Replacing a character by a single character works position by
      position. */
  lemma {:induction false} ReplaceCharPointwise(s: string, c: char, d: char)
    ensures |ReplaceChar(s, c, [d])| == |s|
    ensures forall i :: 0 <= i < |s| ==> ReplaceChar(s, c, [d])[i] == (if s[i] == c then d else s[i])
  {
    if |s| > 0 {
      ReplaceCharPointwise(s[1..], c, d);
      var r := ReplaceChar(s, c, [d]);
      assert r == (if s[0] == c then [d] else [s[0]]) + ReplaceChar(s[1..], c, [d]);
      forall i | 0 <= i < |s| ensures r[i] == (if s[i] == c then d else s[i]) {
        if i > 0 {
          assert s[1..][i - 1] == s[i];
        }
      }
    }
  }

  /** `c` with an upper-case ASCII letter mapped to its lower-case form. */
  function LowerChar(c: char): (d: char)
    ensures 'A' <= c <= 'Z' ==> 'a' <= d <= 'z' && d as int == c as int + 32
    ensures !('A' <= c <= 'Z') ==> d == c
  {
    if 'A' <= c <= 'Z' then (c as int + 32) as char else c
  }

  /** `s.toLowerCase()` on ASCII letters. */
  function ToLower(s: string): (r: string)
    ensures |r| == |s|
    ensures forall i :: 0 <= i < |s| ==> r[i] == LowerChar(s[i])
  {
    seq(|s|, i requires 0 <= i < |s| => LowerChar(s[i]))
  }
}
