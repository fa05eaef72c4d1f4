/** Stripping space from the ends of a text. */
module Text {
  /** The characters that stripping removes at either end. */
  predicate IsSpace(c: char) {
    var n := c as int;
    || 9 <= n <= 13 || 28 <= n <= 32 || n == 0x85 || n == 0xa0 || n == 0x1680 || 0x2000 <= n <= 0x200a
    || n == 0x2028 || n == 0x2029 || n == 0x202f || n == 0x205f || n == 0x3000
  }

  function Strip(s: string): (r: string)
    ensures |r| <= |s|
    decreases |s|
  {
    if s == "" then ""
    else if IsSpace(s[0]) then Strip(s[1..])
    else if IsSpace(s[|s| - 1]) then Strip(s[..|s| - 1])
    else s
  }

  /** The core of a text: everything but the spaces at its ends. */
  ghost predicate IsCore(s: string, core: string) {
    exists lo, hi :: IsCoreAt(s, core, lo, hi)
  }

  ghost predicate IsCoreAt(s: string, core: string, lo: int, hi: int) {
    && 0 <= lo <= hi <= |s| && core == s[lo..hi]
    && (forall i :: 0 <= i < lo || hi <= i < |s| ==> IsSpace(s[i]))
    && (core != "" ==> !IsSpace(core[0]) && !IsSpace(core[|core| - 1]))
  }

  lemma {:induction false} StripHasStretch(s: string) returns (lo: nat, hi: nat)
    ensures IsCoreAt(s, Strip(s), lo, hi)
    decreases |s|
  {
    if s == "" {
      lo, hi := 0, 0;
    } else if IsSpace(s[0]) {
      lo, hi := StripHasStretch(s[1..]);
      StretchOfStretch(s, 1, |s|, lo, hi);
      assert forall i :: 1 <= i < |s| ==> s[i] == s[1..][i - 1];
      lo, hi := lo + 1, hi + 1;
    } else if IsSpace(s[|s| - 1]) {
      lo, hi := StripHasStretch(s[..|s| - 1]);
      StretchOfStretch(s, 0, |s| - 1, lo, hi);
    } else {
      lo, hi := 0, |s|;
      assert s[lo..hi] == s;
    }
  }

  lemma CoreIsUnique(s: string, a: string, b: string, lo: int, hi: int, from: int, to: int)
    requires IsCoreAt(s, a, lo, hi) && IsCoreAt(s, b, from, to)
    ensures a == b
  {
    if a != "" {
      assert !IsSpace(s[lo]) && !IsSpace(s[hi - 1]);
    }
    if b != "" {
      assert !IsSpace(s[from]) && !IsSpace(s[to - 1]);
    }
  }

  /** Stripping gives the core of a text, and a text has only one. */
  lemma StripIsCore(s: string, core: string)
    ensures IsCore(s, core) <==> core == Strip(s)
  {
    var lo, hi := StripHasStretch(s);
    if IsCore(s, core) {
      var from, to :| IsCoreAt(s, core, from, to);
      CoreIsUnique(s, Strip(s), core, lo, hi, from, to);
    }
  }

  lemma StretchOfStretch(s: string, start: nat, end: nat, lo: nat, hi: nat)
    requires start <= end <= |s| && lo <= hi <= end - start
    ensures s[start..end][lo..hi] == s[start + lo..start + hi]
  {
    forall k | 0 <= k < hi - lo ensures s[start..end][lo..hi][k] == s[start + lo..start + hi][k] {
      assert s[start..end][lo + k] == s[start + (lo + k)];
    }
  }

  /** Stripping cuts out a stretch that still has every character that is not a space. */
  lemma {:induction false} StripKeeps(s: string, j: nat) returns (lo: nat, hi: nat)
    requires j < |s| && !IsSpace(s[j])
    ensures lo <= j < hi <= |s| && Strip(s) == s[lo..hi]
    decreases |s|
  {
    if IsSpace(s[0]) {
      lo, hi := StripKeeps(s[1..], j - 1);
      StretchOfStretch(s, 1, |s|, lo, hi);
      lo, hi := lo + 1, hi + 1;
    } else if IsSpace(s[|s| - 1]) {
      lo, hi := StripKeeps(s[..|s| - 1], j);
      StretchOfStretch(s, 0, |s| - 1, lo, hi);
    } else {
      lo, hi := 0, |s|;
      assert s[lo..hi] == s;
    }
  }
}
