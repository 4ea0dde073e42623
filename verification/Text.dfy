/** ASCII models of the two string operations the watchdog normalises names with. */
module Text {

  predicate IsSpace(c: char) {
    c == ' ' || '\t' <= c <= '\r'
  }

  function TrimLeft(s: string): string {
    if s != [] && IsSpace(s[0]) then TrimLeft(s[1..]) else s
  }

  function TrimRight(s: string): string {
    if s != [] && IsSpace(s[|s| - 1]) then TrimRight(s[..|s| - 1]) else s
  }

  /** strings.TrimSpace */
  function TrimSpace(s: string): string {
    TrimRight(TrimLeft(s))
  }

  function LowerChar(c: char): char {
    if 'A' <= c <= 'Z' then (c as int + 32) as char else c
  }

  /** strings.ToLower */
  function ToLower(s: string): (r: string)
    ensures |r| == |s|
  {
    seq(|s|, i requires 0 <= i < |s| => LowerChar(s[i]))
  }

  /** What TrimSpace leaves alone. */
  predicate Trimmed(s: string) {
    s == [] || (!IsSpace(s[0]) && !IsSpace(s[|s| - 1]))
  }

  lemma {:induction false} TrimRightKeepsHead(s: string)
    requires s != [] && !IsSpace(s[0])
    ensures TrimRight(s) != [] && TrimRight(s)[0] == s[0] && Trimmed(TrimRight(s))
  {
    if IsSpace(s[|s| - 1]) {
      TrimRightKeepsHead(s[..|s| - 1]);
    }
  }

  lemma {:induction false} TrimSpaceTrims(s: string)
    ensures Trimmed(TrimSpace(s))
  {
    if s != [] {
      if IsSpace(s[0]) {
        TrimSpaceTrims(s[1..]);
      } else {
        TrimRightKeepsHead(s);
      }
    }
  }

  lemma TrimSpaceFixes(s: string)
    requires Trimmed(s)
    ensures TrimSpace(s) == s
  {
  }

  lemma LowerCharFacts(c: char)
    ensures LowerChar(LowerChar(c)) == LowerChar(c)
    ensures IsSpace(LowerChar(c)) == IsSpace(c)
  {
  }

  lemma LowerFixesLower(s: string)
    ensures ToLower(ToLower(s)) == ToLower(s)
  {
    forall i | 0 <= i < |s| ensures ToLower(ToLower(s))[i] == ToLower(s)[i] {
      LowerCharFacts(s[i]);
    }
  }

  /** A substring that trimming keeps of a lower-case string is still lower-case. */
  lemma {:induction false} TrimKeepsLower(s: string)
    requires ToLower(s) == s
    ensures ToLower(TrimSpace(s)) == TrimSpace(s)
    decreases |s|
  {
    if s != [] && IsSpace(s[0]) {
      assert forall i | 0 <= i < |s| :: LowerChar(s[i]) == ToLower(s)[i];
      TrimKeepsLower(s[1..]);
    } else {
      TrimRightKeepsLower(s);
    }
  }

  lemma {:induction false} TrimRightKeepsLower(s: string)
    requires ToLower(s) == s
    ensures ToLower(TrimRight(s)) == TrimRight(s)
  {
    if s != [] && IsSpace(s[|s| - 1]) {
      assert forall i | 0 <= i < |s| :: LowerChar(s[i]) == ToLower(s)[i];
      TrimRightKeepsLower(s[..|s| - 1]);
    }
  }

  /** Lower-casing then trimming is idempotent: the normal form the registries key on. */
  lemma NormalFormFixed(s: string)
    ensures TrimSpace(ToLower(TrimSpace(ToLower(s)))) == TrimSpace(ToLower(s))
  {
    var n := TrimSpace(ToLower(s));
    LowerFixesLower(s);
    TrimKeepsLower(ToLower(s));
    TrimSpaceTrims(ToLower(s));
    TrimSpaceFixes(n);
  }

  /* ---- what the operations mean ---- */

  /** The six ASCII characters that Go trims. */
  predicate Blank(s: string) {
    forall i :: 0 <= i < |s| ==> s[i] in {' ', '\t', '\n', '\U{b}', '\U{c}', '\r'}
  }

  lemma {:induction false} TrimLeftIs(s: string) returns (i: nat)
    ensures i <= |s| && Blank(s[..i]) && TrimLeft(s) == s[i..]
  {
    if s != [] && IsSpace(s[0]) {
      var k := TrimLeftIs(s[1..]);
      i := k + 1;
      assert s[..i] == [s[0]] + s[1..][..k] && s[1..][k..] == s[i..];
    } else {
      i := 0;
    }
  }

  lemma {:induction false} TrimRightIs(s: string) returns (j: nat)
    ensures j <= |s| && Blank(s[j..]) && TrimRight(s) == s[..j]
  {
    if s != [] && IsSpace(s[|s| - 1]) {
      j := TrimRightIs(s[..|s| - 1]);
      assert s[j..] == s[..|s| - 1][j..] + [s[|s| - 1]];
      assert s[..|s| - 1][..j] == s[..j];
    } else {
      j := |s|;
    }
  }

  /** Trimming cuts blanks off both ends, and leaves neither end blank. */
  lemma TrimSpaceIs(s: string) returns (i: nat, j: nat)
    ensures i <= j <= |s| && TrimSpace(s) == s[i..j] && Blank(s[..i]) && Blank(s[j..])
    ensures i < j ==> !Blank([s[i]]) && !Blank([s[j - 1]])
  {
    i := TrimLeftIs(s);
    var k := TrimRightIs(s[i..]);
    j := i + k;
    assert s[i..][..k] == s[i..j] && s[i..][k..] == s[j..];
    TrimSpaceTrims(s);
    if i < j {
      BlankOne(s[i]);
      BlankOne(s[j - 1]);
    }
  }

  lemma BlankOne(c: char)
    ensures Blank([c]) <==> IsSpace(c)
  {
    assert [c][0] == c;
  }

  /** Lower-casing moves the letters A to Z, and nothing else, to the small letter of the same rank. */
  lemma ToLowerIs(s: string, i: nat)
    requires i < |s|
    ensures var (c, d) := (s[i], ToLower(s)[i]);
            if c in "ABCDEFGHIJKLMNOPQRSTUVWXYZ" then d as int - 'a' as int == c as int - 'A' as int else d == c
  {
    var letters := "ABCDEFGHIJKLMNOPQRSTUVWXYZ";
    assert forall k :: 0 <= k < 26 ==> letters[k] as int == 'A' as int + k;
    if 'A' <= s[i] <= 'Z' {
      assert letters[s[i] as int - 'A' as int] == s[i];
    }
  }
}
