/** Trimming and case folding, over the characters the program meets in names and notes: ASCII. */
module Text {

  predicate IsSpace(c: char) {
    c == ' ' || c == '\t' || c == '\n' || c == '\r'
  }

  function TrimStart(s: string): (r: string)
    ensures r == "" || !IsSpace(r[0])
  {
    if s == "" || !IsSpace(s[0]) then s else TrimStart(s[1..])
  }

  function TrimEnd(s: string): (r: string)
    ensures r <= s && (r == "" || !IsSpace(r[|r| - 1]))
    ensures s != "" && !IsSpace(s[0]) ==> r != ""
  {
    if s == "" || !IsSpace(s[|s| - 1]) then s else TrimEnd(s[..|s| - 1])
  }

  function Trim(s: string): string {
    TrimEnd(TrimStart(s))
  }

  function LowerChar(c: char): char {
    if 'A' <= c <= 'Z' then c - 'A' + 'a' else c
  }

  function ToLower(s: string): string {
    seq(|s|, k requires 0 <= k < |s| => LowerChar(s[k]))
  }

  /** The key under which two spellings of a name are the same name. */
  function Fold(name: string): string {
    ToLower(Trim(name))
  }

  // ---- what these say, character by character -------------------------------------------

  predicate Blank(s: string) {
    forall k :: 0 <= k < |s| ==> s[k] in " \t\n\r"
  }

  /** The trimmed text is what is left between blanks, and does not start or end with one. */
  ghost predicate Between(s: string, i: nat, j: nat) {
    i <= j <= |s| && Blank(s[..i]) && Blank(s[j..]) && (i < j ==> s[i] !in " \t\n\r" && s[j - 1] !in " \t\n\r")
  }

  lemma {:induction false} TrimStartDrops(s: string) returns (i: nat)
    ensures i <= |s| && TrimStart(s) == s[i..] && Blank(s[..i])
    decreases |s|
  {
    if s == "" || !IsSpace(s[0]) {
      i := 0;
    } else {
      var j := TrimStartDrops(s[1..]);
      i := j + 1;
      assert s[..i] == [s[0]] + s[1..][..j];
    }
  }

  lemma {:induction false} TrimEndDrops(s: string) returns (j: nat)
    ensures j <= |s| && TrimEnd(s) == s[..j] && Blank(s[j..])
    decreases |s|
  {
    if s == "" || !IsSpace(s[|s| - 1]) {
      j := |s|;
    } else {
      j := TrimEndDrops(s[..|s| - 1]);
      assert s[j..] == s[..|s| - 1][j..] + [s[|s| - 1]];
    }
  }

  lemma TrimIsBetween(s: string) returns (i: nat, j: nat)
    ensures Between(s, i, j) && Trim(s) == s[i..j]
  {
    i := TrimStartDrops(s);
    var n := TrimEndDrops(s[i..]);
    j := i + n;
    assert s[j..] == s[i..][n..];
  }

  /** Nothing is left exactly of blanks. */
  lemma TrimLeaves(s: string)
    ensures Trim(s) == "" <==> Blank(s)
  {
    var i, j := TrimIsBetween(s);
    if i == j {
      forall k | 0 <= k < |s|
        ensures s[k] in " \t\n\r"
      {
        if k < i {
          assert s[..i][k] == s[k];
        } else {
          assert s[j..][k - j] == s[k];
        }
      }
    }
  }

  /** A folded name is the name without its outer blanks, each of A to Z thirty-two places on. */
  lemma FoldIs(name: string) returns (i: nat, j: nat)
    ensures Between(name, i, j) && |Fold(name)| == j - i
    ensures forall k :: 0 <= k < j - i ==>
      Fold(name)[k] as int == name[i + k] as int + if 'A' <= name[i + k] <= 'Z' then 32 else 0
  {
    i, j := TrimIsBetween(name);
  }
}
