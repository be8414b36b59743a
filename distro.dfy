/** Distro identification: the release-file text is lowercased and searched for
    the names of the three supported distributions, in a fixed priority order. */
module Distros {

  /** The supported distributions, plus the case where none is recognised. */
  datatype Distro = Unknown | Alpine | Debian | Fedora

  /** ASCII lowercasing of one character; every other character is left alone. */
  function LowerChar(c: char): (l: char) {
    if 'A' <= c <= 'Z' then (c as int - 'A' as int + 'a' as int) as char else c
  }

  /** Lowercases a string character by character (ASCII letters only). */
  function ToLower(s: string): (r: string)
    ensures |r| == |s|
    ensures forall i :: 0 <= i < |s| ==> r[i] == LowerChar(s[i])
  {
    if s == [] then [] else [LowerChar(s[0])] + ToLower(s[1..])
  }

  /** `sub` occurs in `s` starting at offset `i`. */
  predicate OccursAt(s: string, sub: string, i: nat)
    requires i + |sub| <= |s|
  {
    s[i..i + |sub|] == sub
  }

  /** `sub` occurs as a contiguous piece of `s`. */
  predicate Contains(s: string, sub: string) {
    exists i: nat :: i + |sub| <= |s| && OccursAt(s, sub, i)
  }

  /** The emptiness test applied to a release file's contents. */
  function IsStringEmpty(s: string): (r: bool) {
    |s| == 0
  }

  /** The detector: lowercase the contents, then the first of "debian",
      "alpine", "fedora" that occurs decides; otherwise Unknown. */
  function IdentifyDistro(contents: string): (d: Distro) {
    var lower := ToLower(contents);
    if Contains(lower, "debian") then Debian
    else if Contains(lower, "alpine") then Alpine
    else if Contains(lower, "fedora") then Fedora
    else Unknown
  }

  // ---------------------------------------------------------------------
  // An independent reading of "occurs, ignoring letter case", used to state
  // what the detector means without going through ToLower.

  /** `w` occurs in `s` at offset `i`, comparing letters case-insensitively. */
  predicate MatchesAt(s: string, w: string, i: nat)
    requires i + |w| <= |s|
  {
    forall k :: 0 <= k < |w| ==> LowerChar(s[i + k]) == LowerChar(w[k])
  }

  predicate ContainsIgnoreCase(s: string, w: string) {
    exists i: nat :: i + |w| <= |s| && MatchesAt(s, w, i)
  }

  /** Two strings that differ only in the case of ASCII letters. */
  predicate SameUpToCase(a: string, b: string) {
    |a| == |b| && forall i :: 0 <= i < |a| ==> LowerChar(a[i]) == LowerChar(b[i])
  }

  /** Searching the lowercased text for the lowercased word is the same as a
      case-insensitive search. */
  lemma ContainsLowerIff(s: string, w: string)
    ensures Contains(ToLower(s), ToLower(w)) <==> ContainsIgnoreCase(s, w)
  {
    var ls, lw := ToLower(s), ToLower(w);
    if Contains(ls, lw) {
      var i: nat :| i + |lw| <= |ls| && OccursAt(ls, lw, i);
      forall k | 0 <= k < |w|
        ensures LowerChar(s[i + k]) == LowerChar(w[k])
      {
        assert ls[i..i + |lw|][k] == lw[k];
      }
      assert MatchesAt(s, w, i);
    }
    if ContainsIgnoreCase(s, w) {
      var i: nat :| i + |w| <= |s| && MatchesAt(s, w, i);
      forall k | 0 <= k < |w|
        ensures ls[i..i + |lw|][k] == lw[k]
      {
        assert ls[i + k] == LowerChar(s[i + k]);
      }
      assert OccursAt(ls, lw, i);
    }
  }

  /** The three target words are already lowercase. */
  lemma TargetsAreLowercase()
    ensures ToLower("debian") == "debian"
    ensures ToLower("alpine") == "alpine"
    ensures ToLower("fedora") == "fedora"
  {
  }

  /** What the detector returns, stated with the case-insensitive search:
      the priority is debian > alpine > fedora, and Unknown exactly when none
      of the three names occurs. */
  lemma IdentifyDistroMeaning(contents: string)
    ensures IdentifyDistro(contents) == Debian <==> ContainsIgnoreCase(contents, "debian")
    ensures IdentifyDistro(contents) == Alpine <==>
              !ContainsIgnoreCase(contents, "debian") && ContainsIgnoreCase(contents, "alpine")
    ensures IdentifyDistro(contents) == Fedora <==>
              !ContainsIgnoreCase(contents, "debian") && !ContainsIgnoreCase(contents, "alpine")
              && ContainsIgnoreCase(contents, "fedora")
    ensures IdentifyDistro(contents) == Unknown <==>
              !ContainsIgnoreCase(contents, "debian") && !ContainsIgnoreCase(contents, "alpine")
              && !ContainsIgnoreCase(contents, "fedora")
  {
    TargetsAreLowercase();
    ContainsLowerIff(contents, "debian");
    ContainsLowerIff(contents, "alpine");
    ContainsLowerIff(contents, "fedora");
  }

  /** Identification ignores ASCII letter case. */
  lemma IdentifyDistroIgnoresCase(a: string, b: string)
    requires SameUpToCase(a, b)
    ensures IdentifyDistro(a) == IdentifyDistro(b)
  {
    assert ToLower(a) == ToLower(b);
  }

  /** Lowercasing the contents first changes nothing. */
  lemma IdentifyDistroOfLowered(contents: string)
    ensures IdentifyDistro(ToLower(contents)) == IdentifyDistro(contents)
  {
    IdentifyDistroIgnoresCase(ToLower(contents), contents);
  }

  /** A Debian release file is identified as Debian. */
  lemma IdentifyDebianExample()
    ensures IdentifyDistro("ID=debian\nVERSION=11\n") == Debian
  {
    var d := "ID=debian\nVERSION=11\n";
    assert MatchesAt(d, "debian", 3);
    IdentifyDistroMeaning(d);
  }

  /** An Ubuntu release file names Debian as its parent, so it is Debian too. */
  lemma IdentifyUbuntuExample()
    ensures IdentifyDistro("ID=ubuntu\nID_LIKE=debian\n") == Debian
  {
    var u := "ID=ubuntu\nID_LIKE=debian\n";
    assert MatchesAt(u, "debian", 18);
    IdentifyDistroMeaning(u);
  }

  /** Upper-case letters in the release file do not hide the name. */
  lemma IdentifyFedoraExample()
    ensures IdentifyDistro("Fedora") == Fedora
  {
    var upper := "Fedora";
    assert ToLower(upper)[0] == LowerChar('F') == 'f';
    assert ToLower(upper) == "fedora";
    assert OccursAt("fedora", "fedora", 0);
  }
}
