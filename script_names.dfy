/** The name the "Create Script" button proposes for a new C# script, derived from the
    program asset's file name. */
module ScriptNames {

  /** String.Replace with an ordinal match: every occurrence of `pattern`, scanning from the left
      without overlaps, becomes `replacement`. Replacing a text by itself changes nothing. */
  function ReplaceAll(s: string, pattern: string, replacement: string): (r: string)
    requires |pattern| > 0
    ensures replacement == pattern ==> r == s
    decreases |s|
  {
    if |s| < |pattern| then s
    else if s[..|pattern|] == pattern then replacement + ReplaceAll(s[|pattern|..], pattern, replacement)
    else [s[0]] + ReplaceAll(s[1..], pattern, replacement)
  }

  /** Replacing a single character by a text that does not contain it leaves none of it. */
  lemma {:induction false} ReplaceAllRemovesChar(s: string, c: char, replacement: string)
    requires c !in replacement
    ensures c !in ReplaceAll(s, [c], replacement)
    decreases |s|
  {
    if |s| >= 1 {
      ReplaceAllRemovesChar(s[1..], c, replacement);
      if s[..1] != [c] {
        assert s[0] != c;
      }
    }
  }

  /** A character in neither the text nor the replacement does not appear in the result. */
  lemma {:induction false} ReplaceAllKeepsAbsent(s: string, pattern: string, replacement: string, c: char)
    requires |pattern| > 0 && c !in s && c !in replacement
    ensures c !in ReplaceAll(s, pattern, replacement)
    decreases |s|
  {
    if |s| >= |pattern| {
      if s[..|pattern|] == pattern {
        assert forall x :: x in s[|pattern|..] ==> x in s;
        ReplaceAllKeepsAbsent(s[|pattern|..], pattern, replacement, c);
      } else {
        assert forall x :: x in s[1..] ==> x in s;
        ReplaceAllKeepsAbsent(s[1..], pattern, replacement, c);
      }
    }
  }

  /** What the asset menu appends to a new program asset's name. */
  const AssetNameSuffix := " Udon C# Program Asset"

  /** The asset's file name (without extension) with " Udon C# Program Asset" removed, spaces
      dropped and '#' spelled "Sharp": a name with no space and no '#'. */
  function ScriptFileName(assetFileName: string): (r: string)
    ensures ' ' !in r && '#' !in r
  {
    var stripped := ReplaceAll(assetFileName, AssetNameSuffix, "");
    var noSpaces := ReplaceAll(stripped, " ", "");
    ReplaceAllRemovesChar(stripped, ' ', "");
    ReplaceAllRemovesChar(noSpaces, '#', "Sharp");
    ReplaceAllKeepsAbsent(noSpaces, "#", "Sharp", ' ');
    ReplaceAll(noSpaces, "#", "Sharp")
  }

  /** The default file name of a new asset, "New Udon C# Program Asset", yields "New". */
  lemma ScriptFileNameOfNewAsset()
    ensures ScriptFileName("New" + AssetNameSuffix) == "New"
  {
    StripSuffixOfNew();
    NewKeepsItsLetters();
  }

  lemma StripSuffixOfNew()
    ensures ReplaceAll("New" + AssetNameSuffix, AssetNameSuffix, "") == "New"
  {
    StripSuffixAfterWord("New");
  }

  lemma SuffixAloneStrips()
    ensures ReplaceAll(AssetNameSuffix, AssetNameSuffix, "") == ""
  {
    var suffix := AssetNameSuffix;
    assert suffix[..|suffix|] == suffix && suffix[|suffix|..] == "";
  }

  /** A name without spaces followed by the suffix loses exactly the suffix. */
  lemma {:induction false} StripSuffixAfterWord(x: string)
    requires ' ' !in x
    ensures ReplaceAll(x + AssetNameSuffix, AssetNameSuffix, "") == x
    decreases |x|
  {
    var suffix := AssetNameSuffix;
    if x == [] {
      assert x + suffix == suffix;
      SuffixAloneStrips();
    } else {
      var s := x + suffix;
      assert s[..|suffix|][0] == x[0] != suffix[0];
      assert s[1..] == x[1..] + suffix;
      assert ' ' !in x[1..] by {
        forall k | 0 <= k < |x| - 1 ensures x[1..][k] != ' ' { assert x[1..][k] == x[k + 1]; }
      }
      StripSuffixAfterWord(x[1..]);
      assert [x[0]] + x[1..] == x;
    }
  }

  lemma NewKeepsItsLetters()
    ensures ReplaceAll("New", " ", "") == "New" && ReplaceAll("New", "#", "Sharp") == "New"
  {
    assert ReplaceAll("w", " ", "") == "w";
    assert ReplaceAll("ew", " ", "") == "ew";
    assert ReplaceAll("w", "#", "Sharp") == "w";
    assert ReplaceAll("ew", "#", "Sharp") == "ew";
  }

  /** Spaces go and "C#" is spelled out. */
  lemma ScriptFileNameSpellsSharp()
    ensures ScriptFileName("My C#") == "MyCSharp"
  {
    assert ReplaceAll("My C#", AssetNameSuffix, "") == "My C#";
    MyCSharpLosesSpace();
    MyCSharpSpellsSharp();
  }

  lemma MyCSharpLosesSpace()
    ensures ReplaceAll("My C#", " ", "") == "MyC#"
  {
    assert ReplaceAll("#", " ", "") == "#";
    assert ReplaceAll("C#", " ", "") == "C#";
    assert ReplaceAll(" C#", " ", "") == "C#";
    assert ReplaceAll("y C#", " ", "") == "yC#";
  }

  lemma MyCSharpSpellsSharp()
    ensures ReplaceAll("MyC#", "#", "Sharp") == "MyCSharp"
  {
    assert ReplaceAll("#", "#", "Sharp") == "Sharp";
    assert ReplaceAll("C#", "#", "Sharp") == "CSharp";
    assert ReplaceAll("yC#", "#", "Sharp") == "yCSharp";
  }
}
