/** Slugs of titles from the static project catalogue (src/data/projects.ts).
    Catalogue titles are words of letters and digits separated by spaces or
    " - "; such a title slugifies to its lower-cased words joined by single
    hyphens. */
module Catalogue {
  import opened Wrappers
  import opened ProjectUtils

  /** `words[0] + seps[0] + words[1] + ... + words[n]`. */
  function Interleave(words: seq<string>, seps: seq<string>): (r: string)
    requires |words| == |seps| + 1
  {
    if |seps| == 0 then words[0] else words[0] + seps[0] + Interleave(words[1..], seps[1..])
  }

  /** The words joined by single hyphens. */
  function HyphenJoin(words: seq<string>): (r: string)
    requires |words| > 0
  {
    if |words| == 1 then words[0] else words[0] + "-" + HyphenJoin(words[1..])
  }

  predicate AllAlnum(w: string) {
    forall i :: 0 <= i < |w| ==> IsAlnum(w[i])
  }

  predicate NoAlnum(w: string) {
    forall i :: 0 <= i < |w| ==> !IsAlnum(w[i])
  }

  lemma {:induction false} ToLowerInterleave(words: seq<string>, lower: seq<string>, seps: seq<string>)
    requires |words| == |lower| == |seps| + 1
    requires forall i :: 0 <= i < |words| ==> ToLower(words[i]) == lower[i]
    requires forall i :: 0 <= i < |seps| ==> ToLower(seps[i]) == seps[i]
    ensures ToLower(Interleave(words, seps)) == Interleave(lower, seps)
  {
    if |seps| > 0 {
      ToLowerInterleave(words[1..], lower[1..], seps[1..]);
      ToLowerAppend(words[0] + seps[0], Interleave(words[1..], seps[1..]));
      ToLowerAppend(words[0], seps[0]);
    }
  }

  /** Collapsing runs in words joined by separators joins the words by
      single hyphens; whatever follows is collapsed from outside a run. */
  lemma {:induction false} CollapseInterleave(words: seq<string>, seps: seq<string>, rest: string, inRun: bool)
    requires |words| == |seps| + 1
    requires forall i :: 0 <= i < |words| ==> words[i] != [] && AllAlnum(words[i])
    requires forall i :: 0 <= i < |seps| ==> seps[i] != [] && NoAlnum(seps[i])
    ensures CollapseRuns(Interleave(words, seps) + rest, inRun) == HyphenJoin(words) + CollapseRuns(rest, false)
  {
    if |seps| == 0 {
      CollapseWord(words[0], rest, inRun);
    } else {
      var tail := Interleave(words[1..], seps[1..]);
      assert Interleave(words, seps) + rest == words[0] + (seps[0] + (tail + rest));
      CollapseWord(words[0], seps[0] + (tail + rest), inRun);
      CollapseSeparator(seps[0], tail + rest, false);
      CollapseInterleave(words[1..], seps[1..], rest, true);
      assert HyphenJoin(words) + CollapseRuns(rest, false)
        == words[0] + ("-" + (HyphenJoin(words[1..]) + CollapseRuns(rest, false)));
    }
  }

  lemma {:induction false} HyphenJoinEdges(words: seq<string>)
    requires |words| > 0
    requires forall i :: 0 <= i < |words| ==> words[i] != [] && AllAlnum(words[i])
    ensures |HyphenJoin(words)| > 0
    ensures IsAlnum(HyphenJoin(words)[0]) && IsAlnum(HyphenJoin(words)[|HyphenJoin(words)| - 1])
  {
    if |words| > 1 {
      HyphenJoinEdges(words[1..]);
    }
  }

  lemma {:induction false} InterleaveAscii(words: seq<string>, seps: seq<string>)
    requires |words| == |seps| + 1
    requires forall i :: 0 <= i < |words| ==> IsAscii(words[i])
    requires forall i :: 0 <= i < |seps| ==> IsAscii(seps[i])
    ensures IsAscii(Interleave(words, seps))
  {
    if |seps| > 0 {
      InterleaveAscii(words[1..], seps[1..]);
    }
  }

  /** A title made of letter-and-digit words separated by punctuation runs
      slugifies to the lower-cased words joined by hyphens. */
  lemma SlugOfWords(words: seq<string>, lower: seq<string>, seps: seq<string>)
    requires |words| == |lower| == |seps| + 1
    requires forall i :: 0 <= i < |words| ==> IsAscii(words[i]) && ToLower(words[i]) == lower[i] && lower[i] != [] && AllAlnum(lower[i])
    requires forall i :: 0 <= i < |seps| ==> IsAscii(seps[i]) && seps[i] != [] && NoAlnum(seps[i]) && ToLower(seps[i]) == seps[i]
    ensures IsAscii(Interleave(words, seps))
    ensures GenerateSlug(Interleave(words, seps)) == HyphenJoin(lower)
  {
    InterleaveAscii(words, seps);
    ToLowerInterleave(words, lower, seps);
    CollapseInterleave(lower, seps, "", false);
    assert Interleave(lower, seps) + "" == Interleave(lower, seps);
    assert CollapseRuns("", false) == "";
    HyphenJoinEdges(lower);
  }

  /** The same title with a punctuation run before it, after it, or both:
      the edge hyphens these runs leave are stripped, so the slug is still
      the lower-cased words joined by single hyphens. */
  lemma SlugOfPaddedWords(pre: string, words: seq<string>, lower: seq<string>, seps: seq<string>, post: string)
    requires |words| == |lower| == |seps| + 1
    requires forall i :: 0 <= i < |words| ==> IsAscii(words[i]) && ToLower(words[i]) == lower[i] && lower[i] != [] && AllAlnum(lower[i])
    requires forall i :: 0 <= i < |seps| ==> IsAscii(seps[i]) && seps[i] != [] && NoAlnum(seps[i]) && ToLower(seps[i]) == seps[i]
    requires IsAscii(pre) && NoAlnum(pre) && ToLower(pre) == pre
    requires IsAscii(post) && NoAlnum(post) && ToLower(post) == post
    ensures IsAscii(pre + Interleave(words, seps) + post)
    ensures GenerateSlug(pre + Interleave(words, seps) + post) == HyphenJoin(lower)
  {
    var title := Interleave(words, seps);
    InterleaveAscii(words, seps);
    AppendAscii(pre, title);
    AppendAscii(pre + title, post);
    ToLowerInterleave(words, lower, seps);
    ToLowerAppend(pre + title, post);
    ToLowerAppend(pre, title);
    CollapsePadded(pre, lower, seps, post);
    HyphenJoinEdges(lower);
    StripPadded(pre != [], HyphenJoin(lower), post != []);
  }

  lemma AppendAscii(a: string, b: string)
    requires IsAscii(a) && IsAscii(b)
    ensures IsAscii(a + b)
  {
    forall i | 0 <= i < |a + b| ensures (a + b)[i] as int < 128 {
      if i >= |a| {
        assert (a + b)[i] == b[i - |a|];
      }
    }
  }

  /** A run after the last word: it becomes one trailing hyphen. */
  lemma CollapseThenPad(lower: seq<string>, seps: seq<string>, post: string, inRun: bool)
    requires |lower| == |seps| + 1
    requires forall i :: 0 <= i < |lower| ==> lower[i] != [] && AllAlnum(lower[i])
    requires forall i :: 0 <= i < |seps| ==> seps[i] != [] && NoAlnum(seps[i])
    requires NoAlnum(post)
    ensures CollapseRuns(Interleave(lower, seps) + post, inRun)
      == HyphenJoin(lower) + (if post == [] then "" else "-")
  {
    CollapseInterleave(lower, seps, post, inRun);
    if post == [] {
      assert CollapseRuns(post, false) == "";
    } else {
      CollapseSeparator(post, "", false);
      assert post + "" == post;
    }
  }

  /** Collapsing runs in a padded title: each non-empty pad becomes one
      hyphen at that end. */
  lemma CollapsePadded(pre: string, lower: seq<string>, seps: seq<string>, post: string)
    requires |lower| == |seps| + 1
    requires forall i :: 0 <= i < |lower| ==> lower[i] != [] && AllAlnum(lower[i])
    requires forall i :: 0 <= i < |seps| ==> seps[i] != [] && NoAlnum(seps[i])
    requires NoAlnum(pre) && NoAlnum(post)
    ensures CollapseRuns(pre + Interleave(lower, seps) + post, false)
      == (if pre == [] then "" else "-") + HyphenJoin(lower) + (if post == [] then "" else "-")
  {
    var rest := Interleave(lower, seps) + post;
    CollapseThenPad(lower, seps, post, pre != []);
    if pre == [] {
      assert pre + Interleave(lower, seps) + post == rest;
    } else {
      assert pre + Interleave(lower, seps) + post == pre + rest;
      CollapseSeparator(pre, rest, false);
    }
  }

  /** Stripping a text whose ends are not hyphens, after at most one hyphen
      was added at each end, gives that text back. */
  lemma StripPadded(lead: bool, text: string, trail: bool)
    requires |text| > 0 && text[0] != '-' && text[|text| - 1] != '-'
    ensures StripEdgeHyphens((if lead then "-" else "") + text + (if trail then "-" else "")) == text
  {
    var s := (if lead then "-" else "") + text + (if trail then "-" else "");
    var k := if lead then 1 else 0;
    assert s[k..k + |text|] == text;
    assert s[|s| - 1] == (if trail then '-' else text[|text| - 1]);
  }

  /** The title at src/data/projects.ts:22. */
  lemma QuezonCitySlug()
    ensures IsAscii("Residential Solar Installation - Quezon City")
    ensures GenerateSlug("Residential Solar Installation - Quezon City") == "residential-solar-installation-quezon-city"
  {
    var words := ["Residential", "Solar", "Installation", "Quezon", "City"];
    var lower := ["residential", "solar", "installation", "quezon", "city"];
    var seps := [" ", " ", " - ", " "];
    QuezonCityTitle();
    QuezonCityJoined();
    ResidentialWord();
    SolarWord();
    InstallationWord();
    QuezonWord();
    CityWord();
    QuezonCitySeparators();
    SlugOfWords(words, lower, seps);
  }

  lemma QuezonCityTitle()
    ensures Interleave(["Residential", "Solar", "Installation", "Quezon", "City"], [" ", " ", " - ", " "]) == "Residential Solar Installation - Quezon City"
  {
    assert Interleave(["Quezon", "City"], [" "]) == "Quezon City";
    InstallationQuezonCity();
    assert Interleave(["Installation", "Quezon", "City"], [" - ", " "]) == "Installation - Quezon City";
    SolarInstallation();
    assert Interleave(["Solar", "Installation", "Quezon", "City"], [" ", " - ", " "]) == "Solar Installation - Quezon City";
    ResidentialSolar();
  }

  // Each of the following concatenates two string literals; kept apart
  // because comparing long literals character by character is costly.

  lemma InstallationQuezonCity()
    ensures "Installation" + " - " + "Quezon City" == "Installation - Quezon City"
  {
  }

  lemma SolarInstallation()
    ensures "Solar" + " " + "Installation - Quezon City" == "Solar Installation - Quezon City"
  {
  }

  lemma ResidentialSolar()
    ensures "Residential" + " " + "Solar Installation - Quezon City" == "Residential Solar Installation - Quezon City"
  {
  }

  lemma QuezonCityJoined()
    ensures HyphenJoin(["residential", "solar", "installation", "quezon", "city"]) == "residential-solar-installation-quezon-city"
  {
    assert HyphenJoin(["quezon", "city"]) == "quezon-city";
    InstallationJoined();
    assert HyphenJoin(["installation", "quezon", "city"]) == "installation-quezon-city";
    SolarJoined();
    assert HyphenJoin(["solar", "installation", "quezon", "city"]) == "solar-installation-quezon-city";
    ResidentialJoined();
  }

  lemma InstallationJoined()
    ensures "installation" + "-" + "quezon-city" == "installation-quezon-city"
  {
  }

  lemma SolarJoined()
    ensures "solar" + "-" + "installation-quezon-city" == "solar-installation-quezon-city"
  {
  }

  lemma ResidentialJoined()
    ensures "residential" + "-" + "solar-installation-quezon-city" == "residential-solar-installation-quezon-city"
  {
  }

  lemma QuezonCitySeparators()
    ensures var seps := [" ", " ", " - ", " "];
      forall i :: 0 <= i < |seps| ==> IsAscii(seps[i]) && seps[i] != [] && NoAlnum(seps[i]) && ToLower(seps[i]) == seps[i]
  {
  }

  /** The title at src/data/projects.ts:39. */
  lemma MakatiSlug()
    ensures IsAscii("Commercial Solar Farm - Makati")
    ensures GenerateSlug("Commercial Solar Farm - Makati") == "commercial-solar-farm-makati"
  {
    var words := ["Commercial", "Solar", "Farm", "Makati"];
    var lower := ["commercial", "solar", "farm", "makati"];
    var seps := [" ", " ", " - "];
    MakatiTitle();
    MakatiJoined();
    CommercialWord();
    SolarWord();
    FarmWord();
    MakatiWord();
    MakatiSeparators();
    SlugOfWords(words, lower, seps);
  }

  lemma MakatiTitle()
    ensures Interleave(["Commercial", "Solar", "Farm", "Makati"], [" ", " ", " - "]) == "Commercial Solar Farm - Makati"
  {
    assert Interleave(["Farm", "Makati"], [" - "]) == "Farm - Makati";
  }

  lemma MakatiJoined()
    ensures HyphenJoin(["commercial", "solar", "farm", "makati"]) == "commercial-solar-farm-makati"
  {
    assert HyphenJoin(["farm", "makati"]) == "farm-makati";
    assert HyphenJoin(["solar", "farm", "makati"]) == "solar-farm-makati";
  }

  lemma MakatiSeparators()
    ensures var seps := [" ", " ", " - "];
      forall i :: 0 <= i < |seps| ==> IsAscii(seps[i]) && seps[i] != [] && NoAlnum(seps[i]) && ToLower(seps[i]) == seps[i]
  {
  }

  // One lemma per catalogue word: each evaluates lower-casing on a literal.

  lemma ResidentialWord()
    ensures IsAscii("Residential") && ToLower("Residential") == "residential" && AllAlnum("residential")
  {
  }

  lemma SolarWord()
    ensures IsAscii("Solar") && ToLower("Solar") == "solar" && AllAlnum("solar")
  {
  }

  lemma InstallationWord()
    ensures IsAscii("Installation") && ToLower("Installation") == "installation" && AllAlnum("installation")
  {
  }

  lemma QuezonWord()
    ensures IsAscii("Quezon") && ToLower("Quezon") == "quezon" && AllAlnum("quezon")
  {
  }

  lemma CityWord()
    ensures IsAscii("City") && ToLower("City") == "city" && AllAlnum("city")
  {
  }

  lemma CommercialWord()
    ensures IsAscii("Commercial") && ToLower("Commercial") == "commercial" && AllAlnum("commercial")
  {
  }

  lemma FarmWord()
    ensures IsAscii("Farm") && ToLower("Farm") == "farm" && AllAlnum("farm")
  {
  }

  lemma MakatiWord()
    ensures IsAscii("Makati") && ToLower("Makati") == "makati" && AllAlnum("makati")
  {
  }

  /** Looking up the Makati slug in a catalogue holding the first two
      projects finds the second. */
  lemma MakatiLookup()
    ensures IsAscii("Residential Solar Installation - Quezon City") && IsAscii("Commercial Solar Farm - Makati")
    ensures FindProjectBySlug(
              [Project(1, "Residential Solar Installation - Quezon City"), Project(2, "Commercial Solar Farm - Makati")],
              "commercial-solar-farm-makati")
            == Some(Project(2, "Commercial Solar Farm - Makati"))
  {
    QuezonCitySlug();
    MakatiSlug();
  }
}
