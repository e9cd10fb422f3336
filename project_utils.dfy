/** Slug generation for portfolio titles and lookup of a project by slug
    (src/utils/projectUtils.ts).

    `generateSlug` is the chain
      title.toLowerCase().replace(/[^a-z0-9]+/g, '-').replace(/(^-|-$)/g, '')
    and each link of the chain is one function below. */
module ProjectUtils {
  import opened Wrappers

  /** A catalogue record. The lookup only reads `title`; `id` keeps records
      with the same title apart. */
  datatype Project = Project(id: int, title: string)

  // ---------------------------------------------------------------------
  // Characters
  // ---------------------------------------------------------------------

  predicate IsAscii(s: string) {
    forall i :: 0 <= i < |s| ==> s[i] as int < 128
  }

  predicate IsUpper(c: char) {
    'A' <= c <= 'Z'
  }

  /** The class `[a-z0-9]` of the replace pattern. */
  predicate IsAlnum(c: char) {
    'a' <= c <= 'z' || '0' <= c <= '9'
  }

  /** The alphabet of a slug: `[a-z0-9]` and the hyphen. */
  predicate IsSlugChar(c: char) {
    IsAlnum(c) || c == '-'
  }

  /** A well-formed slug: slug alphabet only, no two hyphens in a row, and
      no hyphen at either end. */
  predicate IsSlug(s: string) {
    && SlugAlphabet(s)
    && NoDoubleHyphen(s)
    && (|s| > 0 ==> s[0] != '-' && s[|s| - 1] != '-')
  }

  predicate SlugAlphabet(s: string) {
    forall i :: 0 <= i < |s| ==> IsSlugChar(s[i])
  }

  predicate NoDoubleHyphen(s: string) {
    forall i :: 0 <= i < |s| - 1 ==> !(s[i] == '-' && s[i + 1] == '-')
  }

  // ---------------------------------------------------------------------
  // The three steps of generateSlug
  // ---------------------------------------------------------------------

  /** `toLowerCase` on one character, restricted to ASCII: A-Z map to a-z,
      everything else is left alone. JavaScript's `toLowerCase` also maps a
      few non-ASCII code points into ASCII (U+212A KELVIN SIGN becomes `k`,
      U+0130 becomes `i` followed by U+0307); titles are therefore required
      to be ASCII wherever a slug is computed. */
  function LowerChar(c: char): (r: char)
    ensures !IsUpper(r)
    ensures IsUpper(c) ==> r as int == c as int + 32
    ensures !IsUpper(c) ==> r == c
  {
    if IsUpper(c) then (c as int + 32) as char else c
  }

  /** Step one: `title.toLowerCase()` on ASCII text. */
  function ToLower(s: string): (r: string)
    ensures |r| == |s|
    ensures forall i :: 0 <= i < |s| ==> r[i] == LowerChar(s[i])
  {
    seq(|s|, i requires 0 <= i < |s| => LowerChar(s[i]))
  }

  /** Step two: `replace(/[^a-z0-9]+/g, '-')`. The global, greedy match
      replaces every maximal run of characters outside `[a-z0-9]` by one
      hyphen. `inRun` is true when the input character before `s` was
      already part of such a run (so its hyphen has been emitted). */
  function CollapseRuns(s: string, inRun: bool): (r: string)
    ensures |r| <= |s|
  {
    if s == [] then []
    else if IsAlnum(s[0]) then [s[0]] + CollapseRuns(s[1..], false)
    else (if inRun then [] else ['-']) + CollapseRuns(s[1..], true)
  }

  /** What collapsing guarantees: only slug characters, never two hyphens
      in a row, and no hyphen first when the input starts inside a run. */
  lemma {:induction false} CollapseRunsShape(s: string, inRun: bool)
    ensures SlugAlphabet(CollapseRuns(s, inRun))
    ensures NoDoubleHyphen(CollapseRuns(s, inRun))
    ensures inRun && |CollapseRuns(s, inRun)| > 0 ==> CollapseRuns(s, inRun)[0] != '-'
  {
    if s != [] {
      var rest := CollapseRuns(s[1..], !IsAlnum(s[0]));
      var head := if IsAlnum(s[0]) then [s[0]] else if inRun then [] else ['-'];
      CollapseRunsShape(s[1..], !IsAlnum(s[0]));
      assert CollapseRuns(s, inRun) == head + rest;
      assert head == ['-'] ==> rest == [] || rest[0] != '-';
    }
  }

  /** Stripping the edge hyphens of collapsed text gives a slug. */
  lemma StripEdgeHyphensShape(s: string)
    requires SlugAlphabet(s) && NoDoubleHyphen(s)
    ensures IsSlug(StripEdgeHyphens(s))
  {
    var t := if |s| > 0 && s[0] == '-' then s[1..] else s;
    assert forall i :: 0 <= i < |t| - 1 ==> !(t[i] == '-' && t[i + 1] == '-');
    assert |t| > 0 && t[0] == '-' ==> |t| == 1;
  }

  /** Step three: `replace(/(^-|-$)/g, '')` -- drop a leading hyphen, then
      a trailing one. On `"-"` this yields `""`, as the global replace does.
      The result is the slice of `s` between the cut points: one character
      off the front exactly when `s` starts with a hyphen, and one off the
      back exactly when a hyphen is still left at the end after that. */
  function StripEdgeHyphens(s: string): (r: string)
    ensures (s == [] || (s[0] != '-' && s[|s| - 1] != '-')) ==> r == s
    ensures var k := if |s| > 0 && s[0] == '-' then 1 else 0;
            var e := if |s| > k && s[|s| - 1] == '-' then |s| - 1 else |s|;
            k <= e && r == s[k..e]
  {
    var t := if |s| > 0 && s[0] == '-' then s[1..] else s;
    if |t| > 0 && t[|t| - 1] == '-' then t[..|t| - 1] else t
  }

  /** `generateSlug(title)`: the result is always a well-formed slug. */
  function GenerateSlug(title: string): (slug: string)
    requires IsAscii(title)
    ensures IsSlug(slug)
  {
    CollapseRunsShape(ToLower(title), false);
    StripEdgeHyphensShape(CollapseRuns(ToLower(title), false));
    StripEdgeHyphens(CollapseRuns(ToLower(title), false))
  }

  // ---------------------------------------------------------------------
  // Lookup
  // ---------------------------------------------------------------------

  /** `projects.find(project => generateSlug(project.title) === slug)`:
      the first project, in list order, whose title slugifies to `slug`;
      `None` exactly when there is no such project. */
  function FindProjectBySlug(projects: seq<Project>, slug: string): (r: Option<Project>)
    requires forall i :: 0 <= i < |projects| ==> IsAscii(projects[i].title)
    ensures r.None? <==> forall i :: 0 <= i < |projects| ==> GenerateSlug(projects[i].title) != slug
    ensures r.Some? ==>
      exists i :: 0 <= i < |projects| && projects[i] == r.value
        && GenerateSlug(projects[i].title) == slug
        && forall j :: 0 <= j < i ==> GenerateSlug(projects[j].title) != slug
  {
    if projects == [] then None
    else if GenerateSlug(projects[0].title) == slug then Some(projects[0])
    else
      var r := FindProjectBySlug(projects[1..], slug);
      assert forall j :: 1 <= j < |projects| ==> projects[j] == projects[1..][j - 1];
      r
  }

  // ---------------------------------------------------------------------
  // Properties of generateSlug
  // ---------------------------------------------------------------------

  /** Collapsing runs leaves a string that is already in slug form alone. */
  lemma {:induction false} CollapseRunsOfSlug(s: string, inRun: bool)
    requires SlugAlphabet(s) && NoDoubleHyphen(s)
    requires inRun && |s| > 0 ==> s[0] != '-'
    ensures CollapseRuns(s, inRun) == s
  {
    if s != [] {
      CollapseRunsOfSlug(s[1..], s[0] == '-');
    }
  }

  /** The fixed points of `generateSlug` are exactly the well-formed slugs. */
  lemma SlugFixpoints(s: string)
    requires IsAscii(s)
    ensures GenerateSlug(s) == s <==> IsSlug(s)
  {
    if IsSlug(s) {
      assert ToLower(s) == s;
      CollapseRunsOfSlug(s, false);
    }
  }

  /** `generateSlug(generateSlug(x)) == generateSlug(x)`. */
  lemma GenerateSlugIdempotent(title: string)
    requires IsAscii(title)
    ensures IsAscii(GenerateSlug(title))
    ensures GenerateSlug(GenerateSlug(title)) == GenerateSlug(title)
  {
    var slug := GenerateSlug(title);
    assert IsAscii(slug) by {
      forall i | 0 <= i < |slug| ensures slug[i] as int < 128 {
        assert IsSlugChar(slug[i]);
      }
    }
    SlugFixpoints(slug);
  }

  /** The string with every hyphen deleted. */
  function RemoveHyphens(s: string): (r: string)
    ensures forall i :: 0 <= i < |r| ==> r[i] != '-'
  {
    if s == [] then []
    else (if s[0] == '-' then [] else [s[0]]) + RemoveHyphens(s[1..])
  }

  /** The string with every character outside `[a-z0-9]` deleted. */
  function KeepAlnum(s: string): (r: string)
    ensures forall i :: 0 <= i < |r| ==> IsAlnum(r[i])
  {
    if s == [] then []
    else (if IsAlnum(s[0]) then [s[0]] else []) + KeepAlnum(s[1..])
  }

  lemma {:induction false} RemoveHyphensAppend(a: string, b: string)
    ensures RemoveHyphens(a + b) == RemoveHyphens(a) + RemoveHyphens(b)
  {
    if a == [] {
      assert a + b == b;
    } else {
      assert (a + b)[1..] == a[1..] + b;
      RemoveHyphensAppend(a[1..], b);
    }
  }

  lemma {:induction false} CollapseRunsKeepsAlnum(s: string, inRun: bool)
    ensures RemoveHyphens(CollapseRuns(s, inRun)) == KeepAlnum(s)
  {
    if s != [] {
      CollapseRunsKeepsAlnum(s[1..], !IsAlnum(s[0]));
      var head := if IsAlnum(s[0]) then [s[0]] else if inRun then [] else ['-'];
      RemoveHyphensAppend(head, CollapseRuns(s[1..], !IsAlnum(s[0])));
    }
  }

  lemma StripEdgeHyphensKeepsAlnum(s: string)
    ensures RemoveHyphens(StripEdgeHyphens(s)) == RemoveHyphens(s)
  {
    var t := if |s| > 0 && s[0] == '-' then s[1..] else s;
    if |s| > 0 && s[0] == '-' {
      assert s == ['-'] + t;
      RemoveHyphensAppend(['-'], t);
    }
    if |t| > 0 && t[|t| - 1] == '-' {
      assert t == t[..|t| - 1] + ['-'];
      RemoveHyphensAppend(t[..|t| - 1], ['-']);
    }
  }

  /** Deleting the hyphens of a slug gives the lower-cased title with
      everything outside `[a-z0-9]` deleted: letters and digits survive, in
      order, and nothing else does. */
  lemma GenerateSlugKeepsAlnum(title: string)
    requires IsAscii(title)
    ensures RemoveHyphens(GenerateSlug(title)) == KeepAlnum(ToLower(title))
  {
    CollapseRunsKeepsAlnum(ToLower(title), false);
    StripEdgeHyphensKeepsAlnum(CollapseRuns(ToLower(title), false));
  }

  /** A slug that `generateSlug` can never produce (an upper-case letter, an
      edge hyphen, a double hyphen) finds no project. */
  lemma NonSlugFindsNothing(projects: seq<Project>, slug: string)
    requires forall i :: 0 <= i < |projects| ==> IsAscii(projects[i].title)
    requires !IsSlug(slug)
    ensures FindProjectBySlug(projects, slug) == None
  {
  }

  lemma ToLowerAppend(a: string, b: string)
    ensures ToLower(a + b) == ToLower(a) + ToLower(b)
  {
  }

  /** A word of `[a-z0-9]` characters passes through collapsing unchanged
      and ends any run. */
  lemma {:induction false} CollapseWord(w: string, rest: string, inRun: bool)
    requires w != [] && forall i :: 0 <= i < |w| ==> IsAlnum(w[i])
    ensures CollapseRuns(w + rest, inRun) == w + CollapseRuns(rest, false)
  {
    if |w| == 1 {
      assert (w + rest)[1..] == rest;
    } else {
      assert (w + rest)[1..] == w[1..] + rest;
      CollapseWord(w[1..], rest, false);
    }
  }

  /** A non-empty separator of characters outside `[a-z0-9]` becomes one
      hyphen, or nothing when a run is already open. */
  lemma {:induction false} CollapseSeparator(sep: string, rest: string, inRun: bool)
    requires sep != [] && forall i :: 0 <= i < |sep| ==> !IsAlnum(sep[i])
    ensures CollapseRuns(sep + rest, inRun) == (if inRun then "" else "-") + CollapseRuns(rest, true)
  {
    if |sep| == 1 {
      assert (sep + rest)[1..] == rest;
    } else {
      assert (sep + rest)[1..] == sep[1..] + rest;
      CollapseSeparator(sep[1..], rest, true);
    }
  }
}
