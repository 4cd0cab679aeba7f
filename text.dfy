/** The string helpers the entities share: ASCII case mapping, the slug
    normaliser (`toLowerCase().replaceAll("[^a-z0-9\\s-]", "")
    .replaceAll("\\s+", "-").replaceAll("-+", "-").trim()`), the "first N
    characters and an ellipsis" previews, the comma-separated tag column with
    Java's `String.split` / `String.join`, the whitespace word count behind the
    reading time, and `%d` rendering of counters. Case mapping and the regular
    expressions are modelled over ASCII only. */
module Text {
  import opened Base

  // ---------------------------------------------------------------- characters

  predicate IsUpper(c: char) { 'A' <= c <= 'Z' }
  predicate IsLower(c: char) { 'a' <= c <= 'z' }
  predicate IsDigit(c: char) { '0' <= c <= '9' }

  /** The character class `\s` of Java regular expressions:
      space, \t, \n, \u000B, \f and \r. */
  predicate IsRegexSpace(c: char) {
    c == ' ' || c == '\t' || c == '\n' || c == '\r' || c as int == 0x0B || c as int == 0x0C
  }

  /** A character a generated slug may contain. */
  predicate IsSlugChar(c: char) { IsLower(c) || IsDigit(c) || c == '-' }

  function LowerChar(c: char): (r: char)
    ensures IsUpper(c) ==> IsLower(r) && r as int == c as int + 32
    ensures !IsUpper(c) ==> r == c
  {
    if IsUpper(c) then (c as int + 32) as char else c
  }

  function UpperChar(c: char): (r: char)
    ensures IsLower(c) ==> IsUpper(r) && r as int == c as int - 32
    ensures !IsLower(c) ==> r == c
  {
    if IsLower(c) then (c as int - 32) as char else c
  }

  /** `toLowerCase()` restricted to ASCII letters. */
  function LowerAscii(s: string): (r: string)
    ensures |r| == |s|
    ensures forall i :: 0 <= i < |s| ==> r[i] == LowerChar(s[i])
    ensures forall i :: 0 <= i < |s| ==> !IsUpper(r[i])
  {
    if s == [] then [] else [LowerChar(s[0])] + LowerAscii(s[1..])
  }

  /** `toUpperCase()` restricted to ASCII letters. */
  function UpperAscii(s: string): (r: string)
    ensures |r| == |s|
    ensures forall i :: 0 <= i < |s| ==> r[i] == UpperChar(s[i])
    ensures forall i :: 0 <= i < |s| ==> !IsLower(r[i])
  {
    if s == [] then [] else [UpperChar(s[0])] + UpperAscii(s[1..])
  }

  /** Upper-casing twice is upper-casing once. */
  lemma {:induction false} UpperAsciiIdempotent(s: string)
    ensures UpperAscii(UpperAscii(s)) == UpperAscii(s)
  {
    var u := UpperAscii(s);
    var uu := UpperAscii(u);
    assert |uu| == |u|;
    forall i | 0 <= i < |u| ensures uu[i] == u[i] {
      assert !IsLower(u[i]);
    }
  }

  /** `s.substring(0, 1).toUpperCase() + s.substring(1).toLowerCase()` for a
      non-empty s. */
  function Capitalized(s: string): (r: string)
    requires |s| >= 1
    ensures |r| == |s|
    ensures r[0] == UpperChar(s[0])
    ensures forall i :: 1 <= i < |s| ==> r[i] == LowerChar(s[i])
  {
    UpperAscii(s[..1]) + LowerAscii(s[1..])
  }

  // ---------------------------------------------------------------- slugs

  /** `replaceAll("[^a-z0-9\\s-]", "")`: drops every character outside
      lower-case letters, digits, `\s` and '-'. */
  function DropNonSlugChars(s: string): (r: string)
    ensures |r| <= |s|
    ensures forall c :: c in r <==> c in s && (IsSlugChar(c) || IsRegexSpace(c))
  {
    if s == [] then []
    else if IsSlugChar(s[0]) || IsRegexSpace(s[0]) then [s[0]] + DropNonSlugChars(s[1..])
    else DropNonSlugChars(s[1..])
  }

  /** The filter decides each character on its own and keeps the order: the
      filtered concatenation is the concatenation of the filtered parts. */
  lemma {:induction false} DropNonSlugCharsAppend(a: string, b: string)
    ensures DropNonSlugChars(a + b) == DropNonSlugChars(a) + DropNonSlugChars(b)
  {
    if a == [] {
      assert a + b == b;
    } else {
      assert (a + b)[0] == a[0] && (a + b)[1..] == a[1..] + b;
      DropNonSlugCharsAppend(a[1..], b);
      if IsSlugChar(a[0]) || IsRegexSpace(a[0]) {
        assert DropNonSlugChars(a + b) == [a[0]] + DropNonSlugChars(a[1..] + b);
      }
    }
  }

  /** `replaceAll("\\s+", "-")`: every maximal run of `\s` becomes one '-'.
      `inRun` says whether the character before `s` was a `\s` already replaced. */
  function ReplaceSpaceRuns(s: string, inRun: bool): (r: string)
    ensures forall c :: c in r ==> (c in s && !IsRegexSpace(c)) || c == '-'
  {
    if s == [] then []
    else if IsRegexSpace(s[0]) then (if inRun then [] else "-") + ReplaceSpaceRuns(s[1..], true)
    else [s[0]] + ReplaceSpaceRuns(s[1..], false)
  }

  /** `replaceAll("-+", "-")`: every maximal run of '-' becomes one '-'.
      `inRun` says whether the character before `s` was a '-' already written. */
  function CollapseHyphenRuns(s: string, inRun: bool): (r: string)
    ensures forall c :: c in r ==> c in s
  {
    if s == [] then []
    else if s[0] == '-' then (if inRun then [] else "-") + CollapseHyphenRuns(s[1..], true)
    else [s[0]] + CollapseHyphenRuns(s[1..], false)
  }

  /** The length of the maximal run of `\s` that starts s. */
  function SpaceRunLength(s: string): (k: nat)
    ensures k <= |s|
    ensures forall i :: 0 <= i < k ==> IsRegexSpace(s[i])
    ensures k < |s| ==> !IsRegexSpace(s[k])
  {
    if s != [] && IsRegexSpace(s[0]) then 1 + SpaceRunLength(s[1..]) else 0
  }

  /** The length of the maximal run of '-' that starts s. */
  function HyphenRunLength(s: string): (k: nat)
    ensures k <= |s|
    ensures forall i :: 0 <= i < k ==> s[i] == '-'
    ensures k < |s| ==> s[k] != '-'
  {
    if s != [] && s[0] == '-' then 1 + HyphenRunLength(s[1..]) else 0
  }

  /** `replaceAll("\\s+", "-")` read run by run: a maximal run of `\s` gives
      one '-', every other character stays in place. */
  function SpaceRunsReplaced(s: string): string
    decreases |s|
  {
    if s == [] then []
    else if IsRegexSpace(s[0]) then "-" + SpaceRunsReplaced(s[SpaceRunLength(s)..])
    else [s[0]] + SpaceRunsReplaced(s[1..])
  }

  /** `replaceAll("-+", "-")` read run by run: a maximal run of '-' gives one
      '-', every other character stays in place. */
  function HyphenRunsCollapsed(s: string): string
    decreases |s|
  {
    if s == [] then []
    else if s[0] == '-' then "-" + HyphenRunsCollapsed(s[HyphenRunLength(s)..])
    else [s[0]] + HyphenRunsCollapsed(s[1..])
  }

  /** Inside a run of `\s` the rest of the run writes nothing. */
  lemma {:induction false} ReplaceSpaceRunsSkipsRun(s: string)
    ensures ReplaceSpaceRuns(s, true) == ReplaceSpaceRuns(s[SpaceRunLength(s)..], true)
  {
    if s != [] && IsRegexSpace(s[0]) {
      ReplaceSpaceRunsSkipsRun(s[1..]);
      assert s[1..][SpaceRunLength(s[1..])..] == s[SpaceRunLength(s)..];
    }
  }

  /** The character-by-character pass replaces each maximal run of `\s` by
      exactly one '-' and keeps everything else in place. */
  lemma {:induction false} ReplaceSpaceRunsByRuns(s: string)
    ensures ReplaceSpaceRuns(s, false) == SpaceRunsReplaced(s)
    decreases |s|
  {
    if s != [] {
      if IsRegexSpace(s[0]) {
        var t := s[SpaceRunLength(s)..];
        ReplaceSpaceRunsSkipsRun(s[1..]);
        assert s[1..][SpaceRunLength(s[1..])..] == t;
        assert ReplaceSpaceRuns(t, true) == ReplaceSpaceRuns(t, false);
        ReplaceSpaceRunsByRuns(t);
      } else {
        ReplaceSpaceRunsByRuns(s[1..]);
      }
    }
  }

  /** Inside a run of '-' the rest of the run writes nothing. */
  lemma {:induction false} CollapseHyphenRunsSkipsRun(s: string)
    ensures CollapseHyphenRuns(s, true) == CollapseHyphenRuns(s[HyphenRunLength(s)..], true)
  {
    if s != [] && s[0] == '-' {
      CollapseHyphenRunsSkipsRun(s[1..]);
      assert s[1..][HyphenRunLength(s[1..])..] == s[HyphenRunLength(s)..];
    }
  }

  /** The character-by-character pass replaces each maximal run of '-' by
      exactly one '-' and keeps everything else in place. */
  lemma {:induction false} CollapseHyphenRunsByRuns(s: string)
    ensures CollapseHyphenRuns(s, false) == HyphenRunsCollapsed(s)
    decreases |s|
  {
    if s != [] {
      if s[0] == '-' {
        var t := s[HyphenRunLength(s)..];
        CollapseHyphenRunsSkipsRun(s[1..]);
        assert s[1..][HyphenRunLength(s[1..])..] == t;
        assert CollapseHyphenRuns(t, true) == CollapseHyphenRuns(t, false);
        CollapseHyphenRunsByRuns(t);
      } else {
        CollapseHyphenRunsByRuns(s[1..]);
      }
    }
  }

  /** `String.trim()`: drops leading and trailing characters up to U+0020. */
  function Trim(s: string): (r: string)
  {
    TrimEnd(TrimStart(s))
  }

  function TrimStart(s: string): (r: string)
    ensures |r| <= |s| && r == s[|s| - |r|..]
  {
    if s != [] && s[0] as int <= 0x20 then TrimStart(s[1..]) else s
  }

  function TrimEnd(s: string): (r: string)
    ensures |r| <= |s| && r == s[..|r|]
  {
    if s != [] && s[|s| - 1] as int <= 0x20 then TrimEnd(s[..|s| - 1]) else s
  }

  /** The passes of the slug normaliser, in the order the source chains them. */
  datatype SlugPass = LowerCase | DropUnsafe | SpacesToHyphen | CollapseHyphens | TrimEnds

  function RunPass(p: SlugPass, s: string): string
  {
    match p
    case LowerCase => LowerAscii(s)
    case DropUnsafe => DropNonSlugChars(s)
    case SpacesToHyphen => ReplaceSpaceRuns(s, false)
    case CollapseHyphens => CollapseHyphenRuns(s, false)
    case TrimEnds => Trim(s)
  }

  function RunPasses(passes: seq<SlugPass>, s: string): string
  {
    if passes == [] then s else RunPasses(passes[1..], RunPass(passes[0], s))
  }

  const SlugPasses: seq<SlugPass> := [LowerCase, DropUnsafe, SpacesToHyphen, CollapseHyphens, TrimEnds]

  /** The slug that the entities generate from a title or a name: the
      passes applied one after the other. */
  function Slugify(s: string): string
  {
    RunPasses(SlugPasses, s)
  }

  lemma RunPassesCons(p: SlugPass, rest: seq<SlugPass>, s: string)
    ensures RunPasses([p] + rest, s) == RunPasses(rest, RunPass(p, s))
  {
    assert ([p] + rest)[1..] == rest;
  }

  /** The normaliser is the composition of its passes. */
  lemma SlugifyStages(s: string)
    ensures Slugify(s) == Trim(CollapseHyphenRuns(ReplaceSpaceRuns(DropNonSlugChars(LowerAscii(s)), false), false))
  {
    var s1 := LowerAscii(s);
    var s2 := DropNonSlugChars(s1);
    var s3 := ReplaceSpaceRuns(s2, false);
    var s4 := CollapseHyphenRuns(s3, false);
    var p4: seq<SlugPass> := [TrimEnds];
    var p3 := [CollapseHyphens] + p4;
    var p2 := [SpacesToHyphen] + p3;
    var p1 := [DropUnsafe] + p2;
    assert SlugPasses == [LowerCase] + p1;
    RunPassesCons(LowerCase, p1, s);
    RunPassesCons(DropUnsafe, p2, s1);
    RunPassesCons(SpacesToHyphen, p3, s2);
    RunPassesCons(CollapseHyphens, p4, s3);
    RunPassesCons(TrimEnds, [], s4);
    assert [TrimEnds] + [] == p4;
  }

  /** No two consecutive hyphens. */
  predicate NoDoubleHyphen(s: string) {
    forall i :: 0 <= i < |s| - 1 ==> !(s[i] == '-' && s[i + 1] == '-')
  }

  /** What a generated slug looks like: only a-z, 0-9 and '-', and no "--". */
  predicate IsSlug(s: string) {
    (forall c :: c in s ==> IsSlugChar(c)) && NoDoubleHyphen(s)
  }

  /** The hyphen-collapsing step leaves no "--"; after a '-' already written
      it does not start with '-'. */
  lemma {:induction false} CollapseLeavesNoDoubleHyphen(s: string, inRun: bool)
    ensures NoDoubleHyphen(CollapseHyphenRuns(s, inRun))
    ensures inRun && CollapseHyphenRuns(s, inRun) != [] ==> CollapseHyphenRuns(s, inRun)[0] != '-'
  {
    if s != [] {
      var rest := CollapseHyphenRuns(s[1..], s[0] == '-');
      CollapseLeavesNoDoubleHyphen(s[1..], s[0] == '-');
      var r := CollapseHyphenRuns(s, inRun);
      if s[0] == '-' {
        assert r == (if inRun then [] else "-") + rest;
      } else {
        assert r == [s[0]] + rest;
      }
    }
  }

  /** Trimming a string with no character up to U+0020 changes nothing. */
  lemma TrimKeepsPrintable(s: string)
    requires forall c :: c in s ==> c as int > 0x20
    ensures Trim(s) == s
  {
    if s != [] {
      assert s[0] in s && s[|s| - 1] in s;
    }
  }

  /** Every generated slug is made of a-z, 0-9 and '-' with no "--". */
  lemma SlugifyYieldsSlug(s: string)
    ensures IsSlug(Slugify(s))
  {
    SlugifyStages(s);
    var lowered := LowerAscii(s);
    var filtered := DropNonSlugChars(lowered);
    assert forall c :: c in filtered ==> !IsUpper(c) by {
      forall c | c in filtered ensures !IsUpper(c) {
        assert c in lowered;
        var i :| 0 <= i < |lowered| && lowered[i] == c;
      }
    }
    var spaced := ReplaceSpaceRuns(filtered, false);
    assert forall c :: c in spaced ==> IsSlugChar(c);
    var collapsed := CollapseHyphenRuns(spaced, false);
    CollapseLeavesNoDoubleHyphen(spaced, false);
    assert forall c :: c in collapsed ==> IsSlugChar(c);
    TrimKeepsPrintable(collapsed);
  }

  lemma {:induction false} LowerAsciiFixesSlug(s: string)
    requires forall c :: c in s ==> IsSlugChar(c)
    ensures LowerAscii(s) == s
  {
    if s != [] {
      assert s[0] in s;
      LowerAsciiFixesSlug(s[1..]);
    }
  }

  lemma {:induction false} DropNonSlugCharsFixesSlug(s: string)
    requires forall c :: c in s ==> IsSlugChar(c)
    ensures DropNonSlugChars(s) == s
  {
    if s != [] {
      assert s[0] in s;
      DropNonSlugCharsFixesSlug(s[1..]);
    }
  }

  lemma {:induction false} ReplaceSpaceRunsFixesSlug(s: string, inRun: bool)
    requires forall c :: c in s ==> IsSlugChar(c)
    ensures ReplaceSpaceRuns(s, inRun) == s
  {
    if s != [] {
      assert s[0] in s;
      ReplaceSpaceRunsFixesSlug(s[1..], false);
    }
  }

  lemma {:induction false} CollapseFixesSlug(s: string, inRun: bool)
    requires NoDoubleHyphen(s)
    requires inRun ==> s == [] || s[0] != '-'
    ensures CollapseHyphenRuns(s, inRun) == s
  {
    if s != [] {
      assert NoDoubleHyphen(s[1..]) by {
        forall i | 0 <= i < |s[1..]| - 1 ensures !(s[1..][i] == '-' && s[1..][i + 1] == '-') {
          assert s[1..][i] == s[i + 1] && s[1..][i + 1] == s[i + 2];
        }
      }
      CollapseFixesSlug(s[1..], s[0] == '-');
    }
  }

  lemma SlugCharsPrintable(s: string)
    requires forall c :: c in s ==> IsSlugChar(c)
    ensures forall c :: c in s ==> c as int > 0x20
  {
    forall c | c in s ensures c as int > 0x20 {
      assert IsSlugChar(c);
    }
  }

  /** A slug is its own normal form. */
  lemma SlugifyFixesSlug(s: string)
    requires IsSlug(s)
    ensures Slugify(s) == s
  {
    SlugifyStages(s);
    LowerAsciiFixesSlug(s);
    assert LowerAscii(s) == s;
    DropNonSlugCharsFixesSlug(s);
    assert DropNonSlugChars(s) == s;
    ReplaceSpaceRunsFixesSlug(s, false);
    assert ReplaceSpaceRuns(s, false) == s;
    CollapseFixesSlug(s, false);
    assert CollapseHyphenRuns(s, false) == s;
    SlugCharsPrintable(s);
    TrimKeepsPrintable(s);
  }

  /** Normalising an already generated slug yields it unchanged. */
  lemma SlugifyIdempotent(s: string)
    ensures Slugify(Slugify(s)) == Slugify(s)
  {
    SlugifyYieldsSlug(s);
    SlugifyFixesSlug(Slugify(s));
  }

  // ---------------------------------------------------------------- previews

  /** `s.length() <= limit ? s : s.substring(0, limit - 3) + "..."`. */
  function Abbreviated(s: string, limit: nat): (r: string)
    requires limit >= 3
    ensures |r| <= limit
    ensures |s| <= limit ==> r == s
    ensures |s| > limit ==> |r| == limit && r[..limit - 3] == s[..limit - 3] && r[limit - 3..] == "..."
  {
    if |s| <= limit then s else s[..limit - 3] + "..."
  }

  // ---------------------------------------------------------------- split / join

  /** `String.join(sep, parts)`. */
  function Join(parts: seq<string>, sep: char): (r: string)
    ensures parts == [] ==> r == []
    ensures |parts| == 1 ==> r == parts[0]
  {
    if parts == [] then []
    else if |parts| == 1 then parts[0]
    else parts[0] + [sep] + Join(parts[1..], sep)
  }

  /** Index of the first `sep` in s. */
  function IndexOf(s: string, sep: char): (i: nat)
    requires sep in s
    ensures i < |s| && s[i] == sep && sep !in s[..i]
  {
    if s[0] == sep then 0 else 1 + IndexOf(s[1..], sep)
  }

  /** The fields between the separators of s, empty ones included. */
  function SplitFields(s: string, sep: char): (r: seq<string>)
    ensures |r| >= 1
    decreases |s|
  {
    if sep !in s then [s]
    else
      var i := IndexOf(s, sep);
      [s[..i]] + SplitFields(s[i + 1..], sep)
  }

  /** Java's split with limit 0 drops the trailing empty strings. */
  function DropTrailingEmpty(xs: seq<string>): (r: seq<string>)
    ensures |r| <= |xs| && r == xs[..|r|]
    ensures r == [] || r[|r| - 1] != ""
  {
    if xs == [] then []
    else if xs[|xs| - 1] == "" then DropTrailingEmpty(xs[..|xs| - 1])
    else xs
  }

  /** `s.split(",")` for a one-character separator: a string with no separator
      comes back whole (even an empty one); otherwise the fields, trailing empty
      ones dropped. */
  function JavaSplit(s: string, sep: char): (r: seq<string>)
    ensures sep !in s ==> r == [s]
  {
    if sep !in s then [s] else DropTrailingEmpty(SplitFields(s, sep))
  }

  /** Splitting a join of separator-free parts gives the parts back. */
  lemma {:induction false} SplitFieldsOfJoin(parts: seq<string>, sep: char)
    requires |parts| >= 1
    requires forall k :: 0 <= k < |parts| ==> sep !in parts[k]
    ensures SplitFields(Join(parts, sep), sep) == parts
  {
    if |parts| > 1 {
      var s := Join(parts, sep);
      var tail := Join(parts[1..], sep);
      assert s == parts[0] + [sep] + tail;
      assert sep in s by { assert s[|parts[0]|] == sep; }
      var i := IndexOf(s, sep);
      assert i == |parts[0]| by {
        assert s[..|parts[0]|] == parts[0];
      }
      assert s[..i] == parts[0];
      assert s[i + 1..] == tail;
      SplitFieldsOfJoin(parts[1..], sep);
    }
  }

  /** The tag list read from the nullable comma-separated column
      (`getTagsArray`): null or empty gives no tags. */
  function TagList(tags: Option<string>): (r: seq<string>)
    ensures tags.None? || tags == Some("") ==> r == []
    ensures tags.Some? && tags.value != "" && ',' !in tags.value ==> r == [tags.value]
  {
    if tags.None? || tags.value == "" then [] else JavaSplit(tags.value, ',')
  }

  /** The column written by `setTagsFromArray`. */
  function TagColumn(tags: seq<string>): (r: Option<string>)
    ensures r.Some?
  {
    Some(Join(tags, ','))
  }

  /** Writing tags and reading them back gives the same tags when no tag holds
      a comma and the last tag is not empty (the empty list included). */
  lemma TagsRoundTrip(tags: seq<string>)
    requires forall k :: 0 <= k < |tags| ==> ',' !in tags[k]
    requires tags == [] || tags[|tags| - 1] != ""
    ensures TagList(TagColumn(tags)) == tags
  {
    if tags != [] {
      var s := Join(tags, ',');
      if |tags| == 1 {
        assert s == tags[0];
      } else {
        SplitFieldsOfJoin(tags, ',');
        assert s == tags[0] + [','] + Join(tags[1..], ',');
        assert s[|tags[0]|] == ',';
        assert ',' in s;
      }
    }
  }

  /** A trailing empty tag is lost on the way back. */
  lemma TrailingEmptyTagIsLost()
    ensures TagList(TagColumn(["a", ""])) == ["a"]
  {
    var s := TagColumn(["a", ""]).value;
    assert s == "a,";
    assert s[1] == ',';
    assert IndexOf(s, ',') == 1;
    assert s[..1] == "a" && s[2..] == "";
    assert SplitFields(s, ',') == ["a", ""];
  }

  // ---------------------------------------------------------------- words

  /** Index of the first `\s` in s, or |s|. */
  function FirstSpace(s: string): (i: nat)
    ensures i <= |s|
    ensures forall k :: 0 <= k < i ==> !IsRegexSpace(s[k])
    ensures i < |s| ==> IsRegexSpace(s[i])
  {
    if s == [] || IsRegexSpace(s[0]) then 0 else 1 + FirstSpace(s[1..])
  }

  /** s without its leading `\s` characters. */
  function SkipSpaces(s: string): (r: string)
    ensures |r| <= |s|
    ensures s != [] && IsRegexSpace(s[0]) ==> |r| < |s|
  {
    if s != [] && IsRegexSpace(s[0]) then SkipSpaces(s[1..]) else s
  }

  /** The fields of s between maximal runs of `\s`. */
  function SpaceRunFields(s: string): (r: seq<string>)
    ensures |r| >= 1
    decreases |s|
  {
    var i := FirstSpace(s);
    if i == |s| then [s] else [s[..i]] + SpaceRunFields(SkipSpaces(s[i..]))
  }

  /** `s.split("\\s+")`. */
  function SplitOnSpaces(s: string): seq<string>
  {
    if FirstSpace(s) == |s| then [s] else DropTrailingEmpty(SpaceRunFields(s))
  }

  /** `content.split("\\s+").length`. */
  function WordCount(s: string): nat
  {
    |SplitOnSpaces(s)|
  }

  // ---------------------------------------------------------------- decimals

  function DigitChar(d: nat): (c: char)
    requires d < 10
    ensures IsDigit(c)
  {
    ('0' as int + d) as char
  }

  function DigitValue(c: char): (d: nat)
    requires IsDigit(c)
    ensures d < 10
  {
    c as int - '0' as int
  }

  /** Decimal digits of n, most significant first, no leading zero. */
  function NatToDecimal(n: nat): (r: string)
    ensures |r| >= 1
    ensures forall c :: c in r ==> IsDigit(c)
    decreases n
  {
    if n < 10 then [DigitChar(n)] else NatToDecimal(n / 10) + [DigitChar(n % 10)]
  }

  /** s is an optionally '-'-signed run of decimal digits whose value is n. */
  predicate DenotesInt(s: string, n: int) {
    s != [] &&
    if s[0] == '-' then
      (forall c :: c in s[1..] ==> IsDigit(c)) && -(DecimalValue(s[1..]) as int) == n
    else
      (forall c :: c in s ==> IsDigit(c)) && DecimalValue(s) == n
  }

  /** `%d` / `String.valueOf` of an int: read back, it is the same number. */
  function IntToDecimal(i: int): (r: string)
    ensures DenotesInt(r, i)
  {
    if i < 0 then
      NatToDecimalRoundTrip(-i);
      var r := "-" + NatToDecimal(-i);
      assert r[1..] == NatToDecimal(-i);
      r
    else
      NatToDecimalRoundTrip(i);
      assert NatToDecimal(i)[0] in NatToDecimal(i);
      NatToDecimal(i)
  }

  /** The value of a string of decimal digits. */
  function DecimalValue(s: string): nat
    requires forall c :: c in s ==> IsDigit(c)
  {
    if s == [] then 0 else 10 * DecimalValue(s[..|s| - 1]) + DigitValue(s[|s| - 1])
  }

  /** Reading the digits back gives the number. */
  lemma {:induction false} NatToDecimalRoundTrip(n: nat)
    ensures DecimalValue(NatToDecimal(n)) == n
    decreases n
  {
    var r := NatToDecimal(n);
    if n >= 10 {
      NatToDecimalRoundTrip(n / 10);
      assert r[..|r| - 1] == NatToDecimal(n / 10);
    }
  }

  // ---------------------------------------------------------------- slug hook

  /** A character that outlives the first two passes (after lower-casing it
      is a letter, a digit, `\s` or '-'). */
  predicate SurvivesSlugFilter(c: char) {
    IsUpper(c) || IsSlugChar(c) || IsRegexSpace(c)
  }

  /** No character of s outlives the filter. */
  predicate NothingSurvives(s: string) {
    forall i :: 0 <= i < |s| ==> !SurvivesSlugFilter(s[i])
  }

  lemma {:induction false} DropAllWhenNothingSurvives(t: string)
    requires forall c :: c in t ==> !(IsSlugChar(c) || IsRegexSpace(c))
    ensures DropNonSlugChars(t) == []
  {
    if t != [] {
      assert t[0] in t;
      DropAllWhenNothingSurvives(t[1..]);
    }
  }

  lemma {:induction false} DropKeepsSurvivor(t: string, i: int)
    requires 0 <= i < |t| && (IsSlugChar(t[i]) || IsRegexSpace(t[i]))
    ensures DropNonSlugChars(t) != []
  {
    if i > 0 && !(IsSlugChar(t[0]) || IsRegexSpace(t[0])) {
      DropKeepsSurvivor(t[1..], i - 1);
    }
  }

  /** Nothing survives the first two passes when nothing in s survives the
      filter. */
  lemma FilterDropsAll(s: string)
    requires NothingSurvives(s)
    ensures DropNonSlugChars(LowerAscii(s)) == []
  {
    var lowered := LowerAscii(s);
    forall c | c in lowered ensures !(IsSlugChar(c) || IsRegexSpace(c)) {
      var i :| 0 <= i < |lowered| && lowered[i] == c;
      assert !SurvivesSlugFilter(s[i]);
    }
    DropAllWhenNothingSurvives(lowered);
  }

  /** A character that survives the filter reaches the third pass. */
  lemma FilterKeepsSurvivor(s: string, i: int)
    requires 0 <= i < |s| && SurvivesSlugFilter(s[i])
    ensures DropNonSlugChars(LowerAscii(s)) != []
  {
    DropKeepsSurvivor(LowerAscii(s), i);
  }

  /** The last three passes map a non-empty filtered string to a non-empty
      one, and the empty string to itself. */
  lemma LastPassesKeepEmptiness(t: string)
    requires forall c :: c in t ==> IsSlugChar(c) || IsRegexSpace(c)
    ensures Trim(CollapseHyphenRuns(ReplaceSpaceRuns(t, false), false)) == [] <==> t == []
  {
    var spaced := ReplaceSpaceRuns(t, false);
    var collapsed := CollapseHyphenRuns(spaced, false);
    if t != [] {
      assert spaced != [];
      assert collapsed != [];
      assert forall c :: c in collapsed ==> c as int > 0x20 by {
        forall c | c in collapsed ensures c as int > 0x20 {
          assert c in spaced;
        }
      }
      TrimKeepsPrintable(collapsed);
    }
  }

  lemma SlugifyEmptyWhenNothingSurvives(s: string)
    requires NothingSurvives(s)
    ensures Slugify(s) == ""
  {
    SlugifyStages(s);
    FilterDropsAll(s);
    LastPassesKeepEmptiness([]);
  }

  lemma SlugifyKeepsSurvivor(s: string, i: int)
    requires 0 <= i < |s| && SurvivesSlugFilter(s[i])
    ensures Slugify(s) != ""
  {
    SlugifyStages(s);
    FilterKeepsSurvivor(s, i);
    LastPassesKeepEmptiness(DropNonSlugChars(LowerAscii(s)));
  }

  /** The normaliser yields the empty slug exactly when no character of the
      source is a letter, a digit, whitespace or '-'. */
  lemma SlugifyEmptyIff(s: string)
    ensures Slugify(s) == "" <==> NothingSurvives(s)
  {
    if NothingSurvives(s) {
      SlugifyEmptyWhenNothingSurvives(s);
    } else {
      var i :| 0 <= i < |s| && SurvivesSlugFilter(s[i]);
      SlugifyKeepsSurvivor(s, i);
    }
  }

  /** The lifecycle hook `if (slug == null || slug.isEmpty()) slug = <source
      normalised>` that Event, Post, Category and EventType run before every
      insert and update. */
  function SlugAfterHook(slug: Option<string>, source: string): (r: Option<string>)
  {
    if slug.None? || slug.value == "" then Some(Slugify(source)) else slug
  }

  /** The hook has nothing left to do: the slug is set, and it is empty only
      when nothing of the source survives normalisation. */
  predicate SlugSettled(slug: Option<string>, source: string) {
    slug.Some? && (slug.value == "" ==> NothingSurvives(source))
  }

  /** The hook fills a null or empty slug with a well-formed one and keeps any
      other; on a settled slug it changes nothing, and after it has run once
      the slug is settled for the same source. */
  lemma SlugHook(slug: Option<string>, source: string)
    ensures slug.Some? && slug.value != "" ==> SlugAfterHook(slug, source) == slug
    ensures slug.None? || slug.value == "" ==>
              SlugAfterHook(slug, source) == Some(Slugify(source)) && IsSlug(Slugify(source))
    ensures SlugSettled(slug, source) ==> SlugAfterHook(slug, source) == slug
    ensures SlugSettled(SlugAfterHook(slug, source), source)
  {
    SlugifyYieldsSlug(source);
    SlugifyEmptyIff(source);
  }
}
