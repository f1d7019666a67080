/** Export filename derivation of the review page (`generateFilename`):
    `safeName + "_" + timestamp + "." + extension`, where the safe name is
    derived from the captured page title and the timestamp from an ISO-8601
    clock reading that the caller passes in. */
module Filename {

  /** The characters removed from the title: < > : " / \ | ? * */
  predicate IsIllegal(c: char)
  {
    c == '<' || c == '>' || c == ':' || c == '"' || c == '/' || c == '\\' || c == '|' || c == '?' || c == '*'
  }

  /** The characters an ECMAScript `\s` class matches. */
  predicate IsSpace(c: char)
  {
    || c == ' ' || c == '\t' || c == '\n' || c == '\U{000B}' || c == '\U{000C}' || c == '\r'
    || c == '\U{00A0}' || c == '\U{1680}' || ('\U{2000}' <= c <= '\U{200A}')
    || c == '\U{2028}' || c == '\U{2029}' || c == '\U{202F}' || c == '\U{205F}'
    || c == '\U{3000}' || c == '\U{FEFF}'
  }

  /** `:` and `.`, the characters the timestamp turns into `-`. */
  predicate IsSeparator(c: char)
  {
    c == ':' || c == '.'
  }

  const MaxNameLength: nat := 50
  const Placeholder := "webpage"

  predicate NoIllegal(s: string)
  {
    forall i :: 0 <= i < |s| ==> !IsIllegal(s[i])
  }

  predicate NoSpace(s: string)
  {
    forall i :: 0 <= i < |s| ==> !IsSpace(s[i])
  }

  predicate AllSpace(s: string)
  {
    forall i :: 0 <= i < |s| ==> IsSpace(s[i])
  }

  predicate AllIllegal(s: string)
  {
    forall i :: 0 <= i < |s| ==> IsIllegal(s[i])
  }

  // ---------------------------------------------------------------------------
  // Step 1: `.replace(/[<>:"/\\|?*]/g, '')`

  function StripIllegal(s: string): (r: string)
    ensures |r| <= |s|
    ensures NoIllegal(r)
  {
    if s == [] then []
    else if IsIllegal(s[0]) then StripIllegal(s[1..])
    else [s[0]] + StripIllegal(s[1..])
  }

  /** Stripping works character by character: it distributes over concatenation. */
  lemma {:induction false} StripAppend(a: string, b: string)
    ensures StripIllegal(a + b) == StripIllegal(a) + StripIllegal(b)
  {
    if a == [] {
      assert a + b == b;
    } else {
      assert (a + b)[1..] == a[1..] + b;
      StripAppend(a[1..], b);
    }
  }

  /** Legal characters are all kept. */
  lemma {:induction false} StripKeepsLegal(s: string)
    requires NoIllegal(s)
    ensures StripIllegal(s) == s
  {
    if s != [] {
      StripKeepsLegal(s[1..]);
    }
  }

  /** Stripping leaves nothing exactly when every character was illegal. */
  lemma {:induction false} StripEmptyIff(s: string)
    ensures StripIllegal(s) == [] <==> AllIllegal(s)
  {
    if s != [] {
      StripEmptyIff(s[1..]);
      if IsIllegal(s[0]) && AllIllegal(s[1..]) {
        forall i | 0 <= i < |s| ensures IsIllegal(s[i]) {
          if i > 0 { assert s[i] == s[1..][i - 1]; }
        }
      }
    }
  }

  // ---------------------------------------------------------------------------
  // Step 2: `.replace(/\s+/g, '_')`

  /** Drops the leading whitespace run. */
  function DropSpaces(s: string): (r: string)
    ensures |r| <= |s| && r == s[|s| - |r|..]
    ensures r == [] || !IsSpace(r[0])
    ensures AllSpace(s[..|s| - |r|])
  {
    if s != [] && IsSpace(s[0]) then DropSpaces(s[1..]) else s
  }

  /** Every maximal whitespace run becomes one `_`. */
  function CollapseSpaces(s: string): (r: string)
    decreases |s|
    ensures |r| <= |s|
    ensures r == [] <==> s == []
  {
    if s == [] then []
    else if IsSpace(s[0]) then "_" + CollapseSpaces(DropSpaces(s[1..]))
    else [s[0]] + CollapseSpaces(s[1..])
  }

  /** No whitespace survives the collapse. */
  lemma {:induction false} CollapseRemovesSpaces(s: string)
    decreases |s|
    ensures NoSpace(CollapseSpaces(s))
  {
    if s != [] {
      var rest := if IsSpace(s[0]) then DropSpaces(s[1..]) else s[1..];
      CollapseRemovesSpaces(rest);
    }
  }

  /** Collapsing adds no character that stripping removes. */
  lemma {:induction false} CollapseKeepsLegal(s: string)
    decreases |s|
    requires NoIllegal(s)
    ensures NoIllegal(CollapseSpaces(s))
  {
    if s != [] {
      if IsSpace(s[0]) {
        var rest := DropSpaces(s[1..]);
        forall i | 0 <= i < |rest| ensures !IsIllegal(rest[i]) {
          assert rest[i] == s[1 + |s[1..]| - |rest| + i];
        }
        CollapseKeepsLegal(rest);
        assert CollapseSpaces(s) == "_" + CollapseSpaces(rest);
      } else {
        CollapseKeepsLegal(s[1..]);
        assert CollapseSpaces(s) == [s[0]] + CollapseSpaces(s[1..]);
      }
    }
  }

  /** A string without whitespace passes through unchanged. */
  lemma {:induction false} CollapseKeepsSpaceless(s: string)
    requires NoSpace(s)
    ensures CollapseSpaces(s) == s
  {
    if s != [] {
      CollapseKeepsSpaceless(s[1..]);
    }
  }

  /** A non-empty run of whitespace and nothing else becomes a single `_`. */
  lemma AllSpaceCollapses(s: string)
    requires s != [] && AllSpace(s)
    ensures CollapseSpaces(s) == "_"
  {
  }

  /** The characters of `s` other than whitespace and `_`, in order. */
  function Words(s: string): (r: string)
    ensures |r| <= |s|
  {
    if s == [] then []
    else if IsSpace(s[0]) || s[0] == '_' then Words(s[1..])
    else [s[0]] + Words(s[1..])
  }

  lemma {:induction false} WordsDropSpaces(s: string)
    ensures Words(DropSpaces(s)) == Words(s)
  {
    if s != [] && IsSpace(s[0]) {
      WordsDropSpaces(s[1..]);
    }
  }

  lemma WordsCons(c: char, t: string)
    ensures Words([c] + t) == if IsSpace(c) || c == '_' then Words(t) else [c] + Words(t)
  {
    assert ([c] + t)[1..] == t;
  }

  /** Collapsing neither loses, adds nor reorders any character that is not
      whitespace or `_`: only the separators change. */
  lemma {:induction false} CollapseKeepsWords(s: string)
    decreases |s|
    ensures Words(CollapseSpaces(s)) == Words(s)
  {
    if s != [] {
      if IsSpace(s[0]) {
        var rest := DropSpaces(s[1..]);
        CollapseKeepsWords(rest);
        WordsDropSpaces(s[1..]);
        assert CollapseSpaces(s) == "_" + CollapseSpaces(rest);
        WordsCons('_', CollapseSpaces(rest));
      } else {
        CollapseKeepsWords(s[1..]);
        assert CollapseSpaces(s) == [s[0]] + CollapseSpaces(s[1..]);
        WordsCons(s[0], CollapseSpaces(s[1..]));
      }
    }
  }

  // ---------------------------------------------------------------------------
  // Step 3: `.slice(0, 50)`, then the fallback

  /** The title after stripping, collapsing and truncating, before the fallback. */
  function SanitizedTitle(title: string): (r: string)
    ensures |r| <= MaxNameLength
    ensures NoIllegal(r) && NoSpace(r)
    ensures r <= CollapseSpaces(StripIllegal(title))
    ensures var c := CollapseSpaces(StripIllegal(title));
      |r| == if |c| <= MaxNameLength then |c| else MaxNameLength
  {
    var c := CollapseSpaces(StripIllegal(title));
    CollapseKeepsLegal(StripIllegal(title));
    CollapseRemovesSpaces(StripIllegal(title));
    c[..if |c| <= MaxNameLength then |c| else MaxNameLength]
  }

  /** The name part of the filename; `webpage` replaces an empty sanitized title. */
  function SafeName(title: string): (r: string)
    ensures r != [] && |r| <= MaxNameLength
    ensures NoIllegal(r) && NoSpace(r)
    ensures SanitizedTitle(title) == [] ==> r == Placeholder
    ensures SanitizedTitle(title) != [] ==> r == SanitizedTitle(title)
  {
    var name := SanitizedTitle(title);
    if name == [] then Placeholder else name
  }

  /** The fallback name is used exactly when the title consists only of
      characters that are stripped (the empty title included). */
  lemma FallbackIffAllIllegal(title: string)
    ensures SanitizedTitle(title) == [] <==> AllIllegal(title)
  {
    StripEmptyIff(title);
  }

  /** A title of whitespace only is not empty after stripping, so it becomes `_`
      and not `webpage`. */
  lemma WhitespaceTitleIsUnderscore(title: string)
    requires title != [] && AllSpace(title)
    ensures SafeName(title) == "_"
  {
    StripKeepsLegal(title);
    AllSpaceCollapses(title);
  }

  /** A word: no whitespace and no character that stripping removes. */
  predicate IsWord(w: string)
  {
    NoSpace(w) && NoIllegal(w)
  }

  lemma {:induction false} DropRun(run: string, w: string)
    requires AllSpace(run) && (w == [] || !IsSpace(w[0]))
    ensures DropSpaces(run + w) == w
  {
    if run == [] {
      assert run + w == w;
    } else {
      assert (run + w)[1..] == run[1..] + w;
      DropRun(run[1..], w);
    }
  }

  /** A maximal whitespace run at the front becomes exactly one `_`, and what
      follows it is collapsed on its own. */
  lemma RunCollapses(run: string, s: string)
    requires run != [] && AllSpace(run) && (s == [] || !IsSpace(s[0]))
    ensures CollapseSpaces(run + s) == "_" + CollapseSpaces(s)
  {
    assert (run + s)[0] == run[0];
    assert (run + s)[1..] == run[1..] + s;
    DropRun(run[1..], s);
  }

  /** A whitespace run followed by text without whitespace becomes `_` and that text. */
  lemma RunThenWordCollapses(run: string, w: string)
    requires run != [] && AllSpace(run) && NoSpace(w)
    ensures CollapseSpaces(run + w) == "_" + w
  {
    RunCollapses(run, w);
    CollapseKeepsSpaceless(w);
  }

  /** Removing a character between two words joins them. */
  lemma RemovedCharacterJoins(w1: string, c: char, w2: string)
    requires IsWord(w1) && IsWord(w2) && IsIllegal(c)
    ensures StripIllegal(w1 + [c] + w2) == w1 + w2
  {
    StripAppend(w1 + [c], w2);
    StripAppend(w1, [c]);
    StripKeepsLegal(w1);
    StripKeepsLegal(w2);
    assert StripIllegal([c]) == [] by { assert [c][1..] == []; }
    assert w1 + [] == w1;
  }

  lemma {:induction false} StripSpacedSeparator(w1: string, c: char, w2: string)
    requires IsWord(w1) && IsWord(w2) && IsIllegal(c)
    ensures StripIllegal(w1 + [' ', c, ' '] + w2) == w1 + [' ', ' '] + w2
  {
    StripAppend(w1 + [' ', c, ' '], w2);
    StripAppend(w1, [' ', c, ' ']);
    StripKeepsLegal(w1);
    StripKeepsLegal(w2);
    assert StripIllegal([' ']) == [' '] by { assert [' '][1..] == []; }
    assert StripIllegal([c, ' ']) == [' '] by { assert [c, ' '][1..] == [' ']; }
    assert [' ', c, ' '][1..] == [c, ' '];
  }

  /** Two words around a whitespace run: the run becomes one `_`. */
  lemma WordRunWord(w1: string, run: string, w2: string)
    requires NoSpace(w1) && run != [] && AllSpace(run) && NoSpace(w2)
    ensures CollapseSpaces(w1 + run + w2) == w1 + "_" + w2
  {
    assert w1 + run + w2 == w1 + (run + w2);
    CollapseAppendWord(w1, run + w2);
    RunThenWordCollapses(run, w2);
    assert w1 + ("_" + w2) == w1 + "_" + w2;
  }


  /** Stripping happens before collapsing, so the whitespace on both sides of a
      removed character forms one run: `"a : b"` gives `a_b`. */
  lemma SpacedSeparatorGivesOneUnderscore(w1: string, c: char, w2: string)
    requires IsWord(w1) && IsWord(w2) && IsIllegal(c)
    requires |w1| + 1 + |w2| <= MaxNameLength
    ensures SafeName(w1 + [' ', c, ' '] + w2) == w1 + "_" + w2
  {
    StripSpacedSeparator(w1, c, w2);
    WordRunWord(w1, [' ', ' '], w2);
  }

  lemma SpacedColonExample(title: string)
    requires title == "a : b"
    ensures SafeName(title) == "a_b"
  {
    assert title == title[..1] + [' ', ':', ' '] + title[4..];
    SpacedSeparatorGivesOneUnderscore(title[..1], ':', title[4..]);
  }

  lemma {:induction false} StripSeparatorSpaceThenJoin(w1: string, c: char, w2: string, d: char, w3: string)
    requires IsWord(w1) && IsWord(w2) && IsWord(w3) && IsIllegal(c) && IsIllegal(d)
    ensures StripIllegal(w1 + [c, ' '] + w2 + [d] + w3) == w1 + [' '] + (w2 + w3)
  {
    var title := w1 + [c, ' '] + w2 + [d] + w3;
    assert title == (w1 + [c]) + ([' '] + (w2 + [d] + w3));
    StripAppend(w1 + [c], [' '] + (w2 + [d] + w3));
    RemovedCharacterJoins(w1, c, []);
    assert w1 + [c] + [] == w1 + [c] && w1 + [] == w1;
    StripAppend([' '], w2 + [d] + w3);
    assert StripIllegal([' ']) == [' '] by { assert [' '][1..] == []; }
    RemovedCharacterJoins(w2, d, w3);
  }

  /** A removed character followed by a space, then a removed character between
      two words: the first leaves `_`, the second joins the words. */
  lemma SeparatorSpaceThenJoin(w1: string, c: char, w2: string, d: char, w3: string)
    requires IsWord(w1) && IsWord(w2) && IsWord(w3) && IsIllegal(c) && IsIllegal(d)
    requires |w1| + 1 + |w2| + |w3| <= MaxNameLength
    ensures SafeName(w1 + [c, ' '] + w2 + [d] + w3) == w1 + "_" + (w2 + w3)
  {
    StripSeparatorSpaceThenJoin(w1, c, w2, d, w3);
    WordRunWord(w1, [' '], w2 + w3);
  }

  lemma HelloWorldExample(title: string)
    requires title == "Hello: World/Test"
    ensures SafeName(title) == "Hello_WorldTest"
  {
    var hello, world, test := "Hello", "World", "Test";
    assert title == hello + [':', ' '] + world + ['/'] + test;
    assert IsWord(hello) && IsWord(world) && IsWord(test);
    SeparatorSpaceThenJoin(hello, ':', world, '/', test);
  }

  /** A leading word without whitespace passes through and the rest is collapsed on its own. */
  lemma {:induction false} CollapseAppendWord(w: string, s: string)
    requires NoSpace(w)
    ensures CollapseSpaces(w + s) == w + CollapseSpaces(s)
  {
    if w != [] {
      assert (w + s)[1..] == w[1..] + s;
      CollapseAppendWord(w[1..], s);
    } else {
      assert w + s == s;
    }
  }

  // ---------------------------------------------------------------------------
  // The timestamp: `toISOString().replace(/[:.]/g, '-').slice(0, -5)`

  function DashSeparators(s: string): (r: string)
    ensures |r| == |s|
    ensures forall i :: 0 <= i < |s| ==> r[i] == if IsSeparator(s[i]) then '-' else s[i]
  {
    if s == [] then []
    else [if IsSeparator(s[0]) then '-' else s[0]] + DashSeparators(s[1..])
  }

  function Timestamp(isoNow: string): (r: string)
    ensures |r| == if |isoNow| < 5 then 0 else |isoNow| - 5
    ensures forall i :: 0 <= i < |r| ==> !IsSeparator(r[i])
    ensures forall i :: 0 <= i < |r| ==> (r[i] == isoNow[i] || (r[i] == '-' && IsSeparator(isoNow[i])))
  {
    var d := DashSeparators(isoNow);
    if |d| < 5 then [] else d[..|d| - 5]
  }

  /** The shape of `Date.prototype.toISOString()` for years 0 to 9999:
      `YYYY-MM-DDTHH:mm:ss.sssZ`. */
  predicate IsIsoInstant(s: string)
  {
    && |s| == 24
    && s[13] == ':' && s[16] == ':' && s[19] == '.' && s[23] == 'Z'
    && forall i :: 0 <= i < 24 && i != 13 && i != 16 && i != 19 ==> !IsSeparator(s[i])
  }

  /** On a real clock reading the timestamp is `YYYY-MM-DDTHH-mm-ss`: the
      milliseconds and the zone letter are the five characters dropped. */
  lemma TimestampOfInstant(isoNow: string)
    requires IsIsoInstant(isoNow)
    ensures Timestamp(isoNow) == isoNow[..13] + "-" + isoNow[14..16] + "-" + isoNow[17..19]
  {
    var t := Timestamp(isoNow);
    var e := isoNow[..13] + "-" + isoNow[14..16] + "-" + isoNow[17..19];
    assert |t| == 19 == |e|;
    forall i | 0 <= i < 19 ensures t[i] == e[i] {
      if i < 13 {
        assert e[i] == isoNow[i];
      } else if 13 < i < 16 {
        assert e[i] == isoNow[14..16][i - 14];
      } else if 16 < i {
        assert e[i] == isoNow[17..19][i - 17];
      }
    }
  }

  // ---------------------------------------------------------------------------
  // The filename

  function GenerateFilename(title: string, isoNow: string, extension: string): (r: string)
    ensures |r| == |SafeName(title)| + |Timestamp(isoNow)| + |extension| + 2
  {
    SafeName(title) + "_" + Timestamp(isoNow) + "." + extension
  }

  /** The filename splits back into its four parts: the safe name, `_`, the
      timestamp, `.` and the extension. */
  lemma FilenameParts(title: string, isoNow: string, extension: string)
    ensures var r, n, t := GenerateFilename(title, isoNow, extension), SafeName(title), Timestamp(isoNow);
      && r[..|n|] == n
      && r[|n|] == '_'
      && r[|n| + 1..|n| + 1 + |t|] == t
      && r[|n| + 1 + |t|] == '.'
      && r[|n| + 2 + |t|..] == extension
  {
  }

  /** With a real clock reading and a plain extension, no character of the
      filename is one that the title sanitizing removes, and none is whitespace. */
  lemma FilenameIsLegal(title: string, isoNow: string, extension: string)
    requires forall i :: 0 <= i < |isoNow| ==> (IsIllegal(isoNow[i]) ==> isoNow[i] == ':') && !IsSpace(isoNow[i])
    requires NoIllegal(extension) && NoSpace(extension)
    ensures NoIllegal(GenerateFilename(title, isoNow, extension))
    ensures NoSpace(GenerateFilename(title, isoNow, extension))
  {
    var r, n, t := GenerateFilename(title, isoNow, extension), SafeName(title), Timestamp(isoNow);
    FilenameParts(title, isoNow, extension);
    forall i | 0 <= i < |r| ensures !IsIllegal(r[i]) && !IsSpace(r[i]) {
      if i < |n| {
        assert r[i] == n[i];
      } else if |n| < i < |n| + 1 + |t| {
        assert r[i] == t[i - |n| - 1];
      } else if |n| + 1 + |t| < i {
        assert r[i] == extension[i - |n| - 2 - |t|];
      }
    }
  }
}
