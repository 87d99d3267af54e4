/**
 Versioned item names: a phase written into the name before its wear suffix, and read back from there. Item fees
 and sales recover an item's title this way.

 The parser strips what stands before the wear and takes a version only from a last pair of parentheses without others
 inside; the builder leaves a name alone for an empty version and for "default". So the two fit together exactly on names
 that have one space between a stripped base and their wear.
 */
module ItemNames {
  import opened Texts

  const WEAR_SUFFIXES: seq<string> := ["(Factory New)", "(Minimal Wear)", "(Field-Tested)", "(Well-Worn)", "(Battle-Scarred)"]

  predicate EndsWith(s: string, suffix: string) {
    |suffix| <= |s| && s[|s| - |suffix|..] == suffix
  }

  predicate IsSpace(c: char) {
    c in {' ', '\t', '\n', '\r'}
  }

  function LeftTrimmed(s: string): string {
    if s != [] && IsSpace(s[0]) then LeftTrimmed(s[1..]) else s
  }

  function RightTrimmed(s: string): string {
    if s != [] && IsSpace(s[|s| - 1]) then RightTrimmed(s[..|s| - 1]) else s
  }

  /** `str.strip()`. */
  function Strip(s: string): string {
    RightTrimmed(LeftTrimmed(s))
  }

  predicate Trimmed(s: string) {
    s != [] ==> !IsSpace(s[0]) && !IsSpace(s[|s| - 1])
  }

  /** The first suffix of the list, from the `i`-th on, that ends the name. */
  function WearFrom(name: string, i: nat): Option<string>
    decreases |WEAR_SUFFIXES| - i
  {
    if i >= |WEAR_SUFFIXES| then None
    else if EndsWith(name, WEAR_SUFFIXES[i]) then Some(WEAR_SUFFIXES[i])
    else WearFrom(name, i + 1)
  }

  function WearOf(name: string): Option<string> {
    WearFrom(name, 0)
  }

  function WithoutSuffix(name: string, suffix: string): string
    requires EndsWith(name, suffix)
  {
    name[..|name| - |suffix|]
  }

  lemma {:induction false} WearEndsName(name: string, i: nat)
    ensures WearFrom(name, i).Some? ==> EndsWith(name, WearFrom(name, i).value) && WearFrom(name, i).value in WEAR_SUFFIXES
    decreases |WEAR_SUFFIXES| - i
  {
    if i < |WEAR_SUFFIXES| && !EndsWith(name, WEAR_SUFFIXES[i]) {
      WearEndsName(name, i + 1);
    }
  }

  /** `parse_version_from_name`. */
  function Parse(name: string): (string, Option<string>) {
    match WearOf(name)
    case None => (name, None)
    case Some(wear) =>
      WearEndsName(name, 0);
      var rest := Strip(WithoutSuffix(name, wear));
      var open := LastIndexOf(rest, '(');
      if rest == "" || rest[|rest| - 1] != ')' || open == -1 || open >= |rest| - 2 then (name, None)
      else
        var content := rest[open + 1..|rest| - 1];
        if ')' in content || '(' in content then (name, None)
        else (Strip(rest[..open]) + [' '] + wear, Some(content))
  }

  /** `build_versioned_name`. */
  function Build(name: string, version: Option<string>): string {
    if version.None? || version.value == "" || version.value == "default" then name
    else
      match WearOf(name)
      case None => name + " (" + version.value + ")"
      case Some(wear) =>
        WearEndsName(name, 0);
        Strip(WithoutSuffix(name, wear)) + " (" + version.value + ") " + wear
  }

  // ---- Suffixes ----

  /** A wear suffix is known by its second-last and its fourth-last character. */
  function SuffixWith(secondLast: char, fourthLast: char): string {
    if secondLast == 'w' then "(Factory New)"
    else if secondLast == 'r' then "(Minimal Wear)"
    else if secondLast == 'n' then "(Well-Worn)"
    else if fourthLast == 't' then "(Field-Tested)"
    else "(Battle-Scarred)"
  }

  predicate KnownByTail(suffix: string) {
    |suffix| >= 4 && suffix == SuffixWith(suffix[|suffix| - 2], suffix[|suffix| - 4])
  }

  lemma SuffixByTail(suffix: string)
    requires suffix in WEAR_SUFFIXES
    ensures KnownByTail(suffix)
  {
    var i :| 0 <= i < |WEAR_SUFFIXES| && suffix == WEAR_SUFFIXES[i];
    if i == 0 {
      assert KnownByTail("(Factory New)");
    } else if i == 1 {
      assert KnownByTail("(Minimal Wear)");
    } else if i == 2 {
      assert KnownByTail("(Field-Tested)");
    } else if i == 3 {
      assert KnownByTail("(Well-Worn)");
    } else {
      assert KnownByTail("(Battle-Scarred)");
    }
  }

  lemma SuffixesApart(s: string, a: string, b: string)
    requires a in WEAR_SUFFIXES && b in WEAR_SUFFIXES && EndsWith(s, a) && EndsWith(s, b)
    ensures a == b
  {
    SuffixByTail(a);
    SuffixByTail(b);
    hide SuffixWith;
    var n := |s|;
    assert s[n - 2] == a[|a| - 2] == b[|b| - 2] && s[n - 4] == a[|a| - 4] == b[|b| - 4];
  }

  lemma {:induction false} FindsWear(name: string, wear: string, i: nat)
    requires EndsWith(name, wear) && exists j :: i <= j < |WEAR_SUFFIXES| && WEAR_SUFFIXES[j] == wear
    ensures WearFrom(name, i) == Some(wear)
    decreases |WEAR_SUFFIXES| - i
  {
    if EndsWith(name, WEAR_SUFFIXES[i]) {
      SuffixesApart(name, WEAR_SUFFIXES[i], wear);
    } else {
      FindsWear(name, wear, i + 1);
    }
  }

  lemma WearOfSuffixed(front: string, wear: string)
    requires wear in WEAR_SUFFIXES
    ensures WearOf(front + wear) == Some(wear) && WithoutSuffix(front + wear, wear) == front
  {
    assert (front + wear)[|front|..] == wear;
    var j :| 0 <= j < |WEAR_SUFFIXES| && WEAR_SUFFIXES[j] == wear;
    FindsWear(front + wear, wear, 0);
  }

  // ---- Stripping ----

  lemma {:induction false} StripIsTrimmed(s: string)
    ensures Trimmed(Strip(s))
  {
    LeftIsTrimmed(s);
    RightKeepsLeft(LeftTrimmed(s));
  }

  lemma {:induction false} LeftIsTrimmed(s: string)
    ensures LeftTrimmed(s) != [] ==> !IsSpace(LeftTrimmed(s)[0])
  {
    if s != [] && IsSpace(s[0]) {
      LeftIsTrimmed(s[1..]);
    }
  }

  lemma {:induction false} RightKeepsLeft(s: string)
    requires s != [] ==> !IsSpace(s[0])
    ensures Trimmed(RightTrimmed(s))
  {
    if s != [] && IsSpace(s[|s| - 1]) {
      RightKeepsLeft(s[..|s| - 1]);
    }
  }

  predicate AllSpaces(s: string) {
    forall i :: 0 <= i < |s| ==> IsSpace(s[i])
  }

  lemma {:induction false} LeftTrimsAll(s: string)
    ensures LeftTrimmed(s) == "" <==> AllSpaces(s)
    ensures AllSpaces(LeftTrimmed(s)) ==> AllSpaces(s)
  {
    if s != [] && IsSpace(s[0]) {
      LeftTrimsAll(s[1..]);
      assert s == [s[0]] + s[1..];
    }
  }

  lemma {:induction false} RightTrimsAll(s: string)
    ensures RightTrimmed(s) == "" <==> AllSpaces(s)
  {
    if s != [] && IsSpace(s[|s| - 1]) {
      RightTrimsAll(s[..|s| - 1]);
      assert s == s[..|s| - 1] + [s[|s| - 1]];
    }
  }

  /** Nothing is left of a text when it is stripped exactly when it holds only spaces. */
  lemma StripsToNothing(s: string)
    ensures Strip(s) == "" <==> AllSpaces(s)
  {
    LeftTrimsAll(s);
    RightTrimsAll(LeftTrimmed(s));
  }

  /** A trimmed text followed by one space strips to itself. */
  lemma StripOneSpace(s: string)
    requires Trimmed(s)
    ensures Strip(s + [' ']) == s
  {
    var t := s + [' '];
    assert t[..|t| - 1] == s;
    if s == [] {
      assert t[1..] == [];
      assert LeftTrimmed(t) == LeftTrimmed(t[1..]) == [];
    } else {
      assert LeftTrimmed(t) == t;
      assert RightTrimmed(t) == RightTrimmed(s) == s;
    }
  }

  // ---- What the parser and the builder do ----

  /** The parser takes a version exactly from a last pair of parentheses, not empty and without others inside. */
  lemma ParseMarked(name: string, wear: string, front: string, version: string)
    requires WearOf(name) == Some(wear) && EndsWith(name, wear) && '(' !in version && ')' !in version
    requires Strip(WithoutSuffix(name, wear)) == front + ['('] + (version + [')'])
    ensures Parse(name) == if version == "" then (name, None) else (Strip(front) + [' '] + wear, Some(version))
  {
    OpensVersion(front, version);
    hide WearOf;
    hide Strip;
    hide LastIndexOf;
    hide EndsWith;
    hide WithoutSuffix;
  }

  lemma ParsedVersion(name: string)
    ensures Parse(name).1.None? ==> Parse(name).0 == name
    ensures Parse(name).1.Some? ==>
      var version := Parse(name).1.value;
      WearOf(name).Some? && version != "" && '(' !in version && ')' !in version
  {
    hide WearOf;
    hide Strip;
    hide LastIndexOf;
    hide EndsWith;
    hide WithoutSuffix;
  }

  /** The builder leaves a name alone for no version, an empty one and "default", and for no other. */
  lemma BuildLeavesAlone(name: string, version: Option<string>)
    ensures (version.None? || version.value == "" || version.value == "default") ==> Build(name, version) == name
  {
  }

  // ---- Round trips ----

  /** A version the builder writes and the parser reads: not empty, not "default", and without parentheses. */
  predicate Readable(version: string) {
    version != "" && version != "default" && '(' !in version && ')' !in version
  }

  /** A name in the form the parser gives names back in: one space between the stripped base and its wear. */
  predicate Canonical(name: string) {
    var wear := WearOf(name);
    WearEndsName(name, 0);
    wear.Some? && name == Strip(WithoutSuffix(name, wear.value)) + [' '] + wear.value
  }

  lemma CanonicalOf(base: string, wear: string)
    requires Trimmed(base) && wear in WEAR_SUFFIXES
    ensures Canonical(base + [' '] + wear) && WearOf(base + [' '] + wear) == Some(wear)
    ensures Strip(WithoutSuffix(base + [' '] + wear, wear)) == base
  {
    WearOfSuffixed(base + [' '], wear);
    StripOneSpace(base);
  }

  /** A text that ends with a marked version: where it opens, and what it says. */
  lemma OpensVersion(front: string, version: string)
    requires '(' !in version
    ensures var rest := front + ['('] + (version + [')']);
      && LastIndexOf(rest, '(') == |front| && rest[|rest| - 1] == ')'
      && rest[..|front|] == front && rest[|front| + 1..|rest| - 1] == version
  {
    hide LastIndexOf;
    LastIndexOfSeparator(front, '(', version + [')']);
  }

  lemma EndsMarked(rest: string, version: string)
    requires |rest| >= |version| + 2 && rest[|rest| - |version| - 2..] == "(" + version + ")"
    ensures rest == rest[..|rest| - |version| - 2] + ['('] + (version + [')'])
  {
    var open := |rest| - |version| - 2;
    assert rest == rest[..open] + rest[open..];
    assert "(" + version + ")" == ['('] + (version + [')']);
  }

  /** Parsing what stands before the wear: the base, a space and the version in parentheses. */
  lemma ParseVersioned(base: string, version: string, wear: string)
    requires Trimmed(base) && Readable(version) && wear in WEAR_SUFFIXES
    ensures Parse(base + " (" + version + ") " + wear) == (base + [' '] + wear, Some(version))
  {
    hide Strip;
    hide WearOf;
    hide EndsWith;
    hide LastIndexOf;
    var marked := base + " (" + version + ")";
    assert base + " (" + version + ") " + wear == marked + [' '] + wear;
    WearOfSuffixed(marked + [' '], wear);
    assert marked + [' '] == base + " (" + version + ") ";
    StripMarked(base, version);
    var rest := Strip(marked + [' ']);
    EndsMarked(rest, version);
    OpensVersion(rest[..|rest| - |version| - 2], version);
    hide WithoutSuffix;
  }

  /** Stripping keeps the version's parentheses, and what stands before them strips to the base. */
  lemma StripMarked(base: string, version: string)
    requires Trimmed(base) && version != ""
    ensures var rest := Strip(base + " (" + version + ") ");
      && |rest| >= |version| + 2
      && rest[|rest| - |version| - 2..] == "(" + version + ")"
      && Strip(rest[..|rest| - |version| - 2]) == base
  {
    var tail := "(" + version + ")";
    var text := base + " (" + version + ") ";
    if base == [] {
      assert text[1..] == tail + [' '];
      assert LeftTrimmed(text) == LeftTrimmed(text[1..]) == tail + [' '];
      assert (tail + [' '])[..|tail|] == tail;
      assert tail[|tail| - 1] == ')';
      assert RightTrimmed(tail + [' ']) == RightTrimmed(tail) == tail;
      assert tail[..0] == [];
    } else {
      assert text == base + [' '] + tail + [' '];
      assert tail[|tail| - 1] == ')';
      StripOneSpace(base + [' '] + tail);
      assert (base + [' '] + tail)[..|base| + 1] == base + [' '];
      StripOneSpace(base);
    }
  }

  /** The version comes back out of a name exactly when the name has its wear after one space. */
  lemma RoundTripIff(name: string, version: string)
    requires Readable(version)
    ensures Parse(Build(name, Some(version))) == (name, Some(version)) <==> Canonical(name)
  {
    WearEndsName(name, 0);
    match WearOf(name)
    case None =>
      NoWearBuilt(name, version);
    case Some(wear) =>
      var base := Strip(WithoutSuffix(name, wear));
      StripIsTrimmed(WithoutSuffix(name, wear));
      ParseVersioned(base, version, wear);
  }

  /** A name without wear gets its version at the end, and the parser leaves it there. */
  lemma NoWearBuilt(name: string, version: string)
    requires Readable(version) && WearOf(name).None?
    ensures Parse(Build(name, Some(version))) != (name, Some(version))
  {
    var built := name + " (" + version + ")";
    if WearOf(built).Some? {
      WearEndsName(built, 0);
      var wear := WearOf(built).value;
      var rest := Strip(WithoutSuffix(built, wear));
      if Parse(built) == (name, Some(version)) {
        var base := Strip(rest[..LastIndexOf(rest, '(')]);
        WearOfSuffixed(base + [' '], wear);
      }
    }
  }

  /** Names of the form base, space, wear read back with their version. */
  lemma RoundTrip(base: string, wear: string, version: string)
    requires Trimmed(base) && wear in WEAR_SUFFIXES && Readable(version)
    ensures Parse(Build(base + [' '] + wear, Some(version))) == (base + [' '] + wear, Some(version))
  {
    CanonicalOf(base, wear);
    RoundTripIff(base + [' '] + wear, version);
  }

  /** Distinct canonical names and versions give distinct versioned names. */
  lemma BuildInjective(a: string, v: string, b: string, w: string)
    requires Canonical(a) && Canonical(b) && Readable(v) && Readable(w)
    requires Build(a, Some(v)) == Build(b, Some(w))
    ensures a == b && v == w
  {
    RoundTripIff(a, v);
    RoundTripIff(b, w);
  }

  lemma PlainParses(base: string, wear: string)
    requires Trimmed(base) && wear in WEAR_SUFFIXES && (base != "" ==> base[|base| - 1] != ')')
    ensures Parse(base + [' '] + wear) == (base + [' '] + wear, None)
  {
    hide EndsWith;
    hide WithoutSuffix;
    hide Trimmed;
    hide Strip;
    hide WearOf;
    hide LastIndexOf;
    hide Canonical;
    CanonicalOf(base, wear);
  }

  /** A name whose base does not end in a parenthesis has no version, so it never equals a versioned one. */
  lemma PlainNames(base: string, wear: string, name: string, version: string)
    requires Trimmed(base) && wear in WEAR_SUFFIXES && (base != "" ==> base[|base| - 1] != ')')
    requires Canonical(name) && Readable(version)
    ensures Parse(base + [' '] + wear) == (base + [' '] + wear, None)
    ensures Build(name, Some(version)) != base + [' '] + wear
  {
    hide Parse;
    hide Build;
    hide Canonical;
    PlainParses(base, wear);
    RoundTripIff(name, version);
  }
}
