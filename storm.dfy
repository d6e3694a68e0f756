/**
 * The text forms of the STORM outline and editor records: the Markdown of a
 * subsection, a section and a whole outline, an editor's persona, and the
 * pattern an editor's name must match.
 */
module Storm {
  import opened Wrappers
  import opened Strings

  datatype Subsection = Subsection(title: string, description: string)

  /** `subsections` is None when the section was built without the field. */
  datatype Section = Section(title: string, description: string, subsections: Option<seq<Subsection>>)

  datatype Outline = Outline(pageTitle: string, sections: seq<Section>)

  datatype Editor = Editor(affiliation: string, name: string, role: string, description: string)

  /** A string `strip()` leaves whole on the right: its last character is not whitespace. */
  predicate EndsSolid(s: string) {
    s != [] && !IsSpace(s[|s| - 1])
  }

  /** A non-empty string whose first character is visible is only trimmed on the right by `strip()`. */
  lemma StripSolidStart(s: string)
    requires s != [] && !IsSpace(s[0])
    ensures Strip(s) == StripRight(s)
  {
    StripLeftOfStripped(s);
  }

  /** The subsection before stripping: `### title`, a blank line, the description. */
  function SubsectionText(sub: Subsection): string {
    "### " + sub.title + "\n\n" + sub.description
  }

  /** `Subsection.as_str`: stripped, and the heading marks survive the strip. */
  function SubsectionAsStr(sub: Subsection): (r: string)
    ensures IsStripped(r)
    ensures |r| >= 3 && r[0] == '#' && r[1] == '#' && r[2] == '#'
  {
    var s := SubsectionText(sub);
    assert s[0] == '#' && s[1] == '#' && s[2] == '#';
    StripSolidStart(s);
    Strip(s)
  }

  /** The unstripped subsection texts, in order, as the section joins them. */
  function SubsectionTexts(subs: seq<Subsection>): seq<string> {
    if subs == [] then [] else [SubsectionText(subs[0])] + SubsectionTexts(subs[1..])
  }

  /** The subsection strings, in order. */
  function SubsectionStrs(subs: seq<Subsection>): seq<string> {
    if subs == [] then [] else [SubsectionAsStr(subs[0])] + SubsectionStrs(subs[1..])
  }

  /** A missing subsection list reads as an empty one. */
  function Subsections(sec: Section): seq<Subsection> {
    if sec.subsections.Some? then sec.subsections.value else []
  }

  /** The section before stripping: heading, description, then the subsections separated by blank lines. */
  function SectionText(sec: Section): string {
    "## " + sec.title + "\n\n" + sec.description + "\n\n" + Join("\n\n", SubsectionTexts(Subsections(sec)))
  }

  /** `Section.as_str`: stripped, and the heading marks survive the strip. */
  function SectionAsStr(sec: Section): (r: string)
    ensures IsStripped(r)
    ensures |r| >= 2 && r[0] == '#' && r[1] == '#'
  {
    var s := SectionText(sec);
    assert s[0] == '#' && s[1] == '#';
    StripSolidStart(s);
    Strip(s)
  }

  /** The section strings of an outline, in order. */
  function SectionStrs(sections: seq<Section>): seq<string> {
    if sections == [] then [] else [SectionAsStr(sections[0])] + SectionStrs(sections[1..])
  }

  /** The outline before stripping: the page title, a blank line, the sections separated by blank lines. */
  function OutlineText(o: Outline): string {
    "# " + o.pageTitle + "\n\n" + Join("\n\n", SectionStrs(o.sections))
  }

  /** `Outline.as_str`: stripped, and the heading mark survives the strip. */
  function OutlineAsStr(o: Outline): (r: string)
    ensures IsStripped(r)
    ensures |r| >= 1 && r[0] == '#'
  {
    var s := OutlineText(o);
    assert s[0] == '#';
    StripSolidStart(s);
    Strip(s)
  }

  lemma EndsSolidAppend(a: string, b: string)
    requires EndsSolid(b)
    ensures EndsSolid(a + b)
  {
    assert (a + b)[|a + b| - 1] == b[|b| - 1];
  }

  /** Joining a list whose first part is followed by more parts puts the separator after it. */
  lemma JoinCons(sep: string, x: string, rest: seq<string>)
    requires rest != []
    ensures Join(sep, [x] + rest) == x + sep + Join(sep, rest)
  {
    assert ([x] + rest)[1..] == rest;
  }

  /** The joined section strings end in a visible character: every section string does. */
  lemma {:induction false} SectionsJoinSolid(sections: seq<Section>)
    requires sections != []
    ensures EndsSolid(Join("\n\n", SectionStrs(sections)))
    decreases |sections|
  {
    var x := SectionAsStr(sections[0]);
    assert EndsSolid(x);
    var rest := SectionStrs(sections[1..]);
    assert SectionStrs(sections) == [x] + rest;
    if |sections| == 1 {
      assert rest == [];
      assert Join("\n\n", [x] + rest) == x;
    } else {
      SectionsJoinSolid(sections[1..]);
      JoinCons("\n\n", x, rest);
      EndsSolidAppend(x + "\n\n", Join("\n\n", rest));
    }
  }

  /** Every description in the list ends in a visible character. */
  predicate DescriptionsSolid(subs: seq<Subsection>) {
    subs == [] || (EndsSolid(subs[0].description) && DescriptionsSolid(subs[1..]))
  }

  /** The joined subsection texts end where the last description ends. */
  lemma {:induction false} SubsectionsJoinSolid(subs: seq<Subsection>)
    requires subs != [] && DescriptionsSolid(subs)
    ensures EndsSolid(Join("\n\n", SubsectionTexts(subs)))
    decreases |subs|
  {
    var x := SubsectionText(subs[0]);
    if |subs| == 1 {
      assert SubsectionTexts(subs) == [x];
      EndsSolidAppend("### " + subs[0].title + "\n\n", subs[0].description);
    } else {
      SubsectionsJoinSolid(subs[1..]);
      JoinCons("\n\n", x, SubsectionTexts(subs[1..]));
      EndsSolidAppend(x + "\n\n", Join("\n\n", SubsectionTexts(subs[1..])));
    }
  }

  /** A subsection whose description ends in a visible character loses nothing to `strip()`. */
  lemma SubsectionKept(sub: Subsection)
    requires EndsSolid(sub.description)
    ensures SubsectionAsStr(sub) == SubsectionText(sub)
  {
    var s := SubsectionText(sub);
    EndsSolidAppend("### " + sub.title + "\n\n", sub.description);
    assert s[0] == '#';
    StripIdentity(s);
  }

  /** Subsections whose descriptions end in a visible character lose nothing to `strip()`. */
  lemma {:induction false} SubsectionStrsAreTexts(subs: seq<Subsection>)
    requires DescriptionsSolid(subs)
    ensures SubsectionStrs(subs) == SubsectionTexts(subs)
    decreases |subs|
  {
    if subs != [] {
      SubsectionStrsAreTexts(subs[1..]);
      SubsectionStrsCons(subs);
    }
  }

  lemma SubsectionStrsCons(subs: seq<Subsection>)
    requires subs != [] && DescriptionsSolid(subs)
    requires SubsectionStrs(subs[1..]) == SubsectionTexts(subs[1..])
    ensures SubsectionStrs(subs) == SubsectionTexts(subs)
  {
    SubsectionKept(subs[0]);
  }

  /** A subsection with a blank description is its heading line, trimmed on the right. */
  lemma SubsectionBlank(sub: Subsection)
    requires AllSpace(sub.description)
    ensures SubsectionAsStr(sub) == StripRight("### " + sub.title)
  {
    var head := "### " + sub.title;
    var s := SubsectionText(sub);
    assert s[0] == '#';
    StripSolidStart(s);
    assert AllSpace("\n\n");
    AllSpaceConcat("\n\n", sub.description);
    assert s == head + ("\n\n" + sub.description);
    StripRightPadded(head, "\n\n" + sub.description);
    assert SubsectionAsStr(sub) == Strip(s);
  }

  /**
   * Without subsections (None or an empty list) a section is its heading
   * and description, trimmed on the right: the two trailing newlines go.
   */
  lemma SectionWithoutSubsections(sec: Section)
    requires sec.subsections == None || sec.subsections == Some([])
    ensures SectionAsStr(sec) == StripRight("## " + sec.title + "\n\n" + sec.description)
  {
    var head := "## " + sec.title + "\n\n" + sec.description;
    var s := SectionText(sec);
    assert s[0] == '#';
    StripSolidStart(s);
    assert Subsections(sec) == [];
    assert s == head + "\n\n" by {
      assert s == head + "\n\n" + "";
    }
    assert AllSpace("\n\n");
    StripRightPadded(head, "\n\n");
    assert SectionAsStr(sec) == Strip(s);
  }

  /**
   * A section with subsections whose descriptions all end in a visible
   * character is its heading, its description and the subsections' own
   * strings, separated by blank lines, with nothing stripped.
   */
  lemma SectionOfSubsections(sec: Section)
    requires Subsections(sec) != []
    requires DescriptionsSolid(Subsections(sec))
    ensures SectionAsStr(sec) == "## " + sec.title + "\n\n" + sec.description + "\n\n"
      + Join("\n\n", SubsectionStrs(Subsections(sec)))
  {
    var subs := Subsections(sec);
    SubsectionStrsAreTexts(subs);
    SubsectionsJoinSolid(subs);
    var head := "## " + sec.title + "\n\n" + sec.description + "\n\n";
    var s := SectionText(sec);
    EndsSolidAppend(head, Join("\n\n", SubsectionTexts(subs)));
    assert s[0] == '#';
    StripIdentity(s);
    assert SectionAsStr(sec) == Strip(s);
  }

  /**
   * An outline with sections is `# title`, a blank line and the section
   * strings separated by blank lines, whatever the sections hold: every
   * section string already ends in a visible character.
   */
  lemma OutlineWithSections(o: Outline)
    requires o.sections != []
    ensures OutlineAsStr(o) == "# " + o.pageTitle + "\n\n" + Join("\n\n", SectionStrs(o.sections))
  {
    var s := OutlineText(o);
    SectionsJoinSolid(o.sections);
    EndsSolidAppend("# " + o.pageTitle + "\n\n", Join("\n\n", SectionStrs(o.sections)));
    assert s[0] == '#';
    StripIdentity(s);
    assert OutlineAsStr(o) == Strip(s);
  }

  /** An outline without sections is its title line, trimmed on the right. */
  lemma OutlineWithoutSections(o: Outline)
    requires o.sections == []
    ensures OutlineAsStr(o) == StripRight("# " + o.pageTitle)
  {
    var head := "# " + o.pageTitle;
    var s := OutlineText(o);
    assert s[0] == '#';
    StripSolidStart(s);
    assert s == head + "\n\n" by {
      assert Join("\n\n", SectionStrs(o.sections)) == "";
      assert s == head + "\n\n" + "";
    }
    assert AllSpace("\n\n");
    StripRightPadded(head, "\n\n");
    assert OutlineAsStr(o) == Strip(s);
  }

  /** `Editor.persona`: one labelled line per field, the last line ended too, nothing stripped. */
  function Persona(e: Editor): (r: string)
    ensures |r| > 0 && r[|r| - 1] == '\n'
  {
    "Name: " + e.name + "\n" + "Role: " + e.role + "\n" + "Affiliation: " + e.affiliation + "\n"
      + "Description: " + e.description + "\n"
  }

  /** The characters of the name pattern's class `[a-zA-Z0-9_-]`. */
  predicate NameChar(c: char) {
    ('a' <= c <= 'z') || ('A' <= c <= 'Z') || ('0' <= c <= '9') || c == '_' || c == '-'
  }

  /** What the name pattern accepts: 1 to 64 characters, each from the class. */
  predicate ValidName(name: string) {
    1 <= |name| <= 64 && forall i :: 0 <= i < |name| ==> NameChar(name[i])
  }

  /** The number of class characters at the start of `s`. */
  function ClassRun(s: string): (n: nat)
    ensures n <= |s|
    ensures forall i :: 0 <= i < n ==> NameChar(s[i])
    ensures n == |s| || !NameChar(s[n])
  {
    if s != [] && NameChar(s[0]) then 1 + ClassRun(s[1..]) else 0
  }

  /**
   * The anchored pattern `^[a-zA-Z0-9_-]{1,64}$` run as a matcher: the
   * repetition takes as many class characters as it may, at most 64, and
   * at least one, and then the text must end.
   */
  function NamePatternMatches(name: string): bool {
    var run := ClassRun(name);
    var taken := if run < 64 then run else 64;
    1 <= taken && taken == |name|
  }

  /** The matcher accepts exactly the valid names. */
  lemma NamePattern(name: string)
    ensures NamePatternMatches(name) <==> ValidName(name)
  {
    if ValidName(name) {
      ClassRunAll(name);
    }
  }

  lemma {:induction false} ClassRunAll(s: string)
    requires forall i :: 0 <= i < |s| ==> NameChar(s[i])
    ensures ClassRun(s) == |s|
    decreases |s|
  {
    if s != [] {
      ClassRunAll(s[1..]);
    }
  }

  lemma ValidNameHasNoNewline(name: string)
    requires ValidName(name)
    ensures '\n' !in name
  {
  }

  /**
   * A persona splits back into its five lines: the four labelled fields in
   * order and the empty text after the final newline, provided no role,
   * affiliation or description holds a line break of its own.
   */
  lemma PersonaLines(e: Editor)
    requires ValidName(e.name)
    requires '\n' !in e.role && '\n' !in e.affiliation && '\n' !in e.description
    ensures Split(Persona(e), "\n") == ["Name: " + e.name, "Role: " + e.role, "Affiliation: " + e.affiliation,
        "Description: " + e.description, ""]
  {
    ValidNameHasNoNewline(e.name);
    var l0, l1, l2, l3 := "Name: " + e.name, "Role: " + e.role, "Affiliation: " + e.affiliation, "Description: " + e.description;
    assert Persona(e) == l0 + "\n" + (l1 + "\n" + (l2 + "\n" + (l3 + "\n" + "")));
    FourLines(l0, l1, l2, l3);
  }

  /** Four lines without line breaks, each ended by one, split back into themselves and an empty tail. */
  lemma FourLines(l0: string, l1: string, l2: string, l3: string)
    requires '\n' !in l0 && '\n' !in l1 && '\n' !in l2 && '\n' !in l3
    ensures Split(l0 + "\n" + (l1 + "\n" + (l2 + "\n" + (l3 + "\n" + ""))), "\n") == [l0, l1, l2, l3, ""]
  {
    var t3 := l3 + "\n" + "";
    var t2 := l2 + "\n" + t3;
    var t1 := l1 + "\n" + t2;
    assert [l0] + ([l1] + ([l2] + ([l3] + [""]))) == [l0, l1, l2, l3, ""];
    assert Split(t3, "\n") == [l3] + [""] by {
      SplitNoChar("", "\n");
      SplitAtChar(l3, "\n", "");
    }
    assert Split(t2, "\n") == [l2] + ([l3] + [""]) by {
      SplitAtChar(l2, "\n", t3);
    }
    assert Split(t1, "\n") == [l1] + ([l2] + ([l3] + [""])) by {
      SplitAtChar(l1, "\n", t2);
    }
    SplitAtChar(l0, "\n", t1);
  }
}
