/**
 Rebuilding a runtime environment file: the lines that define a fixed name are removed, everything
 else is kept in order, and the fixed assignments are appended. Bytes are modelled as characters.
 */
module EnvironmentRebuild {
  import opened Wrappers

  type Lines = seq<string>

  // ---------- lines ----------

  /** The length of the first line with its terminator: LF, CR LF, or a CR on its own. */
  function LineLength(text: string): (n: nat)
    ensures n <= |text| && (text != "" ==> n > 0)
  {
    if text == "" then 0
    else if text[0] == '\n' then 1
    else if text[0] == '\r' then (if |text| > 1 && text[1] == '\n' then 2 else 1)
    else 1 + LineLength(text[1..])
  }

  /** The lines of a text, terminators kept. */
  function SplitKeep(text: string): Lines
    decreases |text|
  {
    if text == "" then []
    else var n := LineLength(text); [text[..n]] + SplitKeep(text[n..])
  }

  function Content(line: string): string {
    if line == "" then ""
    else
      var last := line[|line| - 1];
      if last == '\n' && |line| > 1 && line[|line| - 2] == '\r' then line[..|line| - 2]
      else if last == '\n' || last == '\r' then line[..|line| - 1]
      else line
  }

  function Contents(lines: Lines): (contents: Lines)
    ensures |contents| == |lines| && forall i :: 0 <= i < |lines| ==> contents[i] == Content(lines[i])
  {
    seq(|lines|, i requires 0 <= i < |lines| => Content(lines[i]))
  }

  function SplitLines(text: string): Lines { Contents(SplitKeep(text)) }

  function Join(lines: Lines): string {
    if lines == [] then "" else lines[0] + Join(lines[1..])
  }

  predicate Terminated(line: string) {
    line != "" && line[|line| - 1] in {'\n', '\r'}
  }

  /** One whole line. */
  predicate IsLine(line: string) { line != "" && LineLength(line) == |line| }

  /** Whole lines, of which only the last may lack its terminator. */
  predicate Whole(lines: Lines) {
    && (forall i :: 0 <= i < |lines| ==> IsLine(lines[i]))
    && (forall i :: 0 <= i < |lines| - 1 ==> Terminated(lines[i]))
  }

  /** A line ending in a lone CR directly before an empty LF line: joined, they read as one line. */
  predicate Clashes(first: string, second: string) {
    first != "" && first[|first| - 1] == '\r' && second == "\n"
  }

  predicate NoClash(lines: Lines) {
    forall i :: 0 <= i < |lines| - 1 ==> !Clashes(lines[i], lines[i + 1])
  }

  lemma {:induction false} FirstLine(text: string)
    requires text != ""
    ensures var n := LineLength(text);
            && IsLine(text[..n])
            && (n < |text| ==> Terminated(text[..n]))
            && (n < |text| && text[n - 1] == '\r' ==> text[n] != '\n')
  {
    var n := LineLength(text);
    if text[0] != '\n' && text[0] != '\r' && |text| > 1 {
      FirstLine(text[1..]);
      assert text[..n][1..] == text[1..][..n - 1];
    }
  }

  lemma {:induction false} LineBefore(line: string, rest: string)
    requires IsLine(line) && (rest == "" || Terminated(line))
    ensures LineLength(line + rest)
            == if rest != "" && line[|line| - 1] == '\r' && rest[0] == '\n' then |line| + 1 else |line|
    decreases |line|
  {
    if rest == "" {
      assert line + rest == line;
    } else if line[0] != '\n' && line[0] != '\r' {
      assert |line| > 1;
      assert (line + rest)[1..] == line[1..] + rest;
      LineBefore(line[1..], rest);
    }
  }

  /** Splitting yields whole lines that join back to the text and never clash. */
  lemma {:induction false} SplitIsWhole(text: string)
    ensures Join(SplitKeep(text)) == text
    ensures Whole(SplitKeep(text)) && NoClash(SplitKeep(text))
    decreases |text|
  {
    if text != "" {
      var n := LineLength(text);
      var head, tail := text[..n], text[n..];
      FirstLine(text);
      SplitIsWhole(tail);
      assert text == head + tail;
      FirstOfSplit(tail);
      PrefixWhole(head, SplitKeep(tail));
    }
  }

  lemma FirstOfSplit(text: string)
    ensures text == "" <==> SplitKeep(text) == []
    ensures text != "" ==> SplitKeep(text)[0] != "" && SplitKeep(text)[0][0] == text[0]
  {
  }

  lemma PrefixWhole(head: string, rest: Lines)
    requires IsLine(head) && Whole(rest) && NoClash(rest)
    requires rest != [] ==> Terminated(head) && !Clashes(head, rest[0])
    ensures Whole([head] + rest) && NoClash([head] + rest) && Join([head] + rest) == head + Join(rest)
  {
    assert ([head] + rest)[1..] == rest;
  }

  /** What joining and splitting makes of whole lines: a clashing pair reads as one CR LF line. */
  function Merge(lines: Lines): Lines {
    if |lines| < 2 then lines
    else if Clashes(lines[0], lines[1]) then [lines[0] + "\n"] + Merge(lines[2..])
    else [lines[0]] + Merge(lines[1..])
  }

  lemma WholeTail(lines: Lines)
    requires Whole(lines) && lines != []
    ensures Whole(lines[1..]) && (NoClash(lines) ==> NoClash(lines[1..]))
  {
    var rest := lines[1..];
    assert forall i :: 0 <= i < |rest| ==> rest[i] == lines[i + 1];
  }

  lemma {:induction false} JoinThenSplit(lines: Lines)
    requires Whole(lines)
    ensures SplitKeep(Join(lines)) == Merge(lines)
    decreases |lines|
  {
    if lines != [] {
      WholeTail(lines);
      if |lines| > 1 && Clashes(lines[0], lines[1]) {
        WholeTail(lines[1..]);
        assert lines[1..][1..] == lines[2..];
        JoinThenSplit(lines[2..]);
        assert Join(lines) == (lines[0] + "\n") + Join(lines[2..]);
        LineBefore(lines[0], "\n" + Join(lines[2..]));
        assert lines[0] + ("\n" + Join(lines[2..])) == Join(lines);
        SplitAfter(lines[0] + "\n", Join(lines[2..]));
      } else {
        JoinThenSplit(lines[1..]);
        FirstOfJoin(lines[1..]);
        LineBefore(lines[0], Join(lines[1..]));
        SplitAfter(lines[0], Join(lines[1..]));
      }
    }
  }

  lemma SplitAfter(line: string, rest: string)
    requires line != "" && LineLength(line + rest) == |line|
    ensures SplitKeep(line + rest) == [line] + SplitKeep(rest)
  {
    assert (line + rest)[..|line|] == line && (line + rest)[|line|..] == rest;
  }

  lemma FirstOfJoin(lines: Lines)
    requires Whole(lines)
    ensures lines == [] <==> Join(lines) == ""
    ensures lines != [] ==> Join(lines)[0] == lines[0][0] && (lines[0][0] == '\n' ==> lines[0] == "\n")
  {
    if lines != [] { assert IsLine(lines[0]); }
  }

  /** Whole lines survive joining and splitting exactly when none of them clash. */
  lemma {:induction false} MergeKeeps(lines: Lines)
    ensures |Merge(lines)| <= |lines|
    ensures |Merge(lines)| == |lines| <==> NoClash(lines)
    ensures Merge(lines) == lines <==> NoClash(lines)
    decreases |lines|
  {
    if |lines| >= 2 {
      MergeKeeps(lines[1..]);
      MergeKeeps(lines[2..]);
      assert NoClash(lines) <==> !Clashes(lines[0], lines[1]) && NoClash(lines[1..]) by {
        var rest := lines[1..];
        assert forall i :: 0 <= i < |rest| ==> rest[i] == lines[i + 1];
        if !Clashes(lines[0], lines[1]) && NoClash(rest) {
          forall i | 0 <= i < |lines| - 1 ensures !Clashes(lines[i], lines[i + 1]) {
            if i > 0 { assert !Clashes(rest[i - 1], rest[i]); }
          }
        }
      }
    }
  }

  // ---------- names ----------

  predicate Blank(c: char) { c == ' ' || c == '\t' }

  predicate NameStart(c: char) { 'A' <= c <= 'Z' || 'a' <= c <= 'z' || c == '_' }

  predicate NameChar(c: char) { NameStart(c) || '0' <= c <= '9' }

  function SkipBlanks(text: string): (rest: string)
    ensures forall c :: c in rest ==> c in text
  {
    if text != "" && Blank(text[0]) then SkipBlanks(text[1..]) else text
  }

  function NameChars(text: string): (n: nat)
    ensures n <= |text|
  {
    if text != "" && NameChar(text[0]) then 1 + NameChars(text[1..]) else 0
  }

  /** A name at the start of the text, and what follows it past blanks. */
  datatype Naming = Naming(name: string, rest: string)

  function Named(text: string): (naming: Option<Naming>)
    ensures naming.Some? ==> forall c :: c in naming.value.rest ==> c in text
  {
    if text == "" || !NameStart(text[0]) then None
    else var n := NameChars(text); Some(Naming(text[..n], SkipBlanks(text[n..])))
  }

  predicate Exports(text: string) {
    |text| > 6 && text[..6] == "export" && Blank(text[6])
  }

  predicate Assigns(naming: Option<Naming>) {
    naming.Some? && naming.value.rest != "" && naming.value.rest[0] == '='
  }

  predicate Defines(naming: Option<Naming>) {
    Assigns(naming) || (naming.Some? && naming.value.rest in {"", "\n", "\r\n"})
  }

  /** The two ways a line can be read: behind an export keyword, or with `export` itself as a name. */
  function Exported(line: string): Option<Naming> {
    var text := SkipBlanks(line);
    if Exports(text) then Named(SkipBlanks(text[6..])) else None
  }

  function Plain(line: string): Option<Naming> { Named(SkipBlanks(line)) }

  /** The name a line assigns. */
  function Assigned(line: string): Option<string> {
    if Assigns(Exported(line)) then Some(Exported(line).value.name)
    else if Assigns(Plain(line)) then Some(Plain(line).value.name)
    else None
  }

  /** The name a line assigns or declares without a value. */
  function Defined(line: string): Option<string> {
    if Defines(Exported(line)) then Some(Exported(line).value.name)
    else if Defines(Plain(line)) then Some(Plain(line).value.name)
    else None
  }

  predicate Blanks(text: string) { forall i :: 0 <= i < |text| ==> Blank(text[i]) }

  predicate IsName(name: string) {
    name != "" && NameStart(name[0]) && forall i :: 0 <= i < |name| ==> NameChar(name[i])
  }

  /** The ASCII codes of letters and the underscore, and of digits. */
  predicate Letter(code: int) { 65 <= code <= 90 || 97 <= code <= 122 || code == 95 }

  predicate Digit(code: int) { 48 <= code <= 57 }

  /** A name is made of ASCII letters, underscores and digits, and starts with no digit. */
  lemma NamesAreOfLettersAndDigits(name: string)
    ensures IsName(name) <==>
              && name != "" && Letter(name[0] as int)
              && forall i :: 0 <= i < |name| ==> Letter(name[i] as int) || Digit(name[i] as int)
  {
    forall i | 0 <= i < |name|
      ensures NameStart(name[i]) <==> Letter(name[i] as int)
      ensures NameChar(name[i]) <==> Letter(name[i] as int) || Digit(name[i] as int)
    {
    }
  }

  /** A name, blanks, an equals sign, anything. */
  ghost predicate Assignment(text: string, name: string) {
    exists gap, value :: Blanks(gap) && IsName(name) && text == name + (gap + ("=" + value))
  }

  /** The line format: blanks, optionally `export` and more blanks, then an assignment. */
  ghost predicate AssignmentLine(line: string, name: string) {
    exists lead, text :: Blanks(lead) && line == lead + text && (Assignment(text, name) || ExportLine(text, name))
  }

  ghost predicate ExportLine(text: string, name: string) {
    exists gap, rest :: Blanks(gap) && gap != "" && text == "export" + (gap + rest) && Assignment(rest, name)
  }

  lemma {:induction false} SkipBlanksOf(lead: string, text: string)
    requires Blanks(lead) && (text == "" || !Blank(text[0]))
    ensures SkipBlanks(lead + text) == text
  {
    if lead == "" {
      assert lead + text == text;
    } else {
      assert (lead + text)[1..] == lead[1..] + text;
      SkipBlanksOf(lead[1..], text);
    }
  }

  lemma {:induction false} SkipBlanksSplits(text: string) returns (lead: string)
    ensures Blanks(lead) && text == lead + SkipBlanks(text)
    ensures SkipBlanks(text) == "" || !Blank(SkipBlanks(text)[0])
  {
    if text != "" && Blank(text[0]) {
      var (first, others) := ([text[0]], text[1..]);
      var tail := SkipBlanksSplits(others);
      lead := first + tail;
      assert text == first + others && first + (tail + SkipBlanks(others)) == lead + SkipBlanks(others);
    } else {
      lead := "";
    }
  }

  lemma {:induction false} NameCharsOfWord(word: string, rest: string)
    requires (forall i :: 0 <= i < |word| ==> NameChar(word[i])) && (rest == "" || !NameChar(rest[0]))
    ensures NameChars(word + rest) == |word|
  {
    if word == "" {
      assert word + rest == rest;
    } else {
      assert (word + rest)[1..] == word[1..] + rest;
      NameCharsOfWord(word[1..], rest);
    }
  }

  lemma {:induction false} NameCharsAreName(text: string)
    ensures forall i :: 0 <= i < NameChars(text) ==> NameChar(text[i])
  {
    if text != "" && NameChar(text[0]) { NameCharsAreName(text[1..]); }
  }

  lemma AssignmentIsNamed(text: string, name: string)
    requires Assignment(text, name)
    ensures Named(text).Some? && Named(text).value.name == name && Assigns(Named(text))
    ensures text != "" && !Blank(text[0])
  {
    var gap, value :| Blanks(gap) && IsName(name) && text == name + (gap + ("=" + value));
    var rest := gap + ("=" + value);
    assert gap != "" ==> rest[0] == gap[0];
    NameCharsOfWord(name, rest);
    assert text[..|name|] == name && text[|name|..] == rest;
    SkipBlanksOf(gap, "=" + value);
  }

  lemma NamedIsAssignment(text: string)
    requires Assigns(Named(text))
    ensures Assignment(text, Named(text).value.name)
  {
    var n := NameChars(text);
    NameCharsAreName(text);
    var gap := SkipBlanksSplits(text[n..]);
    var rest := SkipBlanks(text[n..]);
    assert rest == "=" + rest[1..];
    assert text == text[..n] + (gap + ("=" + rest[1..]));
    assert IsName(text[..n]);
  }

  /** The matcher accepts exactly the lines of the format, and reads their name. */
  lemma AssignedMeansAssignmentLine(line: string, name: string)
    ensures Assigned(line) == Some(name) <==> AssignmentLine(line, name)
  {
    if Assigned(line) == Some(name) { AssignedIsALine(line, name); }
    if AssignmentLine(line, name) { LineIsAssigned(line, name); }
  }

  lemma AssignedIsALine(line: string, name: string)
    requires Assigned(line) == Some(name)
    ensures AssignmentLine(line, name)
  {
    var text := SkipBlanks(line);
    var lead := SkipBlanksSplits(line);
    if Assigns(Exported(line)) {
      ExportedIsALine(text, name);
    } else {
      NamedIsAssignment(text);
    }
  }

  lemma ExportedIsALine(text: string, name: string)
    requires Exports(text) && Assigns(Named(SkipBlanks(text[6..])))
    requires Named(SkipBlanks(text[6..])).value.name == name
    ensures ExportLine(text, name)
  {
    var gap := SkipBlanksSplits(text[6..]);
    NamedIsAssignment(SkipBlanks(text[6..]));
    assert text == "export" + (gap + SkipBlanks(text[6..]));
  }

  lemma LineIsAssigned(line: string, name: string)
    requires AssignmentLine(line, name)
    ensures Assigned(line) == Some(name)
  {
    var lead, text :| Blanks(lead) && line == lead + text && (Assignment(text, name) || ExportLine(text, name));
    if ExportLine(text, name) {
      ExportLineStarts(text, name);
      SkipBlanksOf(lead, text);
    } else {
      AssignmentIsNamed(text, name);
      SkipBlanksOf(lead, text);
      if Exported(line).Some? { ExportAssigned(line); }
    }
  }

  lemma ExportLineStarts(text: string, name: string)
    requires ExportLine(text, name)
    ensures Exports(text) && !Blank(text[0])
    ensures var naming := Named(SkipBlanks(text[6..])); Assigns(naming) && naming.value.name == name
  {
    var gap, rest :| Blanks(gap) && gap != "" && text == "export" + (gap + rest) && Assignment(rest, name);
    AssignmentIsNamed(rest, name);
    assert text[..6] == "export" && text[6..] == gap + rest && text[6] == gap[0];
    assert text[0] == text[..6][0];
    SkipBlanksOf(gap, rest);
  }

  /** When `export` is itself assigned, no name follows it. */
  lemma ExportAssigned(line: string)
    requires Exported(line).Some?
    ensures !Assigns(Plain(line))
  {
    var t := SkipBlanks(line);
    assert t == "export" + t[6..];
    NameCharsOfWord("export", t[6..]);
  }

  predicate Ending(end: string) { end in {"", "\n", "\r", "\r\n"} }

  lemma {:induction false} SkipBlanksBefore(text: string, end: string)
    requires Ending(end)
    ensures SkipBlanks(text + end) == SkipBlanks(text) + end
    decreases |text|
  {
    if text == "" {
      assert text + end == end;
    } else {
      assert (text + end)[0] == text[0] && (text + end)[1..] == text[1..] + end;
      if Blank(text[0]) { SkipBlanksBefore(text[1..], end); }
    }
  }

  lemma {:induction false} NameCharsBefore(text: string, end: string)
    requires Ending(end)
    ensures NameChars(text + end) == NameChars(text)
    decreases |text|
  {
    if text == "" {
      assert text + end == end;
    } else {
      assert (text + end)[0] == text[0] && (text + end)[1..] == text[1..] + end;
      if NameChar(text[0]) { NameCharsBefore(text[1..], end); }
    }
  }

  /** A naming read from a longer text: the same name, followed by the same rest and the ending. */
  predicate Extends(longer: Option<Naming>, naming: Option<Naming>, end: string) {
    && longer.Some? == naming.Some?
    && (naming.Some? ==> longer.value.name == naming.value.name && longer.value.rest == naming.value.rest + end)
  }

  lemma NamedBefore(text: string, end: string)
    requires Ending(end)
    ensures Extends(Named(text + end), Named(text), end)
  {
    if text != "" {
      var n := NameChars(text);
      NameCharsBefore(text, end);
      SkipBlanksBefore(text[n..], end);
      assert (text + end)[..n] == text[..n] && (text + end)[n..] == text[n..] + end;
    } else {
      assert text + end == end;
    }
  }

  lemma ExportsBefore(text: string, end: string)
    requires Ending(end)
    ensures Exports(text + end) <==> Exports(text)
  {
    if |text| > 6 {
      assert (text + end)[..6] == text[..6];
    } else if |text + end| > 6 {
      assert (text + end)[|text|] == end[0];
      if |text| < 6 { assert (text + end)[..6][|text|] == end[0]; }
    }
  }

  lemma NamingsBefore(text: string, end: string)
    requires Ending(end)
    ensures Extends(Plain(text + end), Plain(text), end)
    ensures Extends(Exported(text + end), Exported(text), end)
  {
    SkipBlanksBefore(text, end);
    var t := SkipBlanks(text);
    NamedBefore(t, end);
    ExportsBefore(t, end);
    if Exports(t) {
      assert (t + end)[6..] == t[6..] + end;
      SkipBlanksBefore(t[6..], end);
      NamedBefore(SkipBlanks(t[6..]), end);
    }
  }

  /** The terminator of a line does not change what it assigns, and only a lone CR hides a bare name. */
  lemma TerminatorsDoNotMatter(text: string, end: string)
    requires '\n' !in text && '\r' !in text && Ending(end)
    ensures Assigned(text + end) == Assigned(text)
    ensures end != "\r" ==> Defined(text + end) == Defined(text)
    ensures Assigned(text).Some? ==> Defined(text + end) == Assigned(text)
  {
    NamingsBefore(text, end);
    if Exported(text).Some? {
      EndingsOfRest(Exported(text).value.rest, end);
      ExportAssigned(text);
    }
    if Plain(text).Some? { EndingsOfRest(Plain(text).value.rest, end); }
  }

  lemma EndingsOfRest(rest: string, end: string)
    requires '\n' !in rest && '\r' !in rest && Ending(end)
    ensures rest != "" ==> (rest + end)[0] == rest[0]
    ensures rest == "" ==> rest + end == end
    ensures rest + end in {"", "\n", "\r\n"} <==> rest == "" && end != "\r"
  {
    if rest != "" { assert rest[0] in rest; }
  }

  // ---------- the rebuilt text ----------

  predicate Fixed(line: string, names: set<string>) {
    Defined(line).Some? && Defined(line).value in names
  }

  /** The lines that define no fixed name, terminators kept. */
  function Retained(lines: Lines, names: set<string>): Lines {
    if lines == [] then []
    else (if Fixed(lines[0], names) then [] else [lines[0]]) + Retained(lines[1..], names)
  }

  function Definitions(lines: Lines, name: string): nat {
    if lines == [] then 0
    else (if Defined(lines[0]) == Some(name) then 1 else 0) + Definitions(lines[1..], name)
  }

  function Assignments(contents: Lines, name: string): nat {
    if contents == [] then 0
    else (if Assigned(contents[0]) == Some(name) then 1 else 0) + Assignments(contents[1..], name)
  }

  /** The last line gets a terminator if it lacks one. */
  function Closed(lines: Lines): Lines {
    if lines == [] || Terminated(lines[|lines| - 1]) then lines
    else lines[..|lines| - 1] + [lines[|lines| - 1] + "\n"]
  }

  function Ended(contents: Lines): (lines: Lines)
    ensures |lines| == |contents| && forall i :: 0 <= i < |lines| ==> lines[i] == contents[i] + "\n"
  {
    seq(|contents|, i requires 0 <= i < |contents| => contents[i] + "\n")
  }

  function ResultLines(source: string, replacements: Lines, names: set<string>): Lines {
    Closed(Retained(SplitKeep(source), names)) + Ended(replacements)
  }

  function ResultText(source: string, replacements: Lines, names: set<string>): string {
    Join(ResultLines(source, replacements, names))
  }

  predicate NoBreaks(line: string) { '\n' !in line && '\r' !in line }

  /** Assignments on one line each, of pairwise different names: exactly the fixed ones. */
  ghost predicate Replaces(replacements: Lines, names: set<string>) {
    && names != {}
    && (forall i :: 0 <= i < |replacements| ==>
          NoBreaks(replacements[i]) && Assigned(replacements[i]).Some? && Assigned(replacements[i]).value in names)
    && (forall i, j :: 0 <= i < j < |replacements| ==> Assigned(replacements[i]) != Assigned(replacements[j]))
    && (forall name :: name in names ==> exists i :: 0 <= i < |replacements| && Assigned(replacements[i]) == Some(name))
  }

  /** No fixed name is defined more than once. */
  predicate Rebuildable(source: string, names: set<string>) {
    forall name :: name in names ==> Definitions(SplitKeep(source), name) <= 1
  }

  lemma {:induction false} DefinitionsAreLines(lines: Lines, name: string)
    ensures Definitions(lines, name) >= 1 <==> exists i :: 0 <= i < |lines| && Defined(lines[i]) == Some(name)
    ensures Definitions(lines, name) <= 1 <==>
              forall i, j :: 0 <= i < j < |lines| ==> !(Defined(lines[i]) == Defined(lines[j]) == Some(name))
  {
    if lines != [] {
      var (first, rest) := (lines[0], lines[1..]);
      DefinitionsAreLines(rest, name);
      assert forall i :: 0 <= i < |rest| ==> rest[i] == lines[i + 1];
      if Definitions(rest, name) >= 1 {
        var i :| 0 <= i < |rest| && Defined(rest[i]) == Some(name);
        assert Defined(lines[i + 1]) == Some(name);
        if Defined(first) == Some(name) { assert Defined(lines[0]) == Defined(lines[i + 1]) == Some(name); }
      }
      if Definitions(rest, name) > 1 {
        var i, j :| 0 <= i < j < |rest| && Defined(rest[i]) == Defined(rest[j]) == Some(name);
        assert Defined(lines[i + 1]) == Defined(lines[j + 1]) == Some(name);
      }
    }
  }

  /** A source is refused exactly when two of its lines define the same fixed name. */
  lemma RepeatIsRefused(source: string, names: set<string>)
    ensures var lines := SplitKeep(source);
            Rebuildable(source, names) <==>
              forall i, j :: 0 <= i < j < |lines| && Fixed(lines[i], names) ==> Defined(lines[i]) != Defined(lines[j])
  {
    var lines := SplitKeep(source);
    forall name ensures Definitions(lines, name) <= 1 <==>
                          forall i, j :: 0 <= i < j < |lines| ==> !(Defined(lines[i]) == Defined(lines[j]) == Some(name))
    {
      DefinitionsAreLines(lines, name);
    }
    if Rebuildable(source, names) {
      forall i, j | 0 <= i < j < |lines| && Fixed(lines[i], names) ensures Defined(lines[i]) != Defined(lines[j]) {
        var name := Defined(lines[i]).value;
        assert Definitions(lines, name) <= 1;
      }
    }
  }

  predicate Unfixed(lines: Lines, names: set<string>) {
    forall i :: 0 <= i < |lines| ==> !Fixed(lines[i], names)
  }

  function EndOf(line: string): string { line[|Content(line)|..] }

  lemma {:induction false} NoBreakIsOneLine(text: string)
    requires NoBreaks(text)
    ensures LineLength(text) == |text|
    ensures LineLength(text + "\n") == |text| + 1
    ensures text != "" ==> IsLine(text) && !Terminated(text) && Content(text) == text
    ensures IsLine(text + "\n") && Content(text + "\n") == text
  {
    if text != "" {
      assert text[0] in text && text[|text| - 1] in text;
      assert (text + "\n")[1..] == text[1..] + "\n";
      NoBreakIsOneLine(text[1..]);
    } else {
      assert text + "\n" == "\n";
    }
  }

  lemma {:induction false} BreaksAreLast(line: string)
    requires IsLine(line)
    ensures forall i :: 0 <= i < |line| && line[i] == '\n' ==> i == |line| - 1
    ensures forall i :: 0 <= i < |line| && line[i] == '\r' ==>
              i == |line| - 1 || (i == |line| - 2 && line[|line| - 1] == '\n')
  {
    if line[0] != '\n' && line[0] != '\r' && |line| > 1 {
      BreaksAreLast(line[1..]);
      var rest := line[1..];
      forall i | 0 <= i < |line| && line[i] == '\r'
        ensures i == |line| - 1 || (i == |line| - 2 && line[|line| - 1] == '\n')
      {
        assert rest[i - 1] == '\r' && rest[|rest| - 1] == line[|line| - 1];
      }
      assert forall i :: 0 < i < |line| ==> line[i] == rest[i - 1];
    }
  }

  lemma LineParts(line: string)
    requires IsLine(line)
    ensures line == Content(line) + EndOf(line) && Ending(EndOf(line)) && NoBreaks(Content(line))
    ensures Terminated(line) <==> EndOf(line) != ""
  {
    BreaksAreLast(line);
    var n := |line|;
    var last := line[n - 1];
    if last == '\n' && n > 1 && line[n - 2] == '\r' {
      assert EndOf(line) == [line[n - 2], last];
      assert line == line[..n - 2] + [line[n - 2], last];
    } else if last == '\n' || last == '\r' {
      assert EndOf(line) == [last] && line == line[..n - 1] + [last];
    } else {
      assert Content(line) == line && EndOf(line) == "";
    }
  }

  lemma {:induction false} RetainedIsWhole(lines: Lines, names: set<string>)
    requires Whole(lines)
    ensures Whole(Retained(lines, names)) && Unfixed(Retained(lines, names), names)
    ensures |Retained(lines, names)| <= |lines|
  {
    if lines != [] {
      WholeTail(lines);
      RetainedIsWhole(lines[1..], names);
      if !Fixed(lines[0], names) { AddHead(lines[0], Retained(lines[1..], names), names); }
    }
  }

  lemma AddHead(head: string, rest: Lines, names: set<string>)
    requires IsLine(head) && Whole(rest) && (rest != [] ==> Terminated(head))
    requires !Fixed(head, names) && Unfixed(rest, names)
    ensures Whole([head] + rest) && Unfixed([head] + rest, names)
  {
  }

  lemma {:induction false} RetainedAreLines(lines: Lines, names: set<string>, i: nat)
    requires i < |Retained(lines, names)|
    ensures exists k :: 0 <= k < |lines| && lines[k] == Retained(lines, names)[i]
  {
    var rest := lines[1..];
    if Fixed(lines[0], names) || i > 0 {
      var j: nat := if Fixed(lines[0], names) then i else i - 1;
      RetainedAreLines(rest, names, j);
      var k :| 0 <= k < |rest| && rest[k] == Retained(rest, names)[j];
      assert lines[k + 1] == rest[k];
    }
  }

  lemma ClosedLast(line: string)
    requires IsLine(line) && !Terminated(line)
    ensures IsLine(line + "\n") && Terminated(line + "\n") && line + "\n" != "\n" && line != "\n"
    ensures Content(line + "\n") == Content(line) && Defined(line + "\n") == Defined(line)
  {
    LineParts(line);
    assert line == Content(line);
    NoBreakIsOneLine(line);
    TerminatorsDoNotMatter(line, "\n");
    assert line + "" == line;
  }

  /** Closing changes nothing but the last terminator. */
  lemma ClosedIsWhole(lines: Lines)
    requires Whole(lines)
    ensures |Closed(lines)| == |lines| && Whole(Closed(lines))
    ensures forall i :: 0 <= i < |lines| ==> ClosedAt(lines[i], Closed(lines)[i])
    ensures forall i :: 0 <= i < |lines| - 1 ==> Closed(lines)[i] == lines[i]
  {
    var n, closed := |lines|, Closed(lines);
    if n > 0 && !Terminated(lines[n - 1]) {
      ClosedLast(lines[n - 1]);
      assert closed[n - 1] == lines[n - 1] + "\n";
      assert forall i :: 0 <= i < n - 1 ==> closed[i] == lines[i];
    }
    forall i | 0 <= i < n ensures IsLine(closed[i]) && ClosedAt(lines[i], closed[i]) {
      if i == n - 1 { assert ClosedAt(lines[n - 1], closed[n - 1]); } else { assert closed[i] == lines[i]; }
    }
  }

  predicate ClosedAt(line: string, closed: string) {
    && Terminated(closed) && Content(closed) == Content(line) && Defined(closed) == Defined(line)
    && (closed == "\n" <==> line == "\n")
  }

  lemma {:induction false} JoinAppends(a: Lines, b: Lines)
    ensures Join(a + b) == Join(a) + Join(b)
  {
    if a == [] {
      assert a + b == b;
    } else {
      assert (a + b)[1..] == a[1..] + b;
      JoinAppends(a[1..], b);
    }
  }

  lemma MergeStep(lines: Lines)
    requires lines != [] && (|lines| < 2 || !Clashes(lines[0], lines[1]))
    ensures Merge(lines) == [lines[0]] + Merge(lines[1..])
  {
  }

  lemma {:induction false} MergeAppends(a: Lines, b: Lines)
    requires forall i :: 0 <= i < |b| ==> b[i] != "\n"
    ensures Merge(a + b) == Merge(a) + b
    decreases |a|
  {
    if a == [] {
      assert a + b == b;
      MergeKeeps(b);
    } else if |a| >= 2 && Clashes(a[0], a[1]) {
      assert (a + b)[2..] == a[2..] + b;
      MergeAppends(a[2..], b);
    } else {
      assert (a + b)[1..] == a[1..] + b;
      MergeAppends(a[1..], b);
      MergeStep(a + b);
      MergeStep(a);
    }
  }

  function LineAssignments(lines: Lines, name: string): nat {
    if lines == [] then 0
    else (if Assigned(Content(lines[0])) == Some(name) then 1 else 0) + LineAssignments(lines[1..], name)
  }

  lemma {:induction false} AssignmentsOfContents(lines: Lines, name: string)
    ensures Assignments(Contents(lines), name) == LineAssignments(lines, name)
  {
    if lines != [] {
      assert Contents(lines)[1..] == Contents(lines[1..]);
      AssignmentsOfContents(lines[1..], name);
    }
  }

  /** Merging pairs changes no assignment: what is lost is an empty line. */
  lemma {:induction false} MergeKeepsAssignments(lines: Lines, name: string)
    ensures LineAssignments(Merge(lines), name) == LineAssignments(lines, name)
    decreases |lines|
  {
    if |lines| >= 2 {
      var first, merged := lines[0], Merge(lines);
      if Clashes(first, lines[1]) {
        MergeKeepsAssignments(lines[2..], name);
        assert lines[1..][1..] == lines[2..] && merged[1..] == Merge(lines[2..]);
        assert Content("\n") == "" && Assigned("") == None;
        assert Content(first + "\n") == Content(first);
      } else {
        MergeKeepsAssignments(lines[1..], name);
        assert merged[1..] == Merge(lines[1..]);
      }
    }
  }

  lemma {:induction false} AssignmentsAppend(a: Lines, b: Lines, name: string)
    ensures Assignments(a + b, name) == Assignments(a, name) + Assignments(b, name)
  {
    if a == [] {
      assert a + b == b;
    } else {
      assert (a + b)[1..] == a[1..] + b;
      AssignmentsAppend(a[1..], b, name);
    }
  }

  lemma {:induction false} DefinitionsAppend(a: Lines, b: Lines, name: string)
    ensures Definitions(a + b, name) == Definitions(a, name) + Definitions(b, name)
  {
    if a == [] {
      assert a + b == b;
    } else {
      assert (a + b)[1..] == a[1..] + b;
      DefinitionsAppend(a[1..], b, name);
    }
  }

  lemma {:induction false} RetainedAppends(a: Lines, b: Lines, names: set<string>)
    ensures Retained(a + b, names) == Retained(a, names) + Retained(b, names)
  {
    if a == [] {
      assert a + b == b;
    } else {
      assert (a + b)[1..] == a[1..] + b;
      RetainedAppends(a[1..], b, names);
    }
  }

  /** Lines that define no fixed name assign none, and removal keeps them all. */
  lemma {:induction false} UnfixedStay(lines: Lines, names: set<string>, name: string)
    requires Unfixed(lines, names) && name in names
    ensures Retained(lines, names) == lines
    ensures Definitions(lines, name) == 0
  {
    if lines != [] {
      UnfixedTail(lines, names);
      UnfixedStay(lines[1..], names, name);
    }
  }

  lemma UnfixedTail(lines: Lines, names: set<string>)
    requires Unfixed(lines, names) && lines != []
    ensures Unfixed(lines[1..], names) && !Fixed(lines[0], names)
  {
  }

  lemma {:induction false} UnfixedAssignNothing(lines: Lines, names: set<string>, name: string)
    requires Unfixed(lines, names) && name in names && forall i :: 0 <= i < |lines| ==> IsLine(lines[i])
    ensures LineAssignments(lines, name) == 0
  {
    if lines != [] {
      UnfixedTail(lines, names);
      UnfixedAssignNothing(lines[1..], names, name);
      LineParts(lines[0]);
      TerminatorsDoNotMatter(Content(lines[0]), EndOf(lines[0]));
    }
  }

  lemma {:induction false} FixedAreCounted(lines: Lines, names: set<string>, i: nat)
    requires i < |lines| && Fixed(lines[i], names)
    ensures Definitions(lines, Defined(lines[i]).value) >= 1
  {
    if i > 0 { FixedAreCounted(lines[1..], names, i - 1); }
  }

  /** The replacements assign, and define, each fixed name once, and removal takes them all. */
  lemma {:induction false} ReplacementsCount(replacements: Lines, name: string)
    requires forall i :: 0 <= i < |replacements| ==> NoBreaks(replacements[i]) && Assigned(replacements[i]).Some?
    requires forall i, j :: 0 <= i < j < |replacements| ==> Assigned(replacements[i]) != Assigned(replacements[j])
    ensures Assignments(replacements, name) == Definitions(Ended(replacements), name)
            == if exists i :: 0 <= i < |replacements| && Assigned(replacements[i]) == Some(name) then 1 else 0
  {
    if replacements != [] {
      var rest := replacements[1..];
      assert forall i :: 0 <= i < |rest| ==> rest[i] == replacements[i + 1];
      ReplacementsCount(rest, name);
      TerminatorsDoNotMatter(replacements[0], "\n");
      assert Ended(replacements)[1..] == Ended(rest);
      if i :| 0 <= i < |replacements| && Assigned(replacements[i]) == Some(name) {
        if i > 0 { assert Assigned(rest[i - 1]) == Some(name); }
      }
    }
  }

  lemma {:induction false} ReplacementsLeave(replacements: Lines, names: set<string>)
    requires forall i :: 0 <= i < |replacements| ==>
               NoBreaks(replacements[i]) && Assigned(replacements[i]).Some? && Assigned(replacements[i]).value in names
    ensures Retained(Ended(replacements), names) == []
  {
    if replacements != [] {
      TerminatorsDoNotMatter(replacements[0], "\n");
      assert Ended(replacements)[1..] == Ended(replacements[1..]);
      ReplacementsLeave(replacements[1..], names);
    }
  }

  // ---------- what a rebuild guarantees ----------

  /** The kept lines, once terminated. */
  lemma KeptShape(source: string, names: set<string>)
    ensures var kept := Retained(SplitKeep(source), names);
            && Whole(kept) && Whole(Closed(kept)) && Unfixed(Closed(kept), names)
            && forall i :: 0 <= i < |Closed(kept)| ==> Terminated(Closed(kept)[i])
  {
    var kept := Retained(SplitKeep(source), names);
    SplitIsWhole(source);
    RetainedIsWhole(SplitKeep(source), names);
    ClosedIsWhole(kept);
    forall i | 0 <= i < |kept| ensures !Fixed(Closed(kept)[i], names) && Terminated(Closed(kept)[i]) {
      assert ClosedAt(kept[i], Closed(kept)[i]);
    }
  }

  lemma EndedIsWhole(replacements: Lines)
    requires forall i :: 0 <= i < |replacements| ==> NoBreaks(replacements[i]) && replacements[i] != ""
    ensures Whole(Ended(replacements))
    ensures forall i :: 0 <= i < |replacements| ==> Ended(replacements)[i] != "\n"
  {
    forall i | 0 <= i < |replacements|
      ensures IsLine(Ended(replacements)[i]) && Terminated(Ended(replacements)[i]) && Ended(replacements)[i] != "\n"
    {
      NoBreakIsOneLine(replacements[i]);
    }
  }

  /** The parts of a result: whole terminated lines, of which only the replacements are fixed. */
  lemma ResultShape(source: string, replacements: Lines, names: set<string>)
    requires Replaces(replacements, names)
    ensures var kept := Retained(SplitKeep(source), names);
            && Whole(kept) && Whole(Closed(kept)) && Unfixed(Closed(kept), names)
            && Whole(ResultLines(source, replacements, names))
            && SplitKeep(ResultText(source, replacements, names)) == Merge(Closed(kept)) + Ended(replacements)
  {
    var kept := Retained(SplitKeep(source), names);
    KeptShape(source, names);
    ReplacementsAreLines(replacements, names);
    EndedIsWhole(replacements);
    WholeTogether(Closed(kept), Ended(replacements));
    JoinThenSplit(ResultLines(source, replacements, names));
    MergeAppends(Closed(kept), Ended(replacements));
  }

  lemma ReplacementsAreLines(replacements: Lines, names: set<string>)
    requires Replaces(replacements, names)
    ensures forall i :: 0 <= i < |replacements| ==> NoBreaks(replacements[i]) && replacements[i] != ""
  {
  }

  lemma WholeTogether(a: Lines, b: Lines)
    requires Whole(a) && Whole(b) && forall i :: 0 <= i < |a| ==> Terminated(a[i])
    ensures Whole(a + b)
  {
  }

  /** Whatever the source, each fixed name ends up assigned exactly once. */
  lemma EachNameOnce(source: string, replacements: Lines, names: set<string>, name: string)
    requires Replaces(replacements, names) && name in names
    ensures Assignments(SplitLines(ResultText(source, replacements, names)), name) == 1
  {
    var kept := Closed(Retained(SplitKeep(source), names));
    var split := Merge(kept) + Ended(replacements);
    ResultShape(source, replacements, names);
    AssignmentsOfContents(split, name);
    LineAssignmentsAppend(Merge(kept), Ended(replacements), name);
    MergeKeepsAssignments(kept, name);
    UnfixedAssignNothing(kept, names, name);
    EndedContents(replacements);
    AssignmentsOfContents(Ended(replacements), name);
    ReplacementsCount(replacements, name);
  }

  lemma {:induction false} LineAssignmentsAppend(a: Lines, b: Lines, name: string)
    ensures LineAssignments(a + b, name) == LineAssignments(a, name) + LineAssignments(b, name)
  {
    if a == [] {
      assert a + b == b;
    } else {
      assert (a + b)[1..] == a[1..] + b;
      LineAssignmentsAppend(a[1..], b, name);
    }
  }

  lemma EndedContents(replacements: Lines)
    requires forall i :: 0 <= i < |replacements| ==> NoBreaks(replacements[i])
    ensures Contents(Ended(replacements)) == replacements
  {
    forall i | 0 <= i < |replacements| ensures Contents(Ended(replacements))[i] == replacements[i] {
      NoBreakIsOneLine(replacements[i]);
    }
  }

  /**
     The result reads as the other lines in order followed by the replacements exactly when removal
     leaves no lone CR directly before an empty LF line.
   */
  lemma OtherLinesAreKept(source: string, replacements: Lines, names: set<string>)
    requires Replaces(replacements, names)
    ensures var kept := Retained(SplitKeep(source), names);
            SplitLines(ResultText(source, replacements, names)) == Contents(kept) + replacements
            <==> NoClash(kept)
  {
    var kept := Retained(SplitKeep(source), names);
    ResultShape(source, replacements, names);
    MergeKeeps(Closed(kept));
    ClosedClashes(kept);
    ClosedContents(kept);
    EndedContents(replacements);
    ContentsAppend(Merge(Closed(kept)), Ended(replacements));
  }

  lemma ContentsAppend(a: Lines, b: Lines)
    ensures Contents(a + b) == Contents(a) + Contents(b)
  {
  }

  lemma ClosedContents(lines: Lines)
    requires Whole(lines)
    ensures |Closed(lines)| == |lines| && Contents(Closed(lines)) == Contents(lines)
  {
    ClosedIsWhole(lines);
    assert forall i :: 0 <= i < |lines| ==> ClosedAt(lines[i], Closed(lines)[i]);
  }

  lemma ClosedClashes(lines: Lines)
    requires Whole(lines)
    ensures NoClash(Closed(lines)) <==> NoClash(lines)
    ensures forall i :: 0 <= i < |lines| - 1 ==>
              Closed(lines)[i] == lines[i] && (Clashes(Closed(lines)[i], Closed(lines)[i + 1]) <==> Clashes(lines[i], lines[i + 1]))
  {
    ClosedIsWhole(lines);
    forall i | 0 <= i < |lines| - 1
      ensures Clashes(Closed(lines)[i], Closed(lines)[i + 1]) <==> Clashes(lines[i], lines[i + 1])
    {
      assert ClosedAt(lines[i + 1], Closed(lines)[i + 1]);
    }
  }

  /** A bare fixed name that a lone CR hid, and that the line break after it now completes. */
  predicate Fuses(first: string, second: string, names: set<string>) {
    Clashes(first, second) && Fixed(first + "\n", names)
  }

  predicate NoneFuse(lines: Lines, names: set<string>) {
    forall i :: 0 <= i < |lines| - 1 ==> !Fuses(lines[i], lines[i + 1], names)
  }

  lemma {:induction false} MergedUnfixed(lines: Lines, names: set<string>)
    requires Unfixed(lines, names)
    ensures Unfixed(Merge(lines), names) <==> NoneFuse(lines, names)
    decreases |lines|
  {
    if |lines| >= 2 {
      var rest := lines[1..];
      assert forall i :: 0 <= i < |rest| ==> rest[i] == lines[i + 1];
      if Clashes(lines[0], lines[1]) {
        var far := lines[2..];
        assert forall i :: 0 <= i < |far| ==> far[i] == lines[i + 2];
        MergedUnfixed(far, names);
        UnfixedHead(lines[0] + "\n", Merge(far), names);
        NoneFuseHead(lines, names);
        NoneFuseHead(rest, names);
        assert rest[1..] == far;
      } else {
        MergedUnfixed(rest, names);
        UnfixedHead(lines[0], Merge(rest), names);
        NoneFuseHead(lines, names);
      }
    }
  }

  lemma UnfixedHead(head: string, rest: Lines, names: set<string>)
    ensures Unfixed([head] + rest, names) <==> !Fixed(head, names) && Unfixed(rest, names)
  {
    var all := [head] + rest;
    assert all[0] == head && forall i :: 0 <= i < |rest| ==> all[i + 1] == rest[i];
  }

  lemma NoneFuseHead(lines: Lines, names: set<string>)
    requires lines != []
    ensures NoneFuse(lines, names) <==>
              (|lines| >= 2 ==> !Fuses(lines[0], lines[1], names)) && NoneFuse(lines[1..], names)
  {
    var rest := lines[1..];
    assert forall i :: 0 <= i < |rest| ==> rest[i] == lines[i + 1];
    if (|lines| >= 2 ==> !Fuses(lines[0], lines[1], names)) && NoneFuse(rest, names) {
      forall i | 0 <= i < |lines| - 1 ensures !Fuses(lines[i], lines[i + 1], names) {
        if i > 0 { assert !Fuses(rest[i - 1], rest[i], names); }
      }
    }
  }

  /** Rebuilding the result again succeeds and changes nothing exactly when no two kept lines fuse. */
  lemma RebuildIsIdempotent(source: string, replacements: Lines, names: set<string>)
    requires Replaces(replacements, names)
    ensures var result := ResultText(source, replacements, names);
            (Rebuildable(result, names) && ResultText(result, replacements, names) == result)
            <==> NoneFuse(Retained(SplitKeep(source), names), names)
  {
    var kept := Retained(SplitKeep(source), names);
    var result := ResultText(source, replacements, names);
    var merged := Merge(Closed(kept));
    ResultShape(source, replacements, names);
    MergedUnfixed(Closed(kept), names);
    ClosedFuses(kept, names);
    forall name | name in names
      ensures Definitions(SplitKeep(result), name) == Definitions(merged, name) + 1
    {
      DefinitionsAppend(merged, Ended(replacements), name);
      ReplacementsCount(replacements, name);
    }
    if Unfixed(merged, names) {
      forall name | name in names ensures Definitions(SplitKeep(result), name) <= 1 {
        UnfixedStay(merged, names, name);
      }
      SecondRebuild(result, merged, replacements, names);
    } else {
      var i :| 0 <= i < |merged| && Fixed(merged[i], names);
      FixedAreCounted(merged, names, i);
    }
  }

  lemma ClosedFuses(lines: Lines, names: set<string>)
    requires Whole(lines)
    ensures NoneFuse(Closed(lines), names) <==> NoneFuse(lines, names)
  {
    ClosedClashes(lines);
    ClosedIsWhole(lines);
    forall i | 0 <= i < |lines| - 1
      ensures Fuses(Closed(lines)[i], Closed(lines)[i + 1], names) <==> Fuses(lines[i], lines[i + 1], names)
    {
    }
    assert |Closed(lines)| == |lines|;
  }

  lemma SecondRebuild(result: string, others: Lines, replacements: Lines, names: set<string>)
    requires Replaces(replacements, names) && Unfixed(others, names)
    requires SplitKeep(result) == others + Ended(replacements)
    ensures ResultText(result, replacements, names) == result
  {
    SplitIsWhole(result);
    RetainedAppends(others, Ended(replacements), names);
    ReplacementsLeave(replacements, names);
    var name :| name in names;
    UnfixedStay(others, names, name);
    assert exists i :: 0 <= i < |replacements| && Assigned(replacements[i]) == Some(name);
    AlreadyClosed(others, Ended(replacements));
    assert Retained(SplitKeep(result), names) == others;
  }

  lemma AlreadyClosed(lines: Lines, more: Lines)
    requires Whole(lines + more) && more != []
    ensures Closed(lines) == lines
  {
    if lines != [] { assert (lines + more)[|lines| - 1] == lines[|lines| - 1]; }
  }

  /** In LF or CRLF text every CR is followed by an LF. */
  predicate NoLoneCr(text: string) {
    forall i :: 0 <= i < |text| && text[i] == '\r' ==> i + 1 < |text| && text[i + 1] == '\n'
  }

  lemma {:induction false} NoLoneCrLines(text: string, k: nat)
    requires NoLoneCr(text) && k < |SplitKeep(text)|
    ensures var line := SplitKeep(text)[k]; line != "" && line[|line| - 1] != '\r'
    decreases |text|
  {
    var n := LineLength(text);
    FirstLine(text);
    if k > 0 {
      var rest := text[n..];
      assert forall i :: 0 <= i < |rest| ==> rest[i] == text[n + i];
      assert NoLoneCr(rest) by {
        forall i | 0 <= i < |rest| && rest[i] == '\r' ensures i + 1 < |rest| && rest[i + 1] == '\n' {
          assert text[n + i] == '\r';
        }
      }
      NoLoneCrLines(rest, k - 1);
    } else {
      assert text[..n][n - 1] == text[n - 1];
    }
  }

  /** For LF and CRLF text both hold outright: other lines are kept, and rebuilding is idempotent. */
  lemma OrdinaryTextRebuilds(source: string, replacements: Lines, names: set<string>)
    requires Replaces(replacements, names) && NoLoneCr(source)
    ensures var result := ResultText(source, replacements, names);
            && SplitLines(result) == Contents(Retained(SplitKeep(source), names)) + replacements
            && Rebuildable(result, names) && ResultText(result, replacements, names) == result
  {
    var kept := Retained(SplitKeep(source), names);
    forall i | 0 <= i < |kept| - 1 ensures !Clashes(kept[i], kept[i + 1]) {
      RetainedAreLines(SplitKeep(source), names, i);
      var k :| 0 <= k < |SplitKeep(source)| && SplitKeep(source)[k] == kept[i];
      NoLoneCrLines(source, k);
    }
    OtherLinesAreKept(source, replacements, names);
    RebuildIsIdempotent(source, replacements, names);
  }

  /**
     Old line ends do break it. A lone CR hides a bare name; removing the assignment behind it puts an
     empty line next to the CR, and the next rebuild finds the name defined twice.
   */
  lemma LoneCrBreaksRebuilding(bare: string, assignment: string, name: string)
    requires NoBreaks(bare) && NoBreaks(assignment) && bare != ""
    requires Defined(bare) == Some(name) && Defined(bare + "\r") == None && Assigned(assignment) == Some(name)
    ensures var source := Join([bare + "\r", assignment + "\n", "\n"]);
            && Rebuildable(source, {name})
            && !NoClash(Retained(SplitKeep(source), {name}))
            && !NoneFuse(Retained(SplitKeep(source), {name}), {name})
  {
    var first, second, names := bare + "\r", assignment + "\n", {name};
    CrLine(bare);
    NoBreakIsOneLine(assignment);
    TerminatorsDoNotMatter(assignment, "\n");
    TerminatorsDoNotMatter(bare, "\r\n");
    assert first + "\n" == bare + "\r\n";
    SplitOfThree(first, second);
    RetainedOfThree(first, second, names);
    DefinitionsOfThree(first, second, name);
    var kept := [first, "\n"];
    assert Fuses(kept[0], kept[1], names);
  }

  lemma SplitOfThree(first: string, second: string)
    requires IsLine(first) && Terminated(first) && IsLine(second) && Terminated(second) && second != "\n"
    ensures second[|second| - 1] == '\n' ==> SplitKeep(Join([first, second, "\n"])) == [first, second, "\n"]
  {
    var lines := [first, second, "\n"];
    JoinThenSplit(lines);
    if second[|second| - 1] == '\n' {
      assert NoClash(lines);
      MergeKeeps(lines);
    }
  }

  lemma RetainedOfThree(first: string, second: string, names: set<string>)
    requires !Fixed(first, names) && Fixed(second, names)
    ensures Retained([first, second, "\n"], names) == [first, "\n"]
  {
    var lines := [first, second, "\n"];
    assert Defined("\n") == None;
    assert lines[1..] == [second, "\n"] && [second, "\n"][1..] == ["\n"];
    assert Retained(["\n"], names) == ["\n"];
    assert Retained([second, "\n"], names) == ["\n"];
  }

  lemma DefinitionsOfThree(first: string, second: string, name: string)
    requires Defined(first) == None && Defined(second) == Some(name)
    ensures Definitions([first, second, "\n"], name) == 1
  {
    var lines := [first, second, "\n"];
    assert Defined("\n") == None;
    assert lines[1..] == [second, "\n"] && [second, "\n"][1..] == ["\n"];
    assert Definitions(["\n"], name) == 0;
  }

  lemma {:induction false} CrLine(text: string)
    requires NoBreaks(text)
    ensures IsLine(text + "\r") && LineLength(text + "\r") == |text| + 1
  {
    if text != "" {
      assert text[0] in text && (text + "\r")[1..] == text[1..] + "\r";
      CrLine(text[1..]);
    } else {
      assert text + "\r" == "\r";
    }
  }

  lemma SuchLinesExist()
    ensures Defined("A") == Some("A") && Defined("A" + "\r") == None && Assigned("A=") == Some("A")
  {
    NameCharsOfWord("A", "");
    NameCharsOfWord("A", "\r");
    NameCharsOfWord("A", "=");
    assert "A" + "" == "A" && "A" + "=" == "A=";
    assert "A"[1..] == "" && ("A" + "\r")[1..] == "\r" && "A="[1..] == "=";
    assert "A"[..1] == "A" && "A="[..1] == "A";
    assert Named("A") == Some(Naming("A", ""));
    assert Named("A=") == Some(Naming("A", "="));
  }

  // ---------- the helpers as they run ----------

  /** The override lines, blank ones dropped. */
  function NonEmpty(contents: Lines): Lines {
    if contents == [] then [] else (if contents[0] == "" then [] else [contents[0]]) + NonEmpty(contents[1..])
  }

  /** Exactly the empty lines are dropped, and the others stay in their order. */
  lemma {:induction false} NonEmptyNext(contents: Lines, next: string)
    ensures NonEmpty(contents + [next]) == NonEmpty(contents) + if next == "" then [] else [next]
  {
    if contents == [] {
      assert contents + [next] == [next] && [next][1..] == [];
    } else {
      assert (contents + [next])[1..] == contents[1..] + [next];
      NonEmptyNext(contents[1..], next);
    }
  }

  /** The name each line assigns, if any. */
  function NamesFound(lines: Lines): (found: seq<Option<string>>)
    ensures |found| == |lines| && forall i :: 0 <= i < |lines| ==> found[i] == Assigned(lines[i])
  {
    seq(|lines|, i requires 0 <= i < |lines| => Assigned(lines[i]))
  }

  predicate AllDistinct(found: seq<Option<string>>) {
    && (forall i :: 0 <= i < |found| ==> found[i].Some?)
    && (forall i, j :: 0 <= i < j < |found| ==> found[i] != found[j])
  }

  function Values(found: seq<Option<string>>): set<string> {
    set name | name in found && name.Some? :: name.value
  }

  /** Usable overrides: at least one line, every one an assignment, no name twice. */
  predicate Overrides(lines: Lines) {
    lines != [] && AllDistinct(NamesFound(lines))
  }

  function FixedNames(lines: Lines): set<string> { Values(NamesFound(lines)) }

  lemma OverridesReplace(lines: Lines)
    requires Overrides(lines) && forall i :: 0 <= i < |lines| ==> NoBreaks(lines[i])
    ensures Replaces(lines, FixedNames(lines))
  {
    var found := NamesFound(lines);
    assert forall i :: 0 <= i < |lines| ==> found[i] in found;
    assert found[0].value in Values(found);
    forall name | name in Values(found) ensures exists i :: 0 <= i < |lines| && Assigned(lines[i]) == Some(name) {
      var i :| 0 <= i < |found| && found[i] == Some(name);
    }
  }

  method EnvironmentOverrides(overrides: string) returns (r: Result<(Lines, set<string>), string>)
    ensures var lines := NonEmpty(SplitLines(overrides));
            if Overrides(lines) then r == Ok((lines, FixedNames(lines))) else r.Err?
  {
    var lines := NonEmpty(SplitLines(overrides));
    var names := NamesOf(lines);
    if names.Err? { return Err(names.error); }
    return Ok((lines, names.value));
  }

  /** The names of usable overrides. */
  method NamesOf(lines: Lines) returns (r: Result<set<string>, string>)
    ensures if Overrides(lines) then r == Ok(FixedNames(lines)) else r.Err?
  {
    ghost var found := NamesFound(lines);
    var names: set<string> := {};
    for i := 0 to |lines|
      invariant names == Values(found[..i]) && AllDistinct(found[..i]) && (i > 0 ==> names != {})
    {
      NextName(found, i);
      var name := Assigned(lines[i]);
      if name.None? { return Err("malformed"); }
      if name.value in names { return Err("duplicated"); }
      names := names + {name.value};
    }
    assert found[..|lines|] == found;
    if names == {} { return Err("empty"); }
    return Ok(names);
  }

  lemma NextName(found: seq<Option<string>>, i: nat)
    requires i < |found| && AllDistinct(found[..i])
    ensures found[i].Some? ==> Values(found[..i + 1]) == Values(found[..i]) + {found[i].value}
    ensures AllDistinct(found[..i + 1]) <==> found[i].Some? && found[i].value !in Values(found[..i])
    ensures AllDistinct(found) ==> AllDistinct(found[..i + 1])
  {
    var before := found[..i];
    assert found[..i + 1] == before + [found[i]];
    if found[i].Some? {
      assert found[i].value in Values(before) <==> found[i] in before;
    }
  }

  lemma OverridesAreOneLine(overrides: string)
    ensures forall i :: 0 <= i < |NonEmpty(SplitLines(overrides))| ==> NoBreaks(NonEmpty(SplitLines(overrides))[i])
  {
    SplitIsWhole(overrides);
    var split := SplitKeep(overrides);
    forall i | 0 <= i < |split| ensures NoBreaks(SplitLines(overrides)[i]) { LineParts(split[i]); }
    NonEmptyKeeps(SplitLines(overrides));
  }

  lemma {:induction false} NonEmptyKeeps(contents: Lines)
    requires forall i :: 0 <= i < |contents| ==> NoBreaks(contents[i])
    ensures forall i :: 0 <= i < |NonEmpty(contents)| ==> NoBreaks(NonEmpty(contents)[i])
  {
    if contents != [] { NonEmptyKeeps(contents[1..]); }
  }

  method RemoveEnvironmentOverrides(source: string, names: set<string>) returns (r: Result<string, string>)
    ensures r.Ok? <==> Rebuildable(source, names)
    ensures r.Ok? ==> r.value == Join(Retained(SplitKeep(source), names))
  {
    var lines := SplitKeep(source);
    var retained: Lines := [];
    var counts := map name | name in names :: 0;
    for i := 0 to |lines|
      invariant retained == Retained(lines[..i], names)
      invariant counts.Keys == names
      invariant forall name :: name in names ==> counts[name] == Definitions(lines[..i], name)
    {
      assert lines[..i + 1] == lines[..i] + [lines[i]];
      RetainedAppends(lines[..i], [lines[i]], names);
      var defined := Defined(lines[i]);
      forall name
        ensures Definitions(lines[..i + 1], name) == Definitions(lines[..i], name) + if defined == Some(name) then 1 else 0
      {
        DefinitionsAppend(lines[..i], [lines[i]], name);
      }
      if defined.Some? && defined.value in counts {
        counts := counts[defined.value := counts[defined.value] + 1];
      } else {
        retained := retained + [lines[i]];
      }
    }
    assert lines[..|lines|] == lines;
    if exists name :: name in names && counts[name] > 1 { return Err("duplicate fixed definitions"); }
    return Ok(Join(retained));
  }

  /** The final check of a finished text. */
  method AssertUniqueEnvironment(result: string, names: set<string>) returns (unique: bool)
    ensures unique <==> forall name :: name in names ==> Assignments(SplitLines(result), name) == 1
  {
    var contents := SplitLines(result);
    var counts := map name | name in names :: 0;
    for i := 0 to |contents|
      invariant counts.Keys == names
      invariant forall name :: name in names ==> counts[name] == Assignments(contents[..i], name)
    {
      assert contents[..i + 1] == contents[..i] + [contents[i]];
      var name := Assigned(contents[i]);
      forall other
        ensures Assignments(contents[..i + 1], other) == Assignments(contents[..i], other) + if name == Some(other) then 1 else 0
      {
        AssignmentsAppend(contents[..i], [contents[i]], other);
      }
      if name.Some? && name.value in counts {
        counts := counts[name.value := counts[name.value] + 1];
      }
    }
    assert contents[..|contents|] == contents;
    unique := forall name :: name in names ==> counts[name] == 1;
  }

  /** A rebuild fails only for malformed overrides or a doubly defined name, never in its final check. */
  method RebuildEnvironment(source: string, overrides: string) returns (r: Result<string, string>)
    ensures var lines := NonEmpty(SplitLines(overrides));
            r.Ok? <==> Overrides(lines) && Rebuildable(source, FixedNames(lines))
    ensures var lines := NonEmpty(SplitLines(overrides));
            r.Ok? ==> r.value == ResultText(source, lines, FixedNames(lines))
    ensures r.Ok? ==> forall name :: name in FixedNames(NonEmpty(SplitLines(overrides)))
                                     ==> Assignments(SplitLines(r.value), name) == 1
  {
    var read := EnvironmentOverrides(overrides);
    if read.Err? { return Err(read.error); }
    var (lines, names) := read.value;
    var removed := RemoveEnvironmentOverrides(source, names);
    if removed.Err? { return Err(removed.error); }
    var rebuilt := ClosedText(removed.value) + Join(Ended(lines));
    ClosingText(source, lines, names);
    RebuiltIsUnique(source, overrides);
    var unique := AssertUniqueEnvironment(rebuilt, names);
    if !unique { return Err("ambiguous"); }
    return Ok(rebuilt);
  }

  /** The overrides of an accepted rebuild replace their names, each assigned once in the result. */
  lemma RebuiltIsUnique(source: string, overrides: string)
    ensures var lines := NonEmpty(SplitLines(overrides));
            Overrides(lines) ==>
              && Replaces(lines, FixedNames(lines))
              && forall name :: name in FixedNames(lines) ==>
                   Assignments(SplitLines(ResultText(source, lines, FixedNames(lines))), name) == 1
  {
    var lines := NonEmpty(SplitLines(overrides));
    if Overrides(lines) {
      OverridesAreOneLine(overrides);
      OverridesReplace(lines);
      forall name | name in FixedNames(lines)
        ensures Assignments(SplitLines(ResultText(source, lines, FixedNames(lines))), name) == 1
      {
        EachNameOnce(source, lines, FixedNames(lines), name);
      }
    }
  }

  /** A text with its last line terminated. */
  function ClosedText(text: string): string {
    if text != "" && text[|text| - 1] !in {'\n', '\r'} then text + "\n" else text
  }

  /** Terminating the joined text is joining the closed lines. */
  lemma ClosingLines(kept: Lines)
    requires Whole(kept)
    ensures ClosedText(Join(kept)) == Join(Closed(kept))
  {
    if kept != [] {
      var n := |kept|;
      var (init, last) := (kept[..n - 1], kept[n - 1]);
      assert kept == init + [last] && IsLine(last);
      JoinLast(init, last);
      JoinLast(init, last + "\n");
      LastEnds(Join(init), last);
    }
  }

  /** A text ends as its last line does. */
  lemma LastEnds(before: string, last: string)
    requires IsLine(last)
    ensures ClosedText(before + last) == if Terminated(last) then before + last else before + (last + "\n")
  {
    assert (before + last)[|before + last| - 1] == last[|last| - 1];
    assert before + last + "\n" == before + (last + "\n");
  }

  lemma ClosingText(source: string, replacements: Lines, names: set<string>)
    ensures var text := Join(Retained(SplitKeep(source), names));
            ClosedText(text) + Join(Ended(replacements)) == ResultText(source, replacements, names)
  {
    var kept := Retained(SplitKeep(source), names);
    SplitIsWhole(source);
    RetainedIsWhole(SplitKeep(source), names);
    ClosingLines(kept);
    JoinAppends(Closed(kept), Ended(replacements));
  }

  lemma JoinLast(lines: Lines, last: string)
    ensures Join(lines + [last]) == Join(lines) + last
  {
    JoinAppends(lines, [last]);
    assert Join([last]) == last + Join([last][1..]);
  }
}
