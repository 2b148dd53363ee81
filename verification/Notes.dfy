/** The notes of a Google task: a body, and below a separator line one line per checklist entry.
    Strings are sequences of characters; a string that is not valid UTF-8 is not part of this model. */
module Notes {
  import opened Common
  import opened Text

  datatype Check = Check(text: string, done: bool)

  const SEPARATOR := "---"

  // ---------------------------------------------------------------- characters and words

  /** What the pattern of a check line takes for white space. */
  predicate IsPatternSpace(c: char) {
    var n := c as int;
    n == 9 || n == 10 || n == 12 || n == 13 || n == 32
  }

  predicate Blank(s: string) {
    forall i :: 0 <= i < |s| ==> IsSpace(s[i])
  }

  function TrimEnd(s: string, cut: string): (r: string)
    ensures r <= s && (r == "" || r[|r| - 1] !in cut)
  {
    if s == "" || s[|s| - 1] !in cut then s else TrimEnd(s[..|s| - 1], cut)
  }

  function Word(s: string): (r: string)
    ensures r <= s && (forall i :: 0 <= i < |r| ==> !IsSpace(r[i])) && (s != "" && !IsSpace(s[0]) ==> r != "")
    ensures |r| < |s| ==> IsSpace(s[|r|])
  {
    if s == "" || IsSpace(s[0]) then "" else [s[0]] + Word(s[1..])
  }

  function Fields(s: string): seq<string>
    decreases |s|
  {
    if s == "" then []
    else if IsSpace(s[0]) then Fields(s[1..])
    else [Word(s)] + Fields(s[|Word(s)|..])
  }

  function Join(xs: seq<string>, glue: string): string {
    if xs == [] then "" else if |xs| == 1 then xs[0] else xs[0] + glue + Join(xs[1..], glue)
  }

  /** The words of a text with one blank between them. */
  function Collapse(s: string): string {
    Join(Fields(s), " ")
  }

  ghost predicate IsWord(w: string) {
    w != "" && forall i :: 0 <= i < |w| ==> !IsSpace(w[i])
  }

  /** No white space but single blanks inside. */
  ghost predicate Tidy(s: string) {
    && (forall i :: 0 <= i < |s| ==> !IsSpace(s[i]) || s[i] == ' ')
    && (s != "" ==> !IsSpace(s[0]) && !IsSpace(s[|s| - 1]))
  }

  lemma {:induction false} FieldsAreWords(s: string)
    ensures forall i :: 0 <= i < |Fields(s)| ==> IsWord(Fields(s)[i])
    ensures Fields(s) == [] <==> Blank(s)
    decreases |s|
  {
    if s != "" {
      if IsSpace(s[0]) {
        FieldsAreWords(s[1..]);
        assert s == [s[0]] + s[1..];
      } else {
        FieldsAreWords(s[|Word(s)|..]);
      }
    }
  }

  lemma {:induction false} WordsJoinTidy(xs: seq<string>)
    requires forall i :: 0 <= i < |xs| ==> IsWord(xs[i])
    ensures Tidy(Join(xs, " ")) && (Join(xs, " ") == "" <==> xs == [])
  {
    if |xs| > 1 {
      WordsJoinTidy(xs[1..]);
      assert IsWord(xs[0]);
    } else if |xs| == 1 {
      assert IsWord(xs[0]);
    }
  }

  lemma {:induction false} CollapseTidy(s: string)
    ensures Tidy(Collapse(s)) && (Collapse(s) == "" <==> Blank(s))
  {
    FieldsAreWords(s);
    WordsJoinTidy(Fields(s));
  }

  lemma {:induction false} WordFirst(w: string, rest: string)
    requires (forall i :: 0 <= i < |w| ==> !IsSpace(w[i])) && (rest == "" || IsSpace(rest[0]))
    ensures Word(w + rest) == w
  {
    if w == "" {
      assert w + rest == rest;
    } else {
      assert (w + rest)[1..] == w[1..] + rest;
      WordFirst(w[1..], rest);
    }
  }

  /** A word at the front is the first field. */
  lemma {:induction false} FieldsFirst(w: string, rest: string)
    requires IsWord(w) && (rest == "" || IsSpace(rest[0]))
    ensures Fields(w + rest) == [w] + Fields(rest)
  {
    WordFirst(w, rest);
    assert (w + rest)[0] == w[0] && (w + rest)[|w|..] == rest;
  }

  lemma {:induction false} FieldsOfJoin(xs: seq<string>)
    requires forall i :: 0 <= i < |xs| ==> IsWord(xs[i])
    ensures Fields(Join(xs, " ")) == xs
  {
    if |xs| == 1 {
      FieldsFirst(xs[0], "");
      assert xs[0] + "" == xs[0] && Fields("") == [];
    } else if xs != [] {
      var rest := Join(xs[1..], " ");
      FieldsOfJoin(xs[1..]);
      FieldsFirst(xs[0], " " + rest);
      assert xs[0] + " " + rest == xs[0] + (" " + rest);
      assert (" " + rest)[1..] == rest;
    }
  }

  /** Collapsing keeps every word, in order, and doing it again changes nothing. */
  lemma {:induction false} CollapseKeepsWords(s: string)
    ensures Fields(Collapse(s)) == Fields(s) && Collapse(Collapse(s)) == Collapse(s)
  {
    FieldsAreWords(s);
    FieldsOfJoin(Fields(s));
  }

  // ---------------------------------------------------------------- lines

  /** Line ends made uniform. */
  function Normal(s: string): string {
    if s == "" then ""
    else if |s| >= 2 && s[0] == '\r' && s[1] == '\n' then "\n" + Normal(s[2..])
    else [s[0]] + Normal(s[1..])
  }

  function Lines(s: string): (r: seq<string>)
    ensures |r| > 0
  {
    if s == "" then [""]
    else
      var rest := Lines(s[1..]);
      if s[0] == '\n' then [""] + rest else [[s[0]] + rest[0]] + rest[1..]
  }

  lemma {:induction false} NormalCRLF(s: string)
    requires |s| >= 2 && s[0] == '\r' && s[1] == '\n'
    ensures Normal(s) == "\n" + Normal(s[2..])
  {
  }

  lemma {:induction false} NormalOther(s: string)
    requires |s| >= 1 && !(|s| >= 2 && s[0] == '\r' && s[1] == '\n')
    ensures Normal(s) == [s[0]] + Normal(s[1..])
  {
  }

  /** The two may be put together without a line end forming where they meet. */
  predicate Apart(a: string, b: string) {
    a == "" || a[|a| - 1] != '\r' || b == "" || b[0] != '\n'
  }

  lemma {:induction false} DropFront(a: string, b: string, n: nat)
    requires n <= |a| && Apart(a, b)
    ensures (a + b)[n..] == a[n..] + b && Apart(a[n..], b)
  {
  }

  lemma {:induction false} NormalOfSum(a: string, b: string)
    requires Apart(a, b)
    ensures Normal(a + b) == Normal(a) + Normal(b)
    decreases |a|
  {
    if a == "" {
      assert a + b == b;
    } else if |a| >= 2 && a[0] == '\r' && a[1] == '\n' {
      DropFront(a, b, 2);
      NormalOfSum(a[2..], b);
      NormalCRLF(a + b);
      NormalCRLF(a);
    } else {
      DropFront(a, b, 1);
      NormalOfSum(a[1..], b);
      SumOther(a, b);
    }
  }

  lemma {:induction false} SumOther(a: string, b: string)
    requires a != "" && Apart(a, b) && !(|a| >= 2 && a[0] == '\r' && a[1] == '\n')
    requires (a + b)[1..] == a[1..] + b && Normal(a[1..] + b) == Normal(a[1..]) + Normal(b)
    ensures Normal(a + b) == Normal(a) + Normal(b)
  {
    NormalOther(a + b);
    NormalOther(a);
  }

  lemma {:induction false} NormalClean(s: string)
    requires '\r' !in s
    ensures Normal(s) == s
  {
    if s != "" {
      assert s[0] in s;
      NormalClean(s[1..]);
    }
  }

  lemma {:induction false} NormalEnd(s: string)
    requires s != "" && s[|s| - 1] != '\n'
    ensures Normal(s) != "" && Normal(s)[|Normal(s)| - 1] == s[|s| - 1]
  {
    if |s| > 1 {
      if s[0] == '\r' && s[1] == '\n' { NormalEnd(s[2..]); } else { NormalEnd(s[1..]); }
    }
  }

  lemma {:induction false} LinesOfSum(a: string, b: string)
    ensures Lines(a + "\n" + b) == Lines(a) + Lines(b)
    decreases |a|
  {
    var s := a + "\n" + b;
    if a == "" {
      assert s[1..] == b;
    } else {
      assert s[1..] == a[1..] + "\n" + b;
      LinesOfSum(a[1..], b);
    }
  }

  lemma {:induction false} OneLine(s: string)
    requires '\n' !in s
    ensures Lines(s) == [s]
  {
    if s != "" {
      assert s[0] in s;
      OneLine(s[1..]);
      assert s == [s[0]] + s[1..];
    }
  }

  lemma {:induction false} JoinLines(s: string)
    ensures Join(Lines(s), "\n") == s
  {
    if s != "" {
      JoinLines(s[1..]);
      var rest := Lines(s[1..]);
      if s[0] == '\n' {
        assert Lines(s)[1..] == rest;
        assert s == "" + "\n" + s[1..];
      } else {
        assert Lines(s)[1..] == rest[1..];
      }
    }
  }

  lemma {:induction false} JoinMore(xs: seq<string>, x: string)
    requires xs != []
    ensures Join(xs + [x], "\n") == Join(xs, "\n") + "\n" + x
  {
    if |xs| > 1 {
      JoinMore(xs[1..], x);
      assert (xs + [x])[1..] == xs[1..] + [x];
    } else {
      assert (xs + [x])[1..] == [x];
    }
  }

  // ---------------------------------------------------------------- printing

  function CheckLine(c: Check): string {
    "[" + (if c.done then "x" else " ") + "] " + Collapse(c.text)
  }

  function Printed(head: string, checks: seq<Check>): string {
    if checks == [] then head
    else Printed(head, checks[..|checks| - 1]) + "\n" + CheckLine(checks[|checks| - 1])
  }

  function Above(body: string): string {
    if body == "" then "" else body + "\n\n"
  }

  function JoinNotes(body: string, checks: seq<Check>): string {
    var b := TrimEnd(body, " \t\r\n");
    if checks == [] then b else Printed(Above(b) + SEPARATOR, checks)
  }

  /** The printer as it runs. */
  method Print(body: string, checks: seq<Check>) returns (notes: string)
    ensures notes == JoinNotes(body, checks)
  {
    var b := TrimEnd(body, " \t\r\n");
    if checks == [] {
      return b;
    }
    notes := "";
    if b != "" {
      notes := notes + b;
      notes := notes + "\n\n";
    }
    notes := notes + SEPARATOR;
    assert notes == Above(b) + SEPARATOR;
    for i := 0 to |checks|
      invariant notes == Printed(Above(b) + SEPARATOR, checks[..i])
    {
      var c := checks[i];
      var mark := " ";
      if c.done {
        mark := "x";
      }
      assert checks[..i + 1][..i] == checks[..i];
      notes := notes + "\n" + ("[" + mark + "] " + Collapse(c.text));
    }
    assert checks[..|checks|] == checks;
  }

  // ---------------------------------------------------------------- parsing

  /** A line matches when a bracketed mark and a blank precede something visible. */
  predicate IsCheck(l: string) {
    |l| > 4 && l[0] == '[' && l[1] in " xX" && l[2] == ']' && l[3] == ' ' && exists i ::
      4 <= i < |l| && !IsPatternSpace(l[i])
  }

  function Checks(lines: seq<string>): Option<seq<Check>>
    decreases |lines|
  {
    if lines == [] then Some([])
    else
      var rest := Checks(lines[..|lines| - 1]);
      var l := Trim(lines[|lines| - 1]);
      if rest.None? || l == "" then rest
      else if !IsCheck(l) then None
      else Some(rest.value + [Check(Trim(l[4..]), l[1] != ' ')])
  }

  /** Where the last separator line is. */
  function LastSeparator(lines: seq<string>): (r: Option<nat>)
    ensures r.Some? ==> r.value < |lines| && Trim(lines[r.value]) == SEPARATOR && forall j :: r.value < j < |lines| ==>
      Trim(lines[j]) != SEPARATOR
    ensures r.None? ==> forall j :: 0 <= j < |lines| ==> Trim(lines[j]) != SEPARATOR
    decreases |lines|
  {
    if lines == [] then None
    else if Trim(lines[|lines| - 1]) == SEPARATOR then Some(|lines| - 1)
    else LastSeparator(lines[..|lines| - 1])
  }

  function SplitNotes(notes: string): (string, seq<Check>) {
    var lines := Lines(Normal(notes));
    var at := LastSeparator(lines);
    if at.None? then (notes, [])
    else
      var checks := Checks(lines[at.value + 1..]);
      if checks.None? || checks.value == [] then (notes, [])
      else (TrimEnd(Join(lines[..at.value], "\n"), " \t\n"), checks.value)
  }

  /** Read the lines below a separator; one that is neither blank nor a check refuses them all. */
  method ReadChecks(lines: seq<string>) returns (r: Option<seq<Check>>)
    ensures r == Checks(lines)
  {
    var checks: seq<Check> := [];
    for k := 0 to |lines|
      invariant Checks(lines[..k]) == Some(checks)
    {
      var l := Trim(lines[k]);
      ChecksMore(lines[..k], lines[k]);
      assert lines[..k + 1] == lines[..k] + [lines[k]];
      if l != "" {
        if !IsCheck(l) {
          RefusedStays(lines, k + 1);
          return None;
        }
        checks := checks + [Check(Trim(l[4..]), l[1] != ' ')];
      }
    }
    assert lines[..|lines|] == lines;
    return Some(checks);
  }

  /** The parser as it runs: back from the last line to a separator, then forward over the checks. */
  method Parse(notes: string) returns (body: string, checks: seq<Check>)
    ensures (body, checks) == SplitNotes(notes)
  {
    var lines := Lines(Normal(notes));
    for i := |lines| downto 0
      invariant forall j :: i <= j < |lines| ==> Trim(lines[j]) != SEPARATOR
    {
      if Trim(lines[i]) == SEPARATOR {
        assert LastSeparator(lines) == Some(i);
        var read := ReadChecks(lines[i + 1..]);
        if read.None? || read.value == [] {
          return notes, [];
        }
        return TrimEnd(Join(lines[..i], "\n"), " \t\n"), read.value;
      }
    }
    return notes, [];
  }

  lemma {:induction false} ChecksMore(lines: seq<string>, x: string)
    ensures var rest, l := Checks(lines), Trim(x);
      Checks(lines + [x]) ==
        if rest.None? || l == "" then rest
        else if !IsCheck(l) then None
        else Some(rest.value + [Check(Trim(l[4..]), l[1] != ' ')])
  {
    assert (lines + [x])[..|lines|] == lines;
  }

  lemma {:induction false} RefusedStays(lines: seq<string>, k: nat)
    requires k <= |lines| && Checks(lines[..k]).None?
    ensures Checks(lines).None?
    decreases |lines|
  {
    if k < |lines| {
      assert lines[..|lines| - 1][..k] == lines[..k];
      RefusedStays(lines[..|lines| - 1], k);
    } else {
      assert lines[..k] == lines;
    }
  }

  // ---------------------------------------------------------------- round trip

  function CheckLines(checks: seq<Check>): seq<string> {
    if checks == [] then [] else CheckLines(checks[..|checks| - 1]) + [CheckLine(checks[|checks| - 1])]
  }

  function Collapsed(checks: seq<Check>): seq<Check> {
    if checks == [] then []
    else Collapsed(checks[..|checks| - 1]) + [Check(Collapse(checks[|checks| - 1].text), checks[|checks| - 1].done)]
  }

  lemma {:induction false} CheckLineClean(c: Check)
    ensures '\n' !in CheckLine(c) && '\r' !in CheckLine(c)
  {
    CollapseTidy(c.text);
    var t, l := Collapse(c.text), CheckLine(c);
    forall i | 0 <= i < |l| ensures l[i] != '\n' && l[i] != '\r' {
      if i >= 4 { assert l[i] == t[i - 4]; }
    }
  }

  lemma {:induction false} TrimKeeps(s: string)
    requires s != "" && !IsSpace(s[0]) && !IsSpace(s[|s| - 1])
    ensures Trim(s) == s
  {
  }

  /** A printed check reads back, unless its text is blank. */
  lemma {:induction false} CheckLineReads(c: Check)
    ensures Trim(CheckLine(c)) != "" && Trim(CheckLine(c)) != SEPARATOR
    ensures Blank(c.text) ==> !IsCheck(Trim(CheckLine(c)))
    ensures !Blank(c.text) ==>
      Trim(CheckLine(c)) == CheckLine(c) && IsCheck(CheckLine(c)) && Trim(CheckLine(c)[4..]) == Collapse(c.text)
    ensures !Blank(c.text) ==> (CheckLine(c)[1] != ' ') == c.done
  {
    CollapseTidy(c.text);
    var t, l := Collapse(c.text), CheckLine(c);
    assert l[4..] == t && l[0] == '[' && l[2] == ']' && l[3] == ' ';
    if Blank(c.text) {
      assert l[..3][2] == ']' && l[..|l| - 1] == l[..3];
      assert TrimLeft(l) == l && TrimRight(l) == TrimRight(l[..3]) == l[..3];
    } else {
      assert l[4] == t[0] && l[|l| - 1] == t[|t| - 1];
      TrimKeeps(l);
      TrimKeeps(t);
    }
  }

  /** The lines of the printed text. */
  lemma {:induction false} LinesPrinted(head: string, checks: seq<Check>)
    requires head != "" && head[|head| - 1] != '\r'
    ensures Printed(head, checks) != "" && Printed(head, checks)[|Printed(head, checks)| - 1] != '\r'
    ensures Lines(Normal(Printed(head, checks))) == Lines(Normal(head)) + CheckLines(checks)
  {
    if checks != [] {
      var c, before := checks[|checks| - 1], Printed(head, checks[..|checks| - 1]);
      var l := CheckLine(c);
      LinesPrinted(head, checks[..|checks| - 1]);
      CheckLineClean(c);
      assert before + "\n" + l == before + ("\n" + l);
      NormalOfSum(before, "\n" + l);
      assert '\r' !in "\n" + l;
      NormalClean("\n" + l);
      assert Normal(before) + ("\n" + l) == Normal(before) + "\n" + l;
      LinesOfSum(Normal(before), l);
      OneLine(l);
    }
  }

  lemma {:induction false} NoSeparator(checks: seq<Check>, j: nat)
    requires j < |CheckLines(checks)|
    ensures Trim(CheckLines(checks)[j]) != SEPARATOR
    decreases |checks|
  {
    CheckLineReads(checks[|checks| - 1]);
    var before := CheckLines(checks[..|checks| - 1]);
    if j < |before| { NoSeparator(checks[..|checks| - 1], j); }
  }

  ghost predicate AllVisible(checks: seq<Check>) {
    forall i :: 0 <= i < |checks| ==> !Blank(checks[i].text)
  }

  lemma {:induction false} LastVisible(checks: seq<Check>)
    requires checks != []
    ensures AllVisible(checks) <==> AllVisible(checks[..|checks| - 1]) && !Blank(checks[|checks| - 1].text)
  {
  }

  lemma {:induction false} ChecksRead(checks: seq<Check>)
    ensures AllVisible(checks) ==> Checks(CheckLines(checks)) == Some(Collapsed(checks))
    ensures !AllVisible(checks) ==> Checks(CheckLines(checks)).None?
  {
    if checks != [] {
      var before, c := checks[..|checks| - 1], checks[|checks| - 1];
      ChecksRead(before);
      LastVisible(checks);
      CheckLineReads(c);
      ChecksMore(CheckLines(before), CheckLine(c));
    }
  }

  /** The lines above the separator. */
  function AboveLines(b: string): seq<string> {
    if b == "" then [] else Lines(Normal(b)) + [""]
  }

  lemma {:induction false} NormalAbove(b: string)
    requires b != "" && b[|b| - 1] != '\r'
    ensures Normal(Above(b) + SEPARATOR) == Normal(b) + "\n" + ("\n" + SEPARATOR)
  {
    BelowClean(SEPARATOR);
    Regroup(b, SEPARATOR);
    NormalOfSum(b, "\n" + ("\n" + SEPARATOR));
  }

  lemma {:induction false} BelowClean(x: string)
    requires '\r' !in x
    ensures Normal("\n" + ("\n" + x)) == "\n" + ("\n" + x)
  {
    assert '\r' !in "\n" + ("\n" + x);
    NormalClean("\n" + ("\n" + x));
  }

  lemma {:induction false} Regroup(b: string, x: string)
    ensures b + "\n\n" + x == b + ("\n" + ("\n" + x))
    ensures forall n: string :: n + ("\n" + ("\n" + x)) == n + "\n" + ("\n" + x)
  {
    assert "\n\n" == "\n" + "\n";
  }

  lemma {:induction false} LinesAbove(b: string)
    requires b == "" || b[|b| - 1] != '\r'
    ensures Lines(Normal(Above(b) + SEPARATOR)) == AboveLines(b) + [SEPARATOR]
  {
    OneLine(SEPARATOR);
    if b == "" {
      NormalClean(SEPARATOR);
      assert Above(b) + SEPARATOR == SEPARATOR;
    } else {
      NormalAbove(b);
      LinesOfSum(Normal(b), "\n" + SEPARATOR);
      assert "" + "\n" + SEPARATOR == "\n" + SEPARATOR;
      LinesOfSum("", SEPARATOR);
    }
  }

  /** They give the body back. */
  lemma {:induction false} BodyBack(b: string)
    requires b == "" || b[|b| - 1] !in " \t\r\n"
    ensures TrimEnd(Join(AboveLines(b), "\n"), " \t\n") == Normal(b)
  {
    if b != "" {
      var n := Normal(b);
      JoinLines(n);
      JoinMore(Lines(n), "");
      NormalEnd(b);
      assert n + "\n" + "" == n + "\n";
      assert (n + "\n")[..|n|] == n;
    }
  }

  lemma {:induction false} SeparatorFound(above: seq<string>, checks: seq<Check>)
    ensures LastSeparator(above + [SEPARATOR] + CheckLines(checks)) == Some(|above|)
  {
    var lines := above + [SEPARATOR] + CheckLines(checks);
    TrimKeeps(SEPARATOR);
    assert lines[|above|] == SEPARATOR;
    forall j | |above| < j < |lines| ensures Trim(lines[j]) != SEPARATOR {
      NoSeparator(checks, j - |above| - 1);
      assert lines[j] == CheckLines(checks)[j - |above| - 1];
    }
  }

  /** Notes printed from any body and a list of checks read back as that body, its end trimmed and its
      line ends made uniform, and those checks, their white space collapsed, exactly when no check is
      blank; whatever separators or check-like lines the body has. */
  lemma {:induction false} RoundTrip(body: string, checks: seq<Check>)
    requires checks != []
    ensures SplitNotes(JoinNotes(body, checks)) == (Normal(TrimEnd(body, " \t\r\n")), Collapsed(checks)) <==>
      AllVisible(checks)
    ensures !AllVisible(checks) ==> SplitNotes(JoinNotes(body, checks)) == (JoinNotes(body, checks), [])
  {
    PrintedReads(TrimEnd(body, " \t\r\n"), checks);
  }

  lemma {:induction false} PrintedReads(b: string, checks: seq<Check>)
    requires checks != [] && (b == "" || b[|b| - 1] !in " \t\r\n")
    ensures var notes := Printed(Above(b) + SEPARATOR, checks);
      && (SplitNotes(notes) == (Normal(b), Collapsed(checks)) <==> AllVisible(checks))
      && (!AllVisible(checks) ==> SplitNotes(notes) == (notes, []))
  {
    var notes := Printed(Above(b) + SEPARATOR, checks);
    PrintedLines(b, checks);
    SplitFound(notes, AboveLines(b), CheckLines(checks));
    BodyBack(b);
    ChecksRead(checks);
    CollapsedAt(checks, 0);
  }

  lemma {:induction false} SplitFound(notes: string, above: seq<string>, below: seq<string>)
    requires LastSeparator(Lines(Normal(notes))) == Some(|above|)
    requires Lines(Normal(notes))[..|above|] == above && Lines(Normal(notes))[|above| + 1..] == below
    ensures Checks(below).None? ==> SplitNotes(notes) == (notes, [])
    ensures Checks(below).Some? && Checks(below).value != [] ==>
      SplitNotes(notes) == (TrimEnd(Join(above, "\n"), " \t\n"), Checks(below).value)
  {
  }

  /** What the parser finds in printed notes. */
  lemma {:induction false} PrintedLines(b: string, checks: seq<Check>)
    requires b == "" || b[|b| - 1] != '\r'
    ensures var lines := Lines(Normal(Printed(Above(b) + SEPARATOR, checks)));
      LastSeparator(lines) == Some(|AboveLines(b)|) && lines[|AboveLines(b)| + 1..] == CheckLines(checks) &&
        lines[..|AboveLines(b)|] == AboveLines(b)
  {
    var above, below := AboveLines(b), CheckLines(checks);
    LinesAbove(b);
    LinesPrinted(Above(b) + SEPARATOR, checks);
    SeparatorFound(above, checks);
    assert Lines(Normal(Printed(Above(b) + SEPARATOR, checks))) == above + [SEPARATOR] + below;
    Around(above, SEPARATOR, below);
  }

  lemma {:induction false} Around(above: seq<string>, x: string, below: seq<string>)
    ensures (above + [x] + below)[|above| + 1..] == below && (above + [x] + below)[..|above|] == above
  {
  }

  /** Every check comes back in its place, with its words and its mark. */
  lemma {:induction false} CollapsedAt(checks: seq<Check>, k: nat)
    requires k < |checks|
    ensures |Collapsed(checks)| == |checks| && Collapsed(checks)[k] == Check(Collapse(checks[k].text), checks[k].done)
    decreases |checks|
  {
    var before := checks[..|checks| - 1];
    if |before| > 0 { CollapsedAt(before, if k < |before| then k else 0); }
  }

  // ---------------------------------------------------------------- the text itself

  /** Printed notes are the body, an empty line, three dashes, and below them a line per check with its mark. */
  lemma {:induction false} NotesLookLike(body: string, c: Check)
    ensures var b, mark := TrimEnd(body, " \t\r\n"), if c.done then "x" else " ";
      JoinNotes(body, [c]) == (if b == "" then "" else b + "\n\n") + "---" + "\n[" + mark + "] " + Collapse(c.text)
  {
    var b := TrimEnd(body, " \t\r\n");
    var head := Above(b) + "---";
    assert [c][..0] == [];
    assert Printed(head, []) == head;
    assert Printed(head, [c]) == head + "\n" + CheckLine(c);
    assert CheckLine(c) == "[" + (if c.done then "x" else " ") + "] " + Collapse(c.text);
  }

  lemma {:induction false} MarkedLine(mark: char, text: string)
    requires mark in " xX" && text != "" && !IsSpace(text[0]) && !IsSpace(text[|text| - 1])
    ensures var l := "[" + [mark] + "] " + text;
      IsCheck(l) && Trim(l) == l && l[4..] == text && Trim(text) == text && l[1] == mark
  {
    var l := "[" + [mark] + "] " + text;
    assert l[4..] == text && l[4] == text[0] && l[|l| - 1] == text[|text| - 1];
    TrimKeeps(l);
    TrimKeeps(text);
    assert l[0] == '[' && l[1] == mark && l[2] == ']' && l[3] == ' ' && !IsPatternSpace(l[4]);
  }

  /** A line with a mark in brackets, a blank and a text is a check; x and X mean done, a blank not. */
  lemma {:induction false} MarksRead(mark: char, text: string)
    requires mark in " xX" && text != "" && !IsSpace(text[0]) && !IsSpace(text[|text| - 1])
    ensures Checks(["[" + [mark] + "] " + text]) == Some([Check(text, mark == 'x' || mark == 'X')])
  {
    var l := "[" + [mark] + "] " + text;
    MarkedLine(mark, text);
    assert Checks([]) == Some([]);
    ChecksMore([], l);
    assert [] + [l] == [l];
    var marks := " xX";
    assert marks[0] == ' ' && marks[1] == 'x' && marks[2] == 'X' && |marks| == 3;
    var i :| 0 <= i < |marks| && marks[i] == mark;
    var none: seq<Check> := [];
    assert none + [Check(text, mark != ' ')] == [Check(text, mark != ' ')];
  }

  /** Three dashes on a line of their own, white space around them aside, separate body and checks. */
  lemma {:induction false} DashesSeparate(body: string, mark: char, text: string)
    requires '\r' !in body && mark in " xX" && text != "" && !IsSpace(text[0]) && !IsSpace(text[|text| - 1])
    requires '\r' !in text && '\n' !in text
    ensures SplitNotes(body + "\n" + ("---" + "\n" + ("[" + [mark] + "] " + text))) ==
      (TrimEnd(body, " \t\n"), [Check(text, mark == 'x' || mark == 'X')])
  {
    var l := "[" + [mark] + "] " + text;
    var notes := body + "\n" + ("---" + "\n" + l);
    CheckHasNoLineEnd(mark, text);
    assert '\r' !in notes;
    NormalClean(notes);
    LinesOfSum(body, "---" + "\n" + l);
    LinesOfSum("---", l);
    OneLine("---");
    OneLine(l);
    var lines := Lines(notes);
    assert lines == Lines(body) + ["---"] + [l];
    JoinLines(body);
    MarksRead(mark, text);
    LastOfThree(Lines(body), l);
    SplitFound(notes, Lines(body), [l]);
  }

  lemma {:induction false} CheckHasNoLineEnd(mark: char, text: string)
    requires mark in " xX" && '\r' !in text && '\n' !in text
    ensures '\r' !in "[" + [mark] + "] " + text && '\n' !in "[" + [mark] + "] " + text
  {
  }

  lemma {:induction false} LastOfThree(above: seq<string>, l: string)
    requires l != "" && l[0] == '[' && !IsSpace(l[|l| - 1])
    ensures var lines := above + ["---"] + [l];
      LastSeparator(lines) == Some(|above|) && lines[..|above|] == above && lines[|above| + 1..] == [l]
  {
    var lines := above + ["---"] + [l];
    TrimKeeps("---");
    TrimKeeps(l);
    assert lines[|above|] == "---" && lines[|above| + 1] == l;
    forall j | |above| < j < |lines| ensures Trim(lines[j]) != SEPARATOR { assert lines[j] == l; }
  }

  // ---------------------------------------------------------------- a body without checks

  /** A line the parser passes over, and one it takes for a check. */
  predicate ReadsBlank(line: string) {
    Trim(line) == ""
  }

  predicate ReadsCheck(line: string) {
    Trim(line) != "" && IsCheck(Trim(line))
  }

  /** Below the line `i`, a separator, there are only blank lines and checks, and at least one check. */
  ghost predicate NotesFrom(lines: seq<string>, i: nat) {
    && i < |lines| && Trim(lines[i]) == SEPARATOR
    && (forall j :: i < j < |lines| ==> ReadsBlank(lines[j]) || ReadsCheck(lines[j]))
    && (exists j :: i < j < |lines| && ReadsCheck(lines[j]))
  }

  ghost predicate LooksLikeNotes(body: string) {
    exists i :: NotesFrom(Lines(Normal(body)), i)
  }

  ghost predicate AllRead(lines: seq<string>) {
    forall j :: 0 <= j < |lines| ==> ReadsBlank(lines[j]) || ReadsCheck(lines[j])
  }

  ghost predicate AnyCheck(lines: seq<string>) {
    exists j :: 0 <= j < |lines| && ReadsCheck(lines[j])
  }

  lemma {:induction false} ReadMore(lines: seq<string>, x: string)
    ensures AllRead(lines + [x]) <==> AllRead(lines) && (ReadsBlank(x) || ReadsCheck(x))
    ensures AnyCheck(lines + [x]) <==> AnyCheck(lines) || ReadsCheck(x)
  {
    var all := lines + [x];
    assert all[|lines|] == x && forall j :: 0 <= j < |lines| ==> all[j] == lines[j];
  }

  lemma {:induction false} ChecksAre(lines: seq<string>)
    ensures Checks(lines).Some? <==> AllRead(lines)
    ensures Checks(lines).Some? ==> (Checks(lines).value != [] <==> AnyCheck(lines))
    decreases |lines|
  {
    if lines != [] {
      var before, x := lines[..|lines| - 1], lines[|lines| - 1];
      ChecksAre(before);
      ChecksMore(before, x);
      ReadMore(before, x);
      assert lines == before + [x];
    }
  }

  lemma {:induction false} SeparatorIsNoCheck(line: string)
    requires Trim(line) == SEPARATOR
    ensures !ReadsBlank(line) && !ReadsCheck(line)
  {
  }

  /** Only the last separator can begin notes. */
  lemma {:induction false} NotesFromLast(lines: seq<string>, i: nat)
    requires NotesFrom(lines, i)
    ensures LastSeparator(lines) == Some(i)
  {
    forall j | i < j < |lines| ensures Trim(lines[j]) != SEPARATOR {
      if Trim(lines[j]) == SEPARATOR { SeparatorIsNoCheck(lines[j]); }
    }
  }

  lemma {:induction false} ReadFrom(lines: seq<string>, i: nat)
    requires i < |lines| && Trim(lines[i]) == SEPARATOR
    ensures NotesFrom(lines, i) <==> Checks(lines[i + 1..]).Some? && Checks(lines[i + 1..]).value != []
  {
    var rest := lines[i + 1..];
    ChecksAre(rest);
    forall j | i < j < |lines| ensures rest[j - i - 1] == lines[j] { }
    forall j | 0 <= j < |rest| ensures lines[i + 1 + j] == rest[j] { }
  }

  /** A body without checks comes back as it was, its end trimmed, unless it looks like notes itself. */
  lemma {:induction false} BodyAloneExactly(body: string)
    ensures SplitNotes(JoinNotes(body, [])) == (TrimEnd(body, " \t\r\n"), []) <==>
      !LooksLikeNotes(TrimEnd(body, " \t\r\n"))
  {
    var notes := TrimEnd(body, " \t\r\n");
    var lines := Lines(Normal(notes));
    var at := LastSeparator(lines);
    if at.Some? {
      ReadFrom(lines, at.value);
    }
    if LooksLikeNotes(notes) {
      var i :| NotesFrom(lines, i);
      NotesFromLast(lines, i);
    }
  }

  /** Such bodies exist: whatever was printed with checks is one. */
  lemma {:induction false} BodyAloneMayBeRead(body: string, checks: seq<Check>)
    requires checks != [] && AllVisible(checks)
    ensures var notes := JoinNotes(body, checks);
      JoinNotes(notes, []) == notes && SplitNotes(JoinNotes(notes, [])).1 == Collapsed(checks) != []
  {
    RoundTrip(body, checks);
    CollapsedAt(checks, 0);
    PrintedEnd(Above(TrimEnd(body, " \t\r\n")) + SEPARATOR, checks);
  }

  lemma {:induction false} PrintedEnd(head: string, checks: seq<Check>)
    requires checks != [] && AllVisible(checks)
    ensures var p := Printed(head, checks); p != "" && TrimEnd(p, " \t\r\n") == p
  {
    var c := checks[|checks| - 1];
    CollapseTidy(c.text);
    var p, t := Printed(head, checks), Collapse(c.text);
    assert p[|p| - 1] == t[|t| - 1];
  }
}
