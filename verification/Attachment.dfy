/** The reminders that keep the model's skill, agent and server lists in step with the live ones
    (src/agents/attachment.rs).

    A reminder is printed into the history and read back from it on the next turn: what the history
    announces is the only record of what has been announced.
 */
module Attachment {
  import opened Newlines
  import opened Text

  // ---- Reading a line -----------------------------------------------------------------------------

  datatype Section = NoSection | Skills | Agents | Mcp

  /** What a line says, whatever the section; `Fatal` makes the reader panic. */
  datatype Line =
    | Header(section: Section)
    | Removed(name: string)
    | Fatal
    | Added(raw: string)
    | Server(name: string)
    | Other

  /** The first index of two stars, or the length. */
  function StarPair(s: string): (n: nat)
    ensures n <= |s|
    ensures n < |s| ==> n + 1 < |s| && s[n] == '*' && s[n + 1] == '*'
    ensures forall i | 0 <= i < n && i + 1 < |s| :: !(s[i] == '*' && s[i + 1] == '*')
  {
    if |s| < 2 then |s|
    else if s[0] == '*' && s[1] == '*' then 0
    else
      var n := 1 + StarPair(s[1..]);
      assert forall i | 0 < i < n && i + 1 < |s| :: s[i] == s[1..][i - 1] && s[i + 1] == s[1..][i];
      n
  }

  function Classify(line: string): Line {
    LineOf(Trim(line, RustSpace))
  }

  predicate Starts(t: string, prefix: string) {
    prefix <= t
  }

  /** A bullet's text up to the stars that close it. */
  function BulletOf(rest: string): Line {
    var n := StarPair(rest);
    if n < |rest| then Added(rest[..n]) else Other
  }

  function LineOf(t: string): Line {
    if Starts(t, "## Skills") then Header(Skills)
    else if Starts(t, "## Available Sub-Agents") then Header(Agents)
    else if Starts(t, "## MCP Server Instructions") then Header(Mcp)
    else if Starts(t, "## ") then Header(NoSection)
    else if Starts(t, "- ~~") && EndsWith(t, "~~") then
      if |t| < 6 then Fatal else Removed(Trim(t[4..|t| - 2], RustSpace))
    else if Starts(t, "- **") then BulletOf(t[4..])
    else if Starts(t, "### ") then Server(Trim(t[4..], RustSpace))
    else Other
  }

  // ---- What the history announces -----------------------------------------------------------------

  datatype Announced = Announced(section: Section, skills: set<string>, agents: set<string>, mcp: set<string>)

  const NOTHING := Announced(NoSection, {}, {}, {})

  /** The name in an agent's entry. */
  function AgentName(raw: string): string {
    Trim(raw[..FirstOf(raw, IsColon)], RustSpace)
  }

  /** The effect of a line; `None` is a panic. */
  function Read(a: Announced, line: Line): Option<Announced> {
    match line
    case Header(section) => Some(a.(section := section))
    case Fatal => None
    case Removed(name) =>
      Some(if name == "" then a
           else
             match a.section
             case Skills => a.(skills := a.skills - {name})
             case Agents => a.(agents := a.agents - {name})
             case Mcp => a.(mcp := a.mcp - {name})
             case NoSection => a)
    case Added(raw) =>
      Some(if raw == "" then a
           else
             match a.section
             case Skills => a.(skills := a.skills + {raw})
             case Agents => a.(agents := a.agents + {AgentName(raw)})
             case _ => a)
    case Server(name) => Some(if a.section.Mcp? && name != "" then a.(mcp := a.mcp + {name}) else a)
    case Other => Some(a)
  }

  function ReadLines(a: Announced, lines: seq<string>): Option<Announced> {
    if lines == [] then Some(a)
    else
      match ReadLines(a, lines[..|lines| - 1])
      case None => None
      case Some(b) => Read(b, Classify(lines[|lines| - 1]))
  }

  datatype Message = Message(role: string, text: string)

  predicate IsReminder(m: Message) {
    "<system-reminder>" <= m.text && m.role == "user"
  }

  function Rebuild(history: seq<Message>): Option<Announced> {
    if history == [] then Some(NOTHING)
    else
      var m := history[|history| - 1];
      match Rebuild(history[..|history| - 1])
      case None => None
      case Some(a) => if IsReminder(m) then ReadLines(a.(section := NoSection), TextLines(m.text)) else Some(a)
  }

  method RebuildFromHistory(history: seq<Message>) returns (r: Option<Announced>)
    ensures r == Rebuild(history)
  {
    hide Classify, Read, TextLines;
    var a := NOTHING;
    var i := 0;
    while i < |history|
      invariant 0 <= i <= |history| && Rebuild(history[..i]) == Some(a)
    {
      assert history[..i + 1][..i] == history[..i];
      if IsReminder(history[i]) {
        a := a.(section := NoSection);
        ghost var start := a;
        var lines := TextLines(history[i].text);
        var j := 0;
        while j < |lines|
          invariant 0 <= j <= |lines| && ReadLines(start, lines[..j]) == Some(a)
        {
          assert lines[..j + 1][..j] == lines[..j];
          var line := Classify(lines[j]);
          match Read(a, line) {
            case None =>
              PanicStays(start, lines, j + 1);
              RebuildPanics(history, i + 1);
              return None;
            case Some(b) => a := b;
          }
          j := j + 1;
        }
        assert lines[..j] == lines;
      }
      i := i + 1;
    }
    assert history[..i] == history;
    return Some(a);
  }

  lemma {:induction false} PanicStays(a: Announced, lines: seq<string>, j: nat)
    requires j <= |lines| && ReadLines(a, lines[..j]).None?
    ensures ReadLines(a, lines).None?
    decreases |lines|
  {
    hide Classify, Read;
    if j == |lines| {
      assert lines[..j] == lines;
    } else {
      var n := |lines| - 1;
      assert lines[..n][..j] == lines[..j];
      PanicStays(a, lines[..n], j);
    }
  }

  lemma {:induction false} RebuildPanics(history: seq<Message>, i: nat)
    requires i <= |history| && Rebuild(history[..i]).None?
    ensures Rebuild(history).None?
    decreases |history|
  {
    hide IsReminder, TextLines, ReadLines;
    if i == |history| {
      assert history[..i] == history;
    } else {
      var n := |history| - 1;
      assert history[..n][..i] == history[..i];
      RebuildPanics(history[..n], i);
    }
  }

  // ---- When reading panics --------------------------------------------------------------------------

  lemma StartsOtherwise(t: string, prefix: string, i: nat)
    requires i < |prefix| && (|t| <= i || prefix[i] != t[i])
    ensures !Starts(t, prefix)
  {
  }

  lemma StartsConcat(prefix: string, rest: string)
    ensures Starts(prefix + rest, prefix) && (prefix + rest)[|prefix|..] == rest
  {
  }

  lemma NoHeader(t: string)
    requires t == "" || t[0] != '#'
    ensures !Starts(t, "## Skills") && !Starts(t, "## Available Sub-Agents") && !Starts(t, "## MCP Server Instructions")
    ensures !Starts(t, "## ") && !Starts(t, "### ")
  {
    hide Starts;
    StartsOtherwise(t, "## Skills", 0);
    StartsOtherwise(t, "## Available Sub-Agents", 0);
    StartsOtherwise(t, "## MCP Server Instructions", 0);
    StartsOtherwise(t, "## ", 0);
    StartsOtherwise(t, "### ", 0);
  }

  lemma ShortLine(t: string)
    requires "- ~~" <= t && EndsWith(t, "~~") && |t| < 6
    ensures LineOf(t).Fatal?
  {
    NoHeader(t);
  }

  /** Only these two lines are too short for the prefix and the suffix to be stripped. */
  lemma FatalIff(line: string)
    ensures Classify(line).Fatal? <==> Trim(line, RustSpace) == "- ~~" || Trim(line, RustSpace) == "- ~~~"
  {
    hide Trim, StarPair;
    var t := Trim(line, RustSpace);
    if Classify(line).Fatal? {
      assert |t| == 5 ==> t[4] == t[3..][1] == '~';
      assert t == "- ~~" || t == "- ~~~";
    }
    if t == "- ~~" || t == "- ~~~" {
      assert t[|t| - 2..] == "~~";
      ShortLine(t);
    }
  }

  ghost predicate HasFatal(lines: seq<string>) {
    exists j | 0 <= j < |lines| :: Classify(lines[j]).Fatal?
  }

  lemma {:induction false} LinesPanicIff(a: Announced, lines: seq<string>)
    ensures ReadLines(a, lines).None? <==> HasFatal(lines)
  {
    hide Classify;
    if lines != [] {
      var n := |lines| - 1;
      LinesPanicIff(a, lines[..n]);
      assert forall j | 0 <= j < n :: lines[..n][j] == lines[j];
    }
  }

  /** The reader panics exactly when some reminder in the history has one of those lines. */
  lemma {:induction false} RebuildPanicsIff(history: seq<Message>)
    ensures Rebuild(history).None? <==>
              exists i | 0 <= i < |history| :: IsReminder(history[i]) && HasFatal(TextLines(history[i].text))
  {
    hide TextLines, HasFatal, IsReminder;
    if history != [] {
      var n := |history| - 1;
      RebuildPanicsIff(history[..n]);
      assert forall i | 0 <= i < n :: history[..n][i] == history[i];
      if Rebuild(history[..n]).Some? {
        LinesPanicIff(Rebuild(history[..n]).value.(section := NoSection), TextLines(history[n].text));
      }
    }
  }

  // ---- Rendering ------------------------------------------------------------------------------------

  /** Names to announce and names to withdraw. */
  datatype Delta = Delta(added: seq<string>, removed: seq<string>)

  datatype Skill = Skill(summary: string, trigger: Option<string>)

  // The fixed sentences of a reminder, in short pieces.
  const SKILLS_GONE := Flat(["The following skills are no", " longer available:"])
  const SKILLS_WHAT := Flat(["Skills provide behavioral", " instructions for specific", " tasks."])
  const SKILLS_HOW := Flat([" Use the `skill_view` tool to", " load a skill's full", " instructions when needed."])
  const SKILLS_USE := SKILLS_WHAT + SKILLS_HOW
  const AGENTS_GONE := Flat(["The following sub-agents are", " no longer available:"])
  const AGENTS_USE := Flat([
    "Use `agent_delegate(agent=", "\"name\", task=\"...\", mode=", "\"sync\"/\"async\")` to delegate."])
  const MCP_GONE := Flat(["The following MCP servers are", " no longer connected:"])

  /** Runs of white space become single spaces. */
  function Fold(s: string): string
    decreases |s|
  {
    TrimStartSpec(s, RustSpace);
    var t := TrimStart(s, RustSpace);
    if t == "" then ""
    else
      var n := FirstOf(t, RustSpace);
      var rest := Fold(t[n..]);
      if rest == "" then t[..n] else t[..n] + " " + rest
  }

  function SkillTail(skill: Option<Skill>): string {
    match skill
    case None => ""
    case Some(s) =>
      (if Fold(s.summary) == "" then "" else ": " + Fold(s.summary))
      + (if s.trigger.Some? then " (trigger: " + s.trigger.value + ")" else "")
  }

  function Lookup(skills: map<string, Skill>, name: string): Option<Skill> {
    if name in skills then Some(skills[name]) else None
  }

  function SkillLine(name: string, skills: map<string, Skill>): string {
    "- **" + name + "**" + SkillTail(Lookup(skills, name))
  }

  function Strike(name: string): string {
    "- ~~" + name + "~~"
  }

  function AgentLine(entry: string): string {
    "- **" + entry + "**"
  }

  function Each(names: seq<string>, line: string -> string): seq<string> {
    seq(|names|, i requires 0 <= i < |names| => line(names[i]))
  }

  function Gone(message: string, removed: seq<string>): seq<string> {
    if removed == [] then [] else [message] + Each(removed, Strike) + [""]
  }

  function RenderSkills(d: Delta, skills: map<string, Skill>): string {
    Join(["## Skills"] + Gone(SKILLS_GONE, d.removed)
         + (if d.added == [] then [] else [SKILLS_USE] + Each(d.added, name => SkillLine(name, skills))), "\n")
  }

  function RenderAgents(d: Delta): string {
    Join(["## Available Sub-Agents"] + Gone(AGENTS_GONE, d.removed)
         + (if d.added == [] then [] else [AGENTS_USE] + Each(d.added, AgentLine)), "\n")
  }

  function RenderMcp(d: Delta): string {
    Join(["## MCP Server Instructions"] + d.added
         + (if d.removed == [] then [] else ["", MCP_GONE] + Each(d.removed, Strike)), "\n")
  }

  // ---- Reading what was rendered --------------------------------------------------------------------

  function ReadText(a: Announced, text: string): Option<Announced> {
    ReadLines(a, Split(text))
  }

  /** One text after another. */
  function ReadPieces(a: Announced, pieces: seq<string>): Option<Announced>
    decreases |pieces|
  {
    if pieces == [] then Some(a)
    else
      match ReadText(a, pieces[0])
      case None => None
      case Some(b) => ReadPieces(b, pieces[1..])
  }

  lemma {:induction false} ReadLinesConcat(a: Announced, x: seq<string>, y: seq<string>)
    ensures ReadLines(a, x + y) ==
              match ReadLines(a, x) { case None => None case Some(b) => ReadLines(b, y) }
  {
    hide Classify, Read;
    if y == [] {
      assert x + y == x;
    } else {
      var n := |y| - 1;
      assert (x + y)[..|x| + n] == x + y[..n];
      ReadLinesConcat(a, x, y[..n]);
    }
  }

  lemma {:induction false} ReadPiecesConcat(a: Announced, x: seq<string>, y: seq<string>)
    ensures ReadPieces(a, x + y) ==
              match ReadPieces(a, x) { case None => None case Some(b) => ReadPieces(b, y) }
    decreases |x|
  {
    hide ReadText;
    if x == [] {
      assert x + y == y;
    } else {
      assert (x + y)[0] == x[0] && (x + y)[1..] == x[1..] + y;
      if ReadText(a, x[0]).Some? {
        ReadPiecesConcat(ReadText(a, x[0]).value, x[1..], y);
      }
    }
  }

  lemma {:induction false} ReadJoin(a: Announced, pieces: seq<string>)
    requires pieces != []
    ensures ReadText(a, Join(pieces, "\n")) == ReadPieces(a, pieces)
    decreases |pieces|
  {
    hide ReadLines;
    if |pieces| == 1 {
      assert pieces[1..] == [];
      if ReadText(a, pieces[0]).Some? {
        assert ReadPieces(ReadText(a, pieces[0]).value, []) == ReadText(a, pieces[0]);
      }
    } else {
      var rest := Join(pieces[1..], "\n");
      SplitConcat(pieces[0], rest);
      ReadLinesConcat(a, Split(pieces[0]), Split(rest));
      if ReadText(a, pieces[0]).Some? {
        ReadJoin(ReadText(a, pieces[0]).value, pieces[1..]);
      }
    }
  }

  lemma ReadOneLine(a: Announced, line: string)
    requires Free(line, IsNewline)
    ensures ReadText(a, line) == Read(a, Classify(line))
  {
    hide Classify, Read;
    SplitOne(line);
    assert [line][..0] == [];
    assert ReadLines(a, []) == Some(a);
  }

  lemma TrimHead(s: string)
    requires s != "" && !RustSpace(s[0])
    ensures Trim(s, RustSpace) != "" && Trim(s, RustSpace) <= s && Trim(s, RustSpace)[0] == s[0]
  {
    hide TrimEnd;
    StartsSolid(s, RustSpace);
    TrimEndSpec(s, RustSpace);
    TrimEndKeeps([s[0]], s[1..], RustSpace);
    assert [s[0]] + s[1..] == s;
  }

  predicate SaysNothing(line: string) {
    Classify(line).Other?
  }

  lemma ProseSaysNothing(s: string)
    requires s == "" || (!RustSpace(s[0]) && s[0] != '#' && s[0] != '-')
    ensures SaysNothing(s)
  {
    if s != "" {
      TrimHead(s);
    }
    hide Trim;
    var t := Trim(s, RustSpace);
    NoHeader(t);
    StartsOtherwise(t, "- ~~", 0);
    StartsOtherwise(t, "- **", 0);
  }

  lemma ReadProse(a: Announced, s: string)
    requires s == "" || Prose(s)
    ensures ReadText(a, s) == Some(a)
  {
    hide ReadText, Classify;
    ProseSaysNothing(s);
    ReadOneLine(a, s);
  }

  lemma {:induction false} FlatIsOneLine(parts: seq<string>)
    requires forall i | 0 <= i < |parts| :: Free(parts[i], IsNewline)
    ensures Free(Flat(parts), IsNewline)
  {
    if parts != [] {
      FlatIsOneLine(parts[1..]);
      FreeConcat(parts[0], Flat(parts[1..]), IsNewline);
    }
  }

  /** A sentence that is none of the lines the reader looks for. */
  ghost predicate Prose(s: string) {
    s != "" && !RustSpace(s[0]) && s[0] != '#' && s[0] != '-' && Free(s, IsNewline)
  }

  lemma SkillsGoneIsProse()
    ensures Prose(SKILLS_GONE)
  {
    FlatIsOneLine([
      "The following skills are no",
      " longer available:"
    ]);
  }

  lemma SkillsHowIsOneLine()
    ensures Free(SKILLS_HOW, IsNewline)
  {
    assert Free(" Use the `skill_view` tool to", IsNewline);
    assert Free(" load a skill's full", IsNewline);
    assert Free(" instructions when needed.", IsNewline);
    FlatIsOneLine([" Use the `skill_view` tool to", " load a skill's full", " instructions when needed."]);
  }

  lemma SkillsUseIsProse()
    ensures Prose(SKILLS_USE)
  {
    SkillsHowIsOneLine();
    FreeConcat(SKILLS_WHAT, SKILLS_HOW, IsNewline);
  }

  lemma AgentsGoneIsProse()
    ensures Prose(AGENTS_GONE)
  {
    FlatIsOneLine([
      "The following sub-agents are",
      " no longer available:"
    ]);
  }

  lemma AgentsUseIsProse()
    ensures Prose(AGENTS_USE)
  {
    assert Free("Use `agent_delegate(agent=", IsNewline);
    assert Free("\"name\", task=\"...\", mode=", IsNewline);
    assert Free("\"sync\"/\"async\")` to delegate.", IsNewline);
    FlatIsOneLine(["Use `agent_delegate(agent=", "\"name\", task=\"...\", mode=", "\"sync\"/\"async\")` to delegate."]);
  }

  lemma McpGoneIsProse()
    ensures Prose(MCP_GONE)
  {
    FlatIsOneLine([
      "The following MCP servers are",
      " no longer connected:"
    ]);
  }

  // ---- Withdrawn names --------------------------------------------------------------------------------

  lemma ClassifyStrike(name: string)
    ensures Classify(Strike(name)) == Removed(Trim(name, RustSpace))
  {
    var t := Strike(name);
    TrimOfTrimmed(t, RustSpace);
    hide Trim;
    NoHeader(t);
    assert t[..4] == "- ~~" && t[|t| - 2..] == "~~" && t[4..|t| - 2] == name;
  }

  lemma StrikeIsOneLine(name: string)
    requires Free(name, IsNewline)
    ensures Free(Strike(name), IsNewline)
  {
    assert Free("- ~~", IsNewline) && Free("~~", IsNewline);
    FreeConcat("- ~~" + name, "~~", IsNewline);
    FreeConcat("- ~~", name, IsNewline);
  }

  /** The names of the section being read. */
  function Names(a: Announced): set<string> {
    match a.section
    case Skills => a.skills
    case Agents => a.agents
    case Mcp => a.mcp
    case NoSection => {}
  }

  function WithNames(a: Announced, names: set<string>): Announced {
    match a.section
    case Skills => a.(skills := names)
    case Agents => a.(agents := names)
    case Mcp => a.(mcp := names)
    case NoSection => a
  }

  /** What striking these names removes: they are trimmed on reading, and a blank one removes nothing. */
  function Struck(names: seq<string>): set<string> {
    set n | n in names && Trim(n, RustSpace) != "" :: Trim(n, RustSpace)
  }

  lemma NothingStruck(a: Announced)
    ensures WithNames(a, Names(a) - Struck([])) == a
  {
    assert Struck([]) == {} && Names(a) - {} == Names(a);
  }

  lemma ReadRemoved(a: Announced, name: string)
    ensures Read(a, Removed(name)) == Some(WithNames(a, Names(a) - ({name} - {""})))
  {
    if name == "" {
      assert {name} - {""} == {} && Names(a) - {} == Names(a);
    } else {
      assert {name} - {""} == {name};
    }
  }

  lemma EachCons(names: seq<string>, line: string -> string)
    requires names != []
    ensures Each(names, line) == [line(names[0])] + Each(names[1..], line)
  {
  }

  lemma {:induction false} ReadStrikes(a: Announced, names: seq<string>)
    requires a.section != NoSection && forall n <- names :: Free(n, IsNewline)
    ensures ReadPieces(a, Each(names, Strike)) == Some(WithNames(a, Names(a) - Struck(names)))
    decreases |names|
  {
    if names == [] {
      NothingStruck(a);
    } else {
      hide ReadText, Classify, Trim, Struck, Each, Strike;
      EachCons(names, Strike);
      StrikeIsOneLine(names[0]);
      ReadOneLine(a, Strike(names[0]));
      ClassifyStrike(names[0]);
      var name := Trim(names[0], RustSpace);
      var b := WithNames(a, Names(a) - ({name} - {""}));
      ReadRemoved(a, name);
      ReadStrikes(b, names[1..]);
      assert Names(b) - Struck(names[1..]) == Names(a) - Struck(names);
      assert Each(names, Strike)[1..] == Each(names[1..], Strike);
    }
  }

  lemma ReadGone(a: Announced, message: string, removed: seq<string>)
    requires a.section != NoSection && Prose(message) && forall n <- removed :: Free(n, IsNewline)
    ensures ReadPieces(a, Gone(message, removed)) == Some(WithNames(a, Names(a) - Struck(removed)))
  {
    if removed == [] {
      NothingStruck(a);
    } else {
      hide ReadText, Each, Struck, Prose;
      ReadStrikes(a, removed);
      var b := WithNames(a, Names(a) - Struck(removed));
      ReadBetween(a, message, Each(removed, Strike), b);
    }
  }

  /** A sentence before and an empty line after change nothing. */
  lemma ReadBetween(a: Announced, message: string, pieces: seq<string>, b: Announced)
    requires Prose(message) && ReadPieces(a, pieces) == Some(b)
    ensures ReadPieces(a, [message] + pieces + [""]) == Some(b)
    ensures ReadPieces(a, [message] + pieces) == Some(b)
  {
    hide ReadText, Prose;
    ReadProse(a, message);
    ReadSingle(a, message);
    ReadPiecesConcat(a, [message], pieces);
    ReadProse(b, "");
    ReadSingle(b, "");
    ReadPiecesConcat(a, [message] + pieces, [""]);
  }

  lemma ReadSingle(a: Announced, text: string)
    ensures ReadPieces(a, [text]) == ReadText(a, text)
  {
    hide ReadText;
    assert [text][1..] == [];
    match ReadText(a, text)
    case None =>
    case Some(b) => assert ReadPieces(b, []) == Some(b);
  }

  // ---- Announced names --------------------------------------------------------------------------------

  /** A name that its bullet line gives back: not empty, on one line, and with no two stars before the
      closing ones. */
  ghost predicate Announceable(name: string) {
    name != "" && Free(name, IsNewline) && StarPair(name + "**") == |name|
  }

  lemma StarPairGrows(s: string, more: string)
    requires StarPair(s) < |s|
    ensures StarPair(s + more) == StarPair(s)
  {
    var n, t := StarPair(s), s + more;
    assert forall i | 0 <= i < |s| :: t[i] == s[i];
  }

  lemma BulletLine(rest: string)
    ensures LineOf("- **" + rest) == BulletOf(rest)
  {
    hide Trim, BulletOf, Starts, EndsWith;
    var t := "- **" + rest;
    NoHeader(t);
    StartsOtherwise(t, "- ~~", 2);
    StartsConcat("- **", rest);
  }

  lemma AddedLine(raw: string, end: string)
    requires StarPair(raw + "**") == |raw|
    ensures LineOf("- **" + raw + "**" + end) == Added(raw)
  {
    hide LineOf, StarPair;
    ConcatFour("- **", raw, "**", end);
    BulletLine(raw + "**" + end);
    StarPairGrows(raw + "**", end);
  }

  lemma ClassifyAdded(raw: string, tail: string)
    requires StarPair(raw + "**") == |raw|
    ensures Classify("- **" + raw + "**" + tail) == Added(raw)
  {
    hide LineOf, TrimEnd, StarPair;
    var solid := "- **" + raw + "**";
    StartsSolid(solid + tail, RustSpace);
    TrimEndKeeps(solid, tail, RustSpace);
    AddedLine(raw, TrimEnd(tail, RustSpace));
  }

  lemma {:induction false} FoldIsOneLine(s: string)
    ensures Free(Fold(s), IsNewline)
    decreases |s|
  {
    TrimStartSpec(s, RustSpace);
    var t := TrimStart(s, RustSpace);
    if t != "" {
      var n := FirstOf(t, RustSpace);
      FoldIsOneLine(t[n..]);
      assert forall i | 0 <= i < n :: !RustSpace(t[..n][i]);
      FreeConcat(t[..n] + " ", Fold(t[n..]), IsNewline);
      FreeConcat(t[..n], " ", IsNewline);
    }
  }

  /** A trigger on one line; the summary is folded onto one. */
  ghost predicate OneLineTrigger(skill: Option<Skill>) {
    skill.Some? && skill.value.trigger.Some? ==> Free(skill.value.trigger.value, IsNewline)
  }

  lemma TailIsOneLine(skill: Option<Skill>)
    requires OneLineTrigger(skill)
    ensures Free(SkillTail(skill), IsNewline)
  {
    match skill
    case None =>
    case Some(s) =>
      FoldIsOneLine(s.summary);
      hide Fold;
      var first := if Fold(s.summary) == "" then "" else ": " + Fold(s.summary);
      assert Free(": ", IsNewline) && Free("", IsNewline) && Free(" (trigger: ", IsNewline) && Free(")", IsNewline);
      FreeConcat(": ", Fold(s.summary), IsNewline);
      if s.trigger.Some? {
        FreeConcat(" (trigger: " + s.trigger.value, ")", IsNewline);
        FreeConcat(" (trigger: ", s.trigger.value, IsNewline);
        FreeConcat(first, " (trigger: " + s.trigger.value + ")", IsNewline);
      } else {
        FreeConcat(first, "", IsNewline);
      }
  }

  lemma ReadSkillLine(a: Announced, name: string, skills: map<string, Skill>)
    requires a.section == Skills && Announceable(name) && OneLineTrigger(Lookup(skills, name))
    ensures ReadText(a, SkillLine(name, skills)) == Some(a.(skills := a.skills + {name}))
  {
    hide Classify, ReadText, SkillTail, Lookup, OneLineTrigger;
    var tail := SkillTail(Lookup(skills, name));
    TailIsOneLine(Lookup(skills, name));
    ClassifyAdded(name, tail);
    assert Free("- **", IsNewline) && Free("**", IsNewline);
    FreeConcat("- **" + name + "**", tail, IsNewline);
    FreeConcat("- **" + name, "**", IsNewline);
    FreeConcat("- **", name, IsNewline);
    ReadOneLine(a, SkillLine(name, skills));
  }

  function SetOf(names: seq<string>): set<string> {
    set n | n in names
  }

  lemma SetOfCons(names: seq<string>)
    requires names != []
    ensures SetOf(names) == {names[0]} + SetOf(names[1..])
  {
    assert names == [names[0]] + names[1..];
  }

  lemma {:induction false} ReadSkillLines(a: Announced, names: seq<string>, skills: map<string, Skill>)
    requires a.section == Skills
    requires forall n <- names :: Announceable(n) && OneLineTrigger(Lookup(skills, n))
    ensures ReadPieces(a, Each(names, name => SkillLine(name, skills))) == Some(a.(skills := a.skills + SetOf(names)))
    decreases |names|
  {
    var line := name => SkillLine(name, skills);
    if names == [] {
      assert SetOf(names) == {} && a.skills + {} == a.skills && Each(names, line) == [];
    } else {
      hide ReadText, SkillLine, Announceable, OneLineTrigger;
      EachCons(names, line);
      ReadSkillLine(a, names[0], skills);
      var b := a.(skills := a.skills + {names[0]});
      ReadSkillLines(b, names[1..], skills);
      assert b.skills + SetOf(names[1..]) == a.skills + SetOf(names);
      assert Each(names, line)[1..] == Each(names[1..], line);
    }
  }

  // ---- Agents -----------------------------------------------------------------------------------------

  function AgentEntry(name: string, description: string): string {
    if description == "" then name else name + ": " + description
  }

  /** A later description of the same name wins. */
  function Descriptions(agents: seq<(string, string)>): map<string, string> {
    if agents == [] then map[]
    else
      var last := agents[|agents| - 1];
      Descriptions(agents[..|agents| - 1])[last.0 := last.1]
  }

  function DescriptionOf(descriptions: map<string, string>, name: string): string {
    if name in descriptions then descriptions[name] else ""
  }

  function AgentEntries(names: seq<string>, descriptions: map<string, string>): seq<string> {
    Each(names, name => AgentEntry(name, DescriptionOf(descriptions, name)))
  }

  ghost predicate AnnounceableAgent(name: string, description: string) {
    Announceable(name) && Trimmed(name, RustSpace) && Free(name, IsColon) && Free(description, IsNewline)
  }

  /** The bullet of an agent, up to its first two stars, still holds the whole name. */
  lemma AgentRaw(name: string, description: string)
    requires AnnounceableAgent(name, description)
    ensures var s := AgentEntry(name, description) + "**";
            var n := StarPair(s);
            n < |s| && n > 0 && AgentName(s[..n]) == name
  {
    hide Trim, StarPair;
    var s := AgentEntry(name, description) + "**";
    var n := StarPair(s);
    var m := |name|;
    assert s[|s| - 2] == '*' && s[|s| - 1] == '*';
    if description == "" {
      assert s[..n] == name && name[..m] == name;
      FirstOfIs(s[..n], IsColon, m);
    } else {
      assert forall i | 0 <= i < m :: s[i] == name[i] == (name + "**")[i];
      assert s[m] == ':';
      assert n > m;
      assert s[..n][..m] == name;
      FirstOfIs(s[..n], IsColon, m);
    }
    TrimOfTrimmed(name, RustSpace);
  }

  lemma ClassifyAgent(name: string, description: string)
    requires AnnounceableAgent(name, description)
    ensures var line := Classify(AgentLine(AgentEntry(name, description)));
            line.Added? && line.raw != "" && AgentName(line.raw) == name
  {
    hide AnnounceableAgent, AgentName, AgentEntry, LineOf;
    var entry := AgentEntry(name, description);
    var rest := entry + "**";
    AgentRaw(name, description);
    BulletLine(rest);
    assert AgentLine(entry) == "- **" + rest;
    hide StarPair;
  }

  lemma AgentLineIsOneLine(name: string, description: string)
    requires AnnounceableAgent(name, description)
    ensures Free(AgentLine(AgentEntry(name, description)), IsNewline)
  {
    hide StarPair;
    assert Free("- **", IsNewline) && Free("**", IsNewline) && Free(": ", IsNewline);
    var entry := AgentEntry(name, description);
    if description != "" {
      FreeConcat(name + ": ", description, IsNewline);
      FreeConcat(name, ": ", IsNewline);
    }
    FreeConcat("- **" + entry, "**", IsNewline);
    FreeConcat("- **", entry, IsNewline);
  }

  lemma ReadCons(a: Announced, piece: string, pieces: seq<string>, b: Announced)
    requires ReadText(a, piece) == Some(b)
    ensures ReadPieces(a, [piece] + pieces) == ReadPieces(b, pieces)
  {
    hide ReadText;
    assert ([piece] + pieces)[1..] == pieces;
  }

  lemma ReadAgentLine(a: Announced, name: string, description: string)
    requires a.section == Agents && AnnounceableAgent(name, description)
    ensures ReadText(a, AgentLine(AgentEntry(name, description))) == Some(a.(agents := a.agents + {name}))
  {
    hide ReadText, AgentLine, AgentEntry, AnnounceableAgent, Classify, AgentName;
    ClassifyAgent(name, description);
    AgentLineIsOneLine(name, description);
    ReadOneLine(a, AgentLine(AgentEntry(name, description)));
  }

  lemma {:induction false} ReadAgentLines(a: Announced, names: seq<string>, descriptions: map<string, string>)
    requires a.section == Agents
    requires forall n <- names :: AnnounceableAgent(n, DescriptionOf(descriptions, n))
    ensures ReadPieces(a, Each(AgentEntries(names, descriptions), AgentLine))
            == Some(a.(agents := a.agents + SetOf(names)))
    decreases |names|
  {
    if names == [] {
      assert SetOf(names) == {} && a.agents + {} == a.agents;
    } else {
      hide ReadText, AgentLine, AgentEntry, AnnounceableAgent, DescriptionOf, Each, AgentEntries, ReadPieces;
      var entries := AgentEntries(names, descriptions);
      var name := names[0];
      EntriesCons(names, descriptions);
      ReadAgentLine(a, name, DescriptionOf(descriptions, name));
      var b := a.(agents := a.agents + {name});
      ReadAgentLines(b, names[1..], descriptions);
      SetOfCons(names);
      hide SetOf;
      assert b.agents + SetOf(names[1..]) == a.agents + ({name} + SetOf(names[1..]));
      EachCons(entries, AgentLine);
      ReadCons(a, AgentLine(entries[0]), Each(entries[1..], AgentLine), b);
    }
  }

  lemma EntriesCons(names: seq<string>, descriptions: map<string, string>)
    requires names != []
    ensures var entries := AgentEntries(names, descriptions);
            && entries != [] && entries[0] == AgentEntry(names[0], DescriptionOf(descriptions, names[0]))
            && entries[1..] == AgentEntries(names[1..], descriptions)
  {
    hide AgentEntry, DescriptionOf;
  }

  // ---- Servers ----------------------------------------------------------------------------------------

  function ServerEntry(name: string, instructions: string): string {
    "### " + name + "\n" + instructions
  }

  /** The servers with instructions that are not announced yet, in order. */
  function NewServers(servers: seq<(string, string)>, announced: set<string>): seq<(string, string)> {
    if servers == [] then []
    else
      (if servers[0].0 !in announced && servers[0].1 != "" then [servers[0]] else [])
      + NewServers(servers[1..], announced)
  }

  /** A server name that its title line gives back. */
  ghost predicate ServerName(name: string) {
    name != "" && Trimmed(name, RustSpace) && Free(name, IsNewline)
  }

  /** Instructions may hold anything but headers and struck lines. */
  ghost predicate AnnounceableServer(name: string, instructions: string) {
    && ServerName(name)
    && forall l <- Split(instructions) :: Classify(l).Other? || Classify(l).Added?
  }

  lemma ClassifyServer(name: string)
    requires name != "" && Trimmed(name, RustSpace)
    ensures Classify("### " + name) == Server(name)
  {
    var t := "### " + name;
    TrimOfTrimmed(t, RustSpace);
    TrimOfTrimmed(name, RustSpace);
    hide Trim, Starts, EndsWith, StarPair;
    StartsOtherwise(t, "## Skills", 2);
    StartsOtherwise(t, "## Available Sub-Agents", 2);
    StartsOtherwise(t, "## MCP Server Instructions", 2);
    StartsOtherwise(t, "## ", 2);
    StartsOtherwise(t, "- ~~", 0);
    StartsOtherwise(t, "- **", 0);
    StartsConcat("### ", name);
  }

  lemma {:induction false} ReadBullets(a: Announced, lines: seq<string>)
    requires a.section == Mcp && forall l <- lines :: Classify(l).Other? || Classify(l).Added?
    ensures ReadLines(a, lines) == Some(a)
  {
    hide Classify;
    if lines != [] {
      var n := |lines| - 1;
      ReadBullets(a, lines[..n]);
      assert lines[n] in lines;
    }
  }

  lemma ReadServer(a: Announced, name: string, instructions: string)
    requires a.section == Mcp && AnnounceableServer(name, instructions)
    ensures ReadText(a, ServerEntry(name, instructions)) == Some(a.(mcp := a.mcp + {name}))
  {
    hide Classify, ReadLines;
    var title := "### " + name;
    var b := a.(mcp := a.mcp + {name});
    ClassifyServer(name);
    assert Free("### ", IsNewline);
    FreeConcat("### ", name, IsNewline);
    ReadOneLine(a, title);
    assert ReadText(a, title) == Some(b);
    ReadBullets(b, Split(instructions));
    SplitConcat(title, instructions);
    ReadLinesConcat(a, Split(title), Split(instructions));
  }

  function ServerEntries(servers: seq<(string, string)>): seq<string> {
    seq(|servers|, i requires 0 <= i < |servers| => ServerEntry(servers[i].0, servers[i].1))
  }

  function ServerNames(servers: seq<(string, string)>): set<string> {
    set s | s in servers :: s.0
  }

  lemma ServersCons(servers: seq<(string, string)>)
    requires servers != []
    ensures ServerNames(servers) == {servers[0].0} + ServerNames(servers[1..])
    ensures ServerEntries(servers) == [ServerEntry(servers[0].0, servers[0].1)] + ServerEntries(servers[1..])
  {
    hide ServerEntry;
    assert servers == [servers[0]] + servers[1..];
  }

  lemma {:induction false} ReadServers(a: Announced, servers: seq<(string, string)>)
    requires a.section == Mcp && forall s <- servers :: AnnounceableServer(s.0, s.1)
    ensures ReadPieces(a, ServerEntries(servers)) == Some(a.(mcp := a.mcp + ServerNames(servers)))
    decreases |servers|
  {
    if servers == [] {
      assert ServerNames(servers) == {} && a.mcp + {} == a.mcp;
    } else {
      hide ReadText, ServerEntry, AnnounceableServer, ReadPieces;
      var s, rest := servers[0], servers[1..];
      ReadServer(a, s.0, s.1);
      var b := a.(mcp := a.mcp + {s.0});
      ReadServers(b, rest);
      ServersCons(servers);
      hide ServerNames, ServerEntries;
      assert b.mcp + ServerNames(rest) == a.mcp + ({s.0} + ServerNames(rest));
      ReadCons(a, ServerEntry(s.0, s.1), ServerEntries(rest), b);
    }
  }

  // ---- Sections ---------------------------------------------------------------------------------------

  lemma ReadTitle(a: Announced, title: string, section: Section)
    requires title != "" && Trimmed(title, RustSpace) && Free(title, IsNewline) && LineOf(title) == Header(section)
    ensures ReadText(a, title) == Some(a.(section := section))
  {
    hide LineOf, ReadText;
    TrimOfTrimmed(title, RustSpace);
    ReadOneLine(a, title);
  }

  lemma ReadSkillsTitle(a: Announced)
    ensures ReadText(a, "## Skills") == Some(a.(section := Skills))
  {
    hide ReadText, Starts;
    var title := "## Skills";
    StartsConcat(title, "");
    assert title + "" == title && Free(title, IsNewline);
    ReadTitle(a, title, Skills);
  }

  lemma ReadAgentsTitle(a: Announced)
    ensures ReadText(a, "## Available Sub-Agents") == Some(a.(section := Agents))
  {
    hide ReadText, Starts;
    var title := "## Available Sub-Agents";
    StartsConcat(title, "");
    assert title + "" == title && Free(title, IsNewline);
    StartsOtherwise(title, "## Skills", 3);
    ReadTitle(a, title, Agents);
  }

  lemma ReadMcpTitle(a: Announced)
    ensures ReadText(a, "## MCP Server Instructions") == Some(a.(section := Mcp))
  {
    hide ReadText, Starts;
    var title := "## MCP Server Instructions";
    StartsConcat(title, "");
    assert title + "" == title && Free(title, IsNewline);
    StartsOtherwise(title, "## Skills", 3);
    StartsOtherwise(title, "## Available Sub-Agents", 3);
    ReadTitle(a, title, Mcp);
  }

  /** A rendered list of withdrawn and added names, read in its section. */
  lemma ReadThree(a: Announced, b: Announced, c: Announced, d: Announced, x: seq<string>, y: seq<string>,
      z: seq<string>)
    requires ReadPieces(a, x) == Some(b) && ReadPieces(b, y) == Some(c) && ReadPieces(c, z) == Some(d)
    requires x != []
    ensures ReadText(a, Join(x + y + z, "\n")) == Some(d)
  {
    hide ReadText, ReadPieces;
    ReadPiecesConcat(a, x, y);
    ReadPiecesConcat(a, x + y, z);
    ReadJoin(a, x + y + z);
  }

  lemma ReadSkills(a: Announced, d: Delta, skills: map<string, Skill>)
    requires forall n <- d.removed :: Free(n, IsNewline)
    requires forall n <- d.added :: Announceable(n) && OneLineTrigger(Lookup(skills, n))
    ensures ReadText(a, RenderSkills(d, skills)) ==
              Some(a.(section := Skills, skills := a.skills - Struck(d.removed) + SetOf(d.added)))
  {
    hide ReadText, Struck, Prose, Announceable, OneLineTrigger, SkillLine, Gone, Each;
    var b := a.(section := Skills);
    var c := b.(skills := a.skills - Struck(d.removed));
    var e := c.(skills := c.skills + SetOf(d.added));
    ReadSkillsTitle(a);
    ReadSingle(a, "## Skills");
    SkillsGoneIsProse();
    SkillsUseIsProse();
    ReadGone(b, SKILLS_GONE, d.removed);
    var adds := if d.added == [] then [] else [SKILLS_USE] + Each(d.added, name => SkillLine(name, skills));
    if d.added == [] {
      assert SetOf(d.added) == {} && c.skills + {} == c.skills;
    } else {
      ReadSkillLines(c, d.added, skills);
      ReadBetween(c, SKILLS_USE, Each(d.added, name => SkillLine(name, skills)), e);
    }
    ReadThree(a, b, c, e, ["## Skills"], Gone(SKILLS_GONE, d.removed), adds);
  }

  lemma ReadAgents(a: Announced, names: seq<string>, descriptions: map<string, string>, removed: seq<string>)
    requires forall n <- removed :: Free(n, IsNewline)
    requires forall n <- names :: AnnounceableAgent(n, DescriptionOf(descriptions, n))
    ensures ReadText(a, RenderAgents(Delta(AgentEntries(names, descriptions), removed))) ==
              Some(a.(section := Agents, agents := a.agents - Struck(removed) + SetOf(names)))
  {
    hide ReadText, Struck, Prose, AnnounceableAgent, AgentLine, Gone, Each;
    var b := a.(section := Agents);
    var c := b.(agents := a.agents - Struck(removed));
    var e := c.(agents := c.agents + SetOf(names));
    var entries := AgentEntries(names, descriptions);
    ReadAgentsTitle(a);
    ReadSingle(a, "## Available Sub-Agents");
    AgentsGoneIsProse();
    AgentsUseIsProse();
    ReadGone(b, AGENTS_GONE, removed);
    EachLength(names, name => AgentEntry(name, DescriptionOf(descriptions, name)));
    var adds := if entries == [] then [] else [AGENTS_USE] + Each(entries, AgentLine);
    if names == [] {
      assert SetOf(names) == {} && c.agents + {} == c.agents;
    } else {
      ReadAgentLines(c, names, descriptions);
      ReadBetween(c, AGENTS_USE, Each(entries, AgentLine), e);
    }
    ReadThree(a, b, c, e, ["## Available Sub-Agents"], Gone(AGENTS_GONE, removed), adds);
  }

  lemma EachLength(names: seq<string>, line: string -> string)
    ensures |Each(names, line)| == |names|
  {
  }

  lemma ReadMcp(a: Announced, servers: seq<(string, string)>, removed: seq<string>)
    requires forall n <- removed :: Free(n, IsNewline)
    requires forall s <- servers :: AnnounceableServer(s.0, s.1)
    ensures ReadText(a, RenderMcp(Delta(ServerEntries(servers), removed))) ==
              Some(a.(section := Mcp, mcp := a.mcp + ServerNames(servers) - Struck(removed)))
  {
    hide ReadText, Struck, Prose, AnnounceableServer, ServerEntries, ServerNames, Each;
    var b := a.(section := Mcp);
    var c := b.(mcp := a.mcp + ServerNames(servers));
    var e := c.(mcp := c.mcp - Struck(removed));
    ReadMcpTitle(a);
    ReadSingle(a, "## MCP Server Instructions");
    ReadServers(b, servers);
    var gone := if removed == [] then [] else ["", MCP_GONE] + Each(removed, Strike);
    if removed == [] {
      NothingStruck(c);
    } else {
      McpGoneIsProse();
      ReadStrikes(c, removed);
      ReadBetween(c, MCP_GONE, Each(removed, Strike), e);
      ReadProse(c, "");
      ReadSingle(c, "");
      ReadPiecesConcat(c, [""], [MCP_GONE] + Each(removed, Strike));
      assert gone == [""] + ([MCP_GONE] + Each(removed, Strike));
    }
    ReadThree(a, b, c, e, ["## MCP Server Instructions"], ServerEntries(servers), gone);
  }

  // ---- The whole reminder -----------------------------------------------------------------------------

  datatype Kind = SkillListing | AgentListing | McpInstructions

  type Pending = map<Kind, Delta>

  function SectionFor(pending: Pending, kind: Kind, skills: map<string, Skill>): seq<string> {
    if kind !in pending then []
    else
      match kind
      case SkillListing => [RenderSkills(pending[kind], skills)]
      case AgentListing => [RenderAgents(pending[kind])]
      case McpInstructions => [RenderMcp(pending[kind])]
  }

  function Listings(pending: Pending, skills: map<string, Skill>): seq<string> {
    SectionFor(pending, SkillListing, skills) + SectionFor(pending, AgentListing, skills)
    + SectionFor(pending, McpInstructions, skills)
  }

  const OPENING := "<system-reminder>"
  const CLOSING := "</system-reminder>"

  /** The listings between the date and autonomy sections (`before`) and the memory and draft ones. */
  function Rendered(before: seq<string>, pending: Pending, after: seq<string>,
      skills: map<string, Skill>): Option<string> {
    var sections := before + Listings(pending, skills) + after;
    if sections == [] then None else Some(OPENING + "\n" + Join(sections, "\n\n") + "\n" + CLOSING)
  }

  /** A section without the reader's own headers and without a fatal line. */
  ghost predicate Foreign(section: string) {
    forall l <- Split(section) :: !Classify(l).Fatal? && (Classify(l).Header? ==> Classify(l).section == NoSection)
  }

  /** A foreign section that starts with a header of its own. */
  ghost predicate Headed(section: string) {
    Foreign(section) && Classify(Split(section)[0]) == Header(NoSection)
  }

  /** What follows the reminder in its message has no line that means anything to the reader. */
  ghost predicate QuietTail(tail: string) {
    forall i | 1 <= i < |Split(tail)| :: SaysNothing(Split(tail)[i])
  }

  lemma {:induction false} ReadForeign(a: Announced, lines: seq<string>)
    requires a.section == NoSection
    requires forall l <- lines :: !Classify(l).Fatal? && (Classify(l).Header? ==> Classify(l).section == NoSection)
    ensures ReadLines(a, lines) == Some(a)
  {
    hide Classify;
    if lines != [] {
      var n := |lines| - 1;
      ReadForeign(a, lines[..n]);
      assert lines[n] in lines;
    }
  }

  lemma {:induction false} ReadQuiet(a: Announced, lines: seq<string>)
    requires forall i | 0 <= i < |lines| :: SaysNothing(lines[i])
    ensures ReadLines(a, lines) == Some(a)
  {
    hide Classify;
    if lines != [] {
      var n := |lines| - 1;
      ReadQuiet(a, lines[..n]);
    }
  }

  lemma ReadHeaded(a: Announced, section: string)
    requires Headed(section)
    ensures ReadText(a, section) == Some(a.(section := NoSection))
  {
    hide Classify;
    var ls := Split(section);
    var b := a.(section := NoSection);
    assert ls == [ls[0]] + ls[1..];
    ReadLinesConcat(a, [ls[0]], ls[1..]);
    assert [ls[0]][..0] == [] && ReadLines(a, []) == Some(a);
    assert ReadLines(a, [ls[0]]) == Some(b);
    ReadForeign(b, ls[1..]);
  }

  lemma {:induction false} ReadBefore(a: Announced, before: seq<string>)
    requires a.section == NoSection && forall t <- before :: Foreign(t)
    ensures ReadPieces(a, before) == Some(a)
    decreases |before|
  {
    hide Classify;
    if before != [] {
      assert before[0] in before;
      ReadForeign(a, Split(before[0]));
      ReadBefore(a, before[1..]);
    }
  }

  /** Foreign sections after the listings leave what is announced. */
  lemma {:induction false} ReadAfter(a: Announced, after: seq<string>)
    requires forall t <- after :: Headed(t)
    ensures ReadPieces(a, after) == Some(if after == [] then a else a.(section := NoSection))
    decreases |after|
  {
    hide ReadText, Headed;
    if after != [] {
      assert after[0] in after;
      ReadHeaded(a, after[0]);
      ReadAfter(a.(section := NoSection), after[1..]);
    }
  }

  lemma {:induction false} ReadBlankJoin(a: Announced, pieces: seq<string>)
    requires pieces != []
    ensures ReadText(a, Join(pieces, "\n\n")) == ReadPieces(a, pieces)
    decreases |pieces|
  {
    hide ReadText;
    if |pieces| == 1 {
      assert pieces == [pieces[0]];
      ReadSingle(a, pieces[0]);
    } else {
      var rest := Join(pieces[1..], "\n\n");
      assert Join(pieces, "\n\n") == Join([pieces[0], "", rest], "\n") by {
        JoinThree(pieces[0], "", rest);
        assert pieces[0] + "\n" + ("" + "\n" + rest) == pieces[0] + "\n\n" + rest;
      }
      ReadJoin(a, [pieces[0], "", rest]);
      assert [pieces[0], "", rest] == [pieces[0]] + [""] + [rest];
      if ReadText(a, pieces[0]).Some? {
        var b := ReadText(a, pieces[0]).value;
        ReadBlankJoin(b, pieces[1..]);
        ReadThroughBlank(a, pieces[0], b, rest);
      } else {
        assert ReadPieces(a, [pieces[0], "", rest]).None?;
      }
    }
  }

  lemma JoinThree(x: string, y: string, z: string)
    ensures Join([x, y, z], "\n") == x + "\n" + (y + "\n" + z)
  {
    assert [x, y, z][1..] == [y, z] && [y, z][1..] == [z];
    assert Join([z], "\n") == z;
    assert Join([y, z], "\n") == y + "\n" + z;
    assert Join([x, y, z], "\n") == x + "\n" + Join([y, z], "\n");
  }

  lemma ReadThroughBlank(a: Announced, x: string, b: Announced, z: string)
    requires ReadText(a, x) == Some(b)
    ensures ReadPieces(a, [x, "", z]) == ReadText(b, z)
  {
    hide ReadText;
    ReadProse(b, "");
    assert [x, "", z][1..] == ["", z] && ["", z][1..] == [z];
    ReadSingle(b, z);
  }

  lemma SplitPrefix(p: string, s: string)
    requires Free(p, IsNewline)
    ensures Split(p + s) == [p + Split(s)[0]] + Split(s)[1..]
  {
    hide Split, Free;
    var n := FirstOf(s, IsNewline);
    FreeConcat(p, s[..n], IsNewline);
    if n == |s| {
      assert s[..n] == s;
      SplitOne(s);
      SplitOne(p + s);
    } else {
      var first, rest := s[..n], s[n + 1..];
      SplitAt(first, rest);
      SplitAt(p + first, rest);
      assert s == first + "\n" + rest;
      assert p + s == p + first + "\n" + rest;
    }
  }

  lemma ReadClosing(a: Announced, tail: string)
    requires QuietTail(tail)
    ensures ReadText(a, CLOSING + tail) == Some(a)
  {
    hide Classify;
    SplitPrefix(CLOSING, tail);
    ProseSaysNothing(CLOSING + Split(tail)[0]);
    ReadQuiet(a, Split(CLOSING + tail));
  }

  /** A message is read as the sections of its reminder, one after another. */
  lemma ReadMessage(a: Announced, sections: seq<string>, tail: string, b: Announced)
    requires sections != [] && QuietTail(tail) && ReadPieces(a, sections) == Some(b)
    ensures var text := OPENING + "\n" + Join(sections, "\n\n") + "\n" + CLOSING + tail;
            ReadLines(a, TextLines(text)) == Some(b) && Starts(text, OPENING)
  {
    hide ReadText, QuietTail, Classify;
    var body := Join(sections, "\n\n");
    var text := OPENING + "\n" + body + "\n" + CLOSING + tail;
    assert text == OPENING + "\n" + (body + "\n" + (CLOSING + tail));
    StartsConcat(OPENING, "\n" + (body + "\n" + (CLOSING + tail)));
    JoinThree(OPENING, body, CLOSING + tail);
    ReadJoin(a, [OPENING, body, CLOSING + tail]);
    ReadBlankJoin(a, sections);
    ReadProse(a, OPENING);
    ReadClosing(b, tail);
    ThreePieces(a, OPENING, a, body, b, CLOSING + tail, b);
    ReadTextLines(a, text);
  }

  lemma ThreePieces(a: Announced, x: string, b: Announced, y: string, c: Announced, z: string, d: Announced)
    requires ReadText(a, x) == Some(b) && ReadText(b, y) == Some(c) && ReadText(c, z) == Some(d)
    ensures ReadPieces(a, [x, y, z]) == Some(d)
  {
    hide ReadText;
    assert [x, y, z][1..] == [y, z] && [y, z][1..] == [z];
    ReadSingle(c, z);
  }

  lemma ReadTextLines(a: Announced, text: string)
    ensures ReadLines(a, TextLines(text)) == ReadText(a, text)
  {
    hide Classify;
    ProseSaysNothing("");
    var ls := Split(text);
    if ls[|ls| - 1] == "" {
      assert ReadLines(a, ls) ==
             match ReadLines(a, ls[..|ls| - 1]) { case None => None case Some(b) => Read(b, Classify("")) };
      assert SaysNothing("");
    }
  }

  // ---- What every history announces -------------------------------------------------------------------

  /** Skills are named and on one line, agents trimmed as well, servers all three. */
  ghost predicate WellNamed(a: Announced) {
    && (forall n <- a.skills :: n != "" && Free(n, IsNewline))
    && (forall n <- a.agents :: Trimmed(n, RustSpace) && Free(n, IsNewline))
    && (forall n <- a.mcp :: n != "" && Trimmed(n, RustSpace) && Free(n, IsNewline))
  }

  lemma LineNames(line: string)
    requires Free(line, IsNewline)
    ensures var l := Classify(line);
            && (l.Added? ==> Free(l.raw, IsNewline))
            && (l.Server? ==> Trimmed(l.name, RustSpace) && Free(l.name, IsNewline))
  {
    var t := Trim(line, RustSpace);
    TrimFree(line, RustSpace, IsNewline);
    hide Trim, Starts;
    if LineOf(t).Added? {
      SliceFree(t, 4, |t|, IsNewline);
      SliceFree(t[4..], 0, StarPair(t[4..]), IsNewline);
    } else if LineOf(t).Server? {
      SliceFree(t, 4, |t|, IsNewline);
      TrimFree(t[4..], RustSpace, IsNewline);
      TrimIsTrimmed(t[4..], RustSpace);
    }
  }

  lemma AgentNameIsTrimmed(raw: string)
    requires Free(raw, IsNewline)
    ensures Trimmed(AgentName(raw), RustSpace) && Free(AgentName(raw), IsNewline)
  {
    hide Trim;
    var n := FirstOf(raw, IsColon);
    SliceFree(raw, 0, n, IsNewline);
    TrimFree(raw[..n], RustSpace, IsNewline);
    TrimIsTrimmed(raw[..n], RustSpace);
  }

  lemma ReadWellNamed(a: Announced, line: string)
    requires WellNamed(a) && Free(line, IsNewline)
    ensures Read(a, Classify(line)).Some? ==> WellNamed(Read(a, Classify(line)).value)
  {
    hide Classify, Trim, AgentName, Trimmed, Free;
    LineNames(line);
    var l := Classify(line);
    if l.Added? {
      AgentNameIsTrimmed(l.raw);
    }
  }

  lemma {:induction false} LinesWellNamed(a: Announced, lines: seq<string>)
    requires WellNamed(a) && forall l <- lines :: Free(l, IsNewline)
    ensures ReadLines(a, lines).Some? ==> WellNamed(ReadLines(a, lines).value)
  {
    hide WellNamed, Classify, Read;
    if lines != [] {
      var n := |lines| - 1;
      LinesWellNamed(a, lines[..n]);
      if ReadLines(a, lines[..n]).Some? {
        ReadWellNamed(ReadLines(a, lines[..n]).value, lines[n]);
      }
    }
  }

  lemma {:induction false} RebuiltIsWellNamed(history: seq<Message>)
    ensures Rebuild(history).Some? ==> WellNamed(Rebuild(history).value)
  {
    if history != [] {
      hide ReadLines, IsReminder;
      var n := |history| - 1;
      RebuiltIsWellNamed(history[..n]);
      SplitLinesFree(history[n].text);
      if Rebuild(history[..n]).Some? {
        LinesWellNamed(Rebuild(history[..n]).value.(section := NoSection), TextLines(history[n].text));
      }
    }
  }

  // ---- Deltas -----------------------------------------------------------------------------------------

  /** `xs` enumerates the set, in whatever order. */
  ghost predicate Lists(xs: seq<string>, s: set<string>) {
    SetOf(xs) == s
  }

  ghost predicate SkillDiff(pending: Pending, announced: set<string>, current: set<string>) {
    if announced == current then SkillListing !in pending
    else
      && SkillListing in pending
      && Lists(pending[SkillListing].added, current - announced)
      && Lists(pending[SkillListing].removed, announced - current)
  }

  function AgentNames(agents: seq<(string, string)>): set<string> {
    set a | a in agents :: a.0
  }

  ghost predicate AgentDelta(d: Delta, names: seq<string>, agents: seq<(string, string)>, announced: set<string>) {
    && Lists(names, AgentNames(agents) - announced)
    && d.added == AgentEntries(names, Descriptions(agents))
    && Lists(d.removed, announced - AgentNames(agents))
  }

  ghost predicate AgentDiff(pending: Pending, announced: set<string>, agents: seq<(string, string)>) {
    if announced == AgentNames(agents) then AgentListing !in pending
    else AgentListing in pending && exists names :: AgentDelta(pending[AgentListing], names, agents, announced)
  }

  ghost predicate McpDiff(pending: Pending, announced: set<string>, servers: seq<(string, string)>) {
    if NewServers(servers, announced) == [] && announced <= ServerNames(servers) then McpInstructions !in pending
    else
      && McpInstructions in pending
      && pending[McpInstructions].added == ServerEntries(NewServers(servers, announced))
      && Lists(pending[McpInstructions].removed, announced - ServerNames(servers))
  }

  lemma StruckFewer(names: seq<string>, n: string)
    ensures n in Struck(names) ==> n != "" && Trimmed(n, RustSpace)
    ensures n in names && n != "" && Trimmed(n, RustSpace) ==> n in Struck(names)
  {
    if n in Struck(names) {
      var m :| m in names && n == Trim(m, RustSpace);
      TrimIsTrimmed(m, RustSpace);
    }
    if n in names && Trimmed(n, RustSpace) {
      TrimOfTrimmed(n, RustSpace);
    }
  }

  lemma StruckOnlyTrims(names: seq<string>, n: string)
    requires n in Struck(names) && forall m <- names :: Trimmed(m, RustSpace)
    ensures n in names
  {
    var m :| m in names && n == Trim(m, RustSpace);
    TrimOfTrimmed(m, RustSpace);
  }

  /** Names that their struck line removes. */
  ghost predicate Strikable(names: set<string>) {
    forall n <- names :: n != "" && Trimmed(n, RustSpace)
  }

  /** Striking what is gone and adding what is new gives the current names exactly when every name to be
      struck is trimmed and not empty. */
  lemma SyncIff(announced: set<string>, current: set<string>, added: seq<string>, removed: seq<string>)
    requires Lists(added, current - announced) && Lists(removed, announced - current)
    ensures (announced - Struck(removed) + SetOf(added) == current) <==> Strikable(announced - current)
  {
    hide Trimmed, Struck;
    var result := announced - Struck(removed) + SetOf(added);
    forall n | n in announced - current
      ensures n in removed
      ensures n in result <==> !(n != "" && Trimmed(n, RustSpace))
    {
      StruckFewer(removed, n);
      assert n in SetOf(removed);
      assert n !in SetOf(added);
    }
    if Strikable(announced - current) {
      forall n | n in current
        ensures n in result
      {
        assert forall m <- removed :: m in SetOf(removed);
        if n in Struck(removed) {
          StruckOnlyTrims(removed, n);
          assert false;
        }
      }
      assert result == current;
    }
  }

  // ---- A turn -----------------------------------------------------------------------------------------

  /** What can be announced at all: every skill, agent and server that is not announced yet has a name its
      line gives back, and instructions hold no headers or struck lines. */
  ghost predicate AllAnnounceable(a: Announced, current: set<string>, skills: map<string, Skill>,
                                  agents: seq<(string, string)>, servers: seq<(string, string)>) {
    && (forall n <- current - a.skills :: Announceable(n) && OneLineTrigger(Lookup(skills, n)))
    && (forall n <- AgentNames(agents) - a.agents :: AnnounceableAgent(n, DescriptionOf(Descriptions(agents), n)))
    && (forall s <- NewServers(servers, a.mcp) :: AnnounceableServer(s.0, s.1))
  }

  /** What each part of the reminder does to what is announced. */
  lemma SkillsPart(a: Announced, pending: Pending, current: set<string>, skills: map<string, Skill>)
    requires WellNamed(a) && SkillDiff(pending, a.skills, current)
    requires forall n <- current - a.skills :: Announceable(n) && OneLineTrigger(Lookup(skills, n))
    ensures var r := ReadPieces(a, SectionFor(pending, SkillListing, skills));
            && r.Some? && r.value.agents == a.agents && r.value.mcp == a.mcp && WellNamedRest(r.value)
            && ((r.value.skills == current) <==> Strikable(a.skills - current))
  {
    hide Announceable, OneLineTrigger, Struck, Trimmed, ReadText, RenderSkills;
    if a.skills != current {
      var d := pending[SkillListing];
      assert forall n <- d.removed :: n in SetOf(d.removed);
      assert forall n <- d.added :: n in SetOf(d.added);
      ReadSkills(a, d, skills);
      ReadSingle(a, RenderSkills(d, skills));
      SyncIff(a.skills, current, d.added, d.removed);
    }
  }

  ghost predicate WellNamedRest(a: Announced) {
    && (forall n <- a.agents :: Trimmed(n, RustSpace) && Free(n, IsNewline))
    && (forall n <- a.mcp :: n != "" && Trimmed(n, RustSpace) && Free(n, IsNewline))
  }

  lemma AgentsPart(a: Announced, pending: Pending, agents: seq<(string, string)>, skills: map<string, Skill>)
    requires WellNamedRest(a) && AgentDiff(pending, a.agents, agents)
    requires forall n <- AgentNames(agents) - a.agents :: AnnounceableAgent(n, DescriptionOf(Descriptions(agents), n))
    ensures var r := ReadPieces(a, SectionFor(pending, AgentListing, skills));
            && r.Some? && r.value.skills == a.skills && r.value.mcp == a.mcp
            && ((r.value.agents == AgentNames(agents)) <==> "" !in a.agents - AgentNames(agents))
  {
    hide AnnounceableAgent, Struck, Trimmed, ReadText, RenderAgents, AgentNames, DescriptionOf;
    var current := AgentNames(agents);
    if a.agents != current {
      var d := pending[AgentListing];
      var names :| AgentDelta(d, names, agents, a.agents);
      assert forall n <- d.removed :: n in SetOf(d.removed);
      assert forall n <- names :: n in SetOf(names);
      ReadAgents(a, names, Descriptions(agents), d.removed);
      assert d == Delta(AgentEntries(names, Descriptions(agents)), d.removed);
      ReadSingle(a, RenderAgents(d));
      SyncIff(a.agents, current, names, d.removed);
    }
  }

  lemma {:induction false} NewServersAre(servers: seq<(string, string)>, announced: set<string>)
    ensures forall s :: s in NewServers(servers, announced) <==> s in servers && s.0 !in announced && s.1 != ""
  {
    if servers != [] {
      NewServersAre(servers[1..], announced);
      assert servers == [servers[0]] + servers[1..];
    }
  }

  lemma McpPart(a: Announced, pending: Pending, servers: seq<(string, string)>, skills: map<string, Skill>)
    requires (forall n <- a.mcp :: n != "" && Trimmed(n, RustSpace) && Free(n, IsNewline))
    requires McpDiff(pending, a.mcp, servers)
    requires forall s <- NewServers(servers, a.mcp) :: AnnounceableServer(s.0, s.1)
    ensures var r := ReadPieces(a, SectionFor(pending, McpInstructions, skills));
            && r.Some? && r.value.skills == a.skills && r.value.agents == a.agents
            && r.value.mcp <= ServerNames(servers) && (forall s <- servers :: s.1 != "" ==> s.0 in r.value.mcp)
  {
    hide AnnounceableServer, Struck, Trimmed, ReadText, RenderMcp;
    var unseen := NewServers(servers, a.mcp);
    NewServersAre(servers, a.mcp);
    if McpInstructions in pending {
      var d := pending[McpInstructions];
      assert forall n <- d.removed :: n in SetOf(d.removed);
      assert forall n <- d.removed :: n in a.mcp - ServerNames(servers);
      ReadMcp(a, unseen, d.removed);
      assert d == Delta(ServerEntries(unseen), d.removed);
      ReadSingle(a, RenderMcp(d));
      var result := a.mcp + ServerNames(unseen) - Struck(d.removed);
      forall n | n in a.mcp - ServerNames(servers)
        ensures n !in result
      {
        assert n in SetOf(d.removed);
        StruckFewer(d.removed, n);
      }
      forall s | s in servers && s.1 != ""
        ensures s.0 in result
      {
        if s.0 !in a.mcp {
          assert s in unseen;
        }
        if s.0 in Struck(d.removed) {
          StruckOnlyTrims(d.removed, s.0);
          assert false;
        }
      }
    }
  }

  /** The history after a turn: its reminder, if there is one, opens the user's message. */
  function Next(history: seq<Message>, text: Option<string>, tail: string): seq<Message> {
    match text
    case None => history
    case Some(t) => history + [Message("user", t + tail)]
  }

  /** After a turn exactly the current skills and agents are announced, provided that those gone could be
      struck; and every server with instructions, and no server that is gone. */
  ghost predicate Synchronised(a: Announced, b: Announced, current: set<string>,
                               agents: seq<(string, string)>, servers: seq<(string, string)>) {
    && (b.skills == current <==> Strikable(a.skills - current))
    && (b.agents == AgentNames(agents) <==> "" !in a.agents - AgentNames(agents))
    && b.mcp <= ServerNames(servers)
    && (forall s <- servers :: s.1 != "" ==> s.0 in b.mcp)
  }

  lemma ReadListings(a: Announced, pending: Pending, current: set<string>, skills: map<string, Skill>,
                     agents: seq<(string, string)>, servers: seq<(string, string)>)
    requires WellNamed(a) && AllAnnounceable(a, current, skills, agents, servers)
    requires SkillDiff(pending, a.skills, current) && AgentDiff(pending, a.agents, agents)
    requires McpDiff(pending, a.mcp, servers)
    ensures var r := ReadPieces(a, Listings(pending, skills));
            r.Some? && Synchronised(a, r.value, current, agents, servers)
  {
    hide SkillDiff, AgentDiff, McpDiff, ReadPieces, Strikable, AnnounceableAgent, AnnounceableServer, Announceable,
         OneLineTrigger, SectionFor, Trimmed, AgentNames, ServerNames, NewServers;
    SkillsPart(a, pending, current, skills);
    var x := SectionFor(pending, SkillListing, skills);
    var b := ReadPieces(a, x).value;
    AgentsPart(b, pending, agents, skills);
    var y := SectionFor(pending, AgentListing, skills);
    var c := ReadPieces(b, y).value;
    McpPart(c, pending, servers, skills);
    var z := SectionFor(pending, McpInstructions, skills);
    ReadPiecesConcat(a, x, y);
    ReadPiecesConcat(a, x + y, z);
  }

  /** A reminder is read as its listings: the sections around them, and the text behind it, say nothing. */
  lemma ReminderReads(history: seq<Message>, before: seq<string>, pending: Pending, after: seq<string>,
      skills: map<string, Skill>, tail: string, b: Announced)
    requires Rebuild(history).Some?
    requires ReadPieces(Rebuild(history).value.(section := NoSection), Listings(pending, skills)) == Some(b)
    requires (forall t <- before :: Foreign(t)) && (forall t <- after :: Headed(t)) && QuietTail(tail)
    ensures var r := Rebuild(Next(history, Rendered(before, pending, after, skills), tail));
            r.Some? && r.value == b.(section := r.value.section)
  {
    hide ReadPieces, Foreign, Headed, QuietTail, ReadLines, TextLines, Listings, IsReminder;
    var a := Rebuild(history).value.(section := NoSection);
    var listings := Listings(pending, skills);
    var c := if after == [] then b else b.(section := NoSection);
    var sections := before + listings + after;
    ReadBefore(a, before);
    ReadAfter(b, after);
    ReadPiecesConcat(a, before, listings);
    ReadPiecesConcat(a, before + listings, after);
    if sections == [] {
      assert listings == [] && after == [];
      NothingInPieces(a);
    } else {
      ReadMessage(a, sections, tail, c);
      RebuildOneMore(history, Rendered(before, pending, after, skills).value + tail);
    }
  }

  lemma NothingInPieces(a: Announced)
    ensures ReadPieces(a, []) == Some(a)
  {
  }

  /** Self-stabilising announcements: reading back the history with the new reminder. */
  lemma ReminderSynchronises(history: seq<Message>, current: set<string>, skills: map<string, Skill>,
                             agents: seq<(string, string)>, servers: seq<(string, string)>,
                             before: seq<string>, pending: Pending, after: seq<string>, tail: string)
    requires Rebuild(history).Some?
    requires AllAnnounceable(Rebuild(history).value, current, skills, agents, servers)
    requires SkillDiff(pending, Rebuild(history).value.skills, current)
    requires AgentDiff(pending, Rebuild(history).value.agents, agents)
    requires McpDiff(pending, Rebuild(history).value.mcp, servers)
    requires (forall t <- before :: Foreign(t)) && (forall t <- after :: Headed(t)) && QuietTail(tail)
    ensures var text := Rendered(before, pending, after, skills);
            var b := Rebuild(Next(history, text, tail));
            b.Some? && Synchronised(Rebuild(history).value, b.value, current, agents, servers)
  {
    hide SkillDiff, AgentDiff, McpDiff, ReadPieces, Synchronised, AllAnnounceable, Foreign, Headed, QuietTail,
         WellNamed, Listings, Next, Rendered;
    var a := Rebuild(history).value.(section := NoSection);
    RebuiltIsWellNamed(history);
    SectionHasNoSay(Rebuild(history).value, current, skills, agents, servers);
    ReadListings(a, pending, current, skills, agents, servers);
    var b := ReadPieces(a, Listings(pending, skills)).value;
    ReminderReads(history, before, pending, after, skills, tail, b);
    var c := Rebuild(Next(history, Rendered(before, pending, after, skills), tail)).value;
    SectionIsNotSynchronised(a, b, c, current, agents, servers);
    StartsAnywhere(a, c, Rebuild(history).value, current, agents, servers);
  }

  lemma SectionHasNoSay(a: Announced, current: set<string>, skills: map<string, Skill>,
                        agents: seq<(string, string)>, servers: seq<(string, string)>)
    requires WellNamed(a) && AllAnnounceable(a, current, skills, agents, servers)
    ensures var b := a.(section := NoSection);
            WellNamed(b) && AllAnnounceable(b, current, skills, agents, servers)
  {
    hide Announceable, OneLineTrigger, AnnounceableAgent, AnnounceableServer, AgentNames, NewServers, Trimmed;
  }

  lemma SectionIsNotSynchronised(a: Announced, b: Announced, c: Announced, current: set<string>,
                                 agents: seq<(string, string)>, servers: seq<(string, string)>)
    requires Synchronised(a, b, current, agents, servers) && c == b.(section := c.section)
    ensures Synchronised(a, c, current, agents, servers)
  {
    hide Strikable, AgentNames, ServerNames;
  }

  lemma StartsAnywhere(a: Announced, b: Announced, c: Announced, current: set<string>,
                       agents: seq<(string, string)>, servers: seq<(string, string)>)
    requires c == a.(section := c.section)
    ensures Synchronised(a, b, current, agents, servers) <==> Synchronised(c, b, current, agents, servers)
  {
    hide Strikable, AgentNames, ServerNames;
  }

  lemma RebuildOneMore(history: seq<Message>, text: string)
    requires Rebuild(history).Some? && Starts(text, OPENING)
    ensures Rebuild(history + [Message("user", text)]) ==
              ReadLines(Rebuild(history).value.(section := NoSection), TextLines(text))
  {
    hide ReadLines, TextLines;
    var all := history + [Message("user", text)];
    assert all[..|all| - 1] == history;
  }

  /** Once synchronised, the next turn has nothing to say about lists that have not changed. */
  lemma StaysSilent(b: Announced, current: set<string>, agents: seq<(string, string)>, servers: seq<(string, string)>,
      pending: Pending)
    requires b.skills == current && b.agents == AgentNames(agents) && b.mcp <= ServerNames(servers)
    requires forall s <- servers :: s.1 != "" ==> s.0 in b.mcp
    requires SkillDiff(pending, b.skills, current) && AgentDiff(pending, b.agents, agents)
    requires McpDiff(pending, b.mcp, servers)
    ensures SkillListing !in pending && AgentListing !in pending && McpInstructions !in pending
  {
    hide AgentNames, ServerNames;
    NoNewServers(servers, b.mcp);
  }

  lemma {:induction false} NoNewServers(servers: seq<(string, string)>, announced: set<string>)
    requires forall s <- servers :: s.1 != "" ==> s.0 in announced
    ensures NewServers(servers, announced) == []
  {
    if servers != [] {
      NoNewServers(servers[1..], announced);
    }
  }

  // ---- A name that cannot be withdrawn ------------------------------------------------------------------

  /** A skill announced with white space around its name is never withdrawn: the struck line is read as
      the trimmed name. */
  lemma UntrimmedNameStays()
    ensures var on := Rendered([], map[SkillListing := Delta([" x "], [])], [], map[]);
            var off := Rendered([], map[SkillListing := Delta([], [" x "])], [], map[]);
            var announced := Rebuild(Next([], on, ""));
            var withdrawn := Rebuild(Next(Next([], on, ""), off, ""));
            && announced.Some? && announced.value.skills == {" x "}
            && withdrawn.Some? && withdrawn.value.skills != {}
  {
    hide Rebuild, Rendered, Next, Announceable, Foreign, Headed, Trimmed;
    var on: Pending := map[SkillListing := Delta([" x "], [])];
    var off: Pending := map[SkillListing := Delta([], [" x "])];
    EmptyHistory();
    SpacedName();
    ReminderSynchronises([], {" x "}, map[], [], [], [], on, [], "");
    var h := Next([], Rendered([], on, [], map[]), "");
    var b := Rebuild(h).value;
    assert b.skills == {" x "};
    assert " x " in b.skills - {};
    ReminderSynchronises(h, {}, map[], [], [], [], off, [], "");
  }

  lemma EmptyHistory()
    ensures Rebuild([]) == Some(NOTHING)
  {
  }

  lemma SpacedName()
    ensures Announceable(" x ") && !Trimmed(" x ", RustSpace)
  {
    var s := " x " + "**";
    assert s[3] == '*' && s[4] == '*' && s[0] == ' ' && s[1] == 'x' && s[2] == ' ';
  }

  // ---- Instructions of any kind -------------------------------------------------------------------------

  /** The section in force after some lines. */
  function SectionAfter(s: Section, lines: seq<string>): Section {
    if lines == [] then s
    else
      match Classify(lines[|lines| - 1])
      case Header(section) => section
      case _ => SectionAfter(s, lines[..|lines| - 1])
  }

  /** Line `j` announces the server `n`. */
  predicate Claims(s: Section, lines: seq<string>, j: nat, n: string)
    requires j < |lines|
  {
    Classify(lines[j]) == Server(n) && SectionAfter(s, lines[..j]) == Mcp
  }

  /** Line `j` withdraws the server `n`. */
  predicate Strikes(s: Section, lines: seq<string>, j: nat, n: string)
    requires j < |lines|
  {
    Classify(lines[j]) == Removed(n) && SectionAfter(s, lines[..j]) == Mcp
  }

  ghost predicate Unstruck(s: Section, lines: seq<string>, i: nat, n: string) {
    forall k | i <= k < |lines| :: !Strikes(s, lines, k, n)
  }

  /** The server `n` is announced once the lines are read: by one of them, or before (`was`), and no line
      withdraws it after that. */
  ghost predicate Announces(s: Section, lines: seq<string>, n: string, was: bool) {
    || (was && Unstruck(s, lines, 0, n))
    || exists j | 0 <= j < |lines| :: Claims(s, lines, j, n) && Unstruck(s, lines, j + 1, n)
  }

  lemma EarlierLines(s: Section, lines: seq<string>, l: string, j: nat, n: string)
    requires j < |lines|
    ensures Claims(s, lines + [l], j, n) <==> Claims(s, lines, j, n)
    ensures Strikes(s, lines + [l], j, n) <==> Strikes(s, lines, j, n)
  {
    assert (lines + [l])[..j] == lines[..j];
  }

  lemma UnstruckStep(s: Section, lines: seq<string>, l: string, i: nat, n: string)
    requires i <= |lines|
    ensures Unstruck(s, lines + [l], i, n) <==>
              Unstruck(s, lines, i, n) && !(Classify(l) == Removed(n) && SectionAfter(s, lines) == Mcp)
  {
    hide Classify, SectionAfter;
    var longer := lines + [l];
    assert longer[..|lines|] == lines;
    forall k | i <= k < |lines|
      ensures Strikes(s, longer, k, n) <==> Strikes(s, lines, k, n)
    {
      EarlierLines(s, lines, l, k, n);
    }
    if Unstruck(s, longer, i, n) {
      forall k | i <= k < |lines|
        ensures !Strikes(s, lines, k, n)
      {
        assert !Strikes(s, longer, k, n);
      }
      assert !Strikes(s, longer, |lines|, n);
    }
  }

  /** One more line decides when it speaks of the server in its section. */
  lemma AnnouncesStep(s: Section, lines: seq<string>, l: string, n: string, was: bool)
    ensures Announces(s, lines + [l], n, was) <==>
              if SectionAfter(s, lines) == Mcp && Classify(l) == Server(n) then true
              else if SectionAfter(s, lines) == Mcp && Classify(l) == Removed(n) then false
              else Announces(s, lines, n, was)
  {
    hide Classify, SectionAfter, Unstruck;
    var longer := lines + [l];
    var m := |lines|;
    assert longer[..m] == lines;
    NothingAfter(s, longer, n);
    UnstruckStep(s, lines, l, 0, n);
    forall j | 0 <= j < m
      ensures Claims(s, longer, j, n) <==> Claims(s, lines, j, n)
      ensures Unstruck(s, longer, j + 1, n) <==>
                Unstruck(s, lines, j + 1, n) && !(Classify(l) == Removed(n) && SectionAfter(s, lines) == Mcp)
    {
      EarlierLines(s, lines, l, j, n);
      UnstruckStep(s, lines, l, j + 1, n);
    }
    assert Claims(s, longer, m, n) <==> Classify(l) == Server(n) && SectionAfter(s, lines) == Mcp;
    hide Claims;
    if Announces(s, lines, n, was) && !(was && Unstruck(s, lines, 0, n)) {
      var j :| 0 <= j < m && Claims(s, lines, j, n) && Unstruck(s, lines, j + 1, n);
      assert Claims(s, longer, j, n);
    }
  }

  lemma NothingAfter(s: Section, lines: seq<string>, n: string)
    ensures Unstruck(s, lines, |lines|, n)
  {
  }

  lemma ReadServersOnce(a: Announced, l: Line, n: string)
    requires n != "" && Read(a, l).Some?
    ensures var b := Read(a, l).value;
            && b.section == (if l.Header? then l.section else a.section)
            && (n in b.mcp <==>
                  if a.section == Mcp && l == Server(n) then true
                  else if a.section == Mcp && l == Removed(n) then false
                  else n in a.mcp)
  {
    hide AgentName;
  }

  lemma SectionStep(s: Section, lines: seq<string>, l: string)
    ensures SectionAfter(s, lines + [l]) == if Classify(l).Header? then Classify(l).section else SectionAfter(s, lines)
  {
    hide Classify;
    assert (lines + [l])[..|lines|] == lines;
  }

  lemma ReadStep(a: Announced, lines: seq<string>, l: string)
    ensures ReadLines(a, lines + [l]) ==
              match ReadLines(a, lines) { case None => None case Some(b) => Read(b, Classify(l)) }
  {
    hide Classify, Read;
    assert (lines + [l])[..|lines|] == lines;
  }

  /** What any lines without a fatal one make of the announced servers. */
  lemma {:induction false} ServersAfter(a: Announced, lines: seq<string>, n: string)
    requires n != "" && ReadLines(a, lines).Some?
    ensures ReadLines(a, lines).value.section == SectionAfter(a.section, lines)
    ensures n in ReadLines(a, lines).value.mcp <==> Announces(a.section, lines, n, n in a.mcp)
  {
    if lines == [] {
      SaysNothingYet(a.section, n, n in a.mcp);
    } else {
      hide Classify, Announces, Read, ReadLines, SectionAfter;
      var init, l := lines[..|lines| - 1], lines[|lines| - 1];
      assert lines == init + [l];
      ReadStep(a, init, l);
      ServersAfter(a, init, n);
      ReadServersOnce(ReadLines(a, init).value, Classify(l), n);
      SectionStep(a.section, init, l);
      AnnouncesStep(a.section, init, l, n, n in a.mcp);
    }
  }

  lemma SaysNothingYet(s: Section, n: string, was: bool)
    ensures Announces(s, [], n, was) <==> was
  {
  }

  /** All the lines of some texts. */
  function LinesOf(pieces: seq<string>): seq<string> {
    if pieces == [] then [] else Split(pieces[0]) + LinesOf(pieces[1..])
  }

  lemma {:induction false} PiecesAreLines(a: Announced, pieces: seq<string>)
    ensures ReadPieces(a, pieces) == ReadLines(a, LinesOf(pieces))
    decreases |pieces|
  {
    hide ReadLines;
    if pieces == [] {
      assert ReadLines(a, []) == Some(a) by { NothingRead(a); }
    } else {
      ReadLinesConcat(a, Split(pieces[0]), LinesOf(pieces[1..]));
      if ReadText(a, pieces[0]).Some? {
        PiecesAreLines(ReadText(a, pieces[0]).value, pieces[1..]);
      }
    }
  }

  lemma NothingRead(a: Announced)
    ensures ReadLines(a, []) == Some(a)
  {
  }

  lemma {:induction false} PiecesWellNamed(a: Announced, pieces: seq<string>)
    requires WellNamed(a)
    ensures ReadPieces(a, pieces).Some? ==> WellNamed(ReadPieces(a, pieces).value)
    decreases |pieces|
  {
    hide WellNamed, ReadLines;
    if pieces != [] {
      SplitLinesFree(pieces[0]);
      LinesWellNamed(a, Split(pieces[0]));
      if ReadText(a, pieces[0]).Some? {
        PiecesWellNamed(ReadText(a, pieces[0]).value, pieces[1..]);
      }
    }
  }

  /** Struck names outside a section withdraw nothing. */
  lemma {:induction false} IgnoredStrikes(a: Announced, names: seq<string>)
    requires a.section == NoSection && forall n <- names :: Free(n, IsNewline)
    ensures ReadPieces(a, Each(names, Strike)) == Some(a)
    decreases |names|
  {
    if names == [] {
      assert Each(names, Strike) == [];
    } else {
      hide ReadText, Classify, Trim, Each, Strike;
      EachCons(names, Strike);
      StrikeIsOneLine(names[0]);
      ReadOneLine(a, Strike(names[0]));
      ClassifyStrike(names[0]);
      IgnoredStrikes(a, names[1..]);
      assert Each(names, Strike)[1..] == Each(names[1..], Strike);
    }
  }

  /** The withdrawn servers at the end of the section, in whatever section the instructions left. */
  lemma ReadServersGone(a: Announced, removed: seq<string>)
    requires forall n <- removed :: Free(n, IsNewline)
    ensures var gone := if removed == [] then [] else ["", MCP_GONE] + Each(removed, Strike);
            var r := ReadPieces(a, gone);
            r.Some? && r.value.mcp == if a.section == Mcp then a.mcp - Struck(removed) else a.mcp
  {
    hide ReadText, Struck, Prose, Each;
    if removed == [] {
      NothingStruck(a);
      assert Struck([]) == {} by { NoneStruck(); }
    } else {
      McpGoneIsProse();
      if a.section == NoSection {
        IgnoredStrikes(a, removed);
      } else {
        ReadStrikes(a, removed);
      }
      var b := ReadPieces(a, Each(removed, Strike)).value;
      ReadBetween(a, MCP_GONE, Each(removed, Strike), b);
      ReadProse(a, "");
      ReadSingle(a, "");
      ReadPiecesConcat(a, [""], [MCP_GONE] + Each(removed, Strike));
      assert ["", MCP_GONE] + Each(removed, Strike) == [""] + ([MCP_GONE] + Each(removed, Strike));
    }
  }

  lemma NoneStruck()
    ensures Struck([]) == {}
  {
  }

  /** The lines that the servers to be announced add to the reminder. */
  function InstructionLines(servers: seq<(string, string)>, announced: set<string>): seq<string> {
    LinesOf(ServerEntries(NewServers(servers, announced)))
  }

  /** The server `n` is announced after the reminder: the new servers' lines announce it, and it is not
      withdrawn at the end, as a server that is gone is when these lines leave the section open. */
  ghost predicate AnnouncedNext(servers: seq<(string, string)>, announced: set<string>, n: string) {
    var lines := InstructionLines(servers, announced);
    && Announces(Mcp, lines, n, n in announced)
    && !(SectionAfter(Mcp, lines) == Mcp && n in announced && n !in ServerNames(servers))
  }

  /** The part of the reminder about servers, with any instructions that hold no fatal line. */
  lemma AnyMcpPart(a: Announced, pending: Pending, servers: seq<(string, string)>, skills: map<string, Skill>)
    requires WellNamedRest(a) && McpDiff(pending, a.mcp, servers)
    requires !HasFatal(InstructionLines(servers, a.mcp))
    ensures var r := ReadPieces(a, SectionFor(pending, McpInstructions, skills));
            r.Some? && forall n | n != "" :: n in r.value.mcp <==> AnnouncedNext(servers, a.mcp, n)
  {
    hide ReadText, HasFatal, Announces, Trimmed, RenderMcp, Struck, Each;
    var unseen := NewServers(servers, a.mcp);
    if McpInstructions !in pending {
      forall n | n != "" {
        SaysNothingYet(Mcp, n, n in a.mcp);
      }
      assert InstructionLines(servers, a.mcp) == [];
    } else {
      var d := pending[McpInstructions];
      assert forall n <- d.removed :: n in SetOf(d.removed);
      AnyRenderMcp(a, unseen, d.removed);
      ReadSingle(a, RenderMcp(d));
      assert d == Delta(ServerEntries(unseen), d.removed);
      forall n | n != ""
        ensures n in Struck(d.removed) <==> n in a.mcp && n !in ServerNames(servers)
      {
        assert n in d.removed <==> n in SetOf(d.removed);
        StruckFewer(d.removed, n);
        if n in Struck(d.removed) {
          StruckOnlyTrims(d.removed, n);
        }
      }
    }
  }

  lemma AnyRenderMcp(a: Announced, servers: seq<(string, string)>, removed: seq<string>)
    requires forall n <- removed :: Free(n, IsNewline)
    requires !HasFatal(LinesOf(ServerEntries(servers)))
    ensures var lines := LinesOf(ServerEntries(servers));
            var r := ReadText(a, RenderMcp(Delta(ServerEntries(servers), removed)));
            r.Some? && forall n | n != "" ::
              n in r.value.mcp <==> Announces(Mcp, lines, n, n in a.mcp)
                                    && !(SectionAfter(Mcp, lines) == Mcp && n in Struck(removed))
  {
    hide ReadText, HasFatal, Announces, Struck, Each, ServerEntries, LinesOf;
    var b := a.(section := Mcp);
    var entries := ServerEntries(servers);
    var lines := LinesOf(entries);
    ReadMcpTitle(a);
    ReadSingle(a, "## MCP Server Instructions");
    PiecesAreLines(b, entries);
    LinesPanicIff(b, lines);
    var c := ReadPieces(b, entries).value;
    forall n | n != ""
      ensures c.section == SectionAfter(Mcp, lines) && (n in c.mcp <==> Announces(Mcp, lines, n, n in a.mcp))
    {
      ServersAfter(b, lines, n);
    }
    ServersAfter(b, lines, "x");
    ReadServersGone(c, removed);
    var gone := if removed == [] then [] else ["", MCP_GONE] + Each(removed, Strike);
    ReadThree(a, b, c, ReadPieces(c, gone).value, ["## MCP Server Instructions"], entries, gone);
  }

  /** What can be announced when the servers' instructions may hold anything but fatal lines. */
  ghost predicate MostAnnounceable(a: Announced, current: set<string>, skills: map<string, Skill>,
      agents: seq<(string, string)>, servers: seq<(string, string)>) {
    && (forall n <- current - a.skills :: Announceable(n) && OneLineTrigger(Lookup(skills, n)))
    && (forall n <- AgentNames(agents) - a.agents :: AnnounceableAgent(n, DescriptionOf(Descriptions(agents), n)))
    && !HasFatal(InstructionLines(servers, a.mcp))
  }

  lemma AnyListings(a: Announced, pending: Pending, current: set<string>, skills: map<string, Skill>,
      agents: seq<(string, string)>, servers: seq<(string, string)>)
    requires WellNamed(a) && MostAnnounceable(a, current, skills, agents, servers)
    requires SkillDiff(pending, a.skills, current) && AgentDiff(pending, a.agents, agents)
    requires McpDiff(pending, a.mcp, servers)
    ensures var r := ReadPieces(a, Listings(pending, skills));
            r.Some? && forall n | n != "" :: n in r.value.mcp <==> AnnouncedNext(servers, a.mcp, n)
  {
    hide SkillDiff, AgentDiff, McpDiff, ReadPieces, Strikable, AnnounceableAgent, Announceable, HasFatal,
         OneLineTrigger, SectionFor, Trimmed, AgentNames, ServerNames, NewServers, AnnouncedNext, InstructionLines;
    SkillsPart(a, pending, current, skills);
    var x := SectionFor(pending, SkillListing, skills);
    var b := ReadPieces(a, x).value;
    AgentsPart(b, pending, agents, skills);
    var y := SectionFor(pending, AgentListing, skills);
    var c := ReadPieces(b, y).value;
    PiecesWellNamed(a, x);
    PiecesWellNamed(b, y);
    AnyMcpPart(c, pending, servers, skills);
    var z := SectionFor(pending, McpInstructions, skills);
    ReadPiecesConcat(a, x, y);
    ReadPiecesConcat(a, x + y, z);
  }

  /** The announced servers after a turn, exactly, whatever headers, bullets and struck lines the instructions
      hold: a server is announced when its own lines or others' announce it last.  So the announced servers
      stay within the current ones exactly when the instructions announce no other name in the end, and
      leave the section open if a server is gone that they do not withdraw themselves. */
  lemma ServersAnnounced(history: seq<Message>, current: set<string>, skills: map<string, Skill>,
      agents: seq<(string, string)>, servers: seq<(string, string)>,
      before: seq<string>, pending: Pending, after: seq<string>, tail: string)
    requires Rebuild(history).Some?
    requires MostAnnounceable(Rebuild(history).value, current, skills, agents, servers)
    requires SkillDiff(pending, Rebuild(history).value.skills, current)
    requires AgentDiff(pending, Rebuild(history).value.agents, agents)
    requires McpDiff(pending, Rebuild(history).value.mcp, servers)
    requires (forall t <- before :: Foreign(t)) && (forall t <- after :: Headed(t)) && QuietTail(tail)
    ensures var a, b := Rebuild(history).value, Rebuild(Next(history, Rendered(before, pending, after, skills), tail));
            && b.Some?
            && (forall n :: n in b.value.mcp <==> n != "" && AnnouncedNext(servers, a.mcp, n))
            && (b.value.mcp <= ServerNames(servers) <==>
                  forall n | n != "" && n !in ServerNames(servers) :: !AnnouncedNext(servers, a.mcp, n))
  {
    hide SkillDiff, AgentDiff, McpDiff, ReadPieces, Foreign, Headed, QuietTail, Next, Rendered, WellNamed, Listings,
      HasFatal, AnnouncedNext, InstructionLines, AnnounceableAgent, Announceable, OneLineTrigger, AgentNames,
          ServerNames;
    var a := Rebuild(history).value.(section := NoSection);
    RebuiltIsWellNamed(history);
    NamesAnywhere(Rebuild(history).value);
    AnyListings(a, pending, current, skills, agents, servers);
    PiecesWellNamed(a, Listings(pending, skills));
    var b := ReadPieces(a, Listings(pending, skills)).value;
    NeverEmpty(b);
    ReminderReads(history, before, pending, after, skills, tail, b);
  }

  lemma NamesAnywhere(a: Announced)
    requires WellNamed(a)
    ensures WellNamed(a.(section := NoSection))
  {
    hide Trimmed;
  }

  lemma NeverEmpty(a: Announced)
    requires WellNamed(a)
    ensures "" !in a.mcp
  {
    hide Trimmed;
  }

  lemma TitleIsOneLine(name: string)
    requires ServerName(name)
    ensures Free("### " + name, IsNewline) && Classify("### " + name) == Server(name)
  {
    ClassifyServer(name);
    assert Free("### ", IsNewline);
    hide Classify;
    FreeConcat("### ", name, IsNewline);
  }

  lemma NamedEntry(name: string, other: string)
    requires ServerName(name) && ServerName(other)
    ensures Split(ServerEntry(name, "### " + other)) == ["### " + name, "### " + other]
  {
    hide Split, Free, Classify, Trimmed;
    TitleIsOneLine(name);
    TitleIsOneLine(other);
    SplitAt("### " + name, "### " + other);
    SplitOne("### " + other);
  }

  lemma OneServer(name: string, instructions: string)
    requires instructions != ""
    ensures var servers := [(name, instructions)];
            && NewServers(servers, {}) == servers
            && InstructionLines(servers, {}) == Split(ServerEntry(name, instructions))
  {
    hide ServerEntry, Split;
    var servers := [(name, instructions)];
    assert servers[1..] == [] && NewServers([], {}) == [];
    var entries := ServerEntries(servers);
    assert entries == [ServerEntry(name, instructions)] && entries[1..] == [] && LinesOf([]) == [];
  }

  lemma NamedIsAnnounced(name: string, other: string)
    requires ServerName(name) && ServerName(other) && name != other
    ensures var servers := [(name, "### " + other)];
            && NewServers(servers, {}) == servers && !HasFatal(InstructionLines(servers, {}))
            && AnnouncedNext(servers, {}, other) && other !in ServerNames(servers)
  {
    NamedEntry(name, other);
    OneServer(name, "### " + other);
    TitleIsOneLine(name);
    TitleIsOneLine(other);
    hide Classify, InstructionLines, ServerName, Split, ServerEntry;
    var lines := InstructionLines([(name, "### " + other)], {});
    assert lines[..1] == ["### " + name] && ["### " + name][..0] == [];
    assert SectionAfter(Mcp, []) == Mcp && SectionAfter(Mcp, lines[..1]) == Mcp;
    assert Claims(Mcp, lines, 1, other) && Unstruck(Mcp, lines, 2, other);
  }

  lemma NamedDiff(servers: seq<(string, string)>, pending: Pending)
    requires servers != [] && NewServers(servers, {}) == servers
    requires pending == map[McpInstructions := Delta(ServerEntries(servers), [])]
    ensures McpDiff(pending, {}, servers) && SkillDiff(pending, {}, {}) && AgentDiff(pending, {}, [])
  {
    hide ServerEntry;
    assert {} - ServerNames(servers) == SetOf([]);
    assert AgentNames([]) == {};
  }

  lemma QuietEmpty()
    ensures QuietTail("")
  {
    SplitOne("");
  }

  /** Instructions that name a server: `name` says `### other`, and `other` is announced, only to be withdrawn
      by the next turn's comparison. */
  lemma InstructionsNameServer(name: string, other: string)
    requires ServerName(name) && ServerName(other) && name != other
    ensures var servers := [(name, "### " + other)];
            var pending: Pending := map[McpInstructions := Delta(ServerEntries(servers), [])];
            var b := Rebuild(Next([], Rendered([], pending, [], map[]), ""));
            && McpDiff(pending, {}, servers) && other !in ServerNames(servers)
            && b.Some? && other in b.value.mcp
            && forall next: Pending | McpDiff(next, b.value.mcp, servers) ::
                 McpInstructions in next && other in next[McpInstructions].removed
  {
    var servers := [(name, "### " + other)];
    var pending: Pending := map[McpInstructions := Delta(ServerEntries(servers), [])];
    EmptyHistory();
    NamedIsAnnounced(name, other);
    NamedDiff(servers, pending);
    QuietEmpty();
    assert AgentNames([]) == {};
    hide Rebuild, Rendered, Next, Classify, AnnouncedNext, HasFatal, InstructionLines, QuietTail, ServerEntries,
      ServerName, SkillDiff, AgentDiff;
    ServersAnnounced([], {}, map[], [], servers, [], pending, [], "");
    var b := Rebuild(Next([], Rendered([], pending, [], map[]), "")).value;
    assert other in b.mcp;
    forall next: Pending | McpDiff(next, b.mcp, servers)
      ensures McpInstructions in next && other in next[McpInstructions].removed
    {
      StillListed(next, b.mcp, servers, other);
    }
  }

  lemma StillListed(next: Pending, announced: set<string>, servers: seq<(string, string)>, n: string)
    requires McpDiff(next, announced, servers) && n in announced && n !in ServerNames(servers)
    ensures McpInstructions in next && n in next[McpInstructions].removed
  {
    hide NewServers, ServerEntries, ServerNames;
    assert n in announced - ServerNames(servers);
    assert n in SetOf(next[McpInstructions].removed);
  }

  // ---- What the reminder tells --------------------------------------------------------------------

  /** The words of a text: its longest pieces without white space, in order (`split_whitespace`). */
  function Words(s: string): (ws: seq<string>)
    ensures s != "" && !RustSpace(s[0]) ==> ws != []
    decreases |s|
  {
    if s == "" then []
    else
      var rest := Words(s[1..]);
      if RustSpace(s[0]) then rest
      else if |s| == 1 || RustSpace(s[1]) then [[s[0]]] + rest
      else [[s[0]] + rest[0]] + rest[1..]
  }

  /** White space separates words. */
  lemma {:induction false} WordsApart(x: string, c: char, y: string)
    requires RustSpace(c)
    ensures Words(x + [c] + y) == Words(x) + Words(y)
    decreases |x|
  {
    var s := x + [c] + y;
    if x == "" {
      assert s[1..] == y;
    } else {
      assert s[1..] == x[1..] + [c] + y && s[0] == x[0];
      assert s[1] == if |x| == 1 then c else x[1];
      hide RustSpace;
      WordsApart(x[1..], c, y);
    }
  }

  /** A text without white space is one word. */
  lemma {:induction false} WordsOfWord(w: string)
    requires w != "" && Free(w, RustSpace)
    ensures Words(w) == [w]
    decreases |w|
  {
    assert w == [w[0]] + w[1..];
    if |w| > 1 {
      assert !RustSpace(w[0]) && !RustSpace(w[1]) && forall i | 0 <= i < |w[1..]| :: !RustSpace(w[1..][i]);
      hide RustSpace;
      WordsOfWord(w[1..]);
      var rest := Words(w[1..]);
      assert Words(w) == [[w[0]] + rest[0]] + rest[1..] && rest[1..] == [];
    } else {
      assert w[1..] == "" && w == [w[0]] && !RustSpace(w[0]) && Words("") == [];
    }
  }

  lemma {:induction false} WordsAreSolid(s: string)
    ensures forall w <- Words(s) :: w != "" && Free(w, RustSpace)
    decreases |s|
  {
    if s != "" {
      WordsAreSolid(s[1..]);
      var rest := Words(s[1..]);
      if !RustSpace(s[0]) {
        if |s| > 1 && !RustSpace(s[1]) {
          assert rest[0] in rest && forall w <- rest[1..] :: w in rest;
          FreeCons(s[0], rest[0]);
        } else {
          FreeCons(s[0], "");
          assert [s[0]] + "" == [s[0]];
        }
      }
    }
  }

  lemma FreeCons(c: char, w: string)
    requires !RustSpace(c) && Free(w, RustSpace)
    ensures Free([c] + w, RustSpace)
  {
  }

  lemma {:induction false} WordsOfTrimmed(s: string)
    ensures Words(TrimStart(s, RustSpace)) == Words(s)
    decreases |s|
  {
    if s != "" && RustSpace(s[0]) {
      WordsOfTrimmed(s[1..]);
    }
  }

  lemma JoinCons(w: string, ws: seq<string>, sep: string)
    ensures Join([w] + ws, sep) == if ws == [] then w else w + sep + Join(ws, sep)
  {
    assert ([w] + ws)[1..] == ws;
  }

  /** Words joined by single spaces are cut into the same words again. */
  lemma {:induction false} WordsOfJoined(ws: seq<string>)
    requires forall w <- ws :: w != "" && Free(w, RustSpace)
    ensures Words(Join(ws, " ")) == ws
    ensures Join(ws, " ") == "" <==> ws == []
  {
    if ws != [] {
      assert ws == [ws[0]] + ws[1..] && ws[0] in ws && forall w <- ws[1..] :: w in ws;
      WordsOfJoined(ws[1..]);
      WordsOfWord(ws[0]);
      JoinCons(ws[0], ws[1..], " ");
      hide RustSpace, Words, Join;
      if |ws| > 1 {
        OneSpace();
        WordsApart(ws[0], ' ', Join(ws[1..], " "));
      }
    }
  }

  lemma OneSpace()
    ensures RustSpace(' ')
  {
  }

  /** Folding keeps exactly the words and puts single spaces between them. */
  lemma {:induction false} FoldIsWords(s: string)
    ensures Fold(s) == Join(Words(s), " ")
    decreases |s|
  {
    TrimStartSpec(s, RustSpace);
    var t := TrimStart(s, RustSpace);
    WordsOfTrimmed(s);
    if t != "" {
      var n := FirstOf(t, RustSpace);
      var rest := t[n..];
      FoldIsWords(rest);
      FirstWord(t);
      WordsAreSolid(rest);
      hide Words, Join, RustSpace;
      WordsOfJoined(Words(rest));
      JoinCons(t[..n], Words(rest), " ");
    }
  }

  lemma FirstWord(t: string)
    requires t != "" && !RustSpace(t[0])
    ensures var n := FirstOf(t, RustSpace); 0 < n <= |t| && Words(t) == [t[..n]] + Words(t[n..])
  {
    hide Words;
    WordUpTo(t, FirstOf(t, RustSpace));
  }

  lemma WordUpTo(t: string, n: nat)
    requires 0 < n <= |t| && Free(t[..n], RustSpace) && (n < |t| ==> RustSpace(t[n]))
    ensures Words(t) == [t[..n]] + Words(t[n..])
  {
    hide RustSpace, Words;
    if n < |t| {
      assert t == t[..n] + [t[n]] + t[n + 1..] && t[n..] == [t[n]] + t[n + 1..];
      WordBefore(t[..n], t[n], t[n + 1..]);
    } else {
      assert t[..n] == t && t[n..] == "";
      WordsOfWord(t);
      NoWords();
    }
  }

  lemma NoWords()
    ensures Words("") == []
  {
  }

  lemma WordBefore(w: string, c: char, y: string)
    requires w != "" && Free(w, RustSpace) && RustSpace(c)
    ensures Words(w + [c] + y) == [w] + Words([c] + y)
  {
    hide RustSpace, Words;
    WordsOfWord(w);
    WordsApart(w, c, y);
    WordsApart("", c, y);
    assert "" + [c] + y == [c] + y;
    NoWords();
  }

  /** `line` stands in `text`, with newlines around it. */
  ghost predicate Bears(text: string, line: string) {
    exists pre: string, post: string :: text == pre + ("\n" + line + "\n") + post
  }

  lemma BearsWider(pre: string, text: string, post: string, line: string)
    requires Bears(text, line)
    ensures Bears(pre + text + post, line)
  {
    var p, q :| text == p + ("\n" + line + "\n") + q;
    assert pre + text + post == (pre + p) + ("\n" + line + "\n") + (q + post);
  }

  lemma BearsDeeper(text: string, piece: string, line: string)
    requires Bears(text, piece) && Bears("\n" + piece + "\n", line)
    ensures Bears(text, line)
  {
    var p, q :| text == p + ("\n" + piece + "\n") + q;
    BearsWider(p, "\n" + piece + "\n", q, line);
  }

  lemma BearsItself(line: string)
    ensures Bears("\n" + line + "\n", line)
  {
    assert "\n" + line + "\n" == "" + ("\n" + line + "\n") + "";
  }

  lemma FourParts(x: string, b: string, y: string)
    ensures "\n" + (x + ("\n" + b) + y) + "\n" == "" + ("\n" + x + "\n") + (b + y + "\n")
  {
    assert "\n" + (x + ("\n" + b) + y) + "\n" == "\n" + x + "\n" + (b + y + "\n");
  }

  lemma LastParts(x: string, a: string, y: string)
    ensures "\n" + (x + (a + "\n") + y) + "\n" == ("\n" + x + a) + ("\n" + y + "\n") + ""
  {
    assert "\n" + (x + (a + "\n") + y) + "\n" == "\n" + x + a + ("\n" + y + "\n");
  }

  /** A joined text bears each of its parts. */
  lemma {:induction false} JoinBears(parts: seq<string>, a: string, b: string, line: string)
    requires a + "\n" == "\n" + b && line in parts
    ensures Bears("\n" + Join(parts, a + "\n") + "\n", line)
    decreases |parts|
  {
    var sep := a + "\n";
    var rest := parts[1..];
    assert parts == [parts[0]] + rest;
    JoinCons(parts[0], rest, sep);
    hide Join, Bears;
    if line == parts[0] {
      BearsItself(line);
      if rest != [] {
        FourParts(line, b, Join(rest, sep));
        BearsWider("", "\n" + line + "\n", b + Join(rest, sep) + "\n", line);
      }
    } else {
      JoinBears(rest, a, b, line);
      LastParts(parts[0], a, Join(rest, sep));
      BearsWider("\n" + parts[0] + a, "\n" + Join(rest, sep) + "\n", "", line);
    }
  }

  /** A bullet that gives a skill's name, then the words of its summary behind a colon, one space apart
      and nothing when it has none, then its trigger in brackets exactly when it has one. */
  ghost predicate SaysOfSkill(line: string, name: string, skills: map<string, Skill>) {
    if name !in skills then line == "- **" + name + "**"
    else
      exists about: string, use: string ::
        && line == "- **" + name + "**" + (about + use)
        && (if Words(skills[name].summary) == [] then about == "" else SaysWords(about, Words(skills[name].summary)))
        && (match skills[name].trigger
            case None => use == ""
            case Some(w) => use == " (trigger: " + w + ")")
  }

  /** A colon, and behind it these words with one space between any two. */
  ghost predicate SaysWords(about: string, words: seq<string>) {
    about == ": " + Join(words, " ") && Words(Join(words, " ")) == words
  }

  lemma SkillLineSays(name: string, skills: map<string, Skill>)
    ensures SaysOfSkill(SkillLine(name, skills), name, skills)
  {
    hide Words, Fold, Join;
    if name in skills {
      var Skill(summary, trigger) := skills[name];
      FoldIsWords(summary);
      WordsAreSolid(summary);
      WordsOfJoined(Words(summary));
      var about := if Fold(summary) == "" then "" else ": " + Fold(summary);
      var use := if trigger.Some? then " (trigger: " + trigger.value + ")" else "";
      assert SkillLine(name, skills) == "- **" + name + "**" + (about + use);
    } else {
      assert "- **" + name + "**" + "" == "- **" + name + "**";
    }
  }

  ghost predicate TellsSkill(text: string, name: string, skills: map<string, Skill>) {
    exists line: string :: Bears(text, line) && SaysOfSkill(line, name, skills)
  }

  function AgentSays(name: string, description: string): string {
    if description == "" then "- **" + name + "**" else "- **" + name + ": " + description + "**"
  }

  /** No later entry has the name of the one at `k`. */
  ghost predicate LastOfName(agents: seq<(string, string)>, k: int)
    requires 0 <= k < |agents|
  {
    forall j | k < j < |agents| :: agents[j].0 != agents[k].0
  }

  /** A reminder describes every new skill, agent and server, strikes every one that is gone, and carries
      the other sections. */
  ghost predicate Tells(text: string, a: Announced, current: set<string>, skills: map<string, Skill>,
                        agents: seq<(string, string)>, servers: seq<(string, string)>) {
    && (forall n <- current - a.skills :: TellsSkill(text, n, skills))
    && (forall n <- a.skills - current :: Bears(text, "- ~~" + n + "~~"))
    && (forall k | 0 <= k < |agents| && LastOfName(agents, k) && agents[k].0 !in a.agents ::
          Bears(text, AgentSays(agents[k].0, agents[k].1)))
    && (forall n <- a.agents - AgentNames(agents) :: Bears(text, "- ~~" + n + "~~"))
    && (forall s <- servers | s.0 !in a.mcp && s.1 != "" :: Bears(text, "### " + s.0 + "\n" + s.1))
    && (forall n <- a.mcp - ServerNames(servers) :: Bears(text, "- ~~" + n + "~~"))
  }

  ghost predicate NothingToTell(a: Announced, current: set<string>, agents: seq<(string, string)>,
                                servers: seq<(string, string)>) {
    && a.skills == current && a.agents == AgentNames(agents) && a.mcp <= ServerNames(servers)
    && forall s <- servers :: s.0 in a.mcp || s.1 == ""
  }

  lemma {:induction false} DescriptionIsLast(agents: seq<(string, string)>, k: nat)
    requires k < |agents| && LastOfName(agents, k)
    ensures DescriptionOf(Descriptions(agents), agents[k].0) == agents[k].1
  {
    var n := |agents| - 1;
    if k < n {
      assert LastOfName(agents[..n], k);
      DescriptionIsLast(agents[..n], k);
      assert agents[n].0 != agents[k].0;
    }
  }

  lemma EachHas(names: seq<string>, line: string -> string, name: string)
    requires name in names
    ensures line(name) in Each(names, line)
  {
    var i :| 0 <= i < |names| && names[i] == name;
    assert Each(names, line)[i] == line(name);
  }

  lemma GoneHas(message: string, removed: seq<string>, name: string)
    requires name in removed
    ensures Strike(name) in Gone(message, removed)
  {
    EachHas(removed, Strike, name);
    hide Each;
  }

  /** A line of a section stands in the reminder. */
  lemma SectionBears(lines: seq<string>, line: string)
    requires line in lines
    ensures Bears("\n" + Join(lines, "\n") + "\n", line)
  {
    hide Join, Bears;
    assert "" + "\n" == "\n" == "\n" + "";
    JoinBears(lines, "", "", line);
  }

  lemma ReminderBears(before: seq<string>, pending: Pending, after: seq<string>, skills: map<string, Skill>,
                      section: string)
    requires section in before + Listings(pending, skills) + after
    ensures var text := Rendered(before, pending, after, skills); text.Some? && Bears(text.value, section)
  {
    hide Join, Bears, Listings;
    var sections := before + Listings(pending, skills) + after;
    assert "\n" + "\n" == "\n\n";
    JoinBears(sections, "\n", "\n", section);
    var inner := Join(sections, "\n\n");
    BearsWider(OPENING, "\n" + inner + "\n", CLOSING, section);
    assert OPENING + ("\n" + inner + "\n") + CLOSING == OPENING + "\n" + inner + "\n" + CLOSING;
  }

  lemma ReminderBearsLine(before: seq<string>, pending: Pending, after: seq<string>, skills: map<string, Skill>,
                          lines: seq<string>, line: string)
    requires Join(lines, "\n") in Listings(pending, skills) && line in lines
    ensures var text := Rendered(before, pending, after, skills); text.Some? && Bears(text.value, line)
  {
    hide Join, Bears, Listings, Rendered;
    ReminderBears(before, pending, after, skills, Join(lines, "\n"));
    SectionBears(lines, line);
    BearsDeeper(Rendered(before, pending, after, skills).value, Join(lines, "\n"), line);
  }

  lemma TellsSkills(before: seq<string>, pending: Pending, after: seq<string>, skills: map<string, Skill>,
                    announced: set<string>, current: set<string>)
    requires SkillDiff(pending, announced, current)
    ensures var text := Rendered(before, pending, after, skills);
            && (forall n <- current - announced :: text.Some? && TellsSkill(text.value, n, skills))
            && (forall n <- announced - current :: text.Some? && Bears(text.value, "- ~~" + n + "~~"))
  {
    hide Join, Bears, Rendered, SaysOfSkill, Each;
    if announced != current {
      var d := pending[SkillListing];
      var lines := ["## Skills"] + Gone(SKILLS_GONE, d.removed)
        + (if d.added == [] then [] else [SKILLS_USE] + Each(d.added, name => SkillLine(name, skills)));
      assert Join(lines, "\n") == RenderSkills(d, skills);
      assert RenderSkills(d, skills) in SectionFor(pending, SkillListing, skills);
      hide Gone, RenderSkills, SectionFor, SkillLine;
      forall n | n in current - announced
        ensures var text := Rendered(before, pending, after, skills); text.Some? && TellsSkill(text.value, n, skills)
      {
        assert n in SetOf(d.added);
        EachHas(d.added, name => SkillLine(name, skills), n);
        ReminderBearsLine(before, pending, after, skills, lines, SkillLine(n, skills));
        SkillLineSays(n, skills);
      }
      forall n | n in announced - current
        ensures var text := Rendered(before, pending, after, skills);
                text.Some? && Bears(text.value, "- ~~" + n + "~~")
      {
        assert n in SetOf(d.removed);
        GoneHas(SKILLS_GONE, d.removed, n);
        ReminderBearsLine(before, pending, after, skills, lines, Strike(n));
      }
    }
  }

  lemma TellsAgents(before: seq<string>, pending: Pending, after: seq<string>, skills: map<string, Skill>,
                    announced: set<string>, agents: seq<(string, string)>)
    requires AgentDiff(pending, announced, agents)
    ensures var text := Rendered(before, pending, after, skills);
            && (forall k | 0 <= k < |agents| && LastOfName(agents, k) && agents[k].0 !in announced ::
                  text.Some? && Bears(text.value, AgentSays(agents[k].0, agents[k].1)))
            && (forall n <- announced - AgentNames(agents) :: text.Some? && Bears(text.value, "- ~~" + n + "~~"))
  {
    hide Join, Bears, Rendered, Each, LastOfName, Descriptions, DescriptionOf;
    forall k | 0 <= k < |agents| && agents[k].0 !in announced
      ensures agents[k].0 in AgentNames(agents) - announced
    {
      NameIsIn(agents, k);
    }
    if announced != AgentNames(agents) {
      var d := pending[AgentListing];
      var names :| AgentDelta(d, names, agents, announced);
      var lines := ["## Available Sub-Agents"] + Gone(AGENTS_GONE, d.removed)
        + (if d.added == [] then [] else [AGENTS_USE] + Each(d.added, AgentLine));
      assert Join(lines, "\n") == RenderAgents(d);
      assert RenderAgents(d) in SectionFor(pending, AgentListing, skills);
      hide Gone, RenderAgents, SectionFor, AgentLine, AgentNames, AgentEntry, AgentSays;
      var says := name => AgentEntry(name, DescriptionOf(Descriptions(agents), name));
      forall k | 0 <= k < |agents| && LastOfName(agents, k) && agents[k].0 !in announced
        ensures var text := Rendered(before, pending, after, skills);
                text.Some? && Bears(text.value, AgentSays(agents[k].0, agents[k].1))
      {
        var n := agents[k].0;
        assert n in SetOf(names);
        EachHas(names, says, n);
        DescriptionIsLast(agents, k);
        EachHas(d.added, AgentLine, AgentEntry(n, agents[k].1));
        AgentLineSays(n, agents[k].1);
        ReminderBearsLine(before, pending, after, skills, lines, AgentLine(AgentEntry(n, agents[k].1)));
      }
      forall n | n in announced - AgentNames(agents)
        ensures var text := Rendered(before, pending, after, skills);
                text.Some? && Bears(text.value, "- ~~" + n + "~~")
      {
        assert n in SetOf(d.removed);
        GoneHas(AGENTS_GONE, d.removed, n);
        ReminderBearsLine(before, pending, after, skills, lines, Strike(n));
      }
    }
  }

  lemma NameIsIn(agents: seq<(string, string)>, k: nat)
    requires k < |agents|
    ensures agents[k].0 in AgentNames(agents)
  {
    assert agents[k] in agents;
  }

  lemma AgentLineSays(name: string, description: string)
    ensures AgentLine(AgentEntry(name, description)) == AgentSays(name, description)
  {
    if description != "" {
      assert "- **" + (name + ": " + description) + "**" == "- **" + name + ": " + description + "**";
    }
  }

  lemma TellsServers(before: seq<string>, pending: Pending, after: seq<string>, skills: map<string, Skill>,
                     announced: set<string>, servers: seq<(string, string)>)
    requires McpDiff(pending, announced, servers)
    ensures var text := Rendered(before, pending, after, skills);
            && (forall s <- servers | s.0 !in announced && s.1 != "" ::
                  text.Some? && Bears(text.value, "### " + s.0 + "\n" + s.1))
            && (forall n <- announced - ServerNames(servers) :: text.Some? && Bears(text.value, "- ~~" + n + "~~"))
  {
    hide Join, Bears, Rendered, Each, NewServers, ServerNames;
    NewServersAre(servers, announced);
    if McpInstructions in pending {
      var d := pending[McpInstructions];
      var lines := ["## MCP Server Instructions"] + d.added
        + (if d.removed == [] then [] else ["", MCP_GONE] + Each(d.removed, Strike));
      assert Join(lines, "\n") == RenderMcp(d);
      assert RenderMcp(d) in SectionFor(pending, McpInstructions, skills);
      hide RenderMcp, SectionFor;
      forall s | s in servers && s.0 !in announced && s.1 != ""
        ensures var text := Rendered(before, pending, after, skills);
                text.Some? && Bears(text.value, "### " + s.0 + "\n" + s.1)
      {
        EntryOf(NewServers(servers, announced), s);
        ReminderBearsLine(before, pending, after, skills, lines, "### " + s.0 + "\n" + s.1);
      }
      forall n | n in announced - ServerNames(servers)
        ensures var text := Rendered(before, pending, after, skills);
                text.Some? && Bears(text.value, "- ~~" + n + "~~")
      {
        assert n in SetOf(d.removed);
        EachHas(d.removed, Strike, n);
        ReminderBearsLine(before, pending, after, skills, lines, Strike(n));
      }
    }
  }

  lemma EntryOf(servers: seq<(string, string)>, s: (string, string))
    requires s in servers
    ensures "### " + s.0 + "\n" + s.1 in ServerEntries(servers)
  {
    var i :| 0 <= i < |servers| && servers[i] == s;
    assert ServerEntries(servers)[i] == ServerEntry(s.0, s.1);
  }

  /** What a built reminder tells: each new skill with the words of its summary and its trigger, each new
      agent with its last description, each new server with its instructions, everything that is gone,
      and the sections of the other parts. */
  lemma ReminderTells(before: seq<string>, pending: Pending, after: seq<string>, a: Announced, current: set<string>,
                      skills: map<string, Skill>, agents: seq<(string, string)>, servers: seq<(string, string)>)
    requires SkillDiff(pending, a.skills, current) && AgentDiff(pending, a.agents, agents)
    requires McpDiff(pending, a.mcp, servers)
    ensures var text := Rendered(before, pending, after, skills);
            && (text.None? ==> before == [] == after && NothingToTell(a, current, agents, servers))
            && (text.Some? ==> Tells(text.value, a, current, skills, agents, servers))
            && (text.Some? ==> forall s <- before + after :: Bears(text.value, s))
  {
    TellsSkills(before, pending, after, skills, a.skills, current);
    TellsAgents(before, pending, after, skills, a.agents, agents);
    TellsServers(before, pending, after, skills, a.mcp, servers);
    NewServersAre(servers, a.mcp);
    forall s | s in before + after
      ensures var text := Rendered(before, pending, after, skills); text.Some? && Bears(text.value, s)
    {
      ReminderBears(before, pending, after, skills, s);
    }
    hide TellsSkill, Bears, LastOfName, RenderSkills, RenderAgents, RenderMcp, Join;
  }

  // ---- The manager ------------------------------------------------------------------------------------

  /** The elements of a set in some order. */
  method Enumerate(s: set<string>) returns (xs: seq<string>)
    ensures Lists(xs, s)
  {
    xs := [];
    var rest := s;
    while rest != {}
      invariant rest <= s && SetOf(xs) == s - rest
    {
      var x :| x in rest;
      assert SetOf(xs + [x]) == SetOf(xs) + {x};
      xs, rest := xs + [x], rest - {x};
    }
  }

  method PushLines(lines: seq<string>, names: seq<string>, line: string -> string) returns (r: seq<string>)
    ensures r == lines + Each(names, line)
  {
    r := lines;
    for i := 0 to |names|
      invariant r == lines + Each(names[..i], line)
    {
      r := r + [line(names[i])];
      assert Each(names[..i + 1], line) == Each(names[..i], line) + [line(names[i])];
    }
    assert names[..|names|] == names;
  }

  method PushGone(lines: seq<string>, message: string, removed: seq<string>) returns (r: seq<string>)
    ensures r == lines + Gone(message, removed)
  {
    r := lines;
    if removed != [] {
      r := PushLines(lines + [message], removed, Strike);
      r := r + [""];
    }
  }

  /** The skill section, line by line. */
  method WriteSkills(d: Delta, skills: map<string, Skill>) returns (text: string)
    ensures text == RenderSkills(d, skills)
  {
    var lines := PushGone(["## Skills"], SKILLS_GONE, d.removed);
    if d.added != [] {
      ghost var gone, added := lines, Each(d.added, name => SkillLine(name, skills));
      lines := PushLines(lines + [SKILLS_USE], d.added, name => SkillLine(name, skills));
      assert lines == gone + ([SKILLS_USE] + added);
    } else {
      assert lines == lines + [];
    }
    text := Join(lines, "\n");
  }

  method WriteAgents(d: Delta) returns (text: string)
    ensures text == RenderAgents(d)
  {
    var lines := PushGone(["## Available Sub-Agents"], AGENTS_GONE, d.removed);
    if d.added != [] {
      ghost var gone := lines;
      lines := PushLines(lines + [AGENTS_USE], d.added, AgentLine);
      assert lines == gone + ([AGENTS_USE] + Each(d.added, AgentLine));
    } else {
      assert lines == lines + [];
    }
    text := Join(lines, "\n");
  }

  method WriteMcp(d: Delta) returns (text: string)
    ensures text == RenderMcp(d)
  {
    var lines := ["## MCP Server Instructions"] + d.added;
    if d.removed != [] {
      ghost var added := lines;
      lines := PushLines(lines + ["", MCP_GONE], d.removed, Strike);
      assert lines == added + (["", MCP_GONE] + Each(d.removed, Strike));
    } else {
      assert lines == lines + [];
    }
    text := Join(lines, "\n");
  }

  class AttachmentManager {
    var pending: Pending
    var before: seq<string>
    var after: seq<string>

    constructor ()
      ensures pending == map[] && before == [] && after == []
    {
      pending, before, after := map[], [], [];
    }

    /** Without `ok` the reader panicked. */
    method DiffSkills(current: set<string>, history: seq<Message>) returns (ok: bool)
      modifies this`pending
      ensures ok <==> Rebuild(history).Some?
      ensures !ok ==> pending == old(pending)
      ensures ok && SkillListing !in old(pending) ==> SkillDiff(pending, Rebuild(history).value.skills, current)
      ensures forall k | k != SkillListing :: SameAt(pending, old(pending), k)
    {
      hide Rebuild;
      var r := RebuildFromHistory(history);
      if r.None? {
        return false;
      }
      var added := Enumerate(current - r.value.skills);
      var removed := Enumerate(r.value.skills - current);
      if added != [] || removed != [] {
        pending := pending[SkillListing := Delta(added, removed)];
      }
      EmptyLists(added, removed, r.value.skills, current);
      return true;
    }

    method DiffAgents(agents: seq<(string, string)>, history: seq<Message>) returns (ok: bool)
      modifies this`pending
      ensures ok <==> Rebuild(history).Some?
      ensures !ok ==> pending == old(pending)
      ensures ok && AgentListing !in old(pending) ==> AgentDiff(pending, Rebuild(history).value.agents, agents)
      ensures forall k | k != AgentListing :: SameAt(pending, old(pending), k)
    {
      hide Rebuild, AgentNames;
      var r := RebuildFromHistory(history);
      if r.None? {
        return false;
      }
      var announced, current := r.value.agents, AgentNames(agents);
      var names := Enumerate(current - announced);
      var removed := Enumerate(announced - current);
      if names != [] || removed != [] {
        var d := Delta(AgentEntries(names, Descriptions(agents)), removed);
        assert AgentDelta(d, names, agents, announced);
        pending := pending[AgentListing := d];
      }
      EmptyLists(names, removed, announced, current);
      return true;
    }

    method DiffMcp(servers: seq<(string, string)>, history: seq<Message>) returns (ok: bool)
      modifies this`pending
      ensures ok <==> Rebuild(history).Some?
      ensures !ok ==> pending == old(pending)
      ensures ok && McpInstructions !in old(pending) ==> McpDiff(pending, Rebuild(history).value.mcp, servers)
      ensures forall k | k != McpInstructions :: SameAt(pending, old(pending), k)
    {
      hide Rebuild, ServerNames;
      var r := RebuildFromHistory(history);
      if r.None? {
        return false;
      }
      var announced, current := r.value.mcp, ServerNames(servers);
      var added := ServerEntries(NewServers(servers, announced));
      var removed := Enumerate(announced - current);
      if added != [] || removed != [] {
        pending := pending[McpInstructions := Delta(added, removed)];
      }
      EmptyList(removed, announced - current);
      assert |added| == |NewServers(servers, announced)|;
      NoneMissing(announced, current);
      return true;
    }

    method BuildText(skills: map<string, Skill>) returns (text: Option<string>)
      ensures text == Rendered(before, pending, after, skills)
    {
      hide RenderSkills, RenderAgents, RenderMcp, Join;
      var x, y, z := [], [], [];
      if SkillListing in pending {
        var s := WriteSkills(pending[SkillListing], skills);
        x := [s];
      }
      if AgentListing in pending {
        var s := WriteAgents(pending[AgentListing]);
        y := [s];
      }
      if McpInstructions in pending {
        var s := WriteMcp(pending[McpInstructions]);
        z := [s];
      }
      var sections := before + (x + y + z) + after;
      if sections == [] {
        return None;
      }
      return Some(OPENING + "\n" + Join(sections, "\n\n") + "\n" + CLOSING);
    }

    method ClearPending()
      modifies this
      ensures pending == map[] && before == [] && after == []
    {
      pending, before, after := map[], [], [];
    }

    /** A turn: compare, render, clear.  Whatever quiet text follows the reminder in its message, the next
        turn reads the current lists back. */
    method Turn(history: seq<Message>, current: set<string>, skills: map<string, Skill>,
                agents: seq<(string, string)>, servers: seq<(string, string)>)
      returns (ok: bool, text: Option<string>)
      requires pending == map[] && (forall t <- before :: Foreign(t)) && (forall t <- after :: Headed(t))
      requires Rebuild(history).Some? ==> AllAnnounceable(Rebuild(history).value, current, skills, agents, servers)
      modifies this
      ensures ok <==> Rebuild(history).Some?
      ensures ok ==> pending == map[] && before == [] && after == []
      ensures ok ==>
                forall tail | QuietTail(tail) ::
                  && Rebuild(Next(history, text, tail)).Some?
                  && Synchronised(Rebuild(history).value, Rebuild(Next(history, text, tail)).value, current, agents,
                      servers)
      ensures ok && text.Some? ==> Tells(text.value, Rebuild(history).value, current, skills, agents, servers)
      ensures ok && text.Some? ==> forall s <- old(before) + old(after) :: Bears(text.value, s)
      ensures ok && text.None? ==> NothingToTell(Rebuild(history).value, current, agents, servers)
    {
      hide Bears, Tells, NothingToTell;
      hide Rebuild, AllAnnounceable, Synchronised, SkillDiff, AgentDiff, McpDiff, Foreign, Headed, QuietTail, Next,
          Rendered;
      text := None;
      ok := DiffSkills(current, history);
      if !ok {
        return;
      }
      ghost var one := pending;
      assert SameAt(one, map[], AgentListing) && SameAt(one, map[], McpInstructions);
      ok := DiffAgents(agents, history);
      ghost var two := pending;
      assert SameAt(two, one, McpInstructions);
      ok := DiffMcp(servers, history);
      SameDiffs(one, two, pending, Rebuild(history).value, current, agents);
      text := BuildText(skills);
      ReminderTells(before, pending, after, Rebuild(history).value, current, skills, agents, servers);
      forall tail | QuietTail(tail)
        ensures Rebuild(Next(history, text, tail)).Some?
        ensures Synchronised(Rebuild(history).value, Rebuild(Next(history, text, tail)).value, current, agents, servers)
      {
        ReminderSynchronises(history, current, skills, agents, servers, before, pending, after, tail);
      }
      ClearPending();
    }
  }

  ghost predicate SameAt(p: Pending, q: Pending, k: Kind) {
    (k in p <==> k in q) && (k in p ==> p[k] == q[k])
  }

  lemma NoneMissing(s: set<string>, t: set<string>)
    ensures s - t == {} <==> s <= t
  {
    if s - t == {} {
      forall x | x in s
        ensures x in t
      {
        assert x !in s - t;
      }
    }
  }

  lemma EmptyList(xs: seq<string>, s: set<string>)
    requires Lists(xs, s)
    ensures xs == [] <==> s == {}
  {
    if xs != [] {
      assert xs[0] in SetOf(xs);
    }
  }

  lemma EmptyLists(added: seq<string>, removed: seq<string>, announced: set<string>, current: set<string>)
    requires Lists(added, current - announced) && Lists(removed, announced - current)
    ensures added == [] && removed == [] <==> announced == current
  {
    EmptyList(added, current - announced);
    EmptyList(removed, announced - current);
    if current - announced == {} && announced - current == {} {
      assert announced == current by {
        forall n
          ensures n in announced <==> n in current
        {
          assert n !in current - announced && n !in announced - current;
        }
      }
    }
  }

  lemma SameDiffs(one: Pending, two: Pending, three: Pending, a: Announced, current: set<string>,
      agents: seq<(string, string)>)
    requires SkillDiff(one, a.skills, current) && AgentDiff(two, a.agents, agents)
    requires forall k | k != AgentListing :: SameAt(two, one, k)
    requires forall k | k != McpInstructions :: SameAt(three, two, k)
    ensures SkillDiff(three, a.skills, current) && AgentDiff(three, a.agents, agents)
  {
    hide AgentNames, Lists, AgentDelta;
    assert SameAt(two, one, SkillListing) && SameAt(three, two, SkillListing) && SameAt(three, two, AgentListing);
  }
}
