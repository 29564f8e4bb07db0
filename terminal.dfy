/** The terminal easter egg of components/Terminal.js: a line-oriented
    command interpreter whose state is the input field, the history of
    printed entries, the minimised flag and the colour theme. A submitted
    line is trimmed and split on single spaces; the first word, lower-cased,
    selects one of nine commands. */
module Terminal {
  import opened JsBuiltins

  // ---------------------------------------------------------------------------
  // History entries and fixed texts
  // ---------------------------------------------------------------------------

  /** The `type` of a history entry: 'command', 'output', 'error', 'system'. */
  datatype EntryKind = CommandLine | Output | Error | System

  /** What an entry says: a line of text as typed, or one of the messages
      the terminal prints, whose wording `Text` gives. */
  datatype Message =
    | Line(text: string)
    | BannerMsg
    | HelpMsg
    | PongMsg
    | SnakeSoonMsg
    | AboutMsg
    | ThemeChanged(color: string)
    | InvalidColor(color: string)
    | MissingColor
    | MissingText
    | NotFound(command: string)

  datatype Entry = Entry(kind: EntryKind, message: Message)

  /** The first and only entry after the terminal opens or is cleared. */
  const Banner := Entry(System, BannerMsg)

  const ValidColors: seq<string> := ["black", "white", "green", "blue", "red", "yellow", "purple", "cyan", "pink"]

  /** The content string of an entry. */
  function Text(m: Message): string {
    match m
    case Line(text) => text
    case BannerMsg => "Terminal v1.0.0 - Type \"help\" for available commands"
    case HelpMsg =>
      "Available commands:\n- ping: Test connectivity\n- clear: Clear console\n" +
      "- color [hex/name]: Change terminal color\n- close: Close the terminal\n" +
      "- minimize: Minimize the terminal\n- echo [text]: Echo text back\n" +
      "- snake: Play snake game\n- about: About this terminal"
    case PongMsg => "pong!"
    case SnakeSoonMsg => "\U{1F40D} Snake game coming soon! Use arrow keys when implemented."
    case AboutMsg => "czch terminal v1.0.0\nBuilt with React & Next.js\nCreated by @lucasczch\nType 'help' for commands"
    case ThemeChanged(color) => "Terminal theme changed to " + color
    case InvalidColor(color) => "Error: Invalid color \"" + color + "\". Available: " + Join(ValidColors, ", ")
    case MissingColor => "Error: Missing color parameter. Usage: color [black|white|green|blue|red|yellow|purple|cyan|pink]"
    case MissingText => "Error: Missing text parameter. Usage: echo [text]"
    case NotFound(command) => "Error: Command not found \"" + command + "\". Type 'help' for available commands."
  }

  /** The command word of a trimmed line: its first piece, lower-cased. */
  function CommandWord(trimmed: string): string {
    ToLower(Split(trimmed)[0])
  }

  // ---------------------------------------------------------------------------
  // What a command does
  // ---------------------------------------------------------------------------

  /** The effect of one trimmed command line, beside the echo of the line
      itself: one printed entry, a new colour (with its confirmation), a
      cleared screen, minimising, closing, or nothing. */
  datatype Effect =
    | Reply(entry: Entry)
    | Recolor(color: string)
    | ClearScreen
    | Minimize
    | Close
    | Silent

  /** The nine command words. */
  const Commands := {"help", "ping", "clear", "color", "close", "minimize", "echo", "snake", "about"}

  /** The case of the switch a lower-cased command word selects. */
  datatype Command =
    | HelpCmd | PingCmd | ClearCmd | ColorCmd | CloseCmd | MinimizeCmd | EchoCmd | SnakeCmd | AboutCmd
    | OtherCmd

  function CommandOf(word: string): Command
  {
    match word
    case "help" => HelpCmd
    case "ping" => PingCmd
    case "clear" => ClearCmd
    case "color" => ColorCmd
    case "close" => CloseCmd
    case "minimize" => MinimizeCmd
    case "echo" => EchoCmd
    case "snake" => SnakeCmd
    case "about" => AboutCmd
    case _ => OtherCmd
  }

  /** The switch of executeCommand: `command` is the lower-cased first word,
      `args` the other pieces, `trimmed` the whole trimmed line. */
  function Dispatch(command: string, args: seq<string>, trimmed: string): (e: Effect)
    ensures e.Recolor? ==> e.color in ValidColors
    ensures e.Reply? ==> e.entry.kind == Output || e.entry.kind == Error
  {
    match CommandOf(command)
    case HelpCmd => Reply(Entry(Output, HelpMsg))
    case PingCmd => Reply(Entry(Output, PongMsg))
    case ClearCmd => ClearScreen
    case ColorCmd =>
      if |args| > 0 then
        var color := ToLower(args[0]);
        if color in ValidColors then Recolor(color) else Reply(Entry(Error, InvalidColor(color)))
      else Reply(Entry(Error, MissingColor))
    case CloseCmd => Close
    case MinimizeCmd => Minimize
    case EchoCmd =>
      var text := Join(args, " ");
      if text != "" then Reply(Entry(Output, Line(text))) else Reply(Entry(Error, MissingText))
    case SnakeCmd => Reply(Entry(Output, SnakeSoonMsg))
    case AboutCmd => Reply(Entry(Output, AboutMsg))
    case OtherCmd => if trimmed != "" then Reply(Entry(Error, NotFound(command))) else Silent
  }

  /** What an already trimmed line does. */
  function Interpret(trimmed: string): (e: Effect)
    ensures e.Recolor? ==> e.color in ValidColors
    ensures e.Reply? ==> e.entry.kind == Output || e.entry.kind == Error
  {
    var parts := Split(trimmed);
    Dispatch(ToLower(parts[0]), parts[1..], trimmed)
  }

  /** Exactly the nine command words select a case of their own. */
  lemma CommandOfKnownWords(word: string)
    ensures CommandOf(word) == OtherCmd <==> word !in Commands
  {
  }

  /** Only the empty line does nothing at all; any other line prints or
      changes something. */
  lemma SilentIffBlank(trimmed: string)
    ensures Interpret(trimmed) == Silent <==> trimmed == ""
  {
    if trimmed == "" {
      assert Split(trimmed) == [""];
      assert ToLower("") == "";
      CommandOfKnownWords("");
    }
  }

  /** The entries printed after the echo of the command line. */
  function Replies(e: Effect): seq<Entry> {
    match e
    case Reply(entry) => [entry]
    case Recolor(color) => [Entry(Output, ThemeChanged(color))]
    case _ => []
  }

  /** The terminal colour after an effect. */
  function ColorAfter(current: string, e: Effect): string {
    if e.Recolor? then e.color else current
  }

  /** The history after executing a trimmed line. */
  function HistoryAfter(history: seq<Entry>, trimmed: string): seq<Entry> {
    var e := Interpret(trimmed);
    if e == ClearScreen then [Banner] else history + [Entry(CommandLine, Line(trimmed))] + Replies(e)
  }

  /** Every command but `clear` keeps the old history as it was, then adds
      the echo of the trimmed line and at most one output or error entry;
      `clear` leaves only the banner, whatever was there before. */
  lemma HistoryGrowsByCommand(history: seq<Entry>, trimmed: string)
    ensures Interpret(trimmed) == ClearScreen ==> HistoryAfter(history, trimmed) == [Banner]
    ensures Interpret(trimmed) != ClearScreen ==>
              var h := HistoryAfter(history, trimmed);
              |history| + 1 <= |h| <= |history| + 2 &&
              h[..|history|] == history &&
              h[|history|] == Entry(CommandLine, Line(trimmed)) &&
              Text(h[|history|].message) == trimmed &&
              forall k :: |history| < k < |h| ==> h[k].kind in {Output, Error}
  {
  }

  // ---------------------------------------------------------------------------
  // Properties of the command language
  // ---------------------------------------------------------------------------

  /** The command word is matched without regard to letter case: two lines
      that differ only in the case of their first word do the same thing. */
  lemma CommandWordIgnoresCase(w1: string, w2: string, rest: string)
    requires ' ' !in w1 && ' ' !in w2 && w1 != "" && w2 != ""
    requires ToLower(w1) == ToLower(w2)
    requires rest == "" || rest[0] == ' '
    ensures Interpret(w1 + rest) == Interpret(w2 + rest)
  {
    var args := if rest == "" then [] else Split(rest[1..]);
    assert Split(w1 + rest) == [w1] + args && Split(w2 + rest) == [w2] + args by {
      if rest == "" {
        assert w1 + rest == w1 && w2 + rest == w2;
        SplitWord(w1);
        SplitWord(w2);
      } else {
        var r := rest[1..];
        assert w1 + rest == w1 + " " + r && w2 + rest == w2 + " " + r;
        SplitAfterWord(w1, r);
        SplitAfterWord(w2, r);
      }
    }
    assert Interpret(w1 + rest) == Dispatch(ToLower(w1), args, w1 + rest);
    assert Interpret(w2 + rest) == Dispatch(ToLower(w2), args, w2 + rest);
    DispatchIgnoresLine(ToLower(w1), args, w1 + rest, w2 + rest);
  }

  /** Beyond its command word and arguments, a line matters only through
      being empty or not. */
  lemma DispatchIgnoresLine(command: string, args: seq<string>, t1: string, t2: string)
    requires t1 != "" && t2 != ""
    ensures Dispatch(command, args, t1) == Dispatch(command, args, t2)
  {
  }

  /** `color <name>`: the argument is lower-cased, and the theme changes
      exactly when it is one of the nine listed names; otherwise one error
      entry names the rejected argument. */
  lemma ColorCommand(w: string, arg: string, rest: string)
    requires ' ' !in w && ToLower(w) == "color" && ' ' !in arg
    requires rest == "" || rest[0] == ' '
    ensures var e := Interpret(w + " " + arg + rest);
            if ToLower(arg) in ValidColors then e == Recolor(ToLower(arg))
            else e == Reply(Entry(Error, InvalidColor(ToLower(arg))))
  {
    var t := w + " " + arg + rest;
    assert t == w + " " + (arg + rest);
    SplitAfterWord(w, arg + rest);
    if rest == "" {
      assert arg + rest == arg;
      SplitWord(arg);
    } else {
      assert arg + rest == arg + " " + rest[1..];
      SplitAfterWord(arg, rest[1..]);
    }
  }

  /** `color` alone reports the missing parameter. */
  lemma ColorWithoutArgument(w: string)
    requires ' ' !in w && ToLower(w) == "color"
    ensures Interpret(w) == Reply(Entry(Error, MissingColor))
  {
    SplitWord(w);
  }

  /** `echo` prints everything after the first space exactly as typed, and
      reports the missing text when nothing follows it. */
  lemma EchoCommand(t: string, i: nat)
    requires i < |t| && t[i] == ' ' && ' ' !in t[..i] && ToLower(t[..i]) == "echo"
    ensures Interpret(t) == if t[i + 1..] != "" then Reply(Entry(Output, Line(t[i + 1..])))
                            else Reply(Entry(Error, MissingText))
  {
    SplitTailJoin(t, i);
    assert t == t[..i] + " " + t[i + 1..];
    SplitAfterWord(t[..i], t[i + 1..]);
  }

  /** `echo` alone, in any letter case, reports the missing text: its
      argument list is empty. */
  lemma EchoWithoutText(w: string)
    requires ' ' !in w && ToLower(w) == "echo"
    ensures Interpret(w) == Reply(Entry(Error, MissingText))
    ensures Text(MissingText) == "Error: Missing text parameter. Usage: echo [text]"
  {
    SplitWord(w);
  }

  /** Any other non-empty command word yields one error naming the
      lower-cased word. */
  lemma UnknownCommand(t: string)
    requires t != ""
    requires CommandWord(t) !in Commands
    ensures Interpret(t) == Reply(Entry(Error, NotFound(CommandWord(t))))
  {
    CommandOfKnownWords(CommandWord(t));
  }

  // ---------------------------------------------------------------------------
  // Colour tables
  // ---------------------------------------------------------------------------

  const ColorClasses: map<string, string> := map[
    "black" := "text-gray-400", "white" := "text-gray-800", "green" := "text-green-500",
    "blue" := "text-blue-500", "red" := "text-red-500", "yellow" := "text-yellow-500",
    "purple" := "text-purple-500", "cyan" := "text-cyan-500", "pink" := "text-pink-500"]

  /** getColorClass: each colour the `color` command accepts has its own text
      class; any other name gets the black one. */
  function ColorClass(color: string): (r: string)
    ensures color in ValidColors ==> r == ColorClasses[color]
    ensures color !in ValidColors ==> r == ColorClasses["black"]
    ensures r == ColorClasses["black"] <==> color == "black" || color !in ValidColors
  {
    if color in ColorClasses then ColorClasses[color] else "text-gray-400"
  }

  datatype Theme = Theme(bg: string, border: string, header: string, text: string)

  const Themes: map<string, Theme> := map[
    "black" := Theme("rgba(10, 10, 15, 0.8)", "border-zinc-700/50", "bg-zinc-900/70", "text-white"),
    "white" := Theme("rgba(255, 255, 255, 0.9)", "border-gray-300/50", "bg-gray-100/70", "text-black"),
    "green" := Theme("rgba(10, 15, 10, 0.8)", "border-green-700/50", "bg-green-900/70", "text-white"),
    "blue" := Theme("rgba(10, 10, 15, 0.8)", "border-blue-700/50", "bg-blue-900/70", "text-white"),
    "red" := Theme("rgba(15, 10, 10, 0.8)", "border-red-700/50", "bg-red-900/70", "text-white"),
    "yellow" := Theme("rgba(15, 15, 10, 0.8)", "border-yellow-700/50", "bg-yellow-900/70", "text-white"),
    "purple" := Theme("rgba(15, 10, 15, 0.8)", "border-purple-700/50", "bg-purple-900/70", "text-white"),
    "cyan" := Theme("rgba(10, 15, 15, 0.8)", "border-cyan-700/50", "bg-cyan-900/70", "text-white"),
    "pink" := Theme("rgba(15, 10, 13, 0.8)", "border-pink-700/50", "bg-pink-900/70", "text-white")]

  /** getTerminalTheme: each colour the `color` command accepts has its own
      theme, dark text only on white; any other name gets the black theme. */
  function TerminalTheme(color: string): (r: Theme)
    ensures color in ValidColors ==> r == Themes[color] && (r.text == "text-black" <==> color == "white")
    ensures color !in ValidColors ==> r == Themes["black"] && r.text == "text-white"
  {
    if color in Themes then Themes[color] else Themes["black"]
  }

  /** Both tables know exactly the colours the `color` command accepts, so a
      colour set by the command never falls back to black; only the white
      theme uses dark text. */
  lemma TablesCoverValidColors()
    ensures forall c :: c in ValidColors <==> c in ColorClasses
    ensures forall c :: c in ValidColors <==> c in Themes
    ensures forall c :: c in Themes ==> (Themes[c].text == "text-black" <==> c == "white")
  {
  }

  // ---------------------------------------------------------------------------
  // The component's state
  // ---------------------------------------------------------------------------

  class Console {
    var input: string
    var history: seq<Entry>
    var isMinimized: bool
    var terminalColor: string

    /** The terminal's colour is always one the tables know. */
    ghost predicate Valid()
      reads this
    {
      terminalColor in ValidColors
    }

    constructor ()
      ensures Valid()
      ensures input == "" && history == [Banner] && !isMinimized && terminalColor == "black"
    {
      input := "";
      history := [Banner];
      isMinimized := false;
      terminalColor := "black";
    }

    /** The input field's onChange. */
    method SetInput(value: string)
      modifies this
      ensures input == value
      ensures history == old(history) && isMinimized == old(isMinimized) && terminalColor == old(terminalColor)
    {
      input := value;
    }

    /** executeCommand(cmd): the line is trimmed and echoed, then the case
        of the switch its command word selects (`Dispatch`) is applied to
        the state. `closeRequested` reports a call of the component's
        onClose callback. */
    method ExecuteCommand(cmd: string) returns (closeRequested: bool)
      requires Valid()
      modifies this
      ensures Valid()
      ensures history == HistoryAfter(old(history), Trim(cmd))
      ensures terminalColor == ColorAfter(old(terminalColor), Interpret(Trim(cmd)))
      ensures isMinimized == (old(isMinimized) || Interpret(Trim(cmd)) == Minimize)
      ensures closeRequested == (Interpret(Trim(cmd)) == Close)
      ensures input == old(input)
    {
      var trimmedCmd := Trim(cmd);
      var parts := Split(trimmedCmd);
      var command := ToLower(parts[0]);
      var args := parts[1..];
      history := history + [Entry(CommandLine, Line(trimmedCmd))];
      var effect := Dispatch(command, args, trimmedCmd);
      assert effect == Interpret(Trim(cmd));
      closeRequested := Apply(effect);
    }

    /** The state updates of one case of executeCommand's switch, after the
        command line has been echoed. */
    method Apply(effect: Effect) returns (closeRequested: bool)
      requires Valid()
      requires effect.Recolor? ==> effect.color in ValidColors
      modifies this
      ensures Valid()
      ensures history == if effect == ClearScreen then [Banner] else old(history) + Replies(effect)
      ensures terminalColor == ColorAfter(old(terminalColor), effect)
      ensures isMinimized == (old(isMinimized) || effect == Minimize)
      ensures closeRequested == (effect == Close)
      ensures input == old(input)
    {
      closeRequested := false;
      match effect {
        case Reply(entry) =>
          history := history + [entry];
        case Recolor(color) =>
          terminalColor := color;
          history := history + [Entry(Output, ThemeChanged(color))];
        case ClearScreen =>
          history := [Banner];
        case Minimize =>
          isMinimized := true;
        case Close =>
          closeRequested := true;
        case Silent =>
      }
    }

    /** handleSubmit: a line that is blank after trimming changes nothing;
        any other line is executed and the input field is cleared. */
    method HandleSubmit() returns (closeRequested: bool)
      requires Valid()
      modifies this
      ensures Valid()
      ensures Trim(old(input)) == "" ==>
                input == old(input) && history == old(history) && isMinimized == old(isMinimized) &&
                terminalColor == old(terminalColor) && !closeRequested
      ensures Trim(old(input)) != "" ==>
                var trimmed := Trim(old(input));
                var e := Interpret(trimmed);
                input == "" &&
                history == HistoryAfter(old(history), trimmed) &&
                terminalColor == ColorAfter(old(terminalColor), e) &&
                isMinimized == (old(isMinimized) || e == Minimize) &&
                closeRequested == (e == Close)
    {
      if Trim(input) != "" {
        closeRequested := ExecuteCommand(input);
        input := "";
      } else {
        closeRequested := false;
      }
    }
  }
}
