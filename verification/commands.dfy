/** The command interpreter of the console front end: the parameter-count
    rule and its error message, the audio file-name rule, and the dispatch
    of one line of tokens to a command. Console input and output, the
    splitting of a line into tokens and the numeric parsing of the
    `configure` settings are outside the model: a line arrives here already
    split into tokens. */
module Commands {
  import opened Wrappers
  import opened Decimal
  import opened Text

  // ---------------------------------------------------------------------
  // Parameter count

  /** What a parameter-count error message says, read back from its text. */
  datatype ArityWording = ArityWording(
    required: nat,
    given: nat,
    singularNoun: bool,    // "parameter" rather than "parameters"
    saysOnly: bool,        // "but only <given>" rather than "but <given>"
    singularVerb: bool)    // "was given" rather than "were given"

  function Noun(required: nat): string {
    if required == 1 then " parameter" else " parameters"
  }

  function Qualifier(given: nat): string {
    if given > 0 then "only " else ""
  }

  function Verb(given: nat): string {
    if given == 1 then " was" else " were"
  }

  /** The part of the message after the quoted command name. */
  function ArityTail(required: nat, given: nat): string {
    " requires " + (Show(required) + (Noun(required) + (" but "
      + (Qualifier(given) + (Show(given) + (Verb(given) + " given."))))))
  }

  function ArityMessage(command: string, required: nat, given: nat): string {
    "'" + command + "'" + ArityTail(required, given)
  }

  /** Reads a numeral off the front of `s` as `std::to_string` writes it
      (digits, no leading zero unless the numeral is "0"): its value and
      what follows it. */
  function ReadNumber(s: string): Option<(nat, string)> {
    var k := DigitRun(s);
    if k == 0 || (k > 1 && s[0] == '0') then None else Some((Value(s[..k]), s[k..]))
  }

  /** Reads the noun that follows the required count: whether it is the
      singular, and what follows " but ". */
  function ReadNoun(s: string): Option<(bool, string)> {
    if StartsWith(s, " parameter but ") then Some((true, s[15..]))
    else if StartsWith(s, " parameters but ") then Some((false, s[16..]))
    else None
  }

  /** Reads the optional "only " in front of the given count. */
  function ReadQualifier(s: string): (bool, string) {
    if StartsWith(s, "only ") then (true, s[5..]) else (false, s)
  }

  /** Reads the closing verb: whether it is the singular. */
  function ReadVerb(s: string): Option<bool> {
    if s == " was given." then Some(true)
    else if s == " were given." then Some(false)
    else None
  }

  /** Reads the counts and the wording choices back from the text that
      follows the quoted command name; `None` when the text is not shaped
      like a parameter-count message. */
  function ReadArityTail(t: string): Option<ArityWording> {
    if !StartsWith(t, " requires ") then None
    else
      match ReadNumber(t[10..])
      case None => None
      case Some((required, t2)) =>
        match ReadNoun(t2)
        case None => None
        case Some((singular, t3)) =>
          var (only, t4) := ReadQualifier(t3);
          match ReadNumber(t4)
          case None => None
          case Some((given, t5)) =>
            match ReadVerb(t5)
            case None => None
            case Some(was) => Some(ArityWording(required, given, singular, only, was))
  }

  /** Reads a parameter-count message about `command` back. */
  function ReadArityMessage(command: string, message: string): Option<ArityWording> {
    var head := "'" + command + "'";
    if StartsWith(message, head) then ReadArityTail(message[|head|..]) else None
  }

  /** The wording the message must use: "parameter" exactly for one required
      parameter, "only" exactly when some parameters were given, and "was"
      exactly for one given parameter. */
  function IntendedWording(required: nat, given: nat): ArityWording {
    ArityWording(required, given, required == 1, given > 0, given == 1)
  }

  lemma ReadNumberOfShow(n: nat, rest: string)
    requires |rest| == 0 || !IsDigit(rest[0])
    ensures ReadNumber(Show(n) + rest) == Some((n, rest))
  {
    var s := Show(n) + rest;
    DigitRunOfNumeral(Show(n), rest);
    assert s[..|Show(n)|] == Show(n);
    assert s[|Show(n)|..] == rest;
    ValueOfShow(n);
  }

  lemma ReadNounOfNoun(required: nat, rest: string)
    ensures ReadNoun(Noun(required) + (" but " + rest)) == Some((required == 1, rest))
  {
    var s := Noun(required) + (" but " + rest);
    if required == 1 {
      assert s == " parameter but " + rest;
      assert s[15..] == rest;
    } else {
      assert s == " parameters but " + rest;
      assert s[10] == 's';
      assert s[16..] == rest;
    }
  }

  lemma ReadQualifierOfQualifier(given: nat, rest: string)
    ensures ReadQualifier(Qualifier(given) + (Show(given) + rest)) == (given > 0, Show(given) + rest)
  {
    var s := Qualifier(given) + (Show(given) + rest);
    if given > 0 {
      assert s == "only " + (Show(given) + rest);
    } else {
      assert s == Show(given) + rest;
      assert s[0] == '0';
      assert !StartsWith(s, "only ") by {
        if |s| >= 5 { assert s[..5][0] != "only "[0]; }
      }
    }
  }

  lemma ReadVerbOfVerb(given: nat)
    ensures ReadVerb(Verb(given) + " given.") == Some(given == 1)
  {
  }

  lemma ReadArityTailRoundTrip(required: nat, given: nat)
    ensures ReadArityTail(ArityTail(required, given)) == Some(IntendedWording(required, given))
  {
    var t := ArityTail(required, given);
    var verb := Verb(given) + " given.";
    var afterBut := Qualifier(given) + (Show(given) + verb);
    var afterRequired := Noun(required) + (" but " + afterBut);
    assert t[10..] == Show(required) + afterRequired;
    assert StartsWith(t, " requires ");
    ReadNumberOfShow(required, afterRequired);
    assert ReadNumber(t[10..]) == Some((required, afterRequired));
    ReadNounOfNoun(required, afterBut);
    assert ReadNoun(afterRequired) == Some((required == 1, afterBut));
    ReadQualifierOfQualifier(given, verb);
    assert ReadQualifier(afterBut) == (given > 0, Show(given) + verb);
    ReadNumberOfShow(given, verb);
    ReadVerbOfVerb(given);
  }

  /** The parameter-count message, read back, gives the two counts and the
      wording the source intends for them. */
  lemma ReadArityMessageRoundTrip(command: string, required: nat, given: nat)
    ensures ReadArityMessage(command, ArityMessage(command, required, given))
            == Some(IntendedWording(required, given))
  {
    var head := "'" + command + "'";
    var m := ArityMessage(command, required, given);
    assert m[..|head|] == head;
    assert m[|head|..] == ArityTail(required, given);
    ReadArityTailRoundTrip(required, given);
  }

  /** Whatever `ReadNumber` accepts is a rendered number followed by text
      that does not start with a digit. */
  lemma ReadNumberParses(s: string, n: nat, rest: string)
    requires ReadNumber(s) == Some((n, rest))
    ensures s == Show(n) + rest
    ensures |rest| == 0 || !IsDigit(rest[0])
  {
    var k := DigitRun(s);
    ShowOfValue(s[..k]);
    assert s == s[..k] + s[k..];
  }

  lemma ReadNounParses(s: string, singular: bool, rest: string)
    requires ReadNoun(s) == Some((singular, rest))
    ensures s == (if singular then " parameter" else " parameters") + (" but " + rest)
  {
    if singular {
      assert s == s[..15] + s[15..];
    } else {
      assert s == s[..16] + s[16..];
    }
  }

  lemma ReadQualifierParses(s: string, only: bool, rest: string)
    requires ReadQualifier(s) == (only, rest)
    ensures s == (if only then "only " else "") + rest
  {
    if only {
      assert s == s[..5] + s[5..];
    }
  }

  lemma ReadVerbParses(s: string, given: nat)
    requires ReadVerb(s) == Some(given == 1)
    ensures s == Verb(given) + " given."
  {
  }

  /** The text after " but " that reads back as the given count in the
      intended wording is the end of the message about that count. */
  lemma ReadGivenExact(t3: string, given: nat)
    requires ReadQualifier(t3).0 == (given > 0)
    requires ReadNumber(ReadQualifier(t3).1).Some?
    requires ReadNumber(ReadQualifier(t3).1).value.0 == given
    requires ReadVerb(ReadNumber(ReadQualifier(t3).1).value.1) == Some(given == 1)
    ensures t3 == Qualifier(given) + (Show(given) + (Verb(given) + " given."))
  {
    var t4 := ReadQualifier(t3).1;
    ReadQualifierParses(t3, given > 0, t4);
    assert t3 == Qualifier(given) + t4;
    var t5 := ReadNumber(t4).value.1;
    ReadNumberParses(t4, given, t5);
    ReadVerbParses(t5, given);
  }

  /** A text that reads back as the intended wording of two counts is
      exactly the tail of the message about those counts. */
  lemma ReadArityTailExact(t: string, required: nat, given: nat)
    requires ReadArityTail(t) == Some(IntendedWording(required, given))
    ensures t == ArityTail(required, given)
  {
    assert t == " requires " + t[10..];
    var t2 := ReadNumber(t[10..]).value.1;
    ReadNumberParses(t[10..], required, t2);
    var t3 := ReadNoun(t2).value.1;
    ReadNounParses(t2, required == 1, t3);
    ReadGivenExact(t3, given);
  }

  /** A message about `command` that reads back at all is the quoted
      command followed by a tail that reads back the same way. */
  lemma ReadArityMessageSplit(command: string, message: string)
    requires ReadArityMessage(command, message).Some?
    ensures |"'" + command + "'"| <= |message|
    ensures message == ("'" + command + "'") + message[|"'" + command + "'"|..]
    ensures ReadArityTail(message[|"'" + command + "'"|..]) == ReadArityMessage(command, message)
  {
    var head := "'" + command + "'";
    assert message == message[..|head|] + message[|head|..];
  }

  /** Reading back determines the message: a text about `command` reads
      back as the intended wording of two counts exactly when it is the
      message built from them. */
  lemma ReadArityMessageExact(command: string, message: string, required: nat, given: nat)
    ensures ReadArityMessage(command, message) == Some(IntendedWording(required, given))
            <==> message == ArityMessage(command, required, given)
  {
    if ReadArityMessage(command, message) == Some(IntendedWording(required, given)) {
      ReadArityMessageSplit(command, message);
      ReadArityTailExact(message[|"'" + command + "'"|..], required, given);
    }
    if message == ArityMessage(command, required, given) {
      ReadArityMessageRoundTrip(command, required, given);
    }
  }

  /** The check a command makes on its parameter count: it passes exactly
      when the count matches, and otherwise fails with a message that names
      both counts in the intended wording. */
  function ValidateCommandParameters(command: string, required: nat, given: nat): (r: Outcome<string>)
    ensures r.Pass? <==> given == required
    ensures r.Fail? ==> ReadArityMessage(command, r.error) == Some(IntendedWording(required, given))
  {
    if given != required then
      ReadArityMessageRoundTrip(command, required, given);
      Fail(ArityMessage(command, required, given))
    else Pass
  }

  // ---------------------------------------------------------------------
  // Audio file names

  const InvalidNameError: string := InvalidNameHead + InvalidNameRule
  const InvalidNameHead: string := "Invalid audio file name. "
  const InvalidNameRule: string := "The file name must consist only of alphanumeric characters, dashes, and periods, and be either FLAC, WAV, or MP3."

  /** A member of the character class `[a-zA-Z0-9-.]`: in the ECMAScript
      grammar the `-` after the range `0-9` and the `.` inside brackets are
      both literal. */
  predicate NameChar(c: char) {
    ('a' <= c <= 'z') || ('A' <= c <= 'Z') || ('0' <= c <= '9') || c == '-' || c == '.'
  }

  /** What the unescaped `.` of an ECMAScript pattern matches: any character
      other than a line terminator. */
  predicate AnyChar(c: char) {
    c != '\n' && c != '\r'
  }

  const Extensions: seq<string> := ["flac", "wav", "mp3"]

  /** The pattern with its alternation fixed to `ext`: the last `|ext|`
      characters are `ext`, the one before them is any character, and all
      characters before that (at least one) are name characters. */
  predicate MatchesExtension(name: string, ext: string) {
    && |name| >= |ext| + 2
    && name[|name| - |ext|..] == ext
    && AnyChar(name[|name| - |ext| - 1])
    && forall i :: 0 <= i < |name| - |ext| - 1 ==> NameChar(name[i])
  }

  /** Whether `validate_name` accepts `name`. */
  predicate ValidName(name: string) {
    MatchesExtension(name, "flac") || MatchesExtension(name, "wav") || MatchesExtension(name, "mp3")
  }

  predicate NamePart(s: string) {
    |s| >= 1 && forall i :: 0 <= i < |s| ==> NameChar(s[i])
  }

  /** The language of the whole-string match, read directly off the pattern:
      a non-empty run of name characters, then one arbitrary character, then
      one of the extensions, with nothing before or after. */
  ghost predicate InNameLanguage(name: string) {
    exists k :: 1 <= k < |name| && NamePart(name[..k]) && AnyChar(name[k]) && name[k + 1..] in Extensions
  }

  /** A name that matches one of the extensions splits as the pattern
      requires, at the character before that extension. */
  lemma MatchGivesSplit(name: string, ext: string)
    requires ext in Extensions && MatchesExtension(name, ext)
    ensures InNameLanguage(name)
  {
    var k := |name| - |ext| - 1;
    assert name[k + 1..] == ext;
    assert forall i :: 0 <= i < k ==> name[..k][i] == name[i];
    assert NamePart(name[..k]);
  }

  /** A split as the pattern requires makes the name match the extension
      that ends it. */
  lemma SplitGivesMatch(name: string, k: int)
    requires 1 <= k < |name| && NamePart(name[..k]) && AnyChar(name[k])
    requires name[k + 1..] in Extensions
    ensures ValidName(name)
  {
    var ext := name[k + 1..];
    assert k == |name| - |ext| - 1;
    assert forall i :: 0 <= i < k ==> name[i] == name[..k][i];
    assert MatchesExtension(name, ext);
  }

  /** The file-name rule accepts exactly the strings the pattern matches. */
  lemma ValidNameIsPatternMatch(name: string)
    ensures ValidName(name) <==> InNameLanguage(name)
  {
    if MatchesExtension(name, "flac") {
      MatchGivesSplit(name, "flac");
    } else if MatchesExtension(name, "wav") {
      MatchGivesSplit(name, "wav");
    } else if MatchesExtension(name, "mp3") {
      MatchGivesSplit(name, "mp3");
    }
    if InNameLanguage(name) {
      var k :| 1 <= k < |name| && NamePart(name[..k]) && AnyChar(name[k]) && name[k + 1..] in Extensions;
      SplitGivesMatch(name, k);
    }
  }

  /** The extension is matched case-sensitively, the name part must be
      non-empty, and it holds no spaces. */
  lemma RefusedNames()
    ensures !ValidName("a.WAV")
    ensures !ValidName(".wav")
    ensures !ValidName("my song.wav")
  {
    assert "a.WAV"[2] != "wav"[0];
    assert "a.WAV"[1] != "flac"[0];
    assert "a.WAV"[2] != "mp3"[0];
    var spaced := "my song.wav";
    assert spaced[7] != "flac"[0];
    assert spaced[8] != "mp3"[0];
    assert !NameChar(spaced[2]);
  }

  /** The character before the extension is unrestricted: a name need not
      contain a period at all, and that one character may lie outside the
      name characters. */
  lemma AcceptedNames()
    ensures ValidName("shadowplay.flac")
    ensures ValidName("a-b.c.mp3")
    ensures ValidName("songxwav")
    ensures ValidName("song_wav")
  {
    assert MatchesExtension("shadowplay.flac", "flac");
    assert MatchesExtension("a-b.c.mp3", "mp3");
    assert MatchesExtension("songxwav", "wav");
    assert MatchesExtension("song_wav", "wav");
  }

  function ValidateName(name: string): (r: Outcome<string>)
    ensures r.Pass? <==> InNameLanguage(name)
    ensures r.Fail? ==> r.error == InvalidNameError
  {
    ValidNameIsPatternMatch(name);
    if ValidName(name) then Pass else Fail(InvalidNameError)
  }

  // ---------------------------------------------------------------------
  // Dispatch

  /** A recognised, validated command line. The five `configure` settings
      are kept as the raw tokens handed to the numeric parser. */
  datatype Command =
    | Configure(settings: seq<string>)
    | View(fileName: string)
    | Export(fileName: string, format: string, orientation: string)
    | Exit
    | Help

  const NoCommandError: string := "No command entered."
  const UnrecognizedError: string := "Unrecognized command."

  /** The dispatch table: the parameter count each checked command takes
      once the command word is removed. `exit` and `help` are not checked. */
  function Arity(commandName: string): Option<nat> {
    if commandName == "configure" then Some(5)
    else if commandName == "view" then Some(1)
    else if commandName == "export" then Some(3)
    else None
  }

  /** The dispatch step of one iteration of the read-evaluate loop on a line
      already split into tokens: the command it hands on, or the error the
      interpreter itself reports. Errors raised while the command runs are
      not part of this outcome. */
  function Interpret(tokens: seq<string>): (r: Result<Command, string>)
    ensures |tokens| == 0 ==> r == Failure(NoCommandError)
    ensures |tokens| > 0 && Arity(tokens[0]).Some? && |tokens| - 1 != Arity(tokens[0]).value
            ==> r.Failure? && ReadArityMessage(tokens[0], r.error)
                 == Some(IntendedWording(Arity(tokens[0]).value, |tokens| - 1))
    ensures |tokens| > 0 && Arity(tokens[0]).None? && tokens[0] != "exit" && tokens[0] != "help"
            ==> r == Failure(UnrecognizedError)
    ensures r.Success? ==> |tokens| > 0 && Render(r.value) <= tokens
    ensures r == Success(Exit) <==> IsExitLine(tokens)
    ensures IsHelpLine(tokens) ==> r == Success(Help)
  {
    if |tokens| == 0 then Failure(NoCommandError)
    else
      var commandName := tokens[0];
      var parameters := tokens[1..];
      if commandName == "configure" then
        var arity := ValidateCommandParameters(commandName, 5, |parameters|);
        if arity.Fail? then Failure(arity.error)
        else Success(Configure(parameters))
      else if commandName == "view" then
        var arity := ValidateCommandParameters(commandName, 1, |parameters|);
        if arity.Fail? then Failure(arity.error)
        else
          var name := ValidateName(parameters[0]);
          if name.Fail? then Failure(name.error)
          else Success(View(parameters[0]))
      else if commandName == "export" then
        var arity := ValidateCommandParameters(commandName, 3, |parameters|);
        if arity.Fail? then Failure(arity.error)
        else
          var name := ValidateName(parameters[0]);
          if name.Fail? then Failure(name.error)
          else Success(Export(parameters[0], parameters[1], parameters[2]))
      else if commandName == "exit" then Success(Exit)
      else if commandName == "help" then Success(Help)
      else Failure(UnrecognizedError)
  }

  /** The shortest token line that spells a command. */
  function Render(c: Command): seq<string> {
    match c
    case Configure(settings) => ["configure"] + settings
    case View(fileName) => ["view", fileName]
    case Export(fileName, format, orientation) => ["export", fileName, format, orientation]
    case Exit => ["exit"]
    case Help => ["help"]
  }

  /** The commands a user can actually enter. */
  ghost predicate WellFormed(c: Command) {
    match c
    case Configure(settings) => |settings| == 5
    case View(fileName) => InNameLanguage(fileName)
    case Export(fileName, _, _) => InNameLanguage(fileName)
    case _ => true
  }

  /** Spelling a well-formed command and interpreting the line gives the
      command back; and every command the interpreter accepts is
      well-formed. */
  lemma InterpretRender(c: Command)
    ensures WellFormed(c) <==> Interpret(Render(c)) == Success(c)
  {
  }

  /** A `view` or `export` line with the right parameter count but a file
      name the pattern refuses reports the invalid-name error. */
  lemma InterpretRefusedName(tokens: seq<string>)
    requires |tokens| > 0 && (tokens[0] == "view" || tokens[0] == "export")
    requires |tokens| - 1 == Arity(tokens[0]).value
    requires !InNameLanguage(tokens[1])
    ensures Interpret(tokens) == Failure(InvalidNameError)
  {
  }

  /** Only `exit` and `help` ignore trailing tokens: any other accepted line
      is exactly the spelling of its command. */
  lemma InterpretExact(tokens: seq<string>)
    requires Interpret(tokens).Success?
    requires !Interpret(tokens).value.Exit? && !Interpret(tokens).value.Help?
    ensures Render(Interpret(tokens).value) == tokens
  {
  }

  /** The parameter count is checked before the file name: a `view` or
      `export` line with the wrong count reports the count, whatever the
      name is. */
  lemma ArityCheckedBeforeName(tokens: seq<string>)
    requires |tokens| > 0 && (tokens[0] == "view" || tokens[0] == "export")
    requires |tokens| - 1 != Arity(tokens[0]).value
    ensures Interpret(tokens).Failure?
    ensures Interpret(tokens).error != InvalidNameError
  {
    var e := Interpret(tokens).error;
    var head := "'" + tokens[0] + "'";
    assert ReadArityMessage(tokens[0], e).Some?;
    assert e[..|head|] == head;
    assert e[0] == e[..|head|][0] == '\'';
    assert InvalidNameError[0] == InvalidNameHead[0] == 'I';
  }

  // ---------------------------------------------------------------------
  // The session loop

  predicate IsExitLine(tokens: seq<string>) {
    |tokens| > 0 && tokens[0] == "exit"
  }

  predicate IsHelpLine(tokens: seq<string>) {
    |tokens| > 0 && tokens[0] == "help"
  }

  /** The outcomes of interpreting each line in turn. */
  function InterpretEach(lines: seq<seq<string>>): (outcomes: seq<Result<Command, string>>)
    ensures |outcomes| == |lines|
  {
    seq(|lines|, i requires 0 <= i < |lines| => Interpret(lines[i]))
  }

  /** Entry `i` of the outcomes is the interpretation of line `i`; entry `i`
      ends the session exactly when line `i` is an `exit` line. */
  lemma InterpretEachAt(lines: seq<seq<string>>, i: nat)
    requires i < |lines|
    ensures InterpretEach(lines)[i] == Interpret(lines[i])
    ensures InterpretEach(lines)[i] == Success(Exit) <==> IsExitLine(lines[i])
  {
  }

  /** Runs the read-evaluate loop over the lines the user enters, in order,
      until a line ends the session. Returns the outcome of every line
      evaluated and whether the session ended. Interpreting a line has no
      effect on later lines, so the loop finds where the session stops and
      the outcomes are the interpretations of the lines up to there. */
  method RunSession(lines: seq<seq<string>>) returns (outcomes: seq<Result<Command, string>>, exited: bool)
    ensures |outcomes| <= |lines|
    ensures outcomes == InterpretEach(lines[..|outcomes|])
    ensures exited <==> exists i :: 0 <= i < |lines| && IsExitLine(lines[i])
    ensures exited ==> |outcomes| > 0 && IsExitLine(lines[|outcomes| - 1])
    ensures forall i :: 0 <= i < |outcomes| - 1 ==> !IsExitLine(lines[i])
    ensures !exited ==> |outcomes| == |lines|
  {
    exited := false;
    var n := 0;
    while n < |lines| && !exited
      invariant 0 <= n <= |lines|
      invariant forall i :: 0 <= i < n - 1 ==> !IsExitLine(lines[i])
      invariant exited <==> n > 0 && IsExitLine(lines[n - 1])
    {
      exited := IsExitLine(lines[n]);
      n := n + 1;
    }
    outcomes := InterpretEach(lines[..n]);
  }
}
