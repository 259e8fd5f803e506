/** The sudoers fragment: which specifications are accepted and what the rule line says. */
module Sudoers {
  import opened Bytes

  /** A path is text, or bytes that are no text; only the first kind can be rendered. */
  datatype Path = TextPath(text: string) | BytePath(absolute: bool)

  datatype Spec = Spec(group: string, binary: Path, args: seq<string>)

  datatype Problem =
    | EmptyGroup | BadGroup(c: char)
    | RelativeBinary | BinaryNotText | BadBinary(c: char)
    | NoArgs | EmptyArg | BadArg(arg: string, c: char)

  // ----- characters -----

  predicate Safe(c: char) {
    || '0' <= c <= '9' || 'A' <= c <= 'Z' || 'a' <= c <= 'z'
    || c in {'.', '/', ':', '=', '-', '_', '+', '@', '%'}
  }

  predicate Special(c: char) {
    c in {':', ',', '=', '!', '(', ')', '\\'}
  }

  function FirstUnsafe(s: string): (r: Option<char>)
    ensures r.None? <==> forall c | c in s :: Safe(c)
  {
    if s == "" then None else if !Safe(s[0]) then Some(s[0]) else FirstUnsafe(s[1..])
  }

  method InvalidChars(s: string) returns (r: Option<char>)
    ensures r == FirstUnsafe(s)
  {
    var n := 0;
    assert s[0..] == s;
    while n < |s|
      invariant n <= |s| && FirstUnsafe(s) == FirstUnsafe(s[n..])
    {
      assert s[n..][1..] == s[n + 1..];
      if !Safe(s[n]) {
        return Some(s[n]);
      }
      n := n + 1;
    }
    return None;
  }

  function Escape(s: string): string {
    if s == "" then "" else (if Special(s[0]) then ['\\', s[0]] else [s[0]]) + Escape(s[1..])
  }

  method EscapeSudoers(s: string) returns (out: string)
    ensures out == Escape(s)
  {
    out := "";
    var n := 0;
    assert s[0..] == s;
    while n < |s|
      invariant n <= |s| && out + Escape(s[n..]) == Escape(s)
    {
      assert s[n..][1..] == s[n + 1..];
      if Special(s[n]) {
        out := out + ['\\'];
      }
      out := out + [s[n]];
      n := n + 1;
    }
  }

  // ----- rendering -----

  predicate Absolute(p: Path) {
    match p
    case TextPath(text) => text != "" && text[0] == '/'
    case BytePath(absolute) => absolute
  }

  predicate Word(s: string) {
    s != "" && forall c | c in s :: Safe(c)
  }

  predicate Accepted(s: Spec) {
    && Word(s.group)
    && Absolute(s.binary) && s.binary.TextPath? && Word(s.binary.text)
    && s.args != [] && forall a | a in s.args :: Word(a)
  }

  function ArgProblem(args: seq<string>): (r: Option<Problem>)
    ensures r.None? <==> forall a | a in args :: Word(a)
  {
    if args == [] then None
    else
      assert args[0] in args;
      if args[0] == "" then Some(EmptyArg)
      else if FirstUnsafe(args[0]).Some? then Some(BadArg(args[0], FirstUnsafe(args[0]).value))
      else ArgProblem(args[1..])
  }

  /** The first thing wrong with a specification, in the order it is looked at. */
  function FirstProblem(s: Spec): (r: Option<Problem>)
    ensures r.None? <==> Accepted(s)
  {
    if s.group == "" then Some(EmptyGroup)
    else if FirstUnsafe(s.group).Some? then Some(BadGroup(FirstUnsafe(s.group).value))
    else if !Absolute(s.binary) then Some(RelativeBinary)
    else if s.binary.BytePath? then Some(BinaryNotText)
    else if FirstUnsafe(s.binary.text).Some? then Some(BadBinary(FirstUnsafe(s.binary.text).value))
    else if s.args == [] then Some(NoArgs)
    else ArgProblem(s.args)
  }

  // In pieces: the verifier looks at literals character by character.
  const COMMENT_1 := "# " + "Generated by `usbipd sudoers` \U{2014} " + "do not edit by hand."
  const COMMENT_2 := "# " + "Install with:  usbipd sudoers " + "... | sudo tee " + "/etc/sudoers.d/usbipd"
  const COMMENT_3 := "# " + "Re-run whenever the binary path " + "or daemon arguments change."
  const HOSTS := "ALL=(root:wheel)"
  const TAGS := "NOPASSWD:NOSETENV:"

  function EscapedArgs(args: seq<string>): string {
    if args == [] then "" else " " + Escape(args[0]) + EscapedArgs(args[1..])
  }

  function Rule(group: string, binary: string, args: seq<string>): string {
    "%" + group + " " + HOSTS + " " + TAGS + " " + Escape(binary) + EscapedArgs(args)
  }

  function Preamble(): string {
    COMMENT_1 + "\n" + COMMENT_2 + "\n" + COMMENT_3 + "\n" + "\n"
  }

  function Fragment(group: string, binary: string, args: seq<string>): string {
    Preamble() + Rule(group, binary, args) + "\n"
  }

  method CheckArgs(args: seq<string>) returns (r: Option<Problem>)
    ensures r == ArgProblem(args)
  {
    var n := 0;
    assert args[0..] == args;
    while n < |args|
      invariant n <= |args| && ArgProblem(args) == ArgProblem(args[n..])
    {
      assert args[n..][1..] == args[n + 1..];
      if args[n] == "" {
        return Some(EmptyArg);
      }
      var c := InvalidChars(args[n]);
      if c.Some? {
        return Some(BadArg(args[n], c.value));
      }
      n := n + 1;
    }
    return None;
  }

  method WriteFragment(group: string, binary: string, args: seq<string>) returns (out: string)
    ensures out == Fragment(group, binary, args)
  {
    hide Preamble, Escape;
    var escaped := EscapeSudoers(binary);
    out := Preamble() + ("%" + group + " " + HOSTS + " " + TAGS + " " + escaped);
    ghost var start := out;
    var n := 0;
    assert args[0..] == args;
    while n < |args|
      invariant n <= |args| && out + EscapedArgs(args[n..]) == start + EscapedArgs(args)
    {
      assert args[n..][1..] == args[n + 1..];
      escaped := EscapeSudoers(args[n]);
      assert out + (" " + escaped + EscapedArgs(args[n + 1..])) == out + (" " + escaped) + EscapedArgs(args[n + 1..]);
      out := out + (" " + escaped);
      n := n + 1;
    }
    assert args[n..] == [] && out + "" == out;
    out := out + "\n";
  }

  /** Accepts exactly the representable specifications, and names the first problem of any other. */
  method Render(s: Spec) returns (r: Result<string, Problem>)
    ensures r.Ok? <==> Accepted(s)
    ensures r.Ok? ==> r.value == Fragment(s.group, s.binary.text, s.args)
    ensures r.Err? ==> FirstProblem(s) == Some(r.error)
  {
    hide Fragment;
    if s.group == "" {
      return Err(EmptyGroup);
    }
    var c := InvalidChars(s.group);
    if c.Some? {
      return Err(BadGroup(c.value));
    }
    if !Absolute(s.binary) {
      return Err(RelativeBinary);
    }
    if s.binary.BytePath? {
      return Err(BinaryNotText);
    }
    c := InvalidChars(s.binary.text);
    if c.Some? {
      return Err(BadBinary(c.value));
    }
    if s.args == [] {
      return Err(NoArgs);
    }
    var problem := CheckArgs(s.args);
    if problem.Some? {
      return Err(problem.value);
    }
    var out := WriteFragment(s.group, s.binary.text, s.args);
    r := Ok(out);
  }

  // ----- reading a fragment -----

  function UpTo(t: string, c: char): (l: string)
    ensures |l| <= |t|
  {
    if t == "" || t[0] == c then "" else [t[0]] + UpTo(t[1..], c)
  }

  function Lines(t: string): seq<string>
    decreases |t|
  {
    if t == "" then []
    else
      var l := UpTo(t, '\n');
      [l] + Lines(if |l| < |t| then t[|l| + 1..] else "")
  }

  /** The lines that are neither blank nor comments. */
  function Rules(lines: seq<string>): seq<string> {
    if lines == [] then []
    else (if lines[0] == "" || lines[0][0] == '#' then [] else [lines[0]]) + Rules(lines[1..])
  }

  /** sudoers(5) words: they end at a space or at an unescaped special character. */
  datatype Token = Name(text: string) | Mark(c: char) | Gap

  function Lex(s: string): seq<Token> {
    if s == "" then []
    else if s[0] == ' ' then [Gap] + Lex(s[1..])
    else if s[0] == '\\' && |s| > 1 then Grow(s[1], Lex(s[2..]))
    else if Special(s[0]) then [Mark(s[0])] + Lex(s[1..])
    else Grow(s[0], Lex(s[1..]))
  }

  function Grow(c: char, ts: seq<Token>): seq<Token> {
    if ts != [] && ts[0].Name? then [Name([c] + ts[0].text)] + ts[1..] else [Name([c])] + ts
  }

  /** Hosts, run-as list and tags of the rule. */
  const FIXED: seq<Token> :=
    [Gap, Name("ALL"), Mark('='), Mark('('), Name("root"), Mark(':'), Name("wheel"), Mark(')'),
     Gap, Name("NOPASSWD"), Mark(':'), Name("NOSETENV"), Mark(':'), Gap]

  function ReadArgs(ts: seq<Token>): Option<seq<string>> {
    if ts == [] then Some([])
    else if |ts| > 1 && ts[0].Gap? && ts[1].Name? then
      match ReadArgs(ts[2..])
      case Some(args) => Some([ts[1].text] + args)
      case None => None
    else None
  }

  /** A command and its arguments, each one word. */
  function ReadCommand(ts: seq<Token>): Option<(string, seq<string>)> {
    if ts == [] || !ts[0].Name? then None
    else
      match ReadArgs(ts[1..])
      case Some(args) => Some((ts[0].text, args))
      case None => None
  }

  /** One user, which is a group, and one command, between them exactly the fixed part. */
  function ReadRule(ts: seq<Token>): Option<(string, string, seq<string>)> {
    if |ts| < 15 || !ts[0].Name? || ts[0].text == "" || ts[0].text[0] != '%' || ts[1..15] != FIXED then None
    else
      match ReadCommand(ts[15..])
      case Some((binary, args)) => Some((ts[0].text[1..], binary, args))
      case None => None
  }

  /** The group, binary and arguments of a fragment that has one rule. */
  function ReadFragment(t: string): Option<(string, string, seq<string>)> {
    var rules := Rules(Lines(t));
    if |rules| != 1 then None else ReadRule(Lex(rules[0]))
  }

  function Unescape(s: string): string {
    if s == "" then ""
    else if s[0] == '\\' && |s| > 1 then [s[1]] + Unescape(s[2..])
    else [s[0]] + Unescape(s[1..])
  }

  lemma {:induction false} UnescapeOfEscape(s: string)
    ensures Unescape(Escape(s)) == s
  {
    if s != "" {
      UnescapeOfEscape(s[1..]);
      var e := Escape(s);
      if Special(s[0]) {
        assert e[0] == '\\' && e[1] == s[0] && e[2..] == Escape(s[1..]);
      } else {
        assert e[0] == s[0] && e[1..] == Escape(s[1..]);
      }
      assert s == [s[0]] + s[1..];
    }
  }

  /** None of the characters that sudoers or a shell gives a meaning to, white space or quotes, gets in. */
  lemma AcceptedIsHarmless(s: Spec, w: string, c: char)
    requires Accepted(s) && (w == s.group || w == s.binary.text || w in s.args) && c in w
    ensures c !in {';', ',', '#', '\\', '*', '?', '[', ']', '&', '|', '<', '>', '$', '`', '\'', '"'}
    ensures c !in {'!', '(', ')', '~', '^'}
    ensures c !in {' ', '\t', '\n', '\r', '\0', '{', '}'} && c < 0x7F as char
  {
    assert Safe(c);
  }

  /** What is let in: letters, digits and nine more characters. */
  lemma SafeExactly(c: char)
    ensures Safe(c) <==> c in "abcdefghijklmnopqrstuvwxyz" || c in "ABCDEFGHIJKLMNOPQRSTUVWXYZ"
                         || c in "0123456789" || c in "./:=-_+@%"
  {
  }

  /** The seven characters that end a word in sudoers(5). */
  lemma SpecialExactly(c: char)
    ensures Special(c) <==> c in ":,=!()\\"
  {
  }

  /** Each problem is reported exactly when nothing that is looked at before it is wrong. */
  lemma ProblemOrder(s: Spec)
    ensures FirstProblem(s) == Some(EmptyGroup) <==> s.group == ""
    ensures FirstProblem(s).Some? && FirstProblem(s).value.BadGroup? <==> s.group != "" && !Word(s.group)
    ensures FirstProblem(s) == Some(RelativeBinary) <==> Word(s.group) && !Absolute(s.binary)
    ensures FirstProblem(s) == Some(BinaryNotText) <==> Word(s.group) && s.binary == BytePath(true)
    ensures FirstProblem(s).Some? && FirstProblem(s).value.BadBinary? <==>
            Word(s.group) && Absolute(s.binary) && s.binary.TextPath? && !Word(s.binary.text)
    ensures FirstProblem(s) == Some(NoArgs) <==>
            Word(s.group) && Absolute(s.binary) && s.binary.TextPath? && Word(s.binary.text) && s.args == []
  {
    ArgProblemKind(s.args);
  }

  lemma {:induction false} ArgProblemKind(args: seq<string>)
    ensures ArgProblem(args).Some? ==> ArgProblem(args).value.EmptyArg? || ArgProblem(args).value.BadArg?
  {
    if args != [] {
      ArgProblemKind(args[1..]);
    }
  }

  /** The character reported is the first unsafe one. */
  lemma {:induction false} FirstUnsafeIs(s: string, n: nat)
    requires n < |s| && !Safe(s[n]) && forall i | 0 <= i < n :: Safe(s[i])
    ensures FirstUnsafe(s) == Some(s[n])
  {
    if n > 0 {
      assert s[1..][n - 1] == s[n] && forall i | 0 <= i < n - 1 :: s[1..][i] == s[i + 1];
      FirstUnsafeIs(s[1..], n - 1);
    }
  }

  // ----- words -----

  /** No word goes on here. */
  predicate Breaks(s: string) {
    s == "" || s[0] == ' ' || (Special(s[0]) && s[0] != '\\')
  }

  lemma BreaksEndWords(s: string)
    requires Breaks(s)
    ensures Lex(s) == [] || !Lex(s)[0].Name?
  {
  }

  lemma GrowOnto(c: char, w: string, ts: seq<Token>)
    requires ts == [] || !ts[0].Name?
    ensures Grow(c, (if w == "" then [] else [Name(w)]) + ts) == [Name([c] + w)] + ts
  {
    assert [] + ts == ts && ([Name(w)] + ts)[1..] == ts && [c] + "" == [c];
  }

  /** An escaped word reads as itself, whatever special characters it has. */
  lemma {:induction false} EscapedWordRead(w: string, rest: string)
    requires ' ' !in w && Breaks(rest)
    ensures Lex(Escape(w) + rest) == (if w == "" then [] else [Name(w)]) + Lex(rest)
  {
    hide Breaks, Grow;
    var t := Escape(w) + rest;
    if w == "" {
      assert t == rest;
    } else {
      EscapedWordRead(w[1..], rest);
      BreaksEndWords(rest);
      GrowOnto(w[0], w[1..], Lex(rest));
      if Special(w[0]) {
        assert t[0] == '\\' && t[1] == w[0] && t[2..] == Escape(w[1..]) + rest;
      } else {
        assert t[0] == w[0] && t[1..] == Escape(w[1..]) + rest;
      }
      assert w == [w[0]] + w[1..];
    }
  }

  predicate Plain(w: string) {
    ' ' !in w && forall c | c in w :: !Special(c)
  }

  lemma {:induction false} PlainEscape(w: string)
    requires Plain(w)
    ensures Escape(w) == w
  {
    if w != "" {
      PlainEscape(w[1..]);
      assert w == [w[0]] + w[1..];
    }
  }

  lemma PlainWordRead(w: string, rest: string)
    requires w != "" && Plain(w) && Breaks(rest)
    ensures Lex(w + rest) == [Name(w)] + Lex(rest)
  {
    hide Breaks, Lex, Special;
    PlainEscape(w);
    EscapedWordRead(w, rest);
  }

  lemma MarkRead(c: char, rest: string)
    requires Special(c) && c != '\\'
    ensures Lex([c] + rest) == [Mark(c)] + Lex(rest) && Breaks([c] + rest)
  {
    assert ([c] + rest)[1..] == rest;
  }

  lemma GapRead(rest: string)
    ensures Lex([' '] + rest) == [Gap] + Lex(rest) && Breaks([' '] + rest)
  {
    assert ([' '] + rest)[1..] == rest;
  }

  // ----- the rule -----

  lemma TagsRead(rest: string)
    ensures Lex(TAGS + [' '] + rest) ==
            [Name("NOPASSWD"), Mark(':'), Name("NOSETENV"), Mark(':'), Gap] + Lex(rest)
  {
    hide Lex, Breaks;
    var r2 := [':'] + ([' '] + rest);
    var r1 := [':'] + ("NOSETENV" + r2);
    GapRead(rest);
    MarkRead(':', [' '] + rest);
    PlainWordRead("NOSETENV", r2);
    MarkRead(':', "NOSETENV" + r2);
    PlainWordRead("NOPASSWD", r1);
    assert TAGS + [' '] + rest == "NOPASSWD" + r1;
  }

  lemma RunAsRead(rest: string)
    requires Breaks(rest)
    ensures Lex("root:wheel)" + rest) == [Name("root"), Mark(':'), Name("wheel"), Mark(')')] + Lex(rest)
  {
    hide Lex, Breaks;
    var r2 := [')'] + rest;
    var r1 := [':'] + ("wheel" + r2);
    MarkRead(')', rest);
    PlainWordRead("wheel", r2);
    MarkRead(':', "wheel" + r2);
    PlainWordRead("root", r1);
    assert "root:wheel)" + rest == "root" + r1;
  }

  lemma HostsRead(rest: string)
    requires Breaks(rest)
    ensures Lex(HOSTS + rest) ==
            [Name("ALL"), Mark('='), Mark('('), Name("root"), Mark(':'), Name("wheel"), Mark(')')] + Lex(rest)
  {
    hide Lex, Breaks;
    var r2 := "root:wheel)" + rest;
    var r1 := ['='] + (['('] + r2);
    RunAsRead(rest);
    MarkRead('(', r2);
    MarkRead('=', ['('] + r2);
    PlainWordRead("ALL", r1);
    assert HOSTS + rest == "ALL" + r1;
  }

  lemma FixedRead(rest: string)
    ensures Lex([' '] + (HOSTS + ([' '] + (TAGS + [' '] + rest)))) == FIXED + Lex(rest)
  {
    hide Lex, Breaks;
    var r2 := TAGS + [' '] + rest;
    TagsRead(rest);
    GapRead(r2);
    HostsRead([' '] + r2);
    GapRead(HOSTS + ([' '] + r2));
  }

  function ArgTokens(args: seq<string>): seq<Token> {
    if args == [] then [] else [Gap, Name(args[0])] + ArgTokens(args[1..])
  }

  lemma {:induction false} ArgTokensRead(args: seq<string>)
    ensures ReadArgs(ArgTokens(args)) == Some(args)
  {
    if args != [] {
      ArgTokensRead(args[1..]);
      assert ArgTokens(args)[2..] == ArgTokens(args[1..]);
      assert args == [args[0]] + args[1..];
    }
  }

  lemma WordIsSafe(s: string)
    requires Word(s)
    ensures s != "" && ' ' !in s && '\n' !in s && '\\' !in s
  {
  }

  lemma {:induction false} ArgsRead(args: seq<string>)
    requires forall a | a in args :: Word(a)
    ensures Lex(EscapedArgs(args)) == ArgTokens(args) && Breaks(EscapedArgs(args))
  {
    hide Word, Escape;
    if args != [] {
      assert args[0] in args;
      WordIsSafe(args[0]);
      ArgsRead(args[1..]);
      hide Lex, Breaks;
      EscapedWordRead(args[0], EscapedArgs(args[1..]));
      var rest := Escape(args[0]) + EscapedArgs(args[1..]);
      GapRead(rest);
      assert EscapedArgs(args) == [' '] + rest;
    }
  }

  /** The command part reads as the binary and the arguments. */
  lemma CommandRead(binary: string, args: seq<string>)
    requires Word(binary) && forall a | a in args :: Word(a)
    ensures ReadCommand(Lex(Escape(binary) + EscapedArgs(args))) == Some((binary, args))
  {
    hide Word, Escape, Lex, Breaks;
    WordIsSafe(binary);
    ArgsRead(args);
    EscapedWordRead(binary, EscapedArgs(args));
    ArgTokensRead(args);
    var ts := [Name(binary)] + ArgTokens(args);
    assert ts[1..] == ArgTokens(args);
  }

  /** Where the group ends for the reader: at its first special character, since it is not escaped. */
  lemma {:induction false} SplitAtSpecial(w: string) returns (p: string, c: char, q: string)
    requires ' ' !in w && '\\' !in w && !Plain(w)
    ensures w == p + [c] + q && Plain(p) && Special(c) && c != '\\'
  {
    if Special(w[0]) {
      p, c, q := "", w[0], w[1..];
    } else {
      p, c, q := SplitAtSpecial(w[1..]);
      p := [w[0]] + p;
    }
    assert w == [w[0]] + w[1..];
  }

  function RuleTail(binary: string, args: seq<string>): string {
    [' '] + (HOSTS + ([' '] + (TAGS + [' '] + (Escape(binary) + EscapedArgs(args)))))
  }

  lemma RuleIs(group: string, binary: string, args: seq<string>)
    ensures Rule(group, binary, args) == ("%" + group) + RuleTail(binary, args)
  {
    hide Escape, EscapedArgs;
  }

  /**
   * Reading a rule recovers group, binary and arguments exactly if the group has no special character.
   * The group is the one part that is printed without escapes.
   */
  lemma RuleRead(group: string, binary: string, args: seq<string>)
    requires Word(group) && Word(binary) && forall a | a in args :: Word(a)
    ensures ReadRule(Lex(Rule(group, binary, args))) ==
            if Plain(group) then Some((group, binary, args)) else None
  {
    hide Word, Escape, Lex, EscapedArgs, Plain, Breaks, RuleTail, ReadCommand;
    WordIsSafe(group);
    RuleIs(group, binary, args);
    TailRead(binary, args);
    var tail := RuleTail(binary, args);
    var command := Lex(Escape(binary) + EscapedArgs(args));
    if Plain(group) {
      PercentPlain(group);
      PlainWordRead("%" + group, tail);
      var ts := [Name("%" + group)] + (FIXED + command);
      assert ts[1..15] == FIXED && ts[15..] == command;
      CommandRead(binary, args);
      assert ("%" + group)[1..] == group;
    } else {
      var p, c, q := SplitAtSpecial(group);
      PercentPlain(p);
      MarkRead(c, q + tail);
      PlainWordRead("%" + p, [c] + (q + tail));
      assert ("%" + group) + tail == ("%" + p) + ([c] + (q + tail));
      var ts := Lex(Rule(group, binary, args));
      assert ts[1] == Mark(c);
      assert |ts| >= 15 ==> ts[1..15][0] == Mark(c) && FIXED[0] == Gap;
    }
  }

  lemma TailRead(binary: string, args: seq<string>)
    ensures Lex(RuleTail(binary, args)) == FIXED + Lex(Escape(binary) + EscapedArgs(args))
    ensures Breaks(RuleTail(binary, args))
  {
    hide Lex, Escape, EscapedArgs;
    FixedRead(Escape(binary) + EscapedArgs(args));
  }

  lemma PercentPlain(p: string)
    requires Plain(p)
    ensures Plain("%" + p)
  {
  }

  // ----- the lines -----

  lemma {:induction false} EscapeAddsBackslashes(s: string)
    requires '\n' !in s
    ensures '\n' !in Escape(s)
  {
    if s != "" {
      EscapeAddsBackslashes(s[1..]);
    }
  }

  lemma {:induction false} ArgsOnOneLine(args: seq<string>)
    requires forall a | a in args :: Word(a)
    ensures '\n' !in EscapedArgs(args)
  {
    if args != [] {
      assert args[0] in args;
      WordIsSafe(args[0]);
      EscapeAddsBackslashes(args[0]);
      ArgsOnOneLine(args[1..]);
    }
  }

  lemma RuleOnOneLine(group: string, binary: string, args: seq<string>)
    requires Word(group) && Word(binary) && forall a | a in args :: Word(a)
    ensures '\n' !in Rule(group, binary, args) && Rule(group, binary, args)[0] == '%'
  {
    hide Word, Escape, EscapedArgs;
    WordIsSafe(group);
    WordIsSafe(binary);
    EscapeAddsBackslashes(binary);
    ArgsOnOneLine(args);
  }

  lemma {:induction false} UpToFirst(l: string, c: char, rest: string)
    requires c !in l
    ensures UpTo(l + [c] + rest, c) == l
  {
    var t := l + [c] + rest;
    if l != "" {
      assert t[0] == l[0] && t[1..] == l[1..] + [c] + rest;
      UpToFirst(l[1..], c, rest);
      assert l == [l[0]] + l[1..];
    }
  }

  lemma LinesCons(l: string, rest: string)
    requires '\n' !in l
    ensures Lines(l + "\n" + rest) == [l] + Lines(rest)
  {
    hide UpTo;
    UpToFirst(l, '\n', rest);
    var t := l + "\n" + rest;
    assert t[|l| + 1..] == rest;
  }

  predicate IsComment(l: string) {
    l != "" && l[0] == '#' && '\n' !in l
  }

  lemma Comment1()
    ensures IsComment(COMMENT_1)
  {
  }

  lemma Comment2()
    ensures IsComment(COMMENT_2)
  {
  }

  lemma Comment3()
    ensures IsComment(COMMENT_3)
  {
  }

  /** The fragment of an accepted specification has one rule line. */
  lemma OneRule(group: string, binary: string, args: seq<string>)
    requires Word(group) && Word(binary) && forall a | a in args :: Word(a)
    ensures Rules(Lines(Fragment(group, binary, args))) == [Rule(group, binary, args)]
  {
    hide Word, Lines, Rules;
    RuleOnOneLine(group, binary, args);
    Comment1();
    Comment2();
    Comment3();
    OneRuleAfter(COMMENT_1, COMMENT_2, COMMENT_3, Rule(group, binary, args));
  }

  /** Three comments, a blank line and a rule. */
  lemma OneRuleAfter(c1: string, c2: string, c3: string, rule: string)
    requires IsComment(c1) && IsComment(c2) && IsComment(c3) && rule != "" && rule[0] == '%' && '\n' !in rule
    ensures Rules(Lines(c1 + "\n" + c2 + "\n" + c3 + "\n" + "\n" + rule + "\n")) == [rule]
  {
    hide Lines, Rules;
    var t3 := rule + "\n" + "";
    var t2 := "" + "\n" + t3;
    var t1 := c3 + "\n" + t2;
    var t0 := c2 + "\n" + t1;
    LinesCons(rule, "");
    LinesCons("", t3);
    LinesCons(c3, t2);
    LinesCons(c2, t1);
    LinesCons(c1, t0);
    assert c1 + "\n" + c2 + "\n" + c3 + "\n" + "\n" + rule + "\n" == c1 + "\n" + t0;
    NoLines();
    var l := [rule] + [];
    assert l == [rule];
    RulesCons(rule, []);
    RulesCons("", l);
    RulesCons(c3, [""] + l);
    RulesCons(c2, [c3] + ([""] + l));
    RulesCons(c1, [c2] + ([c3] + ([""] + l)));
    assert Rules(l) == [rule] && forall r: seq<string> :: [] + r == r;
  }

  lemma NoLines()
    ensures Lines("") == [] && Rules([]) == []
  {
  }

  lemma RulesCons(l: string, lines: seq<string>)
    ensures Rules([l] + lines) == (if l == "" || l[0] == '#' then [] else [l]) + Rules(lines)
  {
  }

  // ----- the round trip -----

  /** The only special characters an accepted group can have. */
  lemma PlainGroup(group: string)
    requires Word(group)
    ensures Plain(group) <==> ':' !in group && '=' !in group
  {
  }

  /**
   * Reading the fragment of an accepted specification gives group, binary and arguments back exactly
   * if the group has neither of the two special characters it may have; otherwise there is no reading.
   */
  lemma FragmentRoundTrip(s: Spec)
    requires Accepted(s)
    ensures ReadFragment(Fragment(s.group, s.binary.text, s.args)) ==
            if ':' !in s.group && '=' !in s.group then Some((s.group, s.binary.text, s.args)) else None
  {
    hide Word, Fragment, Rule, Lines, Rules, Lex, Plain, ReadRule;
    PlainGroup(s.group);
    OneRule(s.group, s.binary.text, s.args);
    RuleRead(s.group, s.binary.text, s.args);
  }

  /** Such a specification: the group is validated, but not escaped. */
  lemma UnreadableGroup()
    ensures var s := Spec("a:b", TextPath("/d"), ["daemon"]);
            Accepted(s) && ReadFragment(Fragment(s.group, s.binary.text, s.args)) == None
  {
    var s := Spec("a:b", TextPath("/d"), ["daemon"]);
    assert s.group[1] == ':';
    FragmentRoundTrip(s);
  }

  /** Yet no two accepted specifications share a fragment. */
  lemma FragmentInjective(s: Spec, t: Spec)
    requires Accepted(s) && Accepted(t)
    requires Fragment(s.group, s.binary.text, s.args) == Fragment(t.group, t.binary.text, t.args)
    ensures s == t
  {
    hide Word, Preamble, Rule, Escape, EscapedArgs, ReadCommand, Lex;
    var a, b := Rule(s.group, s.binary.text, s.args), Rule(t.group, t.binary.text, t.args);
    SameMiddle(Preamble(), a, b, "\n");
    RuleIs(s.group, s.binary.text, s.args);
    RuleIs(t.group, t.binary.text, t.args);
    WordIsSafe(s.group);
    WordIsSafe(t.group);
    var c, d := Escape(s.binary.text) + EscapedArgs(s.args), Escape(t.binary.text) + EscapedArgs(t.args);
    SameRule("%" + s.group, "%" + t.group, HOSTS, TAGS, c, d);
    assert ("%" + s.group)[1..] == s.group && ("%" + t.group)[1..] == t.group;
    CommandRead(s.binary.text, s.args);
    CommandRead(t.binary.text, t.args);
  }

  lemma SameMiddle(p: string, a: string, b: string, q: string)
    requires p + a + q == p + b + q
    ensures a == b
  {
    var t := p + a + q;
    assert |a| == |b| && a == t[|p|..|p| + |a|] && b == t[|p|..|p| + |b|];
  }

  lemma SameRule(g: string, h: string, hosts: string, tags: string, c: string, d: string)
    requires ' ' !in g && ' ' !in h
    requires g + ([' '] + (hosts + ([' '] + (tags + [' '] + c)))) ==
             h + ([' '] + (hosts + ([' '] + (tags + [' '] + d))))
    ensures g == h && c == d
  {
    var r, r' := hosts + ([' '] + (tags + [' '] + c)), hosts + ([' '] + (tags + [' '] + d));
    assert g + ([' '] + r) == g + [' '] + r && h + ([' '] + r') == h + [' '] + r';
    UpToFirst(g, ' ', r);
    UpToFirst(h, ' ', r');
    assert (g + [' '] + r)[|g| + 1..] == r && (h + [' '] + r')[|h| + 1..] == r';
    var n := |hosts| + 1 + |tags| + 1;
    assert r[n..] == c && r'[n..] == d;
  }
}
