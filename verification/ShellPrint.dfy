/**
 Printing command trees with parentheses, and the proof that the parser of
 user/sh.c reads every printing back.
 */
module ShellPrint {
  import opened Common
  import opened Shell

  /** A command tree with the text of its words. */
  datatype Tree =
    | TExec(words: seq<string>)
    | TRedir(sub: Tree, file: string, mode: Mode)
    | TPipe(left: Tree, right: Tree)
    | TList(left: Tree, right: Tree)
    | TBack(sub: Tree)

  function Text(s: string, w: Slice): string { if w.q <= w.eq <= |s| then s[w.q..w.eq] else "" }

  function Texts(s: string, args: seq<Slice>): (r: seq<string>)
    ensures |r| == |args| && forall k :: 0 <= k < |args| ==> r[k] == Text(s, args[k])
  {
    seq(|args|, k requires 0 <= k < |args| => Text(s, args[k]))
  }

  /** What a parsed command says, given the line its slices are of. */
  function TextOf(s: string, cmd: Cmd): Tree {
    match cmd
    case Exec(args) => TExec(Texts(s, args))
    case Redir(sub, file, mode) => TRedir(TextOf(s, sub), Text(s, file), mode)
    case Pipe(left, right) => TPipe(TextOf(s, left), TextOf(s, right))
    case List(left, right) => TList(TextOf(s, left), TextOf(s, right))
    case Back(sub) => TBack(TextOf(s, sub))
  }

  predicate LegalWord(w: string) { w != "" && forall c :: c in w ==> IsWordChar(c) }

  /** Words the shell can read, and no more than nine of them per command. */
  predicate Legal(t: Tree) {
    match t
    case TExec(words) => |words| < MAXARGS && forall w :: w in words ==> LegalWord(w)
    case TRedir(sub, file, _) => Legal(sub) && LegalWord(file)
    case TPipe(left, right) => Legal(left) && Legal(right)
    case TList(left, right) => Legal(left) && Legal(right)
    case TBack(sub) => Legal(sub)
  }

  function Join(words: seq<string>): string {
    if words == [] then "" else if |words| == 1 then words[0] else words[0] + " " + Join(words[1..])
  }

  function Op(mode: Mode): string { match mode case Input => "<" case Output => ">" case Append => ">>" }

  function Paren(p: string): string { "(" + p + ")" }

  function Print(t: Tree): string {
    match t
    case TExec(words) => Join(words)
    case TRedir(sub, file, mode) => Paren(Print(sub)) + (Op(mode) + file)
    case TPipe(left, right) => Paren(Print(left)) + (['|'] + Paren(Print(right)))
    case TList(left, right) => Paren(Print(left)) + ([';'] + Paren(Print(right)))
    case TBack(sub) => Paren(Print(sub)) + ['&']
  }

  // ---- Reading what is at a place in the line ----

  ghost predicate HasAt(s: string, i: nat, w: string) { i + |w| <= |s| && s[i..i + |w|] == w }

  lemma HasBoth(s: string, i: nat, a: string, b: string)
    requires HasAt(s, i, a + b)
    ensures HasAt(s, i, a) && HasAt(s, i + |a|, b)
  {
    assert s[i..i + |a|] == (a + b)[..|a|];
    assert s[i + |a|..i + |a| + |b|] == (a + b)[|a|..];
  }

  lemma HasChar(s: string, i: nat, c: char)
    requires HasAt(s, i, [c])
    ensures i < |s| && s[i] == c
  {
    assert s[i..i + 1][0] == c;
  }

  ghost predicate Clean(s: string) { forall c :: c in s ==> c != NUL }

  /** Where a printed command ends: at the end of the line or before a parenthesis that closes. */
  ghost predicate Stops(s: string, e: nat) { e <= |s| && (e < |s| ==> s[e] == ')') }

  lemma NoSpace(s: string, i: nat)
    requires i < |s| ==> !IsSpace(s[i])
    ensures SkipSpace(s, i) == i
  {}

  lemma {:induction false} WordEnd(s: string, i: nat, e: nat)
    requires i <= e <= |s| && (forall k :: i <= k < e ==> IsWordChar(s[k]))
             && (e < |s| ==> IsSpace(s[e]) || IsSymbol(s[e]))
    ensures SkipWord(s, i) == e
    decreases e - i
  {
    if i < e {
      WordEnd(s, i + 1, e);
    }
  }

  lemma WordToken(s: string, i: nat, w: string)
    requires HasAt(s, i, w) && LegalWord(w) && (i + |w| < |s| ==> IsSpace(s[i + |w|]) || IsSymbol(s[i + |w|]))
    ensures i < |s| && IsWordChar(s[i])
    ensures GetToken(s, i) == Token('a', Slice(i, i + |w|), SkipSpace(s, i + |w|)) && Text(s, Slice(i, i + |w|)) == w
  {
    forall k | i <= k < i + |w| ensures IsWordChar(s[k]) {
      assert s[k] == s[i..i + |w|][k - i];
      assert w[k - i] in w;
    }
    NoSpace(s, i);
    WordEnd(s, i, i + |w|);
  }

  lemma SymbolToken(s: string, i: nat, c: char)
    requires i < |s| && s[i] == c && IsSymbol(c) && (c == '>' ==> At(s, i + 1) != '>')
    ensures GetToken(s, i) == Token(c, Slice(i, i + 1), SkipSpace(s, i + 1))
  {
    NoSpace(s, i);
  }

  // ---- Words ----

  // Nothing that parseredirs() would read.
  ghost predicate NoRedir(s: string, i: nat) {
    i <= |s| && (i < |s| ==> !IsSpace(s[i]) && s[i] != '<' && s[i] != '>')
  }

  lemma RedirsNone(s: string, i: nat, acc: seq<Redirection>)
    requires NoRedir(s, i)
    ensures SkipSpace(s, i) == i && ParseRedirs(s, i, acc) == Ok((acc, i))
  {
    NoSpace(s, i);
  }

  /** parseexec() reads one more word. */
  lemma ArgsStep(s: string, i: nat, w: string, args: seq<Slice>)
    requires HasAt(s, i, w) && LegalWord(w) && |args| + 1 < MAXARGS
    requires i + |w| < |s| ==> IsSpace(s[i + |w|]) || IsSymbol(s[i + |w|])
    requires NoRedir(s, SkipSpace(s, i + |w|))
    ensures i < |s|
    ensures ParseArgs(s, i, args, []) == ParseArgs(s, SkipSpace(s, i + |w|), args + [Slice(i, i + |w|)], [])
    ensures Texts(s, args + [Slice(i, i + |w|)]) == Texts(s, args) + [w]
  {
    WordToken(s, i, w);
    NoSpace(s, i);
    RedirsNone(s, SkipSpace(s, i + |w|), []);
  }

  lemma ArgsEnd(s: string, e: nat, args: seq<Slice>)
    requires Clean(s) && Stops(s, e)
    ensures ParseArgs(s, e, args, []) == Ok(Args(args, [], e))
  {
    NoSpace(s, e);
  }

  lemma {:induction false} ArgsRound(s: string, i: nat, words: seq<string>, args: seq<Slice>)
    requires Clean(s) && HasAt(s, i, Join(words)) && Stops(s, i + |Join(words)|)
    requires |args| + |words| < MAXARGS && forall w :: w in words ==> LegalWord(w)
    ensures var r := ParseArgs(s, i, args, []);
            && r.Ok? && r.value.redirs == [] && r.value.next == i + |Join(words)|
            && Texts(s, r.value.args) == Texts(s, args) + words
    decreases |words|
  {
    hide ParseArgs, Texts, Clean, LegalWord, HasAt, Join;
    JoinOne(words);
    if words == [] {
      ArgsEnd(s, i, args);
      assert Texts(s, args) + words == Texts(s, args);
    } else {
      var w := words[0];
      assert w in words;
      var args' := args + [Slice(i, i + |w|)];
      if |words| == 1 {
        NoSpace(s, i + |w|);
        ArgsStep(s, i, w, args);
        ArgsEnd(s, i + |w|, args');
        assert [w] == words;
      } else {
        SplitWords(s, i, words);
        var j := i + |w| + 1;
        NoSpace(s, j);
        ArgsStep(s, i, w, args);
        ArgsRound(s, j, words[1..], args');
        Append(Texts(s, args), words);
      }
    }
  }

  lemma JoinOne(words: seq<string>)
    ensures |words| == 0 ==> Join(words) == ""
    ensures |words| == 1 ==> Join(words) == words[0] && [words[0]] == words
  {}

  lemma Append(a: seq<string>, words: seq<string>)
    requires words != []
    ensures a + [words[0]] + words[1..] == a + words
  {}

  lemma SplitWords(s: string, i: nat, words: seq<string>)
    requires |words| > 1 && HasAt(s, i, Join(words)) && forall w :: w in words ==> LegalWord(w)
    ensures var w, rest := words[0], words[1..];
            && HasAt(s, i, w) && i + |w| + 1 < |s| && s[i + |w|] == ' ' && HasAt(s, i + |w| + 1, Join(rest))
            && |Join(words)| == |w| + 1 + |Join(rest)| && IsWordChar(s[i + |w| + 1])
            && SkipSpace(s, i + |w|) == i + |w| + 1
  {
    var w, rest := words[0], words[1..];
    assert Join(words) == w + (" " + Join(rest));
    HasBoth(s, i, w, " " + Join(rest));
    HasBoth(s, i + |w|, " ", Join(rest));
    HasChar(s, i + |w|, ' ');
    NextWord(s, i + |w| + 1, rest);
    NoSpace(s, i + |w| + 1);
  }

  /** What follows is a word, so no redirection is read and no end is seen. */
  lemma NextWord(s: string, j: nat, words: seq<string>)
    requires HasAt(s, j, Join(words)) && words != [] && forall w :: w in words ==> LegalWord(w)
    ensures j < |s| && IsWordChar(s[j])
  {
    var w := words[0];
    assert w in words && w[0] in w;
    assert Join(words)[0] == w[0];
    assert s[j] == s[j..j + |Join(words)|][0];
  }

  // ---- Commands ----

  /** A parse that succeeded, ended at e and found t. */
  ghost predicate Found(s: string, r: Result<(Cmd, nat)>, e: nat, t: Tree) {
    r.Ok? && r.value.1 == e && TextOf(s, r.value.0) == t
  }

  lemma ExecRound(s: string, i: nat, words: seq<string>)
    requires Clean(s) && HasAt(s, i, Join(words)) && Stops(s, i + |Join(words)|)
    requires |words| < MAXARGS && forall w :: w in words ==> LegalWord(w)
    ensures Found(s, ParseExec(s, i), i + |Join(words)|, TExec(words))
  {
    if words != [] {
      NextWord(s, i, words);
    }
    RedirsNone(s, i, []);
    ArgsRound(s, i, words, []);
    assert Texts(s, []) + words == words;
  }

  // No space, and not a character that would go on from an exec or a block.
  ghost predicate Ends(s: string, e: nat) { e <= |s| && (e < |s| ==> !IsSpace(s[e]) && s[e] != '|') }

  lemma PipeEnds(s: string, i: nat, e: nat)
    requires i <= |s| && ParseExec(s, i).Ok? && ParseExec(s, i).value.1 == e && Ends(s, e)
    ensures ParsePipe(s, i) == ParseExec(s, i)
  {
    NoSpace(s, e);
  }

  lemma LineEnds(s: string, i: nat, e: nat)
    requires i <= |s| && ParsePipe(s, i).Ok? && ParsePipe(s, i).value.1 == e && Stops(s, e)
    ensures ParseLine(s, i) == ParsePipe(s, i)
  {
    NoSpace(s, e);
  }

  /** parseblock() of a parenthesised printing, up to its redirections. */
  lemma BlockOpens(s: string, i: nat, t: Tree, e: nat)
    requires HasAt(s, i, Paren(Print(t))) && e == i + |Print(t)| + 2
    requires Found(s, ParseLine(s, i + 1), e - 1, t) && (e < |s| ==> !IsSpace(s[e]))
    requires i + 1 < |s| ==> !IsSpace(s[i + 1])
    ensures i < |s|
    ensures var rs, cmd := ParseRedirs(s, e, []), ParseLine(s, i + 1).value.0;
            ParseExec(s, i) == if rs.Err? then Err(rs.error) else Ok((Wrap(cmd, rs.value.0), rs.value.1))
  {
    hide ParseLine, ParseRedirs, TextOf, Print;
    Parens(s, i, Print(t), e);
    NoSpace(s, i);
    NoSpace(s, i + 1);
    NoSpace(s, e - 1);
    NoSpace(s, e);
    SymbolToken(s, i, '(');
    SymbolToken(s, e - 1, ')');
  }

  lemma Parens(s: string, i: nat, p: string, e: nat)
    requires HasAt(s, i, Paren(p)) && e == i + |p| + 2
    ensures e <= |s| && s[i] == '(' && HasAt(s, i + 1, p) && s[e - 1] == ')'
  {
    assert Paren(p) == "(" + (p + ")");
    HasBoth(s, i, "(", p + ")");
    HasBoth(s, i + 1, p, ")");
    HasChar(s, i, '(');
    HasChar(s, e - 1, ')');
  }

  lemma BlockRound(s: string, i: nat, t: Tree, e: nat)
    requires HasAt(s, i, Paren(Print(t))) && e == i + |Print(t)| + 2
    requires Found(s, ParseLine(s, i + 1), e - 1, t) && NoRedir(s, e)
    requires i + 1 < |s| ==> !IsSpace(s[i + 1])
    ensures Found(s, ParseExec(s, i), e, t)
  {
    hide ParseExec, ParseLine, Print;
    BlockOpens(s, i, t, e);
    RedirsNone(s, e, []);
  }

  lemma OpToken(s: string, i: nat, mode: Mode, w: string)
    requires HasAt(s, i, Op(mode) + w) && LegalWord(w)
    ensures var j := i + |Op(mode)|;
            && i < |s| && (s[i] == '<' || s[i] == '>') && HasAt(s, j, w)
            && GetToken(s, i).next == j && ModeOf(GetToken(s, i).kind) == mode
  {
    var j := i + |Op(mode)|;
    HasBoth(s, i, Op(mode), w);
    FirstOf(s, j, w);
    NoSpace(s, j);
    NoSpace(s, i);
    match mode
    case Input => HasChar(s, i, '<');
    case Output => HasChar(s, i, '>');
    case Append =>
      assert ">>" == ">" + ">";
      HasBoth(s, i, ">", ">");
      HasChar(s, i, '>');
      HasChar(s, i + 1, '>');
  }

  lemma FirstOf(s: string, j: nat, w: string)
    requires HasAt(s, j, w) && LegalWord(w)
    ensures j < |s| && IsWordChar(s[j])
  {
    assert w[0] in w;
    assert s[j] == s[j..j + |w|][0];
  }

  /** parseredirs() of one printed redirection. */
  lemma RedirRound(s: string, i: nat, mode: Mode, w: string)
    requires HasAt(s, i, Op(mode) + w) && LegalWord(w) && Stops(s, i + |Op(mode)| + |w|)
    ensures var j, e := i + |Op(mode)|, i + |Op(mode)| + |w|;
            ParseRedirs(s, i, []) == Ok(([Redirection(Slice(j, e), mode)], e)) && Text(s, Slice(j, e)) == w
  {
    hide GetToken, ModeOf, LegalWord;
    var j, e := i + |Op(mode)|, i + |Op(mode)| + |w|;
    OpToken(s, i, mode, w);
    NoSpace(s, i);
    NoSpace(s, e);
    WordToken(s, j, w);
    RedirsNone(s, e, [Redirection(Slice(j, e), mode)]);
    assert [] + [Redirection(Slice(j, e), mode)] == [Redirection(Slice(j, e), mode)];
  }

  /** A printing does not begin with a space, nor does what follows an empty one. */
  lemma NoLeadingSpace(s: string, i: nat, t: Tree)
    requires Legal(t) && HasAt(s, i, Print(t)) && (i + |Print(t)| < |s| ==> !IsSpace(s[i + |Print(t)|]))
    ensures i < |s| ==> !IsSpace(s[i])
  {
    if t.TExec? {
      if t.words != [] {
        NextWord(s, i, t.words);
      }
    } else {
      assert Print(t)[0] == '(';
      assert s[i..i + |Print(t)|][0] == s[i];
    }
  }

  /** A parenthesised printing followed by rest, at i. */
  lemma Opened(s: string, i: nat, t: Tree, rest: string)
    requires Legal(t) && HasAt(s, i, Paren(Print(t)) + rest)
    ensures var e := i + |Print(t)| + 2;
            && e + |rest| <= |s| && HasAt(s, i, Paren(Print(t))) && HasAt(s, e, rest)
            && HasAt(s, i + 1, Print(t)) && Stops(s, e - 1) && s[i] == '(' && !IsSpace(s[i + 1])
  {
    hide Print, Legal;
    HasBoth(s, i, Paren(Print(t)), rest);
    Parens(s, i, Print(t), i + |Print(t)| + 2);
    NoLeadingSpace(s, i + 1, t);
  }

  /** Two parenthesised printings with c between them. */
  lemma OpenedTwo(s: string, i: nat, left: Tree, c: char, right: Tree)
    requires Legal(left) && Legal(right) && HasAt(s, i, Paren(Print(left)) + ([c] + Paren(Print(right))))
    ensures var m := i + |Print(left)| + 2;
            var e := m + 1 + |Print(right)| + 2;
            && e <= |s| && HasAt(s, i, Paren(Print(left))) && HasAt(s, i + 1, Print(left)) && Stops(s, m - 1)
            && !IsSpace(s[i + 1])
            && s[m] == c && s[m + 1] == '('
            && HasAt(s, m + 1, Paren(Print(right))) && HasAt(s, m + 2, Print(right)) && Stops(s, e - 1)
            && !IsSpace(s[m + 2])
  {
    hide Print, Legal, Paren, HasAt;
    var m := i + |Print(left)| + 2;
    Opened(s, i, left, [c] + Paren(Print(right)));
    HasBoth(s, m, [c], Paren(Print(right)));
    HasChar(s, m, c);
    assert Paren(Print(right)) + "" == Paren(Print(right));
    Opened(s, m + 1, right, "");
  }

  /** What a block at i, up to m, and a block after the next character, up to e, look like. */
  ghost predicate TwoBlocks(s: string, i: nat, m: nat, e: nat, left: Tree, right: Tree) {
    && m == i + |Print(left)| + 2 && e == m + 1 + |Print(right)| + 2 && Stops(s, e)
    && HasAt(s, i, Paren(Print(left))) && HasAt(s, m + 1, Paren(Print(right)))
    && !IsSpace(s[i + 1]) && s[m + 1] == '(' && !IsSpace(s[m + 2])
    && Found(s, ParseLine(s, i + 1), m - 1, left) && Found(s, ParseLine(s, m + 2), e - 1, right)
  }

  lemma PipeParsed(s: string, i: nat, m: nat, e: nat, left: Tree, right: Tree)
    requires TwoBlocks(s, i, m, e, left, right) && s[m] == '|'
    ensures Found(s, ParseLine(s, i), e, TPipe(left, right))
  {
    hide ParseExec, Print, Paren;
    BlockRound(s, i, left, m);
    BlockRound(s, m + 1, right, e);
    PipeEnds(s, m + 1, e);
    NoSpace(s, m);
    NoSpace(s, m + 1);
    SymbolToken(s, m, '|');
    assert Found(s, ParsePipe(s, i), e, TPipe(left, right));
    LineEnds(s, i, e);
  }

  lemma ListParsed(s: string, i: nat, m: nat, e: nat, left: Tree, right: Tree)
    requires TwoBlocks(s, i, m, e, left, right) && s[m] == ';'
    ensures Found(s, ParseLine(s, i), e, TList(left, right))
  {
    hide ParseExec, ParsePipe, Print, Paren, GetToken;
    BlockRound(s, i, left, m);
    PipeEnds(s, i, m);
    BlockRound(s, m + 1, right, e);
    PipeEnds(s, m + 1, e);
    LineEnds(s, m + 1, e);
    NoSpace(s, m);
    NoSpace(s, m + 1);
    SymbolToken(s, m, ';');
    assert ParseBacks(s, m, ParsePipe(s, i).value.0) == (ParsePipe(s, i).value.0, m);
  }

  lemma BackParsed(s: string, i: nat, m: nat, sub: Tree)
    requires HasAt(s, i, Paren(Print(sub))) && m == i + |Print(sub)| + 2 && m < |s| && s[m] == '&' && Stops(s, m + 1)
    requires !IsSpace(s[i + 1]) && Found(s, ParseLine(s, i + 1), m - 1, sub)
    ensures Found(s, ParseLine(s, i), m + 1, TBack(sub))
  {
    hide ParseExec, ParsePipe, Print, Paren;
    BlockRound(s, i, sub, m);
    PipeEnds(s, i, m);
    NoSpace(s, m);
    NoSpace(s, m + 1);
    SymbolToken(s, m, '&');
    var cmd := ParsePipe(s, i).value.0;
    assert ParseBacks(s, m + 1, Back(cmd)) == (Back(cmd), m + 1);
    assert ParseBacks(s, m, cmd) == (Back(cmd), m + 1);
  }

  lemma RedirParsed(s: string, i: nat, m: nat, sub: Tree, mode: Mode, w: string)
    requires HasAt(s, i, Paren(Print(sub))) && m == i + |Print(sub)| + 2 && HasAt(s, m, Op(mode) + w) && LegalWord(w)
    requires !IsSpace(s[i + 1]) && Found(s, ParseLine(s, i + 1), m - 1, sub) && Stops(s, m + |Op(mode)| + |w|)
    ensures Found(s, ParseLine(s, i), m + |Op(mode)| + |w|, TRedir(sub, w, mode))
  {
    hide ParseExec, ParsePipe, ParseRedirs, Print, Paren, LegalWord;
    var e := m + |Op(mode)| + |w|;
    OpToken(s, m, mode, w);
    RedirRound(s, m, mode, w);
    BlockOpens(s, i, sub, m);
    PipeEnds(s, i, e);
    LineEnds(s, i, e);
    var r := Redirection(Slice(m + |Op(mode)|, e), mode);
    var cmd := ParseLine(s, i + 1).value.0;
    assert Wrap(cmd, [r]) == Redir(Wrap(cmd, []), r.file, r.mode);
  }

  /** Wherever a printing stands before the end of the line or a closing parenthesis, parseline() reads exactly it. */
  lemma {:induction false} LineRound(s: string, i: nat, t: Tree)
    requires Clean(s) && Legal(t) && HasAt(s, i, Print(t)) && Stops(s, i + |Print(t)|)
    ensures Found(s, ParseLine(s, i), i + |Print(t)|, t)
    decreases t
  {
    hide ParseExec, ParsePipe, ParseLine, HasAt, TextOf, Clean, Stops, LegalWord;
    var e := i + |Print(t)|;
    match t
    case TExec(words) =>
      ExecRound(s, i, words);
      StopsEnds(s, e);
      PipeEnds(s, i, e);
      LineEnds(s, i, e);
    case TRedir(sub, file, mode) =>
      Opened(s, i, sub, Op(mode) + file);
      LineRound(s, i + 1, sub);
      RedirParsed(s, i, i + |Print(sub)| + 2, sub, mode, file);
    case TPipe(left, right) =>
      OpenedTwo(s, i, left, '|', right);
      LineRound(s, i + 1, left);
      LineRound(s, i + |Print(left)| + 4, right);
      PipeParsed(s, i, i + |Print(left)| + 2, e, left, right);
    case TList(left, right) =>
      OpenedTwo(s, i, left, ';', right);
      LineRound(s, i + 1, left);
      LineRound(s, i + |Print(left)| + 4, right);
      ListParsed(s, i, i + |Print(left)| + 2, e, left, right);
    case TBack(sub) =>
      Opened(s, i, sub, ['&']);
      HasChar(s, i + |Print(sub)| + 2, '&');
      LineRound(s, i + 1, sub);
      BackParsed(s, i, i + |Print(sub)| + 2, sub);
  }

  lemma StopsEnds(s: string, e: nat)
    requires Stops(s, e)
    ensures Ends(s, e)
  {}

  lemma {:induction false} PrintClean(t: Tree)
    requires Legal(t)
    ensures Clean(Print(t))
    decreases t
  {
    match t
    case TExec(words) => JoinClean(words);
    case TRedir(sub, file, mode) => PrintClean(sub);
    case TPipe(left, right) => PrintClean(left); PrintClean(right);
    case TList(left, right) => PrintClean(left); PrintClean(right);
    case TBack(sub) => PrintClean(sub);
  }

  lemma {:induction false} JoinClean(words: seq<string>)
    requires forall w :: w in words ==> LegalWord(w)
    ensures Clean(Join(words))
    decreases |words|
  {
    if |words| == 1 {
      assert words[0] in words;
    } else if |words| > 1 {
      assert words[0] in words;
      JoinClean(words[1..]);
    }
  }

  /** Parsing a parenthesised printing of any command tree gives that tree back. */
  lemma RoundTrip(t: Tree)
    requires Legal(t)
    ensures ParseCmd(Print(t)).Ok? && TextOf(Print(t), ParseCmd(Print(t)).value) == t
  {
    var s := Print(t);
    PrintClean(t);
    assert s[0..0 + |s|] == s;
    LineRound(s, 0, t);
    NoSpace(s, |s|);
  }

  lemma {:induction false} ArgsTooMany(s: string, i: nat, words: seq<string>, args: seq<Slice>)
    requires HasAt(s, i, Join(words))
             && (i + |Join(words)| < |s| ==> IsSpace(s[i + |Join(words)|]) || IsSymbol(s[i + |Join(words)|]))
    requires |args| < MAXARGS <= |args| + |words| && forall w :: w in words ==> LegalWord(w)
    ensures ParseArgs(s, i, args, []) == Err(TooManyArgs)
    decreases |words|
  {
    hide ParseArgs, Texts, LegalWord, HasAt, Join;
    JoinOne(words);
    var w := words[0];
    assert w in words;
    if |words| > 1 {
      SplitWords(s, i, words);
    }
    if |args| + 1 < MAXARGS {
      NoSpace(s, i + |w| + 1);
      ArgsStep(s, i, w, args);
      ArgsTooMany(s, i + |w| + 1, words[1..], args + [Slice(i, i + |w|)]);
    } else {
      OneTooMany(s, i, w, args);
    }
  }

  lemma OneTooMany(s: string, i: nat, w: string, args: seq<Slice>)
    requires HasAt(s, i, w) && LegalWord(w) && |args| + 1 == MAXARGS
    requires i + |w| < |s| ==> IsSpace(s[i + |w|]) || IsSymbol(s[i + |w|])
    ensures ParseArgs(s, i, args, []) == Err(TooManyArgs)
  {
    WordToken(s, i, w);
    NoSpace(s, i);
  }

  /** Ten words or more are refused: nine is the most an exec can have. */
  lemma TenWords(words: seq<string>)
    requires MAXARGS <= |words| && forall w :: w in words ==> LegalWord(w)
    ensures ParseCmd(Join(words)) == Err(TooManyArgs)
  {
    hide Join, ParseExec;
    var s := Join(words);
    assert s[0..0 + |s|] == s;
    ExecTooMany(s, words);
    assert ParsePipe(s, 0) == Err(TooManyArgs);
    assert ParseLine(s, 0) == Err(TooManyArgs);
  }

  lemma ExecTooMany(s: string, words: seq<string>)
    requires HasAt(s, 0, Join(words)) && |s| == |Join(words)| && MAXARGS <= |words| &&
             forall w :: w in words ==> LegalWord(w)
    ensures ParseExec(s, 0) == Err(TooManyArgs)
  {
    hide ParseArgs, ParseRedirs, Join, LegalWord, HasAt;
    NextWord(s, 0, words);
    NoSpace(s, 0);
    RedirsNone(s, 0, []);
    ArgsTooMany(s, 0, words, []);
  }
}
