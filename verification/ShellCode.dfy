/**
 The parser of user/sh.c as it runs, advancing a cursor through the line, proved
 against the functions of module Shell; and nulterminate(), which turns the slices
 it found into C strings in place.
 */
module ShellCode {
  import opened Common
  import opened Shell
  import opened ShellPrint

  class Parser {
    const s: string
    var ps: nat

    constructor (line: string)
      ensures s == line && ps == 0
    {
      s, ps := line, 0;
    }

    method SkipSpaces(i: nat) returns (r: nat)
      requires i <= |s|
      ensures r == SkipSpace(s, i)
    {
      r := i;
      while r < |s| && IsSpace(s[r])
        invariant i <= r <= |s| && SkipSpace(s, r) == SkipSpace(s, i)
      {
        r := r + 1;
      }
    }

    /** gettoken() */
    method NextToken() returns (tok: char, q: nat, eq: nat)
      requires ps <= |s|
      modifies `ps
      ensures Token(tok, Slice(q, eq), ps) == GetToken(s, old(ps))
    {
      var p := SkipSpaces(ps);
      q := p;
      tok := At(s, p);
      if tok == NUL {
      } else if tok == '|' || tok == '(' || tok == ')' || tok == ';' || tok == '&' || tok == '<' {
        p := p + 1;
      } else if tok == '>' {
        p := p + 1;
        if At(s, p) == '>' {
          tok := '+';
          p := p + 1;
        }
      } else {
        tok := 'a';
        while p < |s| && !IsSpace(s[p]) && !IsSymbol(s[p])
          invariant q <= p <= |s| && SkipWord(s, p) == SkipWord(s, q)
        {
          p := p + 1;
        }
      }
      eq := p;
      ps := SkipSpaces(p);
    }

    /** peek() */
    method PeekToken(toks: string) returns (r: bool)
      requires ps <= |s|
      modifies `ps
      ensures ps == SkipSpace(s, old(ps)) && r == Peek(s, old(ps), toks)
    {
      ps := SkipSpaces(ps);
      r := At(s, ps) != NUL && At(s, ps) in toks;
    }

    method Redirs(acc: seq<Redirection>) returns (r: Result<seq<Redirection>>)
      requires ps <= |s|
      modifies `ps
      ensures ps <= |s|
      ensures var f := ParseRedirs(s, old(ps), acc);
              if f.Err? then r == Err(f.error) else r == Ok(f.value.0) && ps == f.value.1
    {
      var redirs := acc;
      var more := PeekToken("<>");
      ghost var at: nat := old(ps);
      while more
        invariant at <= |s| && ps == SkipSpace(s, at) && more == Peek(s, at, "<>")
        invariant ParseRedirs(s, at, redirs) == ParseRedirs(s, old(ps), acc)
        decreases |s| - ps
      {
        var tok, _, _ := NextToken();
        var kind, q, eq := NextToken();
        if kind != 'a' {
          return Err(MissingFile);
        }
        redirs := redirs + [Redirection(Slice(q, eq), ModeOf(tok))];
        at := ps;
        more := PeekToken("<>");
      }
      r := Ok(redirs);
    }

    method Exec() returns (r: Result<Cmd>)
      requires ps <= |s|
      modifies `ps
      ensures ps <= |s| && Agrees(r, ps, ParseExec(s, old(ps)))
      decreases |s| - ps, 1
    {
      var open := PeekToken("(");
      if open {
        r := Block();
        return;
      }
      var rs := Redirs([]);
      if rs.Err? {
        return Err(rs.error);
      }
      r := Words(rs.value);
    }

    /** The loop of parseexec(). */
    method Words(before: seq<Redirection>) returns (r: Result<Cmd>)
      requires ps <= |s|
      modifies `ps
      ensures ps <= |s|
      ensures var f := ParseArgs(s, old(ps), [], before);
              if f.Err? then r == Err(f.error)
              else r == Ok(Wrap(Cmd.Exec(f.value.args), f.value.redirs)) && ps == f.value.next
    {
      var args, redirs := [], before;
      ghost var at := ps;
      var stop := PeekToken("|)&;");
      while !stop
        invariant at <= |s| && ps == SkipSpace(s, at) && stop == Peek(s, at, "|)&;") && |args| < MAXARGS
        invariant ParseArgs(s, at, args, redirs) == ParseArgs(s, old(ps), [], before)
        decreases |s| - at
      {
        var tok, q, eq := NextToken();
        if tok == NUL {
          return Ok(Wrap(Cmd.Exec(args), redirs));
        }
        if tok != 'a' {
          return Err(Syntax);
        }
        args := args + [Slice(q, eq)];
        if |args| >= MAXARGS {
          return Err(TooManyArgs);
        }
        var rs := Redirs(redirs);
        if rs.Err? {
          return Err(rs.error);
        }
        redirs := rs.value;
        at := ps;
        stop := PeekToken("|)&;");
      }
      r := Ok(Wrap(Cmd.Exec(args), redirs));
    }

    method Block() returns (r: Result<Cmd>)
      requires ps <= |s| && Peek(s, ps, "(")
      modifies `ps
      ensures ps <= |s| && Agrees(r, ps, ParseBlock(s, old(ps)))
      decreases |s| - ps, 0
    {
      // panic("parseblock")
      var open := PeekToken("(");
      assert open;
      var _, _, _ := NextToken();
      var line := Line();
      if line.Err? {
        return line;
      }
      var close := PeekToken(")");
      if !close {
        return Err(MissingParen);
      }
      var _, _, _ := NextToken();
      var rs := Redirs([]);
      if rs.Err? {
        return Err(rs.error);
      }
      r := Ok(Wrap(line.value, rs.value));
    }

    method Pipe() returns (r: Result<Cmd>)
      requires ps <= |s|
      modifies `ps
      ensures ps <= |s| && Agrees(r, ps, ParsePipe(s, old(ps)))
      decreases |s| - ps, 2
    {
      r := Exec();
      if r.Err? {
        return;
      }
      var bar := PeekToken("|");
      if bar {
        var _, _, _ := NextToken();
        var right := Pipe();
        if right.Err? {
          return right;
        }
        r := Ok(Cmd.Pipe(r.value, right.value));
      }
    }

    method Line() returns (r: Result<Cmd>)
      requires ps <= |s|
      modifies `ps
      ensures ps <= |s| && Agrees(r, ps, ParseLine(s, old(ps)))
      decreases |s| - ps, 3
    {
      r := Pipe();
      if r.Err? {
        return;
      }
      var cmd := Backs(r.value);
      r := Ok(cmd);
      var semi := PeekToken(";");
      if semi {
        var _, _, _ := NextToken();
        var rest := Line();
        if rest.Err? {
          return rest;
        }
        r := Ok(Cmd.List(cmd, rest.value));
      }
    }

    /** The loop of parseline(). */
    method Backs(first: Cmd) returns (cmd: Cmd)
      requires ps <= |s|
      modifies `ps
      ensures ps <= |s| && (cmd, ps) == ParseBacks(s, old(ps), first)
    {
      cmd := first;
      ghost var at := ps;
      var amp := PeekToken("&");
      while amp
        invariant at <= |s| && ps == SkipSpace(s, at) && amp == Peek(s, at, "&")
        invariant ParseBacks(s, at, cmd) == ParseBacks(s, old(ps), first)
        decreases |s| - at
      {
        var _, _, _ := NextToken();
        cmd := Back(cmd);
        at := ps;
        amp := PeekToken("&");
      }
    }

    /** parsecmd(), before it NUL-terminates. */
    method Parse() returns (r: Result<Cmd>)
      requires ps == 0
      modifies `ps
      ensures r == ParseCmd(s)
    {
      r := Line();
      if r.Err? {
        return;
      }
      var _ := PeekToken("");
      if ps != |s| {
        r := Err(Leftovers);
      }
    }
  }

  /** A method's result and cursor are what a parsing function says. */
  ghost predicate Agrees(r: Result<Cmd>, ps: nat, f: Result<(Cmd, nat)>) {
    if f.Err? then r == Err(f.error) else r == Ok(f.value.0) && ps == f.value.1
  }

  // ---- The words found ----

  /** The arguments and file names of a command. */
  ghost function Slices(cmd: Cmd): set<Slice> {
    match cmd
    case Exec(args) => set w | w in args
    case Redir(sub, file, _) => Slices(sub) + {file}
    case Pipe(left, right) => Slices(left) + Slices(right)
    case List(left, right) => Slices(left) + Slices(right)
    case Back(sub) => Slices(sub)
  }

  /** Every argument and file name is a whole word of the line, and no command has more than nine arguments. */
  ghost predicate AllWords(s: string, cmd: Cmd) {
    match cmd
    case Exec(args) => |args| < MAXARGS && forall w :: w in args ==> IsWord(s, w)
    case Redir(sub, file, _) => AllWords(s, sub) && IsWord(s, file)
    case Pipe(left, right) => AllWords(s, left) && AllWords(s, right)
    case List(left, right) => AllWords(s, left) && AllWords(s, right)
    case Back(sub) => AllWords(s, sub)
  }

  lemma {:induction false} SliceIsWord(s: string, cmd: Cmd, w: Slice)
    requires AllWords(s, cmd) && w in Slices(cmd)
    ensures IsWord(s, w)
    decreases cmd
  {
    match cmd
    case Exec(args) =>
    case Redir(sub, file, _) => if w != file { SliceIsWord(s, sub, w); }
    case Pipe(left, right) => if w in Slices(left) { SliceIsWord(s, left, w); } else { SliceIsWord(s, right, w); }
    case List(left, right) => if w in Slices(left) { SliceIsWord(s, left, w); } else { SliceIsWord(s, right, w); }
    case Back(sub) => SliceIsWord(s, sub, w);
  }

  ghost predicate RedirWords(s: string, redirs: seq<Redirection>) { forall r :: r in redirs ==> IsWord(s, r.file) }

  lemma {:induction false} WrapWords(s: string, cmd: Cmd, redirs: seq<Redirection>)
    requires AllWords(s, cmd) && RedirWords(s, redirs)
    ensures AllWords(s, Wrap(cmd, redirs))
    decreases |redirs|
  {
    if redirs != [] {
      assert redirs[|redirs| - 1] in redirs;
      WrapWords(s, cmd, redirs[..|redirs| - 1]);
    }
  }

  lemma {:induction false} RedirsWords(s: string, i: nat, acc: seq<Redirection>)
    requires i <= |s| && RedirWords(s, acc)
    ensures var r := ParseRedirs(s, i, acc); r.Ok? ==> RedirWords(s, r.value.0)
    decreases |s| - i
  {
    if Peek(s, i, "<>") {
      var op := GetToken(s, SkipSpace(s, i));
      var w := GetToken(s, op.next);
      if w.kind == 'a' {
        RedirsWords(s, w.next, acc + [Redirection(w.word, ModeOf(op.kind))]);
      }
    }
  }

  lemma {:induction false} ArgsWords(s: string, i: nat, args: seq<Slice>, redirs: seq<Redirection>)
    requires i <= |s| && RedirWords(s, redirs) && |args| < MAXARGS && forall w :: w in args ==> IsWord(s, w)
    ensures var r := ParseArgs(s, i, args, redirs);
            r.Ok? ==>
              RedirWords(s, r.value.redirs) && |r.value.args| < MAXARGS &&
              forall w :: w in r.value.args ==> IsWord(s, w)
    decreases |s| - i
  {
    var t := GetToken(s, SkipSpace(s, i));
    if !Peek(s, i, "|)&;") && t.kind == 'a' && |args| + 1 < MAXARGS {
      RedirsWords(s, t.next, redirs);
      var rs := ParseRedirs(s, t.next, redirs);
      if rs.Ok? {
        ArgsWords(s, rs.value.1, args + [t.word], rs.value.0);
      }
    }
  }

  lemma {:induction false} ExecWords(s: string, i: nat)
    requires i <= |s|
    ensures var r := ParseExec(s, i); r.Ok? ==> AllWords(s, r.value.0)
    decreases |s| - i, 1
  {
    if Peek(s, i, "(") {
      BlockWords(s, SkipSpace(s, i));
    } else {
      RedirsWords(s, SkipSpace(s, i), []);
      var rs := ParseRedirs(s, SkipSpace(s, i), []);
      if rs.Ok? {
        ArgsWords(s, rs.value.1, [], rs.value.0);
        var a := ParseArgs(s, rs.value.1, [], rs.value.0);
        if a.Ok? {
          WrapWords(s, Exec(a.value.args), a.value.redirs);
        }
      }
    }
  }

  lemma {:induction false} BlockWords(s: string, i: nat)
    requires i <= |s| && Peek(s, i, "(")
    ensures var r := ParseBlock(s, i); r.Ok? ==> AllWords(s, r.value.0)
    decreases |s| - i, 0
  {
    var t := GetToken(s, SkipSpace(s, i));
    LineWords(s, t.next);
    var line := ParseLine(s, t.next);
    if line.Ok? && Peek(s, line.value.1, ")") {
      var close := GetToken(s, SkipSpace(s, line.value.1));
      RedirsWords(s, close.next, []);
      var rs := ParseRedirs(s, close.next, []);
      if rs.Ok? {
        WrapWords(s, line.value.0, rs.value.0);
      }
    }
  }

  lemma {:induction false} PipeWords(s: string, i: nat)
    requires i <= |s|
    ensures var r := ParsePipe(s, i); r.Ok? ==> AllWords(s, r.value.0)
    decreases |s| - i, 2
  {
    ExecWords(s, i);
    var left := ParseExec(s, i);
    if left.Ok? && Peek(s, left.value.1, "|") {
      PipeWords(s, GetToken(s, SkipSpace(s, left.value.1)).next);
    }
  }

  lemma {:induction false} BacksWords(s: string, i: nat, cmd: Cmd)
    requires i <= |s| && AllWords(s, cmd)
    ensures AllWords(s, ParseBacks(s, i, cmd).0)
    decreases |s| - i
  {
    if Peek(s, i, "&") {
      BacksWords(s, GetToken(s, SkipSpace(s, i)).next, Back(cmd));
    }
  }

  /** Every argument and file name of a parsed line is a whole word of it. */
  lemma {:induction false} LineWords(s: string, i: nat)
    requires i <= |s|
    ensures var r := ParseLine(s, i); r.Ok? ==> AllWords(s, r.value.0)
    decreases |s| - i, 3
  {
    PipeWords(s, i);
    var first := ParsePipe(s, i);
    if first.Ok? {
      BacksWords(s, first.value.1, first.value.0);
      var backs := ParseBacks(s, first.value.1, first.value.0);
      if Peek(s, backs.1, ";") {
        LineWords(s, GetToken(s, SkipSpace(s, backs.1)).next);
      }
    }
  }

  // ---- Parsing, printing and parsing again ----

  lemma WordIsLegal(s: string, w: Slice)
    requires IsWord(s, w) && forall c :: c in s ==> c != NUL
    ensures LegalWord(Text(s, w))
  {
    forall c | c in s[w.q..w.eq] ensures IsWordChar(c) {
      var k :| w.q <= k < w.eq && s[k] == c;
      assert s[k] in s;
    }
  }

  lemma {:induction false} WordsAreLegal(s: string, cmd: Cmd)
    requires AllWords(s, cmd) && forall c :: c in s ==> c != NUL
    ensures Legal(TextOf(s, cmd))
    decreases cmd
  {
    match cmd
    case Exec(args) =>
      forall w | w in Texts(s, args) ensures LegalWord(w) {
        var k :| 0 <= k < |args| && Texts(s, args)[k] == w;
        assert args[k] in args;
        WordIsLegal(s, args[k]);
      }
    case Redir(sub, file, _) =>
      WordsAreLegal(s, sub);
      WordIsLegal(s, file);
    case Pipe(left, right) =>
      WordsAreLegal(s, left);
      WordsAreLegal(s, right);
    case List(left, right) =>
      WordsAreLegal(s, left);
      WordsAreLegal(s, right);
    case Back(sub) =>
      WordsAreLegal(s, sub);
  }

  /** Whatever parses is a command tree that can be printed: words the shell can read, at most nine per command. */
  lemma ParsedIsLegal(s: string)
    requires forall c :: c in s ==> c != NUL
    ensures ParseCmd(s).Ok? ==> Legal(TextOf(s, ParseCmd(s).value))
  {
    LineWords(s, 0);
    if ParseCmd(s).Ok? {
      WordsAreLegal(s, ParseCmd(s).value);
    }
  }

  /** So printing what was parsed, and parsing that, gives the same tree. */
  lemma ParsePrintParse(s: string)
    requires (forall c :: c in s ==> c != NUL) && ParseCmd(s).Ok?
    ensures var p := Print(TextOf(s, ParseCmd(s).value));
            ParseCmd(p).Ok? && TextOf(p, ParseCmd(p).value) == TextOf(s, ParseCmd(s).value)
  {
    hide *;
    ParsedIsLegal(s);
    RoundTrip(TextOf(s, ParseCmd(s).value));
  }

  // ---- NUL termination ----

  /** A buffer with a NUL at the end of each of some slices. */
  ghost predicate Terminated(was: seq<char>, now: seq<char>, slices: set<Slice>) {
    && |now| == |was|
    && (forall k :: 0 <= k < |was| ==> now[k] == was[k] || (now[k] == NUL && exists w :: w in slices && w.eq == k))
    && (forall w :: w in slices ==> w.eq < |now| && now[w.eq] == NUL)
  }

  method NulTerminate(buf: array<char>, cmd: Cmd)
    requires forall w :: w in Slices(cmd) ==> w.eq < buf.Length
    modifies buf
    ensures Terminated(old(buf[..]), buf[..], Slices(cmd))
    decreases cmd
  {
    match cmd
    case Exec(args) =>
      for i := 0 to |args|
        invariant Terminated(old(buf[..]), buf[..], set w | w in args[..i])
      {
        assert args[i] in args;
        buf[args[i].eq] := NUL;
      }
      assert args[..|args|] == args;
    case Redir(sub, file, _) =>
      NulTerminate(buf, sub);
      buf[file.eq] := NUL;
    case Pipe(left, right) =>
      NulTerminate(buf, left);
      NulTerminate(buf, right);
    case List(left, right) =>
      NulTerminate(buf, left);
      NulTerminate(buf, right);
    case Back(sub) => NulTerminate(buf, sub);
  }

  /** The C string at q in a buffer. */
  function CString(b: seq<char>, q: nat): string
    decreases |b| - q
  {
    if q >= |b| || b[q] == NUL then "" else [b[q]] + CString(b, q + 1)
  }

  lemma {:induction false} CStringIs(b: seq<char>, q: nat, e: nat)
    requires q <= e < |b| && b[e] == NUL && forall k :: q <= k < e ==> b[k] != NUL
    ensures CString(b, q) == b[q..e]
    decreases e - q
  {
    if q < e {
      CStringIs(b, q + 1, e);
      assert b[q..e] == [b[q]] + b[q + 1..e];
    }
  }

  /**
   After parsing and NUL-terminating a line, every argument and file name is the C string of the
   characters it had in the line.
   */
  lemma WordsKept(s: string, cmd: Cmd, now: seq<char>, w: Slice)
    requires ParseCmd(s) == Ok(cmd) && (forall c :: c in s ==> c != NUL) && w in Slices(cmd)
    requires Terminated(s + [NUL], now, Slices(cmd))
    ensures w.q < w.eq <= |s| && CString(now, w.q) == s[w.q..w.eq]
  {
    LineWords(s, 0);
    SliceIsWord(s, cmd, w);
    forall k | w.q <= k < w.eq ensures now[k] == s[k] && s[k] != NUL {
      assert s[k] in s;
      forall v | v in Slices(cmd) ensures v.eq != k {
        SliceIsWord(s, cmd, v);
      }
      assert now[k] == (s + [NUL])[k];
    }
    CStringIs(now, w.q, w.eq);
    assert now[w.q..w.eq] == s[w.q..w.eq];
  }

  /** Every argument and file name is, in buffer now, the C string of the characters it has in line s. */
  ghost predicate AllKept(s: string, cmd: Cmd, now: seq<char>) {
    forall w :: w in Slices(cmd) ==> w.q < w.eq <= |s| && CString(now, w.q) == s[w.q..w.eq]
  }

  lemma TerminatedKept(s: string, cmd: Cmd, now: seq<char>)
    requires ParseCmd(s) == Ok(cmd) && (forall c :: c in s ==> c != NUL) && Terminated(s + [NUL], now, Slices(cmd))
    ensures AllKept(s, cmd, now)
  {
    forall w | w in Slices(cmd) ensures w.q < w.eq <= |s| && CString(now, w.q) == s[w.q..w.eq] {
      WordsKept(s, cmd, now, w);
    }
  }

  lemma EndsWithin(s: string, cmd: Cmd)
    requires ParseCmd(s) == Ok(cmd)
    ensures forall w :: w in Slices(cmd) ==> w.eq <= |s|
  {
    LineWords(s, 0);
    forall w | w in Slices(cmd) ensures w.eq <= |s| {
      SliceIsWord(s, cmd, w);
    }
  }

  /** parsecmd(): the line in buf is parsed, and its words become C strings in place. */
  method ParseCommand(buf: array<char>) returns (r: Result<Cmd>)
    requires buf.Length > 0 && buf[buf.Length - 1] == NUL && forall k :: 0 <= k < buf.Length - 1 ==> buf[k] != NUL
    modifies buf
    ensures r == ParseCmd(old(buf[..buf.Length - 1]))
    ensures if r.Ok? then AllKept(old(buf[..buf.Length - 1]), r.value, buf[..]) else buf[..] == old(buf[..])
  {
    hide ParseCmd, Terminated, AllKept, Slices;
    var line := buf[..buf.Length - 1];
    var parser := new Parser(line);
    r := parser.Parse();
    if r.Ok? {
      EndsWithin(line, r.value);
      assert buf[..] == line + [NUL];
      NulTerminate(buf, r.value);
      TerminatedKept(line, r.value, buf[..]);
    }
  }
}
