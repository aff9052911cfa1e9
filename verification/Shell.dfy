/**
 The command parser of user/sh.c: tokens, recursive descent over a shared cursor,
 and the NUL-termination of the words it found.
 */
module Shell {
  import opened Common

  // ---- Characters ----

  // " \t\r\n\v"
  predicate IsSpace(c: char) { c == ' ' || c == '\t' || c == '\r' || c == '\n' || c == '\U{0b}' }

  // "<|>&;()"
  predicate IsSymbol(c: char) { c == '<' || c == '|' || c == '>' || c == '&' || c == ';' || c == '(' || c == ')' }

  predicate IsWordChar(c: char) { c != NUL && !IsSpace(c) && !IsSymbol(c) }

  // The character at i of a NUL-terminated line.
  function At(s: string, i: nat): char { if i < |s| then s[i] else NUL }

  // ---- Commands ----

  // O_RDONLY, O_WRONLY|O_CREATE|O_TRUNC, O_WRONLY|O_CREATE
  datatype Mode = Input | Output | Append

  /** A slice of the line: argv and eargv, or file and efile. */
  datatype Slice = Slice(q: nat, eq: nat)

  datatype Cmd =
    | Exec(args: seq<Slice>)
    | Redir(sub: Cmd, file: Slice, mode: Mode)
    | Pipe(left: Cmd, right: Cmd)
    | List(left: Cmd, right: Cmd)
    | Back(sub: Cmd)

  datatype Error = MissingFile | MissingParen | Syntax | TooManyArgs | Leftovers

  datatype Result<+T> = Ok(value: T) | Err(error: Error)

  const MAXARGS := 10

  // ---- Tokens ----

  function SkipSpace(s: string, i: nat): (r: nat)
    ensures i <= r && (i <= |s| ==> r <= |s|) && (r < |s| ==> !IsSpace(s[r]))
    decreases |s| - i
  {
    if i < |s| && IsSpace(s[i]) then SkipSpace(s, i + 1) else i
  }

  function SkipWord(s: string, i: nat): (r: nat)
    ensures i <= r && (i <= |s| ==> r <= |s|) && (r < |s| ==> IsSpace(s[r]) || IsSymbol(s[r]))
    ensures forall k :: i <= k < r ==> k < |s| && !IsSpace(s[k]) && !IsSymbol(s[k])
    decreases |s| - i
  {
    if i < |s| && !IsSpace(s[i]) && !IsSymbol(s[i]) then SkipWord(s, i + 1) else i
  }

  // What gettoken() returns and where it leaves the cursor.
  datatype Token = Token(kind: char, word: Slice, next: nat)

  function GetToken(s: string, i: nat): (t: Token)
    ensures i <= |s| ==> i <= t.word.q <= t.word.eq <= t.next <= |s|
    ensures i <= |s| && t.kind != NUL ==> i < t.next
    ensures i <= |s| && t.kind == 'a' ==> IsWord(s, t.word)
  {
    var q := SkipSpace(s, i);
    var c := At(s, q);
    var kind := if c == NUL then NUL
                else if c == '>' && At(s, q + 1) == '>' then '+'
                else if IsSymbol(c) then c else 'a';
    var eq := if kind == NUL then q else if kind == '+' then q + 2 else if kind == 'a' then SkipWord(s, q) else q + 1;
    Token(kind, Slice(q, eq), SkipSpace(s, eq))
  }

  /** A slice is a whole word: word characters up to the end of the line or a character that is none. */
  predicate IsWord(s: string, w: Slice) {
    && w.q < w.eq <= |s| && (forall k :: w.q <= k < w.eq ==> !IsSpace(s[k]) && !IsSymbol(s[k]))
    && (w.eq < |s| ==> IsSpace(s[w.eq]) || IsSymbol(s[w.eq]))
  }

  // peek(): whether the next character is one of toks.
  predicate Peek(s: string, i: nat, toks: string) {
    var c := At(s, SkipSpace(s, i));
    c != NUL && c in toks
  }

  // ---- The grammar, as functions of the line and the cursor ----

  datatype Redirection = Redirection(file: Slice, mode: Mode)

  function ModeOf(kind: char): Mode { if kind == '<' then Input else if kind == '>' then Output else Append }

  /** A command with redirections around it, the first innermost. */
  function Wrap(cmd: Cmd, redirs: seq<Redirection>): Cmd {
    if redirs == [] then cmd
    else
      var last := redirs[|redirs| - 1];
      Redir(Wrap(cmd, redirs[..|redirs| - 1]), last.file, last.mode)
  }

  function ParseRedirs(s: string, i: nat, acc: seq<Redirection>): (r: Result<(seq<Redirection>, nat)>)
    requires i <= |s|
    ensures r.Ok? ==> i <= r.value.1 <= |s|
    decreases |s| - i
  {
    if !Peek(s, i, "<>") then Ok((acc, SkipSpace(s, i)))
    else
      var op := GetToken(s, SkipSpace(s, i));
      var w := GetToken(s, op.next);
      if w.kind != 'a' then Err(MissingFile) else ParseRedirs(s, w.next, acc + [Redirection(w.word, ModeOf(op.kind))])
  }

  datatype Args = Args(args: seq<Slice>, redirs: seq<Redirection>, next: nat)

  function ParseArgs(s: string, i: nat, args: seq<Slice>, redirs: seq<Redirection>): (r: Result<Args>)
    requires i <= |s|
    ensures r.Ok? ==> i <= r.value.next <= |s|
    decreases |s| - i
  {
    if Peek(s, i, "|)&;") then Ok(Args(args, redirs, SkipSpace(s, i)))
    else
      var t := GetToken(s, SkipSpace(s, i));
      if t.kind == NUL then Ok(Args(args, redirs, t.next))
      else if t.kind != 'a' then Err(Syntax)
      else if |args| + 1 >= MAXARGS then Err(TooManyArgs)
      else
        var rs := ParseRedirs(s, t.next, redirs);
        if rs.Err? then Err(rs.error) else ParseArgs(s, rs.value.1, args + [t.word], rs.value.0)
  }

  function ParseExec(s: string, i: nat): (r: Result<(Cmd, nat)>)
    requires i <= |s|
    ensures r.Ok? ==> i <= r.value.1 <= |s|
    decreases |s| - i, 1
  {
    if Peek(s, i, "(") then ParseBlock(s, SkipSpace(s, i))
    else
      var rs := ParseRedirs(s, SkipSpace(s, i), []);
      if rs.Err? then Err(rs.error)
      else
        var a := ParseArgs(s, rs.value.1, [], rs.value.0);
        if a.Err? then Err(a.error) else Ok((Wrap(Exec(a.value.args), a.value.redirs), a.value.next))
  }

  function ParseBlock(s: string, i: nat): (r: Result<(Cmd, nat)>)
    requires i <= |s| && Peek(s, i, "(")
    ensures r.Ok? ==> i <= r.value.1 <= |s|
    decreases |s| - i, 0
  {
    var t := GetToken(s, SkipSpace(s, i));
    var line := ParseLine(s, t.next);
    if line.Err? then Err(line.error)
    else if !Peek(s, line.value.1, ")") then Err(MissingParen)
    else
      var close := GetToken(s, SkipSpace(s, line.value.1));
      var rs := ParseRedirs(s, close.next, []);
      if rs.Err? then Err(rs.error) else Ok((Wrap(line.value.0, rs.value.0), rs.value.1))
  }

  function ParsePipe(s: string, i: nat): (r: Result<(Cmd, nat)>)
    requires i <= |s|
    ensures r.Ok? ==> i <= r.value.1 <= |s|
    decreases |s| - i, 2
  {
    var left := ParseExec(s, i);
    if left.Err? then Err(left.error)
    else if !Peek(s, left.value.1, "|") then Ok((left.value.0, SkipSpace(s, left.value.1)))
    else
      var t := GetToken(s, SkipSpace(s, left.value.1));
      var right := ParsePipe(s, t.next);
      if right.Err? then Err(right.error) else Ok((Pipe(left.value.0, right.value.0), right.value.1))
  }

  function ParseBacks(s: string, i: nat, cmd: Cmd): (r: (Cmd, nat))
    requires i <= |s|
    ensures i <= r.1 <= |s|
    decreases |s| - i
  {
    if !Peek(s, i, "&") then (cmd, SkipSpace(s, i)) else ParseBacks(s, GetToken(s, SkipSpace(s, i)).next, Back(cmd))
  }

  function ParseLine(s: string, i: nat): (r: Result<(Cmd, nat)>)
    requires i <= |s|
    ensures r.Ok? ==> i <= r.value.1 <= |s|
    decreases |s| - i, 3
  {
    var first := ParsePipe(s, i);
    if first.Err? then Err(first.error)
    else
      var backs := ParseBacks(s, first.value.1, first.value.0);
      if !Peek(s, backs.1, ";") then Ok((backs.0, SkipSpace(s, backs.1)))
      else
        var t := GetToken(s, SkipSpace(s, backs.1));
        var rest := ParseLine(s, t.next);
        if rest.Err? then Err(rest.error) else Ok((List(backs.0, rest.value.0), rest.value.1))
  }

  function ParseCmd(s: string): Result<Cmd> {
    var line := ParseLine(s, 0);
    if line.Err? then Err(line.error)
    else if SkipSpace(s, line.value.1) != |s| then Err(Leftovers)
    else Ok(line.value.0)
  }
}
